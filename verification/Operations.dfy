/** What each callback of the client does, field by field and number by number: module Client
    against the plain wording of Client.c. Nothing here is said in terms of the functions it is
    about. */
module Operations {
  import opened Basics
  import opened Wire
  import Client

  // ---------- the searches ----------

  /** Entry i is the first whose name the wanted one begins with. */
  ghost predicate IsOwnedAs(owned: seq<Client.FileInfo>, wanted: Name, i: int) {
    0 <= i < |owned| && owned[i].name <= wanted && forall j :: 0 <= j < i ==> !(owned[j].name <= wanted)
  }

  /** Entry i is the first whose name begins with the download's. */
  ghost predicate IsOwnedFor(owned: seq<Client.FileInfo>, download: Name, i: int) {
    0 <= i < |owned| && download <= owned[i].name && forall j :: 0 <= j < i ==> !(download <= owned[j].name)
  }

  ghost predicate IsDownload(ds: seq<Client.Download>, wanted: Name, k: int) {
    0 <= k < |ds| && ds[k].name <= wanted && forall j :: 0 <= j < k ==> !(ds[j].name <= wanted)
  }

  ghost predicate IsGroup(groups: seq<Client.Group>, wanted: Name, i: int) {
    0 <= i < |groups| && groups[i].name <= wanted && forall j :: 0 <= j < i ==> !(groups[j].name <= wanted)
  }

  ghost predicate IsAtPort(addrs: seq<Peer>, port: int, i: int) {
    0 <= i < |addrs| && addrs[i].port == port && forall j :: 0 <= j < i ==> addrs[j].port != port
  }

  ghost predicate IsWithId(addrs: seq<Peer>, id: int, i: int) {
    0 <= i < |addrs| && addrs[i].id == id && forall j :: 0 <= j < i ==> addrs[j].id != id
  }

  // A search comes to an end at the first hit, if there is one.

  lemma {:induction false} OwnedHits(owned: seq<Client.FileInfo>, name: Name)
    ensures var x := Client.OwnedAs(owned, name); x <= |owned| && (IsOwnedAs(owned, name, x) <==> x < |owned|) && forall i :: IsOwnedAs(owned, name, i) ==> i == x
    ensures var x := Client.OwnedFor(owned, name); x <= |owned| && (IsOwnedFor(owned, name, x) <==> x < |owned|) && forall i :: IsOwnedFor(owned, name, i) ==> i == x
  {
    hide FirstIndex;
  }

  lemma {:induction false} DownloadHits(ds: seq<Client.Download>, name: Name)
    ensures var x := Client.DownloadFor(ds, name); x <= |ds| && (IsDownload(ds, name, x) <==> x < |ds|) && forall k :: IsDownload(ds, name, k) ==> k == x
  {
    hide FirstIndex;
  }

  lemma {:induction false} GroupHits(groups: seq<Client.Group>, name: Name)
    ensures var x := Client.GroupFor(groups, name); x <= |groups| && (IsGroup(groups, name, x) <==> x < |groups|) && forall i :: IsGroup(groups, name, i) ==> i == x
  {
    hide FirstIndex;
  }

  lemma {:induction false} AddressHits(addrs: seq<Peer>, v: int)
    ensures var x := Client.IndexOfId(addrs, v); x <= |addrs| && (IsWithId(addrs, v, x) <==> x < |addrs|) && forall i :: IsWithId(addrs, v, i) ==> i == x
    ensures var x := Client.IndexOfPort(addrs, v); x <= |addrs| && (IsAtPort(addrs, v, x) <==> x < |addrs|) && forall i :: IsAtPort(addrs, v, i) ==> i == x
  {
    hide FirstIndex;
  }

  // ---------- addresses ----------

  /** A sender whose port is not on file (or on file with an id that reads as -1) is noted. */
  ghost predicate SenderNoted(addrs: seq<Peer>, addrs': seq<Peer>, id: int, port: int) {
    if exists i :: IsAtPort(addrs, port, i) && addrs[i].id != -1 then addrs' == addrs
    else addrs' == addrs + [Peer(id, port)]
  }

  lemma {:induction false} LearnSenderNotes(addrs: seq<Peer>, id: int, port: int)
    ensures SenderNoted(addrs, Client.LearnSender(addrs, id, port), id, port)
  {
    hide FirstIndex;
    AddressHits(addrs, port);
  }

  /** Where a datagram to client id goes: to the port of its first entry, or to port 65535. */
  ghost predicate GoesTo(addrs: seq<Peer>, id: int, port: int) {
    && (forall i :: IsWithId(addrs, id, i) ==> port == addrs[i].port % 65536)
    && ((forall i :: !IsWithId(addrs, id, i)) ==> port == 65535)
  }

  lemma {:induction false} SendPortGoes(addrs: seq<Peer>, id: int)
    ensures GoesTo(addrs, id, Client.SendPort(addrs, id))
  {
    hide FirstIndex;
    AddressHits(addrs, id);
  }

  // ---------- CLNT_INFO_REQ ----------

  ghost predicate CountsUp(segs: seq<int>, n: int) {
    |segs| == n && forall i :: 0 <= i < n ==> segs[i] == i
  }

  /** Resets the idle count, notes the sender, and answers with the numbers of all segments of the
      first owned file of the name, if it has any. */
  lemma {:induction false} InfoRequestIs(st: Client.State, cid: int, name: Name, from: int, junk: seq<byte>)
    ensures var (st', outs) := Client.Handle(st, InfoReq(cid, name), from, junk);
      && st' == st.(updates := 0, addrs := st'.addrs) && SenderNoted(st.addrs, st'.addrs, cid, from)
      && |outs| <= 1
      && (|outs| == 1 <==> exists i :: IsOwnedAs(st.owned, name, i) && st.owned[i].numSegs != 0)
      && forall i :: IsOwnedAs(st.owned, name, i) && |outs| == 1 ==>
        outs[0].port == from && outs[0].msg.InfoRep? && outs[0].msg.cid == st.id && outs[0].msg.name == name
        && CountsUp(outs[0].msg.segs, st.owned[i].numSegs)
  {
    hide Client.OwnedAs, Client.LearnSender;
    OwnedHits(st.owned, name);
    LearnSenderNotes(st.addrs, cid, from);
  }

  // ---------- CLNT_INFO_REP ----------

  /** The segments named are from now on to be had from cid. */
  ghost predicate Sourced(d: Client.Download, d': Client.Download, segs: seq<int>, cid: int) {
    && d' == d.(source := d'.source) && |d'.source| == |d.source|
    && forall s :: 0 <= s < |d.source| ==> d'.source[s] == if s in segs then cid else d.source[s]
  }

  /** Notes the sender, and in the first download of the name where its segments are to be had. */
  lemma {:induction false} InfoReplyIs(st: Client.State, cid: int, name: Name, segs: seq<int>, from: int, junk: seq<byte>)
    ensures var (st', outs) := Client.Handle(st, InfoRep(cid, name, segs), from, junk);
      && st' == st.(downloads := st'.downloads, addrs := st'.addrs) && SenderNoted(st.addrs, st'.addrs, cid, from)
      && outs == [] && |st'.downloads| == |st.downloads|
      && forall k :: 0 <= k < |st.downloads| ==>
        if IsDownload(st.downloads, name, k) then Sourced(st.downloads[k], st'.downloads[k], segs, cid)
        else st'.downloads[k] == st.downloads[k]
  {
    hide Client.DownloadFor, Client.LearnSender;
    DownloadHits(st.downloads, name);
    LearnSenderNotes(st.addrs, cid, from);
  }

  // ---------- CLNT_SEG_REQ ----------

  ghost predicate HasSegment(st: Client.State, name: Name, seg: int) {
    exists k :: IsDownload(st.downloads, name, k) && 0 <= seg < |st.downloads[k].have| && st.downloads[k].have[seg]
  }

  /** The memory a FileInfo points to: what was loaded, or the buffer of a download. */
  function BlockOf(st: Client.State, fp: Client.Pointer): seq<byte> {
    match fp
    case Loaded(bytes) => bytes
    case RawOf(k) => if k < |st.downloads| then st.downloads[k].raw else []
  }

  /** These are the bytes of the block from off on; behind its end come those of junk. */
  ghost predicate CopiedFrom(data: seq<byte>, block: seq<byte>, off: nat, junk: seq<byte>) {
    forall o :: 0 <= o < |data| ==>
      data[o] == if off + o < |block| then block[off + o] else if o < |junk| then junk[o] else 0
  }

  lemma {:induction false} CopyOutCopies(block: seq<byte>, off: nat, len: nat, junk: seq<byte>)
    ensures CopiedFrom(Client.CopyOut(block, off, len, junk), block, off, junk)
  {
    if len > 0 { CopyOutCopies(block, off, len - 1, junk); }
  }

  /** Resets the idle count and notes the sender. A segment that the first download of the name does
      not have is not answered. The answer holds as many bytes of the first owned file of the name as
      its table says, from 32 times the number on; more than 32 end the process. */
  lemma {:induction false} SegmentRequestIs(st: Client.State, cid: int, name: Name, seg: int, from: int, junk: seq<byte>)
    ensures var (st', outs) := Client.Handle(st, SegReq(cid, name, seg), from, junk);
      && st' == st.(updates := 0, addrs := st'.addrs, status := st'.status) && SenderNoted(st.addrs, st'.addrs, cid, from)
      && (!HasSegment(st, name, seg) ==> outs == [] && st'.status == st.status)
      && (HasSegment(st, name, seg) && (forall i :: !IsOwnedAs(st.owned, name, i)) ==>
        outs == [Client.Out(from, SegRep(st.id, name, seg, 0, []))] && st'.status == st.status)
      && forall i :: HasSegment(st, name, seg) && IsOwnedAs(st.owned, name, i) ==>
        if seg < |st.owned[i].sizes| && 0 <= st.owned[i].sizes[seg] <= 32 then
          && st'.status == st.status && |outs| == 1 && outs[0].msg.SegRep?
          && outs == [Client.Out(from, SegRep(st.id, name, seg, st.owned[i].sizes[seg], outs[0].msg.data))]
          && |outs[0].msg.data| == st.owned[i].sizes[seg]
          && CopiedFrom(outs[0].msg.data, BlockOf(st, st.owned[i].fp), 32 * seg, junk)
        else outs == [] && st'.status.Crashed?
  {
    hide Client.OwnedAs, Client.DownloadFor, Client.LearnSender, Client.CopyOut;
    OwnedHits(st.owned, name);
    DownloadHits(st.downloads, name);
    LearnSenderNotes(st.addrs, cid, from);
    var i := Client.OwnedAs(st.owned, name);
    if 0 <= i < |st.owned| && 0 <= seg < |st.owned[i].sizes| && 0 <= st.owned[i].sizes[seg] {
      CopyOutCopies(BlockOf(st, st.owned[i].fp), 32 * seg, st.owned[i].sizes[seg], junk);
    }
  }

  // ---------- CLNT_SEG_REP ----------

  /** The data stand in the buffer from 32 times the number on, as far as it goes; the segment is
      there; a buffer that was missing is made, with zeros, of the download's size. */
  ghost predicate Stored(d: Client.Download, d': Client.Download, seg: int, data: seq<byte>) {
    && d' == d.(rawInit := true, raw := d'.raw, have := d'.have)
    && |d'.raw| == (if d.rawInit then |d.raw| else d.filesize)
    && (forall p :: 0 <= p < |d'.raw| ==>
      d'.raw[p] == if 32 * seg <= p < 32 * seg + |data| then data[p - 32 * seg] else if d.rawInit then d.raw[p] else 0)
    && |d'.have| == |d.have| && forall s :: 0 <= s < |d.have| ==> (d'.have[s] <==> d.have[s] || s == seg)
  }

  /** Resets the progress count, stores the data in every download of the name, and notes the
      sender. Numbers out of range, where there is such a download, end the process. */
  lemma {:induction false} SegmentReplyIs(st: Client.State, cid: int, name: Name, seg: int, size: int, data: seq<byte>, from: int, junk: seq<byte>)
    ensures var (st', outs) := Client.Handle(st, SegRep(cid, name, seg, size, data), from, junk);
      && outs == []
      && if size >= 0 && 0 <= seg < 10240 then
           && st' == st.(progress := 0, downloads := st'.downloads, addrs := st'.addrs) && SenderNoted(st.addrs, st'.addrs, cid, from)
           && |st'.downloads| == |st.downloads|
           && forall k :: 0 <= k < |st.downloads| ==>
             if st.downloads[k].name <= name then Stored(st.downloads[k], st'.downloads[k], seg, data)
             else st'.downloads[k] == st.downloads[k]
         else if exists k :: 0 <= k < |st.downloads| && st.downloads[k].name <= name then st'.status.Crashed?
         else st' == st.(progress := 0, addrs := st'.addrs) && SenderNoted(st.addrs, st'.addrs, cid, from)
  {
    hide Client.LearnSender, Client.ApplyReply;
    LearnSenderNotes(st.addrs, cid, from);
    if size >= 0 && 0 <= seg < 10240 {
      forall d: Client.Download
        ensures Stored(d, Client.ApplyReply(d, seg, data), seg, data)
      {
        ApplyStores(d, seg, data);
      }
    }
  }

  lemma {:induction false} ApplyStores(d: Client.Download, seg: nat, data: seq<byte>)
    requires seg < 10240
    ensures Stored(d, Client.ApplyReply(d, seg, data), seg, data)
  {
  }

  // ---------- GROUP_ASSIGN ----------

  /** An assignment of many files is many assignments of one file, in order. */
  lemma {:induction false} AssignmentIsFold(st: Client.State, files: seq<FileEntry>, f: FileEntry, from: int, junk: seq<byte>)
    ensures Client.Handle(st, GroupAssign([]), from, junk) == (st, [])
    ensures Client.Handle(st, GroupAssign(files + [f]), from, junk) ==
      Client.Handle(Client.Handle(st, GroupAssign(files), from, junk).0, GroupAssign([f]), from, junk)
  {
    hide Client.OnEntry;
    assert (files + [f])[..|files|] == files;
    var mid := Client.OnAssign(st, files);
    assert [f][..0] == [];
    assert Client.OnAssign(mid, []) == mid;
    assert Client.OnAssign(mid, [f]) == Client.OnEntry(mid, f);
  }

  /** The download has learned its size, and has a buffer of zeros and none of the segments. */
  ghost predicate MadeReady(d: Client.Download, d': Client.Download, size: nat) {
    && d' == d.(filesize := size, numSegs := size / 32 + 1, have := d'.have, rawInit := true, raw := d'.raw)
    && |d'.have| == 10240 && (forall s :: 0 <= s < 10240 ==> !d'.have[s])
    && |d'.raw| == size && (forall p :: 0 <= p < size ==> d'.raw[p] == 0)
  }

  ghost predicate Ascending(ks: seq<nat>) {
    forall i, j :: 0 <= i < j < |ks| ==> ks[i] < ks[j]
  }

  lemma {:induction false} AscendingNext(ks: seq<nat>, n: nat)
    requires Ascending(ks) && forall k <- ks :: k < n
    ensures Ascending(ks + [n]) && forall k :: k in ks + [n] <==> k in ks || k == n
  {
    var more := ks + [n];
    forall i, j | 0 <= i < j < |more|
      ensures more[i] < more[j]
    {
      if j == |ks| { assert ks[i] in ks; }
    }
  }

  ghost predicate HasId(addrs: seq<Peer>, id: int) {
    exists i :: 0 <= i < |addrs| && addrs[i].id == id
  }

  /** Neighbour q is the first of its id, which is not on file. */
  ghost predicate IsNew(addrs: seq<Peer>, peers: seq<Peer>, q: nat) {
    q < |peers| && !HasId(addrs, peers[q].id) && !HasId(peers[..q], peers[q].id)
  }

  /** The addresses of the new neighbours are appended, in their order. */
  ghost predicate PeersNoted(addrs: seq<Peer>, addrs': seq<Peer>, peers: seq<Peer>, qs: seq<nat>) {
    && Ascending(qs) && (forall q: nat :: q in qs <==> IsNew(addrs, peers, q))
    && |addrs'| == |addrs| + |qs| && addrs <= addrs'
    && forall i :: 0 <= i < |qs| ==> qs[i] < |peers| && addrs'[|addrs| + i] == peers[qs[i]]
  }

  lemma {:induction false} LearnPeersNotes(addrs: seq<Peer>, peers: seq<Peer>) returns (qs: seq<nat>)
    ensures PeersNoted(addrs, Client.LearnPeers(addrs, peers), peers, qs)
    ensures forall id :: HasId(Client.LearnPeers(addrs, peers), id) <==> HasId(addrs, id) || HasId(peers, id)
    decreases peers
  {
    hide HasId, Client.LearnPeer;
    if peers == [] {
      qs := [];
      NoId();
    } else {
      var n := |peers| - 1;
      var front, p := peers[..n], peers[n];
      var mid := Client.LearnPeers(addrs, front);
      qs := LearnPeersNotes(addrs, front);
      LearnPeerNotes(mid, p);
      OneMoreId(front, p);
      assert peers == front + [p];
      forall q: nat | q < n
        ensures IsNew(addrs, front, q) <==> IsNew(addrs, peers, q)
      {
        assert front[..q] == peers[..q] && front[q] == peers[q];
      }
      assert IsNew(addrs, peers, n) <==> !HasId(mid, p.id);
      if IsNew(addrs, peers, n) {
        AscendingNext(qs, n);
        qs := qs + [n];
      }
    }
  }

  lemma {:induction false} NoId()
    ensures forall id :: !HasId([], id)
  {
  }

  lemma {:induction false} OneMoreId(addrs: seq<Peer>, p: Peer)
    ensures forall id :: HasId(addrs + [p], id) <==> HasId(addrs, id) || id == p.id
  {
    var more := addrs + [p];
    assert more[|addrs|] == p;
    assert forall i :: 0 <= i < |addrs| ==> more[i] == addrs[i];
  }

  lemma {:induction false} LearnPeerNotes(addrs: seq<Peer>, p: Peer)
    ensures Client.LearnPeer(addrs, p) == if HasId(addrs, p.id) then addrs else addrs + [p]
    ensures forall id :: HasId(Client.LearnPeer(addrs, p), id) <==> HasId(addrs, id) || id == p.id
  {
    hide FirstIndex;
    AddressHits(addrs, p.id);
    OneMoreId(addrs, p);
  }

  /** The neighbours are listed as sharing besides those who were, and a size of 0 is filled in. */
  ghost predicate Extended(g: Client.Group, g': Client.Group, f: FileEntry) {
    && g'.name == g.name && g'.filesize == (if g.filesize == 0 then f.size else g.filesize)
    && forall j :: j in g'.sharing <==> j in g.sharing || exists q :: 0 <= q < |f.peers| && f.peers[q].id == j
  }

  /** One file of a GROUP_ASSIGN: the first download of the name learns its size if it has none yet,
      new neighbours' addresses are noted, and the first group of the name is extended, or made. */
  lemma {:induction false} EntryIs(st: Client.State, f: FileEntry, from: int, junk: seq<byte>) returns (qs: seq<nat>)
    ensures var (st', outs) := Client.Handle(st, GroupAssign([f]), from, junk);
      && outs == [] && st' == st.(downloads := st'.downloads, addrs := st'.addrs, groups := st'.groups)
      && PeersNoted(st.addrs, st'.addrs, f.peers, qs)
      && |st'.downloads| == |st.downloads|
      && (forall k :: 0 <= k < |st.downloads| ==>
        if IsDownload(st.downloads, f.name, k) && st.downloads[k].filesize == 0 && f.size != 0
        then MadeReady(st.downloads[k], st'.downloads[k], f.size) else st'.downloads[k] == st.downloads[k])
      && GroupNoted(st.groups, st'.groups, f)
  {
    hide Client.DownloadFor, Client.LearnPeers, Client.LearnGroup;
    assert [f][..0] == [];
    assert Client.OnAssign(st, []) == st;
    DownloadHits(st.downloads, f.name);
    qs := LearnPeersNotes(st.addrs, f.peers);
    LearnGroupNotes(st.groups, f);
  }

  ghost predicate GroupNoted(groups: seq<Client.Group>, groups': seq<Client.Group>, f: FileEntry) {
    if exists i :: IsGroup(groups, f.name, i) then
      && |groups'| == |groups|
      && forall i :: 0 <= i < |groups| ==>
        if IsGroup(groups, f.name, i) then Extended(groups[i], groups'[i], f) else groups'[i] == groups[i]
    else
      && |groups'| == |groups| + 1 && groups <= groups' && Extended(Client.Group(f.name, {}, 0), groups'[|groups|], f)
  }

  lemma {:induction false} LearnGroupNotes(groups: seq<Client.Group>, f: FileEntry)
    ensures GroupNoted(groups, Client.LearnGroup(groups, f), f)
  {
    hide Client.GroupFor;
    GroupHits(groups, f.name);
    forall j
      ensures j in Client.Ids(f.peers) <==> exists q :: 0 <= q < |f.peers| && f.peers[q].id == j
    {
      if q :| 0 <= q < |f.peers| && f.peers[q].id == j { assert f.peers[q] in f.peers; }
    }
  }

  ghost predicate Listed(groups: seq<Client.Group>, name: Name, j: int) {
    exists i :: 0 <= i < |groups| && groups[i].name == name && j in groups[i].sharing
  }

  /** One of the files is of that name and names j as a neighbour. */
  ghost predicate Named(files: seq<FileEntry>, name: Name, j: int) {
    exists x :: 0 <= x < |files| && files[x].name == name && HasId(files[x].peers, j)
  }

  /** Each name in play has one group at most, and begins no other name. */
  ghost predicate ApartIn(names: set<Name>, groups: seq<Client.Group>) {
    && (forall a, b :: a in names && b in names && a <= b ==> a == b)
    && (forall i :: 0 <= i < |groups| ==> groups[i].name in names)
    && (forall i, j :: 0 <= i < j < |groups| ==> groups[i].name != groups[j].name)
  }

  lemma {:induction false} EntryLists(groups: seq<Client.Group>, groups': seq<Client.Group>, f: FileEntry, names: set<Name>)
    requires ApartIn(names, groups) && f.name in names && GroupNoted(groups, groups', f)
    ensures ApartIn(names, groups')
    ensures forall name, j :: Listed(groups', name, j) <==> Listed(groups, name, j) || (name == f.name && HasId(f.peers, j))
  {
    if i :| IsGroup(groups, f.name, i) {
      assert forall k :: 0 <= k < |groups| && k != i ==> groups[k].name != f.name && !IsGroup(groups, f.name, k);
      assert groups[i].name == f.name;
      EntryListsOld(groups, groups', f, i);
    } else {
      NoGroup(groups, f.name, |groups|);
      EntryListsNew(groups, groups', f);
    }
  }

  /** Without a first there is none. */
  lemma {:induction false} NoGroup(groups: seq<Client.Group>, name: Name, n: nat)
    requires n <= |groups| && forall i :: !IsGroup(groups, name, i)
    ensures forall i :: 0 <= i < n ==> !(groups[i].name <= name)
  {
    if n > 0 {
      NoGroup(groups, name, n - 1);
      assert !IsGroup(groups, name, n - 1);
    }
  }

  lemma {:induction false} EntryListsOld(groups: seq<Client.Group>, groups': seq<Client.Group>, f: FileEntry, i: nat)
    requires i < |groups| == |groups'| && groups[i].name == f.name && Extended(groups[i], groups'[i], f)
    requires forall k :: 0 <= k < |groups| && k != i ==> groups'[k] == groups[k] && groups[k].name != f.name
    ensures forall name, j :: Listed(groups', name, j) <==> Listed(groups, name, j) || (name == f.name && HasId(f.peers, j))
  {
    assert forall k :: 0 <= k < |groups| ==> groups'[k].name == groups[k].name;
    assert forall j :: j in groups'[i].sharing <==> j in groups[i].sharing || HasId(f.peers, j);
  }

  lemma {:induction false} EntryListsNew(groups: seq<Client.Group>, groups': seq<Client.Group>, f: FileEntry)
    requires |groups'| == |groups| + 1 && groups <= groups' && Extended(Client.Group(f.name, {}, 0), groups'[|groups|], f)
    ensures forall name, j :: Listed(groups', name, j) <==> Listed(groups, name, j) || (name == f.name && HasId(f.peers, j))
  {
    assert forall k :: 0 <= k < |groups| ==> groups'[k] == groups[k];
    assert forall j :: j in groups'[|groups|].sharing <==> HasId(f.peers, j);
  }

  /** After a GROUP_ASSIGN, the clients listed as sharing a file are those that were before, and all
      those it names as neighbours for the file. */
  lemma {:induction false} AssignmentLists(st: Client.State, files: seq<FileEntry>, names: set<Name>, from: int, junk: seq<byte>)
    requires ApartIn(names, st.groups) && forall x :: 0 <= x < |files| ==> files[x].name in names
    ensures var st' := Client.Handle(st, GroupAssign(files), from, junk).0;
      && ApartIn(names, st'.groups)
      && forall name, j :: Listed(st'.groups, name, j) <==> Listed(st.groups, name, j) || Named(files, name, j)
    decreases files
  {
    hide Client.Handle, Listed, ApartIn, HasId, GroupNoted;
    if files == [] {
      AssignmentIsFold(st, [], FileEntry([], 0, []), from, junk);
    } else {
      var front, f := files[..|files| - 1], files[|files| - 1];
      assert files == front + [f];
      var mid := Client.Handle(st, GroupAssign(front), from, junk).0;
      AssignmentLists(st, front, names, from, junk);
      AssignmentIsFold(st, front, f, from, junk);
      var qs := EntryIs(mid, f, from, junk);
      EntryLists(mid.groups, Client.Handle(mid, GroupAssign([f]), from, junk).0.groups, f, names);
      NamedNext(front, f);
    }
  }

  lemma {:induction false} NamedNext(files: seq<FileEntry>, f: FileEntry)
    ensures forall name, j :: Named(files + [f], name, j) <==> Named(files, name, j) || (name == f.name && HasId(f.peers, j))
  {
    hide HasId;
    var more := files + [f];
    assert more[|files|] == f && forall x :: 0 <= x < |files| ==> more[x] == files[x];
  }

  // ---------- the interest tick ----------

  /** The type announced: 0 and 1 for a file that is not held, by the share flag; 2 for one that is
      held and shared; any other case assigns none. */
  ghost predicate TypeIs(build: Build, held: bool, share: int, kind: int, junk: int) {
    if !held && share == 0 then kind == 0
    else if !held && share == 1 then kind == 1
    else if held && share == 1 then kind == 2
    else if build.Mended? then kind == 3
    else -32768 <= kind < 32768 && (kind - junk) % 65536 == 0
  }

  ghost predicate Held(owned: seq<Client.FileInfo>, name: Name) {
    exists i :: IsOwnedFor(owned, name, i)
  }

  /** An enabled download of a file that is held takes over its size and is done. */
  ghost predicate Announced(owned: seq<Client.FileInfo>, d: Client.Download, d': Client.Download) {
    if d.enabled && Held(owned, d.name)
    then forall i :: IsOwnedFor(owned, d.name, i) ==> d' == d.(filesize := owned[i].size, done := true)
    else d' == d
  }

  ghost predicate ItemIs(build: Build, owned: seq<Client.FileInfo>, d: Client.Download, d': Client.Download, junk: int, x: Item) {
    x.name == d.name && x.size == d'.filesize && TypeIs(build, Held(owned, d.name), d.share, x.kind, junk)
  }

  lemma {:induction false} AnnounceIs(build: Build, owned: seq<Client.FileInfo>, d: Client.Download, junk: int)
    ensures var d' := Client.Announce(owned, d);
      && Announced(owned, d, d')
      && ItemIs(build, owned, d, d', junk, Item(d.name, d'.filesize, Client.Kind(build, Client.OwnedFor(owned, d.name) < |owned|, d.share, junk)))
  {
    hide FirstIndex;
    OwnedHits(owned, d.name);
  }

  /** These are the announcements of the enabled among the first n downloads, in order. */
  ghost predicate ItemsAre(build: Build, owned: seq<Client.FileInfo>, ds: seq<Client.Download>, ds': seq<Client.Download>,
                           junk: seq<int>, n: nat, items: seq<Item>, ks: seq<nat>)
    requires n <= |ds| == |ds'|
  {
    && Ascending(ks) && (forall k: nat :: k in ks <==> k < n && ds[k].enabled) && |items| == |ks|
    && forall i :: 0 <= i < |ks| ==>
      ks[i] < |ds| && ItemIs(build, owned, ds[ks[i]], ds'[ks[i]], if ks[i] < |junk| then junk[ks[i]] else 0, items[i])
  }

  lemma {:induction false} ItemsNext(build: Build, owned: seq<Client.FileInfo>, ds: seq<Client.Download>, ds': seq<Client.Download>,
                                     junk: seq<int>, n: nat, items: seq<Item>, ks: seq<nat>, x: Item)
    requires n < |ds| == |ds'| && ItemsAre(build, owned, ds, ds', junk, n, items, ks)
    requires ItemIs(build, owned, ds[n], ds'[n], if n < |junk| then junk[n] else 0, x)
    ensures if ds[n].enabled then ItemsAre(build, owned, ds, ds', junk, n + 1, items + [x], ks + [n])
      else ItemsAre(build, owned, ds, ds', junk, n + 1, items, ks)
  {
    hide ItemIs;
    if ds[n].enabled { AscendingNext(ks, n); }
  }

  lemma {:induction false} ItemsForAre(build: Build, owned: seq<Client.FileInfo>, ds: seq<Client.Download>, junk: seq<int>, n: nat) returns (ks: seq<nat>)
    requires n <= |ds|
    ensures ItemsAre(build, owned, ds, Client.AnnounceAll(owned, ds), junk, n, Client.ItemsFor(build, owned, ds[..n], junk), ks)
  {
    if n == 0 {
      ks := [];
    } else {
      hide Client.Announce, Client.Kind, Client.OwnedFor, ItemIs, ItemsAre;
      ks := ItemsForAre(build, owned, ds, junk, n - 1);
      assert ds[..n][..n - 1] == ds[..n - 1];
      var d, j := ds[n - 1], if n - 1 < |junk| then junk[n - 1] else 0;
      AnnounceIs(build, owned, d, j);
      var x := Item(d.name, Client.Announce(owned, d).filesize, Client.Kind(build, Client.OwnedFor(owned, d.name) < |owned|, d.share, j));
      ItemsNext(build, owned, ds, Client.AnnounceAll(owned, ds), junk, n - 1, Client.ItemsFor(build, owned, ds[..n - 1], junk), ks, x);
      if d.enabled {
        ks := ks + [n - 1];
      }
    }
  }

  /** With everything done and two ticks without a request, or four without a segment, the client
      exits. Otherwise both counts go up by one, and the enabled downloads, if there are any, are
      announced to the tracker in one packet. */
  lemma {:induction false} InterestTickIs(build: Build, st: Client.State, junk: seq<int>) returns (ks: seq<nat>)
    requires st.status.Running?
    ensures var (st', outs) := Client.Step(build, st, Client.InterestTick(junk));
      if (st.updates >= 2 && forall k :: 0 <= k < |st.downloads| ==> st.downloads[k].done) || st.progress >= 4 then
        st' == st.(status := Client.Exited) && outs == []
      else
        && st' == st.(updates := st.updates + 1, progress := st.progress + 1, downloads := st'.downloads)
        && |st'.downloads| == |st.downloads|
        && (forall k :: 0 <= k < |st.downloads| ==> Announced(st.owned, st.downloads[k], st'.downloads[k]))
        && (outs == [] <==> forall k :: 0 <= k < |st.downloads| ==> !st.downloads[k].enabled)
        && (outs != [] ==>
          && |outs| == 1 && outs[0].port == st.trackerPort && outs[0].msg.ShowInterest? && outs[0].msg.cid == st.id
          && ItemsAre(build, st.owned, st.downloads, st'.downloads, junk, |st.downloads|, outs[0].msg.items, ks))
  {
    hide Client.Announce, Client.ItemsFor, ItemsAre, Announced;
    ks := ItemsForAre(build, st.owned, st.downloads, junk, |st.downloads|);
    assert st.downloads[..|st.downloads|] == st.downloads;
    assert forall k :: 0 <= k < |st.downloads| ==> st.downloads[k] in st.downloads;
    forall k | 0 <= k < |st.downloads|
      ensures Announced(st.owned, st.downloads[k], Client.Announce(st.owned, st.downloads[k]))
      ensures !st.downloads[k].enabled ==> Client.Announce(st.owned, st.downloads[k]) == st.downloads[k]
    {
      AnnounceIs(build, st.owned, st.downloads[k], 0);
      NotAnnounced(st.owned, st.downloads[k]);
    }
  }

  lemma {:induction false} NotAnnounced(owned: seq<Client.FileInfo>, d: Client.Download)
    ensures !d.enabled ==> Client.Announce(owned, d) == d
  {
  }

  // ---------- the info tick ----------

  /** Some group of a name that begins with the download's lists client j, another one, below 25. */
  ghost predicate Lists(st: Client.State, name: Name, j: int) {
    0 <= j < 25 && j != st.id && exists i :: 0 <= i < |st.groups| && name <= st.groups[i].name && j in st.groups[i].sharing
  }

  ghost predicate InfoRequestTo(st: Client.State, name: Name, j: int, o: Client.Out) {
    o.msg == InfoReq(st.id, name) && GoesTo(st.addrs, j, o.port)
  }

  /** One request goes to each of the clients js, in order of their ids. */
  ghost predicate AllAsked(st: Client.State, name: Name, n: nat, outs: seq<Client.Out>, js: seq<nat>) {
    && Ascending(js) && (forall j: nat :: j in js <==> j < n && Lists(st, name, j)) && |outs| == |js|
    && forall i :: 0 <= i < |js| ==> InfoRequestTo(st, name, js[i], outs[i])
  }

  lemma {:induction false} AskPeersAsks(st: Client.State, name: Name, n: nat) returns (js: seq<nat>)
    requires n <= 25
    ensures AllAsked(st, name, n, Client.AskPeers(st, name, Client.Neighbors(st.groups, name), n), js)
  {
    if n == 0 {
      js := [];
    } else {
      hide Client.SendPort, Client.Neighbors, GoesTo, Lists;
      js := AskPeersAsks(st, name, n - 1);
      NeighborsAreListed(st, name, n - 1);
      SendPortGoes(st.addrs, n - 1);
      if Lists(st, name, n - 1) {
        AscendingNext(js, n - 1);
        js := js + [n - 1];
      }
    }
  }

  lemma {:induction false} NeighborsAreListed(st: Client.State, name: Name, j: int)
    requires 0 <= j < 25
    ensures Lists(st, name, j) <==> j in Client.Neighbors(st.groups, name) && j != st.id
  {
    InNeighbors(st.groups, name, j);
  }

  lemma {:induction false} InNeighbors(groups: seq<Client.Group>, name: Name, j: int)
    ensures j in Client.Neighbors(groups, name) <==> exists i :: 0 <= i < |groups| && name <= groups[i].name && j in groups[i].sharing
    decreases groups
  {
    if groups != [] {
      var front := groups[..|groups| - 1];
      InNeighbors(front, name, j);
      assert forall i :: 0 <= i < |front| ==> front[i] == groups[i];
    }
  }

  /** What is sent for download k: nothing while its size is not known, else one request to each
      client listed for its name. */
  ghost predicate AskedFor(st: Client.State, k: nat, outs: seq<Client.Out>)
    requires k < |st.downloads|
  {
    if st.downloads[k].filesize == 0 then outs == []
    else exists js :: AllAsked(st, st.downloads[k].name, 25, outs, js)
  }

  /** All outs in a row. */
  function Flat(blocks: seq<seq<Client.Out>>): seq<Client.Out> {
    if blocks == [] then [] else Flat(blocks[..|blocks| - 1]) + blocks[|blocks| - 1]
  }

  /** The info tick changes nothing, and asks for one download after the other. */
  lemma {:induction false} InfoTickIs(build: Build, st: Client.State) returns (blocks: seq<seq<Client.Out>>)
    requires st.status.Running?
    ensures var (st', outs) := Client.Step(build, st, Client.InfoTick);
      && st' == st && outs == Flat(blocks) && |blocks| == |st.downloads|
      && forall k :: 0 <= k < |blocks| ==> AskedFor(st, k, blocks[k])
  {
    hide AskedFor;
    blocks := AskInfoAsks(st, |st.downloads|);
  }

  lemma {:induction false} AskInfoAsks(st: Client.State, n: nat) returns (blocks: seq<seq<Client.Out>>)
    requires n <= |st.downloads|
    ensures Client.AskInfo(st, n) == Flat(blocks) && |blocks| == n
    ensures forall k :: 0 <= k < n ==> AskedFor(st, k, blocks[k])
  {
    hide Client.AskPeers, Client.Neighbors, AllAsked;
    if n == 0 {
      blocks := [];
    } else {
      var front := AskInfoAsks(st, n - 1);
      var d := st.downloads[n - 1];
      var js := AskPeersAsks(st, d.name, 25);
      var last := if d.filesize == 0 then [] else Client.AskPeers(st, d.name, Client.Neighbors(st.groups, d.name), 25);
      blocks := front + [last];
      assert blocks[..n - 1] == front;
    }
  }

  // ---------- the segment tick ----------

  /** The segments below n that are not there, ascending. */
  ghost predicate AreMissing(have: seq<bool>, n: nat, missing: seq<nat>) {
    Ascending(missing) && forall s: nat :: s in missing <==> s < n && s < |have| && !have[s]
  }

  lemma {:induction false} OneMoreSegment(have: seq<bool>, n: nat, missing: seq<nat>)
    requires AreMissing(have, n, missing)
    ensures AreMissing(have, n + 1, missing + if n < |have| && !have[n] then [n] else [])
  {
    hide Ascending;
    if n < |have| && !have[n] {
      AscendingNext(missing, n);
    } else {
      assert missing + [] == missing;
    }
  }

  lemma {:induction false} MissingAre(have: seq<bool>, n: nat)
    ensures AreMissing(have, n, Client.Missing(have, n))
  {
    if n == 0 {
    } else {
      hide AreMissing;
      MissingAre(have, n - 1);
      OneMoreSegment(have, n - 1, Client.Missing(have, n - 1));
    }
  }

  /** What rand() picks at draw t: its value modulo the number of missing segments. */
  function DrawOf(missing: seq<nat>, rands: seq<nat>, t: nat): nat
    requires |missing| > 0
  {
    missing[(if t < |rands| then rands[t] else 0) % |missing|]
  }

  ghost predicate SegmentRequestTo(st: Client.State, d: Client.Download, seg: nat, o: Client.Out) {
    seg < |d.source| && o.msg == SegReq(st.id, d.name, seg) && GoesTo(st.addrs, d.source[seg], o.port)
  }

  ghost predicate Advertised(d: Client.Download, seg: nat) {
    seg < |d.source| && d.source[seg] != 25
  }

  /** Draw t is of a segment that somebody advertised. */
  ghost predicate Useful(d: Client.Download, missing: seq<nat>, rands: seq<nat>, t: nat) {
    |missing| > 0 && Advertised(d, DrawOf(missing, rands, t))
  }

  /** One request for each useful one among the draws from at on, in order. */
  ghost predicate DrawsAsked(st: Client.State, d: Client.Download, missing: seq<nat>, rands: seq<nat>, at: nat, count: nat,
                             outs: seq<Client.Out>, ts: seq<nat>) {
    && |missing| > 0
    && Ascending(ts) && (forall t: nat :: t in ts <==> t < count && Useful(d, missing, rands, at + t)) && |outs| == |ts|
    && forall i :: 0 <= i < |ts| ==> SegmentRequestTo(st, d, DrawOf(missing, rands, at + ts[i]), outs[i])
  }

  lemma {:induction false} NoDraws(st: Client.State, d: Client.Download, missing: seq<nat>, rands: seq<nat>, at: nat)
    requires |missing| > 0
    ensures DrawsAsked(st, d, missing, rands, at, 0, [], [])
  {
  }

  lemma {:induction false} OneMoreDraw(st: Client.State, d: Client.Download, missing: seq<nat>, rands: seq<nat>, at: nat, count: nat,
                                       outs: seq<Client.Out>, ts: seq<nat>, o: Client.Out)
    requires DrawsAsked(st, d, missing, rands, at, count, outs, ts)
    requires Useful(d, missing, rands, at + count) ==> SegmentRequestTo(st, d, DrawOf(missing, rands, at + count), o)
    ensures if Useful(d, missing, rands, at + count) then DrawsAsked(st, d, missing, rands, at, count + 1, outs + [o], ts + [count])
      else DrawsAsked(st, d, missing, rands, at, count + 1, outs, ts)
  {
    hide Useful, SegmentRequestTo, DrawOf;
    if Useful(d, missing, rands, at + count) { AscendingNext(ts, count); }
  }

  lemma {:induction false} SameDraw(missing: seq<nat>, rands: seq<nat>, t: nat)
    requires |missing| > 0
    ensures Client.Drawn(missing, rands, t) == DrawOf(missing, rands, t)
  {
  }

  lemma {:induction false} RequestsNext(st: Client.State, d: Client.Download, missing: seq<nat>, rands: seq<nat>, at: nat, count: nat) returns (o: Client.Out)
    requires |missing| > 0
    ensures var seg := DrawOf(missing, rands, at + count);
      && Client.Requests(st, d, missing, rands, at, count + 1) ==
           Client.Requests(st, d, missing, rands, at, count) + (if Advertised(d, seg) then [o] else [])
      && (Advertised(d, seg) ==> SegmentRequestTo(st, d, seg, o))
  {
    hide Client.SendPort, GoesTo, Client.Drawn, DrawOf;
    SameDraw(missing, rands, at + count);
    var seg := DrawOf(missing, rands, at + count);
    var c := if seg < |d.source| then d.source[seg] else 25;
    o := Client.Out(Client.SendPort(st.addrs, c), SegReq(st.id, d.name, seg));
    SendPortGoes(st.addrs, c);
  }

  lemma {:induction false} RequestsAsk(st: Client.State, d: Client.Download, missing: seq<nat>, rands: seq<nat>, at: nat, count: nat) returns (ts: seq<nat>)
    requires |missing| > 0
    ensures DrawsAsked(st, d, missing, rands, at, count, Client.Requests(st, d, missing, rands, at, count), ts)
  {
    if count == 0 {
      ts := [];
      NoDraws(st, d, missing, rands, at);
    } else {
      hide Client.Requests, DrawOf, SegmentRequestTo, DrawsAsked;
      var n := count - 1;
      ts := RequestsAsk(st, d, missing, rands, at, n);
      var o := RequestsNext(st, d, missing, rands, at, n);
      var outs := Client.Requests(st, d, missing, rands, at, n);
      OneMoreDraw(st, d, missing, rands, at, n, outs, ts, o);
      if Useful(d, missing, rands, at + n) { ts := ts + [n]; } else { assert outs + [] == outs; }
    }
  }

  ghost predicate AllAdvertised(d: Client.Download, missing: seq<nat>) {
    forall seg <- missing :: Advertised(d, seg)
  }

  lemma {:induction false} AscendingFits(ts: seq<nat>, n: nat)
    requires Ascending(ts) && forall t <- ts :: t < n
    ensures |ts| <= n
    ensures (forall t: nat :: t < n ==> t in ts) ==> |ts| == n
  {
    if ts == [] {
      assert 0 !in ts;
    } else {
      var front, last := ts[..|ts| - 1], ts[|ts| - 1];
      assert ts == front + [last] && last in ts;
      AscendingFits(front, last);
      if forall t: nat :: t < n ==> t in ts {
        assert last == n - 1 by { assert n - 1 in ts; }
        forall t: nat | t < last
          ensures t in front
        {
          assert t in ts;
        }
      }
    }
  }

  /** As many requests as draws, at most; exactly as many if all that is missing is advertised. */
  lemma {:induction false} DrawsCount(st: Client.State, d: Client.Download, missing: seq<nat>, rands: seq<nat>, at: nat, count: nat,
                                      outs: seq<Client.Out>, ts: seq<nat>)
    requires DrawsAsked(st, d, missing, rands, at, count, outs, ts)
    ensures |outs| <= count
    ensures AllAdvertised(d, missing) ==> |outs| == count
  {
    hide SegmentRequestTo, Advertised;
    AscendingFits(ts, count);
    if AllAdvertised(d, missing) {
      forall t: nat | t < count
        ensures t in ts
      {
        assert DrawOf(missing, rands, at + t) in missing;
        assert Useful(d, missing, rands, at + t);
      }
    }
  }

  /** The table of a finished download of n segments, as it stands: 10240 for each but the last, whose
      entry is the 16-bit remainder of size - (32 - n). As it should: 32, and what is left. */
  ghost predicate TableIs(build: Build, sizes: seq<int>, size: nat, n: nat) {
    && |sizes| == 10240
    && (forall s :: 0 <= s < 10240 && s != n - 1 ==> sizes[s] == if build.Shipped? then 10240 else 32)
    && (1 <= n <= 10240 && build.Mended? ==> sizes[n - 1] == size - 32 * (n - 1))
    && (1 <= n <= 10240 && build.Shipped? ==> -32768 <= sizes[n - 1] < 32768 && (sizes[n - 1] - (size - 32 + n)) % 65536 == 0)
  }

  /** Download k is done and written out, and its file owned, with the download's buffer for its
      memory. As it stands the name is copied without its end. */
  ghost predicate Finished(build: Build, st: Client.State, st': Client.State, k: nat, tail: Name)
    requires k < |st.downloads|
  {
    var d := st.downloads[k];
    && st' == st.(downloads := st.downloads[k := d.(done := true)], disk := st.disk + [(d.name, d.raw)], owned := st'.owned)
    && |st'.owned| == |st.owned| + 1 && st.owned <= st'.owned
    && var fi := st'.owned[|st.owned|];
    && fi.name == (if build.Shipped? then d.name + tail else d.name) && fi.size == d.filesize && fi.numSegs == d.numSegs
    && fi.fp == Client.RawOf(k) && TableIs(build, fi.sizes, d.filesize, d.numSegs)
  }

  lemma {:induction false} FinishFinishes(build: Build, st: Client.State, k: nat, tail: Name)
    requires k < |st.downloads|
    ensures Finished(build, st, Client.Finish(build, st, k, tail), k, tail)
  {
  }

  /** There is nothing to fetch for download k: it is done, its file is owned, or its segments are
      not known. */
  ghost predicate Skipped(st: Client.State, k: nat)
    requires k < |st.downloads|
  {
    st.downloads[k].done || Held(st.owned, st.downloads[k].name) || st.downloads[k].numSegs == 0
  }

  /** The turn of download k: nothing, if there is nothing to fetch; with no segment missing it is
      finished; else min(8, missing) draws are made, from 8 * k on, and the useful ones asked for. */
  ghost predicate Turn(build: Build, st: Client.State, st': Client.State, k: nat, rands: seq<nat>, tail: Name, outs: seq<Client.Out>)
    requires k < |st.downloads|
  {
    var d := st.downloads[k];
    if Skipped(st, k) then st' == st && outs == []
    else if AreMissing(d.have, d.numSegs, []) then Finished(build, st, st', k, tail) && outs == []
    else st' == st && exists missing, ts :: Asked(st, d, missing, rands, 8 * k, outs, ts)
  }

  ghost predicate Asked(st: Client.State, d: Client.Download, missing: seq<nat>, rands: seq<nat>, at: nat, outs: seq<Client.Out>, ts: seq<nat>) {
    && AreMissing(d.have, d.numSegs, missing)
    && DrawsAsked(st, d, missing, rands, at, if |missing| < 8 then |missing| else 8, outs, ts)
  }

  /** At most eight requests go out for a download, and at most as many as are missing; exactly that
      many if every missing segment is advertised. */
  ghost predicate WellCounted(d: Client.Download, outs: seq<Client.Out>) {
    exists missing :: CountedFor(d, missing, outs)
  }

  ghost predicate CountedFor(d: Client.Download, missing: seq<nat>, outs: seq<Client.Out>) {
    && AreMissing(d.have, d.numSegs, missing) && |outs| <= 8 && |outs| <= |missing|
    && (AllAdvertised(d, missing) ==> |outs| == if |missing| < 8 then |missing| else 8)
  }

  lemma {:induction false} PlanIsTurn(build: Build, st: Client.State, k: nat, rands: seq<nat>, tail: Name)
    requires k < |st.downloads|
    ensures var (st', outs) := Client.Plan(build, st, k, rands, tail);
      && Turn(build, st, st', k, rands, tail, outs)
      && (!Skipped(st, k) ==> WellCounted(st.downloads[k], outs))
  {
    hide FirstIndex, Finished, Client.Finish, DrawsAsked, Client.Requests, AllAdvertised, AreMissing;
    var d := st.downloads[k];
    OwnedHits(st.owned, d.name);
    MissingAre(d.have, d.numSegs);
    FinishFinishes(build, st, k, tail);
    var missing := Client.Missing(d.have, d.numSegs);
    OneMissing(d.have, d.numSegs, missing);
    if !Skipped(st, k) {
      if missing != [] {
        var count := if |missing| < 8 then |missing| else 8;
        var outs := Client.Requests(st, d, missing, rands, 8 * k, count);
        var ts := RequestsAsk(st, d, missing, rands, 8 * k, count);
        assert Asked(st, d, missing, rands, 8 * k, outs, ts);
        DrawsCount(st, d, missing, rands, 8 * k, count, outs, ts);
        assert CountedFor(d, missing, outs);
      } else {
        assert CountedFor(d, missing, []);
      }
    }
  }

  lemma {:induction false} OneMissing(have: seq<bool>, n: nat, missing: seq<nat>)
    requires AreMissing(have, n, missing)
    ensures AreMissing(have, n, []) <==> missing == []
  {
    if missing != [] { assert missing[0] in missing; }
  }

  /** Download k's turn is taken in the state that the turns before it have left. */
  ghost predicate TurnTaken(build: Build, n: nat, before: Client.State, after: Client.State, k: nat, rands: seq<nat>, tail: Name, outs: seq<Client.Out>) {
    && k < |before.downloads| == n && Turn(build, before, after, k, rands, tail, outs)
    && (!Skipped(before, k) ==> WellCounted(before.downloads[k], outs))
  }

  ghost predicate TurnsTaken(build: Build, n: nat, states: seq<Client.State>, rands: seq<nat>, tail: Name, blocks: seq<seq<Client.Out>>) {
    |states| == |blocks| + 1 && forall k :: 0 <= k < |blocks| ==> TurnTaken(build, n, states[k], states[k + 1], k, rands, tail, blocks[k])
  }

  /** The segment tick takes the downloads in turn, each in the state the one before has left. */
  lemma {:induction false} SegmentTickIs(build: Build, st: Client.State, rands: seq<nat>, tail: Name) returns (states: seq<Client.State>, blocks: seq<seq<Client.Out>>)
    requires st.status.Running?
    ensures var (st', outs) := Client.Step(build, st, Client.SegmentTick(rands, tail));
      && TurnsTaken(build, |st.downloads|, states, rands, tail, blocks)
      && |blocks| == |st.downloads| && states[0] == st && states[|blocks|] == st' && outs == Flat(blocks)
  {
    hide Client.PlanAll;
    states, blocks := PlanAllIsTurns(build, st, |st.downloads|, rands, tail);
  }

  lemma {:induction false} OneMoreTurn(build: Build, n: nat, states: seq<Client.State>, rands: seq<nat>, tail: Name, blocks: seq<seq<Client.Out>>,
                                       st': Client.State, outs: seq<Client.Out>)
    requires TurnsTaken(build, n, states, rands, tail, blocks)
    requires TurnTaken(build, n, states[|blocks|], st', |blocks|, rands, tail, outs)
    ensures TurnsTaken(build, n, states + [st'], rands, tail, blocks + [outs]) && Flat(blocks + [outs]) == Flat(blocks) + outs
  {
    hide TurnTaken;
    assert (blocks + [outs])[..|blocks|] == blocks;
  }

  lemma {:induction false} PlanAllIsTurns(build: Build, st: Client.State, n: nat, rands: seq<nat>, tail: Name) returns (states: seq<Client.State>, blocks: seq<seq<Client.Out>>)
    requires n <= |st.downloads|
    ensures var (st', outs) := Client.PlanAll(build, st, n, rands, tail);
      && TurnsTaken(build, |st.downloads|, states, rands, tail, blocks)
      && |blocks| == n && states[0] == st && states[n] == st' && outs == Flat(blocks)
  {
    if n == 0 {
      states, blocks := [st], [];
    } else {
      hide Client.Plan, Turn, Skipped, WellCounted, TurnsTaken, Flat;
      var front, firsts := PlanAllIsTurns(build, st, n - 1, rands, tail);
      var mid := Client.PlanAll(build, st, n - 1, rands, tail).0;
      var r := Client.Plan(build, mid, n - 1, rands, tail);
      PlanIsTurn(build, mid, n - 1, rands, tail);
      TurnsHaveStates(build, |st.downloads|, front, rands, tail, firsts);
      OneMoreTurn(build, |st.downloads|, front, rands, tail, firsts, r.0, r.1);
      states, blocks := front + [r.0], firsts + [r.1];
    }
  }

  lemma {:induction false} TurnsHaveStates(build: Build, n: nat, states: seq<Client.State>, rands: seq<nat>, tail: Name, blocks: seq<seq<Client.Out>>)
    requires TurnsTaken(build, n, states, rands, tail, blocks)
    ensures |states| == |blocks| + 1
  {
  }

  // ---------- start-up ----------

  /** A file read from disk: its table says 32 for each segment but the last, whose entry is, as it
      stands, the gap to the next multiple of 32, and as it should be, what is left. */
  ghost predicate ReadIn(build: Build, name: Name, bytes: seq<byte>, fi: Client.FileInfo) {
    var n := |bytes| / 32 + 1;
    && fi.name == name && fi.size == |bytes| && fi.numSegs == n && fi.fp == Client.Loaded(bytes) && |fi.sizes| == 10240
    && (forall s :: 0 <= s < 10240 && s != n - 1 ==> fi.sizes[s] == 32)
    && (n <= 10240 ==> fi.sizes[n - 1] == if build.Shipped? then 32 * n - |bytes| else |bytes| - 32 * (n - 1))
  }

  lemma {:induction false} LoadReads(build: Build, name: Name, bytes: seq<byte>)
    ensures ReadIn(build, name, bytes, Client.Load(build, name, bytes))
  {
    var size := |bytes|;
    assert 0 < 32 * (size / 32 + 1) - size <= 32;
  }

  /** A download as its task sets it up: done, with all its segments, if the file is held; else of
      no known size and with none. Nobody is known to have any of it. */
  ghost predicate SetUp(owned: seq<Client.FileInfo>, t: Client.Task, d: Client.Download) {
    && d.name == t.name && d.share == t.share && !d.enabled && !d.rawInit && d.raw == []
    && |d.source| == 10240 && (forall s :: 0 <= s < 10240 ==> d.source[s] == 25) && |d.have| == 10240
    && (d.done <==> Held(owned, t.name))
    && (!d.done ==> d.filesize == 0 && d.numSegs == 0 && forall s :: 0 <= s < 10240 ==> !d.have[s])
    && forall i :: IsOwnedFor(owned, t.name, i) ==>
      && d.filesize == owned[i].size && d.numSegs == owned[i].numSegs
      && forall s :: 0 <= s < 10240 ==> (d.have[s] <==> s < owned[i].numSegs)
  }

  lemma {:induction false} NewDownloadIsSetUp(owned: seq<Client.FileInfo>, t: Client.Task)
    ensures SetUp(owned, t, Client.NewDownload(owned, t))
  {
    hide FirstIndex;
    OwnedHits(owned, t.name);
  }

  /** Task t is the last whose file is entry i. */
  ghost predicate IsLastFor(owned: seq<Client.FileInfo>, tasks: seq<Client.Task>, i: int, t: int) {
    && 0 <= t < |tasks| && IsOwnedFor(owned, tasks[t].name, i)
    && forall u :: t < u < |tasks| ==> !IsOwnedFor(owned, tasks[u].name, i)
  }

  ghost predicate Volunteered(owned: seq<Client.FileInfo>, tasks: seq<Client.Task>, i: int) {
    exists t :: IsLastFor(owned, tasks, i, t) && tasks[t].share == 1
  }

  lemma {:induction false} NoTasks(owned: seq<Client.FileInfo>, i: int)
    ensures !Volunteered(owned, [], i)
  {
  }

  lemma {:induction false} OneMoreTask(owned: seq<Client.FileInfo>, tasks: seq<Client.Task>, t: Client.Task, i: int)
    ensures Volunteered(owned, tasks + [t], i) <==> if IsOwnedFor(owned, t.name, i) then t.share == 1 else Volunteered(owned, tasks, i)
  {
    hide IsOwnedFor;
    var more := tasks + [t];
    assert more[|tasks|] == t && forall u :: 0 <= u < |tasks| ==> more[u] == tasks[u];
    if IsOwnedFor(owned, t.name, i) {
      assert IsLastFor(owned, more, i, |tasks|);
    } else {
      forall u
        ensures IsLastFor(owned, more, i, u) <==> IsLastFor(owned, tasks, i, u)
      {
      }
    }
  }

  /** There is a group for each file held, of its name and size, in which the client lists itself, and
      nobody else, if the last task for that file says so. */
  ghost predicate GroupsAre(owned: seq<Client.FileInfo>, groups: seq<Client.Group>, id: int, tasks: seq<Client.Task>) {
    && |groups| == |owned|
    && forall i :: 0 <= i < |owned| ==>
      && groups[i].name == owned[i].name && groups[i].filesize == owned[i].size
      && forall j :: j in groups[i].sharing <==> j == id && Volunteered(owned, tasks, i)
  }

  lemma {:induction false} VolunteerAllAre(owned: seq<Client.FileInfo>, id: int, tasks: seq<Client.Task>)
    ensures GroupsAre(owned, Client.VolunteerAll(Client.NewGroups(owned), id, tasks), id, tasks)
  {
    hide Volunteered, Client.Volunteer;
    if tasks == [] {
      forall i
        ensures !Volunteered(owned, [], i)
      {
        NoTasks(owned, i);
      }
    } else {
      var front, t := tasks[..|tasks| - 1], tasks[|tasks| - 1];
      assert tasks == front + [t];
      VolunteerAllAre(owned, id, front);
      VolunteerIs(owned, Client.VolunteerAll(Client.NewGroups(owned), id, front), id, front, t);
    }
  }

  lemma {:induction false} VolunteerIs(owned: seq<Client.FileInfo>, groups: seq<Client.Group>, id: int, tasks: seq<Client.Task>, t: Client.Task)
    requires GroupsAre(owned, groups, id, tasks)
    ensures GroupsAre(owned, Client.Volunteer(groups, id, t), id, tasks + [t])
  {
    hide FirstIndex, Volunteered;
    OwnedHits(owned, t.name);
    forall i
      ensures Volunteered(owned, tasks + [t], i) <==> if IsOwnedFor(owned, t.name, i) then t.share == 1 else Volunteered(owned, tasks, i)
    {
      OneMoreTask(owned, tasks, t, i);
    }
  }

  /** The client at start: what it holds, what it is to fetch, and whom it knows to share. With
      nothing to do it exits. */
  lemma {:induction false} StartIs(build: Build, id: int, trackerPort: int, files: seq<(Name, seq<byte>)>, tasks: seq<Client.Task>)
    ensures var st := Client.Start(build, id, trackerPort, files, tasks);
      && st.id == id && st.trackerPort == trackerPort && st.addrs == [] && st.updates == 0 && st.progress == 0 && st.disk == []
      && st.status == (if |tasks| == 0 then Client.Exited else Client.Running)
      && |st.owned| == |files| && (forall i :: 0 <= i < |files| ==> ReadIn(build, files[i].0, files[i].1, st.owned[i]))
      && |st.downloads| == |tasks| && (forall k :: 0 <= k < |tasks| ==> SetUp(st.owned, tasks[k], st.downloads[k]))
      && GroupsAre(st.owned, st.groups, id, tasks)
  {
    hide ReadIn, SetUp, GroupsAre, Client.Load, Client.NewDownload;
    var owned := Client.LoadAll(build, files);
    forall i | 0 <= i < |files|
      ensures ReadIn(build, files[i].0, files[i].1, owned[i])
    {
      LoadReads(build, files[i].0, files[i].1);
    }
    forall k | 0 <= k < |tasks|
      ensures SetUp(owned, tasks[k], Client.NewDownload(owned, tasks[k]))
    {
      NewDownloadIsSetUp(owned, tasks[k]);
    }
    VolunteerAllAre(owned, id, tasks);
  }

  // ---------- the rest ----------

  lemma {:induction false} EnablingIs(build: Build, st: Client.State, k: nat)
    requires st.status.Running? && k < |st.downloads|
    ensures var (st', outs) := Client.Step(build, st, Client.Enable(k));
      outs == [] && st' == st.(downloads := st.downloads[k := st.downloads[k].(enabled := true)])
  {
  }

  /** A datagram that reads as no message changes nothing, any other is handled. */
  lemma {:induction false} ReceiptIs(build: Build, st: Client.State, mem: seq<byte>, from: int, junk: seq<byte>)
    requires st.status.Running?
    ensures ReadClient(mem) == None ==> Client.Step(build, st, Client.Receive(mem, from, junk)) == (st, [])
    ensures forall m :: ReadClient(mem) == Some(m) ==>
      Client.Step(build, st, Client.Receive(mem, from, junk)) == Client.Handle(st, m, from, junk)
  {
    hide Client.Handle, ReadClient;
  }

  lemma {:induction false} StoppedIsStill(build: Build, st: Client.State, input: Client.Input)
    requires !st.status.Running?
    ensures Client.Step(build, st, input) == (st, [])
  {
  }
}
