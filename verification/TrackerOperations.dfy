/** What the tracker makes of one GROUP_SHOW_INTEREST, field by field and number by number: module
    Tracker against the plain wording of Tracker.c. */
module TrackerOperations {
  import opened Basics
  import opened Wire
  import opened Operations
  import Client
  import Layout
  import Tracker
  import TrackerPacket

  /** Group i is the first of the name. */
  ghost predicate IsNamed(groups: seq<Tracker.Group>, name: Name, i: int) {
    0 <= i < |groups| && groups[i].name == name && forall j :: 0 <= j < i ==> groups[j].name != name
  }

  lemma {:induction false} NameHits(groups: seq<Tracker.Group>, name: Name)
    ensures var x := Tracker.GroupFor(groups, name); x <= |groups| && (IsNamed(groups, name, x) <==> x < |groups|) && forall i :: IsNamed(groups, name, i) ==> i == x
  {
    hide FirstIndex;
  }

  /** The client is now downloading with type 0 or 1, and sharing with type 1 or 2; the first size
      other than 0 stays. */
  ghost predicate Marked(g: Tracker.Group, g': Tracker.Group, cid: int, x: Item) {
    && g'.name == g.name
    && (forall j :: j in g'.down <==> j in g.down || (j == cid && (x.kind == 0 || x.kind == 1)))
    && (forall j :: j in g'.sharing <==> j in g.sharing || (j == cid && (x.kind == 1 || x.kind == 2)))
    && g'.size == if g.size == 0 then x.size else g.size
  }

  /** The first group of the name is marked, or a new one at the end. */
  ghost predicate Noted(groups: seq<Tracker.Group>, groups': seq<Tracker.Group>, cid: int, x: Item) {
    if exists i :: IsNamed(groups, x.name, i) then
      && |groups'| == |groups|
      && forall i :: 0 <= i < |groups| ==>
        if IsNamed(groups, x.name, i) then Marked(groups[i], groups'[i], cid, x) else groups'[i] == groups[i]
    else
      |groups'| == |groups| + 1 && groups <= groups' && Marked(Tracker.Group(x.name, {}, {}, 0), groups'[|groups|], cid, x)
  }

  lemma {:induction false} ItemIsNoted(groups: seq<Tracker.Group>, cid: int, x: Item)
    ensures Noted(groups, Tracker.NoteItem(groups, cid, x), cid, x)
  {
    hide FirstIndex, Tracker.GroupFor;
    NameHits(groups, x.name);
  }

  /** One item after the other. */
  ghost predicate NotedInTurn(states: seq<seq<Tracker.Group>>, cid: int, items: seq<Item>) {
    |states| == |items| + 1 && forall k :: 0 <= k < |items| ==> Noted(states[k], states[k + 1], cid, items[k])
  }

  lemma {:induction false} ItemsAreNoted(groups: seq<Tracker.Group>, cid: int, items: seq<Item>) returns (states: seq<seq<Tracker.Group>>)
    ensures NotedInTurn(states, cid, items) && states[0] == groups && states[|items|] == Tracker.NoteItems(groups, cid, items)
    decreases items
  {
    hide Noted, Tracker.NoteItem;
    if items == [] {
      states := [groups];
    } else {
      var front, x := items[..|items| - 1], items[|items| - 1];
      var before := ItemsAreNoted(groups, cid, front);
      var r := Tracker.NoteItem(Tracker.NoteItems(groups, cid, front), cid, x);
      ItemIsNoted(before[|front|], cid, x);
      states := before + [r];
      forall k | 0 <= k < |items|
        ensures Noted(states[k], states[k + 1], cid, items[k])
      {
        if k < |front| { assert Noted(before[k], before[k + 1], cid, front[k]); }
      }
    }
  }

  /** Client j below 25 is sharing, and its first address has this port. */
  ghost predicate SharesAt(addrs: seq<Peer>, sharing: set<int>, j: int, port: int) {
    0 <= j < 25 && j in sharing && exists a :: IsWithId(addrs, j, a) && addrs[a].port == port
  }

  ghost predicate AscendingIds(peers: seq<Peer>) {
    forall a, b :: 0 <= a < b < |peers| ==> peers[a].id < peers[b].id
  }

  /** All sharing clients whose address is on file, in order of their ids. */
  ghost predicate PeersAre(addrs: seq<Peer>, sharing: set<int>, n: nat, peers: seq<Peer>) {
    AscendingIds(peers) && forall p :: p in peers <==> p.id < n && SharesAt(addrs, sharing, p.id, p.port)
  }

  lemma {:induction false} SharersAre(addrs: seq<Peer>, sharing: set<int>, n: nat)
    requires n <= 25
    ensures PeersAre(addrs, sharing, n, Tracker.SharersOf(addrs, sharing, n))
  {
    if n > 0 {
      SharersAre(addrs, sharing, n - 1);
      OneMoreSharer(addrs, sharing, n - 1, Tracker.SharersOf(addrs, sharing, n - 1));
    }
  }

  lemma {:induction false} OneMoreSharer(addrs: seq<Peer>, sharing: set<int>, j: nat, peers: seq<Peer>)
    requires j < 25 && PeersAre(addrs, sharing, j, peers)
    ensures var i := Client.IndexOfId(addrs, j);
      PeersAre(addrs, sharing, j + 1, peers + if j in sharing && i < |addrs| then [Peer(j, addrs[i].port)] else [])
  {
    hide Client.IndexOfId, SharesAt;
    AddressHits(addrs, j);
    var i := Client.IndexOfId(addrs, j);
    OneSharer(addrs, sharing, j, i);
    if j in sharing && i < |addrs| {
      var p := Peer(j, addrs[i].port);
      var more := peers + [p];
      forall q
        ensures q in more <==> q.id < j + 1 && SharesAt(addrs, sharing, q.id, q.port)
      {
        assert q in more <==> q in peers || q == p;
      }
      forall a, b | 0 <= a < b < |more|
        ensures more[a].id < more[b].id
      {
        assert more[a] in peers;
      }
    } else {
      assert peers + [] == peers;
    }
  }

  lemma {:induction false} OneSharer(addrs: seq<Peer>, sharing: set<int>, j: nat, i: nat)
    requires j < 25 && i <= |addrs| && (IsWithId(addrs, j, i) <==> i < |addrs|) && forall a :: IsWithId(addrs, j, a) ==> a == i
    ensures forall port :: SharesAt(addrs, sharing, j, port) <==> j in sharing && i < |addrs| && port == addrs[i].port
  {
    hide IsWithId;
  }

  /** The answer for one name: the size and the sharers of its group; nothing, if it has none. */
  ghost predicate AnswerIs(addrs: seq<Peer>, groups: seq<Tracker.Group>, name: Name, f: FileEntry) {
    && f.name == name
    && ((forall i :: !IsNamed(groups, name, i)) ==> f.size == 0 && f.peers == [])
    && forall i :: IsNamed(groups, name, i) ==> f.size == groups[i].size && PeersAre(addrs, groups[i].sharing, 25, f.peers)
  }

  lemma {:induction false} AssignmentAnswers(addrs: seq<Peer>, groups: seq<Tracker.Group>, name: Name)
    ensures AnswerIs(addrs, groups, name, Tracker.Assignment(addrs, groups, name))
  {
    hide Tracker.GroupFor, Tracker.SharersOf, PeersAre;
    NameHits(groups, name);
    var i := Tracker.GroupFor(groups, name);
    if i < |groups| { SharersAre(addrs, groups[i].sharing, 25); }
  }

  /** The tracker notes the sender's address, unless it has one for that id; then the files, in
      turn; and answers with one entry for each file asked for, in the same order, from its databases
      as they then are. */
  lemma {:induction false} InterestIs(t: Tracker.State, cid: int, items: seq<Item>, from: int) returns (states: seq<seq<Tracker.Group>>)
    ensures var (t', reply) := Tracker.OnInterest(t, cid, items, from);
      && t'.running == t.running
      && t'.addrs == (if HasId(t.addrs, cid) then t.addrs else t.addrs + [Peer(cid, from)])
      && NotedInTurn(states, cid, items) && states[0] == t.groups && states[|items|] == t'.groups
      && reply.GroupAssign? && |reply.files| == |items|
      && forall k :: 0 <= k < |items| ==> AnswerIs(t'.addrs, t'.groups, items[k].name, reply.files[k])
  {
    hide Tracker.NoteItems, Tracker.Assignment, AnswerIs, NotedInTurn, HasId, Client.LearnPeer;
    LearnPeerNotes(t.addrs, Peer(cid, from));
    states := ItemsAreNoted(t.groups, cid, items);
    var t' := Tracker.OnInterest(t, cid, items, from).0;
    forall k | 0 <= k < |items|
      ensures AnswerIs(t'.addrs, t'.groups, items[k].name, Tracker.Assignment(t'.addrs, t'.groups, items[k].name))
    {
      AssignmentAnswers(t'.addrs, t'.groups, items[k].name);
    }
  }

  // ---------- the packet as it is written ----------

  /** The sharing clients a group has room for. */
  ghost function Below(sharing: set<int>, n: nat): set<int> {
    set j | 0 <= j < n && j in sharing
  }

  lemma {:induction false} CountIsCardinality(sharing: set<int>, n: nat)
    ensures TrackerPacket.Count(sharing, n) == |Below(sharing, n)|
  {
    if n > 0 {
      CountIsCardinality(sharing, n - 1);
      var last := if n - 1 in sharing then {n - 1} else {};
      assert Below(sharing, n) == Below(sharing, n - 1) + last;
    }
  }

  ghost predicate HeadIs(b: seq<byte>, name: Name, size: nat, count: nat) {
    |b| >= 39 && Layout.NameIs(b, 0, name) && Layout.SizeIs(b, 33, size) && Layout.ShortIs(b, 37, count)
  }

  /** Name, size and number of sharers, the latter two 0 if the group is not of that name; and in any
      case its sharers. */
  ghost predicate WrittenFrom(b: seq<byte>, addrs: seq<Peer>, g: Tracker.Group, name: Name) {
    && HeadIs(b, name, if g.name == name then g.size else 0, if g.name == name then |Below(g.sharing, 25)| else 0)
    && exists peers :: RecordsAre(b, addrs, g, peers)
  }

  ghost predicate RecordsAre(b: seq<byte>, addrs: seq<Peer>, g: Tracker.Group, peers: seq<Peer>) {
    PeersAre(addrs, g.sharing, 25, peers) && |b| == 39 + 20 * |peers| && Layout.PeersAre(b, 39, peers)
  }

  /** Request i: as it stands from st_groups[i], which behind the last group is all zeros; as it should
      be from the first group of the name, or, if there is none, from the last. */
  ghost predicate WrittenFor(build: Build, addrs: seq<Peer>, groups: seq<Tracker.Group>, name: Name, i: nat, b: seq<byte>) {
    if groups == [] || (build.Shipped? && i >= |groups|) then |b| == 39 && HeadIs(b, name, 0, 0)
    else if build.Shipped? then WrittenFrom(b, addrs, groups[i], name)
    else if exists k :: IsNamed(groups, name, k) then forall k :: IsNamed(groups, name, k) ==> WrittenFrom(b, addrs, groups[k], name)
    else WrittenFrom(b, addrs, groups[|groups| - 1], name)
  }

  lemma {:induction false} HeadIsWritten(name: Name, size: nat, count: nat, rest: seq<byte>)
    ensures HeadIs(TrackerPacket.Head(name, size, count) + rest, name, size, count)
    ensures Holds(TrackerPacket.Head(name, size, count) + rest, 39, rest)
  {
    hide Pad, Size, Short, Layout.NameIs, Layout.SizeIs, Layout.ShortIs;
    var b := TrackerPacket.Head(name, size, count) + rest;
    assert Holds(b, 0, Pad(name) + Size(size) + Short(count));
    HoldsSplit(b, 0, Pad(name) + Size(size), Short(count));
    HoldsSplit(b, 0, Pad(name), Size(size));
    Layout.NameHeld(b, 0, name);
    Layout.SizeHeld(b, 33, size);
    Layout.ShortHeld(b, 37, count);
  }

  lemma {:induction false} FromIsWritten(addrs: seq<Peer>, g: Tracker.Group, name: Name)
    ensures var same := g.name == name;
      WrittenFrom(TrackerPacket.Head(name, if same then g.size else 0, if same then TrackerPacket.Count(g.sharing, 25) else 0) +
                  Peers(Tracker.SharersOf(addrs, g.sharing, 25)), addrs, g, name)
  {
    hide HeadIs, PeersAre, Layout.PeersAre, Holds;
    var peers := Tracker.SharersOf(addrs, g.sharing, 25);
    var size, count := if g.name == name then g.size else 0, if g.name == name then TrackerPacket.Count(g.sharing, 25) else 0;
    var b := TrackerPacket.Head(name, size, count) + Peers(peers);
    CountIsCardinality(g.sharing, 25);
    HeadIsWritten(name, size, count, Peers(peers));
    Layout.PeersHeld(b, 39, peers);
    SharersAre(addrs, g.sharing, 25);
    assert RecordsAre(b, addrs, g, peers);
  }

  lemma {:induction false} ChunkIsWritten(build: Build, addrs: seq<Peer>, groups: seq<Tracker.Group>, name: Name, i: nat)
    ensures WrittenFor(build, addrs, groups, name, i, TrackerPacket.Chunk(build, addrs, groups, name, i))
  {
    hide Tracker.GroupFor, Tracker.SharersOf, TrackerPacket.Head, HeadIs, WrittenFrom, Peers;
    NameHits(groups, name);
    if groups == [] {
      NothingWritten(name);
    } else if build.Shipped? {
      if i < |groups| {
        FromIsWritten(addrs, groups[i], name);
      } else {
        NothingWritten(name);
        NobodyShares(addrs, 25);
        assert TrackerPacket.Head(name, 0, 0) + [] == TrackerPacket.Head(name, 0, 0);
      }
    } else {
      var k := Tracker.GroupFor(groups, name);
      if k < |groups| {
        FromIsWritten(addrs, groups[k], name);
      } else {
        assert groups[|groups| - 1].name != name by { NoneNamed(groups, name, |groups|); }
        FromIsWritten(addrs, groups[|groups| - 1], name);
      }
    }
  }

  lemma {:induction false} NoneNamed(groups: seq<Tracker.Group>, name: Name, n: nat)
    requires n <= |groups| && forall k :: !IsNamed(groups, name, k)
    ensures forall k :: 0 <= k < n ==> groups[k].name != name
  {
    if n > 0 {
      NoneNamed(groups, name, n - 1);
      assert !IsNamed(groups, name, n - 1);
    }
  }

  lemma {:induction false} NothingWritten(name: Name)
    ensures var b := TrackerPacket.Head(name, 0, 0); |b| == 39 && HeadIs(b, name, 0, 0)
  {
    HeadIsWritten(name, 0, 0, []);
    assert TrackerPacket.Head(name, 0, 0) + [] == TrackerPacket.Head(name, 0, 0);
  }

  lemma {:induction false} NobodyShares(addrs: seq<Peer>, n: nat)
    ensures Tracker.SharersOf(addrs, {}, n) == [] && TrackerPacket.Count({}, n) == 0 && Peers([]) == []
  {
    if n > 0 { NobodyShares(addrs, n - 1); }
  }

  /** 39 bytes for each request, and 20 for each sharer of the first group of the name. */
  ghost predicate CountedFor(groups: seq<Tracker.Group>, name: Name, size: nat) {
    && ((forall k :: !IsNamed(groups, name, k)) ==> size == 39)
    && forall k :: IsNamed(groups, name, k) ==> size == 39 + 20 * |Below(groups[k].sharing, 25)|
  }

  function Sum(sizes: seq<nat>): nat {
    if sizes == [] then 0 else Sum(sizes[..|sizes| - 1]) + sizes[|sizes| - 1]
  }

  function Row(chunks: seq<seq<byte>>): seq<byte> {
    if chunks == [] then [] else chunks[0] + Row(chunks[1..])
  }

  lemma {:induction false} SizesAreCounted(groups: seq<Tracker.Group>, names: seq<Name>, n: nat) returns (sizes: seq<nat>)
    requires n <= |names|
    ensures |sizes| == n && Sum(sizes) == TrackerPacket.SizePass(groups, names, n)
    ensures forall i :: 0 <= i < n ==> CountedFor(groups, names[i], sizes[i])
  {
    if n == 0 {
      sizes := [];
    } else {
      hide CountedFor, TrackerPacket.SizeOf;
      var front := SizesAreCounted(groups, names, n - 1);
      SizeIsCounted(groups, names[n - 1]);
      sizes := front + [TrackerPacket.SizeOf(groups, names[n - 1])];
      assert sizes[..n - 1] == front;
    }
  }

  lemma {:induction false} SizeIsCounted(groups: seq<Tracker.Group>, name: Name)
    ensures CountedFor(groups, name, TrackerPacket.SizeOf(groups, name))
  {
    hide Tracker.GroupFor;
    NameHits(groups, name);
    var k := Tracker.GroupFor(groups, name);
    if k < |groups| { CountIsCardinality(groups[k].sharing, 25); }
  }

  lemma {:induction false} ChunksAreWritten(build: Build, addrs: seq<Peer>, groups: seq<Tracker.Group>, names: seq<Name>, i: nat) returns (chunks: seq<seq<byte>>)
    requires i <= |names|
    ensures |chunks| == |names| - i && Row(chunks) == TrackerPacket.FillFrom(build, addrs, groups, names, i)
    ensures forall k :: i <= k < |names| ==> WrittenFor(build, addrs, groups, names[k], k, chunks[k - i])
    decreases |names| - i
  {
    if i == |names| {
      chunks := [];
    } else {
      hide TrackerPacket.Chunk, WrittenFor;
      var rest := ChunksAreWritten(build, addrs, groups, names, i + 1);
      ChunkIsWritten(build, addrs, groups, names[i], i);
      chunks := [TrackerPacket.Chunk(build, addrs, groups, names[i], i)] + rest;
      assert chunks[1..] == rest;
      forall k | i <= k < |names|
        ensures WrittenFor(build, addrs, groups, names[k], k, chunks[k - i])
      {
        if k > i { assert chunks[k - i] == rest[k - (i + 1)]; }
      }
    }
  }

  /** These bytes, cut off or filled up with zeros, stand behind the six of the header. */
  ghost predicate BodyIs(b: seq<byte>, row: seq<byte>) {
    forall p :: 6 <= p < |b| ==> b[p] == if p - 6 < |row| then row[p - 6] else 0
  }

  /** The packet createGroupAssignPkt sends, of whichever build: the length field holds its length,
      which is what the size pass counts; type 42; the number of requests; and what the fill pass
      writes for each of them, in turn, as far as it goes. */
  lemma {:induction false} PacketIs(build: Build, addrs: seq<Peer>, groups: seq<Tracker.Group>, names: seq<Name>)
    returns (chunks: seq<seq<byte>>, sizes: seq<nat>)
    ensures |chunks| == |names| == |sizes|
    ensures forall i :: 0 <= i < |names| ==>
      WrittenFor(build, addrs, groups, names[i], i, chunks[i]) && CountedFor(groups, names[i], sizes[i])
    ensures var b := TrackerPacket.AssignBytes(build, addrs, groups, names);
      |b| == 6 + Sum(sizes) && Layout.HeaderIs(b, |b|, 42, |names|) && BodyIs(b, Row(chunks))
  {
    hide WrittenFor, CountedFor, Sum, Row, TrackerPacket.FillFrom, TrackerPacket.SizePass, Short, Layout.HeaderIs;
    chunks := ChunksAreWritten(build, addrs, groups, names, 0);
    sizes := SizesAreCounted(groups, names, |names|);
    forall i | 0 <= i < |names|
      ensures WrittenFor(build, addrs, groups, names[i], i, chunks[i])
    {
      assert chunks[i] == chunks[i - 0];
    }
    var b := TrackerPacket.AssignBytes(build, addrs, groups, names);
    var size := TrackerPacket.SizePass(groups, names, |names|);
    var h := Short(6 + size) + Short(42) + Short(|names|);
    assert b[..6] == h;
    Layout.HeaderHeld(b, 6 + size, 42, |names|);
  }
}
