/** The client process as Client.c keeps it: tables and counters updated in place by loops,
    packets read and written byte by byte. Each callback is proved to do what module Client says. */
module ClientNode {
  import opened Basics
  import opened Wire
  import opened Segments
  import opened PacketWriters
  import opened Packets
  import Client

  class ClientProcess {
    const build: Build
    const id: int
    const trackerPort: int
    var downloads: seq<Client.Download>
    var owned: seq<Client.FileInfo>
    var groups: seq<Client.Group>
    var addrs: seq<Peer>
    var updates: nat
    var progress: nat
    var disk: seq<(Name, seq<byte>)>
    var status: Client.Status

    ghost function State(): Client.State
      reads this
    {
      Client.State(id, trackerPort, downloads, owned, groups, addrs, updates, progress, disk, status)
    }

    // ---------- start-up ----------

    /** The set-up part of clientDoWork. */
    constructor (build: Build, id: int, trackerPort: int, files: seq<(Name, seq<byte>)>, tasks: seq<Client.Task>)
      ensures this.build == build && State() == Client.Start(build, id, trackerPort, files, tasks)
    {
      this.build, this.id, this.trackerPort := build, id, trackerPort;
      downloads, owned, groups, addrs, updates, progress, disk := [], [], [], [], 0, 0, [];
      status := Client.Running;
      new;
      LoadFiles(files);
      PrepareDownloads(tasks);
      if downloads == [] {
        status := Client.Exited;
      }
    }

    method LoadFiles(files: seq<(Name, seq<byte>)>)
      requires owned == [] && groups == []
      modifies this`owned, this`groups
      ensures owned == Client.LoadAll(build, files) && groups == Client.NewGroups(owned)
    {
      hide Client.Load;
      for i := 0 to |files|
        invariant owned == Client.LoadAll(build, files[..i]) && groups == Client.NewGroups(owned)
      {
        assert files[..i + 1][..i] == files[..i];
        var fi := LoadFile(files[i].0, files[i].1);
        NextGroup(owned, fi);
        owned := owned + [fi];
        groups := groups + [Client.Group(fi.name, {}, fi.size)];
      }
      assert files[..|files|] == files;
    }

    method PrepareDownloads(tasks: seq<Client.Task>)
      requires downloads == []
      modifies this`downloads, this`groups
      ensures downloads == Client.NewDownloads(owned, tasks)
      ensures groups == Client.VolunteerAll(old(groups), id, tasks)
    {
      hide Client.NewDownload, Client.Volunteer;
      for k := 0 to |tasks|
        invariant downloads == Client.NewDownloads(owned, tasks[..k])
        invariant groups == Client.VolunteerAll(old(groups), id, tasks[..k])
      {
        assert tasks[..k + 1][..k] == tasks[..k];
        var d := PrepareDownload(tasks[k]);
        downloads := downloads + [d];
        OfferToShare(tasks[k]);
      }
      assert tasks[..|tasks|] == tasks;
    }

    /** A file read from disk, with its table of segment sizes. */
    method LoadFile(name: Name, bytes: seq<byte>) returns (fi: Client.FileInfo)
      ensures fi == Client.Load(build, name, bytes)
    {
      var size := |bytes|;
      var n := size / SEGMENT_SIZE + 1;
      var gap := size - SEGMENT_SIZE * n;
      var last := if build.Mended? then size - SEGMENT_SIZE * (n - 1) else Int16(if gap < 0 then -gap else gap);
      var sizes := FillSizes(SEGMENT_SIZE, n, last);
      fi := Client.FileInfo(name, size, n, sizes, Client.Loaded(bytes));
    }

    method PrepareDownload(t: Client.Task) returns (d: Client.Download)
      ensures d == Client.NewDownload(owned, t)
    {
      hide Client.OwnedFor;
      var have, source := new bool[MAX_SEGMENTS], new int[MAX_SEGMENTS];
      for j := 0 to MAX_SEGMENTS
        invariant forall i :: 0 <= i < j ==> !have[i] && source[i] == MAX_CLIENTS
      {
        have[j] := false;
        source[j] := MAX_CLIENTS;
      }
      assert source[..] == Repeat(MAX_SEGMENTS, MAX_CLIENTS);
      assert have[..] == Client.HavePrefix(0);
      d := Client.Download(t.name, t.share, false, false, 0, 0, false, [], have[..], source[..]);
      var i := FindOwnedFor(t.name);
      if i < |owned| {
        var n := owned[i].numSegs;
        for k := 0 to Min(n, MAX_SEGMENTS)
          invariant forall j :: 0 <= j < MAX_SEGMENTS ==> (have[j] <==> j < k)
        {
          have[k] := true;
        }
        assert have[..] == Client.HavePrefix(n);
        d := d.(filesize := owned[i].size, numSegs := n, done := true, have := have[..]);
      }
    }

    method OfferToShare(t: Client.Task)
      modifies this`groups
      ensures groups == Client.Volunteer(old(groups), id, t)
    {
      var i := 0;
      while i < |groups|
        invariant i <= |groups| && groups == old(groups)
        invariant forall j :: 0 <= j < i ==> !Client.Matches(t.name, groups[j].name)
      {
        if Client.Matches(t.name, groups[i].name) { break; }
        i := i + 1;
      }
      assert i == FirstIndex(groups, (g: Client.Group) => Client.Matches(t.name, g.name));
      if i < |groups| {
        var g := groups[i];
        groups := groups[i := g.(sharing := if t.share == 1 then g.sharing + {id} else g.sharing - {id})];
      }
    }

    // ---------- table searches ----------

    method FindOwnedAs(wanted: Name) returns (i: nat)
      ensures i == Client.OwnedAs(owned, wanted) <= |owned|
    {
      i := 0;
      while i < |owned|
        invariant i <= |owned|
        invariant forall j :: 0 <= j < i ==> !Client.Matches(owned[j].name, wanted)
      {
        if Client.Matches(owned[i].name, wanted) { break; }
        i := i + 1;
      }
    }

    method FindOwnedFor(download: Name) returns (i: nat)
      ensures i == Client.OwnedFor(owned, download) <= |owned|
    {
      i := 0;
      while i < |owned|
        invariant i <= |owned|
        invariant forall j :: 0 <= j < i ==> !Client.Matches(download, owned[j].name)
      {
        if Client.Matches(download, owned[i].name) { break; }
        i := i + 1;
      }
    }

    method FindDownload(wanted: Name) returns (k: nat)
      ensures k == Client.DownloadFor(downloads, wanted) <= |downloads|
    {
      k := 0;
      while k < |downloads|
        invariant k <= |downloads|
        invariant forall j :: 0 <= j < k ==> !Client.Matches(downloads[j].name, wanted)
      {
        if Client.Matches(downloads[k].name, wanted) { break; }
        k := k + 1;
      }
    }

    method FindGroup(wanted: Name) returns (i: nat)
      ensures i == Client.GroupFor(groups, wanted) <= |groups|
    {
      i := 0;
      while i < |groups|
        invariant i <= |groups|
        invariant forall j :: 0 <= j < i ==> !Client.Matches(groups[j].name, wanted)
      {
        if Client.Matches(groups[i].name, wanted) { break; }
        i := i + 1;
      }
    }

    /** The port comes back as an int16_t: those from 32768 on as negative numbers. */
    method GetClientPort(cid: int) returns (port: int)
      ensures port == Int16(Client.PortOf(addrs, cid))
    {
      for i := 0 to |addrs|
        invariant forall j :: 0 <= j < i ==> addrs[j].id != cid
      {
        if addrs[i].id == cid {
          assert i == Client.IndexOfId(addrs, cid);
          return Int16(addrs[i].port);
        }
      }
      return -1;
    }

    method GetClientId(port: int) returns (cid: int)
      ensures cid == Client.IdOf(addrs, port)
    {
      for i := 0 to |addrs|
        invariant forall j :: 0 <= j < i ==> addrs[j].port != port
      {
        if addrs[i].port == port {
          assert i == Client.IndexOfPort(addrs, port);
          return addrs[i].id;
        }
      }
      return -1;
    }

    /** sin_port := htons(getClientPort(cid)) */
    method PortFor(cid: int) returns (port: int)
      ensures port == Client.SendPort(addrs, cid)
    {
      port := GetClientPort(cid);
      SamePort(Client.PortOf(addrs, cid));
      port := port % 65536;
    }

    /** An unknown sender is noted. */
    method NoteSender(cid: int, from: int)
      modifies this`addrs
      ensures addrs == Client.LearnSender(old(addrs), cid, from)
    {
      var sender := GetClientId(from);
      if sender == -1 {
        addrs := addrs + [Peer(cid, from)];
      }
    }

    // ---------- message handlers ----------

    method HandleClientInfoRequest(pkt: seq<byte>, from: int) returns (sent: seq<Datagram>)
      requires ReadClient(pkt).Some? && ReadClient(pkt).value.InfoReq?
      modifies this
      ensures var m := ReadClient(pkt).value;
        var (st, outs) := Client.OnInfoReq(old(State()), m.cid, m.name, from);
        State() == st && CarryAll(build, sent, outs)
    {
      hide ReadClient, ShortAt, NameAt, Carries, Client.OwnedAs, Client.LearnSender;
      HeaderStands(pkt);
      updates := 0;
      var cid, name := ShortAt(pkt, 4), NameAt(pkt, 6);
      NoteSender(cid, from);
      var i := FindOwnedAs(name);
      var n := if i < |owned| then owned[i].numSegs else 0;
      if n == 0 { return []; }
      var reply := WriteInfoRep(id, name, n);
      sent := [Datagram(from, reply[..])];
      CarriesInfoRep(build, sent[0], id, name, n);
    }

    method HandleClientInfoReply(pkt: seq<byte>, from: int)
      requires ReadClient(pkt).Some? && ReadClient(pkt).value.InfoRep?
      modifies this
      ensures var m := ReadClient(pkt).value;
        State() == Client.OnInfoRep(old(State()), m.cid, m.name, m.segs, from)
    {
      hide ReadClient, Client.DownloadFor, Client.LearnSender, Client.SetSource;
      HeaderStands(pkt);
      var cid, name := ShortAt(pkt, 4), NameAt(pkt, 6);
      var k := FindDownload(name);
      if k < |downloads| {
        var source := NoteSegments(downloads[k].source, pkt, cid);
        downloads := downloads[k := downloads[k].(source := source)];
      }
      NoteSender(cid, from);
    }

    method NoteSegments(was: seq<int>, pkt: seq<byte>, cid: int) returns (source: seq<int>)
      requires ReadClient(pkt).Some? && ReadClient(pkt).value.InfoRep?
      ensures source == Client.SetSource(was, ReadClient(pkt).value.segs, cid)
    {
      hide ReadClient, ShortAt, Client.SetSource;
      InfoRepStands(pkt);
      ghost var segs := ReadClient(pkt).value.segs;
      var n, at := Max(0, ShortAt(pkt, 39)), 41;
      source := was;
      NoSource(source, segs, cid);
      for i := 0 to n
        invariant at == 41 + 2 * i && source == Client.SetSource(was, segs[..i], cid)
      {
        NextSource(was, segs, cid, i);
        var seg := ShortAt(pkt, at);
        if 0 <= seg < |source| {
          source := source[seg := cid];
        }
        at := at + 2;
      }
      assert segs[..n] == segs;
    }

    /** The segment is copied into the 32 bytes of rawData first: a longer one ends the process. */
    method HandleClientSegmentRequest(pkt: seq<byte>, from: int, junk: seq<byte>) returns (sent: seq<Datagram>)
      requires ReadClient(pkt).Some? && ReadClient(pkt).value.SegReq?
      modifies this
      ensures var m := ReadClient(pkt).value;
        var (st, outs) := Client.OnSegReq(old(State()), m.cid, m.name, m.seg, from, junk);
        State() == st && CarryAll(build, sent, outs)
    {
      hide ReadClient, ShortAt, NameAt, Carries, Client.OwnedAs, Client.DownloadFor, Client.LearnSender, Client.CopyOut;
      HeaderStands(pkt);
      updates := 0;
      var cid, name, seg := ShortAt(pkt, 4), NameAt(pkt, 6), ShortAt(pkt, 39);
      NoteSender(cid, from);
      var k := FindDownload(name);
      if k == |downloads| || !(0 <= seg < |downloads[k].have|) || !downloads[k].have[seg] {
        return [];
      }
      var data: seq<byte> := [];
      var i := FindOwnedAs(name);
      if i < |owned| {
        if seg >= |owned[i].sizes| || !(0 <= owned[i].sizes[seg] <= SEGMENT_SIZE) {
          status := Client.Crashed;
          return [];
        }
        data := CopyFrom(owned[i].fp, SEGMENT_SIZE * seg, owned[i].sizes[seg], junk);
      }
      var reply := WriteSegRep(build, id, name, seg, data);
      sent := [Datagram(from, reply[..])];
      CarriesImage(build, sent[0], Client.Out(from, SegRep(id, name, seg, |data|, data)));
    }

    /** memcpy(rawData, fp + off, size) */
    method CopyFrom(fp: Client.Pointer, off: nat, size: nat, junk: seq<byte>) returns (data: seq<byte>)
      requires size <= SEGMENT_SIZE
      ensures data == Client.CopyOut(Client.Bytes(State(), fp), off, size, junk)
    {
      var raw := new byte[SEGMENT_SIZE](_ => 0);
      var block := match fp case Loaded(bytes) => bytes case RawOf(k) => if k < |downloads| then downloads[k].raw else [];
      for o := 0 to size
        invariant raw[..o] == Client.CopyOut(block, off, o, junk)
      {
        raw[o] := if off + o < |block| then block[off + o] else if o < |junk| then junk[o] else 0;
        assert raw[..o + 1] == raw[..o] + [raw[o]];
      }
      data := raw[..size];
    }

    /** A number that was cut off the reply and reads out of range ends the process. */
    method HandleClientSegmentReply(pkt: seq<byte>, from: int)
      requires ReadClient(pkt).Some? && ReadClient(pkt).value.SegRep?
      modifies this
      ensures var m := ReadClient(pkt).value;
        SameUnlessCrashed(State(), Client.OnSegRep(old(State()), m.cid, m.name, m.seg, m.size, m.data, from))
    {
      hide ReadClient, ShortAt, NameAt, Client.LearnSender, Client.DownloadFor, Client.ApplyToAll;
      HeaderStands(pkt);
      progress := 0;
      var cid, name, seg, size := ShortAt(pkt, 4), NameAt(pkt, 6), ShortAt(pkt, 39), ShortAt(pkt, 41);
      if size < 0 || !(0 <= seg < MAX_SEGMENTS) {
        var k := FindDownload(name);
        if k < |downloads| {
          status := Client.Crashed;
          return;
        }
      } else {
        StoreEverywhere(name, seg, pkt, size);
      }
      NoteSender(cid, from);
    }

    /** All downloads of the name take the segment: this search does not stop at the first. */
    method StoreEverywhere(name: Name, seg: nat, pkt: seq<byte>, size: nat)
      requires seg < MAX_SEGMENTS && 43 + size <= |pkt|
      modifies this`downloads
      ensures downloads == Client.ApplyToAll(old(downloads), name, seg, pkt[43..43 + size])
    {
      hide Client.ApplyReply, Client.Matches, Client.ApplyToAll;
      ghost var before, data := downloads, pkt[43..43 + size];
      NoneApplied(before, name, seg, data);
      for i := 0 to |downloads|
        invariant downloads == Client.ApplyToAll(before[..i], name, seg, data) + before[i..]
      {
        NextApplied(before, name, seg, data, i);
        if Client.Matches(downloads[i].name, name) {
          var d := StoreSegment(downloads[i], seg, pkt, size);
          downloads := downloads[i := d];
        }
      }
      assert before[..|before|] == before;
    }

    /** The payload goes from the packet straight into rawFile. */
    method StoreSegment(d: Client.Download, seg: nat, pkt: seq<byte>, size: nat) returns (r: Client.Download)
      requires seg < MAX_SEGMENTS && 43 + size <= |pkt|
      ensures r == Client.ApplyReply(d, seg, pkt[43..43 + size])
    {
      hide Repeat;
      r := d;
      if !r.rawInit {
        r := r.(rawInit := true, raw := Zeros(r.filesize));
      }
      var raw, off := r.raw, SEGMENT_SIZE * seg;
      for o := 0 to size
        invariant |raw| == |r.raw|
        invariant forall p :: 0 <= p < |raw| ==> raw[p] == if off <= p < off + o then pkt[43 + p - off] else r.raw[p]
      {
        if off + o < |raw| { raw := raw[off + o := pkt[43 + o]]; }
      }
      assert raw == Client.CopyIn(r.raw, off, pkt[43..43 + size]);
      r := r.(raw := raw, have := if seg < |r.have| then r.have[seg := true] else r.have);
    }

    method HandleTrackerGroupUpdate(pkt: seq<byte>)
      requires ReadClient(pkt).Some? && ReadClient(pkt).value.GroupAssign?
      modifies this
      ensures State() == Client.OnAssign(old(State()), ReadClient(pkt).value.files)
    {
      hide ReadClient, ReadEntry, ReadEntries, ShortAt, Client.OnEntry, Client.OnAssign;
      AssignStands(pkt);
      ghost var files := ReadClient(pkt).value.files;
      var n, at := Max(0, ShortAt(pkt, 4)), 6;
      ghost var done, rest := [], files;
      NoneAssigned(State());
      for i := 0 to n
        invariant i == |done| && n == i + |rest| && done + rest == files
        invariant ReadEntries(pkt, at, |rest|) == Some(rest)
        invariant State() == Client.OnAssign(old(State()), done)
      {
        EntriesStand(pkt, at, rest);
        NextAssigned(old(State()), done, rest[0]);
        at := NoteEntry(pkt, at);
        done, rest := done + [rest[0]], rest[1..];
      }
      assert done == files;
    }

    /** One file of a GROUP_ASSIGN. */
    method NoteEntry(pkt: seq<byte>, from: nat) returns (at: nat)
      requires ReadEntry(pkt, from).Some?
      modifies this
      ensures State() == Client.OnEntry(old(State()), ReadEntry(pkt, from).value)
      ensures at == from + 39 + 20 * |ReadEntry(pkt, from).value.peers|
    {
      hide Client.LearnSize, Client.LearnPeers, Client.LearnGroup, Client.Ids, ReadPeers;
      at := from;
      var name := NameAt(pkt, at);
      at := at + MAX_FILENAME;
      var size := SizeAt(pkt, at);
      at := at + 4;
      NoteSize(name, size);
      var n := ShortAt(pkt, at);
      at := at + 2;
      var ids;
      at, ids := NoteNeighbors(pkt, at, Max(0, n));
      NoteGroup(name, ids, size);
    }

    method NoteSize(name: Name, size: nat)
      modifies this`downloads
      ensures downloads == Client.LearnSize(old(downloads), name, size)
    {
      var k := FindDownload(name);
      if k < |downloads| && downloads[k].filesize == 0 && size != 0 {
        var have := new bool[MAX_SEGMENTS];
        for j := 0 to MAX_SEGMENTS
          invariant downloads == old(downloads) && forall i :: 0 <= i < j ==> !have[i]
        {
          have[j] := false;
        }
        assert have[..] == Client.HavePrefix(0);
        hide Client.HavePrefix, Zeros;
        downloads := downloads[k := downloads[k].(filesize := size, numSegs := size / SEGMENT_SIZE + 1,
                                                  have := have[..], rawInit := true, raw := Zeros(size))];
      }
    }

    method NoteNeighbors(pkt: seq<byte>, from: nat, n: nat) returns (at: nat, ids: set<int>)
      requires ReadPeers(pkt, from, n).Some?
      modifies this`addrs
      ensures at == from + 20 * |ReadPeers(pkt, from, n).value|
      ensures ids == Client.Ids(ReadPeers(pkt, from, n).value)
      ensures addrs == Client.LearnPeers(old(addrs), ReadPeers(pkt, from, n).value)
    {
      hide Client.LearnPeer, Client.Ids;
      ghost var peers := ReadPeers(pkt, from, n).value;
      at, ids := from, {};
      NoIds();
      for i := 0 to n
        invariant i <= |peers| && at == from + 20 * i && ReadPeers(pkt, at, n - i) == Some(peers[i..])
        invariant ids == Client.Ids(peers[..i]) && addrs == Client.LearnPeers(old(addrs), peers[..i])
      {
        PeersStand(pkt, at, n - i, peers[i..]);
        NextId(peers, i);
        assert peers[..i + 1][..i] == peers[..i];
        assert peers[i..][1..] == peers[i + 1..];
        var p := Peer(ShortAt(pkt, at), UShortAt(pkt, at + 2 + MAX_IP));
        ids := ids + {p.id};
        NoteNeighbor(p);
        at := at + 2 + MAX_IP + 2;
      }
      assert peers[..n] == peers;
    }

    method NoteNeighbor(p: Peer)
      modifies this`addrs
      ensures addrs == Client.LearnPeer(old(addrs), p)
    {
      var i := 0;
      while i < |addrs|
        invariant i <= |addrs| && addrs == old(addrs)
        invariant forall j :: 0 <= j < i ==> addrs[j].id != p.id
      {
        if addrs[i].id == p.id { break; }
        i := i + 1;
      }
      assert i == Client.IndexOfId(addrs, p.id);
      if i == |addrs| {
        addrs := addrs + [p];
      }
    }

    method NoteGroup(name: Name, ids: set<int>, size: nat)
      modifies this`groups
      ensures forall f: FileEntry :: f.name == name && f.size == size && Client.Ids(f.peers) == ids ==>
        groups == Client.LearnGroup(old(groups), f)
    {
      hide Client.Ids;
      var i := FindGroup(name);
      if i < |groups| {
        var g := groups[i].(sharing := groups[i].sharing + ids);
        if g.filesize == 0 && size != 0 {
          g := g.(filesize := size);
        }
        groups := groups[i := g];
      } else {
        groups := groups + [Client.Group(name, ids, size)];
      }
    }

    // ---------- timer callbacks ----------

    /** Announces all enabled downloads to the tracker, unless it is time to leave. */
    method SendInterestToTracker(junk: seq<int>) returns (sent: seq<Datagram>)
      requires status.Running?
      modifies this
      ensures var (st, outs) := Client.OnInterestTick(build, old(State()), junk);
        State() == st && CarryAll(build, sent, outs)
    {
      hide CarryAll, Client.AnnounceAll, Client.ItemsFor, Client.AllDone, Client.NoneEnabled;
      CarryNone(build);
      if updates >= 2 {
        var finished := AllFinished();
        if finished {
          status := Client.Exited;
          return [];
        }
      }
      if progress >= 4 {
        status := Client.Exited;
        return [];
      }
      updates := updates + 1;
      progress := progress + 1;
      var count := CountEnabled(junk);
      if count == 0 { return []; }
      var pkt := WriteInterest(count, junk);
      sent := [Datagram(trackerPort, pkt[..])];
      CarryOne(build, sent[0], Client.Out(trackerPort, ShowInterest(id, Client.ItemsFor(build, owned, old(downloads), junk))));
    }

    method AllFinished() returns (finished: bool)
      ensures finished <==> Client.AllDone(downloads)
    {
      finished := true;
      for i := 0 to |downloads|
        invariant finished && forall j :: 0 <= j < i ==> downloads[j].done
      {
        if !downloads[i].done {
          assert downloads[i] in downloads;
          return false;
        }
      }
    }

    method CountEnabled(ghost junk: seq<int>) returns (count: nat)
      ensures count == |Client.ItemsFor(build, owned, downloads, junk)|
      ensures count == 0 <==> Client.NoneEnabled(downloads)
    {
      hide Client.ItemsFor;
      NoItems(build, owned, downloads, junk);
      count := 0;
      for i := 0 to |downloads|
        invariant count == |Client.ItemsFor(build, owned, downloads[..i], junk)|
        invariant count == 0 <==> forall j :: 0 <= j < i ==> !downloads[j].enabled
      {
        NextItem(build, owned, downloads, junk, i);
        if downloads[i].enabled { count := count + 1; }
      }
      assert downloads[..|downloads|] == downloads;
      assert forall d :: d in downloads <==> exists j :: 0 <= j < |downloads| && downloads[j] == d;
    }

    /** Serialises the announcements; a file found among the owned ones is marked done on the way. */
    method WriteInterest(count: nat, junk: seq<int>) returns (pkt: array<byte>)
      requires count == |Client.ItemsFor(build, owned, downloads, junk)|
      modifies this`downloads
      ensures downloads == Client.AnnounceAll(owned, old(downloads))
      ensures fresh(pkt) && pkt[..] == Image(ShowInterest(id, Client.ItemsFor(build, owned, old(downloads), junk)))
    {
      hide Client.ItemsFor, Client.AnnounceAll, Items, Short;
      pkt := new byte[8 + 39 * count](_ => 0);
      var at := Append(pkt, 0, Short(8 + 39 * count));
      at := Append(pkt, at, Short(0));
      at := Append(pkt, at, Short(id));
      at := Append(pkt, at, Short(count));
      ghost var head := pkt[..at];
      assert head == Short(8 + 39 * count) + Short(0) + Short(id) + Short(count);
      at := WriteItems(pkt, at, junk);
      assert pkt[..at] == pkt[..];
    }

    method WriteItems(pkt: array<byte>, from: nat, junk: seq<int>) returns (at: nat)
      requires from + 39 * |Client.ItemsFor(build, owned, downloads, junk)| <= pkt.Length
      modifies this`downloads, pkt
      ensures downloads == Client.AnnounceAll(owned, old(downloads))
      ensures at == from + 39 * |Client.ItemsFor(build, owned, old(downloads), junk)|
      ensures pkt[..at] == old(pkt[..from]) + Items(Client.ItemsFor(build, owned, old(downloads), junk))
    {
      hide Client.ItemsFor, Client.AnnounceAll, Client.Announce, Client.OwnedFor, Client.Kind, Items, Pad, Size, Short;
      ghost var before, items := downloads, [];
      NoItems(build, owned, before, junk);
      at := from;
      for i := 0 to |downloads|
        invariant items == Client.ItemsFor(build, owned, before[..i], junk)
        invariant downloads == Client.AnnounceAll(owned, before[..i]) + before[i..]
        invariant at == from + 39 * |items| <= pkt.Length && pkt[..at] == old(pkt[..from]) + Items(items)
      {
        NextItem(build, owned, before, junk, i);
        ItemsFit(build, owned, before, junk, i + 1);
        AnnouncedAlike(owned, before[i]);
        if downloads[i].enabled {
          var item := AnnounceItem(i, if i < |junk| then junk[i] else 0);
          ItemsAppend(items, item);
          at := WriteItem(pkt, at, item);
          items := items + [item];
        }
      }
      assert before[..|before|] == before;
    }

    method AnnounceItem(k: nat, junk: int) returns (item: Item)
      requires k < |downloads|
      requires downloads[k].enabled
      modifies this`downloads
      ensures downloads == old(downloads)[k := Client.Announce(owned, old(downloads)[k])]
      ensures item == Item(downloads[k].name, downloads[k].filesize,
        Client.Kind(build, Client.OwnedFor(owned, downloads[k].name) < |owned|, downloads[k].share, junk))
    {
      hide Client.OwnedFor;
      var d := downloads[k];
      var i := FindOwnedFor(d.name);
      var held := i < |owned|;
      if held {
        downloads := downloads[k := d.(filesize := owned[i].size, done := true)];
      }
      var kind := if build.Shipped? then Int16(junk) else 3;
      if !held && d.share == 0 {
        kind := 0;
      } else if !held && d.share == 1 {
        kind := 1;
      } else if held && d.share == 1 {
        kind := 2;
      }
      item := Item(d.name, downloads[k].filesize, kind);
    }

    /** Asks the neighbours of every download whose size is known for the segments they have. */
    method SendClientInfoRequests() returns (sent: seq<Datagram>)
      ensures CarryAll(build, sent, Client.AskInfo(State(), |downloads|))
    {
      hide CarryAll, Client.AskPeers, Client.Neighbors;
      CarryNone(build);
      ghost var st, outs := State(), [];
      sent := [];
      for k := 0 to |downloads|
        invariant outs == Client.AskInfo(st, k) && CarryAll(build, sent, outs)
      {
        var d := downloads[k];
        assert outs + [] == outs;
        if d.filesize != 0 {
          var more := AskNeighbors(d.name);
          ghost var others := Client.AskPeers(st, d.name, Client.Neighbors(groups, d.name), MAX_CLIENTS);
          CarryMore(build, sent, outs, more, others);
          sent, outs := sent + more, outs + others;
        }
      }
    }

    method AskNeighbors(name: Name) returns (sent: seq<Datagram>)
      ensures CarryAll(build, sent, Client.AskPeers(State(), name, Client.Neighbors(groups, name), MAX_CLIENTS))
    {
      hide CarryAll, Client.Neighbors, Client.SendPort;
      var neighbors := FindNeighbors(name);
      ghost var st, all, outs := State(), Client.Neighbors(groups, name), [];
      CarryNone(build);
      sent := [];
      for j := 0 to MAX_CLIENTS
        invariant outs == Client.AskPeers(st, name, all, j) && CarryAll(build, sent, outs)
        invariant forall l :: 0 <= l < MAX_CLIENTS ==> (neighbors[l] <==> l in all)
      {
        assert outs + [] == outs;
        if neighbors[j] && j != id {
          var pkt := WriteInfoReq(id, name);
          var port := PortFor(j);
          var dg := Datagram(port, pkt[..]);
          ghost var o := Client.Out(port, InfoReq(id, name));
          CarryOne(build, dg, o);
          CarryMore(build, sent, outs, [dg], [o]);
          sent, outs := sent + [dg], outs + [o];
        }
      }
    }

    /** Who shares the file, according to all groups of that name. */
    method FindNeighbors(name: Name) returns (neighbors: array<bool>)
      ensures fresh(neighbors) && neighbors.Length == MAX_CLIENTS
      ensures forall j :: 0 <= j < MAX_CLIENTS ==> (neighbors[j] <==> j in Client.Neighbors(groups, name))
    {
      hide Client.Matches, Client.Neighbors;
      neighbors := new bool[MAX_CLIENTS](_ => false);
      NoNeighbors(groups, name);
      for i := 0 to |groups|
        invariant forall j :: 0 <= j < MAX_CLIENTS ==> (neighbors[j] <==> j in Client.Neighbors(groups[..i], name))
      {
        NextNeighbors(groups, name, i);
        if Client.Matches(name, groups[i].name) {
          for j := 0 to MAX_CLIENTS
            invariant forall l :: 0 <= l < MAX_CLIENTS ==>
              (neighbors[l] <==> l in Client.Neighbors(groups[..i], name) || (l < j && l in groups[i].sharing))
          {
            if j in groups[i].sharing { neighbors[j] := true; }
          }
        }
      }
      assert groups[..|groups|] == groups;
    }

    /** Finishes the downloads that miss nothing, and requests segments for the others. */
    method SendClientSegmentRequests(rands: seq<nat>, tail: Name) returns (sent: seq<Datagram>)
      modifies this
      ensures var (st, outs) := Client.PlanAll(build, old(State()), |old(downloads)|, rands, tail);
        State() == st && CarryAll(build, sent, outs)
    {
      hide CarryAll, Client.Plan, Client.PlanAll;
      ghost var before := State();
      NothingPlanned(build, before, rands, tail);
      CarryNone(build);
      sent := [];
      for k := 0 to |downloads|
        invariant |downloads| == |before.downloads|
        invariant State() == Client.PlanAll(build, before, k, rands, tail).0
        invariant CarryAll(build, sent, Client.PlanAll(build, before, k, rands, tail).1)
      {
        NextPlanned(build, before, k, rands, tail);
        ghost var now := State();
        var more := PlanDownload(k, rands, tail);
        CarryMore(build, sent, Client.PlanAll(build, before, k, rands, tail).1,
                  more, Client.Plan(build, now, k, rands, tail).1);
        sent := sent + more;
      }
    }

    method PlanDownload(k: nat, rands: seq<nat>, tail: Name) returns (sent: seq<Datagram>)
      requires k < |downloads|
      modifies this
      ensures State() == Client.Plan(build, old(State()), k, rands, tail).0
      ensures CarryAll(build, sent, Client.Plan(build, old(State()), k, rands, tail).1)
    {
      hide CarryAll, Client.OwnedFor, Client.Missing, Client.Requests, Client.Finish;
      CarryNone(build);
      sent := [];
      var d := downloads[k];
      if !d.done {
        var i := FindOwnedFor(d.name);
        if i == |owned| && d.numSegs != 0 {
          var count := CountMissing(d.have, d.numSegs);
          if count == 0 {
            FinishDownload(k, tail);
          } else {
            var missing := CollectMissing(d.have, d.numSegs, count);
            sent := RequestSegments(d, missing[..], rands, Client.MAX_REQUESTS * k);
          }
        }
      }
    }

    /** Writes the file out and enters it among the owned files, sharing the download's buffer. */
    method FinishDownload(k: nat, tail: Name)
      requires k < |downloads|
      modifies this
      ensures State() == Client.Finish(build, old(State()), k, tail)
    {
      var d := downloads[k];
      downloads := downloads[k := d.(done := true)];
      disk := disk + [(d.name, d.raw)];
      var n: int := d.numSegs;
      var last: int := if build.Mended? then d.filesize - SEGMENT_SIZE * (n - 1)
                  else Int16(d.filesize - (SEGMENT_SIZE - n));
      var sizes := FillSizes(if build.Mended? then SEGMENT_SIZE else MAX_SEGMENTS, n, last);
      var name := if build.Shipped? then d.name + tail else d.name;
      owned := owned + [Client.FileInfo(name, d.filesize, d.numSegs, sizes, Client.RawOf(k))];
    }

    /** At most eight requests; a draw of a segment that nobody advertised is lost. */
    method RequestSegments(d: Client.Download, missing: seq<nat>, rands: seq<nat>, at: nat) returns (sent: seq<Datagram>)
      requires |missing| > 0
      ensures CarryAll(build, sent, Client.Requests(State(), d, missing, rands, at, Min(Client.MAX_REQUESTS, |missing|)))
    {
      hide CarryAll, Client.SendPort, Client.Drawn;
      CarryNone(build);
      ghost var st, outs := State(), [];
      sent := [];
      var count := Min(Client.MAX_REQUESTS, |missing|);
      var left := count;
      while left > 0
        invariant 0 <= left <= count && outs == Client.Requests(st, d, missing, rands, at, count - left)
        invariant CarryAll(build, sent, outs)
      {
        assert outs + [] == outs;
        var seg := Draw(missing, rands, at + count - left);
        var c := if seg < |d.source| then d.source[seg] else MAX_CLIENTS;
        if c != MAX_CLIENTS {
          var port := PortFor(c);
          var pkt := WriteSegReq(id, d.name, seg);
          var dg := Datagram(port, pkt[..]);
          ghost var o := Client.Out(port, SegReq(id, d.name, seg));
          CarryOne(build, dg, o);
          CarryMore(build, sent, outs, [dg], [o]);
          sent, outs := sent + [dg], outs + [o];
        }
        left := left - 1;
      }
    }

    // ---------- the process ----------

    /** The dispatch on the message type. */
    method Receive(mem: seq<byte>, from: int, junk: seq<byte>) returns (sent: seq<Datagram>)
      requires ReadClient(mem).Some? && status.Running?
      modifies this
      ensures var (st, outs) := Client.Step(build, old(State()), Client.Receive(mem, from, junk));
        SameUnlessCrashed(State(), st) && CarryAll(build, sent, outs)
    {
      KindTells(mem);
      hide ReadClient, Client.OnAssign, Client.OnInfoReq, Client.OnInfoRep, Client.OnSegReq, Client.OnSegRep;
      var kind := ShortAt(mem, 2);
      sent := [];
      if kind == 42 {
        HandleTrackerGroupUpdate(mem);
      } else if kind == 0 {
        sent := HandleClientInfoRequest(mem, from);
      } else if kind == 1 {
        HandleClientInfoReply(mem, from);
      } else if kind == 2 {
        sent := HandleClientSegmentRequest(mem, from, junk);
      } else {
        HandleClientSegmentReply(mem, from);
      }
    }

    method EnableDownload(k: nat)
      requires k < |downloads|
      modifies this`downloads
      ensures downloads == old(downloads)[k := old(downloads)[k].(enabled := true)]
    {
      downloads := downloads[k := downloads[k].(enabled := true)];
    }

    /** Whatever happens to a running client, its process does what the model of the client does,
        and its datagrams carry the model's messages. */
    method Act(input: Client.Input) returns (sent: seq<Datagram>)
      requires status.Running? && (input.Receive? ==> ReadClient(input.mem).Some?)
      modifies this
      ensures var (st, outs) := Client.Step(build, old(State()), input);
        SameUnlessCrashed(State(), st) && CarryAll(build, sent, outs)
    {
      hide ReadClient, CarryAll, Client.OnInterestTick, Client.AskInfo, Client.PlanAll, Client.Handle;
      CarryNone(build);
      sent := [];
      match input
      case Enable(k) =>
        if k < |downloads| { EnableDownload(k); }
      case InterestTick(kinds) => sent := SendInterestToTracker(kinds);
      case InfoTick => sent := SendClientInfoRequests();
      case SegmentTick(rands, tail) => sent := SendClientSegmentRequests(rands, tail);
      case Receive(mem, from, junk) => sent := Receive(mem, from, junk);
    }
  }

  // ---------- about the pieces ----------

  /** A crashed process has nothing left to compare. */
  ghost predicate SameUnlessCrashed(a: Client.State, b: Client.State) {
    a.status == b.status && (!a.status.Crashed? ==> a == b)
  }

  /** for (j < MAX_SEGMENTS) segmentSizes[j] = size; segmentSizes[n - 1] = last */
  method FillSizes(size: int, n: nat, last: int) returns (sizes: seq<int>)
    ensures sizes == if 1 <= n <= MAX_SEGMENTS then Repeat(MAX_SEGMENTS, size)[n - 1 := last] else Repeat(MAX_SEGMENTS, size)
  {
    var a := new int[MAX_SEGMENTS];
    for j := 0 to MAX_SEGMENTS
      invariant forall i :: 0 <= i < j ==> a[i] == size
    {
      a[j] := size;
    }
    assert a[..] == Repeat(MAX_SEGMENTS, size);
    if 1 <= n <= MAX_SEGMENTS { a[n - 1] := last; }
    sizes := a[..];
  }

  method CountMissing(have: seq<bool>, n: nat) returns (count: nat)
    ensures count == |Client.Missing(have, n)|
  {
    count := 0;
    for j := 0 to n
      invariant count == |Client.Missing(have, j)|
    {
      if j < |have| && !have[j] { count := count + 1; }
    }
  }

  /** The compaction loop. */
  method CollectMissing(have: seq<bool>, n: nat, count: nat) returns (missing: array<nat>)
    requires count == |Client.Missing(have, n)|
    ensures fresh(missing) && missing[..] == Client.Missing(have, n)
  {
    missing := new nat[count];
    var found := 0;
    for j := 0 to n
      invariant found == |Client.Missing(have, j)| <= count && missing[..found] == Client.Missing(have, j)
    {
      MissingGrows(have, j + 1, n);
      if j < |have| && !have[j] {
        missing[found] := j;
        found := found + 1;
      }
    }
  }

  lemma {:induction false} MissingGrows(have: seq<bool>, j: nat, n: nat)
    requires j <= n
    ensures |Client.Missing(have, j)| <= |Client.Missing(have, n)|
  {
    if j < n { MissingGrows(have, j, n - 1); }
  }

  method Draw(missing: seq<nat>, rands: seq<nat>, i: nat) returns (seg: nat)
    requires |missing| > 0
    ensures seg == Client.Drawn(missing, rands, i)
  {
    var rand := if i < |rands| then rands[i] else 0;
    seg := missing[rand % |missing|];
  }

  /** One item of GROUP_SHOW_INTEREST. */
  method WriteItem(pkt: array<byte>, from: nat, x: Item) returns (at: nat)
    requires from + 39 <= pkt.Length
    modifies pkt
    ensures at == from + 39 && pkt[..at] == old(pkt[..from]) + (Pad(x.name) + Size(x.size) + Short(x.kind))
  {
    hide Pad, Size, Short;
    at := Append(pkt, from, Pad(x.name));
    at := Append(pkt, at, Size(x.size));
    at := Append(pkt, at, Short(x.kind));
  }

  lemma {:induction false} ItemsAppend(items: seq<Item>, x: Item)
    ensures Items(items + [x]) == Items(items) + (Pad(x.name) + Size(x.size) + Short(x.kind))
  {
    hide Pad, Size, Short;
    if items == [] {
      assert items + [x] == [x];
      assert [x][1..] == [];
    } else {
      assert (items + [x])[1..] == items[1..] + [x];
      ItemsAppend(items[1..], x);
    }
  }

  lemma {:induction false} NoItems(build: Build, owned: seq<Client.FileInfo>, ds: seq<Client.Download>, junk: seq<int>)
    ensures Client.ItemsFor(build, owned, ds[..0], junk) == [] && Items([]) == []
    ensures Client.AnnounceAll(owned, ds[..0]) + ds[0..] == ds
  {
  }

  lemma {:induction false} NextItem(build: Build, owned: seq<Client.FileInfo>, ds: seq<Client.Download>, junk: seq<int>, i: nat)
    requires i < |ds|
    ensures Client.ItemsFor(build, owned, ds[..i + 1], junk) == Client.ItemsFor(build, owned, ds[..i], junk) +
      if !ds[i].enabled then [] else
        [Item(ds[i].name, Client.Announce(owned, ds[i]).filesize,
              Client.Kind(build, Client.OwnedFor(owned, ds[i].name) < |owned|, ds[i].share, if i < |junk| then junk[i] else 0))]
    ensures (Client.AnnounceAll(owned, ds[..i]) + ds[i..])[i] == ds[i]
    ensures Client.AnnounceAll(owned, ds[..i + 1]) + ds[i + 1..] ==
      (Client.AnnounceAll(owned, ds[..i]) + ds[i..])[i := Client.Announce(owned, ds[i])]
  {
    hide Client.OwnedFor, Client.Kind;
    assert ds[..i + 1][..i] == ds[..i];
  }

  lemma {:induction false} ItemsFit(build: Build, owned: seq<Client.FileInfo>, ds: seq<Client.Download>, junk: seq<int>, i: nat)
    requires i <= |ds|
    ensures |Client.ItemsFor(build, owned, ds[..i], junk)| <= |Client.ItemsFor(build, owned, ds, junk)|
    decreases |ds| - i
  {
    hide Client.ItemsFor;
    if i < |ds| {
      NextItem(build, owned, ds, junk, i);
      ItemsFit(build, owned, ds, junk, i + 1);
    } else {
      assert ds[..i] == ds;
    }
  }

  lemma {:induction false} AnnouncedAlike(owned: seq<Client.FileInfo>, d: Client.Download)
    ensures var a := Client.Announce(owned, d); a.name == d.name && a.share == d.share && (!d.enabled ==> a == d)
  {
  }

  lemma {:induction false} NoNeighbors(groups: seq<Client.Group>, name: Name)
    ensures Client.Neighbors(groups[..0], name) == {}
  {
  }

  lemma {:induction false} NextNeighbors(groups: seq<Client.Group>, name: Name, i: nat)
    requires i < |groups|
    ensures Client.Neighbors(groups[..i + 1], name) ==
      Client.Neighbors(groups[..i], name) + if Client.Matches(name, groups[i].name) then groups[i].sharing else {}
  {
    assert groups[..i + 1][..i] == groups[..i];
  }

  lemma {:induction false} NothingPlanned(build: Build, st: Client.State, rands: seq<nat>, tail: Name)
    ensures Client.PlanAll(build, st, 0, rands, tail) == (st, [])
  {
  }

  lemma {:induction false} NextPlanned(build: Build, st: Client.State, k: nat, rands: seq<nat>, tail: Name)
    requires k < |st.downloads|
    ensures var (st1, o1) := Client.PlanAll(build, st, k, rands, tail);
      var (st2, o2) := Client.Plan(build, st1, k, rands, tail);
      Client.PlanAll(build, st, k + 1, rands, tail) == (st2, o1 + o2)
  {
    hide Client.Plan;
  }

  lemma {:induction false} NextGroup(owned: seq<Client.FileInfo>, fi: Client.FileInfo)
    ensures Client.NewGroups(owned + [fi]) == Client.NewGroups(owned) + [Client.Group(fi.name, {}, fi.size)]
  {
    assert (owned + [fi])[..|owned|] == owned;
  }

  lemma {:induction false} SamePort(port: int)
    ensures Int16(port) % 65536 == port % 65536
  {
  }

  lemma {:induction false} ShortsStand(pkt: seq<byte>, at: nat, n: nat)
    requires ReadShorts(pkt, at, n).Some?
    ensures |ReadShorts(pkt, at, n).value| == n && (n > 0 ==> at + 2 * n <= |pkt|)
    ensures forall i :: 0 <= i < n ==> ReadShorts(pkt, at, n).value[i] == ShortAt(pkt, at + 2 * i)
    decreases n
  {
    hide ShortAt;
    if n > 0 {
      ShortsStand(pkt, at + 2, n - 1);
      var rest := ReadShorts(pkt, at + 2, n - 1).value;
      forall i | 0 < i < n
        ensures ReadShorts(pkt, at, n).value[i] == ShortAt(pkt, at + 2 * i)
      {
        assert rest[i - 1] == ShortAt(pkt, at + 2 + 2 * (i - 1));
      }
    }
  }

  lemma {:induction false} InfoRepStands(pkt: seq<byte>)
    requires ReadClient(pkt).Some? && ReadClient(pkt).value.InfoRep?
    ensures var m, n := ReadClient(pkt).value, Max(0, ShortAt(pkt, 39));
      && |pkt| >= 43 + 32768 && m.cid == ShortAt(pkt, 4) && m.name == NameAt(pkt, 6) && |m.segs| == n
      && (n > 0 ==> 41 + 2 * n <= |pkt|)
      && forall i :: 0 <= i < n ==> m.segs[i] == ShortAt(pkt, 41 + 2 * i)
  {
    ShortsStand(pkt, 41, Max(0, ShortAt(pkt, 39)));
  }

  /** Where the fields stand that the messages between clients share. */
  lemma {:induction false} HeaderStands(pkt: seq<byte>)
    requires ReadClient(pkt).Some? && !ReadClient(pkt).value.GroupAssign?
    ensures |pkt| >= 43 + 32768
    ensures var m := ReadClient(pkt).value;
      && !m.ShowInterest? && m.cid == ShortAt(pkt, 4) && m.name == NameAt(pkt, 6)
      && (m.SegReq? || m.SegRep? ==> m.seg == ShortAt(pkt, 39))
      && (m.SegRep? ==> m.size == ShortAt(pkt, 41) && m.data == pkt[43..43 + Max(0, m.size)])
  {
  }

  lemma {:induction false} NoneApplied(ds: seq<Client.Download>, name: Name, seg: nat, data: seq<byte>)
    requires seg < MAX_SEGMENTS
    ensures Client.ApplyToAll(ds[..0], name, seg, data) + ds[0..] == ds
  {
  }

  lemma {:induction false} NextApplied(ds: seq<Client.Download>, name: Name, seg: nat, data: seq<byte>, i: nat)
    requires seg < MAX_SEGMENTS && i < |ds|
    ensures var now := Client.ApplyToAll(ds[..i], name, seg, data) + ds[i..];
      && now[i] == ds[i]
      && Client.ApplyToAll(ds[..i + 1], name, seg, data) + ds[i + 1..] ==
           if Client.Matches(ds[i].name, name) then now[i := Client.ApplyReply(ds[i], seg, data)] else now
  {
    hide Client.ApplyReply, Client.Matches;
    assert ds[..i + 1][..i] == ds[..i];
  }

  lemma {:induction false} NoSource(source: seq<int>, segs: seq<int>, cid: int)
    ensures Client.SetSource(source, segs[..0], cid) == source
  {
  }

  lemma {:induction false} NextSource(source: seq<int>, segs: seq<int>, cid: int, i: nat)
    requires i < |segs|
    ensures var r, s := Client.SetSource(source, segs[..i], cid), segs[i];
      Client.SetSource(source, segs[..i + 1], cid) == if 0 <= s < |r| then r[s := cid] else r
  {
    assert segs[..i + 1][..i] == segs[..i];
  }

  lemma {:induction false} NoneAssigned(st: Client.State)
    ensures Client.OnAssign(st, []) == st
  {
  }

  lemma {:induction false} NextAssigned(st: Client.State, done: seq<FileEntry>, f: FileEntry)
    ensures Client.OnAssign(st, done + [f]) == Client.OnEntry(Client.OnAssign(st, done), f)
  {
    hide Client.OnEntry;
    assert (done + [f])[..|done|] == done;
  }

  lemma {:induction false} AssignStands(pkt: seq<byte>)
    requires ReadClient(pkt).Some? && ReadClient(pkt).value.GroupAssign?
    ensures |pkt| >= 43 + 32768
    ensures ReadEntries(pkt, 6, Max(0, ShortAt(pkt, 4))) == Some(ReadClient(pkt).value.files)
    ensures |ReadClient(pkt).value.files| == Max(0, ShortAt(pkt, 4))
  {
    EntriesCount(pkt, 6, Max(0, ShortAt(pkt, 4)));
  }

  lemma {:induction false} EntriesCount(pkt: seq<byte>, at: nat, n: nat)
    requires ReadEntries(pkt, at, n).Some?
    ensures |ReadEntries(pkt, at, n).value| == n
    decreases n
  {
    hide ReadEntry;
    if n > 0 { EntriesCount(pkt, at + 39 + 20 * |ReadEntry(pkt, at).value.peers|, n - 1); }
  }

  lemma {:induction false} EntriesStand(pkt: seq<byte>, at: nat, files: seq<FileEntry>)
    requires files != [] && ReadEntries(pkt, at, |files|) == Some(files)
    ensures ReadEntry(pkt, at) == Some(files[0])
    ensures ReadEntries(pkt, at + 39 + 20 * |files[0].peers|, |files| - 1) == Some(files[1..])
  {
    hide ReadEntry;
  }

  lemma {:induction false} PeersStand(pkt: seq<byte>, at: nat, n: nat, peers: seq<Peer>)
    requires n > 0 && ReadPeers(pkt, at, n) == Some(peers)
    ensures at + 20 <= |pkt| && peers != [] && peers[0] == Peer(ShortAt(pkt, at), UShortAt(pkt, at + 18))
    ensures ReadPeers(pkt, at + 20, n - 1) == Some(peers[1..])
  {
  }

  lemma {:induction false} NoIds()
    ensures Client.Ids([]) == {}
  {
  }

  lemma {:induction false} NextId(peers: seq<Peer>, i: nat)
    requires i < |peers|
    ensures Client.Ids(peers[..i + 1]) == Client.Ids(peers[..i]) + {peers[i].id}
  {
    assert peers[..i + 1] == peers[..i] + [peers[i]];
  }

  lemma {:induction false} KindTells(mem: seq<byte>)
    requires ReadClient(mem).Some?
    ensures |mem| >= 4
    ensures var kind, m := ShortAt(mem, 2), ReadClient(mem).value;
      match m
      case GroupAssign(_) => kind == 42
      case InfoReq(_, _) => kind == 0
      case InfoRep(_, _, _) => kind == 1
      case SegReq(_, _, _) => kind == 2
      case SegRep(_, _, _, _, _) => kind == 3
      case ShowInterest(_, _) => false
  {
  }
}
