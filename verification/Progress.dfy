/** Downloads only ever advance, and a complete one is finished at the next planning tick. */
module Progress {
  import opened Basics
  import opened Wire
  import opened Segments
  import opened Swarm
  import opened Invariant
  import opened Tables
  import opened Handlers
  import opened Planning
  import opened Reachable
  import Ticks
  import Replies
  import Safety
  import Operations
  import Client

  /** Nothing held, finished, owned, written, listed or on file in st is lost in st'. */
  ghost predicate Advances(st: Client.State, st': Client.State) {
    && |st.downloads| == |st'.downloads|
    && (forall k :: 0 <= k < |st.downloads| ==> DownloadAdvances(st.downloads[k], st'.downloads[k]))
    && st.owned <= st'.owned
    && st.disk <= st'.disk
    && st.addrs <= st'.addrs
    && |st.groups| <= |st'.groups|
    && (forall i :: 0 <= i < |st.groups| ==> GroupAdvances(st.groups[i], st'.groups[i]))
  }

  /** Nobody listed as sharing is dropped, and a known size stays. */
  ghost predicate GroupAdvances(g: Client.Group, g': Client.Group) {
    g.name == g'.name && g.sharing <= g'.sharing && (g.filesize != 0 ==> g'.filesize == g.filesize)
  }

  ghost predicate DownloadAdvances(d: Client.Download, d': Client.Download) {
    && d.name == d'.name
    && (d.done ==> d'.done)
    && (d.numSegs != 0 ==> d'.numSegs == d.numSegs && KeepsBits(d.have, d'.have))
  }

  ghost predicate KeepsBits(have: seq<bool>, have': seq<bool>) {
    |have'| == |have| && forall s :: 0 <= s < |have| && have[s] ==> have'[s]
  }

  lemma {:induction false} AdvancesTransitive(a: Client.State, b: Client.State, c: Client.State)
    requires Advances(a, b) && Advances(b, c)
    ensures Advances(a, c)
  {
    forall k | 0 <= k < |a.downloads|
      ensures DownloadAdvances(a.downloads[k], c.downloads[k])
    {
      assert DownloadAdvances(a.downloads[k], b.downloads[k]) && DownloadAdvances(b.downloads[k], c.downloads[k]);
    }
  }

  // ---------- counting what is missing ----------

  /** Set bits only reduce the number of missing segments; a new one reduces it strictly. */
  lemma {:induction false} MissingShrinks(have: seq<bool>, have': seq<bool>, n: nat)
    requires n <= |have| == |have'| && forall s :: 0 <= s < |have| && have[s] ==> have'[s]
    ensures |Client.Missing(have', n)| <= |Client.Missing(have, n)|
    ensures (exists s :: 0 <= s < n && !have[s] && have'[s]) ==> |Client.Missing(have', n)| < |Client.Missing(have, n)|
  {
    if n > 0 { MissingShrinks(have, have', n - 1); }
  }

  // ---------- one step ----------

  lemma {:induction false} EntryAdvances(cfg: Config, c: nat, st: Client.State, f: FileEntry)
    requires ConfigOk(cfg) && c < MAX_CLIENTS && LocalOk(cfg, c, st) && EntryOk(cfg, f) && f.size < 65536
    ensures Advances(st, Client.OnEntry(st, f))
  {
    hide PrefixFree, Filled, Origin, PeerOk, Client.LearnPeers, Client.LearnGroup, OwnedOk, DoneOk, DiskOk, GroupsOk, NamesOk, AddrsOk;
    var k := Client.DownloadFor(st.downloads, f.name);
    if k < |st.downloads| {
      assert DownloadOk(cfg, c, st.downloads[k]);
      MatchesIsEquality(cfg, st.downloads[k].name, f.name);
    }
    PeersStay(st.addrs, f.peers);
    GroupsStay(st.groups, f);
  }

  lemma {:induction false} PeersStay(addrs: seq<Peer>, peers: seq<Peer>)
    ensures addrs <= Client.LearnPeers(addrs, peers)
    decreases peers
  {
    if peers != [] { PeersStay(addrs, peers[..|peers| - 1]); }
  }

  lemma {:induction false} GroupsStay(groups: seq<Client.Group>, f: FileEntry)
    ensures var groups' := Client.LearnGroup(groups, f);
      |groups| <= |groups'| && forall i :: 0 <= i < |groups| ==> GroupAdvances(groups[i], groups'[i])
  {
  }

  lemma {:induction false} AssignAdvances(cfg: Config, clients: seq<Client.State>, c: nat, files: seq<FileEntry>)
    requires Before(cfg, clients, c) && forall f <- files :: EntryOk(cfg, f) && f.size < 65536
    ensures Advances(clients[c], Client.OnAssign(clients[c], files))
    decreases files
  {
    if files != [] {
      var front, last := files[..|files| - 1], files[|files| - 1];
      assert last in files;
      AssignAdvances(cfg, clients, c, front);
      Ticks.OnAssignOk(cfg, clients, c, front);
      EntryAdvances(cfg, c, Client.OnAssign(clients[c], front), last);
      AdvancesTransitive(clients[c], Client.OnAssign(clients[c], front), Client.OnAssign(clients[c], files));
    }
  }

  lemma {:induction false} SegRepAdvances(st: Client.State, m: Msg, from: int)
    requires m.SegRep?
    ensures Advances(st, Client.OnSegRep(st, m.cid, m.name, m.seg, m.size, m.data, from))
  {
    hide FirstIndex, Client.CopyIn, Zeros, Client.DownloadFor;
  }

  lemma {:induction false} HandleAdvances(st: Client.State, m: Msg, from: int, junk: seq<byte>)
    requires !m.GroupAssign?
    ensures Advances(st, Client.Handle(st, m, from, junk).0)
  {
    hide Advances, Client.OnSegRep, Client.OnSegReq, Client.OnInfoReq, Client.OnInfoRep;
    match m
    case SegRep(_, _, _, _, _) => SegRepAdvances(st, m, from);
    case SegReq(cid, name, seg) => RequestAdvances(st, cid, name, seg, from, junk);
    case InfoReq(cid, name) => RequestAdvances(st, cid, name, 0, from, junk);
    case InfoRep(cid, name, segs) => InfoRepAdvances(st, cid, name, segs, from);
    case ShowInterest(_, _) => HandledAdvances(st, m, from, junk);
  }

  lemma {:induction false} RequestAdvances(st: Client.State, cid: int, name: Name, seg: int, from: int, junk: seq<byte>)
    ensures Advances(st, Client.OnSegReq(st, cid, name, seg, from, junk).0)
    ensures Advances(st, Client.OnInfoReq(st, cid, name, from).0)
  {
    hide Client.CopyOut, Client.OwnedAs, Client.DownloadFor;
  }

  lemma {:induction false} InfoRepAdvances(st: Client.State, cid: int, name: Name, segs: seq<int>, from: int)
    ensures Advances(st, Client.OnInfoRep(st, cid, name, segs, from))
  {
    hide Client.SetSource;
  }

  lemma {:induction false} PlanAdvances(build: Build, st: Client.State, k: nat, rands: seq<nat>, tail: Name)
    requires k < |st.downloads|
    ensures var st' := Client.Plan(build, st, k, rands, tail).0;
      Advances(st, st') && forall j :: 0 <= j < |st.downloads| && j != k ==> st'.downloads[j] == st.downloads[j]
  {
    var st' := Client.Plan(build, st, k, rands, tail).0;
    assert st' == st || st' == Client.Finish(build, st, k, tail);
    assert Advances(st, Client.Finish(build, st, k, tail));
  }

  lemma {:induction false} PlanAllAdvances(build: Build, st: Client.State, n: nat, rands: seq<nat>, tail: Name)
    requires n <= |st.downloads|
    ensures var st' := Client.PlanAll(build, st, n, rands, tail).0;
      Advances(st, st') && forall k :: n <= k < |st.downloads| ==> st'.downloads[k] == st.downloads[k]
  {
    hide Client.Plan;
    if n > 0 {
      PlanAllAdvances(build, st, n - 1, rands, tail);
      var st1 := Client.PlanAll(build, st, n - 1, rands, tail).0;
      PlanAdvances(build, st1, n - 1, rands, tail);
      AdvancesTransitive(st, st1, Client.Plan(build, st1, n - 1, rands, tail).0);
    }
  }

  lemma {:induction false} TickAdvances(build: Build, st: Client.State, input: Client.Input)
    requires !input.Receive?
    ensures Advances(st, Client.Step(build, st, input).0)
  {
    if input.SegmentTick? { PlanAllAdvances(build, st, |st.downloads|, input.rands, input.tail); }
  }

  lemma {:induction false} DeliveryAdvances(cfg: Config, w: World, c: nat, p: Packet, mem: seq<byte>, junk: seq<byte>)
    requires ConfigOk(cfg) && Inv(cfg, w) && c < MAX_CLIENTS && p.to == cfg.ports[c] && Arrives(cfg, w, p, mem)
    ensures Advances(w.clients[c], Client.Step(cfg.build, w.clients[c], Client.Receive(mem, p.from, junk)).0)
  {
    hide Client.Handle, Client.Step, ReadClient, Sent, LocalOk, RoutesOk, TrackerOk, PrefixFree, PacketOk;
    assert PacketOk(cfg, w.clients, p);
    if p.msg.GroupAssign? {
      AssignmentAdvances(cfg, w.clients, c, p, mem);
    } else {
      NotAnAssignment(cfg, w.clients, c, p, mem);
      HandleAdvances(w.clients[c], ReadClient(mem).value, p.from, junk);
    }
    var m := ReadClient(mem).value;
    HandledAdvances(w.clients[c], m, p.from, junk);
    ReceiveHandles(cfg.build, w.clients[c], mem, p.from, junk, m);
  }

  lemma {:induction false} HandledAdvances(st: Client.State, m: Msg, from: int, junk: seq<byte>)
    ensures m.GroupAssign? ==> Client.Handle(st, m, from, junk).0 == Client.OnAssign(st, m.files)
    ensures Advances(st, st)
  {
    hide Client.OnAssign;
  }

  lemma {:induction false} AssignmentAdvances(cfg: Config, clients: seq<Client.State>, c: nat, p: Packet, mem: seq<byte>)
    requires Before(cfg, clients, c) && p.msg.GroupAssign? && PacketOk(cfg, clients, p)
    requires Sent(cfg.build, p.msg) <= mem && |mem| >= 43 + 32768
    ensures ReadClient(mem).Some? && ReadClient(mem).value.GroupAssign?
    ensures Advances(clients[c], Client.OnAssign(clients[c], ReadClient(mem).value.files))
  {
    hide ReadClient, LocalOk, RoutesOk, PrefixFree, Image, EntryOk, Client.OnAssign, Advances;
    AssignFits(cfg, p.msg.files);
    AssignRoundTrip(p.msg.files, mem);
    AssignAdvances(cfg, clients, c, LowFiles(p.msg.files));
  }

  lemma {:induction false} NotAnAssignment(cfg: Config, clients: seq<Client.State>, c: nat, p: Packet, mem: seq<byte>)
    requires ConfigOk(cfg) && c < MAX_CLIENTS && PacketOk(cfg, clients, p) && p.to == cfg.ports[c] && !p.msg.GroupAssign?
    requires Sent(cfg.build, p.msg) <= mem && |mem| >= 43 + 32768
    ensures ReadClient(mem).Some? && !ReadClient(mem).value.GroupAssign?
  {
    if p.msg.SegRep? {
      Replies.ReplyArrives(cfg, clients, p, mem);
    } else {
      Safety.PacketFits(cfg, clients, c, p);
      ClientRoundTrip(p.msg, mem);
    }
  }

  lemma {:induction false} NextAdvances(cfg: Config, w: World, s: Step, c: nat)
    requires ConfigOk(cfg) && Inv(cfg, w) && c < MAX_CLIENTS
    ensures Advances(w.clients[c], Next(cfg, w, s).clients[c])
  {
    hide LocalOk, RoutesOk, TrackerOk, PacketOk, PrefixFree, Client.Step, Arrives;
    match s
    case Local(i, input) =>
      if i == c && !input.Receive? { TickAdvances(cfg.build, w.clients[c], input); }
    case Deliver(i, p, mem, junk) =>
      if i == c && p.to == cfg.ports[c] && Arrives(cfg, w, p, mem) { DeliveryAdvances(cfg, w, c, p, mem, junk); }
    case ToTracker(p, mem) =>
    case TrackerQuits =>
  }

  /** Along every run no segment, finished download, owned or written file, listed sharer or address
      is ever lost. */
  lemma {:induction false} NothingIsLost(cfg: Config, w: World, steps: seq<Step>, c: nat)
    requires ConfigOk(cfg) && Reached(cfg, w) && c < MAX_CLIENTS
    ensures Advances(w.clients[c], Run(cfg, w, steps).clients[c])
    ensures Reached(cfg, Run(cfg, w, steps))
    decreases steps
  {
    if steps != [] {
      var mid := Run(cfg, w, steps[..|steps| - 1]);
      NothingIsLost(cfg, w, steps[..|steps| - 1], c);
      ReachedOk(cfg, mid);
      ReachedStep(cfg, mid, steps[|steps| - 1]);
      NextAdvances(cfg, mid, steps[|steps| - 1], c);
      AdvancesTransitive(w.clients[c], mid.clients[c], Run(cfg, w, steps).clients[c]);
    }
  }

  // ---------- what a message adds ----------

  lemma {:induction false} LowFilesName(files: seq<FileEntry>)
    ensures forall n, j :: Operations.Named(LowFiles(files), n, j) <==> Operations.Named(files, n, j)
  {
    var low := LowFiles(files);
    assert forall x :: 0 <= x < |files| ==> low[x].name == files[x].name && low[x].peers == files[x].peers;
  }

  lemma {:induction false} AssignmentNames(cfg: Config, clients: seq<Client.State>, c: nat, p: Packet, mem: seq<byte>)
    requires Before(cfg, clients, c) && p.msg.GroupAssign? && PacketOk(cfg, clients, p)
    requires Sent(cfg.build, p.msg) <= mem && |mem| >= 43 + 32768
    ensures ReadClient(mem) == Some(GroupAssign(LowFiles(p.msg.files)))
    ensures Operations.ApartIn(cfg.source.Keys, clients[c].groups)
    ensures forall x :: 0 <= x < |p.msg.files| ==> LowFiles(p.msg.files)[x].name in cfg.source.Keys
  {
    hide ReadClient, RoutesOk, Image, DownloadsOk, AddrsOk, GroupsOk, OwnedOk, DoneOk, DiskOk;
    AssignFits(cfg, p.msg.files);
    AssignRoundTrip(p.msg.files, mem);
    forall x | 0 <= x < |p.msg.files|
      ensures LowFiles(p.msg.files)[x].name in cfg.source.Keys
    {
      assert EntryOk(cfg, p.msg.files[x]);
    }
    forall a, b | a in cfg.source.Keys && b in cfg.source.Keys && a <= b
      ensures a == b
    {
      assert Client.Matches(a, b);
    }
  }

  /** When a GROUP_ASSIGN reaches a client, the clients it lists as sharing a file are from then on
      those it listed before and all those the message names for the file, and no others. */
  lemma {:induction false} AssignmentListsExactly(cfg: Config, w: World, c: nat, p: Packet, mem: seq<byte>, junk: seq<byte>, n: Name, j: int)
    requires ConfigOk(cfg) && Reached(cfg, w) && c < MAX_CLIENTS && w.clients[c].status.Running?
    requires p.msg.GroupAssign? && p.to == cfg.ports[c] && Arrives(cfg, w, p, mem)
    ensures var groups, groups' := w.clients[c].groups, Next(cfg, w, Deliver(c, p, mem, junk)).clients[c].groups;
      (exists i :: 0 <= i < |groups'| && groups'[i].name == n && j in groups'[i].sharing) <==>
      (exists i :: 0 <= i < |groups| && groups[i].name == n && j in groups[i].sharing)
      || exists f :: f in p.msg.files && f.name == n && exists q :: q in f.peers && q.id == j
  {
    hide Reached, Client.Step, Client.Handle, ReadClient, Sent, LocalOk, RoutesOk, TrackerOk, PacketOk, PrefixFree, Operations.ApartIn;
    ReachedOk(cfg, w);
    var st, files := w.clients[c], LowFiles(p.msg.files);
    AssignmentNames(cfg, w.clients, c, p, mem);
    Operations.AssignmentLists(st, files, cfg.source.Keys, p.from, junk);
    ReceiveHandles(cfg.build, st, mem, p.from, junk, GroupAssign(files));
    LowFilesName(p.msg.files);
    NamedBySome(p.msg.files, n, j);
  }

  lemma {:induction false} NamedBySome(files: seq<FileEntry>, n: Name, j: int)
    ensures Operations.Named(files, n, j) <==> exists f :: f in files && f.name == n && exists q :: q in f.peers && q.id == j
  {
    if f :| f in files && f.name == n && exists q :: q in f.peers && q.id == j {
      var q :| q in f.peers && q.id == j;
      var i :| 0 <= i < |f.peers| && f.peers[i] == q;
      assert Operations.HasId(f.peers, j);
    }
    if Operations.Named(files, n, j) {
      var x :| 0 <= x < |files| && files[x].name == n && Operations.HasId(files[x].peers, j);
      var i :| 0 <= i < |files[x].peers| && files[x].peers[i].id == j;
      assert files[x] in files && files[x].peers[i] in files[x].peers;
    }
  }

  /** A client that asks for a file's segments, or for one of them, is on file with its own port at
      whoever it asks. */
  lemma {:induction false} SenderIsOnFile(cfg: Config, w: World, c: nat, p: Packet, mem: seq<byte>, junk: seq<byte>)
    requires ConfigOk(cfg) && Reached(cfg, w) && c < MAX_CLIENTS && w.clients[c].status.Running?
    requires (p.msg.InfoReq? || p.msg.SegReq?) && p.to == cfg.ports[c] && Arrives(cfg, w, p, mem)
    ensures Peer(p.msg.cid, p.from) in Next(cfg, w, Deliver(c, p, mem, junk)).clients[c].addrs
    ensures 0 <= p.msg.cid < 25 && p.from == cfg.ports[p.msg.cid]
  {
    hide Reached, Client.Step, ReadClient, Sent, LocalOk, RoutesOk, TrackerOk, PrefixFree, PacketOk, Client.OwnedAs, Client.LearnSender,
      Client.DownloadFor, Client.CopyOut, AddrsOk;
    ReachedOk(cfg, w);
    var st, m := w.clients[c], p.msg;
    RequestReads(cfg, w.clients, c, p, mem);
    LearnSenderOk(cfg, st.addrs, m.cid);
    KnownWithPort(cfg, Client.LearnSender(st.addrs, m.cid, p.from), m.cid);
    ReceiveHandles(cfg.build, st, mem, p.from, junk, m);
  }

  lemma {:induction false} KnownWithPort(cfg: Config, addrs: seq<Peer>, id: int)
    requires ConfigOk(cfg) && AddrsOk(cfg, addrs) && 0 <= id < MAX_CLIENTS && Knows(addrs, id)
    ensures Peer(id, cfg.ports[id]) in addrs
  {
    assert addrs[Client.IndexOfId(addrs, id)] == Peer(id, cfg.ports[id]);
  }

  lemma {:induction false} RequestReads(cfg: Config, clients: seq<Client.State>, c: nat, p: Packet, mem: seq<byte>)
    requires Before(cfg, clients, c) && PacketOk(cfg, clients, p) && p.to == cfg.ports[c] && (p.msg.InfoReq? || p.msg.SegReq?)
    requires Sent(cfg.build, p.msg) <= mem && |mem| >= 43 + 32768
    ensures ReadClient(mem) == Some(p.msg) && FromClient(cfg, p, p.msg.cid) && AddrsOk(cfg, clients[c].addrs)
  {
    hide ReadClient, Image, RoutesOk, PrefixFree;
    Safety.PacketFits(cfg, clients, c, p);
    ClientRoundTrip(p.msg, mem);
  }

  // ---------- completion ----------

  /** Applying a reply for a missing segment leaves strictly less to fetch. */
  lemma {:induction false} FreshReplyHelps(cfg: Config, c: nat, st: Client.State, k: nat, cid: int, seg: nat, data: seq<byte>, from: int)
    requires ConfigOk(cfg) && c < MAX_CLIENTS && LocalOk(cfg, c, st) && k < |st.downloads|
    requires var d := st.downloads[k]; d.numSegs <= MAX_SEGMENTS && seg < d.numSegs && !d.have[seg]
    ensures var d := st.downloads[k];
      var d' := Client.OnSegRep(st, cid, d.name, seg, |data|, data, from).downloads[k];
      |Client.Missing(d'.have, d.numSegs)| < |Client.Missing(d.have, d.numSegs)|
  {
    var d := st.downloads[k];
    assert DownloadOk(cfg, c, d);
    MissingShrinks(d.have, d.have[seg := true], d.numSegs);
  }

  ghost predicate Complete(d: Client.Download) {
    !d.done && d.numSegs != 0 && Client.Missing(d.have, d.numSegs) == []
  }

  /** Between st and st' download k was finished: marked done, written out as it was, and
      entered among the owned files. */
  ghost predicate FinishedSince(st: Client.State, st': Client.State, k: nat)
    requires k < |st.downloads|
  {
    && k < |st'.downloads| && st'.downloads[k].done
    && (exists i :: |st.owned| <= i < |st'.owned| && st'.owned[i].fp == Client.RawOf(k))
    && (exists i :: |st.disk| <= i < |st'.disk| && st'.disk[i] == (st.downloads[k].name, st.downloads[k].raw))
  }

  lemma {:induction false} FinishedSinceGrows(st: Client.State, st1: Client.State, st2: Client.State, k: nat)
    requires k < |st.downloads| && FinishedSince(st, st1, k) && Advances(st1, st2)
    ensures FinishedSince(st, st2, k)
  {
    var i :| |st.owned| <= i < |st1.owned| && st1.owned[i].fp == Client.RawOf(k);
    assert st2.owned[i] == st1.owned[i];
    var j :| |st.disk| <= j < |st1.disk| && st1.disk[j] == (st.downloads[k].name, st.downloads[k].raw);
    assert st2.disk[j] == st1.disk[j];
    assert DownloadAdvances(st1.downloads[k], st2.downloads[k]);
  }

  /** As long as the first download of a file is not done, nothing has brought the file into the
      owned table. */
  lemma {:induction false} UndoneIsNotOwned(cfg: Config, c: nat, st: Client.State, k: nat)
    requires ConfigOk(cfg) && c < MAX_CLIENTS && LocalOk(cfg, c, st) && k < |st.downloads| && !st.downloads[k].done
    requires forall j :: 0 <= j < k ==> st.downloads[j].name != st.downloads[k].name
    ensures Client.OwnedFor(st.owned, st.downloads[k].name) == |st.owned|
  {
    hide Filled, PrefixFree, Origin;
    var n, i := st.downloads[k].name, Client.OwnedFor(st.owned, st.downloads[k].name);
    assert DownloadOk(cfg, c, st.downloads[k]);
    if i < |st.owned| {
      OwnedForFinds(cfg, c, st.downloads, st.owned, n);
      assert false;
    }
  }

  lemma {:induction false} NotOwnedYet(cfg: Config, c: nat, st: Client.State, k: nat)
    requires ConfigOk(cfg) && c < MAX_CLIENTS && LocalOk(cfg, c, st) && k < |st.downloads| && Complete(st.downloads[k])
    ensures Client.OwnedFor(st.owned, st.downloads[k].name) == |st.owned|
  {
    hide Filled, PrefixFree, Origin, Client.OwnedFor;
    assert DownloadOk(cfg, c, st.downloads[k]);
    assert FirstOfName(cfg, c, st.downloads);
    UndoneIsNotOwned(cfg, c, st, k);
  }

  lemma {:induction false} TurnFinishes(build: Build, st: Client.State, k: nat, rands: seq<nat>, tail: Name)
    requires k < |st.downloads| && Complete(st.downloads[k])
    requires Client.OwnedFor(st.owned, st.downloads[k].name) == |st.owned|
    ensures FinishedSince(st, Client.Plan(build, st, k, rands, tail).0, k)
  {
    var st' := Client.Finish(build, st, k, tail);
    assert st'.owned[|st.owned|].fp == Client.RawOf(k);
    assert st'.disk[|st.disk|] == (st.downloads[k].name, st.downloads[k].raw);
  }

  lemma {:induction false} PlanAllFinishes(cfg: Config, clients: seq<Client.State>, c: nat, k: nat, n: nat, rands: seq<nat>, tail: Name)
    requires Before(cfg, clients, c) && k < n <= |clients[c].downloads| && Complete(clients[c].downloads[k])
    ensures FinishedSince(clients[c], Client.PlanAll(cfg.build, clients[c], n, rands, tail).0, k)
    decreases n
  {
    hide Client.Plan, Complete, FinishedSince, LocalOk, RoutesOk, OutsOk;
    var st := clients[c];
    var r := Client.PlanAll(cfg.build, st, n - 1, rands, tail);
    PlanAllAdvances(cfg.build, st, n - 1, rands, tail);
    PlanAdvances(cfg.build, r.0, n - 1, rands, tail);
    if k < n - 1 {
      PlanAllFinishes(cfg, clients, c, k, n - 1, rands, tail);
      FinishedSinceGrows(st, r.0, Client.Plan(cfg.build, r.0, n - 1, rands, tail).0, k);
    } else {
      PlanAllOk(cfg, clients, c, k, rands, tail);
      NotOwnedYet(cfg, c, r.0, k);
      TurnFinishes(cfg.build, r.0, k, rands, tail);
      FinishedFromStart(st, r.0, Client.Plan(cfg.build, r.0, k, rands, tail).0, k);
    }
  }

  lemma {:induction false} FinishedFromStart(st: Client.State, st1: Client.State, st2: Client.State, k: nat)
    requires k < |st.downloads| && Advances(st, st1) && st1.downloads[k] == st.downloads[k] && FinishedSince(st1, st2, k)
    ensures FinishedSince(st, st2, k)
  {
    var i :| |st1.owned| <= i < |st2.owned| && st2.owned[i].fp == Client.RawOf(k);
    assert |st.owned| <= i;
    var j :| |st1.disk| <= j < |st2.disk| && st2.disk[j] == (st1.downloads[k].name, st1.downloads[k].raw);
    assert |st.disk| <= j;
  }

  /** The next planning tick marks a complete download done, writes it out and enters its file
      among the owned ones. That it does so only once is Safety.OwnedOnce and WrittenOnce. */
  lemma {:induction false} CompleteIsFinished(cfg: Config, w: World, c: nat, k: nat, rands: seq<nat>, tail: Name)
    requires ConfigOk(cfg) && Reached(cfg, w) && c < MAX_CLIENTS && w.clients[c].status.Running?
    requires k < |w.clients[c].downloads| && Complete(w.clients[c].downloads[k])
    ensures FinishedSince(w.clients[c], Next(cfg, w, Local(c, Client.SegmentTick(rands, tail))).clients[c], k)
  {
    hide Reached, Client.PlanAll, Complete, FinishedSince;
    ReachedOk(cfg, w);
    PlanAllFinishes(cfg, w.clients, c, k, |w.clients[c].downloads|, rands, tail);
  }
}
