/** Every world a run can reach satisfies the invariant. */
module Reachable {
  import opened Basics
  import opened Wire
  import opened Segments
  import opened Swarm
  import opened Invariant
  import opened Tables
  import opened Handlers
  import opened Replies
  import opened Ticks
  import opened Planning
  import Client
  import Tracker

  // ---------- the tracker ----------

  lemma {:induction false} TrackedGrows(cfg: Config, addrs: seq<Peer>, more: seq<Peer>, g: Tracker.Group)
    requires TrackedOk(cfg, addrs, g) && addrs <= more
    ensures TrackedOk(cfg, more, g)
  {
    KnowsGrows(addrs, more);
  }

  lemma {:induction false} MarkOk(cfg: Config, addrs: seq<Peer>, g: Tracker.Group, cid: int, x: Item)
    requires ConfigOk(cfg) && TrackedOk(cfg, addrs, g) && g.name == x.name
    requires ItemOk(cfg, cid, x) && x.size < 65536 && Knows(addrs, cid)
    ensures TrackedOk(cfg, addrs, Tracker.Mark(g, cid, x))
  {
  }

  lemma {:induction false} NoteItemsOk(cfg: Config, addrs: seq<Peer>, groups: seq<Tracker.Group>, cid: int, items: seq<Item>)
    requires ConfigOk(cfg) && Knows(addrs, cid) && Tracker.Distinct(groups) && forall g <- groups :: TrackedOk(cfg, addrs, g)
    requires forall x <- items :: ItemOk(cfg, cid, x) && x.size < 65536
    ensures Tracker.Distinct(Tracker.NoteItems(groups, cid, items))
    ensures forall g <- Tracker.NoteItems(groups, cid, items) :: TrackedOk(cfg, addrs, g)
    ensures forall x <- items :: Tracker.GroupFor(Tracker.NoteItems(groups, cid, items), x.name) < |Tracker.NoteItems(groups, cid, items)|
    decreases items
  {
    if items != [] {
      var front, x := items[..|items| - 1], items[|items| - 1];
      assert x in items;
      NoteItemsOk(cfg, addrs, groups, cid, front);
      NoteOneOk(cfg, addrs, Tracker.NoteItems(groups, cid, front), cid, x);
      forall y | y in items
        ensures Tracker.GroupFor(Tracker.NoteItems(groups, cid, items), y.name) < |Tracker.NoteItems(groups, cid, items)|
      {
        assert y in front || y == x;
      }
    }
  }

  lemma {:induction false} NoteOneOk(cfg: Config, addrs: seq<Peer>, groups: seq<Tracker.Group>, cid: int, x: Item)
    requires ConfigOk(cfg) && Knows(addrs, cid) && Tracker.Distinct(groups) && forall g <- groups :: TrackedOk(cfg, addrs, g)
    requires ItemOk(cfg, cid, x) && x.size < 65536
    ensures var r := Tracker.NoteItem(groups, cid, x);
      && Tracker.Distinct(r)
      && (forall g <- r :: TrackedOk(cfg, addrs, g))
      && Tracker.GroupFor(r, x.name) < |r|
      && (forall n :: Tracker.GroupFor(groups, n) < |groups| ==> Tracker.GroupFor(r, n) < |r|)
  {
    var r := Tracker.NoteItem(groups, cid, x);
    Tracker.NoteItemNames(groups, cid, x);
    var i := Tracker.GroupFor(groups, x.name);
    var g := if i < |groups| then groups[i] else Tracker.Group(x.name, {}, {}, 0);
    MarkOk(cfg, addrs, g, cid, x);
    Tracker.NamedGroupFound(r, i, x.name);
    forall n | Tracker.GroupFor(groups, n) < |groups|
      ensures Tracker.GroupFor(r, n) < |r|
    {
      Tracker.NamedGroupFound(r, Tracker.GroupFor(groups, n), n);
    }
  }

  lemma {:induction false} SharersOfOk(cfg: Config, addrs: seq<Peer>, name: Name, sharing: set<int>, n: nat)
    requires ConfigOk(cfg) && AddrsOk(cfg, addrs) && n <= MAX_CLIENTS
    requires forall j <- sharing :: MayShare(cfg, j, name)
    ensures forall p <- Tracker.SharersOf(addrs, sharing, n) :: PeerOk(cfg, name, p)
  {
    if n > 0 {
      SharersOfOk(cfg, addrs, name, sharing, n - 1);
    }
  }

  lemma {:induction false} AssignmentOk(cfg: Config, addrs: seq<Peer>, groups: seq<Tracker.Group>, name: Name)
    requires ConfigOk(cfg) && AddrsOk(cfg, addrs) && name in cfg.source
    requires forall g <- groups :: TrackedOk(cfg, addrs, g)
    ensures EntryOk(cfg, Tracker.Assignment(addrs, groups, name))
  {
    var i := Tracker.GroupFor(groups, name);
    if i < |groups| {
      assert groups[i] in groups;
      SharersOfOk(cfg, addrs, name, groups[i].sharing, MAX_CLIENTS);
    }
  }

  lemma {:induction false} LowItemOk(cfg: Config, cid: int, x: Item)
    requires ItemOk(cfg, cid, x)
    ensures ItemOk(cfg, cid, x.(size := x.size % 65536))
  {
    hide MayShare, HasTask, Origin;
  }

  lemma {:induction false} LowItemsOk(cfg: Config, cid: int, items: seq<Item>)
    requires forall x <- items :: ItemOk(cfg, cid, x)
    ensures forall x <- LowItems(items) :: ItemOk(cfg, cid, x) && x.size < 65536
  {
    hide ItemOk, LowItems;
    forall x | x in LowItems(items)
      ensures ItemOk(cfg, cid, x) && x.size < 65536
    {
      var i :| 0 <= i < |items| && LowItems(items)[i] == x;
      assert items[i] in items;
      LowItemOk(cfg, cid, items[i]);
    }
  }

  lemma {:induction false} AssignmentsOk(cfg: Config, cid: int, addrs: seq<Peer>, groups: seq<Tracker.Group>, items: seq<Item>)
    requires ConfigOk(cfg) && AddrsOk(cfg, addrs) && forall g <- groups :: TrackedOk(cfg, addrs, g)
    requires forall x <- items :: ItemOk(cfg, cid, x)
    ensures forall f <- Tracker.Assignments(addrs, groups, items) :: EntryOk(cfg, f)
  {
    var files := Tracker.Assignments(addrs, groups, items);
    forall f | f in files
      ensures EntryOk(cfg, f)
    {
      var i :| 0 <= i < |items| && f == files[i];
      assert ItemOk(cfg, cid, items[i]) by { assert items[i] in items; }
      AssignmentOk(cfg, addrs, groups, items[i].name);
    }
  }

  lemma {:induction false} OnInterestOk(cfg: Config, clients: seq<Client.State>, t: Tracker.State, p: Packet, items: seq<Item>)
    requires ConfigOk(cfg) && TrackerOk(cfg, t) && p.msg.ShowInterest? && PacketOk(cfg, clients, p)
    requires items == LowItems(p.msg.items)
    ensures var (t', reply) := Tracker.OnInterest(t, p.msg.cid, items, p.from);
      TrackerOk(cfg, t') && PacketOk(cfg, clients, Packet(cfg.trackerPort, p.from, reply))
  {
    var cid := p.msg.cid;
    var (t', reply) := Tracker.OnInterest(t, cid, items, p.from);
    LearnPeerOk(cfg, t.addrs, Peer(cid, p.from));
    forall g | g in t.groups
      ensures TrackedOk(cfg, t'.addrs, g)
    {
      TrackedGrows(cfg, t.addrs, t'.addrs, g);
    }
    LowItemsOk(cfg, cid, p.msg.items);
    NoteItemsOk(cfg, t'.addrs, t.groups, cid, items);
    AssignmentsOk(cfg, cid, t'.addrs, t'.groups, items);
    assert ToClient(cfg, Packet(cfg.trackerPort, p.from, reply));
  }

  lemma {:induction false} InterestFits(cfg: Config, m: Msg)
    requires ConfigOk(cfg) && m.ShowInterest? && 0 <= m.cid < MAX_CLIENTS && |m.items| <= MAX_FILES
    requires forall x <- m.items :: ItemOk(cfg, m.cid, x)
    ensures Fits(m)
  {
    forall x | x in m.items
      ensures IsName(x.name) && InShort(x.kind)
    {
      assert ItemOk(cfg, m.cid, x);
    }
  }

  lemma {:induction false} TrackerMovesOk(cfg: Config, w: World, p: Packet, mem: seq<byte>)
    requires ConfigOk(cfg) && Inv(cfg, w) && p.to == cfg.trackerPort && Arrives(cfg, w, p, mem)
    ensures Inv(cfg, TrackerMoves(cfg, w, p, mem))
  {
    hide LocalOk, RoutesOk, TrackerOk, PrefixFree, ItemOk, ReadInterest, Image, Tracker.OnInterest;
    assert PacketOk(cfg, w.clients, p);
    assert p.msg.ShowInterest?;
    InterestFits(cfg, p.msg);
    InterestRoundTrip(p.msg, mem);
    OnInterestOk(cfg, w.clients, w.tracker, p, LowItems(p.msg.items));
  }

  // ---------- a client ----------

  lemma {:induction false} PacketKeeps(cfg: Config, clients: seq<Client.State>, c: nat, st: Client.State, p: Packet)
    requires ConfigOk(cfg) && c < |clients| && clients[c].owned <= st.owned && PacketOk(cfg, clients, p)
    ensures PacketOk(cfg, clients[c := st], p)
  {
    var clients' := clients[c := st];
    forall j, n | 0 <= j < |clients| && Serves(clients[j], n)
      ensures Serves(clients'[j], n)
    {
      if j == c { ServesGrows(clients[c], st, n); }
    }
  }

  lemma {:induction false} RoutesKeep(cfg: Config, clients: seq<Client.State>, c: nat, st: Client.State, ds: seq<Client.Download>, addrs: seq<Peer>)
    requires c < |clients| == MAX_CLIENTS && clients[c].owned <= st.owned && RoutesOk(cfg, clients, ds, addrs)
    ensures RoutesOk(cfg, clients[c := st], ds, addrs)
  {
    forall k, i | 0 <= k < |ds| && 0 <= i < |ds[k].source|
      ensures SourceOk(cfg, clients[c := st], addrs, ds[k].name, ds[k].source[i])
    {
      assert SourceOk(cfg, clients, addrs, ds[k].name, ds[k].source[i]);
      if ds[k].source[i] == c { ServesGrows(clients[c], st, ds[k].name); }
    }
  }

  lemma {:induction false} GoodMoveKeepsInv(cfg: Config, w: World, c: nat, st: Client.State, outs: seq<Client.Out>)
    requires ConfigOk(cfg) && Inv(cfg, w) && c < MAX_CLIENTS && GoodMove(cfg, w.clients, c, st, outs)
    ensures Inv(cfg, w.(clients := w.clients[c := st], net := w.net + Outgoing(cfg.ports[c], outs)))
  {
    var w' := w.(clients := w.clients[c := st], net := w.net + Outgoing(cfg.ports[c], outs));
    forall p | p in w'.net
      ensures PacketOk(cfg, w'.clients, p)
    {
      PacketKeeps(cfg, w.clients, c, st, p);
    }
    forall i | 0 <= i < MAX_CLIENTS
      ensures RoutesOk(cfg, w'.clients, w'.clients[i].downloads, w'.clients[i].addrs)
    {
      RoutesKeep(cfg, w.clients, c, st, w'.clients[i].downloads, w'.clients[i].addrs);
    }
  }

  lemma {:induction false} EntryOkFits(cfg: Config, f: FileEntry)
    requires ConfigOk(cfg) && EntryOk(cfg, f)
    ensures EntryFits(f) && EntryOk(cfg, f.(size := f.size % 65536))
  {
    forall p | p in f.peers
      ensures PeerFits(p)
    {
      assert PeerOk(cfg, f.name, p);
    }
  }

  lemma {:induction false} AssignFits(cfg: Config, files: seq<FileEntry>)
    requires ConfigOk(cfg) && |files| <= MAX_FILES && forall f <- files :: EntryOk(cfg, f)
    ensures Fits(GroupAssign(files))
    ensures forall f <- LowFiles(files) :: EntryOk(cfg, f) && f.size < 65536
  {
    forall f | f in files
      ensures EntryFits(f)
    {
      EntryOkFits(cfg, f);
    }
    forall f | f in LowFiles(files)
      ensures EntryOk(cfg, f) && f.size < 65536
    {
      var i :| 0 <= i < |files| && LowFiles(files)[i] == f;
      assert files[i] in files;
      EntryOkFits(cfg, files[i]);
    }
  }

  lemma {:induction false} DeliveryOk(cfg: Config, w: World, c: nat, p: Packet, mem: seq<byte>, junk: seq<byte>)
    requires ConfigOk(cfg) && Inv(cfg, w) && c < MAX_CLIENTS && p.to == cfg.ports[c] && Arrives(cfg, w, p, mem)
    ensures ReadClient(mem).Some?
    ensures var (st, outs) := Client.Handle(w.clients[c], ReadClient(mem).value, p.from, junk);
      GoodMove(cfg, w.clients, c, st, outs)
  {
    hide ReadClient, Image, Client.OnAssign, Client.OnInfoReq, Client.OnInfoRep, Client.OnSegReq, Client.OnSegRep, GoodMove;
    assert PacketOk(cfg, w.clients, p);
    match p.msg
    case GroupAssign(files) =>
      AssignFits(cfg, files);
      AssignRoundTrip(files, mem);
      OnAssignOk(cfg, w.clients, c, LowFiles(files));
    case InfoReq(cid, name) =>
      InfoReqRoundTrip(cid, name, mem);
      OnInfoReqOk(cfg, w.clients, c, cid, name, p);
    case InfoRep(cid, name, segs) =>
      InfoRepRoundTrip(cid, name, segs, mem);
      OnInfoRepOk(cfg, w.clients, c, cid, name, segs, p);
    case SegReq(cid, name, seg) =>
      SegReqRoundTrip(cid, name, seg, mem);
      OnSegReqOk(cfg, w.clients, c, cid, name, seg, p, junk);
    case SegRep(_, _, _, _, _) =>
      ReplyArrives(cfg, w.clients, p, mem);
      OnSegRepOk(cfg, w.clients, c, ReadClient(mem).value, p.from);
    case ShowInterest(_, _) =>
      assert false;
  }

  lemma {:induction false} LocalMoveOk(cfg: Config, w: World, c: nat, input: Client.Input)
    requires ConfigOk(cfg) && Inv(cfg, w) && c < MAX_CLIENTS && !input.Receive?
    ensures var (st, outs) := Client.Step(cfg.build, w.clients[c], input); GoodMove(cfg, w.clients, c, st, outs)
  {
    StayPut(cfg, w.clients, c);
    if w.clients[c].status.Running? {
      match input
      case Enable(k) =>
        if k < |w.clients[c].downloads| { EnableOk(cfg, w.clients, c, k); }
      case InterestTick(kinds) => OnInterestTickOk(cfg, w.clients, c, kinds);
      case InfoTick => AskInfoOk(cfg, w.clients, c, |w.clients[c].downloads|);
      case SegmentTick(rands, tail) => PlanAllOk(cfg, w.clients, c, |w.clients[c].downloads|, rands, tail);
    }
  }

  // ---------- runs ----------

  lemma {:induction false} ClientStepKeepsInv(cfg: Config, w: World, c: nat, input: Client.Input)
    requires ConfigOk(cfg) && Inv(cfg, w) && c < MAX_CLIENTS && !input.Receive?
    ensures Inv(cfg, ClientMoves(cfg, w, c, input))
  {
    LocalMoveOk(cfg, w, c, input);
    var (st, outs) := Client.Step(cfg.build, w.clients[c], input);
    GoodMoveKeepsInv(cfg, w, c, st, outs);
  }

  lemma {:induction false} ReceiveHandles(build: Build, st: Client.State, mem: seq<byte>, from: int, junk: seq<byte>, m: Msg)
    requires ReadClient(mem) == Some(m)
    ensures Client.Step(build, st, Client.Receive(mem, from, junk)) ==
      if st.status.Running? then Client.Handle(st, m, from, junk) else (st, [])
  {
  }

  lemma {:induction false} DeliveryKeepsInv(cfg: Config, w: World, c: nat, p: Packet, mem: seq<byte>, junk: seq<byte>)
    requires ConfigOk(cfg) && Inv(cfg, w) && c < MAX_CLIENTS && p.to == cfg.ports[c] && Arrives(cfg, w, p, mem)
    ensures Inv(cfg, ClientMoves(cfg, w, c, Client.Receive(mem, p.from, junk)))
  {
    StayPut(cfg, w.clients, c);
    DeliveryOk(cfg, w, c, p, mem, junk);
    ReceiveHandles(cfg.build, w.clients[c], mem, p.from, junk, ReadClient(mem).value);
    hide GoodMove, Client.Handle, Client.Step, ReadClient, Inv;
    var r := Client.Step(cfg.build, w.clients[c], Client.Receive(mem, p.from, junk));
    GoodMoveKeepsInv(cfg, w, c, r.0, r.1);
  }

  lemma {:induction false} NextKeepsInv(cfg: Config, w: World, s: Step)
    requires ConfigOk(cfg) && Inv(cfg, w)
    ensures Inv(cfg, Next(cfg, w, s))
  {
    match s
    case Local(c, input) =>
      if c < MAX_CLIENTS && !input.Receive? { ClientStepKeepsInv(cfg, w, c, input); }
    case Deliver(c, p, mem, junk) =>
      if c < MAX_CLIENTS && p.to == cfg.ports[c] && Arrives(cfg, w, p, mem) {
        DeliveryKeepsInv(cfg, w, c, p, mem, junk);
      }
    case ToTracker(p, mem) =>
      if p.to == cfg.trackerPort && Arrives(cfg, w, p, mem) { TrackerMovesOk(cfg, w, p, mem); }
    case TrackerQuits =>
  }

  /** At the start clients own what they loaded and nothing is in flight. */
  lemma {:induction false} InitOk(cfg: Config, w: World)
    requires ConfigOk(cfg) && Init(cfg, w)
    ensures Inv(cfg, w)
  {
    forall c | 0 <= c < MAX_CLIENTS
      ensures LocalOk(cfg, c, w.clients[c])
      ensures RoutesOk(cfg, w.clients, w.clients[c].downloads, w.clients[c].addrs)
    {
      StartOk(cfg, c);
    }
  }

  lemma {:induction false} StartOk(cfg: Config, c: nat)
    requires ConfigOk(cfg) && c < MAX_CLIENTS
    ensures LocalOk(cfg, c, StartOf(cfg, c))
    ensures forall k, i :: 0 <= k < |StartOf(cfg, c).downloads| && 0 <= i < |StartOf(cfg, c).downloads[k].source| ==>
      StartOf(cfg, c).downloads[k].source[i] == MAX_CLIENTS
  {
    hide OwnedOk, DownloadsOk, DoneOk, GroupsOk, NamesOk, Client.VolunteerAll;
    StartOwned(cfg, c);
    StartDownloads(cfg, c);
    SeedsAreKnown(cfg, c);
    VolunteersOk(cfg, c, StartOf(cfg, c).owned, cfg.tasks[c]);
    NoAddresses(cfg);
  }

  lemma {:induction false} SeedsAreKnown(cfg: Config, c: nat)
    requires ConfigOk(cfg) && c < MAX_CLIENTS
    ensures var owned := StartOf(cfg, c).owned;
      && (forall i :: 0 <= i < |owned| ==> owned[i].name in cfg.source)
      && (forall i, j :: 0 <= i < j < |owned| ==> owned[i].name != owned[j].name)
  {
    StartOwned(cfg, c);
    var owned := StartOf(cfg, c).owned;
    assert |owned| == |cfg.files[c]|;
    forall i | 0 <= i < |owned|
      ensures owned[i].name == cfg.files[c][i] && owned[i].name in cfg.source
    {
      assert owned[i] == Seed(cfg, cfg.files[c][i]);
    }
  }

  lemma {:induction false} NoAddresses(cfg: Config)
    requires ConfigOk(cfg)
    ensures AddrsOk(cfg, [])
  {
  }

  lemma {:induction false} StartDownloads(cfg: Config, c: nat)
    requires ConfigOk(cfg) && c < MAX_CLIENTS
    ensures DownloadsOk(cfg, c, StartOf(cfg, c).downloads) && DoneOk(StartOf(cfg, c).downloads, StartOf(cfg, c).owned)
  {
    hide DownloadOk, OwnedOk, Origin, PrefixFree, Client.NewDownload;
    StartOwned(cfg, c);
    var st := StartOf(cfg, c);
    forall k | 0 <= k < |st.downloads|
      ensures DownloadOk(cfg, c, st.downloads[k])
      ensures st.downloads[k].name == cfg.tasks[c][k].name && st.downloads[k].share == cfg.tasks[c][k].share
      ensures st.downloads[k].done ==> Client.OwnedFor(st.owned, st.downloads[k].name) < |st.owned|
      ensures st.downloads[k].numSegs != 0 ==> Holds0(cfg, c, st.downloads[k].name)
    {
      assert st.downloads[k] == Client.NewDownload(st.owned, cfg.tasks[c][k]);
      NewDownloadOk(cfg, c, st.downloads, st.owned, cfg.tasks[c][k]);
    }
  }

  lemma {:induction false} StartOwned(cfg: Config, c: nat)
    requires ConfigOk(cfg) && c < MAX_CLIENTS
    ensures OwnedOk(cfg, c, StartOf(cfg, c).downloads, StartOf(cfg, c).owned)
  {
    var st := StartOf(cfg, c);
    assert forall i :: 0 <= i < |cfg.files[c]| ==> cfg.files[c][i] in cfg.source;
  }

  /** The download of a task, set up from the files the client has loaded. */
  lemma {:induction false} NewDownloadOk(cfg: Config, c: nat, ds: seq<Client.Download>, owned: seq<Client.FileInfo>, t: Client.Task)
    requires ConfigOk(cfg) && c < MAX_CLIENTS && OwnedOk(cfg, c, ds, owned) && |owned| == |cfg.files[c]| && t.name in cfg.source
    ensures var d := Client.NewDownload(owned, t);
      && DownloadOk(cfg, c, d) && d.name == t.name && d.share == t.share
      && (d.done ==> Client.OwnedFor(owned, t.name) < |owned|)
      && (d.numSegs != 0 ==> Holds0(cfg, c, t.name))
  {
    hide Filled, PrefixFree, Origin;
    var i := Client.OwnedFor(owned, t.name);
    if i < |owned| {
      OwnedForFinds(cfg, c, ds, owned, t.name);
      OwnedEntryIsWanted(cfg, c, ds, owned, i, t.name);
      assert Holds0(cfg, c, t.name);
    } else if Holds0(cfg, c, t.name) {
      InitialFound(cfg, c, ds, owned, t.name);
    }
  }

  /** A client lists only itself at first. */
  lemma {:induction false} VolunteersOk(cfg: Config, c: nat, owned: seq<Client.FileInfo>, tasks: seq<Client.Task>)
    requires forall i :: 0 <= i < |owned| ==> owned[i].name in cfg.source
    requires forall i, j :: 0 <= i < j < |owned| ==> owned[i].name != owned[j].name
    ensures var groups := Client.VolunteerAll(Client.NewGroups(owned), c, tasks);
      GroupsOk(cfg, c, groups, []) && NamesOk(cfg, groups) && forall i :: 0 <= i < |groups| ==> groups[i].sharing <= {c}
    decreases tasks
  {
    var groups := Client.NewGroups(owned);
    VolunteersStay(groups, c, tasks);
    hide Client.VolunteerAll;
    var r := Client.VolunteerAll(groups, c, tasks);
    forall i | 0 <= i < |r|
      ensures r[i].sharing <= {c} && r[i].name == owned[i].name
    {
      assert groups[i].sharing == {};
    }
  }

  lemma {:induction false} VolunteersStay(groups: seq<Client.Group>, c: int, tasks: seq<Client.Task>)
    ensures var r := Client.VolunteerAll(groups, c, tasks);
      forall i :: 0 <= i < |groups| ==> r[i].name == groups[i].name && r[i].sharing <= groups[i].sharing + {c}
    decreases tasks
  {
    if tasks != [] { VolunteersStay(groups, c, tasks[..|tasks| - 1]); }
  }

  /** The invariant holds all along every run. */
  lemma {:induction false} RunKeepsInv(cfg: Config, w: World, steps: seq<Step>)
    requires ConfigOk(cfg) && Init(cfg, w)
    ensures Inv(cfg, Run(cfg, w, steps))
    decreases steps
  {
    if steps == [] {
      InitOk(cfg, w);
    } else {
      RunKeepsInv(cfg, w, steps[..|steps| - 1]);
      NextKeepsInv(cfg, Run(cfg, w, steps[..|steps| - 1]), steps[|steps| - 1]);
    }
  }

  lemma {:induction false} ReachedOk(cfg: Config, w: World)
    requires ConfigOk(cfg) && Reached(cfg, w)
    ensures Inv(cfg, w)
  {
    var w0, steps :| Init(cfg, w0) && Run(cfg, w0, steps) == w;
    RunKeepsInv(cfg, w0, steps);
  }

  lemma {:induction false} ReachedStep(cfg: Config, w: World, s: Step)
    requires Reached(cfg, w)
    ensures Reached(cfg, Next(cfg, w, s))
  {
    var w0, steps :| Init(cfg, w0) && Run(cfg, w0, steps) == w;
    assert (steps + [s])[..|steps|] == steps;
    assert Run(cfg, w0, steps + [s]) == Next(cfg, w, s);
  }
}
