/** What the clients know of each other comes from the tracker: a client lists another one as
    sharing a file only if the tracker's database does. */
module Knowledge {
  import opened Basics
  import opened Wire
  import opened Swarm
  import opened Invariant
  import opened Tables
  import opened Reachable
  import Progress
  import Client
  import Tracker

  /** The tracker has j down as sharing the file. */
  ghost predicate Listed(tracked: seq<Tracker.Group>, n: Name, j: int) {
    exists i :: 0 <= i < |tracked| && tracked[i].name == n && j in tracked[i].sharing
  }

  ghost predicate EntryListed(tracked: seq<Tracker.Group>, f: FileEntry) {
    forall p <- f.peers :: Listed(tracked, f.name, p.id)
  }

  ghost predicate MsgListed(tracked: seq<Tracker.Group>, m: Msg) {
    m.GroupAssign? ==> forall f <- m.files :: EntryListed(tracked, f)
  }

  /** The view of client c. */
  ghost predicate ViewListed(tracked: seq<Tracker.Group>, c: int, groups: seq<Client.Group>) {
    forall i, j :: 0 <= i < |groups| && j in groups[i].sharing && j != c ==> Listed(tracked, groups[i].name, j)
  }

  ghost predicate Contained(w: World) {
    && (forall c :: 0 <= c < |w.clients| ==> ViewListed(w.tracker.groups, c, w.clients[c].groups))
    && (forall p <- w.net :: MsgListed(w.tracker.groups, p.msg))
  }

  // ---------- the tracker's database only grows ----------

  ghost predicate Grows(tracked: seq<Tracker.Group>, more: seq<Tracker.Group>) {
    forall n, j :: Listed(tracked, n, j) ==> Listed(more, n, j)
  }

  lemma {:induction false} NoteItemGrows(tracked: seq<Tracker.Group>, cid: int, item: Item)
    ensures Grows(tracked, Tracker.NoteItem(tracked, cid, item))
  {
    var more := Tracker.NoteItem(tracked, cid, item);
    forall n, j | Listed(tracked, n, j)
      ensures Listed(more, n, j)
    {
      var i :| 0 <= i < |tracked| && tracked[i].name == n && j in tracked[i].sharing;
      assert more[i].name == n && j in more[i].sharing;
    }
  }

  lemma {:induction false} NoteItemsGrow(tracked: seq<Tracker.Group>, cid: int, items: seq<Item>)
    ensures Grows(tracked, Tracker.NoteItems(tracked, cid, items))
    decreases items
  {
    hide Tracker.NoteItem, Listed;
    if items != [] {
      NoteItemsGrow(tracked, cid, items[..|items| - 1]);
      NoteItemGrows(Tracker.NoteItems(tracked, cid, items[..|items| - 1]), cid, items[|items| - 1]);
    }
  }

  lemma {:induction false} ContainedGrows(w: World, tracked: seq<Tracker.Group>)
    requires Contained(w) && Grows(w.tracker.groups, tracked)
    ensures Contained(w.(tracker := w.tracker.(groups := tracked)))
  {
    hide Listed;
    forall p | p in w.net
      ensures MsgListed(tracked, p.msg)
    {
      assert MsgListed(w.tracker.groups, p.msg);
      if p.msg.GroupAssign? {
        forall f | f in p.msg.files
          ensures EntryListed(tracked, f)
        {
          assert EntryListed(w.tracker.groups, f);
        }
      }
    }
  }

  // ---------- what the tracker answers ----------

  lemma {:induction false} SharersAreSharing(addrs: seq<Peer>, sharing: set<int>, n: nat)
    ensures forall p <- Tracker.SharersOf(addrs, sharing, n) :: p.id in sharing
  {
    if n > 0 { SharersAreSharing(addrs, sharing, n - 1); }
  }

  lemma {:induction false} AssignmentListed(addrs: seq<Peer>, tracked: seq<Tracker.Group>, name: Name)
    ensures EntryListed(tracked, Tracker.Assignment(addrs, tracked, name))
  {
    var i := Tracker.GroupFor(tracked, name);
    if i < |tracked| { SharersAreSharing(addrs, tracked[i].sharing, MAX_CLIENTS); }
  }

  lemma {:induction false} AnswerListed(t: Tracker.State, cid: int, items: seq<Item>, from: int)
    ensures var (t', reply) := Tracker.OnInterest(t, cid, items, from);
      Grows(t.groups, t'.groups) && MsgListed(t'.groups, reply)
  {
    hide EntryListed, Tracker.Assignment;
    var (t', reply) := Tracker.OnInterest(t, cid, items, from);
    NoteItemsGrow(t.groups, cid, items);
    forall f | f in reply.files
      ensures EntryListed(t'.groups, f)
    {
      var i :| 0 <= i < |items| && reply.files[i] == f;
      AssignmentListed(t'.addrs, t'.groups, items[i].name);
    }
  }

  // ---------- what a client learns ----------

  lemma {:induction false} LearnGroupListed(cfg: Config, tracked: seq<Tracker.Group>, c: int, groups: seq<Client.Group>, f: FileEntry)
    requires ConfigOk(cfg) && NamesOk(cfg, groups) && f.name in cfg.source
    requires ViewListed(tracked, c, groups) && EntryListed(tracked, f)
    ensures ViewListed(tracked, c, Client.LearnGroup(groups, f)) && NamesOk(cfg, Client.LearnGroup(groups, f))
  {
    hide Listed;
    var i := Client.GroupFor(groups, f.name);
    if i < |groups| { MatchesIsEquality(cfg, groups[i].name, f.name); }
    forall j | j in Client.Ids(f.peers)
      ensures Listed(tracked, f.name, j)
    {
      var p :| p in f.peers && p.id == j;
    }
  }

  lemma {:induction false} AssignListed(cfg: Config, tracked: seq<Tracker.Group>, c: int, st: Client.State, files: seq<FileEntry>)
    requires ConfigOk(cfg) && NamesOk(cfg, st.groups) && ViewListed(tracked, c, st.groups)
    requires forall f <- files :: f.name in cfg.source && EntryListed(tracked, f)
    ensures var st' := Client.OnAssign(st, files); ViewListed(tracked, c, st'.groups) && NamesOk(cfg, st'.groups)
    decreases files
  {
    hide ViewListed, EntryListed, Client.LearnGroup;
    if files != [] {
      AssignListed(cfg, tracked, c, st, files[..|files| - 1]);
      assert files[|files| - 1] in files;
      LearnGroupListed(cfg, tracked, c, Client.OnAssign(st, files[..|files| - 1]).groups, files[|files| - 1]);
    }
  }

  // ---------- nothing else teaches a client ----------

  ghost predicate NoAssign(outs: seq<Client.Out>) {
    forall o <- outs :: !o.msg.GroupAssign?
  }

  lemma {:induction false} AskPeersNoAssign(st: Client.State, name: Name, neighbors: set<int>, n: nat)
    ensures NoAssign(Client.AskPeers(st, name, neighbors, n))
  {
    if n > 0 { AskPeersNoAssign(st, name, neighbors, n - 1); }
  }

  lemma {:induction false} AskInfoNoAssign(st: Client.State, n: nat)
    requires n <= |st.downloads|
    ensures NoAssign(Client.AskInfo(st, n))
  {
    if n > 0 {
      AskInfoNoAssign(st, n - 1);
      var d := st.downloads[n - 1];
      AskPeersNoAssign(st, d.name, Client.Neighbors(st.groups, d.name), MAX_CLIENTS);
    }
  }

  lemma {:induction false} RequestsNoAssign(st: Client.State, d: Client.Download, missing: seq<nat>, rands: seq<nat>, at: nat, count: nat)
    requires |missing| > 0
    ensures NoAssign(Client.Requests(st, d, missing, rands, at, count))
  {
    if count > 0 { RequestsNoAssign(st, d, missing, rands, at, count - 1); }
  }

  lemma {:induction false} PlanTeachesNothing(build: Build, st: Client.State, n: nat, rands: seq<nat>, tail: Name)
    requires n <= |st.downloads|
    ensures var (st', outs) := Client.PlanAll(build, st, n, rands, tail); st'.groups == st.groups && NoAssign(outs)
  {
    if n > 0 {
      PlanTeachesNothing(build, st, n - 1, rands, tail);
      var st1 := Client.PlanAll(build, st, n - 1, rands, tail).0;
      var d := st1.downloads[n - 1];
      var missing := Client.Missing(d.have, d.numSegs);
      if missing != [] {
        RequestsNoAssign(st1, d, missing, rands, Client.MAX_REQUESTS * (n - 1), Min(Client.MAX_REQUESTS, |missing|));
      }
    }
  }

  lemma {:induction false} StepTeachesNothing(build: Build, st: Client.State, input: Client.Input)
    requires input.Receive? ==> ReadClient(input.mem).Some? && !ReadClient(input.mem).value.GroupAssign?
    ensures var (st', outs) := Client.Step(build, st, input); st'.groups == st.groups && NoAssign(outs)
  {
    hide ReadClient, Client.PlanAll, Client.AskInfo;
    if st.status.Running? {
      match input
      case InfoTick => AskInfoNoAssign(st, |st.downloads|);
      case SegmentTick(rands, tail) => PlanTeachesNothing(build, st, |st.downloads|, rands, tail);
      case _ =>
    }
  }

  // ---------- runs ----------

  lemma {:induction false} MoveContained(w: World, c: nat, st: Client.State, from: int, outs: seq<Client.Out>)
    requires Contained(w) && c < |w.clients| && ViewListed(w.tracker.groups, c, st.groups) && NoAssign(outs)
    ensures Contained(w.(clients := w.clients[c := st], net := w.net + Outgoing(from, outs)))
  {
    hide ViewListed;
  }

  lemma {:induction false} LocalContained(cfg: Config, w: World, c: nat, input: Client.Input)
    requires Contained(w) && c < |w.clients| && c < |cfg.ports| && !input.Receive?
    ensures Contained(ClientMoves(cfg, w, c, input))
  {
    hide Client.Step, ViewListed, NoAssign;
    StepTeachesNothing(cfg.build, w.clients[c], input);
    var (st, outs) := Client.Step(cfg.build, w.clients[c], input);
    assert ViewListed(w.tracker.groups, c, w.clients[c].groups);
    MoveContained(w, c, st, cfg.ports[c], outs);
  }

  /** Where a GROUP_ASSIGN is delivered, it is one that was sent. */
  lemma {:induction false} AssignArrives(cfg: Config, w: World, c: nat, p: Packet, mem: seq<byte>)
    requires ConfigOk(cfg) && Inv(cfg, w) && Contained(w) && c < MAX_CLIENTS && p.to == cfg.ports[c] && Arrives(cfg, w, p, mem)
    requires p.msg.GroupAssign?
    ensures ReadClient(mem) == Some(GroupAssign(LowFiles(p.msg.files)))
    ensures forall f <- LowFiles(p.msg.files) :: f.name in cfg.source && EntryListed(w.tracker.groups, f)
  {
    hide Listed;
    assert PacketOk(cfg, w.clients, p) && MsgListed(w.tracker.groups, p.msg);
    var files := p.msg.files;
    AssignFits(cfg, files);
    AssignRoundTrip(files, mem);
    forall f | f in LowFiles(files)
      ensures f.name in cfg.source && EntryListed(w.tracker.groups, f)
    {
      var i :| 0 <= i < |files| && LowFiles(files)[i] == f;
      assert files[i] in files;
      assert EntryListed(w.tracker.groups, files[i]);
    }
  }

  lemma {:induction false} DeliveryContained(cfg: Config, w: World, c: nat, p: Packet, mem: seq<byte>, junk: seq<byte>)
    requires ConfigOk(cfg) && Inv(cfg, w) && Contained(w)
    requires c < MAX_CLIENTS && p.to == cfg.ports[c] && Arrives(cfg, w, p, mem)
    ensures Contained(ClientMoves(cfg, w, c, Client.Receive(mem, p.from, junk)))
  {
    hide Client.OnAssign, ReadClient, ViewListed, NoAssign, EntryListed;
    var st, input := w.clients[c], Client.Receive(mem, p.from, junk);
    var (st', outs) := Client.Step(cfg.build, st, input);
    assert ViewListed(w.tracker.groups, c, st.groups);
    if p.msg.GroupAssign? {
      AssignArrives(cfg, w, c, p, mem);
      assert LocalOk(cfg, c, st);
      AssignListed(cfg, w.tracker.groups, c, st, LowFiles(p.msg.files));
      NothingSent();
    } else {
      assert PacketOk(cfg, w.clients, p);
      Progress.NotAnAssignment(cfg, w.clients, c, p, mem);
      StepTeachesNothing(cfg.build, st, input);
    }
    MoveContained(w, c, st', cfg.ports[c], outs);
  }

  lemma {:induction false} NothingSent()
    ensures NoAssign([])
  {
  }

  lemma {:induction false} TrackerContained(cfg: Config, w: World, p: Packet, mem: seq<byte>)
    requires Contained(w)
    ensures Contained(TrackerMoves(cfg, w, p, mem))
  {
    hide ReadInterest, MsgListed, ViewListed, Grows, Tracker.OnInterest;
    match ReadInterest(mem)
    case None =>
    case Some(m) =>
      if m.ShowInterest? {
        var (t, reply) := Tracker.OnInterest(w.tracker, m.cid, m.items, p.from);
        AnswerListed(w.tracker, m.cid, m.items, p.from);
        ContainedGrows(w, t.groups);
      }
  }

  lemma {:induction false} NextContained(cfg: Config, w: World, s: Step)
    requires ConfigOk(cfg) && Inv(cfg, w) && Contained(w)
    ensures Contained(Next(cfg, w, s))
  {
    match s
    case Local(c, input) =>
      if c < MAX_CLIENTS && !input.Receive? { LocalContained(cfg, w, c, input); }
    case Deliver(c, p, mem, junk) =>
      if c < MAX_CLIENTS && p.to == cfg.ports[c] && Arrives(cfg, w, p, mem) {
        DeliveryContained(cfg, w, c, p, mem, junk);
      }
    case ToTracker(p, mem) => TrackerContained(cfg, w, p, mem);
    case TrackerQuits =>
  }

  lemma {:induction false} RunContained(cfg: Config, w: World, steps: seq<Step>)
    requires ConfigOk(cfg) && Init(cfg, w)
    ensures Contained(Run(cfg, w, steps))
    decreases steps
  {
    hide Contained, Inv;
    if steps == [] {
      InitContained(cfg, w);
    } else {
      RunContained(cfg, w, steps[..|steps| - 1]);
      RunKeepsInv(cfg, w, steps[..|steps| - 1]);
      NextContained(cfg, Run(cfg, w, steps[..|steps| - 1]), steps[|steps| - 1]);
    }
  }

  lemma {:induction false} InitContained(cfg: Config, w: World)
    requires ConfigOk(cfg) && Init(cfg, w)
    ensures Contained(w)
  {
    forall c | 0 <= c < MAX_CLIENTS
      ensures ViewListed([], c, w.clients[c].groups)
    {
      StartOwned(cfg, c);
      var owned := StartOf(cfg, c).owned;
      assert forall i :: 0 <= i < |owned| ==> owned[i].name in cfg.source;
      VolunteersOk(cfg, c, owned, cfg.tasks[c]);
    }
  }

  /** In every reachable world each client's view of the others, and every GROUP_ASSIGN under
      way, is contained in the tracker's database, and that names only clients that may come to
      announce themselves as sharing. */
  lemma {:induction false} KnowledgeIsContained(cfg: Config, w: World)
    requires ConfigOk(cfg) && Reached(cfg, w)
    ensures Contained(w)
    ensures forall n, j :: Listed(w.tracker.groups, n, j) ==> MayShare(cfg, j, n)
  {
    hide Contained;
    var w0, steps :| Init(cfg, w0) && Run(cfg, w0, steps) == w;
    RunContained(cfg, w0, steps);
    ReachedOk(cfg, w);
    forall n, j | Listed(w.tracker.groups, n, j)
      ensures MayShare(cfg, j, n)
    {
      var i :| 0 <= i < |w.tracker.groups| && w.tracker.groups[i].name == n && j in w.tracker.groups[i].sharing;
      assert TrackedOk(cfg, w.tracker.addrs, w.tracker.groups[i]);
    }
  }

  // ---------- the tracker's database and the run ----------

  /** The announcements the tracker takes in with a step. */
  ghost function Heard(cfg: Config, w: World, s: Step): seq<Tracker.Event> {
    match s
    case ToTracker(p, mem) =>
      if w.tracker.running && p.to == cfg.trackerPort && Arrives(cfg, w, p, mem) then
        match ReadInterest(mem)
        case None => []
        case Some(m) => if m.ShowInterest? then Tracker.EventsOf(m.cid, m.items) else []
      else []
    case _ => []
  }

  ghost function AllHeard(cfg: Config, w: World, steps: seq<Step>): seq<Tracker.Event> {
    if steps == [] then [] else
      AllHeard(cfg, w, steps[..|steps| - 1]) + Heard(cfg, Run(cfg, w, steps[..|steps| - 1]), steps[|steps| - 1])
  }

  lemma {:induction false} StepIsReplayed(cfg: Config, w: World, s: Step, history: seq<Tracker.Event>)
    requires w.tracker.groups == Tracker.Replay(history)
    ensures Next(cfg, w, s).tracker.groups == Tracker.Replay(history + Heard(cfg, w, s))
  {
    hide Arrives, ReadInterest, Client.Step, Tracker.Replay, Tracker.NoteItems;
    assert history + [] == history;
    if s.ToTracker? && ReadInterest(s.mem).Some? {
      var m := ReadInterest(s.mem).value;
      if m.ShowInterest? { Tracker.MessageIsReplayed(history, m.cid, m.items); }
    }
  }

  lemma {:induction false} RunIsReplayed(cfg: Config, w: World, steps: seq<Step>)
    requires Init(cfg, w)
    ensures Run(cfg, w, steps).tracker.groups == Tracker.Replay(AllHeard(cfg, w, steps))
    decreases steps
  {
    hide Next, Heard;
    if steps != [] {
      RunIsReplayed(cfg, w, steps[..|steps| - 1]);
      StepIsReplayed(cfg, Run(cfg, w, steps[..|steps| - 1]), steps[|steps| - 1], AllHeard(cfg, w, steps[..|steps| - 1]));
    }
  }

  /** After every run the tracker's database is what the announcements delivered to it say: which
      clients share a file, which download it, and the first size anybody gave. */
  lemma {:induction false} TrackerTellsRun(cfg: Config, w: World, steps: seq<Step>)
    requires Init(cfg, w)
    ensures var groups, history := Run(cfg, w, steps).tracker.groups, AllHeard(cfg, w, steps);
      && Tracker.Distinct(groups)
      && (forall e <- history :: exists g :: g in groups && g.name == e.item.name)
      && (forall g <- groups :: exists e :: e in history && e.item.name == g.name)
      && (forall g <- groups :: Tracker.Tells(g, history))
  {
    RunIsReplayed(cfg, w, steps);
    Tracker.DatabaseTellsHistory(AllHeard(cfg, w, steps));
  }
}
