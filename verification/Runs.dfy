/** A client downloads a file from another one, in any configuration: the runs that the exact
    conditions need. Everybody but the clients named stays idle. */
module Runs {
  import opened Basics
  import opened Wire
  import opened Segments
  import opened Swarm
  import opened Invariant
  import opened Tables
  import opened Reachable
  import opened Scenes
  import Client
  import Tracker
  import Ticks
  import Progress

  // ---------- a client that serves ----------

  /** Only what serving changes: the idle count and the address table. */
  ghost predicate SameButAddrs(st: Client.State, st': Client.State) {
    st' == st.(updates := st'.updates, addrs := st'.addrs)
  }

  /** st answers requests for the file. */
  ghost predicate Serving(cfg: Config, n: Name, st: Client.State)
    requires n in cfg.source
  {
    && st.status.Running?
    && Client.OwnedAs(st.owned, n) < |st.owned|
    && var k := Client.DownloadFor(st.downloads, n);
    && k < |st.downloads| && |st.downloads[k].have| == MAX_SEGMENTS
    && forall i :: 0 <= i < NumSegments(Known(cfg, n)) && i < MAX_SEGMENTS ==> st.downloads[k].have[i]
  }

  /** The entry from which the file is served. */
  function EntryOf(st: Client.State, n: Name): Client.FileInfo
    requires Client.OwnedAs(st.owned, n) < |st.owned|
  {
    st.owned[Client.OwnedAs(st.owned, n)]
  }

  /** A client that started with the file serves what it loaded ... */
  lemma {:induction false} SeedEntry(cfg: Config, c: nat, st: Client.State, n: Name)
    requires ConfigOk(cfg) && c < MAX_CLIENTS && LocalOk(cfg, c, st) && Holds0(cfg, c, n) && n in cfg.source
    ensures Client.OwnedAs(st.owned, n) < |st.owned| && EntryOf(st, n) == Seed(cfg, n)
  {
    hide PrefixFree, Filled, Origin;
    var j :| 0 <= j < |cfg.files[c]| && cfg.files[c][j] == n;
    assert st.owned[j] == Seed(cfg, n);
    assert Client.Matches(st.owned[j].name, n);
    var i := Client.OwnedAs(st.owned, n);
    OwnedEntryIsWanted(cfg, c, st.downloads, st.owned, i, n);
    if i >= |cfg.files[c]| {
      assert false;
    }
  }

  /** ... and any other client what it downloaded. */
  lemma {:induction false} DoneEntry(cfg: Config, c: nat, st: Client.State, n: Name)
    requires ConfigOk(cfg) && c < MAX_CLIENTS && LocalOk(cfg, c, st) && !Holds0(cfg, c, n) && n in cfg.source
    requires Client.OwnedAs(st.owned, n) < |st.owned|
    ensures var fi := EntryOf(st, n);
      fi.numSegs == NumSegments(Known(cfg, n)) && fi.sizes == DoneSizes(cfg.build, Known(cfg, n)) &&
      FinishedOk(cfg, c, st.downloads, fi) && st.downloads[fi.fp.k].name == n
  {
    hide PrefixFree, Filled, Origin;
    var i := Client.OwnedAs(st.owned, n);
    OwnedEntryIsWanted(cfg, c, st.downloads, st.owned, i, n);
    if i < |cfg.files[c]| {
      assert false;
    } else {
      assert FinishedOk(cfg, c, st.downloads, st.owned[i]);
      assert DownloadOk(cfg, c, st.downloads[st.owned[i].fp.k]);
    }
  }

  lemma {:induction false} EntryCovers(cfg: Config, c: nat, st: Client.State, n: Name)
    requires ConfigOk(cfg) && c < MAX_CLIENTS && LocalOk(cfg, c, st) && n in cfg.source && Client.OwnedAs(st.owned, n) < |st.owned|
    ensures NumSegments(Known(cfg, n)) <= EntryOf(st, n).numSegs <= MAX_SEGMENTS && |EntryOf(st, n).sizes| == MAX_SEGMENTS
  {
    hide LocalOk, PrefixFree;
    NumSegmentsMonotone(Known(cfg, n), Len(cfg, n));
    if Holds0(cfg, c, n) { SeedEntry(cfg, c, st, n); } else { DoneEntry(cfg, c, st, n); }
  }

  // ---------- a client that downloads ----------

  ghost predicate OthersIdle(ds: seq<Client.Download>, k: nat) {
    forall j :: 0 <= j < |ds| && j != k ==> ds[j].done || ds[j].numSegs == 0
  }

  /** Download k is the first of the file, the only one announced, and the only one with
      anything to fetch. */
  ghost predicate Concerned(st: Client.State, k: nat, n: Name) {
    && st.status.Running? && st.updates <= 1 && st.progress <= 1
    && OnlyEnabled(st.downloads, k) && OthersIdle(st.downloads, k)
    && st.downloads[k].name == n && (forall j :: 0 <= j < k ==> st.downloads[j].name != n)
  }

  ghost predicate Wants(st: Client.State, k: nat, n: Name) {
    Concerned(st, k, n) && !st.downloads[k].done && st.disk == []
  }

  ghost predicate FirstTask(cfg: Config, c: nat, k: nat, n: Name) {
    && c < |cfg.tasks| && k < |cfg.tasks[c]| && cfg.tasks[c][k].name == n
    && forall j :: 0 <= j < k ==> cfg.tasks[c][j].name != n
  }

  lemma {:induction false} HasFirstTask(cfg: Config, c: nat, n: Name) returns (k: nat)
    requires HasTask(cfg, c, n)
    ensures FirstTask(cfg, c, k, n)
  {
    k := FirstIndex(cfg.tasks[c], (t: Client.Task) => t.name == n);
  }

  lemma {:induction false} FindsFirst(cfg: Config, c: nat, ds: seq<Client.Download>, k: nat, n: Name)
    requires ConfigOk(cfg) && c < MAX_CLIENTS && DownloadsOk(cfg, c, ds) && n in cfg.source && k < |ds| && ds[k].name == n
    requires forall j :: 0 <= j < k ==> ds[j].name != n
    ensures Client.DownloadFor(ds, n) == k
  {
    hide Filled, Origin, LeechOk;
    forall j | 0 <= j < k
      ensures !Client.Matches(ds[j].name, n)
    {
      assert DownloadOk(cfg, c, ds[j]);
      MatchesIsEquality(cfg, ds[j].name, n);
    }
  }

  // ---------- the file is announced ----------

  lemma {:induction false} EnabledFirst(cfg: Config, c: nat, k: nat)
    requires ConfigOk(cfg) && c < MAX_CLIENTS && k < |cfg.tasks[c]|
    ensures var st := StartOf(cfg, c);
      && st.status.Running? && |st.downloads| == |cfg.tasks[c]| && st.updates == st.progress == 0 && st.disk == []
      && var (st', outs) := Client.Step(cfg.build, st, Client.Enable(k));
      st' == st.(downloads := st.downloads[k := st.downloads[k].(enabled := true)]) && OnlyEnabled(st'.downloads, k)
  {
    var st := StartOf(cfg, c);
    forall j | 0 <= j < |st.downloads|
      ensures !st.downloads[j].enabled
    {
      assert st.downloads[j] == Client.NewDownload(st.owned, cfg.tasks[c][j]);
    }
  }

  /** Client c, which has done nothing so far, enables its download k and is heard. */
  lemma {:induction false} FirstHeard(cfg: Config, w: World, c: nat, k: nat) returns (w': World, w1: World, st: Client.State)
    requires Scene(cfg, w) && c < MAX_CLIENTS && w.clients[c] == StartOf(cfg, c) && k < |cfg.tasks[c]|
    ensures st == StartOf(cfg, c).(downloads := StartOf(cfg, c).downloads[k := StartOf(cfg, c).downloads[k].(enabled := true)])
    ensures Scene(cfg, w1) && w1.clients == w.clients[c := Ticked(st)] && w1.tracker == w.tracker && w.net <= w1.net
    ensures Packet(cfg.ports[c], cfg.trackerPort, ShowInterest(c, [ItemOf(cfg.build, st, k)])) in w1.net
    ensures MayTick(st) && OnlyEnabled(st.downloads, k) && LocalOk(cfg, c, st)
    ensures Scene(cfg, w') && w'.clients == w.clients[c := Ticked(st)] && w.net <= w'.net
    ensures var x := ItemOf(cfg.build, st, k);
      var t := Heard(w.tracker, c, Low(x), cfg.ports[c]);
      && w'.tracker == t
      && Packet(cfg.trackerPort, cfg.ports[c], GroupAssign([Tracker.Assignment(t.addrs, t.groups, x.name)])) in w'.net
  {
    hide Scene, StartOf, ItemOf, Heard, Client.Step, Tracker.Assignment, Ticked, LocalOk;
    SceneConfig(cfg, w);
    EnabledFirst(cfg, c, k);
    var w0 := Locally(cfg, w, c, Client.Enable(k));
    st := w0.clients[c];
    w1 := Announces(cfg, w0, c, k);
    w' := IsHeard(cfg, w0, c, k);
    SceneOk(cfg, w0);
    assert w0.clients[c := Ticked(st)] == w.clients[c := Ticked(st)];
  }

  /** What its announcement says of a file the client started with. */
  lemma {:induction false} HeldItem(cfg: Config, c: nat, st: Client.State, k: nat)
    requires ConfigOk(cfg) && c < MAX_CLIENTS && LocalOk(cfg, c, st) && k < |st.downloads| && st.downloads[k].enabled
    requires Holds0(cfg, c, st.downloads[k].name)
    ensures var d := st.downloads[k];
      d.name in cfg.source && ItemOf(cfg.build, st, k) == Item(d.name, Len(cfg, d.name), Client.Kind(cfg.build, true, d.share, 2))
  {
    hide PrefixFree, Filled, Origin;
    var d := st.downloads[k];
    assert DownloadOk(cfg, c, d);
    InitialFound(cfg, c, st.downloads, st.owned, d.name);
    OwnedForFinds(cfg, c, st.downloads, st.owned, d.name);
  }

  /** A task for a file the client starts with: the download is done from the start. */
  lemma {:induction false} StartHolding(cfg: Config, c: nat, k: nat)
    requires ConfigOk(cfg) && c < MAX_CLIENTS && k < |cfg.tasks[c]| && Holds0(cfg, c, cfg.tasks[c][k].name)
    ensures var st, n := StartOf(cfg, c), cfg.tasks[c][k].name;
      && n in cfg.source && st.downloads[k].name == n && st.downloads[k].have == Client.HavePrefix(NumSegments(Len(cfg, n)))
      && Client.OwnedAs(st.owned, n) < |st.owned|
  {
    hide PrefixFree, Filled, Origin;
    var st, n := StartOf(cfg, c), cfg.tasks[c][k].name;
    StartOwned(cfg, c);
    assert n in cfg.source;
    assert st.downloads[k] == Client.NewDownload(st.owned, cfg.tasks[c][k]);
    InitialFound(cfg, c, st.downloads, st.owned, n);
    OwnedForFinds(cfg, c, st.downloads, st.owned, n);
    StartOk(cfg, c);
    SeedEntry(cfg, c, st, n);
  }

  /** A client that starts with the file and announces it serves it from then on. */
  lemma {:induction false} StartServing(cfg: Config, c: nat, k: nat, n: Name)
    requires ConfigOk(cfg) && c < MAX_CLIENTS && Holds0(cfg, c, n) && k < |cfg.tasks[c]| && cfg.tasks[c][k].name == n
    ensures n in cfg.source
    ensures var st := StartOf(cfg, c);
      Serving(cfg, n, Ticked(st.(downloads := st.downloads[k := st.downloads[k].(enabled := true)])))
  {
    var f := HasFirstTask(cfg, c, n);
    StartHolding(cfg, c, f);
    StartOk(cfg, c);
    StartNamed(cfg, c);
    EnabledFirst(cfg, c, k);
    NumSegmentsMonotone(Known(cfg, n), Len(cfg, n));
    FindsFirst(cfg, c, StartOf(cfg, c).downloads, f, n);
    hide StartOf, LocalOk, Serving;
    TickedServes(cfg, StartOf(cfg, c), f, k, n);
  }

  lemma {:induction false} StartNamed(cfg: Config, c: nat)
    requires ConfigOk(cfg) && c < MAX_CLIENTS
    ensures |StartOf(cfg, c).downloads| == |cfg.tasks[c]|
    ensures forall j :: 0 <= j < |cfg.tasks[c]| ==> StartOf(cfg, c).downloads[j].name == cfg.tasks[c][j].name
  {
  }

  lemma {:induction false} TickedServes(cfg: Config, st: Client.State, f: nat, k: nat, n: Name)
    requires n in cfg.source && st.status.Running? && k < |st.downloads|
    requires f == Client.DownloadFor(st.downloads, n) < |st.downloads| && |st.downloads[f].have| == MAX_SEGMENTS
    requires Client.OwnedAs(st.owned, n) < |st.owned|
    requires forall i :: 0 <= i < NumSegments(Known(cfg, n)) && i < MAX_SEGMENTS ==> st.downloads[f].have[i]
    ensures Serving(cfg, n, Ticked(st.(downloads := st.downloads[k := st.downloads[k].(enabled := true)])))
  {
    hide Client.OwnedAs, Client.DownloadFor, Client.AnnounceAll;
    var ds := st.downloads[k := st.downloads[k].(enabled := true)];
    SameHave(st.owned, ds);
    SameSearch(st.downloads, Client.AnnounceAll(st.owned, ds), n);
  }

  lemma {:induction false} SameHave(owned: seq<Client.FileInfo>, ds: seq<Client.Download>)
    ensures forall j :: 0 <= j < |ds| ==>
      Client.AnnounceAll(owned, ds)[j].name == ds[j].name && Client.AnnounceAll(owned, ds)[j].have == ds[j].have
  {
  }

  lemma {:induction false} SameSearch(ds: seq<Client.Download>, ds': seq<Client.Download>, n: Name)
    requires |ds'| == |ds| && forall j :: 0 <= j < |ds| ==> ds'[j].name == ds[j].name
    ensures Client.DownloadFor(ds', n) == Client.DownloadFor(ds, n)
  {
  }

  /** The file and its seeder s become known to the tracker. */
  lemma {:induction false} SeederIsHeard(cfg: Config, w: World, s: nat, k: nat, n: Name) returns (w': World)
    requires Scene(cfg, w) && s < MAX_CLIENTS && w.clients[s] == StartOf(cfg, s) && Holds0(cfg, s, n)
    requires k < |cfg.tasks[s]| && cfg.tasks[s][k].name == n && n in cfg.source && Known(cfg, n) > 0
    requires Tracker.Shares(Client.Kind(cfg.build, true, cfg.tasks[s][k].share, 2))
    ensures Scene(cfg, w') && w'.clients == w.clients[s := w'.clients[s]] && w.net <= w'.net
    ensures Serving(cfg, n, w'.clients[s]) && Sharing(w'.tracker, n, s) && SizeKnown(w'.tracker, n)
  {
    hide Scene, Ticked, ItemOf, Heard, Serving, Sharing, SizeKnown;
    SceneConfig(cfg, w);
    var w1, st;
    w', w1, st := FirstHeard(cfg, w, s, k);
    StartServing(cfg, s, k, n);
    StartNames(cfg, s, k);
    HeldItem(cfg, s, st, k);
    HeardKeeps(w.tracker, s, Low(ItemOf(cfg.build, st, k)), cfg.ports[s], n);
  }

  lemma {:induction false} StartNames(cfg: Config, c: nat, k: nat)
    requires ConfigOk(cfg) && c < MAX_CLIENTS && k < |cfg.tasks[c]|
    ensures var d := StartOf(cfg, c).downloads[k]; d.name == cfg.tasks[c][k].name && d.share == cfg.tasks[c][k].share
  {
  }

  // ---------- the downloader is told ----------

  /** How client l stands before its first tick. */
  lemma {:induction false} StartWants(cfg: Config, l: nat, k: nat, n: Name)
    requires ConfigOk(cfg) && l < MAX_CLIENTS && FirstTask(cfg, l, k, n) && !Holds0(cfg, l, n)
    ensures n in cfg.source
    ensures var st := StartOf(cfg, l);
      var st1 := st.(downloads := st.downloads[k := st.downloads[k].(enabled := true)]);
      Wants(Ticked(st1), k, n) && Ticked(st1) == st1.(updates := 1, progress := 1) && st1.downloads[k].numSegs == 0
      && ItemOf(cfg.build, st1, k).name == n
      && ItemOf(cfg.build, st1, k).kind == Client.Kind(cfg.build, false, cfg.tasks[l][k].share, 2)
  {
    EnabledFirst(cfg, l, k);
    StartNamed(cfg, l);
    NotHeldAtStart(cfg, l, n);
    StartIdle(cfg, l);
    StartNames(cfg, l, k);
    NotDoneAtStart(cfg, l, k);
    hide StartOf, Client.Step, ItemOf;
    TickedWants(cfg.build, StartOf(cfg, l), k, n);
  }

  lemma {:induction false} StartIdle(cfg: Config, l: nat)
    requires ConfigOk(cfg) && l < MAX_CLIENTS
    ensures forall d <- StartOf(cfg, l).downloads :: d.done || d.numSegs == 0
  {
    var st := StartOf(cfg, l);
    forall j | 0 <= j < |st.downloads|
      ensures st.downloads[j].done || st.downloads[j].numSegs == 0
    {
      assert st.downloads[j] == Client.NewDownload(st.owned, cfg.tasks[l][j]);
    }
  }

  lemma {:induction false} NotDoneAtStart(cfg: Config, l: nat, k: nat)
    requires ConfigOk(cfg) && l < MAX_CLIENTS && k < |cfg.tasks[l]|
    requires Client.OwnedFor(StartOf(cfg, l).owned, cfg.tasks[l][k].name) == |StartOf(cfg, l).owned|
    ensures var d := StartOf(cfg, l).downloads[k]; !d.done && d.numSegs == 0 && d.filesize == 0
  {
    assert StartOf(cfg, l).downloads[k] == Client.NewDownload(StartOf(cfg, l).owned, cfg.tasks[l][k]);
  }

  lemma {:induction false} TickedWants(build: Build, st: Client.State, k: nat, n: Name)
    requires st.status.Running? && st.updates == st.progress == 0 && st.disk == [] && k < |st.downloads|
    requires st.downloads[k].name == n && (forall j :: 0 <= j < k ==> st.downloads[j].name != n) && !st.downloads[k].done
    requires Client.OwnedFor(st.owned, n) == |st.owned| && st.downloads[k].numSegs == 0
    requires forall d <- st.downloads :: d.done || d.numSegs == 0
    requires OnlyEnabled(st.downloads[k := st.downloads[k].(enabled := true)], k)
    ensures var st1 := st.(downloads := st.downloads[k := st.downloads[k].(enabled := true)]);
      && Ticked(st1) == st1.(updates := 1, progress := 1) && Wants(Ticked(st1), k, n)
      && ItemOf(build, st1, k) == Item(n, st.downloads[k].filesize, Client.Kind(build, false, st.downloads[k].share, 2))
  {
    hide Client.OwnedFor, Client.Kind;
    var ds := st.downloads[k := st.downloads[k].(enabled := true)];
    assert Client.AnnounceAll(st.owned, ds) == ds;
  }

  lemma {:induction false} NotHeldAtStart(cfg: Config, l: nat, n: Name)
    requires ConfigOk(cfg) && l < MAX_CLIENTS && n in cfg.source && !Holds0(cfg, l, n)
    ensures Client.OwnedFor(StartOf(cfg, l).owned, n) == |StartOf(cfg, l).owned|
  {
    hide Filled, Origin;
    StartOk(cfg, l);
    var st := StartOf(cfg, l);
    if Client.OwnedFor(st.owned, n) < |st.owned| {
      OwnedForFinds(cfg, l, st.downloads, st.owned, n);
      assert |st.owned| == |cfg.files[l]|;
      OwnedEntryIsWanted(cfg, l, st.downloads, st.owned, Client.OwnedFor(st.owned, n), n);
      assert false;
    }
  }

  /** What the tracker says of a file whose size it knows. */
  lemma {:induction false} AssignmentTells(cfg: Config, t: Tracker.State, n: Name)
    requires ConfigOk(cfg) && TrackerOk(cfg, t) && SizeKnown(t, n) && n in cfg.source
    ensures var f := Tracker.Assignment(t.addrs, t.groups, n);
      && f.name == n && f.size == Known(cfg, n) > 0 && EntryOk(cfg, f)
      && forall j :: Sharing(t, n, j) ==> j in Client.Ids(f.peers)
  {
    hide PrefixFree, Origin, MayShare, HasTask;
    var i := Tracker.GroupFor(t.groups, n);
    assert TrackedOk(cfg, t.addrs, t.groups[i]);
    AssignmentOk(cfg, t.addrs, t.groups, n);
    var f := Tracker.Assignment(t.addrs, t.groups, n);
    forall j | Sharing(t, n, j)
      ensures j in Client.Ids(f.peers)
    {
      assert MayShare(cfg, j, n) && Knows(t.addrs, j);
      MayShareIsClient(cfg, j, n);
      var p := SharerIsListed(t.addrs, t.groups[i].sharing, MAX_CLIENTS, j);
    }
  }

  lemma {:induction false} MayShareIsClient(cfg: Config, j: int, n: Name)
    requires MayShare(cfg, j, n)
    ensures 0 <= j < MAX_CLIENTS
  {
  }

  lemma {:induction false} SharerIsListed(addrs: seq<Peer>, sharing: set<int>, m: nat, j: nat) returns (p: Peer)
    requires j in sharing && Knows(addrs, j) && j < m
    ensures p in Tracker.SharersOf(addrs, sharing, m) && p.id == j
  {
    if j == m - 1 {
      p := Peer(j, addrs[Client.IndexOfId(addrs, j)].port);
    } else {
      p := SharerIsListed(addrs, sharing, m - 1, j);
    }
  }

  /** Download d once the size of its file has come in. */
  function Sized(d: Client.Download, size: nat): Client.Download {
    d.(filesize := size, numSegs := NumSegments(size), have := Client.HavePrefix(0), rawInit := true, raw := Zeros(size))
  }

  lemma {:induction false} LearnsFile(cfg: Config, l: nat, st: Client.State, k: nat, n: Name, f: FileEntry)
    requires ConfigOk(cfg) && l < MAX_CLIENTS && LocalOk(cfg, l, st) && n in cfg.source
    requires Wants(st, k, n) && st.downloads[k].numSegs == 0 && f.name == n && f.size != 0 && EntryOk(cfg, f)
    ensures var st' := Client.OnAssign(st, [f]);
      && st' == st.(downloads := st.downloads[k := Sized(st.downloads[k], f.size)], addrs := st'.addrs, groups := st'.groups)
      && Wants(st', k, n)
      && forall j <- Client.Ids(f.peers) :: j in Client.Neighbors(st'.groups, n)
  {
    hide PrefixFree, Filled, Origin, Client.LearnPeers, Client.Ids, PeerOk;
    assert [f][..0] == [];
    assert Client.OnAssign(st, []) == st;
    var st' := Client.OnEntry(st, f);
    assert Client.OnAssign(st, [f]) == st';
    FindsFirst(cfg, l, st.downloads, k, n);
    assert DownloadOk(cfg, l, st.downloads[k]);
    LearnsSharers(cfg, st.groups, f);
  }

  lemma {:induction false} LearnsSharers(cfg: Config, groups: seq<Client.Group>, f: FileEntry)
    requires ConfigOk(cfg) && NamesOk(cfg, groups) && f.name in cfg.source
    ensures forall j <- Client.Ids(f.peers) :: j in Client.Neighbors(Client.LearnGroup(groups, f), f.name)
  {
    hide Client.Ids, Client.Neighbors;
    var groups' := Client.LearnGroup(groups, f);
    var i := Client.GroupFor(groups, f.name);
    if i < |groups| { MatchesIsEquality(cfg, groups[i].name, f.name); }
    forall j | j in Client.Ids(f.peers)
      ensures j in Client.Neighbors(groups', f.name)
    {
      assert Client.Matches(f.name, groups'[i].name) && j in groups'[i].sharing;
      Ticks.NeighborsIff(groups', f.name, j);
    }
  }

  /** Whoever the tracker has down as sharing the file is listed in these groups. */
  ghost predicate AllListed(t: Tracker.State, n: Name, groups: seq<Client.Group>) {
    forall j :: Sharing(t, n, j) ==> j in Client.Neighbors(groups, n)
  }

  /** Client l, idle so far, is told of the file and all its sharers. */
  lemma {:induction false} Told(cfg: Config, w: World, l: nat, k: nat, n: Name) returns (w': World)
    requires Scene(cfg, w) && l < MAX_CLIENTS && w.clients[l] == StartOf(cfg, l) && FirstTask(cfg, l, k, n)
    requires !Holds0(cfg, l, n) && SizeKnown(w.tracker, n)
    ensures n in cfg.source && Scene(cfg, w') && w'.clients == w.clients[l := w'.clients[l]] && w.net <= w'.net
    ensures var st := w'.clients[l];
      && Wants(st, k, n)
      && st.downloads[k] == Sized(StartOf(cfg, l).downloads[k].(enabled := true), Known(cfg, n)) && Known(cfg, n) > 0
      && AllListed(w.tracker, n, st.groups)
    ensures SizeKnown(w'.tracker, n) && forall j :: Sharing(w.tracker, n, j) ==> Sharing(w'.tracker, n, j)
  {
    hide Scene, Ticked, ItemOf, Heard, Sharing, SizeKnown, Tracker.Assignment, StartOf, Client.OnAssign, TrackerOk, LocalOk, EntryOk;
    hide Client.Neighbors, Client.Ids, Wants, ConfigOk;
    SceneConfig(cfg, w);
    var w1, w2, st;
    w2, w1, st := FirstHeard(cfg, w, l, k);
    EnabledFirst(cfg, l, k);
    StartWants(cfg, l, k, n);
    StartNames(cfg, l, k);
    var x := Low(ItemOf(cfg.build, st, k));
    HeardKeeps(w.tracker, l, x, cfg.ports[l], n);
    SceneOk(cfg, w2);
    var t := w2.tracker;
    AssignmentTells(cfg, t, n);
    var f := Tracker.Assignment(t.addrs, t.groups, n);
    assert LowFiles([f]) == [f];
    LearnsFile(cfg, l, w2.clients[l], k, n, f);
    RunningWants(w2.clients[l], k, n);
    w' := Arrival(cfg, w2, l, Packet(cfg.trackerPort, cfg.ports[l], GroupAssign([f])));
    assert AllListed(w.tracker, n, w'.clients[l].groups);
    assert w2.clients[l].downloads[k] == StartOf(cfg, l).downloads[k].(enabled := true);
  }

  lemma {:induction false} RunningWants(st: Client.State, k: nat, n: Name)
    requires Wants(st, k, n)
    ensures st.status.Running? && k < |st.downloads| && st.downloads[k].name == n && !st.downloads[k].done && st.disk == []
  {
  }

  // ---------- the downloader finds a source ----------

  /** All but the sources of download k and the addresses are as before. */
  ghost predicate SameButSource(st: Client.State, st': Client.State, k: nat) {
    && k < |st.downloads| == |st'.downloads|
    && st' == st.(downloads := st.downloads[k := st.downloads[k].(source := st'.downloads[k].source)], addrs := st'.addrs)
  }

  /** Every segment of the file is to be had from j. */
  ghost predicate AllFrom(cfg: Config, d: Client.Download, n: Name, j: int)
    requires n in cfg.source
  {
    |d.source| == MAX_SEGMENTS && forall i :: 0 <= i < NumSegments(Known(cfg, n)) && i < MAX_SEGMENTS ==> d.source[i] == j
  }

  lemma {:induction false} HearsSource(cfg: Config, l: nat, st: Client.State, k: nat, n: Name, j: int, m: nat, from: int)
    requires ConfigOk(cfg) && l < MAX_CLIENTS && LocalOk(cfg, l, st) && n in cfg.source && Wants(st, k, n)
    requires NumSegments(Known(cfg, n)) <= m
    ensures var st' := Client.OnInfoRep(st, j, n, Client.UpTo(m), from);
      SameButSource(st, st', k) && Wants(st', k, n) && AllFrom(cfg, st'.downloads[k], n, j)
  {
    hide PrefixFree, Filled, Origin, Client.LearnSender;
    FindsFirst(cfg, l, st.downloads, k, n);
    assert DownloadOk(cfg, l, st.downloads[k]);
    var segs := Client.UpTo(m);
    forall i | 0 <= i < m
      ensures i in segs
    {
      assert segs[i] == i;
    }
  }

  /** Client l asks j, whom it knows to share the file, for the segments it has. */
  lemma {:induction false} Asks(cfg: Config, w: World, j: nat, l: nat, k: nat, n: Name) returns (w': World)
    requires Scene(cfg, w) && j < MAX_CLIENTS && l < MAX_CLIENTS && j != l && n in cfg.source
    requires Wants(w.clients[l], k, n) && w.clients[l].downloads[k].filesize != 0
    requires j in Client.Neighbors(w.clients[l].groups, n)
    ensures Scene(cfg, w') && w'.clients == w.clients && w'.tracker == w.tracker && w.net <= w'.net
    ensures Packet(cfg.ports[l], cfg.ports[j], InfoReq(l, n)) in w'.net
  {
    hide Scene, Client.AskInfo, Client.Neighbors, DownloadsOk, OwnedOk, DoneOk, DiskOk, GroupsOk, NamesOk, AddrsOk;
    SceneConfig(cfg, w);
    SceneOk(cfg, w);
    var st := w.clients[l];
    assert LocalOk(cfg, l, st);
    Ticks.NeighborsOk(cfg, l, st.groups, st.addrs, n);
    SendPortOk(cfg, st.addrs, j);
    Ticks.NeighborsIff(st.groups, n, j);
    var o := Client.Out(cfg.ports[j], InfoReq(l, n));
    assert Ticks.AskedOf(st, k, j, o);
    Ticks.AskInfoIff(st, |st.downloads|, o);
    w' := Locally(cfg, w, l, Client.InfoTick);
    assert w.clients[l := st] == w.clients;
  }

  lemma {:induction false} TellsSegments(cfg: Config, j: nat, st: Client.State, n: Name, cid: int, from: int)
    requires ConfigOk(cfg) && j < MAX_CLIENTS && LocalOk(cfg, j, st) && n in cfg.source && Client.OwnedAs(st.owned, n) < |st.owned|
    ensures var (st', outs) := Client.OnInfoReq(st, cid, n, from);
      SameButAddrs(st, st') && outs == [Client.Out(from, InfoRep(j, n, Client.UpTo(EntryOf(st, n).numSegs)))]
    ensures NumSegments(Known(cfg, n)) <= EntryOf(st, n).numSegs
  {
    EntryCovers(cfg, j, st, n);
  }

  lemma {:induction false} StillServing(cfg: Config, n: Name, st: Client.State, st': Client.State)
    requires n in cfg.source && Serving(cfg, n, st) && SameButAddrs(st, st')
    ensures Serving(cfg, n, st') && EntryOf(st', n) == EntryOf(st, n)
    ensures forall fp :: Client.Bytes(st', fp) == Client.Bytes(st, fp)
  {
  }

  /** Client l learns that j has all segments. */
  lemma {:induction false} FindsSource(cfg: Config, w: World, j: nat, l: nat, k: nat, n: Name) returns (w': World)
    requires Scene(cfg, w) && j < MAX_CLIENTS && l < MAX_CLIENTS && j != l && n in cfg.source
    requires Serving(cfg, n, w.clients[j]) && Wants(w.clients[l], k, n) && w.clients[l].downloads[k].filesize != 0
    requires j in Client.Neighbors(w.clients[l].groups, n)
    ensures Scene(cfg, w') && w'.clients == w.clients[j := w'.clients[j]][l := w'.clients[l]] && w'.tracker == w.tracker && w.net <= w'.net
    ensures SameButAddrs(w.clients[j], w'.clients[j])
    ensures SameButSource(w.clients[l], w'.clients[l], k) && Wants(w'.clients[l], k, n) && AllFrom(cfg, w'.clients[l].downloads[k], n, j)
  {
    hide Scene, Client.Neighbors, LocalOk, TrackerOk, ConfigOk, Client.OnInfoReq, Client.OnInfoRep, AllFrom, Client.OwnedAs;
    SceneConfig(cfg, w);
    SceneOk(cfg, w);
    var w1 := Asks(cfg, w, j, l, k, n);
    TellsSegments(cfg, j, w1.clients[j], n, l, cfg.ports[l]);
    var w2 := Arrival(cfg, w1, j, Packet(cfg.ports[l], cfg.ports[j], InfoReq(l, n)));
    var m := EntryOf(w1.clients[j], n).numSegs;
    var o := Client.Out(cfg.ports[l], InfoRep(j, n, Client.UpTo(m)));
    assert o in [o];
    HearsSource(cfg, l, w2.clients[l], k, n, j, m, cfg.ports[j]);
    w' := Arrival(cfg, w2, l, Packet(cfg.ports[j], cfg.ports[l], o.msg));
  }

  // ---------- a segment is fetched ----------

  lemma {:induction false} FirstMissing(i: nat, m: nat)
    requires m <= MAX_SEGMENTS
    ensures var missing := Client.Missing(Client.HavePrefix(i), m);
      if i < m then |missing| > 0 && missing[0] == i else missing == []
  {
    if m > 0 { FirstMissing(i, m - 1); }
  }

  lemma {:induction false} RequestsNext(st: Client.State, d: Client.Download, missing: seq<nat>, at: nat, count: nat)
    requires |missing| > 0 && missing[0] < |d.source| && d.source[missing[0]] != MAX_CLIENTS && count > 0
    ensures Client.Out(Client.SendPort(st.addrs, d.source[missing[0]]), SegReq(st.id, d.name, missing[0])) in
      Client.Requests(st, d, missing, [], at, count)
  {
    assert Client.Drawn(missing, [], at + count - 1) == missing[0];
  }

  /** With all others idle a planning tick is the turn of download k. */
  lemma {:induction false} OnlyTurn(build: Build, st: Client.State, k: nat, m: nat)
    requires k < |st.downloads| && m <= |st.downloads| && OthersIdle(st.downloads, k)
    ensures Client.PlanAll(build, st, m, [], []) == if m <= k then (st, []) else Client.Plan(build, st, k, [], [])
  {
    hide Client.Missing, Client.Requests, Client.OwnedFor;
    if m > 0 {
      OnlyTurn(build, st, k, m - 1);
      var r := Client.PlanAll(build, st, m - 1, [], []);
      assert r.1 + [] == r.1 && [] + Client.Plan(build, st, k, [], []).1 == Client.Plan(build, st, k, [], []).1;
      if m - 1 > k {
        assert r.0.downloads[m - 1] == st.downloads[m - 1];
      }
    }
  }

  /** Client l plans: with segments i and following missing, it asks for i. */
  lemma {:induction false} PlansNext(cfg: Config, l: nat, st: Client.State, k: nat, n: Name, i: nat)
    requires ConfigOk(cfg) && l < MAX_CLIENTS && LocalOk(cfg, l, st) && n in cfg.source && Wants(st, k, n)
    requires st.downloads[k].numSegs != 0 && st.downloads[k].have == Client.HavePrefix(i) && i < NumSegments(Known(cfg, n))
    requires |st.downloads[k].source| == MAX_SEGMENTS && i < MAX_SEGMENTS && st.downloads[k].source[i] != MAX_CLIENTS
    ensures var (st', outs) := Client.Step(cfg.build, st, Client.SegmentTick([], []));
      st' == st && Client.Out(Client.SendPort(st.addrs, st.downloads[k].source[i]), SegReq(l, n, i)) in outs
  {
    hide PrefixFree, Filled, Origin, Client.Missing, Client.Requests, Client.OwnedFor, Client.SendPort, OwnedOk, DoneOk, DiskOk;
    var d := st.downloads[k];
    assert DownloadOk(cfg, l, d);
    Progress.UndoneIsNotOwned(cfg, l, st, k);
    OnlyTurn(cfg.build, st, k, |st.downloads|);
    NumSegmentsMonotone(Known(cfg, n), Len(cfg, n));
    FirstMissing(i, d.numSegs);
    var missing := Client.Missing(d.have, d.numSegs);
    RequestsNext(st, d, missing, Client.MAX_REQUESTS * k, Min(Client.MAX_REQUESTS, |missing|));
  }

  /** ... and the request is on its way to the source. */
  lemma {:induction false} Requests(cfg: Config, w: World, l: nat, k: nat, n: Name, j: nat, i: nat) returns (w': World)
    requires Scene(cfg, w) && l < MAX_CLIENTS && j < MAX_CLIENTS && n in cfg.source && Wants(w.clients[l], k, n)
    requires var d := w.clients[l].downloads[k];
      d.numSegs != 0 && d.have == Client.HavePrefix(i) && AllFrom(cfg, d, n, j)
    requires i < NumSegments(Known(cfg, n)) && i < MAX_SEGMENTS
    ensures Scene(cfg, w') && w'.clients == w.clients && w'.tracker == w.tracker && w.net <= w'.net
    ensures Packet(cfg.ports[l], cfg.ports[j], SegReq(l, n, i)) in w'.net
  {
    hide Scene, Client.Step, Client.HavePrefix, Wants, ConfigOk, LocalOk, TrackerOk;
    SceneConfig(cfg, w);
    SceneOk(cfg, w);
    RunningWants(w.clients[l], k, n);
    PlansNext(cfg, l, w.clients[l], k, n, i);
    SourcePort(cfg, w, l, k, i);
    w' := Locally(cfg, w, l, Client.SegmentTick([], []));
    assert w.clients[l := w.clients[l]] == w.clients;
  }

  lemma {:induction false} SourcePort(cfg: Config, w: World, l: nat, k: nat, i: nat)
    requires Scene(cfg, w) && l < MAX_CLIENTS && k < |w.clients[l].downloads| && i < |w.clients[l].downloads[k].source|
    requires 0 <= w.clients[l].downloads[k].source[i] < MAX_CLIENTS
    ensures Client.SendPort(w.clients[l].addrs, w.clients[l].downloads[k].source[i]) == cfg.ports[w.clients[l].downloads[k].source[i]]
  {
    hide Reached, PrefixFree, Filled, Origin;
    ReachedOk(cfg, w);
    var st := w.clients[l];
    assert RoutesOk(cfg, w.clients, st.downloads, st.addrs);
    assert SourceOk(cfg, w.clients, st.addrs, st.downloads[k].name, st.downloads[k].source[i]);
    assert LocalOk(cfg, l, st);
    SendPortOk(cfg, st.addrs, st.downloads[k].source[i]);
  }

  /** The answer of a serving client, if the size it has stored fits the buffer. */
  function AnswerOf(st: Client.State, j: nat, n: Name, i: nat): Msg
    requires Client.OwnedAs(st.owned, n) < |st.owned| && i < |EntryOf(st, n).sizes| && EntryOf(st, n).sizes[i] >= 0
  {
    var fi := EntryOf(st, n);
    SegRep(j, n, i, fi.sizes[i], Client.CopyOut(Client.Bytes(st, fi.fp), SEGMENT_SIZE * i, fi.sizes[i], []))
  }

  lemma {:induction false} ServesNext(cfg: Config, j: nat, st: Client.State, n: Name, i: nat, cid: int, from: int)
    requires n in cfg.source && Serving(cfg, n, st) && st.id == j && i < NumSegments(Known(cfg, n)) && i < MAX_SEGMENTS
    requires i < |EntryOf(st, n).sizes|
    ensures var (st', outs) := Client.OnSegReq(st, cid, n, i, from, []);
      if 0 <= EntryOf(st, n).sizes[i] <= SEGMENT_SIZE then
        SameButAddrs(st, st') && outs == [Client.Out(from, AnswerOf(st, j, n, i))]
      else st'.status.Crashed?
  {
    hide Client.CopyOut, Client.LearnSender, Client.OwnedAs, Client.DownloadFor;
  }

  /** Client l requests segment i from j, and j answers. */
  lemma {:induction false} Obtains(cfg: Config, w: World, j: nat, l: nat, k: nat, n: Name, i: nat) returns (w': World)
    requires Scene(cfg, w) && l < MAX_CLIENTS && j < MAX_CLIENTS && l != j && n in cfg.source
    requires Serving(cfg, n, w.clients[j]) && Wants(w.clients[l], k, n)
    requires var d := w.clients[l].downloads[k];
      d.numSegs != 0 && d.have == Client.HavePrefix(i) && AllFrom(cfg, d, n, j)
    requires i < NumSegments(Known(cfg, n)) && i < MAX_SEGMENTS
    requires i < |EntryOf(w.clients[j], n).sizes| && 0 <= EntryOf(w.clients[j], n).sizes[i] <= SEGMENT_SIZE
    ensures Scene(cfg, w') && w'.clients == w.clients[j := w'.clients[j]] && w'.tracker == w.tracker && w.net <= w'.net
    ensures SameButAddrs(w.clients[j], w'.clients[j])
    ensures Packet(cfg.ports[j], cfg.ports[l], AnswerOf(w.clients[j], j, n, i)) in w'.net
  {
    hide Scene, Client.HavePrefix, Wants, ConfigOk, TrackerOk, AnswerOf, Client.OnSegReq, Client.OwnedAs, AllFrom;
    hide DownloadsOk, OwnedOk, DoneOk, DiskOk, GroupsOk, NamesOk, AddrsOk;
    SceneConfig(cfg, w);
    SceneOk(cfg, w);
    var w1 := Requests(cfg, w, l, k, n, j, i);
    assert LocalOk(cfg, j, w.clients[j]);
    ServesNext(cfg, j, w.clients[j], n, i, l, cfg.ports[l]);
    w' := Arrival(cfg, w1, j, Packet(cfg.ports[l], cfg.ports[j], SegReq(l, n, i)));
    var o := Client.Out(cfg.ports[l], AnswerOf(w.clients[j], j, n, i));
    assert o in [o];
  }

  /** The request that brings j down. */
  lemma {:induction false} BringsDown(cfg: Config, w: World, j: nat, l: nat, k: nat, n: Name, i: nat) returns (w1: World, w': World)
    requires Scene(cfg, w) && l < MAX_CLIENTS && j < MAX_CLIENTS && l != j && n in cfg.source
    requires Serving(cfg, n, w.clients[j]) && Wants(w.clients[l], k, n)
    requires var d := w.clients[l].downloads[k];
      d.numSegs != 0 && d.have == Client.HavePrefix(i) && AllFrom(cfg, d, n, j)
    requires i < NumSegments(Known(cfg, n)) && i < MAX_SEGMENTS
    requires i < |EntryOf(w.clients[j], n).sizes| && !(0 <= EntryOf(w.clients[j], n).sizes[i] <= SEGMENT_SIZE)
    ensures Scene(cfg, w1) && w1.clients == w.clients && Packet(cfg.ports[l], cfg.ports[j], SegReq(l, n, i)) in w1.net
    ensures Scene(cfg, w') && w'.clients[j].status.Crashed?
  {
    hide Scene, Client.HavePrefix, Wants, ConfigOk, TrackerOk, Client.OnSegReq, Client.OwnedAs, AllFrom;
    hide DownloadsOk, OwnedOk, DoneOk, DiskOk, GroupsOk, NamesOk, AddrsOk;
    SceneConfig(cfg, w);
    SceneOk(cfg, w);
    w1 := Requests(cfg, w, l, k, n, j, i);
    assert LocalOk(cfg, j, w.clients[j]);
    ServesNext(cfg, j, w.clients[j], n, i, l, cfg.ports[l]);
    w' := Arrival(cfg, w1, j, Packet(cfg.ports[l], cfg.ports[j], SegReq(l, n, i)));
  }

  // ---------- a segment is applied ----------

  /** All but download k, and others of the same file, is as before. */
  lemma {:induction false} Applies(cfg: Config, l: nat, st: Client.State, k: nat, n: Name, j: int, seg: nat, data: seq<byte>, from: int)
    requires ConfigOk(cfg) && l < MAX_CLIENTS && LocalOk(cfg, l, st) && n in cfg.source && Wants(st, k, n) && seg < MAX_SEGMENTS
    ensures var st' := Client.OnSegRep(st, j, n, seg, |data|, data, from);
      && Wants(st', k, n) && st'.downloads[k] == Client.ApplyReply(st.downloads[k], seg, data)
      && st'.groups == st.groups && st'.owned == st.owned
  {
    hide PrefixFree, Filled, Origin, Client.LearnSender, Client.CopyIn, OwnedOk, DoneOk;
    assert Client.Matches(st.downloads[k].name, n);
  }

  /** All segments are there: the next tick finishes the download. */
  lemma {:induction false} Finishes(cfg: Config, w: World, l: nat, k: nat, n: Name) returns (w': World)
    requires Scene(cfg, w) && l < MAX_CLIENTS && n in cfg.source && Wants(w.clients[l], k, n)
    requires w.clients[l].downloads[k].numSegs != 0
    requires w.clients[l].downloads[k].have == Client.HavePrefix(NumSegments(Known(cfg, n)))
    ensures Scene(cfg, w') && w'.clients == w.clients[l := Client.Finish(cfg.build, w.clients[l], k, [])]
    ensures w'.tracker == w.tracker && w.net <= w'.net
  {
    hide Scene, PrefixFree, Filled, Origin, Client.Missing, Client.Requests, Client.OwnedFor, Client.Finish, OwnedOk, DoneOk, DiskOk, TrackerOk;
    SceneConfig(cfg, w);
    SceneOk(cfg, w);
    var st := w.clients[l];
    assert LocalOk(cfg, l, st);
    var d := st.downloads[k];
    assert DownloadOk(cfg, l, d);
    Progress.UndoneIsNotOwned(cfg, l, st, k);
    NumSegmentsMonotone(Known(cfg, n), Len(cfg, n));
    FirstMissing(NumSegments(Known(cfg, n)), d.numSegs);
    OnlyTurn(cfg.build, st, k, |st.downloads|);
    assert Client.Plan(cfg.build, st, k, [], []) == (Client.Finish(cfg.build, st, k, []), []);
    w' := Locally(cfg, w, l, Client.SegmentTick([], []));
  }
}
