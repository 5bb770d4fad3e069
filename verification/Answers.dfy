/** What the tracker answers in runs: every name and address it needs is on file; and where the
    shipped createGroupAssignPkt, which looks at st_groups[i] for request i, goes wrong. */
module Answers {
  import opened Basics
  import opened Wire
  import opened Swarm
  import opened Invariant
  import opened Tables
  import opened Reachable
  import opened TrackerPacket
  import opened TrackerNode
  import opened Scenes
  import opened Runs
  import Client
  import Tracker
  import Fetching

  /** What handling the interest m from port makes of the databases and the requests. */
  ghost predicate ReadyToAnswer(t: Tracker.State, m: Msg, port: int)
    requires m.ShowInterest?
  {
    var t' := Tracker.OnInterest(t, m.cid, m.items, port).0;
    && Recorded(t'.addrs, t'.groups, NamesOf(m.items))
    && Tracker.Distinct(t'.groups)
    && |m.items| <= MAX_FILES
  }

  lemma {:induction false} InterestReads(cfg: Config, w: World, p: Packet, mem: seq<byte>)
    requires ConfigOk(cfg) && Inv(cfg, w) && p.to == cfg.trackerPort && Arrives(cfg, w, p, mem)
    ensures p.msg.ShowInterest? && PacketOk(cfg, w.clients, p)
    ensures ReadInterest(mem) == Some(ShowInterest(p.msg.cid, LowItems(p.msg.items)))
  {
    assert PacketOk(cfg, w.clients, p);
    InterestFits(cfg, p.msg);
    InterestRoundTrip(p.msg, mem);
  }

  lemma {:induction false} TrackedIsRecorded(cfg: Config, addrs: seq<Peer>, groups: seq<Tracker.Group>, names: seq<Name>)
    requires ConfigOk(cfg) && forall g <- groups :: TrackedOk(cfg, addrs, g)
    requires forall i :: 0 <= i < |names| ==> names[i] in cfg.source && Tracker.GroupFor(groups, names[i]) < |groups|
    ensures Recorded(addrs, groups, names)
  {
    hide TrackedOk, Client.IndexOfId, Tracker.GroupFor, ConfigOk;
    forall i, j {:trigger j in groups[i].sharing} | 0 <= i < |groups| && j in groups[i].sharing
      ensures 0 <= j < MAX_CLIENTS && Client.IndexOfId(addrs, j) < |addrs|
    {
      assert groups[i] in groups;
      TrackedSharer(cfg, addrs, groups[i], j);
    }
    forall i | 0 <= i < |names|
      ensures IsName(names[i])
    {
      SourceNames(cfg, names[i]);
    }
  }

  lemma {:induction false} TrackedSharer(cfg: Config, addrs: seq<Peer>, g: Tracker.Group, j: int)
    requires TrackedOk(cfg, addrs, g) && j in g.sharing
    ensures 0 <= j < MAX_CLIENTS && Client.IndexOfId(addrs, j) < |addrs|
  {
  }

  lemma {:induction false} SourceNames(cfg: Config, n: Name)
    requires ConfigOk(cfg) && n in cfg.source
    ensures IsName(n)
  {
  }

  /** By the time the answer is built, every requested name and every sharer's address is on
      file: the two passes agree in every run. */
  lemma {:induction false} InterestIsRecorded(cfg: Config, w: World, p: Packet, mem: seq<byte>)
    requires ConfigOk(cfg) && Reached(cfg, w) && p.to == cfg.trackerPort && Arrives(cfg, w, p, mem)
    ensures ReadInterest(mem).Some? && ReadInterest(mem).value.ShowInterest?
    ensures ReadyToAnswer(w.tracker, ReadInterest(mem).value, p.from)
  {
    hide Reached, Inv, Arrives;
    ReachedOk(cfg, w);
    InterestReads(cfg, w, p, mem);
    TrackerHolds(cfg, w);
    InterestNoted(cfg, w.clients, w.tracker, p);
  }

  lemma {:induction false} TrackerHolds(cfg: Config, w: World)
    requires ConfigOk(cfg) && Inv(cfg, w)
    ensures TrackerOk(cfg, w.tracker)
  {
  }

  lemma {:induction false} InterestNoted(cfg: Config, clients: seq<Client.State>, t: Tracker.State, p: Packet)
    requires ConfigOk(cfg) && TrackerOk(cfg, t) && p.msg.ShowInterest? && PacketOk(cfg, clients, p)
    ensures ReadyToAnswer(t, ShowInterest(p.msg.cid, LowItems(p.msg.items)), p.from)
  {
    hide Tracker.GroupFor, Tracker.NoteItems, TrackedOk, ItemOk, Recorded;
    var cid, items := p.msg.cid, LowItems(p.msg.items);
    var addrs := Client.LearnPeer(t.addrs, Peer(cid, p.from));
    LearnPeerOk(cfg, t.addrs, Peer(cid, p.from));
    forall g | g in t.groups
      ensures TrackedOk(cfg, addrs, g)
    {
      TrackedGrows(cfg, t.addrs, addrs, g);
    }
    LowItemsOk(cfg, cid, p.msg.items);
    NoteItemsOk(cfg, addrs, t.groups, cid, items);
    var groups, names := Tracker.NoteItems(t.groups, cid, items), NamesOf(items);
    forall i | 0 <= i < |names|
      ensures names[i] in cfg.source && Tracker.GroupFor(groups, names[i]) < |groups|
    {
      assert items[i] in items;
      ItemNamed(cfg, cid, items[i]);
    }
    TrackedIsRecorded(cfg, addrs, groups, names);
  }

  lemma {:induction false} ItemNamed(cfg: Config, cid: int, x: Item)
    requires ItemOk(cfg, cid, x)
    ensures x.name in cfg.source
  {
  }

  /** The files of the packet are those of the swarm's reply. */
  lemma {:induction false} FilesAreTheReply(t: Tracker.State, m: Msg, port: int)
    requires m.ShowInterest?
    ensures var (t', reply) := Tracker.OnInterest(t, m.cid, m.items, port);
      reply == GroupAssign(Files(t'.addrs, t'.groups, NamesOf(m.items), 0))
  {
    var (t', reply) := Tracker.OnInterest(t, m.cid, m.items, port);
    FilesAreAssignments(t'.addrs, t'.groups, m.items, NamesOf(m.items), 0);
    var all := Tracker.Assignments(t'.addrs, t'.groups, m.items);
    assert all[0..] == all;
  }

  // ---------- the shipped index ----------

  /** An interest arrives at the tracker. */
  ghost predicate Asked(cfg: Config, w: World, p: Packet, mem: seq<byte>) {
    ConfigOk(cfg) && Reached(cfg, w) && w.tracker.running && p.to == cfg.trackerPort && Arrives(cfg, w, p, mem)
  }

  /** What the shipped code writes behind the header is what the answer should hold. */
  ghost predicate RightPacket(cfg: Config, w: World, p: Packet, mem: seq<byte>)
    requires ReadInterest(mem).Some? && ReadInterest(mem).value.ShowInterest?
  {
    var m := ReadInterest(mem).value;
    var t, names := Tracker.OnInterest(w.tracker, m.cid, m.items, p.from).0, NamesOf(m.items);
    InBuffer(FillFrom(Shipped, t.addrs, t.groups, names, 0), SizePass(t.groups, names, |names|)) ==
      Entries(Files(t.addrs, t.groups, names, 0))
  }

  lemma {:induction false} RightIff(cfg: Config, w: World, p: Packet, mem: seq<byte>)
    requires Asked(cfg, w, p, mem)
    ensures ReadInterest(mem).Some? && ReadInterest(mem).value.ShowInterest?
    ensures var m := ReadInterest(mem).value;
      var t, names := Tracker.OnInterest(w.tracker, m.cid, m.items, p.from).0, NamesOf(m.items);
      && Recorded(t.addrs, t.groups, names)
      && (RightPacket(cfg, w, p, mem) <==> forall k :: 0 <= k < |names| ==> Harmless(t.addrs, t.groups, names, k))
  {
    hide Reached, Recorded, Harmless, Tracker.OnInterest, FillFrom, SizePass, Files, InBuffer, Arrives, ReadInterest, NamesOf;
    InterestIsRecorded(cfg, w, p, mem);
    var m := ReadInterest(mem).value;
    var t := Tracker.OnInterest(w.tracker, m.cid, m.items, p.from).0;
    ShippedPacketIsRightIff(t.addrs, t.groups, NamesOf(m.items));
  }

  // ---------- where it does no harm ----------

  /** No task is for a file its client starts with or offers: there is never anything to tell. */
  ghost predicate NothingToTell(cfg: Config) {
    forall c, n :: HasTask(cfg, c, n) ==> !OffersTask(cfg, c, n) && !Holds0(cfg, c, n)
  }

  /** All tasks are for one file, and no client has two of them. */
  ghost predicate OneFile(cfg: Config) {
    && (forall c :: 0 <= c < |cfg.tasks| ==> |cfg.tasks[c]| <= 1)
    && (forall c, d, m, n :: HasTask(cfg, c, m) && HasTask(cfg, d, n) ==> m == n)
  }

  lemma {:induction false} NothingIsTold(cfg: Config, t: Tracker.State, g: Tracker.Group)
    requires ConfigOk(cfg) && cfg.build.Shipped? && NothingToTell(cfg) && TrackedOk(cfg, t.addrs, g)
    ensures g.size == 0 && g.sharing == {}
  {
    hide PrefixFree, NothingToTell;
    forall j
      ensures j !in g.sharing
    {
      NobodyMayShare(cfg, j, g.name);
    }
    if g.size != 0 { NoOrigin(cfg, g.name); }
  }

  lemma {:induction false} NobodyMayShare(cfg: Config, c: int, n: Name)
    requires cfg.build.Shipped? && NothingToTell(cfg)
    ensures !MayShare(cfg, c, n)
  {
    if HasTask(cfg, c, n) {
      NoOrigin(cfg, n);
    }
  }

  lemma {:induction false} NoOrigin(cfg: Config, n: Name)
    requires NothingToTell(cfg)
    ensures !Origin(cfg, n)
  {
  }

  lemma {:induction false} NobodyShares(addrs: seq<Peer>, n: nat)
    ensures Count({}, n) == 0 && Tracker.SharersOf(addrs, {}, n) == []
  {
    if n > 0 { NobodyShares(addrs, n - 1); }
  }

  lemma {:induction false} UntoldIsHarmless(cfg: Config, t: Tracker.State, names: seq<Name>, k: nat)
    requires ConfigOk(cfg) && cfg.build.Shipped? && NothingToTell(cfg) && TrackerOk(cfg, t)
    requires Recorded(t.addrs, t.groups, names) && k < |names|
    ensures Harmless(t.addrs, t.groups, names, k)
  {
    hide TrackedOk, NothingToTell, PrefixFree, ConfigOk;
    forall i | 0 <= i < |t.groups|
      ensures t.groups[i].size == 0 && t.groups[i].sharing == {}
    {
      assert t.groups[i] in t.groups;
      NothingIsTold(cfg, t, t.groups[i]);
    }
    NobodyShares(t.addrs, MAX_CLIENTS);
  }

  lemma {:induction false} OneFileIsHarmless(cfg: Config, t: Tracker.State, names: seq<Name>, k: nat)
    requires ConfigOk(cfg) && OneFile(cfg) && TrackerOk(cfg, t) && Recorded(t.addrs, t.groups, names)
    requires k < |names| <= 1 && exists c :: HasTask(cfg, c, names[k])
    ensures Harmless(t.addrs, t.groups, names, k)
  {
    hide PrefixFree, MayShare, HasTask, AddrsOk;
    forall i | 0 <= i < |t.groups|
      ensures t.groups[i].name == names[k]
    {
      assert t.groups[i] in t.groups && TrackedOk(cfg, t.addrs, t.groups[i]);
    }
    assert Tracker.GroupFor(t.groups, names[k]) == 0;
  }

  /** The names asked for are those of tasks of the sender. */
  lemma {:induction false} AskedNames(cfg: Config, w: World, p: Packet, mem: seq<byte>)
    requires Asked(cfg, w, p, mem)
    ensures ReadInterest(mem).Some? && ReadInterest(mem).value.ShowInterest?
    ensures var m := ReadInterest(mem).value;
      && 0 <= m.cid < MAX_CLIENTS && |m.items| <= |cfg.tasks[m.cid]|
      && (forall i :: 0 <= i < |m.items| ==> HasTask(cfg, m.cid, m.items[i].name))
      && TrackerOk(cfg, Tracker.OnInterest(w.tracker, m.cid, m.items, p.from).0)
  {
    hide Reached, PrefixFree, LocalOk, RoutesOk, HasTask, MayShare, Origin, Tracker.OnInterest, TrackerOk;
    ReachedOk(cfg, w);
    InterestReads(cfg, w, p, mem);
    var items := p.msg.items;
    forall i | 0 <= i < |items|
      ensures HasTask(cfg, p.msg.cid, LowItems(items)[i].name)
    {
      assert items[i] in items && ItemOk(cfg, p.msg.cid, items[i]);
    }
    OnInterestOk(cfg, w.clients, w.tracker, p, LowItems(items));
  }

  lemma {:induction false} AlwaysRight(cfg: Config, w: World, p: Packet, mem: seq<byte>)
    requires Asked(cfg, w, p, mem) && cfg.build.Shipped? && (OneFile(cfg) || NothingToTell(cfg))
    ensures ReadInterest(mem).Some? && ReadInterest(mem).value.ShowInterest? && RightPacket(cfg, w, p, mem)
  {
    hide Asked, Harmless, Tracker.OnInterest, NothingToTell, OneFile, TrackerOk, HasTask, RightPacket, ReadInterest;
    AskedConfig(cfg, w, p, mem);
    AskedNames(cfg, w, p, mem);
    RightIff(cfg, w, p, mem);
    var m := ReadInterest(mem).value;
    var t, names := Tracker.OnInterest(w.tracker, m.cid, m.items, p.from).0, NamesOf(m.items);
    forall k | 0 <= k < |names|
      ensures Harmless(t.addrs, t.groups, names, k)
    {
      if NothingToTell(cfg) {
        UntoldIsHarmless(cfg, t, names, k);
      } else {
        OneFileMeans(cfg, m.cid);
        OneFileIsHarmless(cfg, t, names, k);
      }
    }
  }

  lemma {:induction false} AskedConfig(cfg: Config, w: World, p: Packet, mem: seq<byte>)
    requires Asked(cfg, w, p, mem)
    ensures ConfigOk(cfg)
  {
  }

  lemma {:induction false} OneFileMeans(cfg: Config, c: nat)
    requires ConfigOk(cfg) && OneFile(cfg) && c < MAX_CLIENTS
    ensures |cfg.tasks[c]| <= 1
  {
  }

  // ---------- where it does ----------

  lemma {:induction false} SomebodyCounts(sharing: set<int>, b: nat, n: nat)
    requires b in sharing && b < n
    ensures Count(sharing, n) > 0
  {
    if b < n - 1 { SomebodyCounts(sharing, b, n - 1); }
  }

  /** A request for a file that b shares meets another group. */
  ghost predicate Misses(t: Tracker.State, names: seq<Name>, k: nat, b: int) {
    k < |names| && Sharing(t, names[k], b) && GroupAt(t.groups, k).name != names[k]
  }

  lemma {:induction false} MissIsHarmful(t: Tracker.State, names: seq<Name>, k: nat, b: int)
    requires Recorded(t.addrs, t.groups, names) && Misses(t, names, k, b)
    ensures !Harmless(t.addrs, t.groups, names, k)
  {
    hide Count, Tracker.SharersOf;
    var i := Tracker.GroupFor(t.groups, names[k]);
    assert b in t.groups[i].sharing;
    assert Client.IndexOfId(t.addrs, b) < |t.addrs|;
    SomebodyCounts(t.groups[i].sharing, b, MAX_CLIENTS);
  }

  lemma {:induction false} WrongPacket(cfg: Config, w: World, p: Packet, items: seq<Item>, k: nat, b: int) returns (mem: seq<byte>)
    requires Scene(cfg, w) && p in w.net && p.to == cfg.trackerPort && p.msg.ShowInterest? && items == LowItems(p.msg.items)
    requires Misses(Tracker.OnInterest(w.tracker, p.msg.cid, items, p.from).0, NamesOf(items), k, b)
    ensures Asked(cfg, w, p, mem) && ReadInterest(mem).Some? && ReadInterest(mem).value.ShowInterest?
    ensures !RightPacket(cfg, w, p, mem)
  {
    hide Image, ReadInterest, Reached, Inv, PrefixFree, Sent, Tracker.OnInterest, Misses, Recorded, Harmless, RightPacket, LowItems, NamesOf;
    mem := Image(p.msg) + Behind(0);
    ReachedOk(cfg, w);
    InterestInFlight(cfg, w, p);
    InterestRoundTrip(p.msg, mem);
    assert Arrives(cfg, w, p, mem);
    RightIff(cfg, w, p, mem);
    MissIsHarmful(Tracker.OnInterest(w.tracker, p.msg.cid, items, p.from).0, NamesOf(items), k, b);
    MissIndexes(Tracker.OnInterest(w.tracker, p.msg.cid, items, p.from).0, NamesOf(items), k, b);
  }

  lemma {:induction false} MissIndexes(t: Tracker.State, names: seq<Name>, k: nat, b: int)
    requires Misses(t, names, k, b)
    ensures k < |names|
  {
  }

  /** Task k of client c tells of its file: the client offers it, or starts with it. */
  ghost predicate Tells(cfg: Config, c: nat, k: nat) {
    c < |cfg.tasks| && k < |cfg.tasks[c]| && (cfg.tasks[c][k].share != 0 || Holds0(cfg, c, cfg.tasks[c][k].name))
  }

  lemma {:induction false} ItemTells(cfg: Config, c: nat, st: Client.State, k: nat)
    requires ConfigOk(cfg) && cfg.build.Shipped? && c < MAX_CLIENTS && LocalOk(cfg, c, st) && k < |st.downloads|
    ensures k < |cfg.tasks[c]| && ItemOf(cfg.build, st, k).name == cfg.tasks[c][k].name
    ensures Tells(cfg, c, k) ==> Tracker.Shares(ItemOf(cfg.build, st, k).kind)
  {
    hide PrefixFree, Filled, Origin, Client.Kind;
    var d := st.downloads[k];
    assert DownloadOk(cfg, c, d) && cfg.tasks[c][k] == Client.Task(d.name, d.share);
    if Holds0(cfg, c, d.name) { InitialFound(cfg, c, st.downloads, st.owned, d.name); }
    if Tells(cfg, c, k) { Fetching.ShippedShares(Client.OwnedFor(st.owned, d.name) < |st.owned|, d.share); }
  }

  // ---------- two announcements in one packet ----------

  ghost predicate TwoEnabled(ds: seq<Client.Download>, i: nat, j: nat) {
    i < j < |ds| && forall q :: 0 <= q < |ds| ==> (ds[q].enabled <==> q == i || q == j)
  }

  lemma {:induction false} TwoItems(build: Build, st: Client.State, i: nat, j: nat, m: nat)
    requires TwoEnabled(st.downloads, i, j) && m <= |st.downloads| <= MAX_FILES
    ensures Client.ItemsFor(build, st.owned, st.downloads[..m], TWOS) ==
      if m <= i then [] else if m <= j then [ItemOf(build, st, i)] else [ItemOf(build, st, i), ItemOf(build, st, j)]
  {
    hide Client.Announce, Client.OwnedFor, Client.Kind;
    if m > 0 {
      TwoItems(build, st, i, j, m - 1);
      assert st.downloads[..m][..m - 1] == st.downloads[..m - 1];
      assert TWOS[m - 1] == 2;
    }
  }

  lemma {:induction false} TickAnnouncesTwo(build: Build, st: Client.State, i: nat, j: nat)
    requires MayTick(st) && TwoEnabled(st.downloads, i, j) && |st.downloads| <= MAX_FILES
    ensures Client.Step(build, st, Client.InterestTick(TWOS)).1 ==
      [Client.Out(st.trackerPort, ShowInterest(st.id, [ItemOf(build, st, i), ItemOf(build, st, j)]))]
  {
    hide Client.AnnounceAll, Client.ItemsFor, ItemOf;
    TwoItems(build, st, i, j, |st.downloads|);
    assert st.downloads[..|st.downloads|] == st.downloads;
    assert st.downloads[i] in st.downloads;
  }

  /** Client c, idle so far, announces its task f, and then tasks i and j at once. */
  lemma {:induction false} AnnouncesTwo(cfg: Config, w: World, c: nat, i: nat, j: nat, f: nat) returns (w': World, p: Packet, x: Item, y: Item, z: Item)
    requires Scene(cfg, w) && cfg.build.Shipped? && c < MAX_CLIENTS && w.clients[c] == StartOf(cfg, c)
    requires i < j < |cfg.tasks[c]| && (f == i || f == j)
    ensures Scene(cfg, w') && p in w'.net && p == Packet(cfg.ports[c], cfg.trackerPort, ShowInterest(c, [x, y]))
    ensures w'.tracker == Heard(w.tracker, c, z, cfg.ports[c])
    ensures x.name == cfg.tasks[c][i].name && y.name == cfg.tasks[c][j].name && z.name == cfg.tasks[c][f].name
    ensures Tells(cfg, c, i) ==> Tracker.Shares(x.kind)
    ensures Tells(cfg, c, j) ==> Tracker.Shares(y.kind)
    ensures Tells(cfg, c, f) ==> Tracker.Shares(z.kind)
  {
    hide Scene, StartOf, ItemOf, Heard, Client.Step, Tracker.Assignment, LocalOk, TrackerOk, Tells, PrefixFree;
    SceneConfig(cfg, w);
    EnabledFirst(cfg, c, f);
    var w1, w2, st;
    w2, w1, st := FirstHeard(cfg, w, c, f);
    ItemTells(cfg, c, st, f);
    z := Low(ItemOf(cfg.build, st, f));
    var o := if f == i then j else i;
    var w3 := Locally(cfg, w2, c, Client.Enable(o));
    SecondEnabled(cfg.build, st, f, o);
    var st3 := w3.clients[c];
    SceneOk(cfg, w3);
    TaskCount(cfg, c, st3);
    TickAnnouncesTwo(cfg.build, st3, i, j);
    w' := Locally(cfg, w3, c, Client.InterestTick(TWOS));
    x, y := ItemOf(cfg.build, st3, i), ItemOf(cfg.build, st3, j);
    var out := Client.Out(st3.trackerPort, ShowInterest(st3.id, [x, y]));
    assert out in [out];
    p := Packet(cfg.ports[c], out.port, out.msg);
    ItemTells(cfg, c, st3, i);
    ItemTells(cfg, c, st3, j);
  }

  lemma {:induction false} TaskCount(cfg: Config, c: nat, st: Client.State)
    requires ConfigOk(cfg) && c < MAX_CLIENTS && LocalOk(cfg, c, st)
    ensures |st.downloads| == |cfg.tasks[c]| <= MAX_FILES && st.id == c && st.trackerPort == cfg.trackerPort
  {
  }

  lemma {:induction false} SecondEnabled(build: Build, st: Client.State, f: nat, o: nat)
    requires st.updates == st.progress == 0 && st.status.Running? && OnlyEnabled(st.downloads, f) && o < |st.downloads| && o != f
    ensures var st' := Client.Step(build, Ticked(st), Client.Enable(o)).0;
      MayTick(st') && TwoEnabled(st'.downloads, if f < o then f else o, if f < o then o else f)
  {
    var ds := Client.AnnounceAll(st.owned, st.downloads);
    assert forall q :: 0 <= q < |ds| ==> ds[q].enabled == st.downloads[q].enabled;
  }

  lemma {:induction false} TwoNoted(groups: seq<Tracker.Group>, c: int, x: Item, y: Item)
    ensures LowItems([x, y]) == [Low(x), Low(y)] && NamesOf([Low(x), Low(y)]) == [x.name, y.name]
    ensures Tracker.NoteItems(groups, c, [Low(x), Low(y)]) == Tracker.NoteItem(Tracker.NoteItem(groups, c, Low(x)), c, Low(y))
  {
    hide Tracker.NoteItem;
    var items := [Low(x), Low(y)];
    assert items[..1] == [Low(x)] && items[..1][..0] == [];
    assert Tracker.NoteItems(groups, c, []) == groups;
    assert Tracker.NoteItems(groups, c, [Low(x)]) == Tracker.NoteItem(groups, c, Low(x));
    assert NamesOf(items)[0] == x.name && NamesOf(items)[1] == y.name;
  }

  // ---------- the three ways to miss ----------

  /** A group keeps its place and name, and a new one goes to the end. */
  lemma {:induction false} PlacesStay(groups: seq<Tracker.Group>, cid: int, x: Item)
    ensures var r := Tracker.NoteItem(groups, cid, x);
      && |groups| <= |r| <= |groups| + 1
      && (forall i :: 0 <= i < |groups| ==> r[i].name == groups[i].name)
      && (|r| == |groups| <==> Tracker.GroupFor(groups, x.name) < |groups|)
      && (|r| > |groups| ==> r[|groups|].name == x.name)
  {
  }

  /** Another client's file comes first. */
  lemma {:induction false} MissesAfterOther(cfg: Config, a: nat, i: nat, b: nat, j: nat) returns (w: World, p: Packet, mem: seq<byte>)
    requires ConfigOk(cfg) && cfg.build.Shipped? && a < MAX_CLIENTS && b < MAX_CLIENTS && a != b
    requires i < |cfg.tasks[a]| && Tells(cfg, b, j) && cfg.tasks[a][i].name != cfg.tasks[b][j].name
    ensures Asked(cfg, w, p, mem) && ReadInterest(mem).Some? && ReadInterest(mem).value.ShowInterest? && !RightPacket(cfg, w, p, mem)
  {
    hide Scene, StartOf, ItemOf, LocalOk, PrefixFree, Tracker.Assignment, Asked, RightPacket, ReadInterest, Ticked;
    var w0 := Beginning(cfg);
    var w1, u, st;
    w1, u, st := FirstHeard(cfg, w0, a, i);
    EnabledFirst(cfg, a, i);
    ItemTells(cfg, a, st, i);
    var w2, st2;
    w2, w, st2 := FirstHeard(cfg, w1, b, j);
    EnabledFirst(cfg, b, j);
    ItemTells(cfg, b, st2, j);
    var x, y := Low(ItemOf(cfg.build, st, i)), ItemOf(cfg.build, st2, j);
    p := Packet(cfg.ports[b], cfg.trackerPort, ShowInterest(b, [y]));
    OneHeard(w1.tracker, b, y, cfg.ports[b]);
    HeardKeeps(w1.tracker, b, Low(y), cfg.ports[b], y.name);
    PlacesStay([], a, x);
    PlacesStay(w1.tracker.groups, b, Low(y));
    assert NamesOf([Low(y)])[0] == y.name;
    mem := WrongPacket(cfg, w, p, [Low(y)], 0, b);
  }

  /** What the tracker has after one file and then two more, or the same again, were announced. */
  lemma {:induction false} AfterTwo(t1: Tracker.State, c: int, x: Item, y: Item, from: int, name: Name, b: int)
    requires x.name == name || y.name == name
    requires Sharing(t1, name, b) || (b == c && Tracker.Shares(if x.name == name then x.kind else y.kind))
    requires |t1.groups| == 1 && t1.groups[0].name == y.name
    ensures var t := Tracker.OnInterest(t1, c, [Low(x), Low(y)], from).0;
      && Sharing(t, name, b) && |t.groups| == (if x.name == y.name then 1 else 2)
      && t.groups[0].name == y.name && (x.name != y.name ==> t.groups[1].name == x.name)
  {
    hide Tracker.NoteItem, Sharing;
    var t2 := Heard(t1, c, Low(x), from);
    var t3 := Heard(t2, c, Low(y), from);
    HeardKeeps(t1, c, Low(x), from, name);
    HeardKeeps(t2, c, Low(y), from, name);
    TwoNoted(t1.groups, c, x, y);
    var t := Tracker.OnInterest(t1, c, [Low(x), Low(y)], from).0;
    assert t.groups == t3.groups;
    SharingIsOfGroups(t, t3, name, b);
    PlacesStay(t1.groups, c, Low(x));
    PlacesStay(t2.groups, c, Low(y));
  }

  lemma {:induction false} SharingIsOfGroups(t: Tracker.State, t': Tracker.State, n: Name, b: int)
    requires t.groups == t'.groups
    ensures Sharing(t, n, b) == Sharing(t', n, b)
  {
  }

  /** A client tells of two files, in the other order the second time; e is one of them. */
  lemma {:induction false} MissesSwapped(cfg: Config, c: nat, i: nat, j: nat, e: nat) returns (w: World, p: Packet, mem: seq<byte>)
    requires ConfigOk(cfg) && cfg.build.Shipped? && c < MAX_CLIENTS && i < j < |cfg.tasks[c]| && cfg.tasks[c][i].name != cfg.tasks[c][j].name
    requires (e == i || e == j) && Tells(cfg, c, e)
    ensures Asked(cfg, w, p, mem) && ReadInterest(mem).Some? && ReadInterest(mem).value.ShowInterest? && !RightPacket(cfg, w, p, mem)
  {
    hide Scene, StartOf, PrefixFree, Asked, RightPacket, ReadInterest, Tells, Heard, Tracker.OnInterest, Sharing;
    var w0 := Beginning(cfg);
    var x, y, z;
    w, p, x, y, z := AnnouncesTwo(cfg, w0, c, i, j, j);
    FirstGroup(w0.tracker, c, z, cfg.ports[c]);
    AfterTwo(w.tracker, c, x, y, cfg.ports[c], cfg.tasks[c][e].name, c);
    TwoNoted([], c, x, y);
    mem := WrongPacket(cfg, w, p, [Low(x), Low(y)], if e == i then 0 else 1, c);
  }

  lemma {:induction false} FirstGroup(t0: Tracker.State, c: int, z: Item, from: int)
    requires t0.groups == []
    ensures var t := Heard(t0, c, z, from);
      |t.groups| == 1 && t.groups[0].name == z.name && (Tracker.Shares(z.kind) ==> Sharing(t, z.name, c))
  {
    HeardKeeps(t0, c, z, from, z.name);
    PlacesStay(t0.groups, c, z);
  }

  /** The same file again. */
  lemma {:induction false} SameGroup(t0: Tracker.State, c: int, z: Item, from: int, b: int)
    requires |t0.groups| == 1 && t0.groups[0].name == z.name && Sharing(t0, z.name, b)
    ensures var t := Heard(t0, c, z, from); |t.groups| == 1 && t.groups[0].name == z.name && Sharing(t, z.name, b)
  {
    HeardKeeps(t0, c, z, from, z.name);
    PlacesStay(t0.groups, c, z);
  }

  /** A client tells twice of one file, the first that anybody tells of. */
  lemma {:induction false} MissesTwice(cfg: Config, w0: World, c: nat, e: nat, o: nat, b: int) returns (w: World, p: Packet, mem: seq<byte>)
    requires Scene(cfg, w0) && cfg.build.Shipped? && c < MAX_CLIENTS && w0.clients[c] == StartOf(cfg, c)
    requires e < |cfg.tasks[c]| && o < |cfg.tasks[c]| && e != o && cfg.tasks[c][e].name == cfg.tasks[c][o].name
    requires (b == c && w0.tracker.groups == [] && Tells(cfg, c, e)) ||
      (|w0.tracker.groups| == 1 && w0.tracker.groups[0].name == cfg.tasks[c][e].name && Sharing(w0.tracker, cfg.tasks[c][e].name, b))
    ensures Asked(cfg, w, p, mem) && ReadInterest(mem).Some? && ReadInterest(mem).value.ShowInterest? && !RightPacket(cfg, w, p, mem)
  {
    hide Scene, StartOf, PrefixFree, Asked, RightPacket, ReadInterest, Tells, Heard, Tracker.OnInterest, Sharing;
    SceneConfig(cfg, w0);
    var x, y, z;
    w, p, x, y, z := AnnouncesTwo(cfg, w0, c, if e < o then e else o, if e < o then o else e, e);
    if w0.tracker.groups == [] {
      FirstGroup(w0.tracker, c, z, cfg.ports[c]);
    } else {
      SameGroup(w0.tracker, c, z, cfg.ports[c], b);
    }
    AfterTwo(w.tracker, c, x, y, cfg.ports[c], y.name, b);
    TwoNoted([], c, x, y);
    assert y.name in cfg.source;
    mem := WrongPacket(cfg, w, p, [Low(x), Low(y)], 1, b);
  }

  /** Client b announces its task j first of all. */
  lemma {:induction false} OneGroup(cfg: Config, b: nat, j: nat) returns (w: World)
    requires ConfigOk(cfg) && cfg.build.Shipped? && b < MAX_CLIENTS && Tells(cfg, b, j)
    ensures Scene(cfg, w) && |w.clients| == MAX_CLIENTS && forall c :: 0 <= c < MAX_CLIENTS && c != b ==> w.clients[c] == StartOf(cfg, c)
    ensures j < |cfg.tasks[b]| && |w.tracker.groups| == 1 && w.tracker.groups[0].name == cfg.tasks[b][j].name
    ensures Sharing(w.tracker, cfg.tasks[b][j].name, b)
  {
    hide Scene, StartOf, ItemOf, LocalOk, PrefixFree, Tracker.Assignment, Ticked, Sharing;
    var w0 := Beginning(cfg);
    var u, st;
    w, u, st := FirstHeard(cfg, w0, b, j);
    EnabledFirst(cfg, b, j);
    ItemTells(cfg, b, st, j);
    var x := Low(ItemOf(cfg.build, st, j));
    HeardKeeps(w0.tracker, b, x, cfg.ports[b], x.name);
    PlacesStay([], b, x);
  }

  /** In any configuration outside the two cases some run has the shipped tracker send a wrong
      packet. */
  lemma {:induction false} GoesWrong(cfg: Config) returns (w: World, p: Packet, mem: seq<byte>)
    requires ConfigOk(cfg) && cfg.build.Shipped? && !OneFile(cfg) && !NothingToTell(cfg)
    ensures Asked(cfg, w, p, mem) && ReadInterest(mem).Some? && ReadInterest(mem).value.ShowInterest? && !RightPacket(cfg, w, p, mem)
  {
    hide PrefixFree, Asked, RightPacket, ReadInterest, Scene, Sharing;
    var b, e := SomebodyTells(cfg);
    var y := cfg.tasks[b][e].name;
    if a: nat, i: nat :| a < MAX_CLIENTS && i < |cfg.tasks[a]| && cfg.tasks[a][i].name != y {
      if a != b {
        w, p, mem := MissesAfterOther(cfg, a, i, b, e);
      } else {
        w, p, mem := MissesSwapped(cfg, b, if i < e then i else e, if i < e then e else i, e);
      }
    } else {
      var c := SomebodyHasTwo(cfg, y);
      if c == b {
        var w0 := Beginning(cfg);
        var o := if e == 0 then 1 else 0;
        w, p, mem := MissesTwice(cfg, w0, b, e, o, b);
      } else {
        var w0 := OneGroup(cfg, b, e);
        w, p, mem := MissesTwice(cfg, w0, c, 0, 1, b);
      }
    }
  }

  lemma {:induction false} SomebodyTells(cfg: Config) returns (b: nat, e: nat)
    requires ConfigOk(cfg) && !NothingToTell(cfg)
    ensures b < MAX_CLIENTS && e < |cfg.tasks[b]| && Tells(cfg, b, e)
  {
    hide PrefixFree;
    var c, n :| HasTask(cfg, c, n) && (OffersTask(cfg, c, n) || Holds0(cfg, c, n));
    b := c;
    if OffersTask(cfg, c, n) {
      e :| 0 <= e < |cfg.tasks[b]| && cfg.tasks[b][e].name == n && cfg.tasks[b][e].share != 0;
    } else {
      e :| 0 <= e < |cfg.tasks[b]| && cfg.tasks[b][e].name == n;
    }
  }

  lemma {:induction false} SomebodyHasTwo(cfg: Config, y: Name) returns (c: nat)
    requires ConfigOk(cfg) && !OneFile(cfg)
    requires forall a: nat, i: nat :: a < MAX_CLIENTS && i < |cfg.tasks[a]| ==> cfg.tasks[a][i].name == y
    ensures c < MAX_CLIENTS && |cfg.tasks[c]| >= 2
  {
    hide PrefixFree;
    forall a, m | HasTask(cfg, a, m)
      ensures m == y
    {
      var i :| 0 <= i < |cfg.tasks[a]| && cfg.tasks[a][i].name == m;
    }
    var d :| 0 <= d < |cfg.tasks| && |cfg.tasks[d]| > 1;
    c := d;
  }

  /** The shipped tracker sends the right packet in all runs exactly if the tasks leave it nothing
      to tell, or are all for one file and no client has two. */
  lemma {:induction false} IndexIsRightIff(cfg: Config)
    requires ConfigOk(cfg) && cfg.build.Shipped?
    ensures (forall w, p, mem :: Asked(cfg, w, p, mem) ==>
        ReadInterest(mem).Some? && ReadInterest(mem).value.ShowInterest? && RightPacket(cfg, w, p, mem)) <==>
      OneFile(cfg) || NothingToTell(cfg)
  {
    hide Asked, RightPacket, ReadInterest, OneFile, NothingToTell, ConfigOk;
    if OneFile(cfg) || NothingToTell(cfg) {
      forall w, p, mem | Asked(cfg, w, p, mem)
        ensures ReadInterest(mem).Some? && ReadInterest(mem).value.ShowInterest? && RightPacket(cfg, w, p, mem)
      {
        AlwaysRight(cfg, w, p, mem);
      }
    } else {
      var w, p, mem := GoesWrong(cfg);
    }
  }
}
