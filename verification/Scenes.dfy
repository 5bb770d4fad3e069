/** Single moves from which runs are put together, in any configuration: what a client does on its
    own, an interest reaching the tracker, a datagram reaching a client. */
module Scenes {
  import opened Basics
  import opened Wire
  import opened Segments
  import opened Swarm
  import opened Invariant
  import opened Tables
  import opened Reachable
  import Client
  import Tracker
  import Safety

  /** A reachable world in which the tracker is up. */
  ghost predicate Scene(cfg: Config, w: World) {
    ConfigOk(cfg) && Reached(cfg, w) && w.tracker.running && |w.clients| == MAX_CLIENTS
  }

  /** The same bytes behind every packet. */
  function Behind(b: byte): (mem: seq<byte>)
    ensures |mem| == 43 + 32768 && forall i :: 0 <= i < |mem| ==> mem[i] == b
  {
    Repeat(43 + 32768, b)
  }

  lemma {:induction false} Beginning(cfg: Config) returns (w: World)
    requires ConfigOk(cfg)
    ensures Init(cfg, w) && Scene(cfg, w)
  {
    w := World(seq(MAX_CLIENTS, c requires 0 <= c < MAX_CLIENTS => StartOf(cfg, c)), Tracker.State([], [], true), {});
    assert Run(cfg, w, []) == w;
  }

  lemma {:induction false} SceneOk(cfg: Config, w: World)
    requires Scene(cfg, w)
    ensures Inv(cfg, w)
    ensures forall c :: 0 <= c < MAX_CLIENTS ==> LocalOk(cfg, c, w.clients[c])
    ensures TrackerOk(cfg, w.tracker)
  {
    hide LocalOk, TrackerOk, Reached;
    ReachedOk(cfg, w);
  }

  // ---------- moves ----------

  /** Client c has moved to st, and sent these. */
  ghost predicate Moved(cfg: Config, w: World, w': World, c: nat, st: Client.State, outs: seq<Client.Out>)
    requires ConfigOk(cfg) && c < MAX_CLIENTS
  {
    && |w.clients| == MAX_CLIENTS && w'.clients == w.clients[c := st] && w'.tracker == w.tracker && w.net <= w'.net
    && forall o <- outs :: Packet(cfg.ports[c], o.port, o.msg) in w'.net
  }

  lemma {:induction false} Moves(cfg: Config, w: World, c: nat, input: Client.Input, s: Step) returns (w': World)
    requires Scene(cfg, w) && c < MAX_CLIENTS && Next(cfg, w, s) == ClientMoves(cfg, w, c, input)
    ensures Scene(cfg, w')
    ensures var (st, outs) := Client.Step(cfg.build, w.clients[c], input); Moved(cfg, w, w', c, st, outs)
  {
    hide Client.Step, Next, ConfigOk, Reached;
    w' := Next(cfg, w, s);
    ReachedStep(cfg, w, s);
  }

  lemma {:induction false} Locally(cfg: Config, w: World, c: nat, input: Client.Input) returns (w': World)
    requires Scene(cfg, w) && c < MAX_CLIENTS && !input.Receive?
    ensures Scene(cfg, w')
    ensures var (st, outs) := Client.Step(cfg.build, w.clients[c], input); Moved(cfg, w, w', c, st, outs)
  {
    hide Client.Step, ClientMoves, Reached;
    w' := Moves(cfg, w, c, input, Local(c, input));
  }

  /** A datagram other than a segment reaches a client. */
  lemma {:induction false} Arrival(cfg: Config, w: World, c: nat, p: Packet) returns (w': World)
    requires Scene(cfg, w) && c < MAX_CLIENTS && p in w.net && p.to == cfg.ports[c]
    requires w.clients[c].status.Running? && !p.msg.SegRep?
    ensures Scene(cfg, w')
    ensures var (st, outs) := Client.Handle(w.clients[c], Received(p.msg), p.from, []); Moved(cfg, w, w', c, st, outs)
  {
    hide Image, ReadClient, Client.Step, Client.Handle, Fits, ClientMoves, LocalOk, RoutesOk, PacketOk, TrackerOk, PrefixFree;
    ReachedOk(cfg, w);
    assert PacketOk(cfg, w.clients, p);
    Safety.PacketFits(cfg, w.clients, c, p);
    var mem := Image(p.msg) + Behind(0);
    ClientRoundTrip(p.msg, mem);
    ReceiveHandles(cfg.build, w.clients[c], mem, p.from, [], Received(p.msg));
    w' := Moves(cfg, w, c, Client.Receive(mem, p.from, []), Deliver(c, p, mem, []));
  }

  /** A segment reaches a client in this memory, and reads as r. */
  lemma {:induction false} SegmentArrival(cfg: Config, w: World, c: nat, p: Packet, mem: seq<byte>, r: Msg) returns (w': World)
    requires Scene(cfg, w) && c < MAX_CLIENTS && p in w.net && p.to == cfg.ports[c] && w.clients[c].status.Running?
    requires Sent(cfg.build, p.msg) <= mem && |mem| >= 43 + 32768 && ReadClient(mem) == Some(r) && r.SegRep?
    ensures Scene(cfg, w')
    ensures Moved(cfg, w, w', c, Client.OnSegRep(w.clients[c], r.cid, r.name, r.seg, r.size, r.data, p.from), [])
  {
    hide Sent, ReadClient, Client.Step, Client.OnSegRep, ClientMoves, Reached;
    ReceiveHandles(cfg.build, w.clients[c], mem, p.from, [], r);
    w' := Moves(cfg, w, c, Client.Receive(mem, p.from, []), Deliver(c, p, mem, []));
  }

  /** An interest reaches the tracker. */
  lemma {:induction false} InterestArrival(cfg: Config, w: World, p: Packet) returns (w': World)
    requires Scene(cfg, w) && p in w.net && p.to == cfg.trackerPort
    ensures p.msg.ShowInterest? && Scene(cfg, w') && w'.clients == w.clients && w.net <= w'.net
    ensures var (t, reply) := Tracker.OnInterest(w.tracker, p.msg.cid, LowItems(p.msg.items), p.from);
      w'.tracker == t && Packet(cfg.trackerPort, p.from, reply) in w'.net
  {
    hide Image, ReadInterest, Inv, Tracker.OnInterest, Reached, PrefixFree, LowItems, PacketOk, Sent;
    ReachedOk(cfg, w);
    InterestInFlight(cfg, w, p);
    var mem := Image(p.msg) + Behind(0);
    InterestRoundTrip(p.msg, mem);
    var s := ToTracker(p, mem);
    TrackerStepIs(cfg, w, p, mem);
    w' := Next(cfg, w, s);
    ReachedStep(cfg, w, s);
  }

  lemma {:induction false} InterestInFlight(cfg: Config, w: World, p: Packet)
    requires ConfigOk(cfg) && Inv(cfg, w) && p in w.net && p.to == cfg.trackerPort
    ensures p.msg.ShowInterest? && Fits(p.msg)
  {
    hide LocalOk, RoutesOk, TrackerOk, PrefixFree, ItemOk;
    assert PacketOk(cfg, w.clients, p);
    InterestFits(cfg, p.msg);
  }

  lemma {:induction false} TrackerStepIs(cfg: Config, w: World, p: Packet, mem: seq<byte>)
    requires w.tracker.running && p.to == cfg.trackerPort && Arrives(cfg, w, p, mem)
    requires ReadInterest(mem).Some? && ReadInterest(mem).value.ShowInterest?
    ensures var m := ReadInterest(mem).value;
      var (t, reply) := Tracker.OnInterest(w.tracker, m.cid, m.items, p.from);
      Next(cfg, w, ToTracker(p, mem)) == w.(tracker := t, net := w.net + {Packet(cfg.trackerPort, p.from, reply)}) && t.running
  {
    hide Arrives, ReadInterest, Tracker.NoteItems, Tracker.Assignments;
  }

  // ---------- a single announcement ----------

  ghost predicate OnlyEnabled(ds: seq<Client.Download>, k: nat) {
    k < |ds| && forall j :: 0 <= j < |ds| ==> (ds[j].enabled <==> j == k)
  }

  /** Every variable that is never initialised holds 2. */
  const TWOS: seq<int> := Repeat(MAX_FILES, 2)

  function ItemOf(build: Build, st: Client.State, k: nat): Item
    requires k < |st.downloads|
  {
    var d := st.downloads[k];
    Item(d.name, Client.Announce(st.owned, d).filesize, Client.Kind(build, Client.OwnedFor(st.owned, d.name) < |st.owned|, d.share, 2))
  }

  lemma {:induction false} OneItem(build: Build, st: Client.State, k: nat, m: nat)
    requires OnlyEnabled(st.downloads, k) && m <= |st.downloads| <= MAX_FILES
    ensures Client.ItemsFor(build, st.owned, st.downloads[..m], TWOS) == if k < m then [ItemOf(build, st, k)] else []
  {
    hide Client.Announce, Client.OwnedFor, Client.Kind;
    if m > 0 {
      OneItem(build, st, k, m - 1);
      assert st.downloads[..m][..m - 1] == st.downloads[..m - 1];
      assert TWOS[m - 1] == 2;
    }
  }

  ghost predicate MayTick(st: Client.State) {
    st.status.Running? && st.updates < 2 && st.progress < 4
  }

  function Ticked(st: Client.State): Client.State {
    st.(updates := st.updates + 1, progress := st.progress + 1, downloads := Client.AnnounceAll(st.owned, st.downloads))
  }

  lemma {:induction false} TickAnnounces(build: Build, st: Client.State, k: nat)
    requires MayTick(st) && OnlyEnabled(st.downloads, k) && |st.downloads| <= MAX_FILES
    ensures Client.Step(build, st, Client.InterestTick(TWOS)) ==
      (Ticked(st), [Client.Out(st.trackerPort, ShowInterest(st.id, [ItemOf(build, st, k)]))])
  {
    hide Client.AnnounceAll, Client.ItemsFor, ItemOf;
    OneItem(build, st, k, |st.downloads|);
    assert st.downloads[..|st.downloads|] == st.downloads;
    assert st.downloads[k] in st.downloads;
  }

  /** What the tracker makes of the announcement of one file. */
  function Heard(t: Tracker.State, cid: int, x: Item, from: int): Tracker.State {
    Tracker.State(Client.LearnPeer(t.addrs, Peer(cid, from)), Tracker.NoteItem(t.groups, cid, x), t.running)
  }

  function Low(x: Item): Item { x.(size := x.size % 65536) }

  lemma {:induction false} OneHeard(t: Tracker.State, cid: int, x: Item, from: int)
    ensures LowItems([x]) == [Low(x)]
    ensures var h := Heard(t, cid, Low(x), from);
      Tracker.OnInterest(t, cid, [Low(x)], from) == (h, GroupAssign([Tracker.Assignment(h.addrs, h.groups, x.name)]))
  {
    hide Tracker.NoteItem, Tracker.Assignment, Client.LearnPeer;
    var items := [Low(x)];
    assert items[..0] == [];
    assert Tracker.NoteItems(t.groups, cid, []) == t.groups;
    assert Tracker.NoteItems(t.groups, cid, items) == Tracker.NoteItem(t.groups, cid, Low(x));
    var h := Heard(t, cid, Low(x), from);
    var files := Tracker.Assignments(h.addrs, h.groups, items);
    assert files == [Tracker.Assignment(h.addrs, h.groups, items[0].name)];
    assert Tracker.OnInterest(t, cid, items, from) == (h, GroupAssign(files));
  }

  /** Client c announces its one enabled download. */
  lemma {:induction false} Announces(cfg: Config, w: World, c: nat, k: nat) returns (w': World)
    requires Scene(cfg, w) && c < MAX_CLIENTS && MayTick(w.clients[c]) && OnlyEnabled(w.clients[c].downloads, k)
    ensures Scene(cfg, w') && w'.tracker == w.tracker && w'.clients == w.clients[c := Ticked(w.clients[c])] && w.net <= w'.net
    ensures Packet(cfg.ports[c], cfg.trackerPort, ShowInterest(c, [ItemOf(cfg.build, w.clients[c], k)])) in w'.net
  {
    hide Client.Step, ItemOf, Ticked, Scene, DownloadOk, GroupsOk, OwnedOk, DoneOk, DiskOk, AddrsOk;
    SceneOk(cfg, w);
    assert Scene(cfg, w) ==> ConfigOk(cfg) by { SceneConfig(cfg, w); }
    var st := w.clients[c];
    assert LocalOk(cfg, c, st);
    TickAnnounces(cfg.build, st, k);
    w' := Locally(cfg, w, c, Client.InterestTick(TWOS));
    var o := Client.Out(st.trackerPort, ShowInterest(st.id, [ItemOf(cfg.build, st, k)]));
    assert o in [o];
  }

  lemma {:induction false} SceneConfig(cfg: Config, w: World)
    requires Scene(cfg, w)
    ensures ConfigOk(cfg) && |w.clients| == MAX_CLIENTS && w.tracker.running
  {
  }

  /** Client c announces its one enabled download, and the tracker takes it in and answers. */
  lemma {:induction false} IsHeard(cfg: Config, w: World, c: nat, k: nat) returns (w': World)
    requires Scene(cfg, w) && c < MAX_CLIENTS && MayTick(w.clients[c]) && OnlyEnabled(w.clients[c].downloads, k)
    ensures Scene(cfg, w') && w'.clients == w.clients[c := Ticked(w.clients[c])] && w.net <= w'.net
    ensures var x := ItemOf(cfg.build, w.clients[c], k);
      var t := Heard(w.tracker, c, Low(x), cfg.ports[c]);
      && w'.tracker == t
      && Packet(cfg.trackerPort, cfg.ports[c], GroupAssign([Tracker.Assignment(t.addrs, t.groups, x.name)])) in w'.net
  {
    hide Scene, ItemOf, Ticked, Heard, Tracker.OnInterest, Tracker.Assignment;
    SceneConfig(cfg, w);
    var w1 := Announces(cfg, w, c, k);
    var x := ItemOf(cfg.build, w.clients[c], k);
    OneHeard(w.tracker, c, x, cfg.ports[c]);
    w' := InterestArrival(cfg, w1, Packet(cfg.ports[c], cfg.trackerPort, ShowInterest(c, [x])));
  }

  // ---------- what the tracker then knows ----------

  /** The tracker has j down as sharing the file. */
  ghost predicate Sharing(t: Tracker.State, n: Name, j: int) {
    var i := Tracker.GroupFor(t.groups, n);
    i < |t.groups| && j in t.groups[i].sharing
  }

  ghost predicate SizeKnown(t: Tracker.State, n: Name) {
    var i := Tracker.GroupFor(t.groups, n);
    i < |t.groups| && t.groups[i].size != 0
  }

  lemma {:induction false} HeardKeeps(t: Tracker.State, cid: int, x: Item, from: int, n: Name)
    ensures var t' := Heard(t, cid, x, from);
      && (forall j :: Sharing(t, n, j) ==> Sharing(t', n, j))
      && (SizeKnown(t, n) ==> SizeKnown(t', n))
      && (x.name == n ==> Tracker.GroupFor(t'.groups, n) < |t'.groups|)
      && (x.name == n && Tracker.Shares(x.kind) ==> Sharing(t', n, cid))
      && (x.name == n && x.size != 0 ==> SizeKnown(t', n))
  {
    var t' := Heard(t, cid, x, from);
    var i, i' := Tracker.GroupFor(t.groups, n), Tracker.GroupFor(t'.groups, n);
    var e := Tracker.GroupFor(t.groups, x.name);
    assert forall j :: 0 <= j < |t.groups| ==> t'.groups[j].name == t.groups[j].name;
    assert x.name == n ==> t'.groups[e].name == n;
    assert i < |t.groups| || x.name == n ==> i' == i;
  }
}
