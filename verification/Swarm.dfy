/** The whole system: a tracker, MAX_CLIENTS clients and a network that loses, duplicates,
    delays and reorders datagrams at will. */
module Swarm {
  import opened Basics
  import opened Wire
  import opened Segments
  import Client
  import Tracker

  /** What the manager hands out, the ports the sockets got, and the one content of each file. */
  datatype Config = Config(
    build: Build, ports: seq<int>, trackerPort: int,
    files: seq<seq<Name>>, tasks: seq<seq<Client.Task>>, source: map<Name, seq<byte>>)

  ghost predicate ConfigOk(cfg: Config) {
    && |cfg.ports| == |cfg.files| == |cfg.tasks| == MAX_CLIENTS
    && (forall i :: 0 <= i < MAX_CLIENTS ==> 0 <= cfg.ports[i] < 65536 && cfg.ports[i] != cfg.trackerPort)
    && (forall i, j :: 0 <= i < j < MAX_CLIENTS ==> cfg.ports[i] != cfg.ports[j])
    && (forall n :: n in cfg.source ==> IsName(n) && NumSegments(|cfg.source[n]|) <= MAX_SEGMENTS)
    && |cfg.source| <= MAX_FILES
    && PrefixFree(cfg)
    && (forall c, i, j :: 0 <= c < MAX_CLIENTS && 0 <= i < j < |cfg.files[c]| ==> cfg.files[c][i] != cfg.files[c][j])
    && (forall c, i :: 0 <= c < MAX_CLIENTS && 0 <= i < |cfg.files[c]| ==> cfg.files[c][i] in cfg.source)
    && (forall c, i :: 0 <= c < MAX_CLIENTS && 0 <= i < |cfg.tasks[c]| ==> cfg.tasks[c][i].name in cfg.source)
    && (forall c :: 0 <= c < MAX_CLIENTS ==> |cfg.tasks[c]| <= MAX_FILES)
  }

  /** No file name in play begins another one. */
  ghost predicate PrefixFree(cfg: Config) {
    forall a, b :: a in cfg.source && b in cfg.source && Client.Matches(a, b) ==> a == b
  }

  datatype Packet = Packet(from: int, to: int, msg: Msg)

  /** `net` holds every datagram ever sent: each may arrive any number of times, or never. */
  datatype World = World(clients: seq<Client.State>, tracker: Tracker.State, net: set<Packet>)

  function FilesOf(source: map<Name, seq<byte>>, names: seq<Name>): (r: seq<(Name, seq<byte>)>)
    ensures |r| == |names|
    ensures forall i :: 0 <= i < |r| ==> r[i] == (names[i], if names[i] in source then source[names[i]] else [])
  {
    if names == [] then [] else
      var n := names[|names| - 1];
      FilesOf(source, names[..|names| - 1]) + [(n, if n in source then source[n] else [])]
  }

  function StartOf(cfg: Config, c: nat): Client.State
    requires c < |cfg.files| && c < |cfg.tasks|
  {
    Client.Start(cfg.build, c, cfg.trackerPort, FilesOf(cfg.source, cfg.files[c]), cfg.tasks[c])
  }

  ghost predicate Init(cfg: Config, w: World) {
    && |w.clients| == MAX_CLIENTS == |cfg.files| == |cfg.tasks|
    && (forall c :: 0 <= c < MAX_CLIENTS ==> w.clients[c] == StartOf(cfg, c))
    && w.tracker == Tracker.State([], [], true)
    && w.net == {}
  }

  datatype Step =
    | Local(c: nat, input: Client.Input)
    | Deliver(c: nat, p: Packet, mem: seq<byte>, junk: seq<byte>)
    | ToTracker(p: Packet, mem: seq<byte>)
    | TrackerQuits

  /** The receiver's memory starts with the datagram; behind it is whatever was there before. */
  predicate Arrives(cfg: Config, w: World, p: Packet, mem: seq<byte>) {
    p in w.net && Sent(cfg.build, p.msg) <= mem && |mem| >= 43 + 32768
  }

  function Outgoing(from: int, outs: seq<Client.Out>): set<Packet> {
    set o <- outs :: Packet(from, o.port, o.msg)
  }

  function ClientMoves(cfg: Config, w: World, c: nat, input: Client.Input): World
    requires c < |w.clients| && c < |cfg.ports|
  {
    var (st, outs) := Client.Step(cfg.build, w.clients[c], input);
    w.(clients := w.clients[c := st], net := w.net + Outgoing(cfg.ports[c], outs))
  }

  function TrackerMoves(cfg: Config, w: World, p: Packet, mem: seq<byte>): World {
    match ReadInterest(mem)
    case None => w
    case Some(m) =>
      if !m.ShowInterest? then w else
        var (t, reply) := Tracker.OnInterest(w.tracker, m.cid, m.items, p.from);
        w.(tracker := t, net := w.net + {Packet(cfg.trackerPort, p.from, reply)})
  }

  /** One step; a step that cannot be taken changes nothing. */
  function Next(cfg: Config, w: World, s: Step): (w': World)
    ensures |w'.clients| == |w.clients|
  {
    match s
    case Local(c, input) =>
      if c < |w.clients| && c < |cfg.ports| && !input.Receive? then ClientMoves(cfg, w, c, input) else w
    case Deliver(c, p, mem, junk) =>
      if c < |w.clients| && c < |cfg.ports| && p.to == cfg.ports[c] && Arrives(cfg, w, p, mem) then
        ClientMoves(cfg, w, c, Client.Receive(mem, p.from, junk))
      else w
    case ToTracker(p, mem) =>
      if w.tracker.running && p.to == cfg.trackerPort && Arrives(cfg, w, p, mem) then TrackerMoves(cfg, w, p, mem) else w
    case TrackerQuits => w.(tracker := w.tracker.(running := false))
  }

  function Run(cfg: Config, w: World, steps: seq<Step>): (w': World)
    ensures |w'.clients| == |w.clients|
  {
    if steps == [] then w else Next(cfg, Run(cfg, w, steps[..|steps| - 1]), steps[|steps| - 1])
  }

  /** Some run leads to w. */
  ghost predicate Reached(cfg: Config, w: World) {
    |w.clients| == MAX_CLIENTS && exists w0, steps :: Init(cfg, w0) && Run(cfg, w0, steps) == w
  }
}
