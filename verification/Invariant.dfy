/** The inductive invariant of the swarm. */
module Invariant {
  import opened Basics
  import opened Wire
  import opened Segments
  import opened Swarm
  import Client
  import Tracker

  // ---------- about one file ----------

  function Len(cfg: Config, n: Name): nat
    requires n in cfg.source
  {
    |cfg.source[n]|
  }

  /** The size under which the network knows the file. */
  function Known(cfg: Config, n: Name): (t: nat)
    requires n in cfg.source
    ensures t <= Len(cfg, n) && t < 65536
  {
    WireSize(Len(cfg, n))
  }

  /** c starts with the file. */
  ghost predicate Holds0(cfg: Config, c: int, n: Name) {
    0 <= c < |cfg.files| && n in cfg.files[c]
  }

  ghost predicate HasTask(cfg: Config, c: int, n: Name) {
    0 <= c < |cfg.tasks| && exists i :: 0 <= i < |cfg.tasks[c]| && cfg.tasks[c][i].name == n
  }

  /** Some client starts with the file and announces it: without one nobody learns its size. */
  ghost predicate Origin(cfg: Config, n: Name) {
    exists s :: Holds0(cfg, s, n) && HasTask(cfg, s, n)
  }

  /** c is to download the file. */
  ghost predicate Fetches(cfg: Config, c: int, n: Name) {
    0 <= c < MAX_CLIENTS && HasTask(cfg, c, n) && !Holds0(cfg, c, n)
  }

  /** Several clients are to download the file. */
  ghost predicate Crowded(cfg: Config, n: Name) {
    exists l, m :: Fetches(cfg, l, n) && Fetches(cfg, m, n) && l != m
  }

  /** No shipped reply is so short that even its segment number is cut off, or the number cannot
      be mistaken for one of a segment that is carried. */
  ghost predicate Tame(cfg: Config, n: Name)
    requires n in cfg.source
  {
    cfg.build.Shipped? ==> TameSize(Len(cfg, n), Crowded(cfg, n))
  }

  /** A seeder's last segment is asked for only if the whole size went over the wire, and when its
      number is a multiple of 256 the byte that is left of it suffices. Only where several clients
      fetch the file is one of them asked for it. */
  predicate TameSize(size: nat, crowded: bool) {
    && (size < 65536 ==> LastSize(Shipped, size) >= 2 || (NumSegments(size) - 1) % 256 == 0)
    && (crowded && NumSegments(WireSize(size)) > 1 ==> !(0 <= DoneLastSize(Shipped, WireSize(size)) <= 1))
  }

  /** Which sizes these are. */
  lemma {:induction false} TameSizes(size: nat, crowded: bool)
    requires NumSegments(size) <= MAX_SEGMENTS
    ensures TameSize(size, crowded) <==>
      !(size < 65536 && size % SEGMENT_SIZE == 31 && size / SEGMENT_SIZE % 256 != 0)
      && !(crowded && (size % 65536 == 63581 || size % 65536 == 63582))
  {
    ShippedLastSize(size);
    var t := WireSize(size);
    var v := t - (SEGMENT_SIZE - NumSegments(t));
    assert Int16(v) == 0 <==> v == 0 || v == 65536;
    assert Int16(v) == 1 <==> v == 1 || v == 65537;
  }

  ghost predicate SizeOk(cfg: Config, n: Name, size: int)
    requires n in cfg.source
  {
    size == 0 || (size == Known(cfg, n) && Origin(cfg, n))
  }

  /** c has a task that offers to share the file. */
  ghost predicate SharesTask(cfg: Config, c: int, n: Name) {
    0 <= c < |cfg.tasks| && exists i :: 0 <= i < |cfg.tasks[c]| && cfg.tasks[c][i] == Client.Task(n, 1)
  }

  /** c has a task for the file whose share flag is not 0. */
  ghost predicate OffersTask(cfg: Config, c: int, n: Name) {
    0 <= c < |cfg.tasks| && exists i :: 0 <= i < |cfg.tasks[c]| && cfg.tasks[c][i].name == n && cfg.tasks[c][i].share != 0
  }

  ghost predicate Obtainable(cfg: Config, c: int, n: Name) {
    Holds0(cfg, c, n) || (n in cfg.source && Known(cfg, n) > 0 && Origin(cfg, n))
  }

  /** c may come to announce itself as sharing the file. In the shipped build it is enough to
      have a task for a file that is held from the start or can be obtained: the type that is
      then announced is never initialised. */
  ghost predicate MayShare(cfg: Config, c: int, n: Name) {
    && 0 <= c < MAX_CLIENTS
    && (cfg.build.Mended? ==> SharesTask(cfg, c, n))
    && (cfg.build.Shipped? ==> OffersTask(cfg, c, n) || (HasTask(cfg, c, n) && Obtainable(cfg, c, n)))
  }

  predicate CarriedByte(cfg: Config, n: Name, p: nat)
    requires n in cfg.source && NumSegments(Len(cfg, n)) <= MAX_SEGMENTS && p < Known(cfg, n)
  {
    Carried(cfg.build, Len(cfg, n), p)
  }

  /** An owner of the file stores this size for segment seg. */
  ghost predicate ServedSize(cfg: Config, n: Name, seg: int, size: int)
    requires ConfigOk(cfg) && n in cfg.source
  {
    0 <= seg < MAX_SEGMENTS && 0 <= size <= SEGMENT_SIZE &&
    (size == SeedSizes(cfg.build, Len(cfg, n))[seg] || (size == DoneSizes(cfg.build, Known(cfg, n))[seg] && Crowded(cfg, n)))
  }

  /** The data are the file's at every carried byte of segment seg. */
  ghost predicate TrueReply(cfg: Config, n: Name, seg: int, data: seq<byte>)
    requires ConfigOk(cfg) && n in cfg.source
  {
    Tame(cfg, n) ==> forall p: nat :: p < Known(cfg, n) && p / SEGMENT_SIZE == seg && CarriedByte(cfg, n, p) ==>
      p % SEGMENT_SIZE < |data| && data[p % SEGMENT_SIZE] == cfg.source[n][p]
  }

  /** The carried bytes of the segments in `have` are those of the file. */
  ghost predicate Filled(cfg: Config, n: Name, raw: seq<byte>, have: seq<bool>)
    requires ConfigOk(cfg) && n in cfg.source
  {
    && |raw| == Known(cfg, n)
    && |have| == MAX_SEGMENTS
    && (Tame(cfg, n) ==> forall p: nat :: p < |raw| && have[p / SEGMENT_SIZE] && CarriedByte(cfg, n, p) ==>
      raw[p] == cfg.source[n][p])
  }

  // ---------- about one client ----------

  /** A download of a file the client did not start with. */
  ghost predicate LeechOk(cfg: Config, d: Client.Download)
    requires ConfigOk(cfg) && d.name in cfg.source
  {
    && SizeOk(cfg, d.name, d.filesize)
    && (d.numSegs == 0 ==> d.filesize == 0 || d.done)
    && (d.numSegs != 0 ==>
      && d.filesize == Known(cfg, d.name) > 0
      && d.numSegs == NumSegments(d.filesize)
      && d.rawInit
      && Filled(cfg, d.name, d.raw, d.have))
  }

  ghost predicate DownloadOk(cfg: Config, c: nat, d: Client.Download)
    requires ConfigOk(cfg) && c < MAX_CLIENTS
  {
    && d.name in cfg.source
    && |d.have| == |d.source| == MAX_SEGMENTS && c !in d.source
    && (Holds0(cfg, c, d.name) ==> d.done && d.filesize == Len(cfg, d.name))
    && (!Holds0(cfg, c, d.name) ==> LeechOk(cfg, d))
  }

  ghost predicate DownloadsOk(cfg: Config, c: nat, ds: seq<Client.Download>)
    requires ConfigOk(cfg) && c < MAX_CLIENTS
  {
    && |ds| == |cfg.tasks[c]|
    && (forall k :: 0 <= k < |ds| ==>
      && DownloadOk(cfg, c, ds[k])
      && cfg.tasks[c][k] == Client.Task(ds[k].name, ds[k].share))
    && FirstOfName(cfg, c, ds)
  }

  /** Of several downloads of one file only the first comes to have segments. */
  ghost predicate FirstOfName(cfg: Config, c: nat, ds: seq<Client.Download>) {
    forall j, k :: 0 <= j < k < |ds| && ds[k].numSegs != 0 && !Holds0(cfg, c, ds[k].name) ==> ds[j].name != ds[k].name
  }

  /** Ids and ports pair up as configured, one entry for each client at most. */
  ghost predicate AddrsOk(cfg: Config, addrs: seq<Peer>)
    requires ConfigOk(cfg)
  {
    && (forall i :: 0 <= i < |addrs| ==> 0 <= addrs[i].id < MAX_CLIENTS && addrs[i].port == cfg.ports[addrs[i].id])
    && (forall i, j :: 0 <= i < j < |addrs| ==> addrs[i].id != addrs[j].id)
  }

  ghost predicate Knows(addrs: seq<Peer>, id: int) {
    Client.IndexOfId(addrs, id) < |addrs|
  }

  ghost predicate GroupOk(cfg: Config, c: int, g: Client.Group, addrs: seq<Peer>) {
    forall j :: j in g.sharing && j != c ==> MayShare(cfg, j, g.name) && Knows(addrs, j)
  }

  /** The clients listed as sharing, other than the client itself. */
  ghost predicate GroupsOk(cfg: Config, c: int, groups: seq<Client.Group>, addrs: seq<Peer>) {
    forall i :: 0 <= i < |groups| ==> GroupOk(cfg, c, groups[i], addrs)
  }

  /** One group for each file. */
  ghost predicate NamesOk(cfg: Config, groups: seq<Client.Group>) {
    && (forall i :: 0 <= i < |groups| ==> groups[i].name in cfg.source)
    && (forall i, j :: 0 <= i < j < |groups| ==> groups[i].name != groups[j].name)
  }

  /** An owned file that was downloaded shares the buffer of a finished download. */
  ghost predicate FinishedOk(cfg: Config, c: nat, ds: seq<Client.Download>, fi: Client.FileInfo)
    requires ConfigOk(cfg) && c < MAX_CLIENTS
  {
    && fi.fp.RawOf? && fi.fp.k < |ds|
    && var d := ds[fi.fp.k];
    && d.name in cfg.source && !Holds0(cfg, c, d.name)
    && Client.Matches(d.name, fi.name) && (cfg.build.Mended? ==> fi.name == d.name)
    && d.done && d.numSegs != 0
    && fi.size == d.filesize && fi.numSegs == d.numSegs
    && fi.sizes == DoneSizes(cfg.build, fi.size)
    && (forall s :: 0 <= s < d.numSegs && s < |d.have| ==> d.have[s])
  }

  function Seed(cfg: Config, n: Name): Client.FileInfo
    requires n in cfg.source
  {
    Client.Load(cfg.build, n, cfg.source[n])
  }

  ghost predicate OwnedOk(cfg: Config, c: nat, ds: seq<Client.Download>, owned: seq<Client.FileInfo>)
    requires ConfigOk(cfg) && c < MAX_CLIENTS
  {
    && |owned| >= |cfg.files[c]|
    && (forall i :: 0 <= i < |cfg.files[c]| ==> owned[i] == Seed(cfg, cfg.files[c][i]))
    && (forall i :: |cfg.files[c]| <= i < |owned| ==> FinishedOk(cfg, c, ds, owned[i]))
    && (forall i, j :: |cfg.files[c]| <= i < j < |owned| ==> owned[i].fp != owned[j].fp)
  }

  /** A finished download is in the table of owned files. */
  ghost predicate DoneOk(ds: seq<Client.Download>, owned: seq<Client.FileInfo>) {
    forall k :: 0 <= k < |ds| && ds[k].done ==> Client.OwnedFor(owned, ds[k].name) < |owned|
  }

  ghost predicate WrittenOk(cfg: Config, c: nat, n: Name, bytes: seq<byte>)
    requires ConfigOk(cfg)
  {
    && n in cfg.source && Fetches(cfg, c, n) && Known(cfg, n) > 0 && Origin(cfg, n)
    && Filled(cfg, n, bytes, Client.HavePrefix(MAX_SEGMENTS))
  }

  /** Written files are as good as the carried bytes allow, and no file is written twice. */
  ghost predicate DiskOk(cfg: Config, c: nat, disk: seq<(Name, seq<byte>)>, owned: seq<Client.FileInfo>)
    requires ConfigOk(cfg)
  {
    && (forall i :: 0 <= i < |disk| ==>
      WrittenOk(cfg, c, disk[i].0, disk[i].1) && Client.OwnedFor(owned, disk[i].0) < |owned|)
    && (forall i, j :: 0 <= i < j < |disk| ==> disk[i].0 != disk[j].0)
  }

  ghost predicate LocalOk(cfg: Config, c: nat, st: Client.State)
    requires ConfigOk(cfg) && c < MAX_CLIENTS
  {
    && st.id == c && st.trackerPort == cfg.trackerPort
    && DownloadsOk(cfg, c, st.downloads)
    && AddrsOk(cfg, st.addrs)
    && GroupsOk(cfg, c, st.groups, st.addrs)
    && NamesOk(cfg, st.groups)
    && OwnedOk(cfg, c, st.downloads, st.owned)
    && DoneOk(st.downloads, st.owned)
    && DiskOk(cfg, c, st.disk, st.owned)
  }

  // ---------- about the others ----------

  /** The client answers CLNT_INFO_REQ for the file. */
  ghost predicate Serves(st: Client.State, n: Name) {
    Client.OwnedAs(st.owned, n) < |st.owned|
  }

  /** Whoever a segment is to be asked from serves the file, and its port is known. */
  ghost predicate SourceOk(cfg: Config, clients: seq<Client.State>, addrs: seq<Peer>, n: Name, s: int) {
    s == MAX_CLIENTS || (0 <= s < |clients| && Serves(clients[s], n) && Knows(addrs, s) && MayShare(cfg, s, n))
  }

  ghost predicate RoutesOk(cfg: Config, clients: seq<Client.State>, ds: seq<Client.Download>, addrs: seq<Peer>) {
    forall k, i :: 0 <= k < |ds| && 0 <= i < |ds[k].source| ==>
      SourceOk(cfg, clients, addrs, ds[k].name, ds[k].source[i])
  }

  ghost predicate FromClient(cfg: Config, p: Packet, cid: int)
    requires ConfigOk(cfg)
  {
    0 <= cid < MAX_CLIENTS && p.from == cfg.ports[cid]
  }

  ghost predicate ToClient(cfg: Config, p: Packet)
    requires ConfigOk(cfg)
  {
    exists j :: 0 <= j < MAX_CLIENTS && p.to == cfg.ports[j]
  }

  /** Sent to a client that may be listed as sharing the file. */
  ghost predicate ToSharer(cfg: Config, p: Packet, n: Name)
    requires ConfigOk(cfg)
  {
    exists j :: 0 <= j < MAX_CLIENTS && p.to == cfg.ports[j] && MayShare(cfg, j, n)
  }

  /** Sent to a client that serves the file. */
  ghost predicate ToServer(cfg: Config, clients: seq<Client.State>, p: Packet, n: Name)
    requires ConfigOk(cfg)
  {
    exists j :: 0 <= j < MAX_CLIENTS && p.to == cfg.ports[j] && MayShare(cfg, j, n) && j < |clients| && Serves(clients[j], n)
  }

  ghost predicate FromServer(cfg: Config, clients: seq<Client.State>, p: Packet, cid: int, n: Name)
    requires ConfigOk(cfg)
  {
    FromClient(cfg, p, cid) && cid < |clients| && Serves(clients[cid], n) && MayShare(cfg, cid, n)
  }

  ghost predicate ItemOk(cfg: Config, cid: int, x: Item) {
    && x.name in cfg.source && InShort(x.kind) && HasTask(cfg, cid, x.name)
    && SizeOk(cfg, x.name, x.size % 65536)
    && (Tracker.Shares(x.kind) ==> MayShare(cfg, cid, x.name))
  }

  ghost predicate PeerOk(cfg: Config, n: Name, p: Peer)
    requires ConfigOk(cfg)
  {
    MayShare(cfg, p.id, n) && p.port == cfg.ports[p.id]
  }

  ghost predicate EntryOk(cfg: Config, f: FileEntry)
    requires ConfigOk(cfg)
  {
    && f.name in cfg.source && SizeOk(cfg, f.name, f.size % 65536)
    && |f.peers| <= MAX_CLIENTS
    && (forall p <- f.peers :: PeerOk(cfg, f.name, p))
  }

  ghost predicate SegmentOk(cfg: Config, n: Name, seg: int) {
    n in cfg.source && Known(cfg, n) > 0 && 0 <= seg < NumSegments(Known(cfg, n))
  }

  ghost predicate PacketOk(cfg: Config, clients: seq<Client.State>, p: Packet)
    requires ConfigOk(cfg)
  {
    match p.msg
    case ShowInterest(cid, items) =>
      FromClient(cfg, p, cid) && p.to == cfg.trackerPort && |items| <= |cfg.tasks[cid]| &&
      forall x <- items :: ItemOk(cfg, cid, x)
    case GroupAssign(files) =>
      ToClient(cfg, p) && |files| <= MAX_FILES && forall f <- files :: EntryOk(cfg, f)
    case InfoReq(cid, name) =>
      FromClient(cfg, p, cid) && name in cfg.source && ToSharer(cfg, p, name) && p.from != p.to
    case InfoRep(cid, name, segs) =>
      FromServer(cfg, clients, p, cid, name) && name in cfg.source && ToClient(cfg, p) && p.from != p.to &&
      |segs| <= MAX_SEGMENTS && forall s <- segs :: 0 <= s < MAX_SEGMENTS
    case SegReq(cid, name, seg) =>
      FromClient(cfg, p, cid) && SegmentOk(cfg, name, seg) && ToServer(cfg, clients, p, name) &&
      p.from != p.to && Fetches(cfg, cid, name)
    case SegRep(cid, name, seg, size, data) =>
      FromServer(cfg, clients, p, cid, name) && SegmentOk(cfg, name, seg) && ToClient(cfg, p) &&
      size == |data| && ServedSize(cfg, name, seg, size) && TrueReply(cfg, name, seg, data)
  }

  ghost predicate TrackerOk(cfg: Config, t: Tracker.State)
    requires ConfigOk(cfg)
  {
    && AddrsOk(cfg, t.addrs)
    && Tracker.Distinct(t.groups)
    && forall g <- t.groups :: TrackedOk(cfg, t.addrs, g)
  }

  ghost predicate TrackedOk(cfg: Config, addrs: seq<Peer>, g: Tracker.Group) {
    && g.name in cfg.source && SizeOk(cfg, g.name, g.size) && (exists c :: HasTask(cfg, c, g.name))
    && forall j <- g.sharing :: MayShare(cfg, j, g.name) && Knows(addrs, j)
  }

  ghost predicate Inv(cfg: Config, w: World)
    requires ConfigOk(cfg)
  {
    && |w.clients| == MAX_CLIENTS
    && (forall c :: 0 <= c < MAX_CLIENTS ==> LocalOk(cfg, c, w.clients[c]))
    && (forall c :: 0 <= c < MAX_CLIENTS ==> RoutesOk(cfg, w.clients, w.clients[c].downloads, w.clients[c].addrs))
    && TrackerOk(cfg, w.tracker)
    && (forall p <- w.net :: PacketOk(cfg, w.clients, p))
  }
}
