/** The client process of Client.c on values: its tables, and what each message handler and
    timer callback makes of them. */
module Client {
  import opened Basics
  import opened Wire
  import opened Segments

  /** FileInfo.fp: a block read at start-up, or the rawFile buffer of a download. */
  datatype Pointer = Loaded(bytes: seq<byte>) | RawOf(k: nat)

  /** struct Download. `source` is segmentToClient; MAX_CLIENTS in it names nobody. */
  datatype Download = Download(
    name: Name, share: int, enabled: bool, done: bool, filesize: nat, numSegs: nat,
    rawInit: bool, raw: seq<byte>, have: seq<bool>, source: seq<int>)

  datatype FileInfo = FileInfo(name: Name, size: nat, numSegs: nat, sizes: seq<int>, fp: Pointer)

  datatype Group = Group(name: Name, sharing: set<int>, filesize: nat)

  datatype Status = Running | Exited | Crashed

  /** `updates` and `progress` are sc_numGroupUpdates and sc_numDownloadProgress; `disk` lists
      the files writeDownloadedFile has written. */
  datatype State = State(
    id: int, trackerPort: int, downloads: seq<Download>, owned: seq<FileInfo>, groups: seq<Group>,
    addrs: seq<Peer>, updates: nat, progress: nat, disk: seq<(Name, seq<byte>)>, status: Status)

  /** A datagram on its way out: destination port and message. */
  datatype Out = Out(port: int, msg: Msg)

  // ---------- table searches ----------

  /** strncmp(stored, wanted, strlen(stored)) == 0 */
  predicate Matches(stored: Name, wanted: Name) {
    stored <= wanted
  }

  function OwnedAs(owned: seq<FileInfo>, wanted: Name): nat {
    FirstIndex(owned, (fi: FileInfo) => Matches(fi.name, wanted))
  }

  /** The same search with the download's name as the stored one. */
  function OwnedFor(owned: seq<FileInfo>, download: Name): nat {
    FirstIndex(owned, (fi: FileInfo) => Matches(download, fi.name))
  }

  function DownloadFor(downloads: seq<Download>, wanted: Name): nat {
    FirstIndex(downloads, (d: Download) => Matches(d.name, wanted))
  }

  function GroupFor(groups: seq<Group>, wanted: Name): nat {
    FirstIndex(groups, (g: Group) => Matches(g.name, wanted))
  }

  function IndexOfId(addrs: seq<Peer>, id: int): nat {
    FirstIndex(addrs, (a: Peer) => a.id == id)
  }

  function IndexOfPort(addrs: seq<Peer>, port: int): nat {
    FirstIndex(addrs, (a: Peer) => a.port == port)
  }

  /** getClientPort */
  function PortOf(addrs: seq<Peer>, id: int): int {
    var i := IndexOfId(addrs, id);
    if i < |addrs| then addrs[i].port else -1
  }

  /** getClientId */
  function IdOf(addrs: seq<Peer>, port: int): int {
    var i := IndexOfPort(addrs, port);
    if i < |addrs| then addrs[i].id else -1
  }

  /** The sin_port of a datagram sent to client id. */
  function SendPort(addrs: seq<Peer>, id: int): int {
    PortOf(addrs, id) % 65536
  }

  /** The message handlers know a sender by its port ... */
  function LearnSender(addrs: seq<Peer>, id: int, port: int): seq<Peer> {
    if IdOf(addrs, port) != -1 then addrs else addrs + [Peer(id, port)]
  }

  /** ... and GROUP_ASSIGN knows a neighbour by its id. */
  function LearnPeer(addrs: seq<Peer>, p: Peer): seq<Peer> {
    if IndexOfId(addrs, p.id) < |addrs| then addrs else addrs + [p]
  }

  function LearnPeers(addrs: seq<Peer>, peers: seq<Peer>): seq<Peer> {
    if peers == [] then addrs else LearnPeer(LearnPeers(addrs, peers[..|peers| - 1]), peers[|peers| - 1])
  }

  // ---------- memory ----------

  function Bytes(st: State, fp: Pointer): seq<byte> {
    match fp
    case Loaded(bytes) => bytes
    case RawOf(k) => if k < |st.downloads| then st.downloads[k].raw else []
  }

  /** memcpy out of a block: what lies behind its end is arbitrary. */
  function CopyOut(block: seq<byte>, off: nat, len: nat, junk: seq<byte>): (data: seq<byte>)
    ensures |data| == len
    ensures forall o :: 0 <= o < len && off + o < |block| ==> data[o] == block[off + o]
  {
    if len == 0 then [] else
      CopyOut(block, off, len - 1, junk) +
      [if off + len - 1 < |block| then block[off + len - 1] else if len - 1 < |junk| then junk[len - 1] else 0]
  }

  /** memcpy into a block: what falls behind its end is lost. */
  function CopyIn(block: seq<byte>, off: nat, data: seq<byte>): (r: seq<byte>)
    ensures |r| == |block|
    ensures forall p :: 0 <= p < |r| ==>
      r[p] == if off <= p < off + |data| then data[p - off] else block[p]
  {
    if off >= |block| then block else
      var n := Min(|data|, |block| - off);
      block[..off] + data[..n] + block[off + n..]
  }

  // ---------- start-up ----------

  datatype Task = Task(name: Name, share: int)

  /** A file that was read from disk, cut into segments. */
  function Load(build: Build, name: Name, bytes: seq<byte>): FileInfo {
    FileInfo(name, |bytes|, NumSegments(|bytes|), SeedSizes(build, |bytes|), Loaded(bytes))
  }

  function LoadAll(build: Build, files: seq<(Name, seq<byte>)>): (owned: seq<FileInfo>)
    ensures |owned| == |files|
    ensures forall i :: 0 <= i < |files| ==> owned[i] == Load(build, files[i].0, files[i].1)
  {
    if files == [] then [] else
      LoadAll(build, files[..|files| - 1]) + [Load(build, files[|files| - 1].0, files[|files| - 1].1)]
  }

  /** have[0..n) set, the rest clear */
  function HavePrefix(n: nat): (s: seq<bool>)
    ensures |s| == MAX_SEGMENTS
    ensures forall i :: 0 <= i < MAX_SEGMENTS ==> (s[i] <==> i < n)
  {
    var m := Min(n, MAX_SEGMENTS);
    Repeat(m, true) + Repeat(MAX_SEGMENTS - m, false)
  }

  function NewDownload(owned: seq<FileInfo>, t: Task): Download {
    var i := OwnedFor(owned, t.name);
    var blank := Download(t.name, t.share, false, false, 0, 0, false, [],
                          HavePrefix(0), Repeat(MAX_SEGMENTS, MAX_CLIENTS));
    if i == |owned| then blank else
      blank.(filesize := owned[i].size, numSegs := owned[i].numSegs, done := true, have := HavePrefix(owned[i].numSegs))
  }

  function NewDownloads(owned: seq<FileInfo>, tasks: seq<Task>): (ds: seq<Download>)
    ensures |ds| == |tasks|
    ensures forall k :: 0 <= k < |tasks| ==> ds[k] == NewDownload(owned, tasks[k])
  {
    if tasks == [] then [] else
      NewDownloads(owned, tasks[..|tasks| - 1]) + [NewDownload(owned, tasks[|tasks| - 1])]
  }

  function NewGroups(owned: seq<FileInfo>): (groups: seq<Group>)
    ensures |groups| == |owned|
    ensures forall i :: 0 <= i < |owned| ==> groups[i] == Group(owned[i].name, {}, owned[i].size)
  {
    if owned == [] then [] else
      NewGroups(owned[..|owned| - 1]) + [Group(owned[|owned| - 1].name, {}, owned[|owned| - 1].size)]
  }

  /** sharingClients[own id] := share, in the first group of the task's file */
  function Volunteer(groups: seq<Group>, id: int, t: Task): (r: seq<Group>)
    ensures |r| == |groups|
  {
    var i := FirstIndex(groups, (g: Group) => Matches(t.name, g.name));
    if i == |groups| then groups else
      groups[i := groups[i].(sharing := if t.share == 1 then groups[i].sharing + {id} else groups[i].sharing - {id})]
  }

  function VolunteerAll(groups: seq<Group>, id: int, tasks: seq<Task>): (r: seq<Group>)
    ensures |r| == |groups|
  {
    if tasks == [] then groups
    else Volunteer(VolunteerAll(groups, id, tasks[..|tasks| - 1]), id, tasks[|tasks| - 1])
  }

  function Start(build: Build, id: int, trackerPort: int, files: seq<(Name, seq<byte>)>, tasks: seq<Task>): State {
    var owned := LoadAll(build, files);
    State(id, trackerPort, NewDownloads(owned, tasks), owned, VolunteerAll(NewGroups(owned), id, tasks),
          [], 0, 0, [], if tasks == [] then Exited else Running)
  }

  // ---------- message handlers ----------

  /** 0, 1, ..., n - 1: the segment numbers of a CLNT_INFO_REP */
  function UpTo(n: nat): (s: seq<int>)
    ensures |s| == n && forall i :: 0 <= i < n ==> s[i] == i
  {
    if n == 0 then [] else UpTo(n - 1) + [n - 1]
  }

  function OnInfoReq(st: State, cid: int, name: Name, from: int): (State, seq<Out>) {
    var st' := st.(updates := 0, addrs := LearnSender(st.addrs, cid, from));
    var i := OwnedAs(st.owned, name);
    if i == |st.owned| || st.owned[i].numSegs == 0 then (st', [])
    else (st', [Out(from, InfoRep(st.id, name, UpTo(st.owned[i].numSegs)))])
  }

  function SetSource(source: seq<int>, segs: seq<int>, cid: int): (r: seq<int>)
    ensures |r| == |source|
    ensures forall s :: 0 <= s < |r| ==> r[s] == if s in segs then cid else source[s]
  {
    if segs == [] then source else
      var r := SetSource(source, segs[..|segs| - 1], cid);
      var s := segs[|segs| - 1];
      assert segs == segs[..|segs| - 1] + [s];
      if 0 <= s < |r| then r[s := cid] else r
  }

  function OnInfoRep(st: State, cid: int, name: Name, segs: seq<int>, from: int): State {
    var st' := st.(addrs := LearnSender(st.addrs, cid, from));
    var k := DownloadFor(st.downloads, name);
    if k == |st.downloads| then st' else
      var d := st.downloads[k];
      st'.(downloads := st.downloads[k := d.(source := SetSource(d.source, segs, cid))])
  }

  /** A segment larger than the 32-byte rawData buffer ends the process. */
  function OnSegReq(st: State, cid: int, name: Name, seg: int, from: int, junk: seq<byte>): (State, seq<Out>) {
    var st' := st.(updates := 0, addrs := LearnSender(st.addrs, cid, from));
    var k := DownloadFor(st.downloads, name);
    if k == |st.downloads| || !(0 <= seg < |st.downloads[k].have|) || !st.downloads[k].have[seg] then (st', []) else
      var i := OwnedAs(st.owned, name);
      if i == |st.owned| then (st', [Out(from, SegRep(st.id, name, seg, 0, []))])
      else if seg >= |st.owned[i].sizes| || !(0 <= st.owned[i].sizes[seg] <= SEGMENT_SIZE) then
        (st'.(status := Crashed), [])
      else
        var size := st.owned[i].sizes[seg];
        var data := CopyOut(Bytes(st, st.owned[i].fp), SEGMENT_SIZE * seg, size, junk);
        (st', [Out(from, SegRep(st.id, name, seg, size, data))])
  }

  function ApplyReply(d: Download, seg: nat, data: seq<byte>): Download
    requires seg < MAX_SEGMENTS
  {
    var raw := if d.rawInit then d.raw else Zeros(d.filesize);
    d.(rawInit := true,
       raw := CopyIn(raw, SEGMENT_SIZE * seg, data),
       have := if seg < |d.have| then d.have[seg := true] else d.have)
  }

  function ApplyToAll(ds: seq<Download>, name: Name, seg: nat, data: seq<byte>): (r: seq<Download>)
    requires seg < MAX_SEGMENTS
    ensures |r| == |ds|
    ensures forall k :: 0 <= k < |ds| ==>
      r[k] == if Matches(ds[k].name, name) then ApplyReply(ds[k], seg, data) else ds[k]
  {
    if ds == [] then [] else
      ApplyToAll(ds[..|ds| - 1], name, seg, data) +
      [if Matches(ds[|ds| - 1].name, name) then ApplyReply(ds[|ds| - 1], seg, data) else ds[|ds| - 1]]
  }

  /** Segment and size numbers out of range only arise from fields the shipped reply cut off. */
  function OnSegRep(st: State, cid: int, name: Name, seg: int, size: int, data: seq<byte>, from: int): State {
    if size < 0 || !(0 <= seg < MAX_SEGMENTS) then
      if DownloadFor(st.downloads, name) == |st.downloads| then
        st.(progress := 0, addrs := LearnSender(st.addrs, cid, from))
      else st.(status := Crashed)
    else
      st.(progress := 0,
          downloads := ApplyToAll(st.downloads, name, seg, data),
          addrs := LearnSender(st.addrs, cid, from))
  }

  /** handleTrackerGroupUpdate: a download of unknown size learns it and allocates its buffer. */
  function LearnSize(ds: seq<Download>, name: Name, size: nat): seq<Download> {
    var k := DownloadFor(ds, name);
    if k == |ds| || ds[k].filesize != 0 || size == 0 then ds else
      ds[k := ds[k].(filesize := size, numSegs := NumSegments(size), have := HavePrefix(0),
                     rawInit := true, raw := Zeros(size))]
  }

  function Ids(peers: seq<Peer>): set<int> {
    set p <- peers :: p.id
  }

  function LearnGroup(groups: seq<Group>, f: FileEntry): seq<Group> {
    var i := GroupFor(groups, f.name);
    if i == |groups| then groups + [Group(f.name, Ids(f.peers), f.size)] else
      groups[i := groups[i].(
        sharing := groups[i].sharing + Ids(f.peers),
        filesize := if groups[i].filesize == 0 then f.size else groups[i].filesize)]
  }

  function OnEntry(st: State, f: FileEntry): State {
    st.(downloads := LearnSize(st.downloads, f.name, f.size),
        addrs := LearnPeers(st.addrs, f.peers),
        groups := LearnGroup(st.groups, f))
  }

  function OnAssign(st: State, files: seq<FileEntry>): State {
    if files == [] then st else OnEntry(OnAssign(st, files[..|files| - 1]), files[|files| - 1])
  }

  function Handle(st: State, m: Msg, from: int, junk: seq<byte>): (State, seq<Out>) {
    match m
    case ShowInterest(_, _) => (st, [])
    case GroupAssign(files) => (OnAssign(st, files), [])
    case InfoReq(cid, name) => OnInfoReq(st, cid, name, from)
    case InfoRep(cid, name, segs) => (OnInfoRep(st, cid, name, segs, from), [])
    case SegReq(cid, name, seg) => OnSegReq(st, cid, name, seg, from, junk)
    case SegRep(cid, name, seg, size, data) => (OnSegRep(st, cid, name, seg, size, data, from), [])
  }

  // ---------- timer callbacks ----------

  /** The type field of GROUP_SHOW_INTEREST. No branch assigns it for a file that is held but
      not shared: the shipped code then sends whatever the variable holds. */
  function Kind(build: Build, held: bool, share: int, junk: int): int {
    if !held && share == 0 then 0
    else if !held && share == 1 then 1
    else if held && share == 1 then 2
    else if build.Shipped? then Int16(junk)
    else 3
  }

  function Announce(owned: seq<FileInfo>, d: Download): Download {
    var i := OwnedFor(owned, d.name);
    if d.enabled && i < |owned| then d.(filesize := owned[i].size, done := true) else d
  }

  function AnnounceAll(owned: seq<FileInfo>, ds: seq<Download>): (r: seq<Download>)
    ensures |r| == |ds|
    ensures forall k :: 0 <= k < |ds| ==> r[k] == Announce(owned, ds[k])
  {
    if ds == [] then [] else AnnounceAll(owned, ds[..|ds| - 1]) + [Announce(owned, ds[|ds| - 1])]
  }

  function ItemsFor(build: Build, owned: seq<FileInfo>, ds: seq<Download>, junk: seq<int>): seq<Item> {
    if ds == [] then [] else
      var n, d := |ds| - 1, ds[|ds| - 1];
      var items := ItemsFor(build, owned, ds[..n], junk);
      if !d.enabled then items else
        items + [Item(d.name, Announce(owned, d).filesize,
                      Kind(build, OwnedFor(owned, d.name) < |owned|, d.share, if n < |junk| then junk[n] else 0))]
  }

  predicate AllDone(ds: seq<Download>) {
    forall d <- ds :: d.done
  }

  predicate NoneEnabled(ds: seq<Download>) {
    forall d <- ds :: !d.enabled
  }

  /** sendInterestToTracker */
  function OnInterestTick(build: Build, st: State, junk: seq<int>): (State, seq<Out>) {
    if (st.updates >= 2 && AllDone(st.downloads)) || st.progress >= 4 then (st.(status := Exited), []) else
      var st' := st.(updates := st.updates + 1, progress := st.progress + 1);
      if NoneEnabled(st.downloads) then (st', []) else
        (st'.(downloads := AnnounceAll(st.owned, st.downloads)),
         [Out(st.trackerPort, ShowInterest(st.id, ItemsFor(build, st.owned, st.downloads, junk)))])
  }

  function Neighbors(groups: seq<Group>, download: Name): set<int> {
    if groups == [] then {} else
      var g := groups[|groups| - 1];
      Neighbors(groups[..|groups| - 1], download) + if Matches(download, g.name) then g.sharing else {}
  }

  /** One CLNT_INFO_REQ to each neighbour below n, in order of id. */
  function AskPeers(st: State, name: Name, neighbors: set<int>, n: nat): seq<Out> {
    if n == 0 then [] else
      AskPeers(st, name, neighbors, n - 1) +
      if n - 1 in neighbors && n - 1 != st.id then [Out(SendPort(st.addrs, n - 1), InfoReq(st.id, name))] else []
  }

  /** sendClientInfoRequests, for the first n downloads */
  function AskInfo(st: State, n: nat): seq<Out>
    requires n <= |st.downloads|
  {
    if n == 0 then [] else
      var d := st.downloads[n - 1];
      AskInfo(st, n - 1) +
      if d.filesize == 0 then [] else AskPeers(st, d.name, Neighbors(st.groups, d.name), MAX_CLIENTS)
  }

  /** The missing segments below n, ascending. */
  function Missing(have: seq<bool>, n: nat): (r: seq<nat>)
    ensures forall i :: 0 <= i < |r| ==> r[i] < n
  {
    if n == 0 then [] else
      Missing(have, n - 1) + if n - 1 < |have| && !have[n - 1] then [n - 1] else []
  }

  /** Downloaded in full: mark it, write it out and own it. strncpy copies no terminating zero,
      so the shipped name runs on into whatever follows on the stack. */
  function Finish(build: Build, st: State, k: nat, tail: Name): State
    requires k < |st.downloads|
  {
    var d := st.downloads[k];
    st.(downloads := st.downloads[k := d.(done := true)],
        disk := st.disk + [(d.name, d.raw)],
        owned := st.owned + [FileInfo(if build.Shipped? then d.name + tail else d.name,
                                      d.filesize, d.numSegs, FinishedSizes(build, d.filesize, d.numSegs), RawOf(k))])
  }

  /** The missing segment that the i-th call of rand() picks. */
  function Drawn(missing: seq<nat>, rands: seq<nat>, i: nat): nat
    requires |missing| > 0
  {
    missing[(if i < |rands| then rands[i] else 0) % |missing|]
  }

  /** `count` draws from the missing segments; a segment nobody advertised costs a draw. */
  function Requests(st: State, d: Download, missing: seq<nat>, rands: seq<nat>, at: nat, count: nat): seq<Out>
    requires |missing| > 0
  {
    if count == 0 then [] else
      var seg := Drawn(missing, rands, at + count - 1);
      var c := if seg < |d.source| then d.source[seg] else MAX_CLIENTS;
      Requests(st, d, missing, rands, at, count - 1) +
      if c == MAX_CLIENTS then [] else [Out(SendPort(st.addrs, c), SegReq(st.id, d.name, seg))]
  }

  const MAX_REQUESTS := 8

  /** The body of sendClientSegmentRequests for download k, its draws starting at 8 * k. */
  function Plan(build: Build, st: State, k: nat, rands: seq<nat>, tail: Name): (State, seq<Out>)
    requires k < |st.downloads|
  {
    var d := st.downloads[k];
    if d.done || OwnedFor(st.owned, d.name) < |st.owned| || d.numSegs == 0 then (st, []) else
      var missing := Missing(d.have, d.numSegs);
      if missing == [] then (Finish(build, st, k, tail), [])
      else (st, Requests(st, d, missing, rands, MAX_REQUESTS * k, Min(MAX_REQUESTS, |missing|)))
  }

  /** sendClientSegmentRequests, for the first n downloads */
  function PlanAll(build: Build, st: State, n: nat, rands: seq<nat>, tail: Name): (r: (State, seq<Out>))
    requires n <= |st.downloads|
    ensures |r.0.downloads| == |st.downloads|
  {
    if n == 0 then (st, []) else
      var (st1, o1) := PlanAll(build, st, n - 1, rands, tail);
      var (st2, o2) := Plan(build, st1, n - 1, rands, tail);
      (st2, o1 + o2)
  }

  // ---------- the process ----------

  /** What can happen to a client. The values nothing determines are part of the input: the
      draws of rand(), uninitialised variables, and memory behind a block or a packet. */
  datatype Input =
    | Enable(k: nat)
    | InterestTick(kinds: seq<int>)
    | InfoTick
    | SegmentTick(rands: seq<nat>, tail: Name)
    | Receive(mem: seq<byte>, from: int, junk: seq<byte>)

  function Step(build: Build, st: State, input: Input): (State, seq<Out>) {
    if !st.status.Running? then (st, []) else
      match input
      case Enable(k) =>
        if k < |st.downloads| then
          (st.(downloads := st.downloads[k := st.downloads[k].(enabled := true)]), [])
        else (st, [])
      case InterestTick(kinds) => OnInterestTick(build, st, kinds)
      case InfoTick => (st, AskInfo(st, |st.downloads|))
      case SegmentTick(rands, tail) => PlanAll(build, st, |st.downloads|, rands, tail)
      case Receive(mem, from, junk) =>
        match ReadClient(mem)
        case None => (st, [])
        case Some(m) => Handle(st, m, from, junk)
  }
}
