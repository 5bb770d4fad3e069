/** What holds in every world a run can reach. */
module Safety {
  import opened Basics
  import opened Wire
  import opened Segments
  import opened Swarm
  import opened Invariant
  import opened Tables
  import opened Handlers
  import opened Replies
  import opened Reachable
  import Client
  import Tracker

  // ---------- the downloaded files ----------

  /** Whatever is written to disk has the size the network knows and, for a tame file, the file's
      own bytes at every carried position. */
  lemma {:induction false} WrittenFilesAreTrueWhereCarried(cfg: Config, w: World, c: nat, i: nat)
    requires ConfigOk(cfg) && Reached(cfg, w) && c < MAX_CLIENTS
    requires i < |w.clients[c].disk|
    ensures var (n, bytes) := w.clients[c].disk[i];
      && n in cfg.source && |bytes| == WireSize(|cfg.source[n]|)
      && (Tame(cfg, n) ==> forall p: nat :: p < |bytes| && Carried(cfg.build, |cfg.source[n]|, p) ==>
        bytes[p] == cfg.source[n][p])
  {
    ReachedOk(cfg, w);
    var st := w.clients[c];
    assert LocalOk(cfg, c, st);
    var (n, bytes) := st.disk[i];
    assert WrittenOk(cfg, c, n, bytes);
    if Tame(cfg, n) {
      forall p: nat | p < |bytes| && Carried(cfg.build, |cfg.source[n]|, p)
        ensures bytes[p] == cfg.source[n][p]
      {
        assert Client.HavePrefix(MAX_SEGMENTS)[p / SEGMENT_SIZE];
        assert CarriedByte(cfg, n, p);
      }
    }
  }

  /** Only a client that is to download a file writes it, and only if another one starts with it. */
  lemma {:induction false} WrittenIsFetched(cfg: Config, w: World, c: nat, i: nat)
    requires ConfigOk(cfg) && Reached(cfg, w) && c < MAX_CLIENTS && i < |w.clients[c].disk|
    ensures var n := w.clients[c].disk[i].0;
      n in cfg.source && Known(cfg, n) > 0 && Origin(cfg, n) && Fetches(cfg, c, n)
  {
    hide Reached, PrefixFree, Filled, Origin, Fetches;
    ReachedOk(cfg, w);
    assert LocalOk(cfg, c, w.clients[c]);
    assert WrittenOk(cfg, c, w.clients[c].disk[i].0, w.clients[c].disk[i].1);
  }

  /** End to end: with the segment defects mended, under any loss, duplication, delay and
      reordering, a written file is the original up to the size that fits the wire. */
  lemma {:induction false} WrittenFilesAreTrue(cfg: Config, w: World, c: nat, i: nat)
    requires ConfigOk(cfg) && Reached(cfg, w) && c < MAX_CLIENTS && cfg.build.Mended?
    requires i < |w.clients[c].disk|
    ensures var (n, bytes) := w.clients[c].disk[i];
      && n in cfg.source && bytes == cfg.source[n][..WireSize(|cfg.source[n]|)]
      && (bytes == cfg.source[n] <==> |cfg.source[n]| < 65536)
  {
    WrittenFilesAreTrueWhereCarried(cfg, w, c, i);
    var (n, bytes) := w.clients[c].disk[i];
    assert NumSegments(|cfg.source[n]|) <= MAX_SEGMENTS;
    CarriedIsAll(cfg.source[n], bytes);
  }

  lemma {:induction false} CarriedIsAll(file: seq<byte>, bytes: seq<byte>)
    requires NumSegments(|file|) <= MAX_SEGMENTS && |bytes| == WireSize(|file|)
    requires forall p: nat :: p < |bytes| && Carried(Mended, |file|, p) ==> bytes[p] == file[p]
    ensures bytes == file[..WireSize(|file|)]
    ensures bytes == file <==> |file| < 65536
  {
    forall p: nat | p < |bytes|
      ensures bytes[p] == file[p]
    {
      MendedCarriesAll(|file|, p);
    }
  }

  /** The shipped code gets the size right and, for a tame file, of every full segment the first
      28 bytes. Witness.HeadsKeptIff says that no other file is safe. */
  lemma {:induction false} ShippedFilesKeepSizeAndHeads(cfg: Config, w: World, c: nat, i: nat, p: nat)
    requires ConfigOk(cfg) && Reached(cfg, w) && c < MAX_CLIENTS && cfg.build.Shipped?
    requires i < |w.clients[c].disk|
    ensures var (n, bytes) := w.clients[c].disk[i];
      && n in cfg.source && |bytes| == WireSize(|cfg.source[n]|)
      && (Tame(cfg, n) && p < |bytes| && p / SEGMENT_SIZE + 1 < NumSegments(|bytes|) && p % SEGMENT_SIZE < SEGMENT_SIZE - 4 ==>
        bytes[p] == cfg.source[n][p])
  {
    WrittenFilesAreTrueWhereCarried(cfg, w, c, i);
    var (n, bytes) := w.clients[c].disk[i];
    if p < |bytes| && p / SEGMENT_SIZE + 1 < NumSegments(|bytes|) {
      ShippedFullSegment(|cfg.source[n]|, p);
    }
  }

  /** A download marked done is held in the table of owned files, with its content. */
  lemma {:induction false} DoneMeansHeld(cfg: Config, w: World, c: nat, k: nat)
    requires ConfigOk(cfg) && Reached(cfg, w) && c < MAX_CLIENTS && cfg.build.Mended?
    requires k < |w.clients[c].downloads| && w.clients[c].downloads[k].done
    ensures var st := w.clients[c];
      var n := st.downloads[k].name;
      var i := Client.OwnedFor(st.owned, n);
      && n in cfg.source && i < |st.owned| && st.owned[i].name == n
      && Client.Bytes(st, st.owned[i].fp) ==
           if n in cfg.files[c] then cfg.source[n] else cfg.source[n][..WireSize(|cfg.source[n]|)]
  {
    ReachedOk(cfg, w);
    var st := w.clients[c];
    assert LocalOk(cfg, c, st);
    var n := st.downloads[k].name;
    assert DownloadOk(cfg, c, st.downloads[k]);
    OwnedForFinds(cfg, c, st.downloads, st.owned, n);
    var fi := st.owned[Client.OwnedFor(st.owned, n)];
    if !Holds0(cfg, c, n) {
      FinishedBytes(cfg, c, st, fi);
    }
  }

  lemma {:induction false} FinishedBytes(cfg: Config, c: nat, st: Client.State, fi: Client.FileInfo)
    requires ConfigOk(cfg) && c < MAX_CLIENTS && LocalOk(cfg, c, st) && cfg.build.Mended?
    requires FinishedOk(cfg, c, st.downloads, fi)
    ensures var n := st.downloads[fi.fp.k].name;
      Client.Bytes(st, fi.fp) == cfg.source[n][..WireSize(|cfg.source[n]|)]
  {
    var d := st.downloads[fi.fp.k];
    assert DownloadOk(cfg, c, d);
    NumSegmentsMonotone(Known(cfg, d.name), Len(cfg, d.name));
    forall p: nat | p < |d.raw|
      ensures d.raw[p] == cfg.source[d.name][p]
    {
      MendedCarriesAll(Len(cfg, d.name), p);
      assert d.have[p / SEGMENT_SIZE] && CarriedByte(cfg, d.name, p);
    }
  }

  /** No client writes a file twice. */
  lemma {:induction false} WrittenOnce(cfg: Config, w: World, c: nat, i: nat, j: nat)
    requires ConfigOk(cfg) && Reached(cfg, w) && c < MAX_CLIENTS
    requires i < j < |w.clients[c].disk|
    ensures var disk := w.clients[c].disk; disk[i].0 != disk[j].0
  {
    ReachedOk(cfg, w);
    assert LocalOk(cfg, c, w.clients[c]);
  }

  // ---------- requests reach owners ----------

  /** No file in play is found at two entries of a client's owned-files table: each finished
      download is entered once. */
  lemma {:induction false} OwnedOnce(cfg: Config, w: World, c: nat, i: nat, j: nat, n: Name)
    requires ConfigOk(cfg) && Reached(cfg, w) && c < MAX_CLIENTS
    requires i < j < |w.clients[c].owned| && n in cfg.source
    ensures var owned := w.clients[c].owned;
      !(Client.Matches(n, owned[i].name) && Client.Matches(n, owned[j].name)) && (owned[j].fp.RawOf? ==> owned[i].fp != owned[j].fp)
  {
    hide Reached, PrefixFree, Filled;
    ReachedOk(cfg, w);
    var st := w.clients[c];
    assert LocalOk(cfg, c, st);
    RealNamesDiffer(cfg, c, st.downloads, st.owned, i, j);
    assert i < |cfg.files[c]| ==> st.owned[i] == Seed(cfg, cfg.files[c][i]);
    if Client.Matches(n, st.owned[i].name) && Client.Matches(n, st.owned[j].name) {
      OwnedEntryIsWanted(cfg, c, st.downloads, st.owned, i, n);
      OwnedEntryIsWanted(cfg, c, st.downloads, st.owned, j, n);
    }
  }

  /** In every reachable world the tables of owned files and groups, none of which the code
      checks for space, stay within their 25 slots. */
  lemma {:induction false} TablesFit(cfg: Config, w: World, c: nat)
    requires ConfigOk(cfg) && Reached(cfg, w) && c < MAX_CLIENTS
    ensures |w.clients[c].owned| <= MAX_FILES && |w.clients[c].groups| <= MAX_FILES && |w.tracker.groups| <= MAX_FILES
  {
    hide Reached, PrefixFree, Filled;
    ReachedOk(cfg, w);
    var st := w.clients[c];
    assert LocalOk(cfg, c, st);
    OwnedFits(cfg, c, st.downloads, st.owned);
    GroupsFit(cfg, st.groups);
    TrackedFit(cfg, w.tracker.groups);
  }

  /** A CLNT_SEG_REQ that reaches a client finds the file among those the client owns, so the
      reply of size 0 to a file held only in part is never sent. */
  lemma {:induction false} RequestsReachOwners(cfg: Config, w: World, c: nat, p: Packet)
    requires ConfigOk(cfg) && Reached(cfg, w) && c < MAX_CLIENTS
    requires p in w.net && p.to == cfg.ports[c] && p.msg.SegReq?
    ensures var st := w.clients[c];
      && p.msg.name in cfg.source
      && Client.OwnedAs(st.owned, p.msg.name) < |st.owned|
      && 0 <= p.msg.seg < NumSegments(WireSize(|cfg.source[p.msg.name]|))
  {
    ReachedOk(cfg, w);
    RequestAtOwner(cfg, w.clients, c, p);
  }

  lemma {:induction false} RequestAtOwner(cfg: Config, clients: seq<Client.State>, c: nat, p: Packet)
    requires ConfigOk(cfg) && c < MAX_CLIENTS == |clients| && PacketOk(cfg, clients, p) && p.to == cfg.ports[c] && p.msg.SegReq?
    ensures Serves(clients[c], p.msg.name) && SegmentOk(cfg, p.msg.name, p.msg.seg)
  {
  }

  /** Whoever a segment is to be asked from owns the file, and the request is addressed to it. */
  lemma {:induction false} SourcesAreOwners(cfg: Config, w: World, c: nat, k: nat, s: nat)
    requires ConfigOk(cfg) && Reached(cfg, w) && c < MAX_CLIENTS
    requires var st := w.clients[c];
      k < |st.downloads| && s < |st.downloads[k].source| && st.downloads[k].source[s] != MAX_CLIENTS
    ensures var st := w.clients[c];
      var j := st.downloads[k].source[s];
      && 0 <= j < MAX_CLIENTS && Client.SendPort(st.addrs, j) == cfg.ports[j]
      && Client.OwnedAs(w.clients[j].owned, st.downloads[k].name) < |w.clients[j].owned|
  {
    ReachedOk(cfg, w);
    var st := w.clients[c];
    assert LocalOk(cfg, c, st) && RoutesOk(cfg, w.clients, st.downloads, st.addrs);
    assert SourceOk(cfg, w.clients, st.addrs, st.downloads[k].name, st.downloads[k].source[s]);
    SendPortOk(cfg, st.addrs, st.downloads[k].source[s]);
  }

  // ---------- leeching ----------

  /** A client that may not come to announce a file as shared (Witness.ListedIff: exactly the
      clients the tracker can ever list) is never asked for it and never sends any of it. */
  lemma {:induction false} LeechersNeverServe(cfg: Config, w: World, c: nat, n: Name, p: Packet)
    requires ConfigOk(cfg) && Reached(cfg, w) && c < MAX_CLIENTS && !MayShare(cfg, c, n)
    requires p in w.net
    ensures p.to == cfg.ports[c] ==> (p.msg.InfoReq? || p.msg.SegReq? ==> p.msg.name != n)
    ensures p.from == cfg.ports[c] ==> (p.msg.InfoRep? || p.msg.SegRep? ==> p.msg.name != n)
  {
    ReachedOk(cfg, w);
    assert PacketOk(cfg, w.clients, p);
    if p.to == cfg.ports[c] && (p.msg.InfoReq? || p.msg.SegReq?) {
      RequestGoesToSharer(cfg, w.clients, c, p);
    }
    if p.from == cfg.ports[c] && (p.msg.InfoRep? || p.msg.SegRep?) {
      ReplyComesFromSharer(cfg, w.clients, c, p);
    }
  }

  lemma {:induction false} RequestGoesToSharer(cfg: Config, clients: seq<Client.State>, c: nat, p: Packet)
    requires ConfigOk(cfg) && c < MAX_CLIENTS && PacketOk(cfg, clients, p)
    requires p.to == cfg.ports[c] && (p.msg.InfoReq? || p.msg.SegReq?)
    ensures MayShare(cfg, c, p.msg.name)
  {
  }

  lemma {:induction false} ReplyComesFromSharer(cfg: Config, clients: seq<Client.State>, c: nat, p: Packet)
    requires ConfigOk(cfg) && c < MAX_CLIENTS && PacketOk(cfg, clients, p)
    requires p.from == cfg.ports[c] && (p.msg.InfoRep? || p.msg.SegRep?)
    ensures MayShare(cfg, c, p.msg.name)
  {
  }

  /** Nor does any table name it: not the tracker's, not another client's. */
  lemma {:induction false} LeechersAreNotListed(cfg: Config, w: World, c: nat, n: Name, j: nat)
    requires ConfigOk(cfg) && Reached(cfg, w) && c < MAX_CLIENTS && !MayShare(cfg, c, n)
    requires j < MAX_CLIENTS && j != c
    ensures
      && (forall g <- w.tracker.groups :: g.name == n ==> c !in g.sharing)
      && (forall g <- w.clients[j].groups :: g.name == n ==> c !in g.sharing)
      && (forall d <- w.clients[j].downloads :: d.name == n ==> c !in d.source)
  {
    hide MayShare, PrefixFree, Filled, Origin, Serves;
    ReachedOk(cfg, w);
    assert LocalOk(cfg, j, w.clients[j]);
    forall g | g in w.tracker.groups && g.name == n
      ensures c !in g.sharing
    {
      assert TrackedOk(cfg, w.tracker.addrs, g);
    }
    forall g | g in w.clients[j].groups && g.name == n
      ensures c !in g.sharing
    {
      assert GroupOk(cfg, j, g, w.clients[j].addrs);
    }
    forall d | d in w.clients[j].downloads && d.name == n
      ensures c !in d.source
    {
      var k :| 0 <= k < |w.clients[j].downloads| && w.clients[j].downloads[k] == d;
      forall s | 0 <= s < |d.source|
        ensures d.source[s] != c
      {
        assert SourceOk(cfg, w.clients, w.clients[j].addrs, w.clients[j].downloads[k].name, w.clients[j].downloads[k].source[s]);
      }
    }
  }

  // ---------- addresses ----------

  /** Every client's address table, and the tracker's, fits its array, and the two lookups are
      each other's inverse on it. */
  lemma {:induction false} AddressTablesAreBijections(cfg: Config, w: World, c: nat, id: int)
    requires ConfigOk(cfg) && Reached(cfg, w) && c < MAX_CLIENTS && 0 <= id < MAX_CLIENTS
    ensures var addrs := w.clients[c].addrs;
      && |addrs| <= MAX_CLIENTS
      && (Client.PortOf(addrs, id) != -1 ==> Client.PortOf(addrs, id) == cfg.ports[id])
      && (Client.PortOf(addrs, id) != -1 <==> Client.IdOf(addrs, cfg.ports[id]) == id)
      && (Client.PortOf(addrs, id) == -1 <==> Client.IdOf(addrs, cfg.ports[id]) == -1)
    ensures |w.tracker.addrs| <= MAX_CLIENTS
  {
    ReachedOk(cfg, w);
    assert LocalOk(cfg, c, w.clients[c]);
    AddrsFit(cfg, w.clients[c].addrs);
    AddrsFit(cfg, w.tracker.addrs);
    PortIsId(cfg, w.clients[c].addrs, id);
  }

  // ---------- crashes ----------

  /** The mended client never copies outside a buffer. */
  lemma {:induction false} MendedNeverCrashes(cfg: Config, w: World, c: nat)
    requires ConfigOk(cfg) && Reached(cfg, w) && c < MAX_CLIENTS && cfg.build.Mended?
    ensures !w.clients[c].status.Crashed?
  {
    var w0, steps :| Init(cfg, w0) && Run(cfg, w0, steps) == w;
    RunNeverCrashes(cfg, w0, steps, c);
  }

  lemma {:induction false} RunNeverCrashes(cfg: Config, w: World, steps: seq<Step>, c: nat)
    requires ConfigOk(cfg) && Init(cfg, w) && c < MAX_CLIENTS && cfg.build.Mended?
    ensures !Run(cfg, w, steps).clients[c].status.Crashed?
    decreases steps
  {
    if steps != [] {
      var front, s := steps[..|steps| - 1], steps[|steps| - 1];
      RunNeverCrashes(cfg, w, front, c);
      RunKeepsInv(cfg, w, front);
      NextNeverCrashes(cfg, Run(cfg, w, front), s, c);
    }
  }

  lemma {:induction false} NextNeverCrashes(cfg: Config, w: World, s: Step, c: nat)
    requires ConfigOk(cfg) && Inv(cfg, w) && c < MAX_CLIENTS && cfg.build.Mended? && !w.clients[c].status.Crashed?
    ensures !Next(cfg, w, s).clients[c].status.Crashed?
  {
    match s
    case Local(i, input) =>
      if i == c && !input.Receive? { TicksNeverCrash(cfg.build, w.clients[c], input); }
    case Deliver(i, p, mem, junk) =>
      if i == c && p.to == cfg.ports[c] && Arrives(cfg, w, p, mem) { DeliveryNeverCrashes(cfg, w, c, p, mem, junk); }
    case ToTracker(p, mem) =>
    case TrackerQuits =>
  }

  lemma {:induction false} TicksNeverCrash(build: Build, st: Client.State, input: Client.Input)
    requires !st.status.Crashed? && !input.Receive?
    ensures !Client.Step(build, st, input).0.status.Crashed?
  {
    if input.SegmentTick? { PlanningKeepsStatus(build, st, |st.downloads|, input.rands, input.tail); }
  }

  lemma {:induction false} PlanningKeepsStatus(build: Build, st: Client.State, n: nat, rands: seq<nat>, tail: Name)
    requires n <= |st.downloads|
    ensures Client.PlanAll(build, st, n, rands, tail).0.status == st.status
  {
    if n > 0 { PlanningKeepsStatus(build, st, n - 1, rands, tail); }
  }

  lemma {:induction false} AssignKeepsStatus(st: Client.State, files: seq<FileEntry>)
    ensures Client.OnAssign(st, files).status == st.status
    decreases files
  {
    if files != [] { AssignKeepsStatus(st, files[..|files| - 1]); }
  }

  lemma {:induction false} DeliveryNeverCrashes(cfg: Config, w: World, c: nat, p: Packet, mem: seq<byte>, junk: seq<byte>)
    requires ConfigOk(cfg) && Inv(cfg, w) && c < MAX_CLIENTS && cfg.build.Mended?
    requires p.to == cfg.ports[c] && Arrives(cfg, w, p, mem) && !w.clients[c].status.Crashed?
    ensures !Client.Step(cfg.build, w.clients[c], Client.Receive(mem, p.from, junk)).0.status.Crashed?
  {
    assert PacketOk(cfg, w.clients, p);
    PacketFits(cfg, w.clients, c, p);
    var m := Received(p.msg);
    assert ReadClient(mem) == Some(m) by { ClientRoundTrip(p.msg, mem); }
    HandlingNeverCrashes(cfg, w, c, p, junk);
    ReceiveHandles(cfg.build, w.clients[c], mem, p.from, junk, m);
  }

  lemma {:induction false} HandlingNeverCrashes(cfg: Config, w: World, c: nat, p: Packet, junk: seq<byte>)
    requires ConfigOk(cfg) && Inv(cfg, w) && c < MAX_CLIENTS && cfg.build.Mended?
    requires PacketOk(cfg, w.clients, p) && p.to == cfg.ports[c] && !w.clients[c].status.Crashed?
    ensures !Client.Handle(w.clients[c], Received(p.msg), p.from, junk).0.status.Crashed?
  {
    match p.msg
    case SegReq(_, _, _) => ServingNeverCrashes(cfg, w, c, p, junk);
    case GroupAssign(files) => AssignKeepsStatus(w.clients[c], LowFiles(files));
    case _ =>
  }

  /** What reaches a client is one of the five messages meant for it, within the field widths. */
  lemma {:induction false} PacketFits(cfg: Config, clients: seq<Client.State>, c: nat, p: Packet)
    requires ConfigOk(cfg) && c < MAX_CLIENTS && PacketOk(cfg, clients, p) && p.to == cfg.ports[c]
    ensures !p.msg.ShowInterest? && Fits(p.msg)
  {
    if p.msg.GroupAssign? { AssignFits(cfg, p.msg.files); }
  }

  lemma {:induction false} ServingNeverCrashes(cfg: Config, w: World, c: nat, p: Packet, junk: seq<byte>)
    requires ConfigOk(cfg) && Inv(cfg, w) && c < MAX_CLIENTS && cfg.build.Mended?
    requires p.msg.SegReq? && PacketOk(cfg, w.clients, p) && p.to == cfg.ports[c] && !w.clients[c].status.Crashed?
    ensures !Client.OnSegReq(w.clients[c], p.msg.cid, p.msg.name, p.msg.seg, p.from, junk).0.status.Crashed?
  {
    hide Client.CopyOut, Client.LearnSender, Client.Bytes;
    var st := w.clients[c];
    assert Serves(st, p.msg.name);
    MendedStoresLengths(cfg, c, st, Client.OwnedAs(st.owned, p.msg.name), p.msg.name, p.msg.seg);
  }

  lemma {:induction false} MendedStoresLengths(cfg: Config, c: nat, st: Client.State, i: nat, name: Name, seg: nat)
    requires ConfigOk(cfg) && c < MAX_CLIENTS && LocalOk(cfg, c, st) && SegmentOk(cfg, name, seg) && cfg.build.Mended?
    requires i < |st.owned| && Client.Matches(st.owned[i].name, name)
    ensures |st.owned[i].sizes| == MAX_SEGMENTS && seg < MAX_SEGMENTS && 0 <= st.owned[i].sizes[seg] <= SEGMENT_SIZE
  {
    OwnedEntryIsWanted(cfg, c, st.downloads, st.owned, i, name);
    NumSegmentsMonotone(Known(cfg, name), Len(cfg, name));
    if i < |cfg.files[c]| {
      assert st.owned[i] == Seed(cfg, name);
      MendedSizesAreLengths(Len(cfg, name), seg);
    } else {
      assert FinishedOk(cfg, c, st.downloads, st.owned[i]);
      assert DownloadOk(cfg, c, st.downloads[st.owned[i].fp.k]);
      MendedSizesAreLengths(Known(cfg, name), seg);
    }
  }
}
