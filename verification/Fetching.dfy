/** Downloads carried through to the end, what they leave on disk, and what a reply that was cut
    short can do to them. */
module Fetching {
  import opened Basics
  import opened Wire
  import opened Segments
  import opened Swarm
  import opened Invariant
  import opened Tables
  import opened Reachable
  import opened Scenes
  import opened Runs
  import Client
  import Tracker
  import Progress

  // ---------- a reply in memory ----------

  /** Memory in which the reply has arrived, with these bytes behind the last one that counts. */
  function ReplyMemory(build: Build, m: Msg, behind: seq<byte>): seq<byte>
    requires m.SegRep?
  {
    Image(m)[..43 + Min(Delivered(build, |m.data|), |m.data|)] + behind
  }

  lemma {:induction false} ReplyMemoryReads(build: Build, m: Msg, b: byte)
    requires m.SegRep? && Fits(m)
    ensures Sent(build, m) <= ReplyMemory(build, m, Behind(b)) && |ReplyMemory(build, m, Behind(b))| >= 43 + 32768
    ensures ReadClient(ReplyMemory(build, m, Behind(b))).Some?
    ensures var r := ReadClient(ReplyMemory(build, m, Behind(b))).value;
      && r == m.(data := r.data) && |r.data| == m.size
      && forall o :: 0 <= o < m.size ==> r.data[o] == if o < Delivered(build, m.size) then m.data[o] else b
  {
    var keep := 43 + Delivered(build, m.size);
    var mem := ReplyMemory(build, m, Behind(b));
    assert mem == Image(m)[..keep] + Behind(b);
    SegRepHeader(m, mem, keep);
    assert Sent(build, m) <= Image(m)[..keep] by {
      assert |Sent(build, m)| <= keep;
    }
    var r := ReadClient(mem).value;
    forall o | 0 <= o < m.size
      ensures r.data[o] == if o < Delivered(build, m.size) then m.data[o] else b
    {
      assert r.data[o] == mem[43 + o];
    }
  }

  /** Memory in which a reply of at most one byte, cut inside its segment number, has arrived,
      with another number, a full segment's size and the same byte over and over behind it. */
  function CutMemory(m: Msg, seg: nat, b: byte): seq<byte>
    requires m.SegRep?
  {
    Short(39 + m.size) + Short(3) + Short(m.cid) + Pad(m.name) + Short(seg) + Short(SEGMENT_SIZE) + Behind(b)
  }

  lemma {:induction false} CutMemoryReads(m: Msg, seg: nat, b: byte)
    requires m.SegRep? && Fits(m) && m.size <= 1 && seg < MAX_SEGMENTS && 0 <= m.seg < MAX_SEGMENTS
    requires m.size == 1 ==> seg / 256 == m.seg / 256
    ensures Sent(Shipped, m) <= CutMemory(m, seg, b) && |CutMemory(m, seg, b)| >= 43 + 32768
    ensures ReadClient(CutMemory(m, seg, b)) == Some(SegRep(m.cid, m.name, seg, SEGMENT_SIZE, Repeat(SEGMENT_SIZE, b)))
  {
    hide Short, Pad, ReadClient, CutMemory, IsName, Image;
    var h := Short(39 + m.size) + Short(3) + Short(m.cid) + Pad(m.name);
    CutMemoryStands(m, h, seg, b);
    CutIsSent(m, h, seg, b);
    var mem := CutMemory(m, seg, b);
    SegRepReads(mem, h, 39 + m.size, m.cid, m.name, seg, SEGMENT_SIZE);
    assert mem[43..75] == Repeat(SEGMENT_SIZE, b);
  }

  lemma {:induction false} CutMemoryStands(m: Msg, h: seq<byte>, seg: nat, b: byte)
    requires m.SegRep? && h == Short(39 + m.size) + Short(3) + Short(m.cid) + Pad(m.name)
    ensures var mem := CutMemory(m, seg, b);
      && |h| == 39 && |mem| == 43 + 43 + 32768
      && mem[..39] == h && mem[39..41] == Short(seg) && mem[41..43] == Short(SEGMENT_SIZE)
      && forall i :: 43 <= i < |mem| ==> mem[i] == b
  {
    hide Short, Pad;
    assert CutMemory(m, seg, b) == h + Short(seg) + Short(SEGMENT_SIZE) + Behind(b);
  }

  lemma {:induction false} CutIsSent(m: Msg, h: seq<byte>, seg: nat, b: byte)
    requires m.SegRep? && Fits(m) && m.size <= 1 && seg < MAX_SEGMENTS && 0 <= m.seg < MAX_SEGMENTS
    requires m.size == 1 ==> seg / 256 == m.seg / 256
    requires h == Short(39 + m.size) + Short(3) + Short(m.cid) + Pad(m.name)
    ensures Sent(Shipped, m) <= CutMemory(m, seg, b)
  {
    HighBytes(seg, m.seg);
    hide Short, Pad, IsName, CutMemory, Image;
    CutMemoryStands(m, h, seg, b);
    SegRepImage(m, h);
    var mem := CutMemory(m, seg, b);
    assert mem[39] == mem[39..41][0];
    assert Sent(Shipped, m) == Image(m)[..39 + m.size];
    assert Image(m)[..39 + m.size] == mem[..39 + m.size];
  }

  lemma {:induction false} HighBytes(a: nat, b: nat)
    requires a < 65536 && b < 65536
    ensures a / 256 == b / 256 ==> Short(a)[0] == Short(b)[0]
  {
  }

  lemma {:induction false} SegRepReads(mem: seq<byte>, h: seq<byte>, len: int, cid: int, name: Name, seg: nat, size: nat)
    requires h == Short(len) + Short(3) + Short(cid) + Pad(name) && |mem| >= 43 + 32768
    requires mem[..39] == h && mem[39..41] == Short(seg) && mem[41..43] == Short(size)
    requires InShort(cid) && IsName(name) && seg < 32768 && size < 32768
    ensures ReadClient(mem) == Some(SegRep(cid, name, seg, size, mem[43..43 + size]))
  {
    hide Short, Pad, ShortAt, NameAt, IsName;
    NamedHeaderReads(mem, len, 3, cid, name);
    ShortReads(mem, 39, seg);
    ShortReads(mem, 41, size);
  }

  // ---------- from a seeder ----------

  /** Segment i as a seeder announces it. */
  function Announced(cfg: Config, n: Name, i: nat): nat
    requires n in cfg.source && NumSegments(Len(cfg, n)) <= MAX_SEGMENTS && i < NumSegments(Known(cfg, n))
  {
    NumSegmentsMonotone(Known(cfg, n), Len(cfg, n));
    SeedSizes(cfg.build, Len(cfg, n))[i]
  }

  lemma {:induction false} AnnouncedFits(cfg: Config, n: Name, i: nat)
    requires ConfigOk(cfg) && n in cfg.source && i < NumSegments(Known(cfg, n))
    ensures i < MAX_SEGMENTS && Announced(cfg, n, i) <= SEGMENT_SIZE
  {
    NumSegmentsMonotone(Known(cfg, n), Len(cfg, n));
    if cfg.build.Mended? { MendedSizesAreLengths(Len(cfg, n), i); } else { ShippedLastSize(Len(cfg, n)); }
  }

  /** The byte a download ends up with at position p when b lies behind every packet: the
      file's as far as the reply brings it, then b as far as the reply announces, then nothing. */
  function Outcome(cfg: Config, n: Name, b: byte, p: nat): byte
    requires n in cfg.source && NumSegments(Len(cfg, n)) <= MAX_SEGMENTS && p < Known(cfg, n)
  {
    var z := Announced(cfg, n, p / SEGMENT_SIZE);
    if p % SEGMENT_SIZE < Delivered(cfg.build, z) then cfg.source[n][p]
    else if p % SEGMENT_SIZE < z then b
    else 0
  }

  /** The first i segments have come in, and all are to be had from j. */
  ghost predicate Upto(cfg: Config, n: Name, d: Client.Download, j: int, i: nat)
    requires n in cfg.source
  {
    d.numSegs != 0 && d.have == Client.HavePrefix(i) && AllFrom(cfg, d, n, j)
  }

  ghost predicate Holding(cfg: Config, n: Name, b: byte, d: Client.Download, i: nat)
    requires ConfigOk(cfg) && n in cfg.source
  {
    d.rawInit && |d.raw| == Known(cfg, n) &&
    forall p: nat :: p < Known(cfg, n) ==> d.raw[p] == if p / SEGMENT_SIZE < i then Outcome(cfg, n, b, p) else 0
  }

  lemma {:induction false} SegmentComesIn(cfg: Config, n: Name, b: byte, d: Client.Download, i: nat, data: seq<byte>)
    requires ConfigOk(cfg) && n in cfg.source && i < NumSegments(Known(cfg, n)) && Holding(cfg, n, b, d, i)
    requires var z := Announced(cfg, n, i);
      |data| == z && forall o :: 0 <= o < z ==>
        data[o] == if o < Delivered(cfg.build, z) then Client.CopyOut(cfg.source[n], SEGMENT_SIZE * i, z, [])[o] else b
    ensures i < MAX_SEGMENTS && Holding(cfg, n, b, Client.ApplyReply(d, i, data), i + 1)
  {
    AnnouncedFits(cfg, n, i);
    hide Client.CopyOut, SeedSizes, PrefixFree;
    var raw := Client.CopyIn(d.raw, SEGMENT_SIZE * i, data);
    forall p: nat | p < Known(cfg, n)
      ensures raw[p] == if p / SEGMENT_SIZE < i + 1 then Outcome(cfg, n, b, p) else 0
    {
      if p / SEGMENT_SIZE == i {
        var o := p % SEGMENT_SIZE;
        assert p == SEGMENT_SIZE * i + o;
        if o < |data| { assert raw[p] == data[o]; }
      } else {
        assert !(SEGMENT_SIZE * i <= p < SEGMENT_SIZE * (i + 1));
      }
    }
  }

  /** Client s serves what it loaded from disk. */
  ghost predicate Seeding(cfg: Config, s: nat, n: Name, st: Client.State) {
    ConfigOk(cfg) && n in cfg.source && Holds0(cfg, s, n) && Serving(cfg, n, st)
  }

  lemma {:induction false} SeederAnswers(cfg: Config, s: nat, st: Client.State, n: Name, i: nat)
    requires s < MAX_CLIENTS && Seeding(cfg, s, n, st) && LocalOk(cfg, s, st) && i < NumSegments(Known(cfg, n))
    ensures Client.OwnedAs(st.owned, n) < |st.owned|
    ensures i < |EntryOf(st, n).sizes| && EntryOf(st, n).sizes[i] == Announced(cfg, n, i) <= SEGMENT_SIZE && i < MAX_SEGMENTS
    ensures var z := Announced(cfg, n, i);
      AnswerOf(st, s, n, i) == SegRep(s, n, i, z, Client.CopyOut(cfg.source[n], SEGMENT_SIZE * i, z, [])) && Fits(AnswerOf(st, s, n, i))
  {
    hide LocalOk, PrefixFree, Client.CopyOut;
    SeedEntry(cfg, s, st, n);
    AnnouncedFits(cfg, n, i);
  }

  /** What a round of fetching leaves as it was. */
  ghost predicate Round(w: World, w': World, j: nat, l: nat) {
    && |w.clients| == |w'.clients| == MAX_CLIENTS && j < MAX_CLIENTS && l < MAX_CLIENTS && j != l
    && w'.clients == w.clients[j := w'.clients[j]][l := w'.clients[l]]
    && w'.tracker == w.tracker && w.net <= w'.net
    && SameButAddrs(w.clients[j], w'.clients[j])
    && w'.clients[l].groups == w.clients[l].groups
  }

  lemma {:induction false} Rounds(w: World, w1: World, w2: World, j: nat, l: nat)
    requires Round(w, w1, j, l) && Round(w1, w2, j, l)
    ensures Round(w, w2, j, l)
  {
  }

  lemma {:induction false} NoRound(w: World, j: nat, l: nat)
    requires |w.clients| == MAX_CLIENTS && j < MAX_CLIENTS && l < MAX_CLIENTS && j != l
    ensures Round(w, w, j, l)
  {
  }

  /** One round with a seeder: request, answer, arrival. */
  lemma {:induction false} FetchOne(cfg: Config, w: World, s: nat, l: nat, k: nat, n: Name, b: byte, i: nat) returns (w': World)
    requires Scene(cfg, w) && s < MAX_CLIENTS && l < MAX_CLIENTS && s != l && Seeding(cfg, s, n, w.clients[s]) && Wants(w.clients[l], k, n)
    requires Upto(cfg, n, w.clients[l].downloads[k], s, i) && Holding(cfg, n, b, w.clients[l].downloads[k], i)
    requires i < NumSegments(Known(cfg, n))
    ensures Scene(cfg, w') && Round(w, w', s, l) && Seeding(cfg, s, n, w'.clients[s]) && Wants(w'.clients[l], k, n)
    ensures Upto(cfg, n, w'.clients[l].downloads[k], s, i + 1) && Holding(cfg, n, b, w'.clients[l].downloads[k], i + 1)
  {
    hide Scene, ConfigOk, LocalOk, TrackerOk, Wants, Serving, AllFrom, Fits, Client.OnSegRep, Holding, Client.HavePrefix, Client.CopyOut;
    hide SameButAddrs, EntryOf, AnswerOf, ReplyMemory, ReadClient, Client.ApplyReply, Announced, Sent;
    SceneConfig(cfg, w);
    SceneOk(cfg, w);
    RunningWants(w.clients[l], k, n);
    SeederAnswers(cfg, s, w.clients[s], n, i);
    var w1 := Obtains(cfg, w, s, l, k, n, i);
    StillServing(cfg, n, w.clients[s], w1.clients[s]);
    var m := AnswerOf(w.clients[s], s, n, i);
    ReplyMemoryReads(cfg.build, m, b);
    var mem := ReplyMemory(cfg.build, m, Behind(b));
    var r := ReadClient(mem).value;
    w' := SegmentArrival(cfg, w1, l, Packet(cfg.ports[s], cfg.ports[l], m), mem, r);
    Applies(cfg, l, w.clients[l], k, n, s, i, r.data, cfg.ports[s]);
    SegmentComesIn(cfg, n, b, w.clients[l].downloads[k], i, r.data);
    ApplyMarks(cfg, n, w.clients[l].downloads[k], s, i, i, r.data);
  }

  lemma {:induction false} ApplyMarks(cfg: Config, n: Name, d: Client.Download, j: int, i: nat, seg: nat, data: seq<byte>)
    requires n in cfg.source && Upto(cfg, n, d, j, i) && seg <= i < MAX_SEGMENTS
    ensures Upto(cfg, n, Client.ApplyReply(d, seg, data), j, if seg == i then i + 1 else i)
  {
    var have := d.have[seg := true];
    assert have == Client.HavePrefix(if seg == i then i + 1 else i);
  }

  /** All rounds up to segment m. */
  lemma {:induction false} FetchTo(cfg: Config, w: World, s: nat, l: nat, k: nat, n: Name, b: byte, m: nat) returns (w': World)
    requires Scene(cfg, w) && s < MAX_CLIENTS && l < MAX_CLIENTS && s != l && Seeding(cfg, s, n, w.clients[s]) && Wants(w.clients[l], k, n)
    requires Upto(cfg, n, w.clients[l].downloads[k], s, 0) && Holding(cfg, n, b, w.clients[l].downloads[k], 0)
    requires m <= NumSegments(Known(cfg, n))
    ensures Scene(cfg, w') && Round(w, w', s, l) && Seeding(cfg, s, n, w'.clients[s]) && Wants(w'.clients[l], k, n)
    ensures Upto(cfg, n, w'.clients[l].downloads[k], s, m) && Holding(cfg, n, b, w'.clients[l].downloads[k], m)
    decreases m
  {
    assert |w.clients| == MAX_CLIENTS;
    hide Scene, Seeding, Wants, Upto, Holding, Round;
    if m == 0 {
      w' := w;
      NoRound(w, s, l);
    } else {
      var w1 := FetchTo(cfg, w, s, l, k, n, b, m - 1);
      w' := FetchOne(cfg, w1, s, l, k, n, b, m - 1);
      Rounds(w, w1, w', s, l);
    }
  }

  // ---------- from the first announcement on ----------

  /** Client s starts with the file and its task k is announced as sharing it. */
  ghost predicate CanSeed(cfg: Config, s: nat, k: nat, n: Name) {
    && ConfigOk(cfg) && n in cfg.source && Known(cfg, n) > 0
    && s < MAX_CLIENTS && Holds0(cfg, s, n) && k < |cfg.tasks[s]| && cfg.tasks[s][k].name == n
    && Tracker.Shares(Client.Kind(cfg.build, true, cfg.tasks[s][k].share, 2))
  }

  /** Client l wants the file, knows its size, and is to ask s for all of it. */
  ghost predicate Ready(cfg: Config, w: World, s: nat, l: nat, k: nat, n: Name) {
    && Scene(cfg, w) && s < MAX_CLIENTS && l < MAX_CLIENTS && s != l
    && Seeding(cfg, s, n, w.clients[s]) && Wants(w.clients[l], k, n)
    && Upto(cfg, n, w.clients[l].downloads[k], s, 0)
    && w.clients[l].downloads[k].rawInit && w.clients[l].downloads[k].raw == Zeros(Known(cfg, n))
  }

  lemma {:induction false} ReadyMeans(cfg: Config, w: World, s: nat, l: nat, k: nat, n: Name)
    requires Ready(cfg, w, s, l, k, n)
    ensures ConfigOk(cfg) && n in cfg.source && Scene(cfg, w) && |w.clients| == MAX_CLIENTS
    ensures s < MAX_CLIENTS && l < MAX_CLIENTS && s != l && k < |w.clients[l].downloads|
    ensures Seeding(cfg, s, n, w.clients[s]) && Serving(cfg, n, w.clients[s]) && Wants(w.clients[l], k, n)
    ensures Upto(cfg, n, w.clients[l].downloads[k], s, 0) && forall b :: Holding(cfg, n, b, w.clients[l].downloads[k], 0)
  {
  }

  ghost predicate Known2(t: Tracker.State, n: Name, s: int) {
    Sharing(t, n, s) && SizeKnown(t, n)
  }

  /** From an idle client l to one that is ready to fetch from a seeder the tracker knows. */
  lemma {:induction false} GetsReady(cfg: Config, w: World, s: nat, l: nat, k: nat, n: Name) returns (w': World)
    requires Scene(cfg, w) && s < MAX_CLIENTS && l < MAX_CLIENTS && s != l && Seeding(cfg, s, n, w.clients[s])
    requires Known2(w.tracker, n, s) && w.clients[l] == StartOf(cfg, l) && FirstTask(cfg, l, k, n) && !Holds0(cfg, l, n)
    ensures Ready(cfg, w', s, l, k, n) && AllListed(w.tracker, n, w'.clients[l].groups)
    ensures w'.clients == w.clients[s := w'.clients[s]][l := w'.clients[l]]
    ensures SizeKnown(w'.tracker, n) && forall j :: Sharing(w.tracker, n, j) ==> Sharing(w'.tracker, n, j)
  {
    hide Scene, Sharing, SizeKnown, Client.Neighbors, Serving, LocalOk, Zeros, Client.HavePrefix, StartOf, PrefixFree;
    SceneConfig(cfg, w);
    var w1 := Told(cfg, w, l, k, n);
    RunningWants(w1.clients[l], k, n);
    w' := FindsSource(cfg, w1, s, l, k, n);
    StillServing(cfg, n, w.clients[s], w'.clients[s]);
  }

  /** From the beginning: s announces the file, l gets ready. */
  lemma {:induction false} SeederAndLeech(cfg: Config, s: nat, ks: nat, l: nat, k: nat, n: Name) returns (w: World)
    requires CanSeed(cfg, s, ks, n) && l < MAX_CLIENTS && s != l && FirstTask(cfg, l, k, n) && !Holds0(cfg, l, n)
    ensures Ready(cfg, w, s, l, k, n) && Known2(w.tracker, n, s)
    ensures forall c :: 0 <= c < MAX_CLIENTS && c != s && c != l ==> w.clients[c] == StartOf(cfg, c)
  {
    hide Scene, Sharing, SizeKnown, Serving, StartOf, PrefixFree, Wants, Upto;
    var w0 := Beginning(cfg);
    var w1 := SeederIsHeard(cfg, w0, s, ks, n);
    w := GetsReady(cfg, w1, s, l, k, n);
  }

  /** The whole download, and its last tick. */
  lemma {:induction false} FetchesAll(cfg: Config, w: World, s: nat, l: nat, k: nat, n: Name, b: byte) returns (w': World, st: Client.State)
    requires Ready(cfg, w, s, l, k, n)
    ensures ConfigOk(cfg) && n in cfg.source && s < MAX_CLIENTS && l < MAX_CLIENTS && s != l && |w.clients| == |w'.clients| == MAX_CLIENTS
    ensures k < |st.downloads| && |st.disk| == 0
    ensures Scene(cfg, w') && Seeding(cfg, s, n, w'.clients[s]) && LocalOk(cfg, l, st) && Wants(st, k, n)
    ensures Upto(cfg, n, st.downloads[k], s, NumSegments(Known(cfg, n))) && Holding(cfg, n, b, st.downloads[k], NumSegments(Known(cfg, n)))
    ensures w'.clients == w.clients[s := w'.clients[s]][l := Client.Finish(cfg.build, st, k, [])] && w'.tracker == w.tracker
  {
    hide Ready, Scene, Seeding, Wants, Upto, Holding, LocalOk, TrackerOk, ConfigOk, Client.Finish;
    ReadyMeans(cfg, w, s, l, k, n);
    var w1 := FetchTo(cfg, w, s, l, k, n, b, NumSegments(Known(cfg, n)));
    SceneOk(cfg, w1);
    st := w1.clients[l];
    RunningWants(st, k, n);
    UptoMeans(cfg, n, st.downloads[k], s, NumSegments(Known(cfg, n)));
    w' := Finishes(cfg, w1, l, k, n);
    assert w'.clients[s] == w1.clients[s];
  }

  lemma {:induction false} UptoMeans(cfg: Config, n: Name, d: Client.Download, j: int, i: nat)
    requires n in cfg.source && Upto(cfg, n, d, j, i)
    ensures d.numSegs != 0 && d.have == Client.HavePrefix(i)
  {
  }

  // ---------- a downloader serves in turn ----------

  lemma {:induction false} FinishedReady(cfg: Config, l: nat, st: Client.State, k: nat, n: Name)
    requires ConfigOk(cfg) && l < MAX_CLIENTS && LocalOk(cfg, l, st) && n in cfg.source && Wants(st, k, n)
    requires st.downloads[k].numSegs != 0 && st.downloads[k].have == Client.HavePrefix(NumSegments(Known(cfg, n)))
    ensures var st' := Client.Finish(cfg.build, st, k, []);
      && MayTick(st') && OnlyEnabled(st'.downloads, k)
      && ItemOf(cfg.build, st', k) == Item(n, st.downloads[k].filesize, Client.Kind(cfg.build, true, st.downloads[k].share, 2))
      && Serving(cfg, n, Ticked(st')) && Ticked(st').disk == [(n, st.downloads[k].raw)]
  {
    hide Filled, Origin, PrefixFree, Client.Kind, OwnedOk, DoneOk, FinishedSizes;
    var d := st.downloads[k];
    assert DownloadOk(cfg, l, d);
    FindsFirst(cfg, l, st.downloads, k, n);
    Progress.UndoneIsNotOwned(cfg, l, st, k);
    var st' := Client.Finish(cfg.build, st, k, []);
    var fi := st'.owned[|st.owned|];
    assert d.name + [] == d.name;
    assert fi.name == n && fi.size == d.filesize;
    LastIsFound(st.owned, fi, n);
    SameHave(st'.owned, st'.downloads);
    SameSearch(st.downloads, Client.AnnounceAll(st'.owned, st'.downloads), n);
  }

  lemma {:induction false} LastIsFound(owned: seq<Client.FileInfo>, fi: Client.FileInfo, n: Name)
    requires fi.name == n && Client.OwnedFor(owned, n) == |owned|
    ensures var more := owned + [fi];
      Client.OwnedFor(more, n) == |owned| && Client.OwnedAs(more, n) <= |owned|
  {
    var more := owned + [fi];
    assert more[|owned|] == fi && Client.Matches(n, n);
  }

  lemma {:induction false} OnlyEnabledMeans(ds: seq<Client.Download>, k: nat)
    requires OnlyEnabled(ds, k)
    ensures k < |ds|
  {
  }

  /** A client that has finished its download announces it, and is listed as sharing it. */
  lemma {:induction false} Reshares(cfg: Config, w: World, l: nat, st: Client.State, k: nat, n: Name) returns (w': World)
    requires Scene(cfg, w) && l < MAX_CLIENTS && n in cfg.source && Wants(st, k, n) && LocalOk(cfg, l, st)
    requires st.downloads[k].numSegs != 0 && st.downloads[k].have == Client.HavePrefix(NumSegments(Known(cfg, n)))
    requires w.clients[l] == Client.Finish(cfg.build, st, k, [])
    requires Tracker.Shares(Client.Kind(cfg.build, true, st.downloads[k].share, 2))
    ensures Scene(cfg, w') && w'.clients == w.clients[l := w'.clients[l]] && Serving(cfg, n, w'.clients[l])
    ensures Sharing(w'.tracker, n, l) && w'.clients[l].disk == [(n, st.downloads[k].raw)]
    ensures (SizeKnown(w.tracker, n) ==> SizeKnown(w'.tracker, n)) && forall j :: Sharing(w.tracker, n, j) ==> Sharing(w'.tracker, n, j)
  {
    hide Scene, Serving, Wants, LocalOk, Client.HavePrefix, Client.Finish, ItemOf, Ticked, Heard, Sharing, SizeKnown, PrefixFree, MayTick, OnlyEnabled;
    SceneConfig(cfg, w);
    FinishedReady(cfg, l, st, k, n);
    assert k < |w.clients[l].downloads| by { OnlyEnabledMeans(w.clients[l].downloads, k); }
    w' := IsHeard(cfg, w, l, k);
    HeardKeeps(w.tracker, l, Low(ItemOf(cfg.build, w.clients[l], k)), cfg.ports[l], n);
  }

  /** In the shipped build: l has downloaded the file from s and serves it; m is ready to fetch it
      from s, and has both listed. */
  ghost predicate Trio(cfg: Config, w: World, s: nat, l: nat, m: nat, k: nat, n: Name) {
    && Ready(cfg, w, s, m, k, n) && l < MAX_CLIENTS && l != s && l != m && !Holds0(cfg, l, n)
    && Serving(cfg, n, w.clients[l]) && l in Client.Neighbors(w.clients[m].groups, n)
  }

  lemma {:induction false} TrioHappens(cfg: Config, s: nat, ks: nat, l: nat, m: nat, n: Name) returns (w: World, k: nat)
    requires cfg.build.Shipped? && CanSeed(cfg, s, ks, n) && Fetches(cfg, l, n) && Fetches(cfg, m, n) && l != m
    ensures Trio(cfg, w, s, l, m, k, n)
  {
    hide Scene, Serving, Wants, LocalOk, Sharing, SizeKnown, Client.Neighbors, Upto, Holding, Ready, StartOf, Client.Finish, PrefixFree, Seeding;
    var kl := HasFirstTask(cfg, l, n);
    k := HasFirstTask(cfg, m, n);
    var w1 := SeederAndLeech(cfg, s, ks, l, kl, n);
    var w2, st := FetchesAll(cfg, w1, s, l, kl, n, 0);
    UptoMeans(cfg, n, st.downloads[kl], s, NumSegments(Known(cfg, n)));
    RunningWants(st, kl, n);
    ShippedShares(true, st.downloads[kl].share);
    assert w2.clients[l] == Client.Finish(cfg.build, st, kl, []);
    var w3 := Reshares(cfg, w2, l, st, kl, n);
    assert w3.clients[s] == w2.clients[s] && w3.clients[m] == StartOf(cfg, m);
    w := GetsReady(cfg, w3, s, m, k, n);
    assert w.clients[l] == w3.clients[l];
  }

  /** The shipped type of a file that is held may always read as one that shares. */
  lemma {:induction false} ShippedShares(held: bool, share: int)
    requires held || share != 0
    ensures Tracker.Shares(Client.Kind(Shipped, held, share, 2))
  {
  }

  // ---------- a reply that was cut short ----------

  /** The answer of j to a request for the last segment has at most one byte: then it can be
      taken for segment seg. */
  ghost predicate Spoils(cfg: Config, j: nat, st: Client.State, n: Name, seg: nat)
    requires n in cfg.source
  {
    var last := NumSegments(Known(cfg, n)) - 1;
    && seg < last < MAX_SEGMENTS
    && Client.OwnedAs(st.owned, n) < |st.owned| && last < |EntryOf(st, n).sizes| && 0 <= EntryOf(st, n).sizes[last] <= 1
    && (EntryOf(st, n).sizes[last] == 1 ==> seg / 256 == last / 256)
  }

  lemma {:induction false} SpoiledAnswer(cfg: Config, j: nat, st: Client.State, n: Name, seg: nat)
    requires ConfigOk(cfg) && n in cfg.source && j < MAX_CLIENTS && Spoils(cfg, j, st, n, seg)
    ensures var last := NumSegments(Known(cfg, n)) - 1;
      var m := AnswerOf(st, j, n, last);
      && m.SegRep? && Fits(m) && m.cid == j && m.name == n && m.seg == last && m.size <= 1 && |m.data| == m.size
      && (m.size == 1 ==> seg / 256 == last / 256)
  {
    hide Client.OwnedAs, PrefixFree;
  }

  /** What the cut reply and then the whole one do to the buffer. */
  lemma {:induction false} SpoiledBytes(d: Client.Download, seg: nat, last: nat, b: byte, data: seq<byte>)
    requires seg < last < MAX_SEGMENTS && d.rawInit && SEGMENT_SIZE * last <= |d.raw| && |data| <= 1
    ensures var d' := Client.ApplyReply(Client.ApplyReply(d, seg, Repeat(SEGMENT_SIZE, b)), last, data);
      |d'.raw| == |d.raw| && d'.raw[SEGMENT_SIZE * seg] == b
  {
  }

  /** A reply for the last segment, of at most one byte, is under way to client l. */
  ghost predicate LastUnderWay(cfg: Config, w: World, j: nat, l: nat, k: nat, n: Name, m: Msg)
    requires n in cfg.source
  {
    var last := NumSegments(Known(cfg, n)) - 1;
    && Scene(cfg, w) && j < MAX_CLIENTS && l < MAX_CLIENTS && Packet(cfg.ports[j], cfg.ports[l], m) in w.net
    && Wants(w.clients[l], k, n) && Upto(cfg, n, w.clients[l].downloads[k], j, last)
    && m.SegRep? && Fits(m) && m.cid == j && m.name == n && m.seg == last < MAX_SEGMENTS && m.size <= 1 && |m.data| == m.size
  }

  /** It arrives, and is taken for segment seg. */
  lemma {:induction false} CutArrives(cfg: Config, w: World, j: nat, l: nat, k: nat, n: Name, m: Msg, seg: nat, b: byte) returns (w': World)
    requires cfg.build.Shipped? && n in cfg.source && LastUnderWay(cfg, w, j, l, k, n, m)
    requires seg < m.seg && (m.size == 1 ==> seg / 256 == m.seg / 256)
    ensures LastUnderWay(cfg, w', j, l, k, n, m)
    ensures w'.clients[l].downloads[k] == Client.ApplyReply(w.clients[l].downloads[k], seg, Repeat(SEGMENT_SIZE, b))
  {
    hide Scene, Wants, LocalOk, TrackerOk, Client.OnSegRep, ReadClient, Sent, CutMemory, Client.ApplyReply, Repeat, Fits, PrefixFree, Upto;
    SceneConfig(cfg, w);
    SceneOk(cfg, w);
    RunningWants(w.clients[l], k, n);
    CutMemoryReads(m, seg, b);
    var data := Repeat(SEGMENT_SIZE, b);
    w' := SegmentArrival(cfg, w, l, Packet(cfg.ports[j], cfg.ports[l], m), CutMemory(m, seg, b), SegRep(j, n, seg, SEGMENT_SIZE, data));
    Applies(cfg, l, w.clients[l], k, n, j, seg, data, cfg.ports[j]);
    ApplyMarks(cfg, n, w.clients[l].downloads[k], j, m.seg, seg, data);
  }

  /** It arrives as it was meant, and completes the download. */
  lemma {:induction false} WholeArrives(cfg: Config, w: World, j: nat, l: nat, k: nat, n: Name, m: Msg) returns (w': World, data: seq<byte>)
    requires n in cfg.source && LastUnderWay(cfg, w, j, l, k, n, m)
    ensures Scene(cfg, w') && |w'.clients| == MAX_CLIENTS && Wants(w'.clients[l], k, n) && |data| <= 1
    ensures Upto(cfg, n, w'.clients[l].downloads[k], j, NumSegments(Known(cfg, n)))
    ensures w'.clients[l].downloads[k] == Client.ApplyReply(w.clients[l].downloads[k], m.seg, data)
  {
    hide Scene, Wants, LocalOk, TrackerOk, Client.OnSegRep, ReadClient, Sent, ReplyMemory, Client.ApplyReply, Fits, PrefixFree, Upto;
    SceneConfig(cfg, w);
    SceneOk(cfg, w);
    RunningWants(w.clients[l], k, n);
    ReplyMemoryReads(cfg.build, m, 0);
    var r := ReadClient(ReplyMemory(cfg.build, m, Behind(0))).value;
    data := r.data;
    w' := SegmentArrival(cfg, w, l, Packet(cfg.ports[j], cfg.ports[l], m), ReplyMemory(cfg.build, m, Behind(0)), r);
    Applies(cfg, l, w.clients[l], k, n, j, m.seg, data, cfg.ports[j]);
    ApplyMarks(cfg, n, w.clients[l].downloads[k], j, m.seg, m.seg, data);
  }

  /** It arrives twice: the file is written with another segment spoiled. */
  lemma {:induction false} EndsSpoiled(cfg: Config, w: World, j: nat, l: nat, k: nat, n: Name, m: Msg, seg: nat, b: byte) returns (w': World, bytes: seq<byte>)
    requires cfg.build.Shipped? && n in cfg.source && LastUnderWay(cfg, w, j, l, k, n, m)
    requires seg < m.seg && (m.size == 1 ==> seg / 256 == m.seg / 256)
    ensures Scene(cfg, w') && |w'.clients| == MAX_CLIENTS && w'.clients[l].disk == [(n, bytes)]
    ensures SEGMENT_SIZE * seg < |bytes| == Known(cfg, n) && bytes[SEGMENT_SIZE * seg] == b
  {
    hide Scene, Wants, LocalOk, TrackerOk, Fits, Client.ApplyReply, Client.Finish, PrefixFree, Upto;
    SceneConfig(cfg, w);
    SceneOk(cfg, w);
    RunningWants(w.clients[l], k, n);
    var d := w.clients[l].downloads[k];
    UptoMeans(cfg, n, d, j, m.seg);
    SizedBuffer(cfg, l, w.clients[l], k);
    var w1 := CutArrives(cfg, w, j, l, k, n, m, seg, b);
    var w2, data := WholeArrives(cfg, w1, j, l, k, n, m);
    RunningWants(w2.clients[l], k, n);
    SpoiledBytes(d, seg, m.seg, b, data);
    UptoMeans(cfg, n, w2.clients[l].downloads[k], j, m.seg + 1);
    w' := Finishes(cfg, w2, l, k, n);
    bytes := w2.clients[l].downloads[k].raw;
    FinishWrites(cfg.build, w2.clients[l], k, n);
  }

  /** With everything before the last segment there, the file can end up spoiled. */
  lemma {:induction false} SpoilsLast(cfg: Config, w: World, j: nat, l: nat, k: nat, n: Name, seg: nat, b: byte) returns (w': World, bytes: seq<byte>)
    requires cfg.build.Shipped? && Scene(cfg, w) && j < MAX_CLIENTS && l < MAX_CLIENTS && j != l && n in cfg.source
    requires Serving(cfg, n, w.clients[j]) && Wants(w.clients[l], k, n) && Spoils(cfg, j, w.clients[j], n, seg)
    requires Upto(cfg, n, w.clients[l].downloads[k], j, NumSegments(Known(cfg, n)) - 1)
    ensures Scene(cfg, w') && |w'.clients| == MAX_CLIENTS && w'.clients[l].disk == [(n, bytes)]
    ensures SEGMENT_SIZE * seg < |bytes| == Known(cfg, n) && bytes[SEGMENT_SIZE * seg] == b
  {
    hide Scene, Serving, Wants, AnswerOf, Fits, PrefixFree, Client.OwnedAs, EntryOf;
    SceneConfig(cfg, w);
    SpoiledAnswer(cfg, j, w.clients[j], n, seg);
    var last := NumSegments(Known(cfg, n)) - 1;
    var w1 := Obtains(cfg, w, j, l, k, n, last);
    w', bytes := EndsSpoiled(cfg, w1, j, l, k, n, AnswerOf(w.clients[j], j, n, last), seg, b);
  }

  lemma {:induction false} SizedBuffer(cfg: Config, l: nat, st: Client.State, k: nat)
    requires ConfigOk(cfg) && l < MAX_CLIENTS && LocalOk(cfg, l, st) && k < |st.downloads| && st.downloads[k].numSegs != 0 && !st.downloads[k].done
    ensures var d := st.downloads[k];
      d.name in cfg.source && d.rawInit && |d.raw| == Known(cfg, d.name) && SEGMENT_SIZE * (NumSegments(Known(cfg, d.name)) - 1) <= |d.raw|
  {
    hide PrefixFree, OwnedOk, DoneOk, Origin;
    assert DownloadOk(cfg, l, st.downloads[k]);
  }

  lemma {:induction false} FinishWrites(build: Build, st: Client.State, k: nat, n: Name)
    requires Wants(st, k, n)
    ensures Client.Finish(build, st, k, []).disk == [(n, st.downloads[k].raw)]
  {
  }
}
