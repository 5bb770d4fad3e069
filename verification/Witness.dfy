/** Exactly when things can go wrong: what the invariant does not exclude does happen in some run. */
module Witness {
  import opened Basics
  import opened Wire
  import opened Segments
  import opened Swarm
  import opened Invariant
  import opened Tables
  import opened Reachable
  import opened Scenes
  import opened Runs
  import opened Fetching
  import Client
  import Tracker
  import Safety
  import Knowledge

  // ---------- who is listed as sharing ----------

  /** The tracker lists exactly the clients of which MayShare says so: in the mended build those
      with a task to share the file; in the shipped build also any with a task for a file that it
      starts with or can download, whatever its share flag. */
  lemma {:induction false} ListedIff(cfg: Config, c: int, n: Name)
    requires ConfigOk(cfg)
    ensures (exists w :: Reached(cfg, w) && Knowledge.Listed(w.tracker.groups, n, c)) <==> MayShare(cfg, c, n)
  {
    hide Reached, PrefixFree, Origin, HasTask;
    if w :| Reached(cfg, w) && Knowledge.Listed(w.tracker.groups, n, c) {
      Knowledge.KnowledgeIsContained(cfg, w);
    }
    if MayShare(cfg, c, n) {
      var w := IsListed(cfg, c, n);
      assert Reached(cfg, w) by { SceneReached(cfg, w); }
      SharingIsListed(w.tracker, n, c);
    }
  }

  lemma {:induction false} SceneReached(cfg: Config, w: World)
    requires Scene(cfg, w)
    ensures Reached(cfg, w)
  {
  }

  lemma {:induction false} SharingIsListed(t: Tracker.State, n: Name, c: int)
    requires Sharing(t, n, c)
    ensures Knowledge.Listed(t.groups, n, c)
  {
  }

  lemma {:induction false} IsListed(cfg: Config, c: nat, n: Name) returns (w: World)
    requires ConfigOk(cfg) && MayShare(cfg, c, n)
    ensures Scene(cfg, w) && Sharing(w.tracker, n, c)
  {
    hide Scene, Sharing, PrefixFree;
    if cfg.build.Mended? {
      var k :| 0 <= k < |cfg.tasks[c]| && cfg.tasks[c][k] == Client.Task(n, 1);
      w := AnnouncesSharing(cfg, c, k);
    } else if OffersTask(cfg, c, n) {
      var k :| 0 <= k < |cfg.tasks[c]| && cfg.tasks[c][k].name == n && cfg.tasks[c][k].share != 0;
      w := AnnouncesSharing(cfg, c, k);
    } else if Holds0(cfg, c, n) {
      var k :| 0 <= k < |cfg.tasks[c]| && cfg.tasks[c][k].name == n;
      w := AnnouncesSharing(cfg, c, k);
    } else {
      var l, ks := SomeSeeder(cfg, n);
      w := DownloadsAndShares(cfg, l, ks, c, n);
    }
  }

  /** A client announces one of its tasks first thing, every uninitialised variable being 2. */
  lemma {:induction false} AnnouncesSharing(cfg: Config, c: nat, k: nat) returns (w: World)
    requires ConfigOk(cfg) && c < MAX_CLIENTS && k < |cfg.tasks[c]|
    requires cfg.tasks[c][k].share == 1 || (cfg.build.Shipped? && (cfg.tasks[c][k].share != 0 || Holds0(cfg, c, cfg.tasks[c][k].name)))
    ensures Scene(cfg, w) && Sharing(w.tracker, cfg.tasks[c][k].name, c)
  {
    hide Scene, Sharing, PrefixFree, StartOf, Ticked, Heard, ItemOf, LocalOk, Tracker.Assignment;
    var n := cfg.tasks[c][k].name;
    var w0 := Beginning(cfg);
    var w1, st;
    w, w1, st := FirstHeard(cfg, w0, c, k);
    EnabledFirst(cfg, c, k);
    StartNames(cfg, c, k);
    if Holds0(cfg, c, n) {
      HeldItem(cfg, c, st, k);
    } else {
      NotHeldItem(cfg, c, st, k);
    }
    HeardKeeps(w0.tracker, c, Low(ItemOf(cfg.build, st, k)), cfg.ports[c], n);
  }

  lemma {:induction false} NotHeldItem(cfg: Config, c: nat, st: Client.State, k: nat)
    requires ConfigOk(cfg) && c < MAX_CLIENTS && k < |st.downloads| && st.owned == StartOf(cfg, c).owned
    requires st.downloads[k].name in cfg.source && !Holds0(cfg, c, st.downloads[k].name)
    ensures ItemOf(cfg.build, st, k).name == st.downloads[k].name
    ensures ItemOf(cfg.build, st, k).kind == Client.Kind(cfg.build, false, st.downloads[k].share, 2)
  {
    hide StartOf;
    NotHeldAtStart(cfg, c, st.downloads[k].name);
  }

  lemma {:induction false} SomeSeeder(cfg: Config, n: Name) returns (s: nat, k: nat)
    requires ConfigOk(cfg) && cfg.build.Shipped? && n in cfg.source && Known(cfg, n) > 0 && Origin(cfg, n)
    ensures CanSeed(cfg, s, k, n)
  {
    hide PrefixFree;
    var c :| Holds0(cfg, c, n) && HasTask(cfg, c, n);
    s := c;
    k :| 0 <= k < |cfg.tasks[s]| && cfg.tasks[s][k].name == n;
    ShippedShares(true, cfg.tasks[s][k].share);
  }

  lemma {:induction false} DownloadsAndShares(cfg: Config, s: nat, ks: nat, l: nat, n: Name) returns (w: World)
    requires cfg.build.Shipped? && CanSeed(cfg, s, ks, n) && Fetches(cfg, l, n)
    ensures Scene(cfg, w) && Sharing(w.tracker, n, l)
  {
    hide Scene, Sharing, Wants, LocalOk, Upto, Holding, Ready, Client.Finish, Seeding, Serving, Client.HavePrefix;
    var k := HasFirstTask(cfg, l, n);
    var w1 := SeederAndLeech(cfg, s, ks, l, k, n);
    var w2, st := FetchesAll(cfg, w1, s, l, k, n, 0);
    UptoMeans(cfg, n, st.downloads[k], s, NumSegments(Known(cfg, n)));
    ShippedShares(true, st.downloads[k].share);
    w := Reshares(cfg, w2, l, st, k, n);
  }

  // ---------- downloads happen ----------

  /** From any seeder to any client that wants the file, of any size, with any byte lying behind
      packets: the download can be carried through, and this is what is written. */
  lemma {:induction false} DownloadHappens(cfg: Config, s: nat, ks: nat, l: nat, n: Name, b: byte) returns (w: World, bytes: seq<byte>)
    requires CanSeed(cfg, s, ks, n) && Fetches(cfg, l, n)
    ensures Reached(cfg, w) && |w.clients| == MAX_CLIENTS && w.clients[l].disk == [(n, bytes)]
    ensures |bytes| == Known(cfg, n) && forall p: nat :: p < |bytes| ==> bytes[p] == Outcome(cfg, n, b, p)
  {
    hide Scene, Wants, LocalOk, Upto, Holding, Ready, Client.Finish, Seeding, Serving;
    var k := HasFirstTask(cfg, l, n);
    var w1 := SeederAndLeech(cfg, s, ks, l, k, n);
    var st;
    w, st := FetchesAll(cfg, w1, s, l, k, n, b);
    SceneReached(cfg, w);
    FinishWrites(cfg.build, st, k, n);
    bytes := st.downloads[k].raw;
    HeldInFull(cfg, n, b, st.downloads[k]);
  }

  lemma {:induction false} HeldInFull(cfg: Config, n: Name, b: byte, d: Client.Download)
    requires ConfigOk(cfg) && n in cfg.source && Holding(cfg, n, b, d, NumSegments(Known(cfg, n)))
    ensures |d.raw| == Known(cfg, n) && forall p: nat :: p < |d.raw| ==> d.raw[p] == Outcome(cfg, n, b, p)
  {
    hide Outcome, PrefixFree;
    assert forall p: nat :: p < Known(cfg, n) ==> p / SEGMENT_SIZE < NumSegments(Known(cfg, n));
  }

  /** The mended code can deliver every file as far as it fits the wire. */
  lemma {:induction false} MendedDownloadHappens(cfg: Config, s: nat, ks: nat, l: nat, n: Name) returns (w: World)
    requires CanSeed(cfg, s, ks, n) && Fetches(cfg, l, n) && cfg.build.Mended?
    ensures Reached(cfg, w) && |w.clients| == MAX_CLIENTS
    ensures w.clients[l].disk == [(n, cfg.source[n][..WireSize(|cfg.source[n]|)])]
  {
    hide Reached, PrefixFree, Outcome;
    var bytes;
    w, bytes := DownloadHappens(cfg, s, ks, l, n, 0);
    assert w.clients[l].disk[0] == (n, bytes);
    Safety.WrittenFilesAreTrue(cfg, w, l, 0);
  }

  /** A configuration in which client 0 has the file and the other clients named want it. */
  lemma {:induction false} SomeConfig(build: Build, n: Name, file: seq<byte>, m: nat) returns (cfg: Config)
    requires IsName(n) && NumSegments(|file|) <= MAX_SEGMENTS && WireSize(|file|) > 0 && m < MAX_CLIENTS
    ensures CanSeed(cfg, 0, 0, n) && cfg.build == build && cfg.source == map[n := file]
    ensures forall l :: 1 <= l <= m ==> Fetches(cfg, l, n) && cfg.files[l] == []
  {
    var ports := seq(MAX_CLIENTS, i => 1 + i);
    var files := [[n]] + Repeat(MAX_CLIENTS - 1, []);
    var tasks := Repeat(m + 1, [Client.Task(n, 1)]) + Repeat(MAX_CLIENTS - 1 - m, []);
    cfg := Config(build, ports, 0, files, tasks, map[n := file]);
    assert cfg.source.Keys == {n};
    assert forall c :: 0 <= c < MAX_CLIENTS ==> |files[c]| <= 1 && |tasks[c]| <= 1;
    forall l | 1 <= l <= m
      ensures Fetches(cfg, l, n)
    {
      assert cfg.tasks[l][0].name == n;
    }
    assert ConfigOk(cfg);
  }

  /** Every file of a size that fits the wire can be shared, downloaded and written, whole. */
  lemma {:induction false} EveryFileCanBeShared(n: Name, file: seq<byte>) returns (cfg: Config, w: World)
    requires IsName(n) && 0 < |file| < 65536
    ensures ConfigOk(cfg) && cfg.build.Mended? && cfg.files[1] == [] && cfg.source == map[n := file]
    ensures Reached(cfg, w) && |w.clients| == MAX_CLIENTS && w.clients[1].disk == [(n, file)]
  {
    hide Reached;
    cfg := SomeConfig(Mended, n, file, 1);
    w := MendedDownloadHappens(cfg, 0, 0, 1, n);
    assert file[..|file|] == file;
  }

  // ---------- when the shipped code can be trusted ----------

  /** Some client starts with the file and announces it, and another one is to download it. */
  ghost predicate CanBeHad(cfg: Config, n: Name)
    requires n in cfg.source
  {
    Known(cfg, n) > 0 && Origin(cfg, n) && exists l :: Fetches(cfg, l, n)
  }

  /** Every copy of the file that any client has written is the original. */
  ghost predicate Faithful(cfg: Config, w: World, n: Name)
    requires n in cfg.source
  {
    |w.clients| == MAX_CLIENTS && forall c, i :: 0 <= c < MAX_CLIENTS && 0 <= i < |w.clients[c].disk| && w.clients[c].disk[i].0 == n ==>
      w.clients[c].disk[i].1 == cfg.source[n]
  }

  /** Some announced byte of a longer file never reaches the wire. */
  lemma {:induction false} UncarriedByte(cfg: Config, n: Name) returns (p: nat)
    requires ConfigOk(cfg) && n in cfg.source && cfg.build.Shipped? && 14 < Len(cfg, n) < 65536
    ensures p < Known(cfg, n)
    ensures forall b: byte :: Outcome(cfg, n, b, p) == b
  {
    hide PrefixFree;
    var size := Len(cfg, n);
    ShippedLastSize(size);
    if size >= 32 {
      p := 28;
      assert Announced(cfg, n, 0) == 32;
    } else {
      p := if size < 28 then 28 - size else 0;
      assert Announced(cfg, n, 0) == 32 - size;
    }
  }

  /** A run that writes an unfaithful copy. */
  lemma {:induction false} Unfaithful(cfg: Config, n: Name) returns (w: World)
    requires ConfigOk(cfg) && cfg.build.Shipped? && n in cfg.source && CanBeHad(cfg, n) && |cfg.source[n]| > 14
    ensures Reached(cfg, w) && !Faithful(cfg, w, n)
  {
    hide Reached, PrefixFree, Outcome, Origin, Fetches, CanSeed;
    var s, ks := SomeSeeder(cfg, n);
    var l :| Fetches(cfg, l, n);
    assert 0 <= l < MAX_CLIENTS by { FetcherIsClient(cfg, l, n); }
    var p, b := 0, 0;
    if Len(cfg, n) < 65536 {
      p := UncarriedByte(cfg, n);
      b := if cfg.source[n][p] == 0 then 1 else 0;
    }
    var bytes;
    w, bytes := DownloadHappens(cfg, s, ks, l, n, b);
    assert bytes != cfg.source[n] by {
      if Len(cfg, n) < 65536 { assert bytes[p] == Outcome(cfg, n, b, p) == b; }
    }
    assert w.clients[l].disk[0] == (n, bytes);
  }

  lemma {:induction false} FetcherIsClient(cfg: Config, l: int, n: Name)
    requires Fetches(cfg, l, n)
    ensures 0 <= l < MAX_CLIENTS
  {
  }

  /** Short files are safe with every client. */
  lemma {:induction false} SmallFileIsTrue(cfg: Config, w: World, c: nat, i: nat)
    requires ConfigOk(cfg) && cfg.build.Shipped? && Reached(cfg, w) && c < MAX_CLIENTS && i < |w.clients[c].disk|
    requires w.clients[c].disk[i].0 in cfg.source && |cfg.source[w.clients[c].disk[i].0]| <= 14
    ensures w.clients[c].disk[i].1 == cfg.source[w.clients[c].disk[i].0]
  {
    assert |w.clients| == MAX_CLIENTS;
    hide Reached, Carried, TameSize, PrefixFree, Crowded;
    var (n, bytes) := w.clients[c].disk[i];
    Safety.WrittenFilesAreTrueWhereCarried(cfg, w, c, i);
    TameSizes(Len(cfg, n), Crowded(cfg, n));
    ShippedCarriesAll(Len(cfg, n));
    assert bytes == cfg.source[n];
  }

  /** Whatever the configuration, the shipped code is sure to deliver a file unharmed exactly when
      it has at most fourteen bytes, or is never delivered at all. */
  lemma {:induction false} ShippedIsFaithfulIff(cfg: Config, n: Name)
    requires ConfigOk(cfg) && cfg.build.Shipped? && n in cfg.source
    ensures (forall w :: Reached(cfg, w) ==> Faithful(cfg, w, n)) <==> |cfg.source[n]| <= 14 || !CanBeHad(cfg, n)
  {
    hide Reached, PrefixFree, Origin, Fetches;
    if |cfg.source[n]| <= 14 || !CanBeHad(cfg, n) {
      forall w | Reached(cfg, w)
        ensures Faithful(cfg, w, n)
      {
        AllFaithful(cfg, w, n);
      }
    } else {
      var w := Unfaithful(cfg, n);
    }
  }

  lemma {:induction false} AllFaithful(cfg: Config, w: World, n: Name)
    requires ConfigOk(cfg) && cfg.build.Shipped? && n in cfg.source && Reached(cfg, w)
    requires |cfg.source[n]| <= 14 || !CanBeHad(cfg, n)
    ensures Faithful(cfg, w, n)
  {
    assert |w.clients| == MAX_CLIENTS;
    hide Reached, PrefixFree, Origin, Fetches;
    forall c, i | 0 <= c < MAX_CLIENTS && 0 <= i < |w.clients[c].disk| && w.clients[c].disk[i].0 == n
      ensures w.clients[c].disk[i].1 == cfg.source[n]
    {
      Safety.WrittenIsFetched(cfg, w, c, i);
      SmallFileIsTrue(cfg, w, c, i);
    }
  }

  // ---------- the first 28 bytes of each full segment ----------

  /** In every copy any client has written they are the original's. */
  ghost predicate HeadsKept(cfg: Config, w: World, n: Name)
    requires n in cfg.source
  {
    |w.clients| == MAX_CLIENTS && forall c, i, p: nat {:trigger w.clients[c].disk[i].1[p]} ::
      0 <= c < MAX_CLIENTS && 0 <= i < |w.clients[c].disk| && w.clients[c].disk[i].0 == n && p < |w.clients[c].disk[i].1| &&
      p / SEGMENT_SIZE + 1 < NumSegments(|w.clients[c].disk[i].1|) && p % SEGMENT_SIZE < SEGMENT_SIZE - 4 ==>
      p < |cfg.source[n]| && w.clients[c].disk[i].1[p] == cfg.source[n][p]
  }

  /** A seeder's reply for the last segment of a file of this size is cut inside its segment
      number, and what is left of the number fits other segments as well. */
  predicate SeederSpoils(size: nat) {
    size < 65536 && size % SEGMENT_SIZE == 31 && size / SEGMENT_SIZE % 256 != 0
  }

  /** So is that of a client that has downloaded the file. */
  predicate DownloaderSpoils(size: nat) {
    size % 65536 == 63581 || size % 65536 == 63582
  }

  /** The shipped code is sure to keep the heads of a file exactly if no seeder's reply spoils
      them, and no downloader's where there are several. */
  lemma {:induction false} HeadsKeptIff(cfg: Config, n: Name)
    requires ConfigOk(cfg) && cfg.build.Shipped? && n in cfg.source
    ensures (forall w :: Reached(cfg, w) ==> HeadsKept(cfg, w, n)) <==>
      !CanBeHad(cfg, n) || (!SeederSpoils(|cfg.source[n]|) && !(Crowded(cfg, n) && DownloaderSpoils(|cfg.source[n]|)))
  {
    hide Reached, PrefixFree, Origin, Fetches, HeadsKept, Crowded;
    if !CanBeHad(cfg, n) || (!SeederSpoils(|cfg.source[n]|) && !(Crowded(cfg, n) && DownloaderSpoils(|cfg.source[n]|))) {
      forall w | Reached(cfg, w)
        ensures HeadsKept(cfg, w, n)
      {
        AllHeadsKept(cfg, w, n);
      }
    } else {
      var w := SpoiledHead(cfg, n);
    }
  }

  lemma {:induction false} AllHeadsKept(cfg: Config, w: World, n: Name)
    requires ConfigOk(cfg) && cfg.build.Shipped? && n in cfg.source && Reached(cfg, w)
    requires !CanBeHad(cfg, n) || (!SeederSpoils(|cfg.source[n]|) && !(Crowded(cfg, n) && DownloaderSpoils(|cfg.source[n]|)))
    ensures HeadsKept(cfg, w, n)
  {
    assert |w.clients| == MAX_CLIENTS;
    TameSizes(Len(cfg, n), Crowded(cfg, n));
    hide Reached, PrefixFree, Origin, Fetches, Crowded, TameSize;
    forall c, i, p: nat {:trigger w.clients[c].disk[i].1[p]} |
      0 <= c < MAX_CLIENTS && 0 <= i < |w.clients[c].disk| && w.clients[c].disk[i].0 == n && p < |w.clients[c].disk[i].1| &&
      p / SEGMENT_SIZE + 1 < NumSegments(|w.clients[c].disk[i].1|) && p % SEGMENT_SIZE < SEGMENT_SIZE - 4
      ensures p < |cfg.source[n]| && w.clients[c].disk[i].1[p] == cfg.source[n][p]
    {
      Safety.WrittenIsFetched(cfg, w, c, i);
      Safety.ShippedFilesKeepSizeAndHeads(cfg, w, c, i, p);
    }
  }

  lemma {:induction false} HeadLost(cfg: Config, w: World, n: Name, l: nat, bytes: seq<byte>, seg: nat)
    requires n in cfg.source && |w.clients| == MAX_CLIENTS && l < MAX_CLIENTS && w.clients[l].disk == [(n, bytes)]
    requires seg + 1 < NumSegments(Known(cfg, n)) && SEGMENT_SIZE * seg < |bytes| == Known(cfg, n)
    requires bytes[SEGMENT_SIZE * seg] != cfg.source[n][SEGMENT_SIZE * seg]
    ensures !HeadsKept(cfg, w, n)
  {
    assert w.clients[l].disk[0] == (n, bytes);
    assert w.clients[l].disk[0].1[SEGMENT_SIZE * seg] == bytes[SEGMENT_SIZE * seg];
  }

  function OtherByte(b: byte): byte { if b == 0 then 1 else 0 }

  lemma {:induction false} SpoiledHead(cfg: Config, n: Name) returns (w: World)
    requires ConfigOk(cfg) && cfg.build.Shipped? && n in cfg.source && CanBeHad(cfg, n)
    requires SeederSpoils(|cfg.source[n]|) || (Crowded(cfg, n) && DownloaderSpoils(|cfg.source[n]|))
    ensures Reached(cfg, w) && !HeadsKept(cfg, w, n)
  {
    hide Reached, PrefixFree, Origin, Fetches, HeadsKept, CanSeed, Scene;
    var s, ks := SomeSeeder(cfg, n);
    if SeederSpoils(|cfg.source[n]|) {
      var l :| Fetches(cfg, l, n);
      FetcherIsClient(cfg, l, n);
      w := SpoiledBySeeder(cfg, s, ks, l, n);
    } else {
      var l, m :| Fetches(cfg, l, n) && Fetches(cfg, m, n) && l != m;
      FetcherIsClient(cfg, l, n);
      FetcherIsClient(cfg, m, n);
      w := SpoiledByDownloader(cfg, s, ks, l, m, n);
    }
    SceneReached(cfg, w);
  }

  lemma {:induction false} SpoiledBySeeder(cfg: Config, s: nat, ks: nat, l: nat, n: Name) returns (w: World)
    requires cfg.build.Shipped? && CanSeed(cfg, s, ks, n) && Fetches(cfg, l, n) && SeederSpoils(|cfg.source[n]|)
    ensures Scene(cfg, w) && !HeadsKept(cfg, w, n)
  {
    hide Scene, Wants, LocalOk, TrackerOk, Upto, Holding, Ready, Serving, PrefixFree, HeadsKept;
    var k := HasFirstTask(cfg, l, n);
    var w1 := SeederAndLeech(cfg, s, ks, l, k, n);
    ReadyMeans(cfg, w1, s, l, k, n);
    var last := NumSegments(Known(cfg, n)) - 1;
    var w2 := FetchTo(cfg, w1, s, l, k, n, 0, last);
    SceneOk(cfg, w2);
    SeedEntry(cfg, s, w2.clients[s], n);
    ShippedLastSize(Len(cfg, n));
    var seg := last - last % 256;
    var bytes;
    w, bytes := SpoilsLast(cfg, w2, s, l, k, n, seg, OtherByte(cfg.source[n][SEGMENT_SIZE * seg]));
    HeadLost(cfg, w, n, l, bytes, seg);
  }

  /** m has everything but the last segment from the seeder s, and is to ask l for that. */
  lemma {:induction false} TurnsToDownloader(cfg: Config, s: nat, ks: nat, l: nat, m: nat, n: Name) returns (w: World, k: nat)
    requires cfg.build.Shipped? && CanSeed(cfg, s, ks, n) && Fetches(cfg, l, n) && Fetches(cfg, m, n) && l != m
    ensures Scene(cfg, w) && |w.clients| == MAX_CLIENTS && Serving(cfg, n, w.clients[l]) && Wants(w.clients[m], k, n)
    ensures k < |w.clients[m].downloads| && Upto(cfg, n, w.clients[m].downloads[k], l, NumSegments(Known(cfg, n)) - 1)
  {
    hide Scene, Wants, LocalOk, TrackerOk, Upto, Holding, Ready, Serving, PrefixFree, Client.Neighbors;
    var w1;
    w1, k := TrioHappens(cfg, s, ks, l, m, n);
    ReadyMeans(cfg, w1, s, m, k, n);
    var last := NumSegments(Known(cfg, n)) - 1;
    var w2 := FetchTo(cfg, w1, s, m, k, n, 0, last);
    RunningWants(w2.clients[m], k, n);
    UptoMeans(cfg, n, w2.clients[m].downloads[k], s, last);
    SceneOk(cfg, w2);
    SizeIsThere(cfg, m, w2.clients[m], k);
    w := FindsSource(cfg, w2, l, m, k, n);
    StillServing(cfg, n, w2.clients[l], w.clients[l]);
    UptoIs(cfg, n, w2.clients[m].downloads[k], w.clients[m].downloads[k], l, last);
  }

  lemma {:induction false} UptoIs(cfg: Config, n: Name, d: Client.Download, d': Client.Download, j: int, i: nat)
    requires n in cfg.source && d.numSegs != 0 && d.have == Client.HavePrefix(i) && d' == d.(source := d'.source) && AllFrom(cfg, d', n, j)
    ensures Upto(cfg, n, d', j, i)
  {
  }

  lemma {:induction false} SpoiledByDownloader(cfg: Config, s: nat, ks: nat, l: nat, m: nat, n: Name) returns (w: World)
    requires cfg.build.Shipped? && CanSeed(cfg, s, ks, n) && Fetches(cfg, l, n) && Fetches(cfg, m, n) && l != m
    requires DownloaderSpoils(|cfg.source[n]|)
    ensures Scene(cfg, w) && !HeadsKept(cfg, w, n)
  {
    hide Scene, Wants, LocalOk, TrackerOk, Upto, Serving, PrefixFree, HeadsKept, FinishedOk;
    var w1, k := TurnsToDownloader(cfg, s, ks, l, m, n);
    ServingOwns(cfg, n, w1.clients[l]);
    SceneOk(cfg, w1);
    DoneEntry(cfg, l, w1.clients[l], n);
    var last := NumSegments(Known(cfg, n)) - 1;
    var seg := if DoneLastSize(Shipped, Known(cfg, n)) == 0 then 0 else last - last % 256;
    var bytes;
    w, bytes := SpoilsLast(cfg, w1, l, m, k, n, seg, OtherByte(cfg.source[n][SEGMENT_SIZE * seg]));
    HeadLost(cfg, w, n, m, bytes, seg);
  }

  lemma {:induction false} ServingOwns(cfg: Config, n: Name, st: Client.State)
    requires n in cfg.source && Serving(cfg, n, st)
    ensures Client.OwnedAs(st.owned, n) < |st.owned|
  {
  }

  lemma {:induction false} SizeIsThere(cfg: Config, l: nat, st: Client.State, k: nat)
    requires ConfigOk(cfg) && l < MAX_CLIENTS && LocalOk(cfg, l, st) && k < |st.downloads| && st.downloads[k].numSegs != 0 && !st.downloads[k].done
    ensures st.downloads[k].filesize != 0
  {
    hide PrefixFree, OwnedOk, DoneOk, Origin, Filled;
    assert DownloadOk(cfg, l, st.downloads[k]);
  }

  // ---------- who brings whom down ----------

  /** The size stored for segment seg of a finished download of t bytes overruns the buffer, or
      is negative. */
  predicate BadSize(t: nat, seg: nat) {
    seg + 1 < NumSegments(t) || !(0 <= DoneLastSize(Shipped, t) <= SEGMENT_SIZE)
  }

  /** A shipped client that is asked for a segment it has goes down exactly if it has downloaded
      the file and the size it has stored for the segment is bad. */
  lemma {:induction false} ServingCrashesIff(cfg: Config, w: World, c: nat, p: Packet, junk: seq<byte>)
    requires ConfigOk(cfg) && Reached(cfg, w) && c < MAX_CLIENTS && cfg.build.Shipped? && w.clients[c].status.Running?
    requires p in w.net && p.to == cfg.ports[c] && p.msg.SegReq?
    ensures p.msg.name in cfg.source && p.msg.seg >= 0
    ensures var st, n := w.clients[c], p.msg.name;
      var k := Client.DownloadFor(st.downloads, n);
      Client.Handle(st, p.msg, p.from, junk).0.status.Crashed? <==>
        && n !in cfg.files[c]
        && k < |st.downloads| && p.msg.seg < |st.downloads[k].have| && st.downloads[k].have[p.msg.seg]
        && BadSize(Known(cfg, n), p.msg.seg)
  {
    hide Reached, Client.CopyOut, Client.LearnSender, FinishedOk, PrefixFree, Filled, Origin, LocalOk, SeedSizes, DoneSizes, BadSize, FinishedSizes;
    Safety.RequestsReachOwners(cfg, w, c, p);
    ReachedOk(cfg, w);
    var st, n := w.clients[c], p.msg.name;
    assert LocalOk(cfg, c, st);
    NumSegmentsMonotone(Known(cfg, n), Len(cfg, n));
    if n in cfg.files[c] {
      SeedEntry(cfg, c, st, n);
      SeedSizeFits(Len(cfg, n), p.msg.seg);
    } else {
      DoneEntry(cfg, c, st, n);
      BadSizes(Known(cfg, n), p.msg.seg);
    }
  }

  lemma {:induction false} SeedSizeFits(size: nat, seg: nat)
    requires seg < NumSegments(size) <= MAX_SEGMENTS
    ensures 0 <= SeedSizes(Shipped, size)[seg] <= SEGMENT_SIZE
  {
    ShippedLastSize(size);
  }

  lemma {:induction false} BadSizes(t: nat, seg: nat)
    requires seg < NumSegments(t) <= MAX_SEGMENTS
    ensures !(0 <= DoneSizes(Shipped, t)[seg] <= SEGMENT_SIZE) <==> BadSize(t, seg)
  {
  }

  /** Some client is asked for a segment of the file in w and goes down over it. */
  ghost predicate GoesDown(cfg: Config, w: World, c: nat, p: Packet, n: Name) {
    && Reached(cfg, w) && |w.clients| == MAX_CLIENTS == |cfg.ports| && c < MAX_CLIENTS && w.clients[c].status.Running?
    && p in w.net && p.to == cfg.ports[c] && p.msg.SegReq? && p.msg.name == n
    && Client.Handle(w.clients[c], p.msg, p.from, []).0.status.Crashed?
  }

  /** That happens in some run exactly if several clients can download the file, whose size as the
      network knows it is not 31. */
  lemma {:induction false} CrashHappensIff(cfg: Config, n: Name)
    requires ConfigOk(cfg) && cfg.build.Shipped? && n in cfg.source
    ensures (exists w, c: nat, p :: GoesDown(cfg, w, c, p, n)) <==> CanBeHad(cfg, n) && Crowded(cfg, n) && Known(cfg, n) != 31
  {
    hide Reached, PrefixFree, Origin, Fetches, GoesDown, CanSeed;
    if w, c: nat, p :| GoesDown(cfg, w, c, p, n) {
      CrashMeans(cfg, w, c, p, n);
    }
    if CanBeHad(cfg, n) && Crowded(cfg, n) && Known(cfg, n) != 31 {
      var s, ks := SomeSeeder(cfg, n);
      var l, m :| Fetches(cfg, l, n) && Fetches(cfg, m, n) && l != m;
      FetcherIsClient(cfg, l, n);
      FetcherIsClient(cfg, m, n);
      var w, p := CrashHappens(cfg, s, ks, l, m, n);
    }
  }

  lemma {:induction false} CrashMeans(cfg: Config, w: World, c: nat, p: Packet, n: Name)
    requires ConfigOk(cfg) && cfg.build.Shipped? && n in cfg.source && GoesDown(cfg, w, c, p, n)
    ensures CanBeHad(cfg, n) && Crowded(cfg, n) && Known(cfg, n) != 31
  {
    hide Reached, PrefixFree, Filled, Client.Handle;
    ServingCrashesIff(cfg, w, c, p, []);
    ReachedOk(cfg, w);
    assert PacketOk(cfg, w.clients, p);
    assert Fetches(cfg, p.msg.cid, n) && p.msg.cid != c;
    var st := w.clients[c];
    assert LocalOk(cfg, c, st);
    Safety.RequestsReachOwners(cfg, w, c, p);
    DoneEntry(cfg, c, st, n);
    var d := st.downloads[EntryOf(st, n).fp.k];
    assert DownloadOk(cfg, c, d);
    assert Fetches(cfg, c, n);
  }

  lemma {:induction false} CrashHappens(cfg: Config, s: nat, ks: nat, l: nat, m: nat, n: Name) returns (w: World, p: Packet)
    requires cfg.build.Shipped? && CanSeed(cfg, s, ks, n) && Fetches(cfg, l, n) && Fetches(cfg, m, n) && l != m && Known(cfg, n) != 31
    ensures GoesDown(cfg, w, l, p, n)
  {
    hide Scene, Wants, LocalOk, TrackerOk, PrefixFree, Client.OnSegReq, Serving, AllFrom, DoneSizes, FinishedOk, Client.HavePrefix;
    var w2, k := AsksDownloader(cfg, s, ks, l, m, n);
    RunningWants(w2.clients[m], k, n);
    ServingOwns(cfg, n, w2.clients[l]);
    SceneOk(cfg, w2);
    DoneEntry(cfg, l, w2.clients[l], n);
    BadSizes(Known(cfg, n), 0);
    var w3;
    w, w3 := BringsDown(cfg, w2, l, m, k, n, 0);
    p := Packet(cfg.ports[m], cfg.ports[l], SegReq(m, n, 0));
    SceneReached(cfg, w);
    IdIs(cfg, l, w2.clients[l]);
    ServesNext(cfg, l, w2.clients[l], n, 0, m, cfg.ports[m]);
  }

  /** m, which has nothing yet, is to ask l for all of the file. */
  lemma {:induction false} AsksDownloader(cfg: Config, s: nat, ks: nat, l: nat, m: nat, n: Name) returns (w: World, k: nat)
    requires cfg.build.Shipped? && CanSeed(cfg, s, ks, n) && Fetches(cfg, l, n) && Fetches(cfg, m, n) && l != m
    ensures Scene(cfg, w) && |w.clients| == MAX_CLIENTS && Serving(cfg, n, w.clients[l]) && Wants(w.clients[m], k, n)
    ensures k < |w.clients[m].downloads| && w.clients[l].status.Running?
    ensures var d := w.clients[m].downloads[k]; d.numSegs != 0 && d.have == Client.HavePrefix(0) && AllFrom(cfg, d, n, l)
  {
    hide Scene, Wants, LocalOk, TrackerOk, Ready, PrefixFree, Client.Neighbors;
    var w1;
    w1, k := TrioHappens(cfg, s, ks, l, m, n);
    ReadyMeans(cfg, w1, s, m, k, n);
    RunningWants(w1.clients[m], k, n);
    SceneOk(cfg, w1);
    SizeIsThere(cfg, m, w1.clients[m], k);
    w := FindsSource(cfg, w1, l, m, k, n);
    StillServing(cfg, n, w1.clients[l], w.clients[l]);
  }

  lemma {:induction false} IdIs(cfg: Config, c: nat, st: Client.State)
    requires ConfigOk(cfg) && c < MAX_CLIENTS && LocalOk(cfg, c, st)
    ensures st.id == c
  {
  }
}
