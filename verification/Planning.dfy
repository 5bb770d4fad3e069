/** sendClientSegmentRequests: what it asks for, from whom, and what finishing a download does. */
module Planning {
  import opened Basics
  import opened Wire
  import opened Segments
  import opened Swarm
  import opened Invariant
  import opened Tables
  import opened Handlers
  import Operations
  import Client

  // ---------- which segments are asked for ----------

  /** The compaction loop lists exactly the missing segments, in ascending order. */
  lemma {:induction false} MissingIsExact(have: seq<bool>, n: nat)
    requires n <= |have|
    ensures Operations.Ascending(Client.Missing(have, n))
    ensures forall s: nat :: s in Client.Missing(have, n) <==> s < n && !have[s]
  {
    Operations.MissingAre(have, n);
  }

  ghost predicate AsksFor(st: Client.State, d: Client.Download, n: nat, o: Client.Out, s: nat) {
    && s < n && s < |d.have| && !d.have[s]
    && s < |d.source| && d.source[s] != MAX_CLIENTS
    && o == Client.Out(Client.SendPort(st.addrs, d.source[s]), SegReq(st.id, d.name, s))
  }

  /** However rand() falls, at most one request goes out for each draw, each for a missing segment
      and addressed to the client that advertised it. How many draws there are is
      Operations.SegmentTickIs. */
  lemma {:induction false} RequestsAreMissing(st: Client.State, d: Client.Download, n: nat, rands: seq<nat>, at: nat, count: nat)
    requires n <= |d.have| && |Client.Missing(d.have, n)| > 0
    ensures var outs := Client.Requests(st, d, Client.Missing(d.have, n), rands, at, count);
      |outs| <= count && forall o <- outs :: exists s: nat :: AsksFor(st, d, n, o, s)
  {
    if count > 0 {
      RequestsAreMissing(st, d, n, rands, at, count - 1);
      var missing := Client.Missing(d.have, n);
      var seg := Client.Drawn(missing, rands, at + count - 1);
      MissingIsExact(d.have, n);
      assert seg in missing;
      if seg < |d.source| && d.source[seg] != MAX_CLIENTS {
        assert AsksFor(st, d, n, Client.Out(Client.SendPort(st.addrs, d.source[seg]), SegReq(st.id, d.name, seg)), seg);
      }
    }
  }

  /** Every draw that hits an advertised segment leads to its request. */
  lemma {:induction false} EveryDrawCounts(st: Client.State, d: Client.Download, missing: seq<nat>, rands: seq<nat>, at: nat, count: nat, t: nat)
    requires |missing| > 0 && t < count
    requires var s := Client.Drawn(missing, rands, at + t); s < |d.source| && d.source[s] != MAX_CLIENTS
    ensures var s := Client.Drawn(missing, rands, at + t);
      Client.Out(Client.SendPort(st.addrs, d.source[s]), SegReq(st.id, d.name, s)) in
        Client.Requests(st, d, missing, rands, at, count)
  {
    if t < count - 1 {
      EveryDrawCounts(st, d, missing, rands, at, count - 1, t);
    }
  }

  // ---------- the invariant ----------

  lemma {:induction false} RequestsOk(cfg: Config, clients: seq<Client.State>, c: nat, st: Client.State, k: nat, rands: seq<nat>, count: nat)
    requires ConfigOk(cfg) && c < MAX_CLIENTS == |clients| && GoodMove(cfg, clients, c, st, []) && k < |st.downloads|
    requires var d := st.downloads[k]; !d.done && d.numSegs != 0 && Client.Missing(d.have, d.numSegs) != []
    ensures var d := st.downloads[k];
      OutsOk(cfg, clients, c, Client.Requests(st, d, Client.Missing(d.have, d.numSegs), rands, Client.MAX_REQUESTS * k, count))
  {
    var d := st.downloads[k];
    assert DownloadOk(cfg, c, d);
    NumSegmentsMonotone(Known(cfg, d.name), Len(cfg, d.name));
    var outs := Client.Requests(st, d, Client.Missing(d.have, d.numSegs), rands, Client.MAX_REQUESTS * k, count);
    RequestsAreMissing(st, d, d.numSegs, rands, Client.MAX_REQUESTS * k, count);
    forall o | o in outs
      ensures PacketOk(cfg, clients, Packet(cfg.ports[c], o.port, o.msg))
    {
      var s: nat :| AsksFor(st, d, d.numSegs, o, s);
      RequestOk(cfg, clients, c, st, k, s, o);
    }
  }

  lemma {:induction false} RequestOk(cfg: Config, clients: seq<Client.State>, c: nat, st: Client.State, k: nat, s: nat, o: Client.Out)
    requires ConfigOk(cfg) && c < MAX_CLIENTS == |clients| && GoodMove(cfg, clients, c, st, []) && k < |st.downloads|
    requires var d := st.downloads[k]; !d.done && d.numSegs != 0 && AsksFor(st, d, d.numSegs, o, s)
    ensures PacketOk(cfg, clients, Packet(cfg.ports[c], o.port, o.msg))
  {
    var d := st.downloads[k];
    assert DownloadOk(cfg, c, d);
    assert SourceOk(cfg, clients, st.addrs, d.name, d.source[s]);
    SendPortOk(cfg, st.addrs, d.source[s]);
    assert SegmentOk(cfg, d.name, s);
    assert o.port == cfg.ports[d.source[s]];
    assert ToServer(cfg, clients, Packet(cfg.ports[c], o.port, o.msg), d.name);
  }

  /** Finishing happens to a download the client did not start with, and all its segments are
      there. */
  lemma {:induction false} ReadyToFinish(cfg: Config, c: nat, ds: seq<Client.Download>, k: nat)
    requires ConfigOk(cfg) && c < MAX_CLIENTS && DownloadsOk(cfg, c, ds) && k < |ds|
    requires !ds[k].done && ds[k].numSegs != 0 && Client.Missing(ds[k].have, ds[k].numSegs) == []
    ensures var d := ds[k];
      && d.name in cfg.source && !Holds0(cfg, c, d.name)
      && d.numSegs == NumSegments(Known(cfg, d.name)) <= MAX_SEGMENTS
      && (forall s :: 0 <= s < d.numSegs ==> d.have[s])
      && WrittenOk(cfg, c, d.name, d.raw)
  {
    var d := ds[k];
    assert DownloadOk(cfg, c, d);
    NumSegmentsMonotone(Known(cfg, d.name), Len(cfg, d.name));
    MissingIsExact(d.have, d.numSegs);
    assert forall s: nat :: s < d.numSegs && !d.have[s] ==> s in Client.Missing(d.have, d.numSegs);
    forall p: nat | p < |d.raw|
      ensures d.have[p / SEGMENT_SIZE]
    {
      assert p / SEGMENT_SIZE < d.numSegs;
    }
  }

  lemma {:induction false} FinishOwned(cfg: Config, c: nat, st: Client.State, k: nat, tail: Name)
    requires ConfigOk(cfg) && c < MAX_CLIENTS && LocalOk(cfg, c, st) && k < |st.downloads|
    requires !st.downloads[k].done && st.downloads[k].numSegs != 0
    requires Client.Missing(st.downloads[k].have, st.downloads[k].numSegs) == []
    ensures var st' := Client.Finish(cfg.build, st, k, tail);
      && DownloadsOk(cfg, c, st'.downloads) && OwnedOk(cfg, c, st'.downloads, st'.owned)
      && Client.OwnedFor(st'.owned, st.downloads[k].name) < |st'.owned|
  {
    hide PrefixFree, Filled, Origin, Client.Missing, GroupsOk, AddrsOk, DiskOk, DoneOk, FinishedSizes;
    var st' := Client.Finish(cfg.build, st, k, tail);
    var d := st.downloads[k];
    ReadyToFinish(cfg, c, st.downloads, k);
    assert DownloadOk(cfg, c, d);
    assert DownloadOk(cfg, c, st'.downloads[k]);
    forall i | |cfg.files[c]| <= i < |st.owned|
      ensures FinishedOk(cfg, c, st'.downloads, st'.owned[i])
    {
      assert FinishedOk(cfg, c, st.downloads, st.owned[i]);
    }
    assert Client.Matches(d.name, st'.owned[|st.owned|].name);
    assert FinishedOk(cfg, c, st'.downloads, st'.owned[|st.owned|]);
  }

  lemma {:induction false} FinishOk(cfg: Config, clients: seq<Client.State>, c: nat, st: Client.State, k: nat, tail: Name)
    requires ConfigOk(cfg) && c < MAX_CLIENTS == |clients| && GoodMove(cfg, clients, c, st, []) && k < |st.downloads|
    requires !st.downloads[k].done && st.downloads[k].numSegs != 0
    requires Client.OwnedFor(st.owned, st.downloads[k].name) == |st.owned|
    requires Client.Missing(st.downloads[k].have, st.downloads[k].numSegs) == []
    ensures GoodMove(cfg, clients, c, Client.Finish(cfg.build, st, k, tail), [])
  {
    hide PrefixFree, Filled, Origin, Client.Missing, FinishedSizes, DownloadsOk, OwnedOk, DoneOk, DiskOk, GroupsOk, AddrsOk, SourceOk;
    FinishOwned(cfg, c, st, k, tail);
    FinishDone(cfg, c, st, k, tail);
    FinishDisk(cfg, c, st, k, tail);
  }

  lemma {:induction false} FinishDone(cfg: Config, c: nat, st: Client.State, k: nat, tail: Name)
    requires DoneOk(st.downloads, st.owned) && k < |st.downloads|
    requires var st' := Client.Finish(cfg.build, st, k, tail); Client.OwnedFor(st'.owned, st.downloads[k].name) < |st'.owned|
    ensures var st' := Client.Finish(cfg.build, st, k, tail); DoneOk(st'.downloads, st'.owned)
  {
    hide Client.OwnedFor, FinishedSizes;
    var st' := Client.Finish(cfg.build, st, k, tail);
    forall j | 0 <= j < |st'.downloads| && st'.downloads[j].done
      ensures Client.OwnedFor(st'.owned, st'.downloads[j].name) < |st'.owned|
    {
      if j != k { OwnedForGrows(st.owned, st'.owned, st.downloads[j].name); }
    }
  }

  lemma {:induction false} FinishDisk(cfg: Config, c: nat, st: Client.State, k: nat, tail: Name)
    requires ConfigOk(cfg) && c < MAX_CLIENTS && DownloadsOk(cfg, c, st.downloads) && DiskOk(cfg, c, st.disk, st.owned) && k < |st.downloads|
    requires !st.downloads[k].done && st.downloads[k].numSegs != 0
    requires Client.OwnedFor(st.owned, st.downloads[k].name) == |st.owned|
    requires Client.Missing(st.downloads[k].have, st.downloads[k].numSegs) == []
    requires var st' := Client.Finish(cfg.build, st, k, tail); Client.OwnedFor(st'.owned, st.downloads[k].name) < |st'.owned|
    ensures var st' := Client.Finish(cfg.build, st, k, tail); DiskOk(cfg, c, st'.disk, st'.owned)
  {
    hide Client.OwnedFor, Client.Missing, FinishedSizes, PrefixFree, WrittenOk, DownloadsOk;
    var st' := Client.Finish(cfg.build, st, k, tail);
    ReadyToFinish(cfg, c, st.downloads, k);
    forall i | 0 <= i < |st.disk|
      ensures Client.OwnedFor(st'.owned, st.disk[i].0) < |st'.owned|
      ensures st.disk[i].0 != st.downloads[k].name
    {
      OwnedForGrows(st.owned, st'.owned, st.disk[i].0);
    }
  }

  lemma {:induction false} PlanOk(cfg: Config, clients: seq<Client.State>, c: nat, st: Client.State, k: nat, rands: seq<nat>, tail: Name)
    requires ConfigOk(cfg) && c < MAX_CLIENTS == |clients| && GoodMove(cfg, clients, c, st, []) && k < |st.downloads|
    ensures var (st', outs) := Client.Plan(cfg.build, st, k, rands, tail); GoodMove(cfg, clients, c, st', outs)
  {
    var d := st.downloads[k];
    if !d.done && Client.OwnedFor(st.owned, d.name) == |st.owned| && d.numSegs != 0 {
      var missing := Client.Missing(d.have, d.numSegs);
      if missing == [] {
        FinishOk(cfg, clients, c, st, k, tail);
      } else {
        RequestsOk(cfg, clients, c, st, k, rands, Min(Client.MAX_REQUESTS, |missing|));
      }
    }
  }

  /** The turn of download k, after turns that sent o1. */
  lemma {:induction false} PlanTurnOk(cfg: Config, clients: seq<Client.State>, c: nat, st: Client.State, o1: seq<Client.Out>, k: nat, rands: seq<nat>, tail: Name)
    requires ConfigOk(cfg) && c < MAX_CLIENTS == |clients| && GoodMove(cfg, clients, c, st, o1) && k < |st.downloads|
    ensures var r := Client.Plan(cfg.build, st, k, rands, tail);
      GoodMove(cfg, clients, c, r.0, o1 + r.1)
  {
    GoodMoveJoin(cfg, clients, c, st, [], o1);
    PlanOk(cfg, clients, c, st, k, rands, tail);
    var r := Client.Plan(cfg.build, st, k, rands, tail);
    GoodMoveJoin(cfg, clients, c, r.0, o1, r.1);
  }

  lemma {:induction false} PlanAllOk(cfg: Config, clients: seq<Client.State>, c: nat, n: nat, rands: seq<nat>, tail: Name)
    requires Before(cfg, clients, c) && n <= |clients[c].downloads|
    ensures var r := Client.PlanAll(cfg.build, clients[c], n, rands, tail); GoodMove(cfg, clients, c, r.0, r.1)
  {
    hide GoodMove, Client.Plan;
    if n == 0 {
      StayPut(cfg, clients, c);
    } else {
      PlanAllOk(cfg, clients, c, n - 1, rands, tail);
      var r := Client.PlanAll(cfg.build, clients[c], n - 1, rands, tail);
      PlanTurnOk(cfg, clients, c, r.0, r.1, n - 1, rands, tail);
    }
  }
}
