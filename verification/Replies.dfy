/** Segments on their way: what an owner serves is the file's, and applying it fills the
    receiver's buffer with the file's bytes. */
module Replies {
  import opened Basics
  import opened Wire
  import opened Segments
  import opened Swarm
  import opened Invariant
  import opened Tables
  import opened Handlers
  import Client

  // ---------- serving ----------

  /** Enough bytes are announced for every carried position. */
  lemma {:induction false} CarriedIsServed(cfg: Config, n: Name, seg: int, size: int, p: nat)
    requires ConfigOk(cfg) && n in cfg.source && ServedSize(cfg, n, seg, size)
    requires p < Known(cfg, n) && p / SEGMENT_SIZE == seg && CarriedByte(cfg, n, p)
    ensures p % SEGMENT_SIZE < Delivered(cfg.build, size) <= size
  {
  }

  /** A block that agrees with the file on the carried bytes yields true replies. */
  lemma {:induction false} BlockServesTruth(cfg: Config, n: Name, seg: int, size: int, block: seq<byte>, junk: seq<byte>)
    requires ConfigOk(cfg) && n in cfg.source && ServedSize(cfg, n, seg, size) && |block| >= Known(cfg, n)
    requires Tame(cfg, n) ==> forall p: nat :: p < Known(cfg, n) && p / SEGMENT_SIZE == seg && CarriedByte(cfg, n, p) ==>
      block[p] == cfg.source[n][p]
    ensures TrueReply(cfg, n, seg, Client.CopyOut(block, SEGMENT_SIZE * seg, size, junk))
  {
    var data := Client.CopyOut(block, SEGMENT_SIZE * seg, size, junk);
    if Tame(cfg, n) {
      forall p: nat | p < Known(cfg, n) && p / SEGMENT_SIZE == seg && CarriedByte(cfg, n, p)
        ensures p % SEGMENT_SIZE < |data| && data[p % SEGMENT_SIZE] == cfg.source[n][p]
      {
        CarriedIsServed(cfg, n, seg, size, p);
        assert data[p % SEGMENT_SIZE] == block[SEGMENT_SIZE * seg + p % SEGMENT_SIZE];
      }
    }
  }

  /** The content of an owned file, as far as replies need it. */
  lemma {:induction false} OwnedContent(cfg: Config, c: nat, st: Client.State, i: nat, name: Name, seg: nat)
    requires ConfigOk(cfg) && c < MAX_CLIENTS && LocalOk(cfg, c, st) && SegmentOk(cfg, name, seg)
    requires i < |st.owned| && Client.Matches(st.owned[i].name, name)
    requires exists m :: Fetches(cfg, m, name) && m != c
    ensures var block := Client.Bytes(st, st.owned[i].fp);
      && |block| >= Known(cfg, name)
      && (Tame(cfg, name) ==> forall p: nat :: p < Known(cfg, name) && p / SEGMENT_SIZE == seg && CarriedByte(cfg, name, p) ==>
        block[p] == cfg.source[name][p])
    ensures seg < |st.owned[i].sizes|
    ensures 0 <= st.owned[i].sizes[seg] <= SEGMENT_SIZE ==> ServedSize(cfg, name, seg, st.owned[i].sizes[seg])
  {
    OwnedEntryIsWanted(cfg, c, st.downloads, st.owned, i, name);
    NumSegmentsMonotone(Known(cfg, name), Len(cfg, name));
    if i < |cfg.files[c]| {
      assert st.owned[i] == Seed(cfg, name);
    } else {
      assert FinishedOk(cfg, c, st.downloads, st.owned[i]);
      var d := st.downloads[st.owned[i].fp.k];
      assert DownloadOk(cfg, c, d);
      assert Fetches(cfg, c, name);
    }
  }

  lemma {:induction false} OnSegReqOk(cfg: Config, clients: seq<Client.State>, c: nat, cid: int, name: Name, seg: int, p: Packet, junk: seq<byte>)
    requires Before(cfg, clients, c)
    requires p.msg == SegReq(cid, name, seg) && PacketOk(cfg, clients, p) && p.to == cfg.ports[c]
    ensures var (st, outs) := Client.OnSegReq(clients[c], cid, name, seg, p.from, junk); GoodMove(cfg, clients, c, st, outs)
  {
    hide Client.CopyOut, Client.LearnSender, PrefixFree, Filled, Origin, DownloadsOk, OwnedOk, DoneOk, DiskOk, GroupsOk, NamesOk, AddrsOk;
    hide PacketOk, ServedSize, TrueReply;
    var st := clients[c];
    RequestMeans(cfg, clients, c, cid, name, seg, p);
    LearnSenderOk(cfg, st.addrs, cid);
    var (st', outs) := Client.OnSegReq(st, cid, name, seg, p.from, junk);
    NewAddrs(cfg, clients, c, st'.addrs, st');
    if outs != [] {
      AnswerOk(cfg, clients, c, cid, name, seg, p, junk);
    }
  }

  lemma {:induction false} RequestMeans(cfg: Config, clients: seq<Client.State>, c: nat, cid: int, name: Name, seg: int, p: Packet)
    requires Before(cfg, clients, c)
    requires p.msg == SegReq(cid, name, seg) && PacketOk(cfg, clients, p) && p.to == cfg.ports[c]
    ensures 0 <= cid < MAX_CLIENTS && p.from == cfg.ports[cid] && cid != c && Fetches(cfg, cid, name)
    ensures SegmentOk(cfg, name, seg) && Serves(clients[c], name) && MayShare(cfg, c, name)
  {
    hide LocalOk, RoutesOk, PrefixFree;
  }

  lemma {:induction false} AnswerOk(cfg: Config, clients: seq<Client.State>, c: nat, cid: int, name: Name, seg: int, p: Packet, junk: seq<byte>)
    requires Before(cfg, clients, c)
    requires p.msg == SegReq(cid, name, seg) && PacketOk(cfg, clients, p) && p.to == cfg.ports[c]
    ensures Client.OwnedAs(clients[c].owned, name) < |clients[c].owned|
    ensures var st := clients[c];
      var fi := st.owned[Client.OwnedAs(st.owned, name)];
      && seg < |fi.sizes|
      && (0 <= fi.sizes[seg] <= SEGMENT_SIZE ==>
        PacketOk(cfg, clients, Packet(cfg.ports[c], p.from,
          SegRep(c, name, seg, fi.sizes[seg], Client.CopyOut(Client.Bytes(st, fi.fp), SEGMENT_SIZE * seg, fi.sizes[seg], junk)))))
  {
    hide Client.CopyOut, PrefixFree, Filled, Origin, LocalOk, RoutesOk, ServedSize, TrueReply, Tame;
    var st := clients[c];
    RequestMeans(cfg, clients, c, cid, name, seg, p);
    var i := Client.OwnedAs(st.owned, name);
    OwnedContent(cfg, c, st, i, name, seg);
    var size := st.owned[i].sizes[seg];
    if 0 <= size <= SEGMENT_SIZE {
      BlockServesTruth(cfg, name, seg, size, Client.Bytes(st, st.owned[i].fp), junk);
    }
  }

  // ---------- applying ----------

  /** What a receiver may read out of a reply: for a tame file the segment number is right,
      the carried bytes are there, and what is copied stays inside the segment or lies behind
      the end of the file. */
  ghost predicate Applicable(cfg: Config, n: Name, seg: int, data: seq<byte>)
    requires ConfigOk(cfg) && n in cfg.source
  {
    Tame(cfg, n) ==>
      && TrueReply(cfg, n, seg, data)
      && (|data| <= SEGMENT_SIZE || SEGMENT_SIZE * (seg + 1) >= Known(cfg, n))
  }

  lemma {:induction false} CopyFills(cfg: Config, n: Name, raw: seq<byte>, have: seq<bool>, seg: nat, data: seq<byte>)
    requires ConfigOk(cfg) && n in cfg.source && seg < MAX_SEGMENTS
    requires Filled(cfg, n, raw, have) && Applicable(cfg, n, seg, data)
    ensures Filled(cfg, n, Client.CopyIn(raw, SEGMENT_SIZE * seg, data), have[seg := true])
  {
    var raw', have' := Client.CopyIn(raw, SEGMENT_SIZE * seg, data), have[seg := true];
    if Tame(cfg, n) {
      forall p: nat | p < |raw| && have'[p / SEGMENT_SIZE] && CarriedByte(cfg, n, p)
        ensures raw'[p] == cfg.source[n][p]
      {
        if p / SEGMENT_SIZE == seg {
          assert p == SEGMENT_SIZE * seg + p % SEGMENT_SIZE;
          assert raw'[p] == data[p % SEGMENT_SIZE];
        } else {
          assert have[p / SEGMENT_SIZE];
          assert !(SEGMENT_SIZE * seg <= p < SEGMENT_SIZE * (seg + 1));
        }
      }
    }
  }

  lemma {:induction false} ApplyReplyOk(cfg: Config, c: nat, d: Client.Download, seg: nat, data: seq<byte>)
    requires ConfigOk(cfg) && c < MAX_CLIENTS && seg < MAX_SEGMENTS && DownloadOk(cfg, c, d)
    requires Applicable(cfg, d.name, seg, data)
    ensures DownloadOk(cfg, c, Client.ApplyReply(d, seg, data))
  {
    if !Holds0(cfg, c, d.name) && d.numSegs != 0 {
      CopyFills(cfg, d.name, d.raw, d.have, seg, data);
    }
  }

  lemma {:induction false} ApplyAllDownloads(cfg: Config, c: nat, ds: seq<Client.Download>, name: Name, seg: nat, data: seq<byte>)
    requires ConfigOk(cfg) && c < MAX_CLIENTS && DownloadsOk(cfg, c, ds)
    requires name in cfg.source && seg < MAX_SEGMENTS && Applicable(cfg, name, seg, data)
    ensures DownloadsOk(cfg, c, Client.ApplyToAll(ds, name, seg, data))
  {
    var ds' := Client.ApplyToAll(ds, name, seg, data);
    forall k | 0 <= k < |ds|
      ensures DownloadOk(cfg, c, ds'[k]) && cfg.tasks[c][k] == Client.Task(ds'[k].name, ds'[k].share)
    {
      assert DownloadOk(cfg, c, ds[k]);
      if Client.Matches(ds[k].name, name) {
        ApplyReplyOk(cfg, c, ds[k], seg, data);
      }
    }
  }

  lemma {:induction false} ApplyAllOwned(cfg: Config, c: nat, ds: seq<Client.Download>, owned: seq<Client.FileInfo>, name: Name, seg: nat, data: seq<byte>)
    requires ConfigOk(cfg) && c < MAX_CLIENTS && OwnedOk(cfg, c, ds, owned) && DoneOk(ds, owned) && seg < MAX_SEGMENTS
    ensures var ds' := Client.ApplyToAll(ds, name, seg, data); OwnedOk(cfg, c, ds', owned) && DoneOk(ds', owned)
  {
    var ds' := Client.ApplyToAll(ds, name, seg, data);
    assert forall k :: 0 <= k < |ds| ==> ds'[k].name == ds[k].name && ds'[k].done == ds[k].done;
    forall i | |cfg.files[c]| <= i < |owned|
      ensures FinishedOk(cfg, c, ds', owned[i])
    {
      ApplyFinished(cfg, c, ds, owned[i], name, seg, data);
    }
  }

  lemma {:induction false} ApplyFinished(cfg: Config, c: nat, ds: seq<Client.Download>, fi: Client.FileInfo, name: Name, seg: nat, data: seq<byte>)
    requires ConfigOk(cfg) && c < MAX_CLIENTS && FinishedOk(cfg, c, ds, fi) && seg < MAX_SEGMENTS
    ensures FinishedOk(cfg, c, Client.ApplyToAll(ds, name, seg, data), fi)
  {
  }

  lemma {:induction false} ApplyAllRoutes(cfg: Config, clients: seq<Client.State>, ds: seq<Client.Download>, addrs: seq<Peer>, more: seq<Peer>,
                       name: Name, seg: nat, data: seq<byte>)
    requires RoutesOk(cfg, clients, ds, addrs) && addrs <= more && seg < MAX_SEGMENTS
    ensures RoutesOk(cfg, clients, Client.ApplyToAll(ds, name, seg, data), more)
  {
    KnowsGrows(addrs, more);
    var ds' := Client.ApplyToAll(ds, name, seg, data);
    forall k, i | 0 <= k < |ds'| && 0 <= i < |ds'[k].source|
      ensures SourceOk(cfg, clients, more, ds'[k].name, ds'[k].source[i])
    {
      assert SourceOk(cfg, clients, addrs, ds[k].name, ds[k].source[i]);
    }
  }

  lemma {:induction false} OnSegRepOk(cfg: Config, clients: seq<Client.State>, c: nat, m: Msg, from: int)
    requires Before(cfg, clients, c)
    requires m.SegRep? && m.name in cfg.source && 0 <= m.cid < MAX_CLIENTS && from == cfg.ports[m.cid]
    requires m.size >= 0 && m.seg >= 0 ==> Applicable(cfg, m.name, m.seg, m.data)
    ensures GoodMove(cfg, clients, c, Client.OnSegRep(clients[c], m.cid, m.name, m.seg, m.size, m.data, from), [])
  {
    var st := clients[c];
    LearnSenderOk(cfg, st.addrs, m.cid);
    var st' := Client.OnSegRep(st, m.cid, m.name, m.seg, m.size, m.data, from);
    if m.size < 0 || !(0 <= m.seg < MAX_SEGMENTS) {
      NewAddrs(cfg, clients, c, st'.addrs, st');
    } else {
      ApplyAllDownloads(cfg, c, st.downloads, m.name, m.seg, m.data);
      ApplyAllOwned(cfg, c, st.downloads, st.owned, m.name, m.seg, m.data);
      ApplyAllRoutes(cfg, clients, st.downloads, st.addrs, st'.addrs, m.name, m.seg, m.data);
      GroupsKeep(cfg, c, st.groups, st.addrs, st'.addrs);
    }
  }

  // ---------- reading a reply off the wire ----------

  /** A reply read out of any memory that starts with what was sent can safely be applied. */
  lemma {:induction false} ReplyArrives(cfg: Config, clients: seq<Client.State>, p: Packet, mem: seq<byte>)
    requires ConfigOk(cfg) && p.msg.SegRep? && PacketOk(cfg, clients, p)
    requires Sent(cfg.build, p.msg) <= mem && |mem| >= 43 + 32768
    ensures ReadClient(mem).Some? && ReadClient(mem).value.SegRep?
    ensures var m := ReadClient(mem).value;
      m.cid == p.msg.cid && m.name == p.msg.name && (m.size >= 0 && m.seg >= 0 ==> Applicable(cfg, m.name, m.seg, m.data))
  {
    var m := p.msg;
    assert Fits(m);
    if cfg.build.Mended? {
      SegRepRoundTrip(m, mem);
    } else {
      SegRepHeader(m, mem, 39 + m.size);
      var r := ReadClient(mem).value;
      if Tame(cfg, m.name) && r.size >= 0 && r.seg >= 0 {
        ShippedReplyApplicable(cfg, m, r);
      }
    }
  }

  /** A reply of fewer than four bytes is one for the last segment the network knows of ... */
  lemma {:induction false} ShortReplyIsLast(cfg: Config, n: Name, seg: int, size: int)
    requires ConfigOk(cfg) && n in cfg.source && cfg.build.Shipped? && SegmentOk(cfg, n, seg)
    requires ServedSize(cfg, n, seg, size) && size < 4
    ensures seg + 1 == NumSegments(Known(cfg, n)) && SEGMENT_SIZE * (seg + 1) >= Known(cfg, n)
  {
    NumSegmentsMonotone(Known(cfg, n), Len(cfg, n));
  }

  /** ... and one that is cut inside its segment number names, for a tame file, a segment of
      which nothing is carried, and none before the last. */
  lemma {:induction false} CutReplyIsHarmless(cfg: Config, n: Name, seg: int, size: int, read: int)
    requires ConfigOk(cfg) && n in cfg.source && cfg.build.Shipped? && Tame(cfg, n) && SegmentOk(cfg, n, seg)
    requires ServedSize(cfg, n, seg, size) && size < 2 && read >= 0 && (size == 1 ==> read / 256 == seg / 256)
    ensures SEGMENT_SIZE * (read + 1) >= Known(cfg, n)
    ensures forall p: nat :: p < Known(cfg, n) && p / SEGMENT_SIZE == read ==> !CarriedByte(cfg, n, p)
  {
    ShortReplyIsLast(cfg, n, seg, size);
    NumSegmentsMonotone(Known(cfg, n), Len(cfg, n));
    assert read >= seg;
    assert LeastServed(Shipped, Len(cfg, n), seg) < 2;
    forall p: nat | p < Known(cfg, n) && p / SEGMENT_SIZE == read
      ensures !CarriedByte(cfg, n, p)
    {
      assert read == seg;
    }
  }

  lemma {:induction false} ShippedReplyApplicable(cfg: Config, m: Msg, r: Msg)
    requires ConfigOk(cfg) && cfg.build.Shipped? && m.SegRep? && r.SegRep?
    requires SegmentOk(cfg, m.name, m.seg) && Tame(cfg, m.name) && m.size == |m.data|
    requires ServedSize(cfg, m.name, m.seg, m.size) && TrueReply(cfg, m.name, m.seg, m.data)
    requires r.name == m.name && r.size >= 0 && |r.data| == r.size && r.seg >= 0
    requires m.size == 1 ==> r.seg / 256 == m.seg / 256
    requires m.size >= 2 ==> r.seg == m.seg
    requires m.size >= 4 ==> r.size == m.size && forall o :: 0 <= o < m.size - 4 ==> r.data[o] == m.data[o]
    ensures Applicable(cfg, r.name, r.seg, r.data)
  {
    if m.size < 2 {
      CutReplyIsHarmless(cfg, m.name, m.seg, m.size, r.seg);
    } else {
      if m.size < 4 { ShortReplyIsLast(cfg, m.name, m.seg, m.size); }
      forall p: nat | p < Known(cfg, m.name) && p / SEGMENT_SIZE == m.seg && CarriedByte(cfg, m.name, p)
        ensures p % SEGMENT_SIZE < |r.data| && r.data[p % SEGMENT_SIZE] == cfg.source[m.name][p]
      {
        CarriedIsServed(cfg, m.name, m.seg, m.size, p);
      }
    }
  }
}
