/** Every message handler of the client keeps the invariant. */
module Handlers {
  import opened Basics
  import opened Wire
  import opened Segments
  import opened Swarm
  import opened Invariant
  import opened Tables
  import Client

  ghost predicate OutsOk(cfg: Config, clients: seq<Client.State>, c: nat, outs: seq<Client.Out>)
    requires ConfigOk(cfg) && c < MAX_CLIENTS
  {
    forall o <- outs :: PacketOk(cfg, clients, Packet(cfg.ports[c], o.port, o.msg))
  }

  lemma {:induction false} NoOuts(cfg: Config, clients: seq<Client.State>, c: nat)
    requires ConfigOk(cfg) && c < MAX_CLIENTS
    ensures OutsOk(cfg, clients, c, [])
  {
  }

  lemma {:induction false} OutsJoin(cfg: Config, clients: seq<Client.State>, c: nat, o1: seq<Client.Out>, o2: seq<Client.Out>)
    requires ConfigOk(cfg) && c < MAX_CLIENTS && OutsOk(cfg, clients, c, o1) && OutsOk(cfg, clients, c, o2)
    ensures OutsOk(cfg, clients, c, o1 + o2)
  {
    forall o | o in o1 + o2
      ensures PacketOk(cfg, clients, Packet(cfg.ports[c], o.port, o.msg))
    {
      assert o in o1 || o in o2;
    }
  }

  /** The move of client c into state st with these datagrams is one the invariant allows. */
  ghost predicate GoodMove(cfg: Config, clients: seq<Client.State>, c: nat, st: Client.State, outs: seq<Client.Out>)
    requires ConfigOk(cfg) && c < MAX_CLIENTS == |clients|
  {
    && LocalOk(cfg, c, st)
    && RoutesOk(cfg, clients, st.downloads, st.addrs)
    && clients[c].owned <= st.owned
    && OutsOk(cfg, clients, c, outs)
  }

  /** The situation in which client c makes a move. */
  ghost predicate Before(cfg: Config, clients: seq<Client.State>, c: nat) {
    && ConfigOk(cfg) && c < MAX_CLIENTS == |clients|
    && LocalOk(cfg, c, clients[c])
    && RoutesOk(cfg, clients, clients[c].downloads, clients[c].addrs)
  }

  /** A move that sends nothing after one that sent o1, or the other way round. */
  lemma {:induction false} GoodMoveJoin(cfg: Config, clients: seq<Client.State>, c: nat, st: Client.State, o1: seq<Client.Out>, o2: seq<Client.Out>)
    requires ConfigOk(cfg) && c < MAX_CLIENTS == |clients|
    requires OutsOk(cfg, clients, c, o1) && GoodMove(cfg, clients, c, st, o2)
    ensures GoodMove(cfg, clients, c, st, o1 + o2) && GoodMove(cfg, clients, c, st, [])
  {
    OutsJoin(cfg, clients, c, o1, o2);
  }

  lemma {:induction false} StayPut(cfg: Config, clients: seq<Client.State>, c: nat)
    requires Before(cfg, clients, c)
    ensures GoodMove(cfg, clients, c, clients[c], [])
  {
  }

  /** New addresses and counters alone disturb nothing. */
  lemma {:induction false} NewAddrs(cfg: Config, clients: seq<Client.State>, c: nat, addrs: seq<Peer>, st': Client.State)
    requires Before(cfg, clients, c) && clients[c].addrs <= addrs && AddrsOk(cfg, addrs)
    requires var st := clients[c];
      st' == st.(addrs := addrs, updates := st'.updates, progress := st'.progress, status := st'.status)
    ensures GoodMove(cfg, clients, c, st', [])
  {
    var st := clients[c];
    KnowsGrows(st.addrs, addrs);
    GroupsKeep(cfg, c, st.groups, st.addrs, addrs);
  }

  lemma {:induction false} GroupsKeep(cfg: Config, c: int, groups: seq<Client.Group>, addrs: seq<Peer>, more: seq<Peer>)
    requires GroupsOk(cfg, c, groups, addrs) && addrs <= more
    ensures GroupsOk(cfg, c, groups, more)
  {
    KnowsGrows(addrs, more);
    forall i | 0 <= i < |groups|
      ensures GroupOk(cfg, c, groups[i], more)
    {
      assert GroupOk(cfg, c, groups[i], addrs);
    }
  }

  lemma {:induction false} OwnedCount(cfg: Config, c: nat, st: Client.State, i: nat, name: Name)
    requires ConfigOk(cfg) && c < MAX_CLIENTS && LocalOk(cfg, c, st) && i < |st.owned|
    requires name in cfg.source && Client.Matches(st.owned[i].name, name)
    ensures 0 < st.owned[i].numSegs <= MAX_SEGMENTS
  {
    OwnedEntryIsWanted(cfg, c, st.downloads, st.owned, i, name);
    if i < |cfg.files[c]| {
      assert st.owned[i] == Seed(cfg, name);
    } else {
      assert FinishedOk(cfg, c, st.downloads, st.owned[i]);
      assert DownloadOk(cfg, c, st.downloads[st.owned[i].fp.k]);
      NumSegmentsMonotone(Known(cfg, name), Len(cfg, name));
    }
  }

  lemma {:induction false} InfoReplyOk(cfg: Config, clients: seq<Client.State>, c: nat, cid: int, name: Name, p: Packet, i: nat)
    requires Before(cfg, clients, c)
    requires FromClient(cfg, p, cid) && name in cfg.source && ToSharer(cfg, p, name) && p.to == cfg.ports[c] && p.from != p.to
    requires i == Client.OwnedAs(clients[c].owned, name) < |clients[c].owned|
    ensures PacketOk(cfg, clients, Packet(cfg.ports[c], p.from, InfoRep(c, name, Client.UpTo(clients[c].owned[i].numSegs))))
  {
    OwnedCount(cfg, c, clients[c], i, name);
    assert MayShare(cfg, c, name);
    assert Serves(clients[c], name);
  }

  lemma {:induction false} OnInfoReqOk(cfg: Config, clients: seq<Client.State>, c: nat, cid: int, name: Name, p: Packet)
    requires Before(cfg, clients, c)
    requires p.msg == InfoReq(cid, name) && PacketOk(cfg, clients, p) && p.to == cfg.ports[c]
    ensures var (st, outs) := Client.OnInfoReq(clients[c], cid, name, p.from); GoodMove(cfg, clients, c, st, outs)
  {
    var st := clients[c];
    LearnSenderOk(cfg, st.addrs, cid);
    var (st', outs) := Client.OnInfoReq(st, cid, name, p.from);
    NewAddrs(cfg, clients, c, st'.addrs, st');
    if outs != [] {
      InfoReplyOk(cfg, clients, c, cid, name, p, Client.OwnedAs(st.owned, name));
    }
  }

  lemma {:induction false} SetSourceRoutes(cfg: Config, clients: seq<Client.State>, ds: seq<Client.Download>, addrs: seq<Peer>, more: seq<Peer>,
                        k: nat, segs: seq<int>, cid: int)
    requires RoutesOk(cfg, clients, ds, addrs) && addrs <= more && k < |ds|
    requires SourceOk(cfg, clients, more, ds[k].name, cid)
    ensures RoutesOk(cfg, clients, ds[k := ds[k].(source := Client.SetSource(ds[k].source, segs, cid))], more)
  {
    KnowsGrows(addrs, more);
    var ds' := ds[k := ds[k].(source := Client.SetSource(ds[k].source, segs, cid))];
    forall j, i | 0 <= j < |ds'| && 0 <= i < |ds'[j].source|
      ensures SourceOk(cfg, clients, more, ds'[j].name, ds'[j].source[i])
    {
      assert SourceOk(cfg, clients, addrs, ds[j].name, ds[j].source[i]);
    }
  }

  lemma {:induction false} OnInfoRepOk(cfg: Config, clients: seq<Client.State>, c: nat, cid: int, name: Name, segs: seq<int>, p: Packet)
    requires Before(cfg, clients, c)
    requires p.msg == InfoRep(cid, name, segs) && PacketOk(cfg, clients, p) && p.to == cfg.ports[c]
    ensures GoodMove(cfg, clients, c, Client.OnInfoRep(clients[c], cid, name, segs, p.from), [])
  {
    var st := clients[c];
    var st' := Client.OnInfoRep(st, cid, name, segs, p.from);
    LearnSenderOk(cfg, st.addrs, cid);
    var k := Client.DownloadFor(st.downloads, name);
    if k == |st.downloads| {
      NewAddrs(cfg, clients, c, st'.addrs, st');
    } else {
      var d := st.downloads[k];
      assert d.name == name by {
        assert DownloadOk(cfg, c, d);
        MatchesIsEquality(cfg, d.name, name);
      }
      GroupsKeep(cfg, c, st.groups, st.addrs, st'.addrs);
      NewSources(cfg, c, d, segs, cid);
      hide Client.SetSource, DownloadsOk, OwnedOk, DoneOk, DiskOk, GroupsOk;
      SourcesChange(cfg, c, st.downloads, st.owned, k, d.(source := Client.SetSource(d.source, segs, cid)));
      SetSourceRoutes(cfg, clients, st.downloads, st.addrs, st'.addrs, k, segs, cid);
    }
  }

  lemma {:induction false} NewSources(cfg: Config, c: nat, d: Client.Download, segs: seq<int>, cid: int)
    requires ConfigOk(cfg) && c < MAX_CLIENTS && DownloadOk(cfg, c, d) && cid != c
    ensures var source := Client.SetSource(d.source, segs, cid); |source| == MAX_SEGMENTS && c !in source
  {
  }

  /** Whether a download is enabled and who to ask for it is of no concern to what is held. */
  lemma {:induction false} SourcesChange(cfg: Config, c: nat, ds: seq<Client.Download>, owned: seq<Client.FileInfo>, k: nat, d: Client.Download)
    requires ConfigOk(cfg) && c < MAX_CLIENTS && k < |ds|
    requires d == ds[k].(source := d.source, enabled := d.enabled) && |d.source| == MAX_SEGMENTS && c !in d.source
    requires DownloadsOk(cfg, c, ds) && OwnedOk(cfg, c, ds, owned) && DoneOk(ds, owned)
    ensures DownloadsOk(cfg, c, ds[k := d]) && OwnedOk(cfg, c, ds[k := d], owned) && DoneOk(ds[k := d], owned)
  {
    hide Filled, Origin, Client.OwnedFor, PrefixFree;
    var ds' := ds[k := d];
    assert DownloadOk(cfg, c, ds[k]);
    assert DownloadOk(cfg, c, ds'[k]);
    forall i | |cfg.files[c]| <= i < |owned|
      ensures FinishedOk(cfg, c, ds', owned[i])
    {
      assert FinishedOk(cfg, c, ds, owned[i]);
    }
  }
}
