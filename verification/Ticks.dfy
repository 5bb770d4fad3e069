/** GROUP_ASSIGN and the four timer callbacks keep the invariant. */
module Ticks {
  import opened Basics
  import opened Wire
  import opened Segments
  import opened Swarm
  import opened Invariant
  import opened Tables
  import opened Handlers
  import Client

  // ---------- GROUP_ASSIGN ----------

  lemma {:induction false} LearnSizeOk(cfg: Config, c: nat, ds: seq<Client.Download>, owned: seq<Client.FileInfo>, name: Name, size: nat)
    requires ConfigOk(cfg) && c < MAX_CLIENTS && name in cfg.source && SizeOk(cfg, name, size)
    requires DownloadsOk(cfg, c, ds) && OwnedOk(cfg, c, ds, owned) && DoneOk(ds, owned)
    ensures var ds' := Client.LearnSize(ds, name, size);
      DownloadsOk(cfg, c, ds') && OwnedOk(cfg, c, ds', owned) && DoneOk(ds', owned)
  {
    var k := Client.DownloadFor(ds, name);
    if k < |ds| && ds[k].filesize == 0 && size != 0 {
      var ds' := Client.LearnSize(ds, name, size);
      assert DownloadOk(cfg, c, ds[k]);
      MatchesIsEquality(cfg, ds[k].name, name);
      NumSegmentsMonotone(Known(cfg, name), Len(cfg, name));
      assert DownloadOk(cfg, c, ds'[k]);
      forall i | |cfg.files[c]| <= i < |owned|
        ensures FinishedOk(cfg, c, ds', owned[i])
      {
        assert FinishedOk(cfg, c, ds, owned[i]);
        assert DownloadOk(cfg, c, ds[owned[i].fp.k]);
      }
    }
  }

  /** The buffer allocated for a newly learned size is never one that an owned file shares. */
  lemma {:induction false} LearnSizeSparesOwnedBuffers(cfg: Config, c: nat, ds: seq<Client.Download>, owned: seq<Client.FileInfo>, name: Name, size: nat, i: nat)
    requires ConfigOk(cfg) && c < MAX_CLIENTS && DownloadsOk(cfg, c, ds) && OwnedOk(cfg, c, ds, owned)
    requires i < |owned| && owned[i].fp.RawOf?
    ensures owned[i].fp.k < |ds| && Client.LearnSize(ds, name, size)[owned[i].fp.k] == ds[owned[i].fp.k]
  {
    if i < |cfg.files[c]| {
      assert false;
    } else {
      assert FinishedOk(cfg, c, ds, owned[i]);
      assert DownloadOk(cfg, c, ds[owned[i].fp.k]);
    }
  }

  lemma {:induction false} LearnSizeRoutes(cfg: Config, clients: seq<Client.State>, ds: seq<Client.Download>, addrs: seq<Peer>, more: seq<Peer>, name: Name, size: nat)
    requires ConfigOk(cfg) && RoutesOk(cfg, clients, ds, addrs) && addrs <= more
    ensures RoutesOk(cfg, clients, Client.LearnSize(ds, name, size), more)
  {
    KnowsGrows(addrs, more);
    var ds' := Client.LearnSize(ds, name, size);
    forall k, i | 0 <= k < |ds'| && 0 <= i < |ds'[k].source|
      ensures SourceOk(cfg, clients, more, ds'[k].name, ds'[k].source[i])
    {
      assert ds'[k].source == ds[k].source && ds'[k].name == ds[k].name;
      assert SourceOk(cfg, clients, addrs, ds[k].name, ds[k].source[i]);
    }
  }

  lemma {:induction false} LearnGroupOk(cfg: Config, c: int, groups: seq<Client.Group>, addrs: seq<Peer>, f: FileEntry)
    requires ConfigOk(cfg) && GroupsOk(cfg, c, groups, addrs) && NamesOk(cfg, groups)
    requires EntryOk(cfg, f) && forall p <- f.peers :: Knows(addrs, p.id)
    ensures var groups' := Client.LearnGroup(groups, f); GroupsOk(cfg, c, groups', addrs) && NamesOk(cfg, groups')
  {
    var groups' := Client.LearnGroup(groups, f);
    var g := Client.GroupFor(groups, f.name);
    assert g < |groups| ==> groups[g].name == f.name by {
      if g < |groups| { MatchesIsEquality(cfg, groups[g].name, f.name); }
    }
    forall i | 0 <= i < |groups'|
      ensures GroupOk(cfg, c, groups'[i], addrs)
    {
      if i < |groups| {
        assert GroupOk(cfg, c, groups[i], addrs);
      }
      if i == g {
        SharersOk(cfg, addrs, f);
      }
    }
  }

  lemma {:induction false} SharersOk(cfg: Config, addrs: seq<Peer>, f: FileEntry)
    requires ConfigOk(cfg) && EntryOk(cfg, f) && forall p <- f.peers :: Knows(addrs, p.id)
    ensures forall j <- Client.Ids(f.peers) :: MayShare(cfg, j, f.name) && Knows(addrs, j)
  {
    forall j | j in Client.Ids(f.peers)
      ensures MayShare(cfg, j, f.name) && Knows(addrs, j)
    {
      var p :| p in f.peers && p.id == j;
      assert PeerOk(cfg, f.name, p);
    }
  }

  lemma {:induction false} OnEntryOk(cfg: Config, clients: seq<Client.State>, c: nat, st: Client.State, f: FileEntry)
    requires ConfigOk(cfg) && c < MAX_CLIENTS == |clients| && GoodMove(cfg, clients, c, st, [])
    requires EntryOk(cfg, f) && f.size < 65536
    ensures GoodMove(cfg, clients, c, Client.OnEntry(st, f), [])
  {
    LearnPeersOk(cfg, st.addrs, f.name, f.peers);
    var addrs := Client.LearnPeers(st.addrs, f.peers);
    GroupsKeep(cfg, c, st.groups, st.addrs, addrs);
    LearnGroupOk(cfg, c, st.groups, addrs, f);
    LearnSizeOk(cfg, c, st.downloads, st.owned, f.name, f.size);
    LearnSizeRoutes(cfg, clients, st.downloads, st.addrs, addrs, f.name, f.size);
  }

  lemma {:induction false} OnAssignOk(cfg: Config, clients: seq<Client.State>, c: nat, files: seq<FileEntry>)
    requires Before(cfg, clients, c)
    requires forall f <- files :: EntryOk(cfg, f) && f.size < 65536
    ensures GoodMove(cfg, clients, c, Client.OnAssign(clients[c], files), [])
    decreases files
  {
    if files != [] {
      OnAssignOk(cfg, clients, c, files[..|files| - 1]);
      var last := files[|files| - 1];
      assert last in files;
      OnEntryOk(cfg, clients, c, Client.OnAssign(clients[c], files[..|files| - 1]), last);
    }
  }

  // ---------- timers ----------

  lemma {:induction false} EnableOk(cfg: Config, clients: seq<Client.State>, c: nat, k: nat)
    requires Before(cfg, clients, c) && k < |clients[c].downloads|
    ensures var st := clients[c];
      GoodMove(cfg, clients, c, st.(downloads := st.downloads[k := st.downloads[k].(enabled := true)]), [])
  {
    var st := clients[c];
    SourcesChange(cfg, c, st.downloads, st.owned, k, st.downloads[k].(enabled := true));
  }

  /** Announcing an owned file takes over its size, which the invariant already knows. */
  lemma {:induction false} AnnounceOk(cfg: Config, c: nat, ds: seq<Client.Download>, owned: seq<Client.FileInfo>, k: nat)
    requires ConfigOk(cfg) && c < MAX_CLIENTS && k < |ds|
    requires DownloadsOk(cfg, c, ds) && OwnedOk(cfg, c, ds, owned)
    ensures var d := Client.Announce(owned, ds[k]);
      && DownloadOk(cfg, c, d)
      && d == ds[k].(filesize := d.filesize, done := d.done)
      && (ds[k].done ==> d.done)
      && (d.done && !ds[k].done ==> Client.OwnedFor(owned, d.name) < |owned|)
      && (ds[k].numSegs != 0 && !Holds0(cfg, c, d.name) ==> d.filesize == ds[k].filesize)
  {
    assert DownloadOk(cfg, c, ds[k]);
    var i := Client.OwnedFor(owned, ds[k].name);
    if ds[k].enabled && i < |owned| {
      OwnedForFinds(cfg, c, ds, owned, ds[k].name);
      if !Holds0(cfg, c, ds[k].name) {
        assert DownloadOk(cfg, c, ds[owned[i].fp.k]);
      }
    }
  }

  lemma {:induction false} AnnounceAllOk(cfg: Config, c: nat, ds: seq<Client.Download>, owned: seq<Client.FileInfo>)
    requires ConfigOk(cfg) && c < MAX_CLIENTS
    requires DownloadsOk(cfg, c, ds) && OwnedOk(cfg, c, ds, owned) && DoneOk(ds, owned)
    ensures var ds' := Client.AnnounceAll(owned, ds);
      DownloadsOk(cfg, c, ds') && OwnedOk(cfg, c, ds', owned) && DoneOk(ds', owned)
  {
    var ds' := Client.AnnounceAll(owned, ds);
    forall k | 0 <= k < |ds|
      ensures DownloadOk(cfg, c, ds'[k]) && cfg.tasks[c][k] == Client.Task(ds'[k].name, ds'[k].share)
      ensures ds'[k].done ==> Client.OwnedFor(owned, ds'[k].name) < |owned|
    {
      AnnounceOk(cfg, c, ds, owned, k);
    }
    forall i | |cfg.files[c]| <= i < |owned|
      ensures FinishedOk(cfg, c, ds', owned[i])
    {
      assert FinishedOk(cfg, c, ds, owned[i]);
      AnnounceOk(cfg, c, ds, owned, owned[i].fp.k);
    }
  }

  /** The item announced for download k: only a file that is held, or could be obtained and is
      wanted, may be announced with a type that says so. */
  lemma {:induction false} ItemOfOk(cfg: Config, c: nat, owned: seq<Client.FileInfo>, ds: seq<Client.Download>, k: nat, junk: int)
    requires ConfigOk(cfg) && c < MAX_CLIENTS && k < |ds| && ds[k].enabled
    requires DownloadsOk(cfg, c, ds) && OwnedOk(cfg, c, ds, owned)
    ensures var d := ds[k];
      ItemOk(cfg, c, Item(d.name, Client.Announce(owned, d).filesize,
                          Client.Kind(cfg.build, Client.OwnedFor(owned, d.name) < |owned|, d.share, junk)))
  {
    hide Filled, PrefixFree, FinishedOk, FirstOfName;
    var d := ds[k];
    assert DownloadOk(cfg, c, d) && cfg.tasks[c][k] == Client.Task(d.name, d.share);
    assert HasTask(cfg, c, d.name);
    AnnounceOk(cfg, c, ds, owned, k);
    HeldIsObtainable(cfg, c, ds, owned, k);
    hide OwnedOk, DownloadsOk, Origin, HasTask, Client.OwnedFor;
  }

  /** What a client holds and has a task for it started with, or could download. */
  lemma {:induction false} HeldIsObtainable(cfg: Config, c: nat, ds: seq<Client.Download>, owned: seq<Client.FileInfo>, k: nat)
    requires ConfigOk(cfg) && c < MAX_CLIENTS && k < |ds| && DownloadsOk(cfg, c, ds) && OwnedOk(cfg, c, ds, owned)
    ensures var n := ds[k].name;
      && n in cfg.source && HasTask(cfg, c, n)
      && (Client.OwnedFor(owned, n) < |owned| ==> Obtainable(cfg, c, n))
      && (Holds0(cfg, c, n) ==> Origin(cfg, n))
  {
    hide Filled, PrefixFree;
    var d := ds[k];
    assert DownloadOk(cfg, c, d) && cfg.tasks[c][k] == Client.Task(d.name, d.share);
    assert HasTask(cfg, c, d.name);
    if Client.OwnedFor(owned, d.name) < |owned| {
      OwnedForFinds(cfg, c, ds, owned, d.name);
      if !Holds0(cfg, c, d.name) {
        assert DownloadOk(cfg, c, ds[owned[Client.OwnedFor(owned, d.name)].fp.k]);
      }
    }
  }

  lemma {:induction false} ItemsOk(cfg: Config, c: nat, owned: seq<Client.FileInfo>, ds: seq<Client.Download>, junk: seq<int>, n: nat)
    requires ConfigOk(cfg) && c < MAX_CLIENTS && n <= |ds|
    requires DownloadsOk(cfg, c, ds) && OwnedOk(cfg, c, ds, owned)
    ensures var items := Client.ItemsFor(cfg.build, owned, ds[..n], junk);
      |items| <= n && forall x <- items :: ItemOk(cfg, c, x)
  {
    hide ItemOk, DownloadsOk, OwnedOk, ConfigOk, Client.OwnedFor, Client.Kind, Client.Announce;
    if n > 0 {
      ItemsOk(cfg, c, owned, ds, junk, n - 1);
      assert ds[..n][..n - 1] == ds[..n - 1];
      if ds[n - 1].enabled {
        ItemOfOk(cfg, c, owned, ds, n - 1, if n - 1 < |junk| then junk[n - 1] else 0);
      }
    }
  }

  lemma {:induction false} OnInterestTickOk(cfg: Config, clients: seq<Client.State>, c: nat, junk: seq<int>)
    requires Before(cfg, clients, c)
    ensures var (st, outs) := Client.OnInterestTick(cfg.build, clients[c], junk); GoodMove(cfg, clients, c, st, outs)
  {
    var st := clients[c];
    var (st', outs) := Client.OnInterestTick(cfg.build, st, junk);
    if outs == [] {
      NewAddrs(cfg, clients, c, st.addrs, st');
    } else {
      AnnounceAllOk(cfg, c, st.downloads, st.owned);
      assert st.downloads[..|st.downloads|] == st.downloads;
      ItemsOk(cfg, c, st.owned, st.downloads, junk, |st.downloads|);
      forall k, i | 0 <= k < |st'.downloads| && 0 <= i < |st'.downloads[k].source|
        ensures SourceOk(cfg, clients, st'.addrs, st'.downloads[k].name, st'.downloads[k].source[i])
      {
        AnnounceOk(cfg, c, st.downloads, st.owned, k);
        assert SourceOk(cfg, clients, st.addrs, st.downloads[k].name, st.downloads[k].source[i]);
      }
      assert PacketOk(cfg, clients, Packet(cfg.ports[c], outs[0].port, outs[0].msg));
    }
  }

  /** Asked are only known clients that may be listed as sharing. */
  lemma {:induction false} NeighborsOk(cfg: Config, c: int, groups: seq<Client.Group>, addrs: seq<Peer>, n: Name)
    requires ConfigOk(cfg) && n in cfg.source && GroupsOk(cfg, c, groups, addrs) && NamesOk(cfg, groups)
    ensures forall j :: j in Client.Neighbors(groups, n) && j != c ==> MayShare(cfg, j, n) && Knows(addrs, j)
    decreases groups
  {
    if groups != [] {
      var i := |groups| - 1;
      NeighborsOk(cfg, c, groups[..i], addrs, n);
      MatchesIsEquality(cfg, n, groups[i].name);
      assert GroupOk(cfg, c, groups[i], addrs);
    }
  }

  lemma {:induction false} AskPeerOk(cfg: Config, clients: seq<Client.State>, c: nat, name: Name, j: nat)
    requires Before(cfg, clients, c) && name in cfg.source && MayShare(cfg, j, name) && Knows(clients[c].addrs, j) && j != c
    ensures OutsOk(cfg, clients, c, [Client.Out(Client.SendPort(clients[c].addrs, j), InfoReq(clients[c].id, name))])
  {
    SendPortOk(cfg, clients[c].addrs, j);
    assert PacketOk(cfg, clients, Packet(cfg.ports[c], cfg.ports[j], InfoReq(c, name)));
  }

  lemma {:induction false} AskPeersOk(cfg: Config, clients: seq<Client.State>, c: nat, name: Name, neighbors: set<int>, n: nat)
    requires Before(cfg, clients, c) && name in cfg.source && n <= MAX_CLIENTS
    requires forall j :: j in neighbors && j != c ==> MayShare(cfg, j, name) && Knows(clients[c].addrs, j)
    ensures OutsOk(cfg, clients, c, Client.AskPeers(clients[c], name, neighbors, n))
  {
    hide OutsOk, RoutesOk, DownloadsOk, OwnedOk, DoneOk, DiskOk, GroupsOk;
    NoOuts(cfg, clients, c);
    if n > 0 {
      AskPeersOk(cfg, clients, c, name, neighbors, n - 1);
      if n - 1 in neighbors && n - 1 != c {
        AskPeerOk(cfg, clients, c, name, n - 1);
        OutsJoin(cfg, clients, c, Client.AskPeers(clients[c], name, neighbors, n - 1),
                 [Client.Out(Client.SendPort(clients[c].addrs, n - 1), InfoReq(clients[c].id, name))]);
      } else {
        OutsJoin(cfg, clients, c, Client.AskPeers(clients[c], name, neighbors, n - 1), []);
      }
    }
  }

  /** What one download asks. */
  lemma {:induction false} AskForOk(cfg: Config, clients: seq<Client.State>, c: nat, k: nat)
    requires Before(cfg, clients, c) && k < |clients[c].downloads|
    ensures var st := clients[c];
      var name := st.downloads[k].name;
      OutsOk(cfg, clients, c, Client.AskPeers(st, name, Client.Neighbors(st.groups, name), MAX_CLIENTS))
  {
    var st := clients[c];
    assert DownloadOk(cfg, c, st.downloads[k]);
    NeighborsOk(cfg, c, st.groups, st.addrs, st.downloads[k].name);
    AskPeersOk(cfg, clients, c, st.downloads[k].name, Client.Neighbors(st.groups, st.downloads[k].name), MAX_CLIENTS);
  }

  lemma {:induction false} AskInfoOk(cfg: Config, clients: seq<Client.State>, c: nat, n: nat)
    requires Before(cfg, clients, c) && n <= |clients[c].downloads|
    ensures OutsOk(cfg, clients, c, Client.AskInfo(clients[c], n))
  {
    hide OutsOk, LocalOk, RoutesOk, Client.AskPeers, Client.Neighbors;
    NoOuts(cfg, clients, c);
    if n > 0 {
      var st := clients[c];
      var d := st.downloads[n - 1];
      AskInfoOk(cfg, clients, c, n - 1);
      AskForOk(cfg, clients, c, n - 1);
      OutsJoin(cfg, clients, c, Client.AskInfo(st, n - 1),
               if d.filesize == 0 then [] else Client.AskPeers(st, d.name, Client.Neighbors(st.groups, d.name), MAX_CLIENTS));
    }
  }

  // ---------- who is asked ----------

  lemma {:induction false} AskPeersIff(st: Client.State, name: Name, neighbors: set<int>, n: nat, o: Client.Out)
    ensures o in Client.AskPeers(st, name, neighbors, n) <==>
      exists j :: 0 <= j < n && j in neighbors && j != st.id && o == Client.Out(Client.SendPort(st.addrs, j), InfoReq(st.id, name))
  {
    hide Client.SendPort;
    if n > 0 { AskPeersIff(st, name, neighbors, n - 1, o); }
  }

  lemma {:induction false} NeighborsIff(groups: seq<Client.Group>, download: Name, j: int)
    ensures j in Client.Neighbors(groups, download) <==>
      exists i :: 0 <= i < |groups| && Client.Matches(download, groups[i].name) && j in groups[i].sharing
    decreases groups
  {
    hide Client.Matches;
    if groups != [] {
      var front := groups[..|groups| - 1];
      NeighborsIff(front, download, j);
      assert forall i :: 0 <= i < |front| ==> front[i] == groups[i];
    }
  }

  /** This is asked of client j for download k: j is another client that a group of the file's
      name lists as sharing. */
  ghost predicate AskedOf(st: Client.State, k: nat, j: int, o: Client.Out) {
    && k < |st.downloads| && st.downloads[k].filesize != 0
    && 0 <= j < MAX_CLIENTS && j != st.id
    && (exists i :: 0 <= i < |st.groups| && Client.Matches(st.downloads[k].name, st.groups[i].name) && j in st.groups[i].sharing)
    && o == Client.Out(Client.SendPort(st.addrs, j), InfoReq(st.id, st.downloads[k].name))
  }

  /** One CLNT_INFO_REQ goes out for each sized download to each client listed as sharing it. */
  lemma {:induction false} AskInfoIff(st: Client.State, n: nat, o: Client.Out)
    requires n <= |st.downloads|
    ensures o in Client.AskInfo(st, n) <==> exists k: nat, j :: k < n && AskedOf(st, k, j, o)
  {
    hide Client.AskPeers, Client.Neighbors, Client.SendPort, Client.Matches, AskedOf;
    if n > 0 {
      AskInfoIff(st, n - 1, o);
      AskedFor(st, n - 1, o);
    }
  }

  lemma {:induction false} AskedFor(st: Client.State, k: nat, o: Client.Out)
    requires k < |st.downloads|
    ensures var d := st.downloads[k];
      (d.filesize != 0 && o in Client.AskPeers(st, d.name, Client.Neighbors(st.groups, d.name), MAX_CLIENTS)) <==>
      exists j :: AskedOf(st, k, j, o)
  {
    hide Client.SendPort, Client.Matches, Client.AskPeers, Client.Neighbors;
    var d := st.downloads[k];
    var neighbors := Client.Neighbors(st.groups, d.name);
    AskPeersIff(st, d.name, neighbors, MAX_CLIENTS, o);
    forall j
      ensures j in neighbors <==>
        exists i :: 0 <= i < |st.groups| && Client.Matches(d.name, st.groups[i].name) && j in st.groups[i].sharing
    {
      NeighborsIff(st.groups, d.name, j);
    }
    if d.filesize != 0 && o in Client.AskPeers(st, d.name, neighbors, MAX_CLIENTS) {
      var j :| 0 <= j < MAX_CLIENTS && j in neighbors && j != st.id && o == Client.Out(Client.SendPort(st.addrs, j), InfoReq(st.id, d.name));
      assert AskedOf(st, k, j, o);
    }
  }
}
