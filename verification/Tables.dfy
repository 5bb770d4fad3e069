/** What the invariant says about the tables a handler searches and extends. */
module Tables {
  import opened Basics
  import opened Wire
  import opened Segments
  import opened Swarm
  import opened Invariant
  import Client
  import Tracker

  // ---------- names ----------

  /** Two names that both begin a third one are the same name. */
  lemma {:induction false} SameName(cfg: Config, a: Name, b: Name, x: Name)
    requires ConfigOk(cfg) && a in cfg.source && b in cfg.source
    requires Client.Matches(a, x) && Client.Matches(b, x)
    ensures a == b
  {
    assert if |a| <= |b| then Client.Matches(a, b) else Client.Matches(b, a);
  }

  lemma {:induction false} MatchesTransitive(a: Name, b: Name, c: Name)
    requires Client.Matches(a, b) && Client.Matches(b, c)
    ensures Client.Matches(a, c)
  {
    assert a == b[..|a|] == c[..|a|];
  }

  /** On prefix-free names the C comparison is equality, whichever name it measures. */
  lemma {:induction false} MatchesIsEquality(cfg: Config, a: Name, b: Name)
    requires ConfigOk(cfg) && a in cfg.source && b in cfg.source
    ensures Client.Matches(a, b) <==> a == b
  {
  }

  // ---------- addresses ----------

  lemma {:induction false} KnowsGrows(addrs: seq<Peer>, more: seq<Peer>)
    requires addrs <= more
    ensures forall j :: Knows(addrs, j) ==> Knows(more, j)
  {
    forall j | Knows(addrs, j)
      ensures Knows(more, j)
    {
      assert more[Client.IndexOfId(addrs, j)].id == j;
    }
  }

  /** One entry per id is one entry per port, so both searches find the same entry. */
  lemma {:induction false} PortIsId(cfg: Config, addrs: seq<Peer>, id: int)
    requires ConfigOk(cfg) && AddrsOk(cfg, addrs) && 0 <= id < MAX_CLIENTS
    ensures Client.IndexOfPort(addrs, cfg.ports[id]) == Client.IndexOfId(addrs, id)
  {
    var i, j := Client.IndexOfPort(addrs, cfg.ports[id]), Client.IndexOfId(addrs, id);
    if i < |addrs| {
      assert addrs[i].id == id;
    }
  }

  lemma {:induction false} AppendAddr(cfg: Config, addrs: seq<Peer>, id: int)
    requires ConfigOk(cfg) && AddrsOk(cfg, addrs) && 0 <= id < MAX_CLIENTS && !Knows(addrs, id)
    ensures AddrsOk(cfg, addrs + [Peer(id, cfg.ports[id])])
    ensures Knows(addrs + [Peer(id, cfg.ports[id])], id)
  {
    var more := addrs + [Peer(id, cfg.ports[id])];
    assert more[|addrs|].id == id;
  }

  lemma {:induction false} LearnSenderOk(cfg: Config, addrs: seq<Peer>, id: int)
    requires ConfigOk(cfg) && AddrsOk(cfg, addrs) && 0 <= id < MAX_CLIENTS
    ensures var more := Client.LearnSender(addrs, id, cfg.ports[id]);
      addrs <= more && AddrsOk(cfg, more) && Knows(more, id)
  {
    PortIsId(cfg, addrs, id);
    if !Knows(addrs, id) { AppendAddr(cfg, addrs, id); }
  }

  lemma {:induction false} LearnPeerOk(cfg: Config, addrs: seq<Peer>, p: Peer)
    requires ConfigOk(cfg) && AddrsOk(cfg, addrs) && 0 <= p.id < MAX_CLIENTS && p.port == cfg.ports[p.id]
    ensures var more := Client.LearnPeer(addrs, p);
      addrs <= more && AddrsOk(cfg, more) && Knows(more, p.id)
  {
    if !Knows(addrs, p.id) { AppendAddr(cfg, addrs, p.id); }
  }

  lemma {:induction false} LearnPeersOk(cfg: Config, addrs: seq<Peer>, n: Name, peers: seq<Peer>)
    requires ConfigOk(cfg) && AddrsOk(cfg, addrs) && forall p <- peers :: PeerOk(cfg, n, p)
    ensures var more := Client.LearnPeers(addrs, peers);
      addrs <= more && AddrsOk(cfg, more) && forall p <- peers :: Knows(more, p.id)
    decreases peers
  {
    if peers != [] {
      var front, p := peers[..|peers| - 1], peers[|peers| - 1];
      assert p in peers;
      LearnPeersOk(cfg, addrs, n, front);
      var mid := Client.LearnPeers(addrs, front);
      LearnPeerOk(cfg, mid, p);
      KnowsGrows(mid, Client.LearnPeer(mid, p));
      assert forall q :: q in peers ==> q in front || q == p;
    }
  }

  lemma {:induction false} SendPortOk(cfg: Config, addrs: seq<Peer>, id: int)
    requires ConfigOk(cfg) && AddrsOk(cfg, addrs) && Knows(addrs, id) && 0 <= id < MAX_CLIENTS
    ensures Client.SendPort(addrs, id) == cfg.ports[id]
  {
  }

  /** The table never outgrows its MAX_CLIENTS slots. */
  lemma {:induction false} AddrsFit(cfg: Config, addrs: seq<Peer>)
    requires ConfigOk(cfg) && AddrsOk(cfg, addrs)
    ensures |addrs| <= MAX_CLIENTS
  {
    var ids := IdSet(addrs, |addrs|);
    SubsetOfRange(ids, MAX_CLIENTS);
  }

  ghost function IdSet(addrs: seq<Peer>, n: nat): (ids: set<int>)
    requires n <= |addrs|
    requires forall i, j :: 0 <= i < j < |addrs| ==> addrs[i].id != addrs[j].id
    ensures |ids| == n && forall x :: x in ids <==> exists i :: 0 <= i < n && addrs[i].id == x
  {
    if n == 0 then {} else IdSet(addrs, n - 1) + {addrs[n - 1].id}
  }

  lemma {:induction false} SubsetOfRange(s: set<int>, n: nat)
    requires forall x <- s :: 0 <= x < n
    ensures |s| <= n
  {
    if n > 0 {
      SubsetOfRange(s - {n - 1}, n - 1);
    } else {
      assert forall x :: x !in s;
    }
  }

  // ---------- owned files ----------

  /** Owned entries stay where they are when more are appended, so a search that succeeded
      keeps succeeding. */
  lemma {:induction false} ServesGrows(st: Client.State, st': Client.State, n: Name)
    requires st.owned <= st'.owned && Serves(st, n)
    ensures Serves(st', n)
  {
    var i := Client.OwnedAs(st.owned, n);
    assert st'.owned[i] == st.owned[i];
  }

  lemma {:induction false} OwnedForGrows(owned: seq<Client.FileInfo>, more: seq<Client.FileInfo>, n: Name)
    requires owned <= more && Client.OwnedFor(owned, n) < |owned|
    ensures Client.OwnedFor(more, n) < |more|
  {
    var i := Client.OwnedFor(owned, n);
    assert more[i] == owned[i];
  }

  /** The file an entry of the table stands for, whatever follows its name. */
  ghost function RealName(cfg: Config, c: nat, ds: seq<Client.Download>, owned: seq<Client.FileInfo>, i: nat): (n: Name)
    requires ConfigOk(cfg) && c < MAX_CLIENTS && OwnedOk(cfg, c, ds, owned) && i < |owned|
    ensures n in cfg.source && Client.Matches(n, owned[i].name)
    ensures i < |cfg.files[c]| ==> n == cfg.files[c][i] == owned[i].name
    ensures i >= |cfg.files[c]| ==> n == ds[owned[i].fp.k].name
  {
    if i < |cfg.files[c]| then
      assert cfg.files[c][i] in cfg.source;
      assert owned[i] == Seed(cfg, cfg.files[c][i]);
      cfg.files[c][i]
    else
      assert FinishedOk(cfg, c, ds, owned[i]);
      ds[owned[i].fp.k].name
  }

  /** Both searches of the owned files find entries of the wanted file only. */
  lemma {:induction false} OwnedEntryIsWanted(cfg: Config, c: nat, ds: seq<Client.Download>, owned: seq<Client.FileInfo>, i: nat, n: Name)
    requires ConfigOk(cfg) && c < MAX_CLIENTS && OwnedOk(cfg, c, ds, owned) && i < |owned| && n in cfg.source
    requires Client.Matches(owned[i].name, n) || Client.Matches(n, owned[i].name)
    ensures RealName(cfg, c, ds, owned, i) == n
  {
    var r := RealName(cfg, c, ds, owned, i);
    if Client.Matches(owned[i].name, n) {
      MatchesTransitive(r, owned[i].name, n);
    } else {
      SameName(cfg, r, n, owned[i].name);
    }
  }

  /** A file the client started with is found under its name. */
  lemma {:induction false} InitialFound(cfg: Config, c: nat, ds: seq<Client.Download>, owned: seq<Client.FileInfo>, n: Name)
    requires ConfigOk(cfg) && c < MAX_CLIENTS && OwnedOk(cfg, c, ds, owned) && Holds0(cfg, c, n) && n in cfg.source
    ensures Client.OwnedFor(owned, n) < |cfg.files[c]|
  {
    var j :| 0 <= j < |cfg.files[c]| && cfg.files[c][j] == n;
    assert owned[j] == Seed(cfg, n);
    assert Client.Matches(n, owned[j].name);
  }

  /** The entry a search with the download's name finds. */
  lemma {:induction false} OwnedForFinds(cfg: Config, c: nat, ds: seq<Client.Download>, owned: seq<Client.FileInfo>, n: Name)
    requires ConfigOk(cfg) && c < MAX_CLIENTS && OwnedOk(cfg, c, ds, owned) && n in cfg.source
    requires Client.OwnedFor(owned, n) < |owned|
    ensures var fi := owned[Client.OwnedFor(owned, n)];
      if Holds0(cfg, c, n) then fi == Seed(cfg, n)
      else FinishedOk(cfg, c, ds, fi) && ds[fi.fp.k].name == n
  {
    var i := Client.OwnedFor(owned, n);
    OwnedEntryIsWanted(cfg, c, ds, owned, i, n);
    if Holds0(cfg, c, n) {
      InitialFound(cfg, c, ds, owned, n);
    } else if i < |cfg.files[c]| {
      assert false;
    }
  }

  // ---------- capacities ----------

  lemma {:induction false} NamesFit(names: seq<Name>, all: set<Name>)
    requires forall i :: 0 <= i < |names| ==> names[i] in all
    requires forall i, j :: 0 <= i < j < |names| ==> names[i] != names[j]
    ensures |names| <= |all|
    decreases names
  {
    if names != [] {
      var last := |names| - 1;
      NamesFit(names[..last], all - {names[last]});
    }
  }

  ghost function RealNames(cfg: Config, c: nat, ds: seq<Client.Download>, owned: seq<Client.FileInfo>): (names: seq<Name>)
    requires ConfigOk(cfg) && c < MAX_CLIENTS && OwnedOk(cfg, c, ds, owned)
    ensures |names| == |owned| && forall i :: 0 <= i < |owned| ==> names[i] == RealName(cfg, c, ds, owned, i)
  {
    seq(|owned|, i requires 0 <= i < |owned| => RealName(cfg, c, ds, owned, i))
  }

  /** No two entries stand for the same file. */
  lemma {:induction false} RealNamesDiffer(cfg: Config, c: nat, ds: seq<Client.Download>, owned: seq<Client.FileInfo>, i: nat, j: nat)
    requires ConfigOk(cfg) && c < MAX_CLIENTS && DownloadsOk(cfg, c, ds) && OwnedOk(cfg, c, ds, owned) && i < j < |owned|
    ensures RealName(cfg, c, ds, owned, i) != RealName(cfg, c, ds, owned, j)
  {
    hide Filled, PrefixFree, Origin;
    var a, b := RealName(cfg, c, ds, owned, i), RealName(cfg, c, ds, owned, j);
    if j >= |cfg.files[c]| {
      assert FinishedOk(cfg, c, ds, owned[j]);
      if i >= |cfg.files[c]| {
        assert FinishedOk(cfg, c, ds, owned[i]);
        assert owned[i].fp.k != owned[j].fp.k;
        assert FirstOfName(cfg, c, ds);
      } else {
        assert Holds0(cfg, c, a);
      }
    }
  }

  lemma {:induction false} OwnedFits(cfg: Config, c: nat, ds: seq<Client.Download>, owned: seq<Client.FileInfo>)
    requires ConfigOk(cfg) && c < MAX_CLIENTS && DownloadsOk(cfg, c, ds) && OwnedOk(cfg, c, ds, owned)
    ensures |owned| <= MAX_FILES
  {
    hide OwnedOk, DownloadsOk, RealName, PrefixFree;
    var names := RealNames(cfg, c, ds, owned);
    forall i, j | 0 <= i < j < |names|
      ensures names[i] != names[j]
    {
      RealNamesDiffer(cfg, c, ds, owned, i, j);
    }
    NamesFit(names, cfg.source.Keys);
  }

  lemma {:induction false} GroupsFit(cfg: Config, groups: seq<Client.Group>)
    requires ConfigOk(cfg) && NamesOk(cfg, groups)
    ensures |groups| <= MAX_FILES
  {
    var names := seq(|groups|, i requires 0 <= i < |groups| => groups[i].name);
    NamesFit(names, cfg.source.Keys);
  }

  lemma {:induction false} TrackedFit(cfg: Config, groups: seq<Tracker.Group>)
    requires ConfigOk(cfg) && Tracker.Distinct(groups) && forall g <- groups :: g.name in cfg.source
    ensures |groups| <= MAX_FILES
  {
    var names := seq(|groups|, i requires 0 <= i < |groups| => groups[i].name);
    forall i | 0 <= i < |names|
      ensures names[i] in cfg.source
    {
      assert groups[i] in groups;
    }
    NamesFit(names, cfg.source.Keys);
  }
}
