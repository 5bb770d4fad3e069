/** The tracker's databases (Tracker.c) on values, and what any history of interest messages
    leaves in them. */
module Tracker {
  import opened Basics
  import opened Wire
  import Client

  datatype Group = Group(name: Name, sharing: set<int>, down: set<int>, size: nat)

  datatype State = State(addrs: seq<Peer>, groups: seq<Group>, running: bool)

  function GroupFor(groups: seq<Group>, name: Name): nat {
    FirstIndex(groups, (g: Group) => g.name == name)
  }

  predicate Downloads(kind: int) { kind == 0 || kind == 1 }

  predicate Shares(kind: int) { kind == 1 || kind == 2 }

  function Mark(g: Group, cid: int, item: Item): Group {
    g.(down := g.down + (if Downloads(item.kind) then {cid} else {}),
       sharing := g.sharing + (if Shares(item.kind) then {cid} else {}),
       size := if g.size == 0 then item.size else g.size)
  }

  function NoteItem(groups: seq<Group>, cid: int, item: Item): (r: seq<Group>) {
    var i := GroupFor(groups, item.name);
    if i < |groups| then groups[i := Mark(groups[i], cid, item)]
    else groups + [Mark(Group(item.name, {}, {}, 0), cid, item)]
  }

  function NoteItems(groups: seq<Group>, cid: int, items: seq<Item>): seq<Group> {
    if items == [] then groups
    else NoteItem(NoteItems(groups, cid, items[..|items| - 1]), cid, items[|items| - 1])
  }

  /** The id and port of each sharing client below n whose address is on file. */
  function SharersOf(addrs: seq<Peer>, sharing: set<int>, n: nat): (r: seq<Peer>)
    ensures |r| <= n
  {
    if n == 0 then [] else
      var i := Client.IndexOfId(addrs, n - 1);
      SharersOf(addrs, sharing, n - 1) +
      if n - 1 in sharing && i < |addrs| then [Peer(n - 1, addrs[i].port)] else []
  }

  function Assignment(addrs: seq<Peer>, groups: seq<Group>, name: Name): FileEntry {
    var i := GroupFor(groups, name);
    if i == |groups| then FileEntry(name, 0, [])
    else FileEntry(name, groups[i].size, SharersOf(addrs, groups[i].sharing, MAX_CLIENTS))
  }

  /** What createGroupAssignPkt answers to the requested names. */
  function Assignments(addrs: seq<Peer>, groups: seq<Group>, items: seq<Item>): (r: seq<FileEntry>)
    ensures |r| == |items|
    ensures forall i :: 0 <= i < |r| ==> r[i] == Assignment(addrs, groups, items[i].name)
  {
    if items == [] then [] else
      Assignments(addrs, groups, items[..|items| - 1]) + [Assignment(addrs, groups, items[|items| - 1].name)]
  }

  function OnInterest(t: State, cid: int, items: seq<Item>, from: int): (State, Msg) {
    var addrs := Client.LearnPeer(t.addrs, Peer(cid, from));
    var groups := NoteItems(t.groups, cid, items);
    (t.(addrs := addrs, groups := groups), GroupAssign(Assignments(addrs, groups, items)))
  }

  // ---------- the database against its history ----------

  /** One announcement of one file by one client. */
  datatype Event = Event(cid: int, item: Item)

  function Replay(history: seq<Event>): seq<Group> {
    if history == [] then [] else
      var e := history[|history| - 1];
      NoteItem(Replay(history[..|history| - 1]), e.cid, e.item)
  }

  function Sharers(history: seq<Event>, name: Name): set<int> {
    set e <- history | e.item.name == name && Shares(e.item.kind) :: e.cid
  }

  function Downloaders(history: seq<Event>, name: Name): set<int> {
    set e <- history | e.item.name == name && Downloads(e.item.kind) :: e.cid
  }

  /** The first nonzero size announced for a file, 0 if there is none. */
  function FirstSize(history: seq<Event>, name: Name): nat {
    var i := FirstIndex(history, (e: Event) => e.item.name == name && e.item.size != 0);
    if i < |history| then history[i].item.size else 0
  }

  ghost predicate Distinct(groups: seq<Group>) {
    forall i, j :: 0 <= i < j < |groups| ==> groups[i].name != groups[j].name
  }

  ghost predicate SumsUp(g: Group, history: seq<Event>) {
    && g.sharing == Sharers(history, g.name)
    && g.down == Downloaders(history, g.name)
    && g.size == FirstSize(history, g.name)
  }

  lemma {:induction false} FirstSizeGrows(h: seq<Event>, e: Event, name: Name)
    ensures FirstSize(h + [e], name) ==
      if FirstSize(h, name) == 0 && e.item.name == name then e.item.size else FirstSize(h, name)
  {
    var p := (e: Event) => e.item.name == name && e.item.size != 0;
    var i, j := FirstIndex(h, p), FirstIndex(h + [e], p);
    assert forall k :: 0 <= k < |h| ==> (h + [e])[k] == h[k];
    assert j < |h| ==> p(h[j]);
    if i < |h| {
      assert p((h + [e])[i]);
      assert i == j;
    } else {
      assert (h + [e])[|h|] == e;
      assert p(e) ==> j == |h|;
    }
  }

  lemma {:induction false} SetsGrow(h: seq<Event>, e: Event, name: Name)
    ensures Sharers(h + [e], name) ==
      Sharers(h, name) + if e.item.name == name && Shares(e.item.kind) then {e.cid} else {}
    ensures Downloaders(h + [e], name) ==
      Downloaders(h, name) + if e.item.name == name && Downloads(e.item.kind) then {e.cid} else {}
  {
    assert forall x :: x in h + [e] <==> x in h || x == e;
    assert e in h + [e];
  }

  /** A file nobody has announced has an empty record. */
  lemma {:induction false} Unannounced(h: seq<Event>, name: Name)
    requires forall e <- h :: e.item.name != name
    ensures Sharers(h, name) == {} && Downloaders(h, name) == {} && FirstSize(h, name) == 0
  {
  }

  lemma {:induction false} DatabaseSumsUp(history: seq<Event>)
    ensures Distinct(Replay(history))
    ensures forall e <- history :: GroupFor(Replay(history), e.item.name) < |Replay(history)|
    ensures forall g <- Replay(history) :: SumsUp(g, history)
  {
    if history != [] {
      var h, e := history[..|history| - 1], history[|history| - 1];
      assert history == h + [e];
      DatabaseSumsUp(h);
      NoteItemTells(h, e);
    }
  }

  lemma {:induction false} NoteItemTells(h: seq<Event>, e: Event)
    requires Distinct(Replay(h))
    requires forall x <- h :: GroupFor(Replay(h), x.item.name) < |Replay(h)|
    requires forall g <- Replay(h) :: SumsUp(g, h)
    ensures var r := NoteItem(Replay(h), e.cid, e.item);
      && Distinct(r)
      && (forall x <- h + [e] :: GroupFor(r, x.item.name) < |r|)
      && (forall g <- r :: SumsUp(g, h + [e]))
  {
    var groups := Replay(h);
    var r := NoteItem(groups, e.cid, e.item);
    NoteItemNames(groups, e.cid, e.item);
    forall x | x in h + [e]
      ensures GroupFor(r, x.item.name) < |r|
    {
      if x in h {
        NamedGroupFound(r, GroupFor(groups, x.item.name), x.item.name);
      } else {
        NamedGroupFound(r, GroupFor(groups, e.item.name), e.item.name);
      }
    }
    forall k | 0 <= k < |r|
      ensures SumsUp(r[k], h + [e])
    {
      NoteItemGroupTells(h, e, k);
    }
  }

  lemma {:induction false} NamedGroupFound(groups: seq<Group>, i: nat, name: Name)
    requires i < |groups| && groups[i].name == name
    ensures GroupFor(groups, name) < |groups|
  {
  }

  lemma {:induction false} NoteItemNames(groups: seq<Group>, cid: int, item: Item)
    requires Distinct(groups)
    ensures var r := NoteItem(groups, cid, item);
      && Distinct(r)
      && |r| >= |groups|
      && (forall k :: 0 <= k < |groups| ==> r[k].name == groups[k].name)
      && GroupFor(groups, item.name) < |r|
      && r[GroupFor(groups, item.name)].name == item.name
  {
  }

  lemma {:induction false} NoteItemGroupTells(h: seq<Event>, e: Event, k: nat)
    requires Distinct(Replay(h))
    requires forall x <- h :: GroupFor(Replay(h), x.item.name) < |Replay(h)|
    requires forall g <- Replay(h) :: SumsUp(g, h)
    requires k < |NoteItem(Replay(h), e.cid, e.item)|
    ensures SumsUp(NoteItem(Replay(h), e.cid, e.item)[k], h + [e])
  {
    var groups := Replay(h);
    var g := NoteItem(groups, e.cid, e.item)[k];
    SetsGrow(h, e, g.name);
    FirstSizeGrows(h, e, g.name);
    if k < |groups| {
      assert groups[k] in groups && SumsUp(groups[k], h);
    } else {
      Unannounced(h, e.item.name);
    }
  }

  /** The group says what the history does: its sharing clients are those that announced type 1 or
      2 for the file, its downloading clients those that announced type 0 or 1, and its size is the
      first one announced that was not 0. */
  ghost predicate Tells(g: Group, history: seq<Event>) {
    && (forall k :: k in g.sharing <==>
      exists e :: e in history && e.cid == k && e.item.name == g.name && (e.item.kind == 1 || e.item.kind == 2))
    && (forall k :: k in g.down <==>
      exists e :: e in history && e.cid == k && e.item.name == g.name && (e.item.kind == 0 || e.item.kind == 1))
    && (g.size == 0 ==> forall e <- history :: e.item.name == g.name ==> e.item.size == 0)
    && (g.size != 0 ==> exists i :: FirstSized(history, g.name, i) && history[i].item.size == g.size)
  }

  /** Announcement i is the first of the file with a size other than 0. */
  ghost predicate FirstSized(history: seq<Event>, name: Name, i: int) {
    && 0 <= i < |history| && history[i].item.name == name && history[i].item.size != 0
    && forall j :: 0 <= j < i && history[j].item.name == name ==> history[j].item.size == 0
  }

  lemma {:induction false} SumsTell(g: Group, history: seq<Event>)
    requires SumsUp(g, history)
    ensures Tells(g, history)
  {
    var i := FirstIndex(history, (e: Event) => e.item.name == g.name && e.item.size != 0);
    if i < |history| { assert FirstSized(history, g.name, i); }
  }

  /** The database is its history: one group for each announced file and no others, each telling
      what was announced. */
  lemma {:induction false} DatabaseTellsHistory(history: seq<Event>)
    ensures Distinct(Replay(history))
    ensures forall e <- history :: exists g :: g in Replay(history) && g.name == e.item.name
    ensures forall g <- Replay(history) :: exists e :: e in history && e.item.name == g.name
    ensures forall g <- Replay(history) :: Tells(g, history)
  {
    hide Tells, SumsUp;
    DatabaseSumsUp(history);
    OnlyAnnounced(history);
    var groups := Replay(history);
    forall e | e in history
      ensures exists g :: g in groups && g.name == e.item.name
    {
      assert groups[GroupFor(groups, e.item.name)] in groups;
    }
    forall g | g in groups
      ensures Tells(g, history)
    {
      SumsTell(g, history);
    }
  }

  lemma {:induction false} OnlyAnnounced(history: seq<Event>)
    ensures forall g <- Replay(history) :: exists e :: e in history && e.item.name == g.name
  {
    if history != [] {
      var h, e := history[..|history| - 1], history[|history| - 1];
      OnlyAnnounced(h);
      forall g | g in Replay(history)
        ensures exists x :: x in history && x.item.name == g.name
      {
        if x: Event :| x in h && x.item.name == g.name {
          assert x in history;
        } else {
          assert e in history && e.item.name == g.name;
        }
      }
    }
  }

  /** The announcements of one message. */
  function EventsOf(cid: int, items: seq<Item>): (events: seq<Event>)
    ensures |events| == |items| && forall i :: 0 <= i < |items| ==> events[i] == Event(cid, items[i])
  {
    if items == [] then [] else EventsOf(cid, items[..|items| - 1]) + [Event(cid, items[|items| - 1])]
  }

  /** Handling a message is replaying its announcements. */
  lemma {:induction false} MessageIsReplayed(history: seq<Event>, cid: int, items: seq<Item>)
    ensures NoteItems(Replay(history), cid, items) == Replay(history + EventsOf(cid, items))
    decreases items
  {
    hide NoteItem;
    if items == [] {
      assert history + [] == history;
    } else {
      var front, last := items[..|items| - 1], items[|items| - 1];
      MessageIsReplayed(history, cid, front);
      var h := history + EventsOf(cid, items);
      assert h[|h| - 1] == Event(cid, last);
      assert h[..|h| - 1] == history + EventsOf(cid, front);
    }
  }

  /** Histories with the same announcements, in whatever order and multiplicity, give every
      file the same sharing and downloading clients. */
  lemma {:induction false} OrderAndDuplicationDoNotMatter(h1: seq<Event>, h2: seq<Event>, g1: Group, g2: Group)
    requires forall e :: e in h1 <==> e in h2
    requires g1 in Replay(h1) && g2 in Replay(h2) && g1.name == g2.name
    ensures g1.sharing == g2.sharing && g1.down == g2.down
  {
    DatabaseSumsUp(h1);
    DatabaseSumsUp(h2);
    assert Sharers(h1, g1.name) == Sharers(h2, g1.name);
    assert Downloaders(h1, g1.name) == Downloaders(h2, g1.name);
  }
}
