/** The event queue of timers.cc: a singly linked list of heap-allocated events. */
module EventQueues {
  import opened Basics
  import opened Timevals

  /** TimerEntry. The callback is known by a number. */
  datatype Entry = Entry(handle: int, timeout: int, callback: int)

  /** The content of an event. */
  datatype Ev = Ev(tv: Timeval, kind: int, entry: Entry)

  // ---------- the queue as a sequence ----------

  /** Where Eq_Add puts an event: before the first one that is not earlier. */
  function Place(q: seq<Ev>, tv: Timeval): nat {
    FirstIndex(q, (e: Ev) => Cmp(tv, e.tv) <= 0)
  }

  function Insert(q: seq<Ev>, e: Ev): seq<Ev> {
    var i := Place(q, e.tv);
    q[..i] + [e] + q[i..]
  }

  function RemoveAt<T>(q: seq<T>, i: nat): (r: seq<T>)
    ensures i < |q| ==> |r| == |q| - 1 && forall k {:trigger r[k]} :: 0 <= k < |r| ==> r[k] == if k < i then q[k] else q[k + 1]
    ensures forall x <- r :: x in q
  {
    if i < |q| then q[..i] + q[i + 1..] else q
  }

  // ---------- the queue as a list ----------

  class Event {
    var tv: Timeval
    var kind: int
    var entry: Entry
    var next: Event?

    constructor (tv: Timeval, kind: int, entry: Entry)
      ensures Value() == Ev(tv, kind, entry) && next == null
    {
      this.tv, this.kind, this.entry, next := tv, kind, entry, null;
    }

    function Value(): Ev
      reads this
    {
      Ev(tv, kind, entry)
    }
  }

  ghost function Values(s: seq<Event>): (q: seq<Ev>)
    reads s
    ensures |q| == |s| && forall i :: 0 <= i < |s| ==> q[i] == s[i].Value()
  {
    if s == [] then [] else Values(s[..|s| - 1]) + [s[|s| - 1].Value()]
  }

  // ---------- well-linked lists of nodes ----------

  /** The node at position i, null behind the end. */
  function At(spine: seq<Event>, i: int): Event? {
    if 0 <= i < |spine| then spine[i] else null
  }

  ghost predicate Distinct(spine: seq<Event>) {
    forall i, j :: 0 <= i < j < |spine| ==> spine[i] != spine[j]
  }

  ghost function Nexts(spine: seq<Event>): (nexts: seq<Event?>)
    reads spine
    ensures |nexts| == |spine| && forall i :: 0 <= i < |spine| ==> nexts[i] == spine[i].next
  {
    if spine == [] then [] else Nexts(spine[..|spine| - 1]) + [spine[|spine| - 1].next]
  }

  /** With these next pointers each node of the spine points to the following one. */
  ghost predicate Chain(spine: seq<Event>, nexts: seq<Event?>) {
    |nexts| == |spine| && forall i :: 0 <= i < |nexts| ==> nexts[i] == At(spine, i + 1)
  }

  ghost predicate Linked(spine: seq<Event>)
    reads spine
  {
    Chain(spine, Nexts(spine))
  }

  ghost function Spliced(spine: seq<Event>, i: nat, n: Event): seq<Event>
    requires i <= |spine|
  {
    spine[..i] + [n] + spine[i..]
  }

  lemma {:induction false} DistinctChanges(s: seq<Event>, i: nat, n: Event)
    requires Distinct(s)
    ensures i <= |s| && n !in s ==> Distinct(Spliced(s, i, n))
    ensures i < |s| ==> Distinct(RemoveAt(s, i)) && s[i] !in RemoveAt(s, i)
    ensures 0 < i <= |s| ==> s[i - 1] != At(s, i) && forall k :: 0 <= k < |s| && k != i - 1 ==> s[k] != s[i - 1]
  {
  }

  /** Relinking two nodes around a new node n chains the spliced list. */
  lemma {:induction false} SplicedIsChain(s: seq<Event>, nexts: seq<Event?>, i: nat, n: Event, nexts': seq<Event?>)
    requires Chain(s, nexts) && i <= |s| && |nexts'| == |s| + 1
    requires nexts'[i] == At(s, i) && (i > 0 ==> nexts'[i - 1] == n)
    requires forall k :: 0 <= k < i - 1 ==> nexts'[k] == nexts[k]
    requires forall k :: i < k < |nexts'| ==> nexts'[k] == nexts[k - 1]
    ensures Chain(Spliced(s, i, n), nexts')
  {
    var t := Spliced(s, i, n);
    forall k | 0 <= k < |t|
      ensures nexts'[k] == At(t, k + 1)
    {
      if k < i - 1 {
        assert nexts[k] == At(s, k + 1);
      } else if k > i {
        assert nexts[k - 1] == At(s, k);
      }
    }
  }

  /** Bypassing node i chains the rest. */
  lemma {:induction false} BypassedIsChain(s: seq<Event>, nexts: seq<Event?>, i: nat, nexts': seq<Event?>)
    requires Chain(s, nexts) && i < |s| && |nexts'| == |s| - 1
    requires i > 0 ==> nexts'[i - 1] == At(s, i + 1)
    requires forall k :: 0 <= k < i - 1 ==> nexts'[k] == nexts[k]
    requires forall k :: i <= k < |nexts'| ==> nexts'[k] == nexts[k + 1]
    ensures Chain(RemoveAt(s, i), nexts')
  {
    var t := RemoveAt(s, i);
    forall k | 0 <= k < |t|
      ensures nexts'[k] == At(t, k + 1)
    {
      if k < i - 1 {
        assert nexts[k] == At(s, k + 1);
      } else if k >= i {
        assert nexts[k + 1] == At(s, k + 2);
      }
    }
  }

  /** After the relinking around n the spliced nodes are a list. */
  lemma {:induction false} AfterSplice(s: seq<Event>, nexts: seq<Event?>, i: nat, n: Event, q: seq<Ev>)
    requires i <= |s| && Chain(s, nexts) && n.next == At(s, i)
    requires Nexts(s) == if i == 0 then nexts else nexts[i - 1 := n]
    requires Values(s) == q
    ensures Linked(Spliced(s, i, n))
    ensures Values(Spliced(s, i, n)) == q[..i] + [n.Value()] + q[i..]
  {
    hide Values, Nexts;
    SplicedIsChain(s, nexts, i, n, Nexts(Spliced(s, i, n)));
  }

  lemma {:induction false} AtMeans(s: seq<Event>, i: int)
    ensures At(s, i) == null <==> !(0 <= i < |s|)
    ensures 0 <= i < |s| ==> At(s, i) == s[i]
  {
  }

  lemma {:induction false} RestOf(s: seq<Event>, i: nat)
    requires i < |s|
    ensures Values(RemoveAt(s, i)) == RemoveAt(Values(s), i)
    ensures Nexts(RemoveAt(s, i)) == RemoveAt(Nexts(s), i)
    ensures At(RemoveAt(s, i), 0) == At(s, if i == 0 then 1 else 0)
  {
    hide Values, Nexts, RemoveAt;
  }

  /** After the relinking around node i the rest is a list. */
  lemma {:induction false} AfterBypass(s: seq<Event>, nexts: seq<Event?>, i: nat)
    requires i < |s| && Chain(s, nexts)
    requires Nexts(s) == if i == 0 then nexts else nexts[i - 1 := At(s, i + 1)]
    ensures Linked(RemoveAt(s, i))
  {
    hide Values, Nexts, RemoveAt;
    RestOf(s, i);
    BypassedIsChain(s, nexts, i, RemoveAt(Nexts(s), i));
  }

  lemma {:induction false} SamePlace(s: seq<Event>, j: nat, i: nat, e: Event)
    requires Distinct(s) && j < |s| && s[j] == e && i <= |s| && (if i < |s| then s[i] == e else e !in s)
    ensures i == j
  {
  }

  lemma {:induction false} PlaceIs(q: seq<Ev>, tv: Timeval, i: nat)
    requires i <= |q| && (i < |q| ==> Cmp(tv, q[i].tv) <= 0) && forall j :: 0 <= j < i ==> Cmp(tv, q[j].tv) > 0
    ensures Place(q, tv) == i
  {
  }

  class EventQueue {
    var head: Event?
    ghost var spine: seq<Event>
    ghost var model: seq<Ev>
    ghost var repr: set<Event>

    constructor ()
      ensures Valid() && model == [] && repr == {}
    {
      head, spine, model, repr := null, [], [], {};
    }

    /** The spine is the list that starts at head, without repetition, and the model is what its
        nodes hold. Nodes that were taken off stay in repr. */
    ghost predicate Valid()
      reads this, repr
    {
      && (forall e <- spine :: e in repr)
      && head == At(spine, 0) && Distinct(spine) && Linked(spine) && model == Values(spine)
    }

    lemma {:induction false} NextOf(i: nat)
      requires Valid() && i < |spine|
      ensures spine[i].next == At(spine, i + 1)
    {
      assert Nexts(spine)[i] == At(spine, i + 1);
    }

    method EqAdd(n: Event)
      requires Valid() && n !in spine
      modifies this, n, repr
      ensures Valid() && n.Value() == old(n.Value())
      ensures Place(old(model), n.tv) <= |old(spine)|
      ensures spine == Spliced(old(spine), Place(old(model), n.tv), n) && repr == old(repr) + {n}
      ensures model == Insert(old(model), n.Value())
    {
      hide Values, Nexts;
      var ptr, last := head, head;
      ghost var i := 0;
      while ptr != null && Cmp(n.tv, ptr.tv) > 0
        invariant i <= |spine|
        invariant ptr == At(spine, i)
        invariant last == if i == 0 then ptr else spine[i - 1]
        invariant forall j :: 0 <= j < i ==> Cmp(n.tv, model[j].tv) > 0
        modifies {}
        decreases |spine| - i
      {
        assert Nexts(spine)[i] == At(spine, i + 1);
        last, ptr := ptr, ptr.next;
        i := i + 1;
      }
      PlaceIs(model, n.tv, i);
      LinkIn(n, last, ptr, i);
    }

    /** The relinking at the end of Eq_Add: n goes before the i-th node. */
    method RelinkAround(n: Event, last: Event?, ptr: Event?, ghost i: nat)
      requires Valid() && n !in spine && i <= |spine|
      requires ptr == At(spine, i) && last == if i == 0 then ptr else spine[i - 1]
      modifies this`head, n, repr
      ensures n.Value() == old(n.Value()) && n.next == At(spine, i)
      ensures head == if i == 0 then n else old(head)
      ensures Nexts(spine) == if i == 0 then old(Nexts(spine)) else old(Nexts(spine))[i - 1 := n]
      ensures Values(spine) == model
    {
      hide Values, Nexts, Distinct;
      ghost var nexts := Nexts(spine);
      DistinctChanges(spine, i, n);
      hide Linked;
      if last == ptr {
        n.next := head;
        head := n;
      } else {
        n.next := ptr;
        last.next := n;
        assert forall k {:trigger spine[k]} :: 0 <= k < |spine| && k != i - 1 ==> spine[k].next == nexts[k];
      }
      assert forall k {:trigger spine[k]} :: 0 <= k < |spine| ==> spine[k].Value() == model[k];
    }

    method LinkIn(n: Event, last: Event?, ptr: Event?, ghost i: nat)
      requires Valid() && n !in spine && i <= |spine|
      requires ptr == At(spine, i) && last == if i == 0 then ptr else spine[i - 1]
      modifies this, n, repr
      ensures Valid() && n.Value() == old(n.Value())
      ensures spine == Spliced(old(spine), i, n) && repr == old(repr) + {n}
      ensures model == old(model)[..i] + [n.Value()] + old(model)[i..]
    {
      hide Values, Nexts, Distinct, Chain, RemoveAt;
      ghost var q, nexts := model, Nexts(spine);
      DistinctChanges(spine, i, n);
      RelinkAround(n, last, ptr, i);
      AfterSplice(spine, nexts, i, n, q);
      spine, repr := Spliced(spine, i, n), repr + {n};
      model := q[..i] + [n.Value()] + q[i..];
    }

    method EqPop() returns (e: Event?)
      requires Valid()
      modifies this, repr
      ensures Valid() && repr == old(repr)
      ensures old(spine) == [] ==> e == null && spine == []
      ensures old(spine) != [] ==>
        && e == old(spine)[0] && e.next == null && e.Value() == old(model)[0]
        && spine == RemoveAt(old(spine), 0) && model == RemoveAt(old(model), 0)
    {
      hide Values, Nexts;
      e := head;
      if e != null {
        ghost var was, nexts := spine, Nexts(spine);
        assert nexts[0] == At(was, 1);
        DistinctChanges(was, 0, e);
        head := head.next;
        e.next := null;
        spine, model := RemoveAt(was, 0), RemoveAt(model, 0);
        BypassedIsChain(was, nexts, 0, Nexts(spine));
      }
    }

    /** The first event of this kind from e, the i-th, on. */
    method EqFindNextEvent(kind: int, e: Event?, ghost i: nat) returns (r: Event?, ghost j: nat)
      requires Valid() && i <= |spine| && e == At(spine, i)
      ensures i <= j <= |spine| && r == At(spine, j)
      ensures j < |spine| ==> model[j].kind == kind
      ensures forall k :: i <= k < j ==> model[k].kind != kind
    {
      hide Values, Distinct, Nexts;
      r, j := e, i;
      while r != null
        invariant i <= j <= |spine| && r == At(spine, j)
        invariant forall k :: i <= k < j ==> model[k].kind != kind
        decreases |spine| - j
      {
        if r.kind == kind { return; }
        assert Nexts(spine)[j] == At(spine, j + 1);
        r := r.next;
        j := j + 1;
      }
    }

    /** Unlinks e, the i-th node; -1 if it is not queued. An empty queue must not be searched. */
    method EqRemove(e: Event?, ghost i: nat) returns (code: int)
      requires Valid() && (e != null ==> head != null) && i <= |spine|
      requires if i < |spine| then spine[i] == e else e == null || e !in spine
      modifies this, repr
      ensures Valid() && repr == old(repr)
      ensures code == if i < |old(spine)| then 0 else -1
      ensures spine == RemoveAt(old(spine), i) && model == RemoveAt(old(model), i)
    {
      hide Values, Nexts;
      code := -1;
      if e == null { return; }
      if head == e {
        SamePlace(spine, 0, i, e);
        Bypass(null, e, 0);
        return 0;
      }
      var pe, ce := head, head.next;
      assert Nexts(spine)[0] == At(spine, 1);
      ghost var j := 1;
      while ce != null
        invariant 1 <= j <= |spine|
        invariant pe == spine[j - 1] && ce == At(spine, j)
        invariant e !in spine[..j]
        invariant code == -1
        modifies {}
        decreases |spine| - j
      {
        if ce == e { break; }
        assert Nexts(spine)[j] == At(spine, j + 1);
        pe, ce := ce, ce.next;
        j := j + 1;
      }
      if ce != null {
        SamePlace(spine, j, i, e);
        Bypass(pe, e, j);
        code := 0;
      }
    }

    /** The relinking in Eq_Remove: e is the i-th node and pe, if any, the one before it. */
    method Relink(pe: Event?, e: Event, ghost i: nat)
      requires Valid() && i < |spine| && spine[i] == e && pe == At(spine, i - 1)
      modifies this`head, repr
      ensures head == if i == 0 then At(spine, 1) else old(head)
      ensures Nexts(spine) == if i == 0 then old(Nexts(spine)) else old(Nexts(spine))[i - 1 := At(spine, i + 1)]
      ensures Values(spine) == model
    {
      hide Values, Nexts, Distinct;
      ghost var nexts := Nexts(spine);
      assert e.next == At(spine, i + 1) by { assert nexts[i] == e.next; }
      AtMeans(spine, i - 1);
      DistinctChanges(spine, i, e);
      hide Linked, At;
      if pe == null {
        head := e.next;
      } else {
        pe.next := e.next;
        assert forall k {:trigger spine[k]} :: 0 <= k < |spine| && k != i - 1 ==> spine[k].next == nexts[k];
        assert Nexts(spine) == nexts[i - 1 := e.next];
      }
      assert forall k {:trigger spine[k]} :: 0 <= k < |spine| ==> spine[k].Value() == model[k];
    }

    method Bypass(pe: Event?, e: Event, ghost i: nat)
      requires Valid() && i < |spine| && spine[i] == e && pe == At(spine, i - 1)
      modifies this, repr
      ensures Valid() && repr == old(repr)
      ensures spine == RemoveAt(old(spine), i) && model == RemoveAt(old(model), i)
    {
      hide Values, Nexts, Distinct, RemoveAt, Chain;
      ghost var nexts := Nexts(spine);
      DistinctChanges(spine, i, e);
      Relink(pe, e, i);
      RestOf(spine, i);
      AfterBypass(spine, nexts, i);
      spine, model := RemoveAt(spine, i), RemoveAt(model, i);
    }

    /** Due when the head, if there is one, is not after now; by a normalised clock that is when
        Eq_NextTimer answers zero. */
    method EqTopInPast(now: Timeval) returns (due: bool)
      requires Valid()
      ensures due <==> model != [] && Cmp(model[0].tv, now) <= 0
      ensures Normal(now) && (model != [] ==> Loose(model[0].tv)) ==> (due <==> NextTimer(model, now) == Timeval(0, 0))
    {
      due := head != null && Cmp(head.tv, now) <= 0;
      if Normal(now) && (model != [] ==> Loose(model[0].tv)) { ZeroMeansDue(model, now); }
    }

    method EqNextTimer(now: Timeval) returns (tv: Timeval)
      requires Valid()
      ensures tv == NextTimer(model, now)
    {
      if head != null {
        tv := Sub(head.tv, now);
      } else {
        tv := Timeval(FAR_FUTURE, 0);
      }
    }
  }

  /** MAXVALUE of timers.hh */
  const FAR_FUTURE := 0x7ffffff

  /** What Eq_NextTimer answers. */
  function NextTimer(q: seq<Ev>, now: Timeval): Timeval {
    if q != [] then Sub(q[0].tv, now) else Timeval(FAR_FUTURE, 0)
  }

  /** The answer is the time left until the head is due, 0 if it is overdue; without a timer it is
      far in the future. */
  lemma {:induction false} NextTimerIsTimeLeft(q: seq<Ev>, now: Timeval)
    ensures q == [] ==> NextTimer(q, now) == Timeval(134217727, 0)
    ensures q != [] && Normal(now) && Loose(q[0].tv) ==>
      Total(NextTimer(q, now)) == if Total(q[0].tv) <= Total(now) then 0 else Total(q[0].tv) - Total(now)
  {
    if q != [] && Normal(now) && Loose(q[0].tv) { SubIsTruncated(q[0].tv, now); }
  }

  /** With deadlines as Event_SetDelay leaves them and a normalised clock, a zero answer and
      Eq_TopInPast say the same. */
  lemma {:induction false} ZeroMeansDue(q: seq<Ev>, now: Timeval)
    requires Normal(now) && (q != [] ==> Loose(q[0].tv))
    ensures NextTimer(q, now) == Timeval(0, 0) <==> q != [] && Cmp(q[0].tv, now) <= 0
  {
    if q != [] { DueEitherWay(q[0].tv, now); }
  }
}
