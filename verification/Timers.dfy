/** The Timers class of timers.cc: handles, expiry callbacks that call back into it, and the
    simple picture it implements, a set of timers of which a soonest one runs next. */
module TimerLib {
  import opened Basics
  import opened Timevals
  import opened EventQueues

  // ---------- on values ----------

  /** The events in queue order, and next_handle_. */
  datatype Queue = Queue(events: seq<Ev>, next: int)

  const Empty := Queue([], 1)

  const TIMER := 1

  /** What an Expire callback does to the timers while it runs. `now` is what getTime returns. */
  datatype Call = Add(timeout: int, callback: int, now: Timeval) | Remove(handle: int)

  function Queued(events: seq<Ev>, now: Timeval, entry: Entry): seq<Ev> {
    Insert(events, Ev(Deadline(now, entry.timeout), TIMER, entry))
  }

  function AddTimer(q: Queue, timeout: int, callback: int, now: Timeval): Queue {
    Queue(Queued(q.events, now, Entry(q.next, timeout, callback)), q.next + 1)
  }

  function Find(events: seq<Ev>, handle: int): nat {
    FirstIndex(events, (e: Ev) => e.kind == TIMER && e.entry.handle == handle)
  }

  function RemoveTimer(q: Queue, handle: int): Queue {
    q.(events := RemoveAt(q.events, Find(q.events, handle)))
  }

  function Perform(q: Queue, c: Call): Queue {
    match c
    case Add(timeout, callback, now) => AddTimer(q, timeout, callback, now)
    case Remove(handle) => RemoveTimer(q, handle)
  }

  function PerformAll(q: Queue, calls: seq<Call>): Queue {
    if calls == [] then q else Perform(PerformAll(q, calls[..|calls| - 1]), calls[|calls| - 1])
  }

  function Requeued(q: Queue, entry: Entry, result: int, now: Timeval): Queue {
    if result < 0 then q
    else q.(events := Queued(q.events, now, if result > 0 then entry.(timeout := result) else entry))
  }

  /** The running timer is off the queue while its callback makes these calls. */
  function Expire(q: Queue, calls: seq<Call>, result: int, now: Timeval): Queue
    requires q.events != []
  {
    Requeued(PerformAll(q.(events := RemoveAt(q.events, 0)), calls), q.events[0].entry, result, now)
  }

  // ---------- the class ----------

  class Timers {
    var nextHandle: int
    var eq: EventQueue

    ghost predicate Valid()
      reads this, eq, eq.repr
    {
      eq.Valid()
    }

    ghost function State(): Queue
      reads this, eq
    {
      Queue(eq.model, nextHandle)
    }

    constructor ()
      ensures Valid() && fresh(eq) && fresh(eq.repr) && State() == Empty
    {
      nextHandle := 1;
      eq := new EventQueue();
    }

    method EqAddAfter(kind: int, entry: Entry, delay: int, now: Timeval)
      requires Valid()
      modifies eq, eq.repr
      ensures Valid() && fresh(eq.repr - old(eq.repr))
      ensures eq.model == Insert(old(eq.model), Ev(Deadline(now, delay), kind, entry))
      ensures kind == TIMER && delay == entry.timeout ==> eq.model == Queued(old(eq.model), now, entry)
    {
      hide Values, Nexts, Insert, Distinct, Linked;
      var e := new Event(Deadline(now, delay), kind, entry);
      eq.EqAdd(e);
    }

    method AddTimer(timeout: int, callback: int, now: Timeval) returns (handle: int)
      requires Valid()
      modifies this`nextHandle, eq, eq.repr
      ensures Valid() && fresh(eq.repr - old(eq.repr))
      ensures handle == old(nextHandle) && State() == Perform(old(State()), Add(timeout, callback, now))
    {
      hide EventQueue.Valid, Insert;
      var entry := Entry(nextHandle, timeout, callback);
      nextHandle := nextHandle + 1;
      EqAddAfter(TIMER, entry, timeout, now);
      handle := entry.handle;
    }

    /** The search of RemoveTimer. */
    method FindTimer(handle: int) returns (e: Event?, ghost i: nat)
      requires Valid()
      ensures i == Find(eq.model, handle) && i <= |eq.spine| && e == At(eq.spine, i)
    {
      hide Values, Nexts, Distinct, Linked, Find, NotBefore;
      e, i := eq.EqFindNextEvent(TIMER, eq.head, 0);
      NoneBeforeFirst(eq.model, handle, i);
      while e != null
        invariant i <= |eq.spine| && e == At(eq.spine, i)
        invariant i < |eq.spine| ==> eq.model[i].kind == TIMER
        invariant NotBefore(eq.model, handle, i)
        decreases |eq.spine| - i
      {
        if e.entry.handle == handle { break; }
        eq.NextOf(i);
        ghost var from := i;
        e, i := eq.EqFindNextEvent(TIMER, e.next, from + 1);
        NotBeforeGrows(eq.model, handle, from, i);
      }
      FindIs(eq.model, handle, i);
    }

    method RemoveTimer(handle: int) returns (found: bool)
      requires Valid()
      modifies eq, eq.repr
      ensures Valid() && eq.repr == old(eq.repr) && nextHandle == old(nextHandle)
      ensures found <==> Find(old(eq.model), handle) < |old(eq.model)|
      ensures State() == Perform(old(State()), Remove(handle))
    {
      assert eq.head == At(eq.spine, 0);
      hide EventQueue.Valid, RemoveAt, Find;
      var e;
      ghost var i;
      e, i := FindTimer(handle);
      found := e != null;
      if found {
        var code := eq.EqRemove(e, i);
      } else {
        NothingToRemove(eq.model, i);
      }
    }

    method PerformCall(c: Call)
      requires Valid()
      modifies this`nextHandle, eq, eq.repr
      ensures Valid() && fresh(eq.repr - old(eq.repr))
      ensures State() == Perform(old(State()), c)
    {
      match c
      case Add(timeout, callback, now) => var handle := AddTimer(timeout, callback, now);
      case Remove(handle) => var found := RemoveTimer(handle);
    }

    /** Everything a callback does. */
    method RunCallback(calls: seq<Call>)
      requires Valid()
      modifies this`nextHandle, eq, eq.repr
      ensures Valid() && fresh(eq.repr - old(eq.repr))
      ensures State() == PerformAll(old(State()), calls)
    {
      hide EventQueue.Valid, Perform;
      assert calls[..0] == [];
      for n := 0 to |calls|
        invariant Valid() && fresh(eq.repr - old(eq.repr))
        invariant State() == PerformAll(old(State()), calls[..n])
      {
        assert calls[..n + 1][..n] == calls[..n];
        PerformCall(calls[n]);
      }
      assert calls[..|calls|] == calls;
    }

    /** Back on the queue unless the callback returned a negative number. */
    method Requeue(entry: Entry, result: int, now: Timeval)
      requires Valid()
      modifies eq, eq.repr
      ensures Valid() && fresh(eq.repr - old(eq.repr)) && nextHandle == old(nextHandle)
      ensures State() == Requeued(old(State()), entry, result, now)
    {
      hide EventQueue.Valid, Insert, Deadline;
      if result >= 0 {
        var again := if result > 0 then entry.(timeout := result) else entry;
        EqAddAfter(TIMER, again, again.timeout, now);
      }
    }

    /** Takes the entry of the head event. */
    method PopEntry() returns (entry: Entry)
      requires Valid() && eq.head != null
      modifies eq, eq.repr
      ensures Valid() && eq.repr == old(eq.repr) && old(eq.model) != []
      ensures entry == old(eq.model)[0].entry && eq.model == RemoveAt(old(eq.model), 0)
    {
      assert eq.spine != [];
      hide EventQueue.Valid, RemoveAt;
      var e := eq.EqPop();
      entry := e.entry;
    }

    method NextTimerTime(now: Timeval) returns (tv: Timeval)
      requires Valid()
      ensures tv == NextTimer(eq.model, now) && (eq.head != null <==> eq.model != [])
    {
      tv := eq.EqNextTimer(now);
    }

    /** Runs the timer at the head; there must be one. What its callback does is a parameter. */
    method ExecuteNextTimer(calls: seq<Call>, result: int, now: Timeval)
      requires Valid() && eq.head != null
      modifies this`nextHandle, eq, eq.repr
      ensures Valid() && fresh(eq.repr - old(eq.repr))
      ensures old(State()).events != [] && State() == Expire(old(State()), calls, result, now)
    {
      hide EventQueue.Valid, RemoveAt, PerformAll, Requeued, Expire;
      ghost var q := State();
      var entry := PopEntry();
      RunCallback(calls);
      ghost var ran := State();
      Requeue(entry, result, now);
      ExpireIs(q, calls, ran, result, now);
    }
  }

  lemma {:induction false} ExpireIs(q: Queue, calls: seq<Call>, ran: Queue, result: int, now: Timeval)
    requires q.events != [] && ran == PerformAll(Queue(RemoveAt(q.events, 0), q.next), calls)
    ensures Expire(q, calls, result, now) == Requeued(ran, q.events[0].entry, result, now)
  {
  }

  lemma {:induction false} NothingToRemove<T>(q: seq<T>, i: nat)
    requires i >= |q|
    ensures RemoveAt(q, i) == q
  {
  }

  /** The timer with this handle is not among the first i events. */
  ghost predicate NotBefore(q: seq<Ev>, handle: int, i: nat) {
    i <= |q| && forall k :: 0 <= k < i ==> !(q[k].kind == TIMER && q[k].entry.handle == handle)
  }

  lemma {:induction false} NoneBeforeFirst(q: seq<Ev>, handle: int, i: nat)
    requires i <= |q| && forall k :: 0 <= k < i ==> q[k].kind != TIMER
    ensures NotBefore(q, handle, i)
  {
  }

  lemma {:induction false} NotBeforeGrows(q: seq<Ev>, handle: int, i: nat, j: nat)
    requires NotBefore(q, handle, i) && i < j <= |q| && q[i].entry.handle != handle
    requires forall k :: i < k < j ==> q[k].kind != TIMER
    ensures NotBefore(q, handle, j)
  {
  }

  lemma {:induction false} FindIs(q: seq<Ev>, handle: int, i: nat)
    requires NotBefore(q, handle, i) && (i < |q| ==> q[i].kind == TIMER && q[i].entry.handle == handle)
    ensures Find(q, handle) == i
  {
  }
}
