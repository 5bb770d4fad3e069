/** What the timer library promises over whole runs: the queue is a sorted arrangement of the
    live timers, each under its own handle, and a soonest one runs next. */
module TimerTheorems {
  import opened Basics
  import opened Timevals
  import opened EventQueues
  import opened TimerLib

  ghost predicate Sorted(events: seq<Ev>) {
    forall i, j :: 0 <= i < j < |events| ==> Cmp(events[i].tv, events[j].tv) <= 0
  }

  ghost predicate Handled(q: Queue) {
    && (forall i :: 0 <= i < |q.events| ==> q.events[i].kind == TIMER && q.events[i].entry.handle < q.next)
    && (forall i, j :: 0 <= i < j < |q.events| ==> q.events[i].entry.handle != q.events[j].entry.handle)
  }

  ghost predicate WellQueued(q: Queue) {
    Sorted(q.events) && Handled(q)
  }

  // ---------- insertion ----------

  /** An event goes behind all earlier ones and before all that are not earlier: of two timers
      due at the same time the one added last runs first. Nothing else moves. */
  lemma {:induction false} InsertSplits(events: seq<Ev>, e: Ev)
    requires Sorted(events)
    ensures var i := Place(events, e.tv);
      && i <= |events| && Insert(events, e) == events[..i] + [e] + events[i..]
      && (forall k :: 0 <= k < i ==> Cmp(events[k].tv, e.tv) < 0)
      && (forall k :: i <= k < |events| ==> Cmp(e.tv, events[k].tv) <= 0)
    ensures Sorted(Insert(events, e))
  {
    var i := Place(events, e.tv);
    forall k | i <= k < |events|
      ensures Cmp(e.tv, events[k].tv) <= 0
    {
      CmpIsOrder(e.tv, events[i].tv, events[k].tv);
    }
  }

  lemma {:induction false} RemoveSorted(events: seq<Ev>, i: nat)
    requires Sorted(events)
    ensures Sorted(RemoveAt(events, i))
  {
    if i < |events| {
      var r := RemoveAt(events, i);
      forall j, k | 0 <= j < k < |r|
        ensures Cmp(r[j].tv, r[k].tv) <= 0
      {
        assert r[j] == events[if j < i then j else j + 1] && r[k] == events[if k < i then k else k + 1];
      }
    }
  }

  // ---------- the simple picture: live timers by handle ----------

  datatype Timer = Timer(due: Timeval, timeout: int, callback: int)

  type Live = map<int, Timer>

  function TimerOf(e: Ev): Timer {
    Timer(e.tv, e.entry.timeout, e.entry.callback)
  }

  function Started(live: Live, handle: int, timeout: int, callback: int, now: Timeval): Live {
    live[handle := Timer(Deadline(now, timeout), timeout, callback)]
  }

  /** The live timers and the next handle after a call. */
  function Call(live: Live, next: int, c: TimerLib.Call): (Live, int) {
    match c
    case Add(timeout, callback, now) => (Started(live, next, timeout, callback, now), next + 1)
    case Remove(handle) => (live - {handle}, next)
  }

  function Calls(live: Live, next: int, calls: seq<TimerLib.Call>): (Live, int) {
    if calls == [] then (live, next) else
      var (l, n) := Calls(live, next, calls[..|calls| - 1]);
      Call(l, n, calls[|calls| - 1])
  }

  /** The timer with this handle runs: it is off the list meanwhile, and stays off it if the
      callback returns a negative number; otherwise it is set anew, for the time returned or,
      if that is 0, for the same time as before. */
  function Ran(live: Live, next: int, handle: int, calls: seq<TimerLib.Call>, result: int, now: Timeval): (Live, int)
    requires handle in live
  {
    var t := live[handle];
    var (l, n) := Calls(live - {handle}, next, calls);
    if result < 0 then (l, n)
    else (Started(l, handle, if result > 0 then result else t.timeout, t.callback, now), n)
  }

  ghost predicate Soonest(live: Live, handle: int) {
    handle in live && forall h <- live :: Cmp(live[handle].due, live[h].due) <= 0
  }

  ghost predicate HoldsAt(events: seq<Ev>, live: Live, i: nat)
    requires i < |events|
  {
    events[i].entry.handle in live && live[events[i].entry.handle] == TimerOf(events[i])
  }

  ghost predicate QueuedAt(events: seq<Ev>, handle: int, i: nat) {
    i < |events| && events[i].entry.handle == handle
  }

  /** The queue q arranges these timers: it holds each of them, once, and nothing else. */
  ghost predicate Arranges(q: Queue, live: Live, next: int) {
    && WellQueued(q) && q.next == next
    && (forall i :: 0 <= i < |q.events| ==> HoldsAt(q.events, live, i))
    && (forall h <- live :: exists i: nat :: QueuedAt(q.events, h, i))
  }

  // ---------- one call ----------

  lemma {:induction false} InsertedAt(events: seq<Ev>, e: Ev, k: nat)
    requires k <= |events|
    ensures var i := Place(events, e.tv);
      |Insert(events, e)| == |events| + 1 &&
      Insert(events, e)[k] == if k < i then events[k] else if k == i then e else events[k - 1]
  {
  }

  /** A new event whose handle is not yet queued. */
  lemma {:induction false} InsertArranges(q: Queue, live: Live, e: Ev, next: int)
    requires Arranges(q, live, q.next) && e.kind == TIMER && e.entry.handle !in live
    requires e.entry.handle < next && q.next <= next
    ensures Arranges(Queue(Insert(q.events, e), next), live[e.entry.handle := TimerOf(e)], next)
  {
    hide Insert;
    assert Sorted(Insert(q.events, e)) by { InsertSplits(q.events, e); }
    InsertHandled(q, live, e, next);
    var r, live' := Insert(q.events, e), live[e.entry.handle := TimerOf(e)];
    InsertedAt(q.events, e, 0);
    forall k | 0 <= k < |r|
      ensures HoldsAt(r, live', k)
    {
      var i := Place(q.events, e.tv);
      InsertedAt(q.events, e, k);
      if k != i { assert HoldsAt(q.events, live, if k < i then k else k - 1); }
    }
    forall h | h in live'
      ensures exists j: nat :: QueuedAt(r, h, j)
    {
      var i := Place(q.events, e.tv);
      if h == e.entry.handle {
        InsertedAt(q.events, e, i);
        assert QueuedAt(r, h, i);
      } else {
        var j: nat :| QueuedAt(q.events, h, j);
        InsertedAt(q.events, e, if j < i then j else j + 1);
        assert QueuedAt(r, h, if j < i then j else j + 1);
      }
    }
  }

  lemma {:induction false} InsertHandled(q: Queue, live: Live, e: Ev, next: int)
    requires Arranges(q, live, q.next) && e.kind == TIMER && e.entry.handle !in live
    requires e.entry.handle < next && q.next <= next
    ensures Handled(Queue(Insert(q.events, e), next))
  {
    hide Insert;
    var r, p := Insert(q.events, e), Place(q.events, e.tv);
    InsertedAt(q.events, e, 0);
    forall k | 0 <= k < |r|
      ensures r[k].kind == TIMER && r[k].entry.handle < next
    {
      InsertedAt(q.events, e, k);
    }
    forall j, k | 0 <= j < k < |r|
      ensures r[j].entry.handle != r[k].entry.handle
    {
      InsertedAt(q.events, e, j);
      InsertedAt(q.events, e, k);
      if j != p { assert HoldsAt(q.events, live, if j < p then j else j - 1); }
      if k != p { assert HoldsAt(q.events, live, if k < p then k else k - 1); }
    }
  }

  /** Removal unlinks exactly the timer with the handle, if there is one. */
  lemma {:induction false} RemoveArranges(q: Queue, live: Live, handle: int)
    requires Arranges(q, live, q.next)
    ensures Arranges(RemoveTimer(q, handle), live - {handle}, q.next)
    ensures Find(q.events, handle) < |q.events| <==> handle in live
  {
    var i := Find(q.events, handle);
    if i < |q.events| {
      assert HoldsAt(q.events, live, i);
      RemoveAtArranges(q, live, i);
    } else {
      assert forall j: nat :: !QueuedAt(q.events, handle, j);
      assert live - {handle} == live;
    }
  }

  lemma {:induction false} RemoveAtArranges(q: Queue, live: Live, i: nat)
    requires Arranges(q, live, q.next) && i < |q.events|
    ensures Arranges(Queue(RemoveAt(q.events, i), q.next), live - {q.events[i].entry.handle}, q.next)
  {
    hide RemoveAt;
    var r, h0 := RemoveAt(q.events, i), q.events[i].entry.handle;
    RemoveSorted(q.events, i);
    forall k | 0 <= k < |r|
      ensures HoldsAt(r, live - {h0}, k)
    {
      assert HoldsAt(q.events, live, if k < i then k else k + 1);
    }
    forall h | h in live - {h0}
      ensures exists k: nat :: QueuedAt(r, h, k)
    {
      var k: nat :| QueuedAt(q.events, h, k);
      assert QueuedAt(r, h, if k < i then k else k - 1);
    }
  }

  lemma {:induction false} HandlesAreBelow(q: Queue, live: Live)
    requires Arranges(q, live, q.next)
    ensures forall h <- live :: h < q.next
  {
    forall h | h in live
      ensures h < q.next
    {
      var i: nat :| QueuedAt(q.events, h, i);
    }
  }

  lemma {:induction false} CallArranges(q: Queue, live: Live, c: TimerLib.Call)
    requires Arranges(q, live, q.next)
    ensures var r := Call(live, q.next, c); Arranges(Perform(q, c), r.0, r.1) && r.1 >= q.next
    ensures forall h <- Call(live, q.next, c).0 :: h in live || h >= q.next
  {
    hide Arranges;
    HandlesAreBelow(q, live);
    match c
    case Add(timeout, callback, now) =>
      InsertArranges(q, live, Ev(Deadline(now, timeout), TIMER, Entry(q.next, timeout, callback)), q.next + 1);
    case Remove(handle) =>
      RemoveArranges(q, live, handle);
  }

  lemma {:induction false} CallsArrange(q: Queue, live: Live, calls: seq<TimerLib.Call>)
    requires Arranges(q, live, q.next)
    ensures var r := Calls(live, q.next, calls); Arranges(PerformAll(q, calls), r.0, r.1) && r.1 >= q.next
    ensures forall h <- Calls(live, q.next, calls).0 :: h in live || h >= q.next
    ensures PerformAll(q, calls).next == Calls(live, q.next, calls).1
    decreases calls
  {
    hide Perform, Call;
    if calls != [] {
      var front := calls[..|calls| - 1];
      CallsArrange(q, live, front);
      CallArranges(PerformAll(q, front), Calls(live, q.next, front).0, calls[|calls| - 1]);
    }
  }

  /** Running the head of the queue is running a soonest live timer, whatever the callback adds
      or removes meanwhile, and the timer keeps its handle exactly when it is set anew. */
  lemma {:induction false} ExpireArranges(q: Queue, live: Live, calls: seq<TimerLib.Call>, result: int, now: Timeval)
    requires Arranges(q, live, q.next) && q.events != []
    ensures var h := q.events[0].entry.handle;
      && Soonest(live, h)
      && var r := Ran(live, q.next, h, calls, result, now);
         Arranges(Expire(q, calls, result, now), r.0, r.1) && (h in r.0 <==> result >= 0)
  {
    HeadIsSoonest(q, live);
    var entry := q.events[0].entry;
    var h := entry.handle;
    RemoveAtArranges(q, live, 0);
    hide Arranges, Insert, RemoveAt;
    var q1 := Queue(RemoveAt(q.events, 0), q.next);
    CallsArrange(q1, live - {h}, calls);
    var q2 := PerformAll(q1, calls);
    var r := Calls(live - {h}, q.next, calls);
    assert h !in r.0;
    if result >= 0 {
      var again := if result > 0 then entry.(timeout := result) else entry;
      assert q2.next == r.1;
      InsertArranges(q2, r.0, Ev(Deadline(now, again.timeout), TIMER, again), r.1);
    }
  }

  lemma {:induction false} HeadIsSoonest(q: Queue, live: Live)
    requires Arranges(q, live, q.next) && q.events != []
    ensures Soonest(live, q.events[0].entry.handle) && q.events[0].entry.handle < q.next
    ensures live[q.events[0].entry.handle] == TimerOf(q.events[0])
  {
    assert HoldsAt(q.events, live, 0);
    forall h | h in live
      ensures Cmp(q.events[0].tv, live[h].due) <= 0
    {
      var i: nat :| QueuedAt(q.events, h, i);
      assert HoldsAt(q.events, live, i);
    }
  }

  // ---------- runs ----------

  /** What a program does with its timers: call the interface, or let the next timer run. */
  datatype Op = Do(call: TimerLib.Call) | RunNext(calls: seq<TimerLib.Call>, result: int, now: Timeval)

  function Step(q: Queue, op: Op): Queue {
    match op
    case Do(call) => Perform(q, call)
    case RunNext(calls, result, now) => if q.events == [] then q else Expire(q, calls, result, now)
  }

  function After(ops: seq<Op>): Queue {
    if ops == [] then Empty else Step(After(ops[..|ops| - 1]), ops[|ops| - 1])
  }

  /** What the simple picture allows after these operations. */
  ghost predicate Allowed(ops: seq<Op>, live: Live, next: int)
    decreases |ops|, 0
  {
    if ops == [] then live == map[] && next == 1
    else AllowedThen(ops[..|ops| - 1], ops[|ops| - 1], live, next)
  }

  ghost predicate AllowedThen(ops: seq<Op>, op: Op, live: Live, next: int)
    decreases |ops|, 1
  {
    exists l, n :: Allowed(ops, l, n) && Moves(l, n, op, live, next)
  }

  ghost predicate Moves(live: Live, next: int, op: Op, live': Live, next': int) {
    match op
    case Do(call) => (live', next') == Call(live, next, call)
    case RunNext(calls, result, now) =>
      if live == map[] then (live', next') == (live, next)
      else exists h :: Soonest(live, h) && (live', next') == Ran(live, next, h, calls, result, now)
  }

  /** After any run the queue is sorted, holds every live timer once under its own handle, below
      next_handle_, and the live timers are those the simple picture allows. */
  lemma {:induction false} RunsArrangeLiveTimers(ops: seq<Op>) returns (live: Live)
    ensures Allowed(ops, live, After(ops).next) && Arranges(After(ops), live, After(ops).next)
    decreases ops
  {
    if ops == [] {
      live := map[];
    } else {
      var front, op := ops[..|ops| - 1], ops[|ops| - 1];
      var l := RunsArrangeLiveTimers(front);
      live := OpArranges(After(front), l, op);
      assert AllowedThen(front, op, live, After(ops).next);
    }
  }

  lemma {:induction false} OpArranges(q: Queue, l: Live, op: Op) returns (live: Live)
    requires Arranges(q, l, q.next)
    ensures Moves(l, q.next, op, live, Step(q, op).next) && Arranges(Step(q, op), live, Step(q, op).next)
  {
    hide Call, Ran, Expire, Perform;
    match op
    case Do(call) =>
      CallArranges(q, l, call);
      live := Call(l, q.next, call).0;
    case RunNext(calls, result, now) =>
      if q.events == [] {
        live := l;
        NothingQueued(q, l);
      } else {
        var h := q.events[0].entry.handle;
        ExpireArranges(q, l, calls, result, now);
        live := Ran(l, q.next, h, calls, result, now).0;
        assert h in l;
        assert (live, Expire(q, calls, result, now).next) == Ran(l, q.next, h, calls, result, now);
      }
  }

  lemma {:induction false} NothingQueued(q: Queue, live: Live)
    requires Arranges(q, live, q.next) && q.events == []
    ensures live == map[]
  {
    assert forall h, i: nat :: !QueuedAt(q.events, h, i);
    assert forall h :: h !in live;
  }

  // ---------- real time ----------

  /** Clock readings are normalised and delays fit the 32-bit product. */
  ghost predicate Sane(c: TimerLib.Call) {
    c.Add? ==> Normal(c.now) && 0 <= c.timeout <= 2147483
  }

  ghost predicate SaneOp(op: Op) {
    match op
    case Do(call) => Sane(call)
    case RunNext(calls, result, now) => Normal(now) && result <= 2147483 && forall c <- calls :: Sane(c)
  }

  ghost predicate Timely(events: seq<Ev>) {
    forall e <- events :: Loose(e.tv) && 0 <= e.entry.timeout <= 2147483
  }

  lemma {:induction false} QueuedTimely(events: seq<Ev>, now: Timeval, entry: Entry)
    requires Timely(events) && Normal(now) && 0 <= entry.timeout <= 2147483
    ensures Timely(Queued(events, now, entry))
  {
    DeadlineIsExact(now, entry.timeout);
  }

  lemma {:induction false} CallsTimely(q: Queue, calls: seq<TimerLib.Call>)
    requires Timely(q.events) && forall c <- calls :: Sane(c)
    ensures Timely(PerformAll(q, calls).events)
    decreases calls
  {
    if calls != [] {
      var front, c := calls[..|calls| - 1], calls[|calls| - 1];
      assert c in calls;
      CallsTimely(q, front);
      CallTimely(PerformAll(q, front), c);
    }
  }

  lemma {:induction false} CallTimely(q: Queue, c: TimerLib.Call)
    requires Timely(q.events) && Sane(c)
    ensures Timely(Perform(q, c).events)
  {
    if c.Add? { QueuedTimely(q.events, c.now, Entry(q.next, c.timeout, c.callback)); }
  }

  lemma {:induction false} ExpireTimely(q: Queue, calls: seq<TimerLib.Call>, result: int, now: Timeval)
    requires Timely(q.events) && q.events != [] && SaneOp(RunNext(calls, result, now))
    ensures Timely(Expire(q, calls, result, now).events)
  {
    assert q.events[0] in q.events;
    var q1 := PerformAll(Queue(RemoveAt(q.events, 0), q.next), calls);
    CallsTimely(Queue(RemoveAt(q.events, 0), q.next), calls);
    if result >= 0 {
      var entry := q.events[0].entry;
      QueuedTimely(q1.events, now, if result > 0 then entry.(timeout := result) else entry);
    }
  }

  lemma {:induction false} RunsAreTimely(ops: seq<Op>)
    requires forall op <- ops :: SaneOp(op)
    ensures Timely(After(ops).events)
    decreases ops
  {
    if ops != [] {
      var front, op := ops[..|ops| - 1], ops[|ops| - 1];
      assert op in ops;
      RunsAreTimely(front);
      match op
      case Do(call) => CallTimely(After(front), call);
      case RunNext(calls, result, now) =>
        if After(front).events != [] { ExpireTimely(After(front), calls, result, now); }
    }
  }

  /** With a normalised clock and such delays the queue is sorted by real time, loose carry or
      not: what runs next is due no later than anything else. */
  lemma {:induction false} RunsAreSortedByTime(ops: seq<Op>, i: nat, j: nat)
    requires (forall op <- ops :: SaneOp(op)) && i < j < |After(ops).events|
    ensures Total(After(ops).events[i].tv) <= Total(After(ops).events[j].tv)
  {
    var live := RunsArrangeLiveTimers(ops);
    RunsAreTimely(ops);
    var events := After(ops).events;
    assert events[i] in events && events[j] in events;
    CmpRespectsTime(events[i].tv, events[j].tv);
  }

  /** While its callback runs a timer cannot be cancelled: removing its own handle does nothing. */
  lemma {:induction false} RunningTimerCannotBeRemoved(q: Queue, live: Live, result: int, now: Timeval)
    requires Arranges(q, live, q.next) && q.events != []
    ensures Expire(q, [Remove(q.events[0].entry.handle)], result, now) == Expire(q, [], result, now)
  {
    var h := q.events[0].entry.handle;
    HeadIsSoonest(q, live);
    RemoveAtArranges(q, live, 0);
    var q1 := Queue(RemoveAt(q.events, 0), q.next);
    RemoveArranges(q1, live - {h}, h);
    assert [Remove(h)][..0] == [];
    assert PerformAll(q1, []) == q1;
    assert PerformAll(q1, [Remove(h)]) == q1;
  }
}
