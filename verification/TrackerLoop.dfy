/** The event loop of trackerDoWork on top of the timer queue, and when the tracker gives up. */
module TrackerLoop {
  import opened Timevals
  import opened EventQueues
  import opened TimerLib

  const PERIOD := 30 * 1000

  /** `silent` is st_terminate: no packet since the last tick. */
  datatype Loop = Loop(q: Queue, silent: bool, exited: bool)

  /** One turn of the loop: the clock when the timer is checked, whether select reports a packet,
      and the clock when an expired timer is set anew. */
  datatype Turn = Turn(now: Timeval, packet: bool, later: Timeval)

  function Start(t0: Timeval): Loop {
    Loop(AddTimer(Empty, PERIOD, 0, t0), false, false)
  }

  predicate Due(l: Loop, now: Timeval) {
    NextTimer(l.q.events, now) == Timeval(0, 0) && l.q.events != []
  }

  /** checkIfShouldTerminate runs when the timer is due; otherwise a packet may be handled. */
  function Next(l: Loop, t: Turn): Loop {
    if l.exited then l
    else if Due(l, t.now) then
      if l.silent then l.(exited := true) else Loop(Expire(l.q, [], 0, t.later), true, false)
    else if t.packet then l.(silent := false)
    else l
  }

  function After(t0: Timeval, turns: seq<Turn>): Loop {
    if turns == [] then Start(t0) else Next(After(t0, turns[..|turns| - 1]), turns[|turns| - 1])
  }

  /** A clock that is normalised and never runs backwards. */
  ghost predicate Clock(t0: Timeval, turns: seq<Turn>) {
    && Normal(t0)
    && (forall i :: 0 <= i < |turns| ==> Normal(turns[i].now) && Normal(turns[i].later))
    && (forall i :: 0 <= i < |turns| ==> Total(t0) <= Total(turns[i].now) <= Total(turns[i].later))
    && (forall i, j :: 0 <= i < j < |turns| ==> Total(turns[i].later) <= Total(turns[j].now))
  }

  /** The last turn at which the timer ran, -1 if there is none. */
  function LastTick(t0: Timeval, turns: seq<Turn>): (j: int)
    ensures -1 <= j < |turns|
  {
    if turns == [] then -1
    else if Due(After(t0, turns[..|turns| - 1]), turns[|turns| - 1].now) then |turns| - 1
    else LastTick(t0, turns[..|turns| - 1])
  }

  ghost predicate QuietSince(turns: seq<Turn>, j: int) {
    forall k :: j < k < |turns| && k >= 0 ==> !turns[k].packet
  }

  /** When the timer was last set. */
  function LastSet(t0: Timeval, turns: seq<Turn>): Timeval {
    var j := LastTick(t0, turns);
    if j < 0 then t0 else turns[j].later
  }

  ghost predicate OneTimer(q: Queue, from: Timeval) {
    q.events == [Ev(Deadline(from, PERIOD), TIMER, Entry(1, PERIOD, 0))]
  }

  lemma {:induction false} FirstTimer(t0: Timeval)
    ensures OneTimer(Start(t0).q, t0)
  {
  }

  lemma {:induction false} TimerSetAnew(q: Queue, from: Timeval, later: Timeval)
    requires OneTimer(q, from)
    ensures OneTimer(Expire(q, [], 0, later), later)
  {
    assert RemoveAt(q.events, 0) == [];
  }

  /** As long as the tracker runs there is one timer, set at the last tick, and the flag says
      that there was a tick and no packet since. */
  lemma {:induction false} LoopTellsHistory(t0: Timeval, turns: seq<Turn>)
    requires !After(t0, turns).exited
    ensures OneTimer(After(t0, turns).q, LastSet(t0, turns))
    ensures After(t0, turns).silent <==> LastTick(t0, turns) >= 0 && QuietSince(turns, LastTick(t0, turns))
    decreases turns
  {
    if turns == [] {
      FirstTimer(t0);
    } else {
      var n := |turns| - 1;
      var front := turns[..n];
      LoopTellsHistory(t0, front);
      var l := After(t0, front);
      if Due(l, turns[n].now) {
        TimerSetAnew(l.q, LastSet(t0, front), turns[n].later);
      } else {
        var j := LastTick(t0, front);
        assert j < n;
        assert QuietSince(turns, j) <==> QuietSince(front, j) && !turns[n].packet;
      }
    }
  }

  /** The timer never runs early: ticks are at least thirty seconds apart. */
  lemma {:induction false} TicksAreApart(t0: Timeval, turns: seq<Turn>)
    requires turns != [] && Clock(t0, turns)
    requires var front := turns[..|turns| - 1];
      !After(t0, front).exited && Due(After(t0, front), turns[|turns| - 1].now)
    ensures Total(turns[|turns| - 1].now) >= Total(LastSet(t0, turns[..|turns| - 1])) + 30 * 1000000
  {
    var front, t := turns[..|turns| - 1], turns[|turns| - 1];
    LoopTellsHistory(t0, front);
    var from := LastSet(t0, front);
    assert Normal(from);
    DeadlineIsExact(from, PERIOD);
    SubIsTruncated(Deadline(from, PERIOD), t.now);
  }

  /** The tracker exits in a turn exactly when its timer is due, it has ticked before, and no
      packet came since that tick; which is then at least thirty seconds ago. */
  lemma {:induction false} ExitsExactlyAfterSilence(t0: Timeval, turns: seq<Turn>)
    requires turns != [] && Clock(t0, turns)
    requires !After(t0, turns[..|turns| - 1]).exited
    ensures var front, t := turns[..|turns| - 1], turns[|turns| - 1];
      var j := LastTick(t0, front);
      && (After(t0, turns).exited <==>
            Total(LastSet(t0, front)) + 30 * 1000000 <= Total(t.now) && j >= 0 && QuietSince(front, j))
      && (After(t0, turns).exited ==> Total(turns[j].later) + 30 * 1000000 <= Total(t.now))
  {
    var front, t := turns[..|turns| - 1], turns[|turns| - 1];
    LoopTellsHistory(t0, front);
    var from := LastSet(t0, front);
    assert Normal(from);
    DeadlineIsExact(from, PERIOD);
    SubIsTruncated(Deadline(from, PERIOD), t.now);
  }

  // ---------- the loop as it runs ----------

  class LoopProcess {
    const timers: Timers
    var silent: bool
    var exited: bool

    ghost predicate Valid()
      reads this, timers, timers.eq, timers.eq.repr
    {
      timers.Valid()
    }

    ghost function State(): Loop
      reads this, timers, timers.eq
    {
      Loop(timers.State(), silent, exited)
    }

    constructor (t0: Timeval)
      ensures Valid() && fresh(timers) && fresh(timers.eq) && fresh(timers.eq.repr) && State() == Start(t0)
    {
      timers := new Timers();
      silent, exited := false, false;
      new;
      var handle := timers.AddTimer(PERIOD, 0, t0);
    }

    /** One turn: a zero waiting time runs the head timer, whose callback is checkIfShouldTerminate. */
    method TakeTurn(t: Turn)
      requires Valid() && !exited
      modifies this, timers, timers.eq, timers.eq.repr
      ensures Valid() && timers.eq == old(timers.eq) && fresh(timers.eq.repr - old(timers.eq.repr))
      ensures State() == Next(old(State()), t)
    {
      hide EventQueue.Valid, Expire;
      var wait := timers.NextTimerTime(t.now);
      if wait.sec == 0 && wait.usec == 0 && timers.eq.head != null {
        if silent {
          exited := true;
        } else {
          silent := true;
          timers.ExecuteNextTimer([], 0, t.later);
        }
      } else if t.packet {
        silent := false;
      }
    }
  }
}
