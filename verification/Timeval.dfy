/** Second-and-microsecond arithmetic of timers.cc, with its loose carry. */
module Timevals {

  datatype Timeval = Timeval(sec: int, usec: int)

  const MILLION := 1000000

  /** Timeval_Cmp */
  function Cmp(x: Timeval, y: Timeval): int {
    if x.sec > y.sec then 1
    else if x.sec < y.sec then -1
    else if x.usec > y.usec then 1
    else if x.usec < y.usec then -1
    else 0
  }

  /** Timeval_Sub */
  function Sub(x: Timeval, y: Timeval): Timeval {
    if Cmp(x, y) < 0 then Timeval(0, 0)
    else if x.usec < y.usec then Timeval(x.sec - 1 - y.sec, x.usec + MILLION - y.usec)
    else Timeval(x.sec - y.sec, x.usec - y.usec)
  }

  /** Timeval_Addusecs: carries only above a million, so exactly a million stays. */
  function AddUsecs(tv: Timeval, usecs: int): Timeval {
    var u := tv.usec + usecs;
    if u > MILLION then Timeval(tv.sec + u / MILLION, u % MILLION) else Timeval(tv.sec, u)
  }

  /** The wrap-around of a 32-bit int product. */
  function Int32(v: int): int {
    var u := v % 0x1_0000_0000;
    if u < 0x8000_0000 then u else u - 0x1_0000_0000
  }

  /** Event_SetDelay: the expiration time of a timer set at `now` for `delay` milliseconds. */
  function Deadline(now: Timeval, delay: int): Timeval {
    AddUsecs(now, Int32(delay * 1000))
  }

  /** What the time amounts to in microseconds. */
  function Total(tv: Timeval): int {
    tv.sec * 1000000 + tv.usec
  }

  /** As getTime returns it. */
  predicate Normal(tv: Timeval) { 0 <= tv.usec < 1000000 }

  /** As AddUsecs leaves it. */
  predicate Loose(tv: Timeval) { 0 <= tv.usec <= 1000000 }

  /** Nothing is lost, and seconds are carried exactly when there are more than a million
      microseconds. */
  lemma {:induction false} AddUsecsIsExact(tv: Timeval, usecs: int)
    ensures Total(AddUsecs(tv, usecs)) == Total(tv) + usecs
    ensures AddUsecs(tv, usecs).sec == tv.sec <==> tv.usec + usecs <= 1000000
    ensures tv.usec + usecs > 1000000 ==> Normal(AddUsecs(tv, usecs))
    ensures Normal(tv) && usecs >= 0 ==> Loose(AddUsecs(tv, usecs))
    ensures Normal(tv) && usecs >= 0 ==> (Normal(AddUsecs(tv, usecs)) <==> tv.usec + usecs != 1000000)
  {
  }

  /** Delays up to some 35 minutes become deadlines exactly; longer ones wrap around at 32 bits. */
  lemma {:induction false} DeadlineIsExact(now: Timeval, delay: int)
    requires -0x8000_0000 <= delay < 0x8000_0000
    ensures var added := Total(Deadline(now, delay)) - Total(now);
      -0x8000_0000 <= added < 0x8000_0000 && (added - 1000 * delay) % 0x1_0000_0000 == 0
    ensures Total(Deadline(now, delay)) == Total(now) + 1000 * delay <==> -2147483 <= delay <= 2147483
    ensures Normal(now) && 0 <= delay <= 2147483 ==> Loose(Deadline(now, delay))
  {
    AddUsecsIsExact(now, Int32(delay * 1000));
  }

  /** The comparison is a total order, by seconds first ... */
  lemma {:induction false} CmpIsOrder(x: Timeval, y: Timeval, z: Timeval)
    ensures -1 <= Cmp(x, y) <= 1 && (Cmp(x, y) == -1 <==> x.sec < y.sec || (x.sec == y.sec && x.usec < y.usec))
    ensures Cmp(x, y) == 0 <==> x == y
    ensures Cmp(x, y) == -Cmp(y, x)
    ensures Cmp(x, y) <= 0 && Cmp(y, z) <= 0 ==> Cmp(x, z) <= 0
  {
  }

  /** ... that respects real time, also across the loose carry. */
  lemma {:induction false} CmpRespectsTime(x: Timeval, y: Timeval)
    requires Loose(x) && Loose(y)
    ensures Cmp(x, y) <= 0 ==> Total(x) <= Total(y)
    ensures Total(x) < Total(y) ==> Cmp(x, y) < 0
    ensures Normal(y) ==> (Cmp(x, y) <= 0 <==> Total(x) <= Total(y))
  {
  }

  /** What is not later leaves nothing, anything else the difference. */
  lemma {:induction false} SubIsDifference(x: Timeval, y: Timeval)
    ensures Cmp(x, y) < 0 ==> Sub(x, y) == Timeval(0, 0)
    ensures Cmp(x, y) >= 0 ==> Total(Sub(x, y)) == Total(x) - Total(y)
    ensures Loose(x) && Loose(y) ==> Loose(Sub(x, y))
  {
  }

  lemma {:induction false} OnlyZeroIsNothing(x: Timeval)
    requires Loose(x)
    ensures x == Timeval(0, 0) || x == Timeval(-1, 1000000) <==> Total(x) == 0
  {
  }

  lemma {:induction false} SubIsTruncated(x: Timeval, y: Timeval)
    requires Loose(x) && Loose(y)
    ensures Loose(Sub(x, y))
    ensures Total(Sub(x, y)) == if Total(x) <= Total(y) then 0 else Total(x) - Total(y)
    ensures Sub(x, y) == Timeval(0, 0) <==> Total(x) <= Total(y)
  {
    hide Total;
    CmpRespectsTime(x, y);
    CmpRespectsTime(y, x);
    CmpIsOrder(x, y, y);
    SubIsDifference(x, y);
    OnlyZeroIsNothing(Sub(x, y));
  }

  /** Against a clock reading, comparing and subtracting agree on what is due. */
  lemma {:induction false} DueEitherWay(deadline: Timeval, now: Timeval)
    requires Loose(deadline) && Normal(now)
    ensures Cmp(deadline, now) <= 0 <==> Sub(deadline, now) == Timeval(0, 0)
  {
    hide Cmp, Sub, Total;
    SubIsTruncated(deadline, now);
    CmpRespectsTime(deadline, now);
    CmpRespectsTime(now, deadline);
    CmpIsOrder(deadline, now, now);
  }

  /** They would not if the clock could show a full million microseconds. */
  lemma {:induction false} DueDisagreesOnLooseClock()
    ensures var deadline, now := Timeval(1, 0), Timeval(0, 1000000);
      Sub(deadline, now) == Timeval(0, 0) && Cmp(deadline, now) > 0
  {
  }
}
