/**
 The simulation clock: a GPS week number and a time of week in nanoseconds.

 The C++ code works on int64 nanoseconds and int weeks.  Integers are unbounded
 here, so every place where the code could leave the int64 or int range is either
 guarded, as in the code, or shown not to leave it (`AddKeepsInt64`).
 */
module SimTime {
  import opened Wrappers

  const WEEK: int := 604_800_000_000_000
  const INT_MAX: int := 0x7fff_ffff
  const INT64_MAX: int := 0x7fff_ffff_ffff_ffff
  const INT64_MIN: int := -0x8000_0000_0000_0000

  datatype Time = Time(week: int, tow: int)

  predicate Int64(x: int) { INT64_MIN <= x <= INT64_MAX }

  /** A normalized time whose week fits the C++ int that stores it. */
  predicate Valid(t: Time) { 0 <= t.week <= 0x7fff_ffff && 0 <= t.tow < WEEK }

  type ValidTime = t: Time | Valid(t) witness Time(0, 0)

  /** Nanoseconds since the start of GPS week 0. */
  function Abs(t: Time): int { t.week * WEEK + t.tow }

  /** An instant that some valid time denotes. */
  predicate Representable(instant: int) { 0 <= instant < 0x8000_0000 * WEEK }

  function Seconds(ns: int): real { (ns as real) / 1000000000.0 }

  /** C++ division of an int64 by the week, which truncates toward zero. */
  function WholeWeeks(ns: int): int {
    if ns >= 0 then ns / WEEK else -(-ns / WEEK)
  }

  /** C++ remainder by the week, which has the sign of the dividend. */
  function WeekRemainder(ns: int): int { ns - WEEK * WholeWeeks(ns) }

  function AdjustWeek(week: int, adjustment: int): Option<int> {
    var w := week + adjustment;
    if w < 0 || w > INT_MAX then None else Some(w)
  }

  function Normalize(week: int, tow: int): Option<Time> {
    if week < 0 then None
    else
      var rem := WeekRemainder(tow);
      var adjustment := if rem < 0 then WholeWeeks(tow) - 1 else WholeWeeks(tow);
      match AdjustWeek(week, adjustment)
      case None => None
      case Some(w) => Some(Time(w, if rem < 0 then rem + WEEK else rem))
  }

  function Add(t: Time, delta: int): Option<Time> {
    if !Valid(t) then None
    else
      match AdjustWeek(t.week, WholeWeeks(delta))
      case None => None
      case Some(w) => Normalize(w, t.tow + WeekRemainder(delta))
  }

  function Compare(a: Time, b: Time): int {
    if a.week < b.week then -1
    else if a.week > b.week then 1
    else if a.tow < b.tow then -1
    else if a.tow > b.tow then 1
    else 0
  }

  function Difference(a: Time, b: Time): Option<int> {
    if !Valid(a) || !Valid(b) then None
    else
      var weekDelta := a.week - b.week;
      var maxWeekDelta := INT64_MAX / WEEK;
      if weekDelta > maxWeekDelta || weekDelta < -maxWeekDelta then None
      else
        var weekNs := weekDelta * WEEK;
        var towDelta := a.tow - b.tow;
        if (towDelta > 0 && weekNs > INT64_MAX - towDelta) || (towDelta < 0 && weekNs < INT64_MIN - towDelta)
        then None
        else Some(weekNs + towDelta)
  }

  // ---------- The calendar is exact ----------

  lemma WeekRemainderBounds(ns: int)
    ensures ns >= 0 ==> 0 <= WeekRemainder(ns) < WEEK && WholeWeeks(ns) >= 0
    ensures ns <= 0 ==> -WEEK < WeekRemainder(ns) <= 0 && WholeWeeks(ns) <= 0
  {
  }

  /** Two valid times at the same instant are the same time. */
  lemma AbsInjective(a: Time, b: Time)
    requires Valid(a) && Valid(b) && Abs(a) == Abs(b)
    ensures a == b
  {
    if a.week < b.week {
      WeekOrder(a.week, b.week);
    } else if a.week > b.week {
      WeekOrder(b.week, a.week);
    }
  }

  lemma WeekOrder(v: int, w: int)
    requires v < w
    ensures v * WEEK + WEEK <= w * WEEK
  {
  }

  /** Comparison is the order of the instants. */
  lemma CompareIsOrder(a: Time, b: Time)
    requires Valid(a) && Valid(b)
    ensures Compare(a, b) < 0 <==> Abs(a) < Abs(b)
    ensures Compare(a, b) == 0 <==> a == b
    ensures Compare(a, b) > 0 <==> Abs(a) > Abs(b)
  {
    if a.week < b.week {
      WeekOrder(a.week, b.week);
    } else if a.week > b.week {
      WeekOrder(b.week, a.week);
    }
  }

  lemma ValidIsRepresentable(t: Time)
    requires Valid(t)
    ensures Representable(Abs(t))
  {
    assert 0 <= t.week * WEEK <= INT_MAX * WEEK;
  }

  /** `Normalize` keeps the instant, and fails exactly when no valid time denotes it. */
  lemma NormalizeExact(week: int, tow: int)
    requires 0 <= week
    ensures Normalize(week, tow).Some? <==> Representable(week * WEEK + tow)
    ensures Normalize(week, tow).Some? ==>
              Valid(Normalize(week, tow).value) && Abs(Normalize(week, tow).value) == week * WEEK + tow
  {
    WeekRemainderBounds(tow);
    var rem := WeekRemainder(tow);
    var adjustment := if rem < 0 then WholeWeeks(tow) - 1 else WholeWeeks(tow);
    var low := if rem < 0 then rem + WEEK else rem;
    assert 0 <= low < WEEK;
    assert week * WEEK + tow == (week + adjustment) * WEEK + low;
    if week + adjustment < 0 {
      WeekOrder(week + adjustment, 0);
    } else if week + adjustment > INT_MAX {
      assert (INT_MAX + 1) * WEEK <= (week + adjustment) * WEEK;
    } else {
      assert (week + adjustment) * WEEK <= INT_MAX * WEEK;
    }
  }

  /** Adding succeeds exactly when the exact sum is representable, and returns it. */
  lemma AddExact(t: Time, delta: int)
    requires Valid(t)
    ensures Add(t, delta).Some? <==> Representable(Abs(t) + delta)
    ensures Add(t, delta).Some? ==> Valid(Add(t, delta).value) && Abs(Add(t, delta).value) == Abs(t) + delta
  {
    WeekRemainderBounds(delta);
    var whole, rem := WholeWeeks(delta), WeekRemainder(delta);
    assert delta == whole * WEEK + rem;
    var w := t.week + whole;
    assert Abs(t) + delta == w * WEEK + t.tow + rem;
    if w < 0 {
      WeekOrder(w, 0);
    } else if w > INT_MAX {
      assert (INT_MAX + 1) * WEEK <= w * WEEK;
    } else {
      NormalizeExact(w, t.tow + rem);
    }
  }

  /**
   No intermediate of `Add` leaves int64, for any int64 argument: neither the week it adjusts first, nor the
   sum it normalizes, nor the quotient, remainder, borrow and week inside the normalization.
   */
  lemma AddKeepsInt64(t: Time, delta: int)
    requires Valid(t) && Int64(delta)
    ensures Int64(WholeWeeks(delta)) && Int64(WeekRemainder(delta)) && Int64(t.week + WholeWeeks(delta))
    ensures Int64(t.tow + WeekRemainder(delta))
    ensures AdjustWeek(t.week, WholeWeeks(delta)).Some? ==>
              NormalizeKeepsInt64(AdjustWeek(t.week, WholeWeeks(delta)).value, t.tow + WeekRemainder(delta))
  {
    WeekRemainderBounds(delta);
    WeekRemainderBounds(t.tow + WeekRemainder(delta));
  }

  predicate NormalizeKeepsInt64(week: int, tow: int) {
    var (whole, rem) := (WholeWeeks(tow), WeekRemainder(tow));
    && Int64(whole) && Int64(rem) && Int64(whole - 1) && Int64(rem + WEEK)
    && Int64(week + whole) && Int64(week + whole - 1)
  }

  /** Where `Difference` answers, the answer is exact; this is all it accepts. */
  lemma DifferenceExact(a: Time, b: Time)
    requires Valid(a) && Valid(b)
    ensures Difference(a, b).Some? <==> -15250 <= a.week - b.week <= 15250 && Int64(Abs(a) - Abs(b))
    ensures Difference(a, b).Some? ==> Difference(a, b).value == Abs(a) - Abs(b)
  {
    assert INT64_MAX / WEEK == 15250;
    assert Abs(a) - Abs(b) == (a.week - b.week) * WEEK + (a.tow - b.tow);
    var d := a.week - b.week;
    if -15250 <= d <= 15250 {
      assert -15250 * WEEK <= d * WEEK <= 15250 * WEEK;
    }
  }

  /** Forward by at most 15249 weeks a difference is always given. */
  lemma LaterDifference(time: Time, last: Time)
    requires Valid(time) && Valid(last) && Abs(last) <= Abs(time) && time.week - last.week <= 15249
    ensures Difference(time, last) == Some(Abs(time) - Abs(last))
  {
    DifferenceExact(time, last);
    assert time.week >= last.week;
    assert Abs(time) - Abs(last) == (time.week - last.week) * WEEK + (time.tow - last.tow);
  }

  /** Some differences that fit int64 are still refused: the guard looks at the weeks alone. */
  lemma DifferenceRefusesRepresentable()
    ensures exists a, b :: Valid(a) && Valid(b) && Int64(Abs(a) - Abs(b)) && Difference(a, b).None?
  {
    var a, b := Time(15251, 0), Time(0, WEEK - 1);
    DifferenceExact(a, b);
    assert Valid(a) && Valid(b) && Int64(Abs(a) - Abs(b)) && Difference(a, b).None?;
  }

  /** The sign of a difference agrees with `Compare`. */
  lemma DifferenceSign(a: Time, b: Time)
    requires Difference(a, b).Some?
    ensures Difference(a, b).value < 0 <==> Compare(a, b) < 0
    ensures Difference(a, b).value == 0 <==> Compare(a, b) == 0
  {
    DifferenceExact(a, b);
    CompareIsOrder(a, b);
    if Abs(a) == Abs(b) {
      AbsInjective(a, b);
    }
  }

  /** Adding a difference back gives the first time again. */
  lemma AddUndoesDifference(a: Time, b: Time)
    requires Difference(a, b).Some?
    ensures Add(b, Difference(a, b).value) == Some(a)
  {
    DifferenceExact(a, b);
    AddExact(b, Difference(a, b).value);
    ValidIsRepresentable(a);
    AbsInjective(a, Add(b, Difference(a, b).value).value);
  }

  // ---------- The epoch grid ----------

  function SamplingInterval(rateHz: int): Option<int> {
    match rateHz
    case 1 => Some(1_000_000_000)
    case 5 => Some(200_000_000)
    case 10 => Some(100_000_000)
    case 20 => Some(50_000_000)
    case 50 => Some(20_000_000)
    case _ => None
  }

  function EpochTime(start: Time, rateHz: int, k: nat): Option<Time> {
    match SamplingInterval(rateHz)
    case None => None
    case Some(interval) => if k > INT64_MAX / interval then None else Add(start, k * interval)
  }

  function EpochIndexAtOrAfter(start: Time, event: Time, rateHz: int): Option<nat> {
    match SamplingInterval(rateHz)
    case None => None
    case Some(interval) =>
      match Difference(event, start)
      case None => None
      case Some(delta) => if delta <= 0 then Some(0) else Some((delta - 1) / interval + 1)
  }

  function EpochCount(duration: int, rateHz: int): Option<nat> {
    match SamplingInterval(rateHz)
    case None => None
    case Some(interval) => if duration <= 0 then None else Some((duration - 1) / interval + 1)
  }

  /** The supported rates, whose epochs are whole nanoseconds apart and fill a second. */
  lemma IntervalTimesRate(rateHz: int, interval: int)
    ensures SamplingInterval(rateHz) == Some(interval) <==>
            rateHz in {1, 5, 10, 20, 50} && interval * rateHz == 1_000_000_000
  {
  }

  lemma CeilDiv(x: int, b: int, k: int)
    requires 0 < x && 0 < b
    ensures k < (x - 1) / b + 1 <==> k * b < x
  {
    var q := (x - 1) / b;
    assert x - 1 == b * q + (x - 1) % b;
    if k <= q {
      assert k * b <= q * b;
    } else {
      assert (q + 1) * b <= k * b;
    }
  }

  /** The index found is the least one whose epoch is not before the event. */
  lemma EpochIndexIsLeast(start: Time, event: Time, rateHz: int, k: nat)
    requires EpochIndexAtOrAfter(start, event, rateHz).Some?
    ensures k >= EpochIndexAtOrAfter(start, event, rateHz).value <==>
            Abs(start) + k * SamplingInterval(rateHz).value >= Abs(event)
  {
    DifferenceExact(event, start);
    var delta, interval := Difference(event, start).value, SamplingInterval(rateHz).value;
    if delta > 0 {
      CeilDiv(delta, interval, k);
    } else {
      assert 0 <= k * interval;
    }
  }

  lemma GridIndex(delta: int, interval: int, k: nat)
    requires interval > 0 && delta == k * interval
    ensures k == if delta <= 0 then 0 else (delta - 1) / interval + 1
  {
    if k > 0 {
      assert delta == (k - 1) * interval + interval;
      assert (k - 1) * interval >= 0;
      CeilDiv(delta, interval, k);
      CeilDiv(delta, interval, k - 1);
    }
  }

  /** Looking up the time of epoch k finds k again, whenever both calls succeed. */
  lemma EpochIndexInvertsEpochTime(start: Time, rateHz: int, k: nat)
    requires EpochTime(start, rateHz, k).Some?
    requires EpochIndexAtOrAfter(start, EpochTime(start, rateHz, k).value, rateHz).Some?
    ensures EpochIndexAtOrAfter(start, EpochTime(start, rateHz, k).value, rateHz) == Some(k)
  {
    IndexOfEpoch(start, EpochTime(start, rateHz, k).value, k * SamplingInterval(rateHz).value);
    GridIndex(k * SamplingInterval(rateHz).value, SamplingInterval(rateHz).value, k);
  }

  lemma IndexOfEpoch(start: Time, event: Time, delta: int)
    requires Add(start, delta) == Some(event) && Difference(event, start).Some?
    ensures Difference(event, start).value == delta
  {
    AddExact(start, delta);
    DifferenceExact(event, start);
  }

  /** An index is counted exactly when its epoch begins before the duration ends. */
  lemma EpochCountExact(duration: int, rateHz: int, k: nat)
    requires EpochCount(duration, rateHz).Some?
    ensures k < EpochCount(duration, rateHz).value <==> k * SamplingInterval(rateHz).value < duration
  {
    CeilDiv(duration, SamplingInterval(rateHz).value, k);
  }
}
