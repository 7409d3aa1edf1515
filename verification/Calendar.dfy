/** The proleptic Gregorian calendar in UTC, and month arithmetic that clamps to the month's end. */
module Calendar {
  import opened Common

  const NANOS_PER_DAY: int := 86_400_000_000_000

  /** Months are numbered through the years: 12 * year + (month - 1). */
  type MonthIndex = int

  predicate IsLeap(year: int) {
    year % 4 == 0 && (year % 100 != 0 || year % 400 == 0)
  }

  function MonthLength(m: MonthIndex): (days: int)
    ensures 28 <= days <= 31
  {
    var month := m % 12;
    if month == 1 then (if IsLeap(m / 12) then 29 else 28)
    else if month == 3 || month == 5 || month == 8 || month == 10 then 30
    else 31
  }

  /** The day number of the first of a month, counting month lengths from 0001-01-01, which is day 0
      and lies in month 12. */
  function FirstDay(m: MonthIndex): int
    decreases if m < 12 then 12 - m else m - 12
  {
    if m == 12 then 0
    else if m > 12 then FirstDay(m - 1) + MonthLength(m - 1)
    else FirstDay(m + 1) - MonthLength(m)
  }

  lemma NextFirstDay(m: MonthIndex)
    ensures FirstDay(m + 1) == FirstDay(m) + MonthLength(m)
  {
  }

  lemma {:induction false} FirstDayGrows(a: MonthIndex, b: MonthIndex)
    requires a <= b
    ensures FirstDay(a) + 28 * (b - a) <= FirstDay(b)
    decreases b - a
  {
    if a < b {
      FirstDayGrows(a, b - 1);
      NextFirstDay(b - 1);
    }
  }

  /** Finds the month of a day, walking from a guess. */
  function MonthFrom(day: int, guess: MonthIndex): MonthIndex
    decreases if day < FirstDay(guess) then FirstDay(guess) - day
              else if FirstDay(guess + 1) <= day then day - FirstDay(guess + 1) + 1
              else 0
  {
    NextFirstDay(guess);
    NextFirstDay(guess - 1);
    NextFirstDay(guess + 1);
    if day < FirstDay(guess) then MonthFrom(day, guess - 1)
    else if FirstDay(guess + 1) <= day then MonthFrom(day, guess + 1)
    else guess
  }

  function MonthOf(day: int): MonthIndex {
    MonthFrom(day, 12)
  }

  lemma {:induction false} MonthFromContains(day: int, guess: MonthIndex)
    ensures var m := MonthFrom(day, guess); FirstDay(m) <= day < FirstDay(m + 1)
    decreases if day < FirstDay(guess) then FirstDay(guess) - day
              else if FirstDay(guess + 1) <= day then day - FirstDay(guess + 1) + 1
              else 0
  {
    NextFirstDay(guess);
    NextFirstDay(guess - 1);
    NextFirstDay(guess + 1);
    if day < FirstDay(guess) {
      MonthFromContains(day, guess - 1);
    } else if FirstDay(guess + 1) <= day {
      MonthFromContains(day, guess + 1);
    }
  }

  /** The month found is the one the day lies in. */
  lemma MonthContains(day: int)
    ensures FirstDay(MonthOf(day)) <= day < FirstDay(MonthOf(day)) + MonthLength(MonthOf(day))
  {
    MonthFromContains(day, 12);
    NextFirstDay(MonthOf(day));
  }

  /** A day lies in one month only. */
  lemma MonthIsUnique(day: int, m: MonthIndex)
    requires FirstDay(m) <= day < FirstDay(m + 1)
    ensures MonthOf(day) == m
  {
    var found := MonthOf(day);
    MonthContains(day);
    NextFirstDay(found);
    if found < m {
      FirstDayGrows(found + 1, m);
    } else if m < found {
      FirstDayGrows(m + 1, found);
    }
  }

  // ---------------------------------------------------------------- instants

  /** The day an instant lies in, counting whole days from zero. */
  function DayOf(t: Instant): int
    decreases if t < 0 then NANOS_PER_DAY - t else t
  {
    if t < 0 then DayOf(t + NANOS_PER_DAY) - 1
    else if t < NANOS_PER_DAY then 0
    else DayOf(t - NANOS_PER_DAY) + 1
  }

  /** The time since midnight. */
  function ClockOf(t: Instant): int { t - DayOf(t) * NANOS_PER_DAY }

  lemma {:induction false} ClockRange(t: Instant)
    ensures 0 <= ClockOf(t) < NANOS_PER_DAY
    decreases if t < 0 then NANOS_PER_DAY - t else t
  {
    if t < 0 {
      ClockRange(t + NANOS_PER_DAY);
    } else if NANOS_PER_DAY <= t {
      ClockRange(t - NANOS_PER_DAY);
    }
  }

  lemma DayAndClock(day: int, clock: int)
    requires 0 <= clock < NANOS_PER_DAY
    ensures DayOf(day * NANOS_PER_DAY + clock) == day && ClockOf(day * NANOS_PER_DAY + clock) == clock
  {
    ClockRange(day * NANOS_PER_DAY + clock);
  }

  function MonthIndexOf(t: Instant): MonthIndex { MonthOf(DayOf(t)) }

  function Year(t: Instant): int { MonthIndexOf(t) / 12 }

  /** January is 1. */
  function Month(t: Instant): int { MonthIndexOf(t) % 12 + 1 }

  function Day(t: Instant): int {
    DayOf(t) - FirstDay(MonthIndexOf(t)) + 1
  }

  lemma DayRange(t: Instant)
    ensures 1 <= Day(t) <= MonthLength(MonthIndexOf(t))
  {
    MonthContains(DayOf(t));
  }

  /** The instant of a civil date; months and days outside their usual range carry over. */
  function DateAt(year: int, month: int, day: int, clock: int): Instant {
    (FirstDay(12 * year + month - 1) + day - 1) * NANOS_PER_DAY + clock
  }

  /** An instant is determined by its month, its day of the month and its time of day. */
  lemma CivilParts(m: MonthIndex, day: int, clock: int)
    requires 1 <= day <= MonthLength(m) && 0 <= clock < NANOS_PER_DAY
    ensures
      var t := (FirstDay(m) + day - 1) * NANOS_PER_DAY + clock;
      MonthIndexOf(t) == m && Day(t) == day && ClockOf(t) == clock
  {
    var t := (FirstDay(m) + day - 1) * NANOS_PER_DAY + clock;
    DayAndClock(FirstDay(m) + day - 1, clock);
    NextFirstDay(m);
    MonthIsUnique(DayOf(t), m);
  }

  lemma CivilInstant(t: Instant)
    ensures t == (FirstDay(MonthIndexOf(t)) + Day(t) - 1) * NANOS_PER_DAY + ClockOf(t)
  {
  }

  function AddDays(t: Instant, days: int): Instant {
    DateAt(Year(t), Month(t), Day(t) + days, ClockOf(t))
  }

  lemma AddDaysIsShift(t: Instant, days: int)
    ensures AddDays(t, days) == t + days * NANOS_PER_DAY
  {
    CivilInstant(t);
    var m := MonthIndexOf(t);
    assert 12 * (m / 12) + (m % 12 + 1) - 1 == m;
  }

  function AddMonthsClamped(current: Instant, months: int): Instant {
    var targetFirst := DateAt(Year(current), Month(current) + months, 1, ClockOf(current));
    var lastDay := Day(DateAt(Year(targetFirst), Month(targetFirst) + 1, 0, ClockOf(current)));
    var day := if Day(current) > lastDay then lastDay else Day(current);
    DateAt(Year(targetFirst), Month(targetFirst), day, ClockOf(current))
  }

  function Min(a: int, b: int): int { if a < b then a else b }

  lemma MonthRecombines(t: Instant)
    ensures 12 * Year(t) + Month(t) - 1 == MonthIndexOf(t)
  {
  }

  lemma DateParts(year: int, month: int, day: int, clock: int)
    requires 1 <= day <= MonthLength(12 * year + month - 1) && 0 <= clock < NANOS_PER_DAY
    ensures
      var t := DateAt(year, month, day, clock);
      MonthIndexOf(t) == 12 * year + month - 1 && Day(t) == day && ClockOf(t) == clock
  {
    CivilParts(12 * year + month - 1, day, clock);
  }

  /** Day zero of the following month is the last day of this one. */
  lemma DayZeroIsLastDay(year: int, month: int, clock: int)
    requires 0 <= clock < NANOS_PER_DAY
    ensures Day(DateAt(year, month + 1, 0, clock)) == MonthLength(12 * year + month - 1)
  {
    var m := 12 * year + month - 1;
    NextFirstDay(m);
    CivilParts(m, MonthLength(m), clock);
  }

  /** The month moves by exactly the given number, the time of day stays, and the day stays unless the
      target month is too short, when it becomes that month's last day. */
  predicate MonthsLater(t: Instant, months: int, r: Instant) {
    && MonthIndexOf(r) == MonthIndexOf(t) + months
    && Day(r) == Min(Day(t), MonthLength(MonthIndexOf(t) + months))
    && ClockOf(r) == ClockOf(t)
  }

  lemma AddMonthsMeaning(t: Instant, months: int)
    ensures MonthsLater(t, months, AddMonthsClamped(t, months))
  {
    var target := MonthIndexOf(t) + months;
    var targetFirst := DateAt(Year(t), Month(t) + months, 1, ClockOf(t));
    ClockRange(t);
    MonthRecombines(t);
    DateParts(Year(t), Month(t) + months, 1, ClockOf(t));
    MonthRecombines(targetFirst);
    DayRange(t);
    DayZeroIsLastDay(Year(targetFirst), Month(targetFirst), ClockOf(t));
    DateParts(Year(targetFirst), Month(targetFirst), Min(Day(t), MonthLength(target)), ClockOf(t));
  }

  /** Instants compare by month, then day, then time of day. */
  predicate CivilBefore(a: Instant, b: Instant) {
    || MonthIndexOf(a) < MonthIndexOf(b)
    || (MonthIndexOf(a) == MonthIndexOf(b) && (Day(a) < Day(b) || (Day(a) == Day(b) && ClockOf(a) < ClockOf(b))))
  }

  lemma CivilOrder(a: Instant, b: Instant)
    requires CivilBefore(a, b)
    ensures a < b
  {
    CivilInstant(a);
    CivilInstant(b);
    ClockRange(a);
    ClockRange(b);
    if MonthIndexOf(a) < MonthIndexOf(b) {
      DayRange(a);
      DayRange(b);
      NextFirstDay(MonthIndexOf(a));
      FirstDayGrows(MonthIndexOf(a) + 1, MonthIndexOf(b));
    }
  }

  lemma CivilCompare(a: Instant, b: Instant)
    ensures a < b <==> CivilBefore(a, b)
  {
    if CivilBefore(a, b) {
      CivilOrder(a, b);
    } else if CivilBefore(b, a) {
      CivilOrder(b, a);
    } else {
      CivilInstant(a);
      CivilInstant(b);
    }
  }

  /** Two instants of one month that are both clamped to the same last day, the earlier of them later
      in its day than the other. */
  predicate ClampedOutOfOrder(a: Instant, b: Instant, months: int) {
    && MonthIndexOf(a) == MonthIndexOf(b)
    && MonthLength(MonthIndexOf(a) + months) <= Day(a) < Day(b)
    && ClockOf(b) < ClockOf(a)
  }

  lemma ClampedOrder(a: Instant, b: Instant, x: Instant, y: Instant, months: int)
    requires !CivilBefore(b, a)
    requires MonthsLater(a, months, x) && MonthsLater(b, months, y)
    ensures CivilBefore(y, x) <==> ClampedOutOfOrder(a, b, months)
    ensures MonthIndexOf(x) < MonthIndexOf(y) || (MonthIndexOf(x) == MonthIndexOf(y) && Day(x) <= Day(y))
  {
  }

  lemma DaysInOrder(x: Instant, y: Instant)
    requires MonthIndexOf(x) < MonthIndexOf(y) || (MonthIndexOf(x) == MonthIndexOf(y) && Day(x) <= Day(y))
    ensures DayOf(x) <= DayOf(y)
  {
    if MonthIndexOf(x) < MonthIndexOf(y) {
      DayRange(x);
      DayRange(y);
      NextFirstDay(MonthIndexOf(x));
      FirstDayGrows(MonthIndexOf(x) + 1, MonthIndexOf(y));
    }
  }

  lemma SteppedOrder(a: Instant, b: Instant, x: Instant, y: Instant, months: int)
    requires a <= b
    requires MonthsLater(a, months, x) && MonthsLater(b, months, y)
    ensures x <= y <==> !ClampedOutOfOrder(a, b, months)
    ensures DayOf(x) <= DayOf(y)
  {
    CivilCompare(b, a);
    CivilCompare(y, x);
    ClampedOrder(a, b, x, y, months);
    DaysInOrder(x, y);
  }

  /** Month steps keep the order of two instants except when clamping puts them on one day with their
      times of day the wrong way round; the calendar day always moves in order. */
  lemma AddMonthsMonotoneIff(a: Instant, b: Instant, months: int)
    requires a <= b
    ensures AddMonthsClamped(a, months) <= AddMonthsClamped(b, months) <==> !ClampedOutOfOrder(a, b, months)
    ensures DayOf(AddMonthsClamped(a, months)) <= DayOf(AddMonthsClamped(b, months))
  {
    AddMonthsMeaning(a, months);
    AddMonthsMeaning(b, months);
    SteppedOrder(a, b, AddMonthsClamped(a, months), AddMonthsClamped(b, months), months);
  }

  /** The 30th of January at 23:00 comes before the 31st at 01:00, but one month later it comes after. */
  lemma {:induction false} AddMonthsCanSwap()
    ensures
      var a, b := DateAt(1, 1, 30, 82_800_000_000_000), DateAt(1, 1, 31, 3_600_000_000_000);
      a < b && AddMonthsClamped(b, 1) < AddMonthsClamped(a, 1)
  {
    var a, b := DateAt(1, 1, 30, 82_800_000_000_000), DateAt(1, 1, 31, 3_600_000_000_000);
    DateParts(1, 1, 30, 82_800_000_000_000);
    DateParts(1, 1, 31, 3_600_000_000_000);
    AddMonthsMonotoneIff(a, b, 1);
  }

  lemma AddMonthsIncreases(t: Instant, months: int)
    requires months >= 1
    ensures t < AddMonthsClamped(t, months)
  {
    AddMonthsMeaning(t, months);
    CivilOrder(t, AddMonthsClamped(t, months));
  }

  // ---------------------------------------------------------------- repeated steps

  function MonthOrbit(start: Instant, months: int, k: nat): Instant {
    if k == 0 then start else AddMonthsClamped(MonthOrbit(start, months, k - 1), months)
  }

  function MonthAfter(m: MonthIndex, months: int, k: nat): MonthIndex {
    if k == 0 then m else MonthAfter(m, months, k - 1) + months
  }

  lemma {:induction false} MonthAfterIsProduct(m: MonthIndex, months: int, k: nat)
    ensures MonthAfter(m, months, k) == m + k * months
  {
    if k > 0 {
      MonthAfterIsProduct(m, months, k - 1);
      assert (k - 1) * months + months == k * months;
    }
  }

  /** The least of the starting day and the lengths of the months visited in k steps. */
  function LeastVisited(m: MonthIndex, day: int, months: int, k: nat): (least: int)
    ensures least <= day
    ensures k > 0 ==> least <= MonthLength(MonthAfter(m, months, k))
  {
    if k == 0 then day else Min(LeastVisited(m, day, months, k - 1), MonthLength(MonthAfter(m, months, k)))
  }

  predicate Reached(start: Instant, months: int, k: nat, t: Instant) {
    && MonthIndexOf(t) == MonthAfter(MonthIndexOf(start), months, k)
    && Day(t) == LeastVisited(MonthIndexOf(start), Day(start), months, k)
    && ClockOf(t) == ClockOf(start)
  }

  lemma ReachedStep(start: Instant, months: int, k: nat, t: Instant, next: Instant)
    requires k > 0 && Reached(start, months, k - 1, t)
    requires MonthsLater(t, months, next)
    ensures Reached(start, months, k, next)
  {
  }

  lemma {:induction false} OrbitReaches(start: Instant, months: int, k: nat)
    ensures Reached(start, months, k, MonthOrbit(start, months, k))
  {
    if k > 0 {
      OrbitReaches(start, months, k - 1);
      AddMonthsMeaning(MonthOrbit(start, months, k - 1), months);
      ReachedStep(start, months, k, MonthOrbit(start, months, k - 1), MonthOrbit(start, months, k));
    }
  }

  /** After k steps the month has moved by k times the step, and the day is the least of the starting
      day and every visited month's length: a day once clamped never recovers. */
  lemma OrbitMeaning(start: Instant, months: int, k: nat)
    ensures
      var t := MonthOrbit(start, months, k);
      && MonthIndexOf(t) == MonthIndexOf(start) + k * months
      && Day(t) == LeastVisited(MonthIndexOf(start), Day(start), months, k)
      && ClockOf(t) == ClockOf(start)
  {
    OrbitReaches(start, months, k);
    MonthAfterIsProduct(MonthIndexOf(start), months, k);
  }

  lemma NotLaterInMonth(t: Instant, u: Instant)
    requires MonthIndexOf(t) == MonthIndexOf(u) && Day(t) <= Day(u) && ClockOf(t) == ClockOf(u)
    ensures t <= u
  {
  }

  lemma ReachedBelowJump(start: Instant, months: int, k: nat, t: Instant, jump: Instant)
    requires Reached(start, months, k, t)
    requires MonthIndexOf(jump) == MonthAfter(MonthIndexOf(start), months, k)
    requires Day(jump) == Min(Day(start), MonthLength(MonthIndexOf(jump))) && ClockOf(jump) == ClockOf(start)
    ensures t <= jump
  {
    DayRange(start);
    NotLaterInMonth(t, jump);
  }

  /** Stepping month by month never overtakes the direct jump. */
  lemma {:induction false} OrbitBelowJump(start: Instant, months: int, k: nat)
    ensures MonthOrbit(start, months, k) <= AddMonthsClamped(start, k * months)
  {
    OrbitReaches(start, months, k);
    MonthAfterIsProduct(MonthIndexOf(start), months, k);
    AddMonthsMeaning(start, k * months);
    ReachedBelowJump(start, months, k, MonthOrbit(start, months, k), AddMonthsClamped(start, k * months));
  }
}
