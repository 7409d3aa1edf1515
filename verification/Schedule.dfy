/** When a recurring rule runs next. */
module Schedule {
  import opened Common
  import opened Calendar

  datatype Frequency = Weekly | Monthly | OtherFrequency(text: string)

  datatype Status = Active | Paused | Cancelled | OtherStatus(text: string)

  datatype ScheduleError = IntervalNotPositive | InvalidFrequency

  datatype Cadence = Cadence(frequency: Frequency, intervalCount: int)

  predicate ValidCadence(c: Cadence) {
    c.intervalCount > 0 && !c.frequency.OtherFrequency?
  }

  function AdvanceNextRunAt(current: Instant, c: Cadence): (r: Result<Instant, ScheduleError>)
    ensures r.Ok? <==> ValidCadence(c)
  {
    if c.intervalCount <= 0 then Err(IntervalNotPositive)
    else match c.frequency
      case Weekly => Ok(AddDays(current, 7 * c.intervalCount))
      case Monthly => Ok(AddMonthsClamped(current, c.intervalCount))
      case OtherFrequency(_) => Err(InvalidFrequency)
  }

  function Next(t: Instant, c: Cadence): Instant
    requires ValidCadence(c)
  {
    AdvanceNextRunAt(t, c).value
  }

  /** Every step moves forward in time. */
  lemma NextIsLater(t: Instant, c: Cadence)
    requires ValidCadence(c)
    ensures t < Next(t, c)
  {
    if c.frequency.Weekly? {
      AddDaysIsShift(t, 7 * c.intervalCount);
    } else {
      AddMonthsIncreases(t, c.intervalCount);
    }
  }

  /** The k-th occurrence after the start. */
  function Occurrence(start: Instant, c: Cadence, k: nat): Instant
    requires ValidCadence(c)
  {
    if k == 0 then start else Next(Occurrence(start, c, k - 1), c)
  }

  predicate Precedes(start: Instant, c: Cadence, j: nat, k: nat)
    requires ValidCadence(c)
  {
    Occurrence(start, c, j) < Occurrence(start, c, k)
  }

  lemma PrecedesStep(start: Instant, c: Cadence, j: nat, k: nat)
    requires ValidCadence(c)
    requires j == k || Precedes(start, c, j, k)
    ensures Precedes(start, c, j, k + 1)
  {
    NextIsLater(Occurrence(start, c, k), c);
  }

  lemma {:induction false} OccurrencesIncrease(start: Instant, c: Cadence, j: nat, k: nat)
    requires ValidCadence(c) && j < k
    ensures Occurrence(start, c, j) < Occurrence(start, c, k)
  {
    for i := j to k
      invariant j == i || Precedes(start, c, j, i)
    {
      PrecedesStep(start, c, j, i);
    }
  }

  /** A monthly rule's occurrences are the month orbit, clamping included. */
  lemma MonthlyOccurrences(start: Instant, c: Cadence, k: nat)
    requires ValidCadence(c) && c.frequency.Monthly?
    ensures Occurrence(start, c, k) == MonthOrbit(start, c.intervalCount, k)
  {
  }

  /** A weekly rule moves by whole weeks and keeps the time of day. */
  lemma NextWeekly(t: Instant, c: Cadence)
    requires ValidCadence(c) && c.frequency.Weekly?
    ensures Next(t, c) == t + 7 * c.intervalCount * NANOS_PER_DAY
  {
    AddDaysIsShift(t, 7 * c.intervalCount);
  }

  /** The first k occurrences are all over by now. */
  ghost predicate AllOver(start: Instant, c: Cadence, now: Instant, k: nat)
    requires ValidCadence(c)
  {
    forall j: nat :: j < k ==> Occurrence(start, c, j) <= now
  }

  ghost predicate FirstAfter(start: Instant, c: Cadence, now: Instant, k: nat)
    requires ValidCadence(c)
  {
    now < Occurrence(start, c, k) && AllOver(start, c, now, k)
  }

  ghost predicate Reaching(start: Instant, c: Cadence, now: Instant, k: nat, next: Instant) {
    if ValidCadence(c) then next == Occurrence(start, c, k) && AllOver(start, c, now, k) else next == start
  }

  lemma ReachFurther(start: Instant, c: Cadence, now: Instant, k: nat, next: Instant)
    requires ValidCadence(c) && Reaching(start, c, now, k, next) && next <= now
    ensures Reaching(start, c, now, k + 1, Next(next, c)) && next < Next(next, c)
  {
    NextIsLater(next, c);
  }

  /** Skips to the first occurrence after now. An instant already in the future is returned as it is,
      whatever the cadence; otherwise an invalid cadence is reported. */
  method AdvancePast(current: Instant, c: Cadence, now: Instant) returns (r: Result<Instant, ScheduleError>)
    ensures now < current ==> r == Ok(current)
    ensures current <= now && !ValidCadence(c) ==> r == Err(AdvanceNextRunAt(current, c).error)
    ensures current <= now && ValidCadence(c) ==>
      r.Ok? && exists k: nat :: FirstAfter(current, c, now, k) && r.value == Occurrence(current, c, k)
  {
    var next := current;
    ghost var k: nat := 0;
    while next <= now
      invariant Reaching(current, c, now, k, next)
      invariant now < current ==> next == current
      decreases now - next
    {
      var advanced := AdvanceNextRunAt(next, c);
      if advanced.Err? {
        return Err(advanced.error);
      }
      ReachFurther(current, c, now, k, next);
      next := advanced.value;
      k := k + 1;
    }
    assert ValidCadence(c) ==> FirstAfter(current, c, now, k);
    return Ok(next);
  }

  /** AdvancePast stops at the earliest occurrence after now. */
  lemma FirstAfterIsEarliest(start: Instant, c: Cadence, now: Instant, k: nat, j: nat)
    requires ValidCadence(c) && FirstAfter(start, c, now, k)
    ensures now < Occurrence(start, c, j) <==> k <= j
  {
    if k < j {
      OccurrencesIncrease(start, c, k, j);
    }
  }

  function NextStateAfterRun(current: Instant, c: Cadence, endAt: Option<Instant>, status: Status)
    : Result<(Instant, Status), ScheduleError>
  {
    match AdvanceNextRunAt(current, c)
    case Err(error) => Err(error)
    case Ok(next) =>
      Ok((next, if endAt.Some? && next > endAt.value then Cancelled else status))
  }

  /** How many occurrences from t on are at or before the bound. */
  function CountUpTo(t: Instant, c: Cadence, bound: Instant): nat
    requires ValidCadence(c)
    decreases bound - t
  {
    if t > bound then 0
    else
      NextIsLater(t, c);
      1 + CountUpTo(Next(t, c), c, bound)
  }
}
