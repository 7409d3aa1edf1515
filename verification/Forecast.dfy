/** The spending forecast: the month's expense so far, spread over the days it took, carried to the
    whole month in integer arithmetic. */
module Forecast {
  import opened Calendar
  import opened Common

  /** The first instant of a month. */
  predicate IsMonthStart(month: Instant) {
    Day(month) == 1 && ClockOf(month) == 0
  }

  /** Days in the month: the day before the first of the next one. */
  function TotalDays(month: Instant): int {
    Day(AddDays(DateAt(Year(month), Month(month) + 1, Day(month), ClockOf(month)), -1))
  }

  function DaysElapsed(now: Instant, month: Instant): int {
    if Year(now) > Year(month) || (Year(now) == Year(month) && Month(now) > Month(month)) then TotalDays(month)
    else if Year(now) == Year(month) && Month(now) == Month(month) then Day(now)
    else 1
  }

  /** Spending is never negative here, so that truncating and flooring division agree. */
  function ForecastMinor(currentMinor: nat, daysElapsed: int, totalDays: int): int
    requires daysElapsed > 0
  {
    currentMinor / daysElapsed * totalDays
  }

  lemma TotalDaysIsMonthLength(month: Instant)
    requires IsMonthStart(month)
    ensures TotalDays(month) == MonthLength(MonthIndexOf(month))
  {
    var m := MonthIndexOf(month);
    var next := DateAt(Year(month), Month(month) + 1, 1, 0);
    MonthRecombines(month);
    AddDaysIsShift(next, -1);
    NextFirstDay(m);
    CivilParts(m, MonthLength(m), 0);
  }

  /** The days elapsed are at least one, so that the guard against dividing by zero never applies, and at
      most the days of the month. */
  lemma {:induction false} ElapsedRange(now: Instant, month: Instant)
    requires IsMonthStart(month)
    ensures 1 <= DaysElapsed(now, month) <= TotalDays(month)
  {
    TotalDaysIsMonthLength(month);
    MonthRecombines(now);
    MonthRecombines(month);
    DayRange(now);
  }

  lemma QuotientBounds(a: nat, b: int)
    requires b > 0
    ensures a / b * b <= a < a / b * b + b
  {
  }

  /** The forecast is the proportional one up to the daily rounding: less than one unit a day too low,
      never too high. */
  lemma ForecastIsProportional(currentMinor: nat, daysElapsed: int, totalDays: int)
    requires 0 < daysElapsed && 0 < totalDays
    ensures
      var forecast := ForecastMinor(currentMinor, daysElapsed, totalDays);
      forecast * daysElapsed <= currentMinor * totalDays < (forecast + totalDays) * daysElapsed
  {
    var daily := currentMinor / daysElapsed;
    QuotientBounds(currentMinor, daysElapsed);
    ScaledBounds(daily, daysElapsed, currentMinor, totalDays);
  }

  lemma ScaledBounds(q: int, b: int, a: int, c: int)
    requires q * b <= a < q * b + b && c > 0
    ensures q * c * b <= a * c < (q * c + c) * b
  {
    assert (q * b) * c <= a * c < (q * b + b) * c;
    assert q * c * b == (q * b) * c;
    assert (q * c + c) * b == (q * b + b) * c;
  }

  /** For a month that is over, the forecast is what was spent, short by less than one unit a day. */
  lemma {:induction false} PastForecast(now: Instant, month: Instant, currentMinor: nat)
    requires IsMonthStart(month) && MonthIndexOf(month) < MonthIndexOf(now)
    ensures
      var days := DaysElapsed(now, month);
      days == TotalDays(month) && days > 0
      && ForecastMinor(currentMinor, days, TotalDays(month)) <= currentMinor
      && currentMinor < ForecastMinor(currentMinor, days, TotalDays(month)) + days
  {
    ElapsedRange(now, month);
    MonthRecombines(now);
    MonthRecombines(month);
    QuotientBounds(currentMinor, TotalDays(month));
  }
}
