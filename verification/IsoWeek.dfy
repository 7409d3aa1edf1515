/** The weekly summary's window and its de-duplication key. */
module IsoWeek {
  import opened Common
  import opened Decimal
  import opened Calendar

  /** Sunday is 0; day 0 of the calendar is a Monday. */
  function Weekday(t: Instant): int {
    (DayOf(t) + 1) % 7
  }

  /** ISO 8601:2004, section 4.1.4: a week belongs to the year that holds its Thursday, and is numbered
      by the Thursdays of that year. */
  function IsoYear(t: Instant): int {
    MonthOf(Thursday(t)) / 12
  }

  function IsoWeekNumber(t: Instant): int {
    (Thursday(t) - FirstDay(12 * IsoYear(t))) / 7 + 1
  }

  function Thursday(t: Instant): int {
    DayOf(t) - DayOf(t) % 7 + 3
  }

  function IsoWeekKey(year: int, week: int): string {
    Numeral(year) + "-" + (if week < 10 then "W0" else "W") + Numeral(week)
  }

  function PreviousISOWeek(now: Instant): (w: (Instant, Instant, string)) {
    var offset := (Weekday(now) + 6) % 7;
    var currentMonday := AddDays(DateAt(Year(now), Month(now), Day(now), 0), -offset);
    var from := AddDays(currentMonday, -7);
    (from, currentMonday, IsoWeekKey(IsoYear(from), IsoWeekNumber(from)))
  }

  predicate IsMonday(t: Instant) {
    DayOf(t) % 7 == 0 && ClockOf(t) == 0
  }

  /** The window of a completed week, seen from an instant of the week after it. */
  predicate CompletedWeek(from: Instant, to: Instant, now: Instant) {
    IsMonday(from) && to == from + 7 * NANOS_PER_DAY && to <= now < to + 7 * NANOS_PER_DAY
  }

  lemma MidnightOf(t: Instant)
    ensures DateAt(Year(t), Month(t), Day(t), 0) == DayOf(t) * NANOS_PER_DAY
  {
    CivilInstant(t);
    MonthRecombines(t);
  }

  lemma WeekOffset(day: int)
    ensures ((day + 1) % 7 + 6) % 7 == day % 7
  {
  }

  lemma WindowStart(now: Instant)
    ensures
      var (from, to, _) := PreviousISOWeek(now);
      && to == (DayOf(now) - DayOf(now) % 7) * NANOS_PER_DAY
      && from == to - 7 * NANOS_PER_DAY
  {
    var offset, midnight := DayOf(now) % 7, DateAt(Year(now), Month(now), Day(now), 0);
    WeekOffset(DayOf(now));
    MidnightOf(now);
    AddDaysIsShift(midnight, -offset);
    AddDaysIsShift(AddDays(midnight, -offset), -7);
  }

  lemma MondayGrid(day: int)
    ensures IsMonday((day - day % 7) * NANOS_PER_DAY) && IsMonday((day - day % 7) * NANOS_PER_DAY - 7 * NANOS_PER_DAY)
  {
    DayAndClock(day - day % 7, 0);
    DayAndClock(day - day % 7 - 7, 0);
  }

  lemma SevenApart(x: int, y: int)
    requires x % 7 == y % 7 && x < y
    ensures x + 7 <= y
  {
  }

  lemma MondaysApart(a: Instant, b: Instant)
    requires IsMonday(a) && IsMonday(b) && a < b
    ensures a + 7 * NANOS_PER_DAY <= b
  {
    assert a == DayOf(a) * NANOS_PER_DAY && b == DayOf(b) * NANOS_PER_DAY;
    SevenApart(DayOf(a), DayOf(b));
  }

  /** For every instant, the window is the one Monday-to-Monday week that ended last. */
  lemma WindowIsTheCompletedWeek(now: Instant, from: Instant, to: Instant)
    ensures CompletedWeek(from, to, now) <==> from == PreviousISOWeek(now).0 && to == PreviousISOWeek(now).1
  {
    WindowStart(now);
    MondayGrid(DayOf(now));
    ClockRange(now);
    var f := PreviousISOWeek(now).0;
    if CompletedWeek(from, to, now) {
      if from < f {
        MondaysApart(from, f);
      } else if f < from {
        MondaysApart(f, from);
      }
    }
  }

  // ---------------------------------------------------------------- keys

  /** Eleven months of at most 31 days and a February of at most 29. */
  lemma YearLength(january: MonthIndex)
    requires january % 12 == 0
    ensures FirstDay(january + 12) <= FirstDay(january) + 370
  {
    SixMonths(january);
    SixMonths(january + 6);
    assert MonthLength(january + 1) <= 29;
  }

  lemma SixMonths(m: MonthIndex)
    ensures FirstDay(m + 6) == FirstDay(m) + MonthLength(m) + MonthLength(m + 1) + MonthLength(m + 2)
                             + MonthLength(m + 3) + MonthLength(m + 4) + MonthLength(m + 5)
  {
    NextFirstDay(m);
    NextFirstDay(m + 1);
    NextFirstDay(m + 2);
    NextFirstDay(m + 3);
    NextFirstDay(m + 4);
    NextFirstDay(m + 5);
  }

  lemma YearContains(day: int, january: MonthIndex)
    requires january == MonthOf(day) / 12 * 12
    ensures FirstDay(january) <= day < FirstDay(january + 12)
  {
    var m := MonthOf(day);
    MonthContains(day);
    NextFirstDay(m);
    FirstDayGrows(january, m);
    FirstDayGrows(m + 1, january + 12);
  }

  lemma WeekNumberRange(t: Instant)
    ensures 1 <= IsoWeekNumber(t) <= 53
  {
    YearContains(Thursday(t), 12 * IsoYear(t));
    YearLength(12 * IsoYear(t));
  }

  /** Two weeks with the same ISO year and number are the same week. */
  lemma WeekNumberInjective(a: Instant, b: Instant)
    requires IsMonday(a) && IsMonday(b)
    requires IsoYear(a) == IsoYear(b) && IsoWeekNumber(a) == IsoWeekNumber(b)
    ensures a == b
  {
    var start := FirstDay(12 * IsoYear(a));
    var x, y := Thursday(a) - start, Thursday(b) - start;
    assert x / 7 == y / 7 && (x - y) % 7 == 0;
    assert a == DayOf(a) * NANOS_PER_DAY && b == DayOf(b) * NANOS_PER_DAY;
  }

  lemma WeekSuffix(week: int)
    requires 1 <= week <= 53
    ensures |(if week < 10 then "W0" else "W") + Numeral(week)| == 3
  {
    if week >= 10 {
      assert Digits(week) == Digits(week / 10) + [DigitChar(week % 10)];
      assert Digits(week / 10) == [DigitChar(week / 10)];
    }
  }

  /** The key determines the year and the week number. */
  lemma KeyInjective(year: int, week: int, year': int, week': int)
    requires 1 <= week <= 53 && 1 <= week' <= 53
    requires IsoWeekKey(year, week) == IsoWeekKey(year', week')
    ensures year == year' && week == week'
  {
    var tail := (if week < 10 then "W0" else "W") + Numeral(week);
    var tail' := (if week' < 10 then "W0" else "W") + Numeral(week');
    var key := IsoWeekKey(year, week);
    WeekSuffix(week);
    WeekSuffix(week');
    assert key == Numeral(year) + "-" + tail && key == Numeral(year') + "-" + tail';
    assert key[..|key| - 4] == Numeral(year) && key[..|key| - 4] == Numeral(year');
    assert key[|key| - 3..] == tail && key[|key| - 3..] == tail';
    NumeralInjective(year, year');
    if week < 10 {
      assert tail[2..] == Numeral(week);
    } else {
      assert tail[1..] == Numeral(week) && tail[1] == Numeral(week)[0];
    }
    if week' < 10 {
      assert tail'[2..] == Numeral(week');
    } else {
      assert tail'[1..] == Numeral(week') && tail'[1] == Numeral(week')[0];
    }
    NumeralInjective(week, week');
  }

  /** A key is the year, "-W" and the week in two digits. */
  lemma KeyShape(year: int, week: int)
    requires 1 <= week <= 53
    ensures
      var key := IsoWeekKey(year, week);
      var n := |key| - 4;
      && n >= 0 && key[..n] == Numeral(year) && key[n..n + 2] == "-W"
      && NumeralOnly(key[n + 2..]) && |key[n + 2..]| == 2 && Value(key[n + 2..]) == week
  {
    var key, digits := IsoWeekKey(year, week), (if week < 10 then "0" else "") + Numeral(week);
    WeekSuffix(week);
    assert Numeral(week) == Digits(week);
    assert key == Numeral(year) + "-W" + digits;
    ValueOfDigits(week);
    if week < 10 {
      assert digits[..1] == "0" && "0"[..0] == "" && digits == ['0', DigitChar(week)];
    }
  }

  lemma SummaryStartsOnMonday(now: Instant)
    ensures IsMonday(PreviousISOWeek(now).0)
  {
    WindowStart(now);
    MondayGrid(DayOf(now));
  }

  /** Two Mondays share a key only if they are the same. */
  lemma MondayKeyInjective(a: Instant, b: Instant)
    requires IsMonday(a) && IsMonday(b)
    requires IsoWeekKey(IsoYear(a), IsoWeekNumber(a)) == IsoWeekKey(IsoYear(b), IsoWeekNumber(b))
    ensures a == b
  {
    WeekNumberRange(a);
    WeekNumberRange(b);
    KeyInjective(IsoYear(a), IsoWeekNumber(a), IsoYear(b), IsoWeekNumber(b));
    WeekNumberInjective(a, b);
  }

  /** Summaries computed at two instants share a key exactly when they are about the same week. */
  lemma OneKeyPerWeek(now: Instant, now': Instant)
    ensures PreviousISOWeek(now).2 == PreviousISOWeek(now').2 <==> PreviousISOWeek(now).0 == PreviousISOWeek(now').0
  {
    SummaryStartsOnMonday(now);
    SummaryStartsOnMonday(now');
    if PreviousISOWeek(now).2 == PreviousISOWeek(now').2 {
      MondayKeyInjective(PreviousISOWeek(now).0, PreviousISOWeek(now').0);
    }
  }

  /** A summary's key names the year that holds its window's Thursday and counts that year's Thursdays
      up to it. */
  lemma KeyNamesTheWindow(now: Instant)
    ensures
      var (from, _, key) := PreviousISOWeek(now);
      var thursday := DayOf(from) + 3;
      exists year, week ::
        && key == IsoWeekKey(year, week)
        && FirstDay(12 * year) <= thursday < FirstDay(12 * year + 12)
        && FirstDay(12 * year) + 7 * (week - 1) <= thursday < FirstDay(12 * year) + 7 * week
  {
    var from := PreviousISOWeek(now).0;
    SummaryStartsOnMonday(now);
    YearContains(Thursday(from), 12 * IsoYear(from));
    assert PreviousISOWeek(now).2 == IsoWeekKey(IsoYear(from), IsoWeekNumber(from));
  }

  // ---------------------------------------------------------------- itoa

  lemma Digits19()
    ensures Power10(19) == 10_000_000_000_000_000_000
  {
    assert Power10(7) == 10_000_000;
    assert Power10(13) == 10_000_000_000_000;
  }

  function DigitsLeft(n: nat): string {
    if n > 0 then Digits(n) else ""
  }

  lemma LastDigit(n: nat, written: string)
    requires n > 0
    ensures DigitsLeft(n) + written == DigitsLeft(n / 10) + ([DigitChar(n % 10)] + written)
    ensures |DigitsLeft(n)| > 0
  {
    assert DigitsLeft(n) == DigitsLeft(n / 10) + [DigitChar(n % 10)];
  }

  /** Writes the digits of a positive number backwards into the end of a buffer. */
  method WriteDigits(whole: int64, buf: array<char>) returns (i: int)
    requires buf.Length == 20 && whole > 0
    modifies buf
    ensures 1 <= i <= 20 && buf[i..] == Digits(whole)
  {
    Digits19();
    DigitsLength(whole, 19);
    ghost var numeral := DigitsLeft(whole);
    var rest: nat := whole;
    i := 20;
    while rest > 0
      invariant 0 <= i <= 20
      invariant numeral == DigitsLeft(rest) + buf[i..]
    {
      LastDigit(rest, buf[i..]);
      i := i - 1;
      buf[i] := DigitChar(rest % 10);
      assert buf[i..] == [buf[i]] + buf[i + 1..];
      rest := rest / 10;
    }
  }

  /** Fills a 20-byte buffer from its end. The numeral is right for every 64-bit integer but the least
      one, whose negation wraps back to itself so that no digit is written. */
  method Itoa(n: int64) returns (text: string)
    ensures n != MIN_INT64 ==> text == Numeral(n)
    ensures n == MIN_INT64 ==> text == "-"
  {
    if n == 0 {
      return "0";
    }
    var neg := n < 0;
    var rest: int64 := n;
    if neg {
      var opposite: int := n;
      rest := Wrap64(-opposite);
    }
    var buf := new char[20];
    var i := buf.Length;
    if rest > 0 {
      i := WriteDigits(rest, buf);
    }
    if neg {
      i := i - 1;
      buf[i] := '-';
      assert buf[i..] == "-" + buf[i + 1..];
    }
    return buf[i..];
  }
}
