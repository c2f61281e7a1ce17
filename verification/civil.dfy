/** Naive Gregorian date-times as Python's `datetime` holds them: years 1 to
    9999, no time zone, no daylight saving. `Ordinal` and `Stamp` are an
    independent, arithmetic reading of a date-time used to state what the
    calendar arithmetic does. */
module Civil {
  import opened Wrappers

  const MinYear: int := 1
  const MaxYear: int := 9999

  predicate IsLeapYear(y: int) {
    y % 4 == 0 && (y % 100 != 0 || y % 400 == 0)
  }

  function DaysInYear(y: int): nat {
    if IsLeapYear(y) then 366 else 365
  }

  function DaysInMonth(y: int, m: int): nat
    requires 1 <= m <= 12
  {
    if m == 2 then (if IsLeapYear(y) then 29 else 28)
    else if m == 4 || m == 6 || m == 9 || m == 11 then 30
    else 31
  }

  datatype Date = Date(year: int, month: int, day: int)

  datatype DateTime = DateTime(date: Date, hour: int, minute: int, second: int)

  predicate ValidDate(d: Date) {
    && MinYear <= d.year <= MaxYear
    && 1 <= d.month <= 12
    && 1 <= d.day <= DaysInMonth(d.year, d.month)
  }

  predicate Valid(t: DateTime) {
    && ValidDate(t.date)
    && 0 <= t.hour < 24
    && 0 <= t.minute < 60
    && 0 <= t.second < 60
  }

  /** Days in the years 1 .. y-1. */
  function DaysBeforeYear(y: int): nat
    requires y >= MinYear
    decreases y
  {
    if y == MinYear then 0 else DaysBeforeYear(y - 1) + DaysInYear(y - 1)
  }

  /** Days in the months 1 .. m-1 of year y. */
  function DaysBeforeMonth(y: int, m: int): nat
    requires 1 <= m <= 12
    decreases m
  {
    if m == 1 then 0 else DaysBeforeMonth(y, m - 1) + DaysInMonth(y, m - 1)
  }

  /** Proleptic Gregorian ordinal: 0001-01-01 is day 1, as `date.toordinal()`. */
  function Ordinal(d: Date): int
    requires ValidDate(d)
  {
    DaysBeforeYear(d.year) + DaysBeforeMonth(d.year, d.month) + d.day
  }

  /** Seconds elapsed since 0001-01-01T00:00:00. */
  function Stamp(t: DateTime): int
    requires Valid(t)
  {
    (Ordinal(t.date) - 1) * 86400 + t.hour * 3600 + t.minute * 60 + t.second
  }

  lemma DecemberEndsYear(y: int)
    ensures DaysBeforeMonth(y, 12) + DaysInMonth(y, 12) == DaysInYear(y)
  {
    assert DaysBeforeMonth(y, 2) == 31;
    assert DaysBeforeMonth(y, 3) == 31 + DaysInMonth(y, 2);
    assert DaysBeforeMonth(y, 4) == 62 + DaysInMonth(y, 2);
    assert DaysBeforeMonth(y, 5) == 92 + DaysInMonth(y, 2);
    assert DaysBeforeMonth(y, 6) == 123 + DaysInMonth(y, 2);
    assert DaysBeforeMonth(y, 7) == 153 + DaysInMonth(y, 2);
    assert DaysBeforeMonth(y, 8) == 184 + DaysInMonth(y, 2);
    assert DaysBeforeMonth(y, 9) == 215 + DaysInMonth(y, 2);
    assert DaysBeforeMonth(y, 10) == 245 + DaysInMonth(y, 2);
    assert DaysBeforeMonth(y, 11) == 276 + DaysInMonth(y, 2);
    assert DaysBeforeMonth(y, 12) == 306 + DaysInMonth(y, 2);
  }

  /** The day after `d`, rolling over month and year ends; `None` past the
      last representable day, where Python raises `OverflowError`. */
  function NextDay(d: Date): (r: Option<Date>)
    requires ValidDate(d)
    ensures r.None? <==> d == Date(MaxYear, 12, 31)
    ensures r.Some? ==> ValidDate(r.value) && Ordinal(r.value) == Ordinal(d) + 1
  {
    if d.day < DaysInMonth(d.year, d.month) then
      Some(Date(d.year, d.month, d.day + 1))
    else if d.month < 12 then
      Some(Date(d.year, d.month + 1, 1))
    else if d.year < MaxYear then
      DecemberEndsYear(d.year);
      Some(Date(d.year + 1, 1, 1))
    else
      None
  }

  /** `t + timedelta(hours=1)`: the same minute and second one hour later,
      or `None` (Python's `OverflowError`) in the last hour of 9999-12-31. */
  function AddOneHour(t: DateTime): (r: Option<DateTime>)
    requires Valid(t)
    ensures r.None? <==> t.date == Date(MaxYear, 12, 31) && t.hour == 23
    ensures r.Some? ==> Valid(r.value) && Stamp(r.value) == Stamp(t) + 3600
  {
    if t.hour < 23 then
      Some(t.(hour := t.hour + 1))
    else
      match NextDay(t.date)
      case None => None
      case Some(next) => Some(DateTime(next, 0, t.minute, t.second))
  }

  /** Lexicographic order of dates. */
  predicate DateBefore(a: Date, b: Date) {
    || a.year < b.year
    || (a.year == b.year && a.month < b.month)
    || (a.year == b.year && a.month == b.month && a.day < b.day)
  }

  lemma {:induction false} DaysBeforeMonthGrows(y: int, m: int, m': int)
    requires 1 <= m < m' <= 12
    ensures DaysBeforeMonth(y, m) + DaysInMonth(y, m) <= DaysBeforeMonth(y, m')
    decreases m' - m
  {
    if m + 1 < m' {
      DaysBeforeMonthGrows(y, m, m' - 1);
    }
  }

  lemma {:induction false} DaysBeforeYearGrows(y: int, y': int)
    requires MinYear <= y < y'
    ensures DaysBeforeYear(y) + DaysInYear(y) <= DaysBeforeYear(y')
    decreases y' - y
  {
    if y + 1 < y' {
      DaysBeforeYearGrows(y, y' - 1);
    }
  }

  /** A valid date's days never spill past its year. */
  lemma DayWithinYear(d: Date)
    requires ValidDate(d)
    ensures DaysBeforeMonth(d.year, d.month) + d.day <= DaysInYear(d.year)
  {
    DecemberEndsYear(d.year);
    if d.month < 12 {
      DaysBeforeMonthGrows(d.year, d.month, 12);
    }
  }

  /** The ordinal is strictly increasing in calendar order. */
  lemma OrdinalMonotone(a: Date, b: Date)
    requires ValidDate(a) && ValidDate(b)
    requires DateBefore(a, b)
    ensures Ordinal(a) < Ordinal(b)
  {
    if a.year < b.year {
      DayWithinYear(a);
      DaysBeforeYearGrows(a.year, b.year);
    } else if a.month < b.month {
      DaysBeforeMonthGrows(a.year, a.month, b.month);
    }
  }

  lemma OrdinalInjective(a: Date, b: Date)
    requires ValidDate(a) && ValidDate(b)
    requires Ordinal(a) == Ordinal(b)
    ensures a == b
  {
    if DateBefore(a, b) {
      OrdinalMonotone(a, b);
    } else if DateBefore(b, a) {
      OrdinalMonotone(b, a);
    }
  }

  /** Seconds within a day, split into fields, identify the fields. */
  lemma ClockInjective(h: int, m: int, s: int, h': int, m': int, s': int)
    requires 0 <= h < 24 && 0 <= m < 60 && 0 <= s < 60
    requires 0 <= h' < 24 && 0 <= m' < 60 && 0 <= s' < 60
    requires h * 3600 + m * 60 + s == h' * 3600 + m' * 60 + s'
    ensures h == h' && m == m' && s == s'
  {
  }

  /** Distinct valid date-times have distinct stamps, so `Stamp` is a
      faithful reference reading of a date-time. */
  lemma StampInjective(a: DateTime, b: DateTime)
    requires Valid(a) && Valid(b)
    requires Stamp(a) == Stamp(b)
    ensures a == b
  {
    var oa, ob := Ordinal(a.date) - 1, Ordinal(b.date) - 1;
    var ca := a.hour * 3600 + a.minute * 60 + a.second;
    var cb := b.hour * 3600 + b.minute * 60 + b.second;
    assert 0 <= ca < 86400 && 0 <= cb < 86400;
    OrdinalInjective(a.date, b.date);
    ClockInjective(a.hour, a.minute, a.second, b.hour, b.minute, b.second);
  }

  /** Adding an hour gives the one date-time that is exactly 3600 seconds
      later. */
  lemma AddOneHourUnique(t: DateTime, u: DateTime)
    requires Valid(t) && Valid(u)
    requires Stamp(u) == Stamp(t) + 3600
    ensures AddOneHour(t) == Some(u)
  {
    if AddOneHour(t).None? {
      // 9999-12-31T23:mm:ss is the latest valid date-time up to its minute;
      // nothing lies an hour later.
      var last := DateTime(Date(MaxYear, 12, 31), 23, 59, 59);
      if u != last {
        assert DateBefore(u.date, last.date) || u.date == last.date;
        if DateBefore(u.date, last.date) {
          OrdinalMonotone(u.date, last.date);
        }
      }
      assert false;
    } else {
      StampInjective(AddOneHour(t).value, u);
    }
  }

  /** Rolling past midnight into a leap day, into March, and into a new year. */
  lemma LeapDayRollover()
    ensures AddOneHour(DateTime(Date(2024, 2, 28), 23, 30, 0)) == Some(DateTime(Date(2024, 2, 29), 0, 30, 0))
    ensures AddOneHour(DateTime(Date(2024, 2, 29), 23, 30, 0)) == Some(DateTime(Date(2024, 3, 1), 0, 30, 0))
  {
  }

  lemma CommonYearRollover()
    ensures AddOneHour(DateTime(Date(2023, 2, 28), 23, 30, 0)) == Some(DateTime(Date(2023, 3, 1), 0, 30, 0))
  {
    assert DaysInMonth(2023, 2) == 28;
  }

  /** 1900 is divisible by 4 but is not a leap year. */
  lemma CenturyRollover()
    ensures AddOneHour(DateTime(Date(1900, 2, 28), 23, 0, 0)) == Some(DateTime(Date(1900, 3, 1), 0, 0, 0))
  {
    assert !IsLeapYear(1900);
    assert DaysInMonth(1900, 2) == 28;
  }

  lemma YearEndRollover()
    ensures AddOneHour(DateTime(Date(2025, 12, 31), 23, 15, 0)) == Some(DateTime(Date(2026, 1, 1), 0, 15, 0))
    ensures AddOneHour(DateTime(Date(9999, 12, 31), 23, 0, 0)) == None
  {
  }
}
