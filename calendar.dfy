/**
 * The proleptic Gregorian calendar as Python's `datetime` module implements it:
 * which field values the `datetime(year, month, day, hour, minute)` constructor
 * accepts, the day ordinal it computes (1 January of year 1 is day 1), and what
 * adding a whole number of hours does to the fields.
 */
module Calendar {
  import opened Wrappers

  const MinYear := 1
  const MaxYear := 9999
  const SecondsPerDay := 86400
  const SecondsPerHour := 3600

  predicate IsLeapYear(y: int) {
    y % 4 == 0 && (y % 100 != 0 || y % 400 == 0)
  }

  function DaysInYear(y: int): (n: int)
    ensures n == 365 || n == 366
  {
    if IsLeapYear(y) then 366 else 365
  }

  function DaysInMonth(y: int, m: int): (n: int)
    requires 1 <= m <= 12
    ensures 28 <= n <= 31
    ensures n == 29 <==> m == 2 && IsLeapYear(y)
  {
    if m == 2 then (if IsLeapYear(y) then 29 else 28)
    else if m == 4 || m == 6 || m == 9 || m == 11 then 30
    else 31
  }

  /** Days of the year that lie in the months before month m. */
  function DaysBeforeMonth(y: int, m: int): int
    requires 1 <= m <= 12
  {
    var common :=
      if m == 1 then 0 else if m == 2 then 31 else if m == 3 then 59
      else if m == 4 then 90 else if m == 5 then 120 else if m == 6 then 151
      else if m == 7 then 181 else if m == 8 then 212 else if m == 9 then 243
      else if m == 10 then 273 else if m == 11 then 304 else 334;
    common + (if m > 2 && IsLeapYear(y) then 1 else 0)
  }

  /** Days in the years before year y, counted from 1 January of year 1. */
  function DaysBeforeYear(y: int): int
    requires y >= 1
  {
    var p := y - 1;
    p * 365 + p / 4 - p / 100 + p / 400
  }

  predicate ValidDate(y: int, m: int, d: int) {
    MinYear <= y <= MaxYear && 1 <= m <= 12 && 1 <= d <= DaysInMonth(y, m)
  }

  /** The day number of a date; 1 January of year 1 is day 1. */
  function Ordinal(y: int, m: int, d: int): int
    requires ValidDate(y, m, d)
  {
    DaysBeforeYear(y) + DaysBeforeMonth(y, m) + d
  }

  /** The ordinal of 31 December 9999, the last day `datetime` can represent. */
  const MaxOrdinal := 3652059

  /** A naive wall-clock time with minute resolution, in the field order of `datetime(...)`. */
  datatype DateTime = DateTime(year: int, month: int, day: int, hour: int, minute: int)

  /** The fields that `datetime(year, month, day, hour, minute)` accepts without raising `ValueError`. */
  predicate ValidDateTime(t: DateTime) {
    ValidDate(t.year, t.month, t.day) && 0 <= t.hour <= 23 && 0 <= t.minute <= 59
  }

  /** Seconds from 0001-01-01 00:00 on the same wall clock. */
  function LocalSeconds(t: DateTime): int
    requires ValidDateTime(t)
  {
    (Ordinal(t.year, t.month, t.day) - 1) * SecondsPerDay + t.hour * SecondsPerHour + t.minute * 60
  }

  /** Chronological order of wall-clock fields: year, then month, day, hour, minute. */
  predicate Before(a: DateTime, b: DateTime) {
    || a.year < b.year
    || (a.year == b.year && a.month < b.month)
    || (a.year == b.year && a.month == b.month && a.day < b.day)
    || (a.year == b.year && a.month == b.month && a.day == b.day && a.hour < b.hour)
    || (a.year == b.year && a.month == b.month && a.day == b.day && a.hour == b.hour && a.minute < b.minute)
  }

  /**
   * `t + timedelta(hours=n)` for 0 <= n < 24: the hour carries into the next day,
   * month and year; past 31 December 9999 Python raises `OverflowError` (None here).
   */
  function AddHours(t: DateTime, n: nat): (r: Option<DateTime>)
    requires ValidDateTime(t) && n < 24
    ensures r.Some? ==> ValidDateTime(r.value) && r.value.minute == t.minute
  {
    if t.hour + n < 24 then Some(t.(hour := t.hour + n))
    else if t.day < DaysInMonth(t.year, t.month) then Some(t.(day := t.day + 1, hour := t.hour + n - 24))
    else if t.month < 12 then Some(t.(month := t.month + 1, day := 1, hour := t.hour + n - 24))
    else if t.year < MaxYear then Some(DateTime(t.year + 1, 1, 1, t.hour + n - 24, t.minute))
    else None
  }

  // ---------------------------------------------------------------------------
  // Facts about the ordinal arithmetic.

  lemma DaysBeforeYearStep(y: int)
    requires y >= 1
    ensures DaysBeforeYear(y + 1) == DaysBeforeYear(y) + DaysInYear(y)
  {
    DivStep4(y);
    DivStep100(y);
    DivStep400(y);
    LeapDivisibility(y);
    var step := 365 + (if y % 4 == 0 then 1 else 0) - (if y % 100 == 0 then 1 else 0) + (if y % 400 == 0 then 1 else 0);
    assert DaysBeforeYear(y + 1) == DaysBeforeYear(y) + step;
    assert step == DaysInYear(y);
  }

  /** Every multiple of 400 is a multiple of 100, and every multiple of 100 one of 4. */
  lemma LeapDivisibility(y: int)
    ensures y % 400 == 0 ==> y % 100 == 0
    ensures y % 100 == 0 ==> y % 4 == 0
  {
    if y % 400 == 0 {
      FourHundredsAreHundreds(y / 400);
    }
    if y % 100 == 0 {
      HundredsAreFours(y / 100);
    }
  }

  lemma FourHundredsAreHundreds(q: int)
    ensures (400 * q) % 100 == 0
  {
    assert 400 * q == 100 * (4 * q);
  }

  lemma HundredsAreFours(q: int)
    ensures (100 * q) % 4 == 0
  {
    assert 100 * q == 4 * (25 * q);
  }

  lemma DivStep4(y: int)
    ensures y / 4 == (y - 1) / 4 + (if y % 4 == 0 then 1 else 0)
  {
  }

  lemma DivStep100(y: int)
    ensures y / 100 == (y - 1) / 100 + (if y % 100 == 0 then 1 else 0)
  {
  }

  lemma DivStep400(y: int)
    ensures y / 400 == (y - 1) / 400 + (if y % 400 == 0 then 1 else 0)
  {
  }

  lemma DaysBeforeMonthStep(y: int, m: int)
    requires 1 <= m < 12
    ensures DaysBeforeMonth(y, m + 1) == DaysBeforeMonth(y, m) + DaysInMonth(y, m)
  {
  }

  lemma DecemberEndsYear(y: int)
    ensures DaysBeforeMonth(y, 12) + DaysInMonth(y, 12) == DaysInYear(y)
  {
  }

  /** The ordinal count is the running sum of year lengths, so it grows by at least 365 a year. */
  lemma {:induction false} DaysBeforeYearGrows(a: int, b: int)
    requires 1 <= a <= b
    ensures DaysBeforeYear(a) + 365 * (b - a) <= DaysBeforeYear(b)
    decreases b - a
  {
    if a < b {
      DaysBeforeYearGrows(a, b - 1);
      DaysBeforeYearStep(b - 1);
    }
  }

  /** A date never passes the length of its year. */
  lemma {:induction false} DayOfYearBound(y: int, m: int, d: int)
    requires ValidDate(y, m, d)
    ensures DaysBeforeMonth(y, m) + d <= DaysInYear(y)
    decreases 12 - m
  {
    if m < 12 {
      DaysBeforeMonthStep(y, m);
      DayOfYearBound(y, m + 1, 1);
    } else {
      DecemberEndsYear(y);
    }
  }

  /** Every day of an earlier month comes before the first day of a later month. */
  lemma {:induction false} DaysBeforeMonthOrder(y: int, m1: int, d1: int, m2: int)
    requires ValidDate(y, m1, d1) && m1 < m2 <= 12
    ensures DaysBeforeMonth(y, m1) + d1 <= DaysBeforeMonth(y, m2)
    decreases m2 - m1
  {
    DaysBeforeMonthStep(y, m1);
    if m1 + 1 < m2 {
      DaysBeforeMonthOrder(y, m1 + 1, 1, m2);
    }
  }

  /** The ordinal of the last representable day is MaxOrdinal. */
  lemma LastOrdinal()
    ensures Ordinal(MaxYear, 12, 31) == MaxOrdinal
    ensures DaysBeforeYear(MaxYear + 1) == MaxOrdinal
  {
  }

  /** Every representable date has an ordinal in 1..MaxOrdinal. */
  lemma OrdinalRange(y: int, m: int, d: int)
    requires ValidDate(y, m, d)
    ensures 1 <= Ordinal(y, m, d) <= MaxOrdinal
  {
    DayOfYearBound(y, m, d);
    DaysBeforeYearStep(y);
    DaysBeforeYearGrows(y + 1, MaxYear + 1);
    LastOrdinal();
  }

  /** The ordinal is strictly increasing in calendar order. */
  lemma OrdinalOrder(a: DateTime, b: DateTime)
    requires ValidDateTime(a) && ValidDateTime(b)
    requires a.year < b.year || (a.year == b.year && a.month < b.month)
          || (a.year == b.year && a.month == b.month && a.day < b.day)
    ensures Ordinal(a.year, a.month, a.day) < Ordinal(b.year, b.month, b.day)
  {
    if a.year < b.year {
      DayOfYearBound(a.year, a.month, a.day);
      DaysBeforeYearStep(a.year);
      DaysBeforeYearGrows(a.year + 1, b.year);
    } else if a.month < b.month {
      DaysBeforeMonthOrder(a.year, a.month, a.day, b.month);
    }
  }

  /** The seconds count preserves chronological order, and so tells distinct times apart. */
  lemma LocalSecondsOrder(a: DateTime, b: DateTime)
    requires ValidDateTime(a) && ValidDateTime(b) && Before(a, b)
    ensures LocalSeconds(a) < LocalSeconds(b)
  {
    if a.year != b.year || a.month != b.month || a.day != b.day {
      OrdinalOrder(a, b);
    }
  }

  lemma LocalSecondsInjective(a: DateTime, b: DateTime)
    requires ValidDateTime(a) && ValidDateTime(b) && LocalSeconds(a) == LocalSeconds(b)
    ensures a == b
  {
    if Before(a, b) {
      LocalSecondsOrder(a, b);
    } else if Before(b, a) {
      LocalSecondsOrder(b, a);
    }
  }

  /** Representable wall-clock times lie before the end of day MaxOrdinal. */
  lemma LocalSecondsRange(t: DateTime)
    requires ValidDateTime(t)
    ensures 0 <= LocalSeconds(t) < MaxOrdinal * SecondsPerDay
  {
    OrdinalRange(t.year, t.month, t.day);
  }

  /**
   * `AddHours` agrees with Python's ordinal arithmetic: the result is exactly n hours
   * later on the seconds scale, and it is missing exactly when that instant lies past
   * the last representable day.
   */
  lemma AddHoursShiftsSeconds(t: DateTime, n: nat)
    requires ValidDateTime(t) && n < 24
    ensures AddHours(t, n).Some? ==> LocalSeconds(AddHours(t, n).value) == LocalSeconds(t) + n * SecondsPerHour
    ensures AddHours(t, n).None? <==> LocalSeconds(t) + n * SecondsPerHour >= MaxOrdinal * SecondsPerDay
  {
    if t.hour + n < 24 {
      SameDayShift(t, n);
    } else if t.day < DaysInMonth(t.year, t.month) {
      NextDayShift(t, n);
    } else if t.month < 12 {
      NextMonthShift(t, n);
    } else if t.year < MaxYear {
      NextYearShift(t, n);
    } else {
      LastOrdinal();
    }
  }

  lemma SameDayShift(t: DateTime, n: nat)
    requires ValidDateTime(t) && n < 24 && t.hour + n < 24
    ensures var u := t.(hour := t.hour + n);
      ValidDateTime(u) && LocalSeconds(u) == LocalSeconds(t) + n * SecondsPerHour < MaxOrdinal * SecondsPerDay
  {
    LocalSecondsRange(t.(hour := t.hour + n));
  }

  lemma NextDayShift(t: DateTime, n: nat)
    requires ValidDateTime(t) && n < 24 && t.hour + n >= 24 && t.day < DaysInMonth(t.year, t.month)
    ensures var u := t.(day := t.day + 1, hour := t.hour + n - 24);
      ValidDateTime(u) && LocalSeconds(u) == LocalSeconds(t) + n * SecondsPerHour < MaxOrdinal * SecondsPerDay
  {
    LocalSecondsRange(t.(day := t.day + 1, hour := t.hour + n - 24));
  }

  lemma NextMonthShift(t: DateTime, n: nat)
    requires ValidDateTime(t) && n < 24 && t.hour + n >= 24 && t.day == DaysInMonth(t.year, t.month) && t.month < 12
    ensures var u := t.(month := t.month + 1, day := 1, hour := t.hour + n - 24);
      ValidDateTime(u) && LocalSeconds(u) == LocalSeconds(t) + n * SecondsPerHour < MaxOrdinal * SecondsPerDay
  {
    DaysBeforeMonthStep(t.year, t.month);
    LocalSecondsRange(t.(month := t.month + 1, day := 1, hour := t.hour + n - 24));
  }

  lemma NextYearShift(t: DateTime, n: nat)
    requires ValidDateTime(t) && n < 24 && t.hour + n >= 24 && t.day == DaysInMonth(t.year, t.month)
    requires t.month == 12 && t.year < MaxYear
    ensures var u := DateTime(t.year + 1, 1, 1, t.hour + n - 24, t.minute);
      ValidDateTime(u) && LocalSeconds(u) == LocalSeconds(t) + n * SecondsPerHour < MaxOrdinal * SecondsPerDay
  {
    DecemberEndsYear(t.year);
    DaysBeforeYearStep(t.year);
    LocalSecondsRange(DateTime(t.year + 1, 1, 1, t.hour + n - 24, t.minute));
  }
}
