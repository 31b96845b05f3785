/** Proleptic Gregorian calendar dates and naive date-times, as Python's
    `datetime` module represents them: years 1 through 9999, leap years by the
    Gregorian rule, time of day at microsecond resolution. */
module Calendar {
  import opened Optional

  const MinYear := 1
  const MaxYear := 9999
  const MicrosPerDay := 86_400_000_000

  datatype Date = Date(year: int, month: int, day: int)

  /** A naive point in time: a date and the microseconds elapsed since its
      midnight. */
  datatype DateTime = DateTime(date: Date, micros: int)

  /** The last date Python can represent, 9999-12-31. */
  const LastDate := Date(MaxYear, 12, 31)

  predicate IsLeapYear(y: int) {
    y % 4 == 0 && (y % 100 != 0 || y % 400 == 0)
  }

  function DaysInMonth(y: int, m: int): int
    requires 1 <= m <= 12
  {
    if m == 2 then (if IsLeapYear(y) then 29 else 28)
    else if m == 4 || m == 6 || m == 9 || m == 11 then 30
    else 31
  }

  function DaysInYear(y: int): int {
    if IsLeapYear(y) then 366 else 365
  }

  predicate ValidDate(d: Date) {
    && MinYear <= d.year <= MaxYear
    && 1 <= d.month <= 12
    && 1 <= d.day <= DaysInMonth(d.year, d.month)
  }

  predicate ValidDateTime(t: DateTime) {
    ValidDate(t.date) && 0 <= t.micros < MicrosPerDay
  }

  /** Chronological order on dates (strict). */
  predicate Before(a: Date, b: Date) {
    || a.year < b.year
    || (a.year == b.year && a.month < b.month)
    || (a.year == b.year && a.month == b.month && a.day < b.day)
  }

  predicate AtMost(a: Date, b: Date) {
    a == b || Before(a, b)
  }

  /** The later of two dates. */
  function Later(a: Date, b: Date): (r: Date)
    ensures r == a || r == b
    ensures AtMost(a, r) && AtMost(b, r)
  {
    if Before(a, b) then b else a
  }

  /** Chronological order on date-times (strict), Python's `<` on naive
      datetimes. */
  predicate TimeBefore(a: DateTime, b: DateTime) {
    Before(a.date, b.date) || (a.date == b.date && a.micros < b.micros)
  }

  /** The date-time `strptime` yields for a bare date: its midnight. */
  function Midnight(d: Date): DateTime {
    DateTime(d, 0)
  }

  // ---------------------------------------------------------------------------
  // Ordinals: the day count Python's `date.toordinal` returns (0001-01-01 is 1)
  // ---------------------------------------------------------------------------

  function DaysBeforeYear(y: int): int
    requires y >= 1
  {
    var p := y - 1;
    365 * p + p / 4 - p / 100 + p / 400
  }

  /** Days of year `y` that precede the first of month `m`. */
  function DaysBeforeMonth(y: int, m: int): int
    requires 1 <= m <= 12
  {
    var common :=
      if m == 1 then 0 else if m == 2 then 31 else if m == 3 then 59
      else if m == 4 then 90 else if m == 5 then 120 else if m == 6 then 151
      else if m == 7 then 181 else if m == 8 then 212 else if m == 9 then 243
      else if m == 10 then 273 else if m == 11 then 304 else 334;
    if m > 2 && IsLeapYear(y) then common + 1 else common
  }

  function Ordinal(d: Date): int
    requires ValidDate(d)
  {
    DaysBeforeYear(d.year) + DaysBeforeMonth(d.year, d.month) + d.day
  }

  /** Stepping from `p` to `p + 1` raises the quotient by `k` exactly when
      `p + 1` is a multiple of `k`, shown from the division identity
      `p == k * (p / k) + p % k` for each divisor the leap rule uses. */
  lemma QuotientStep4(p: nat)
    ensures (p + 1) / 4 == p / 4 + (if (p + 1) % 4 == 0 then 1 else 0)
  {
    var q, r := p / 4, p % 4;
    assert p == 4 * q + r && 0 <= r < 4;
    if r == 3 {
      assert p + 1 == 4 * (q + 1) + 0;
    } else {
      assert p + 1 == 4 * q + (r + 1) && r + 1 < 4;
    }
  }

  lemma QuotientStep100(p: nat)
    ensures (p + 1) / 100 == p / 100 + (if (p + 1) % 100 == 0 then 1 else 0)
  {
    var q, r := p / 100, p % 100;
    assert p == 100 * q + r && 0 <= r < 100;
    if r == 99 {
      assert p + 1 == 100 * (q + 1) + 0;
    } else {
      assert p + 1 == 100 * q + (r + 1) && r + 1 < 100;
    }
  }

  lemma QuotientStep400(p: nat)
    ensures (p + 1) / 400 == p / 400 + (if (p + 1) % 400 == 0 then 1 else 0)
  {
    var q, r := p / 400, p % 400;
    assert p == 400 * q + r && 0 <= r < 400;
    if r == 399 {
      assert p + 1 == 400 * (q + 1) + 0;
    } else {
      assert p + 1 == 400 * q + (r + 1) && r + 1 < 400;
    }
  }

  lemma DaysBeforeYearStep(y: int)
    requires y >= 1
    ensures DaysBeforeYear(y + 1) == DaysBeforeYear(y) + DaysInYear(y)
  {
    var p := y - 1;
    QuotientStep4(p);
    QuotientStep100(p);
    QuotientStep400(p);
  }

  lemma DaysBeforeYearMonotone(a: int, b: int)
    requires 1 <= a <= b
    ensures DaysBeforeYear(a) + 365 * (b - a) <= DaysBeforeYear(b)
    decreases b - a
  {
    if a < b {
      DaysBeforeYearStep(a);
      DaysBeforeYearMonotone(a + 1, b);
    }
  }

  /** A valid date's ordinal lies inside its year's range of ordinals. */
  lemma OrdinalWithinYear(d: Date)
    requires ValidDate(d)
    ensures DaysBeforeYear(d.year) < Ordinal(d) <= DaysBeforeYear(d.year + 1)
  {
    DaysBeforeYearStep(d.year);
  }

  /** The ordinal is an order embedding: later dates have larger ordinals. */
  lemma {:induction false} OrdinalMonotone(a: Date, b: Date)
    requires ValidDate(a) && ValidDate(b)
    ensures Before(a, b) <==> Ordinal(a) < Ordinal(b)
    ensures a == b <==> Ordinal(a) == Ordinal(b)
  {
    OrdinalWithinYear(a);
    OrdinalWithinYear(b);
    if a.year < b.year {
      DaysBeforeYearMonotone(a.year + 1, b.year);
    } else if b.year < a.year {
      DaysBeforeYearMonotone(b.year + 1, a.year);
    }
  }

  // ---------------------------------------------------------------------------
  // Day arithmetic: `datetime + timedelta(days=n)`
  // ---------------------------------------------------------------------------

  /** The following day, or `None` past 9999-12-31 (Python raises
      `OverflowError` there). */
  function NextDay(d: Date): (r: Option<Date>)
    requires ValidDate(d)
    ensures r.None? <==> d == LastDate
    ensures r.Some? ==> ValidDate(r.value) && Before(d, r.value)
  {
    if d.day < DaysInMonth(d.year, d.month) then Some(Date(d.year, d.month, d.day + 1))
    else if d.month < 12 then Some(Date(d.year, d.month + 1, 1))
    else if d.year < MaxYear then Some(Date(d.year + 1, 1, 1))
    else None
  }

  /** No valid date lies strictly between a date and its successor. */
  lemma NextDayIsImmediate(d: Date, e: Date)
    requires ValidDate(d) && ValidDate(e) && NextDay(d).Some? && Before(d, e)
    ensures AtMost(NextDay(d).value, e)
  {
  }

  lemma NextDayOrdinal(d: Date)
    requires ValidDate(d) && NextDay(d).Some?
    ensures Ordinal(NextDay(d).value) == Ordinal(d) + 1
  {
    if d.day == DaysInMonth(d.year, d.month) && d.month == 12 {
      DaysBeforeYearStep(d.year);
    }
  }

  /** `d` plus `n` days, or `None` when the result would pass 9999-12-31. */
  function AddDays(d: Date, n: nat): (r: Option<Date>)
    requires ValidDate(d)
    ensures r.Some? ==> ValidDate(r.value)
    decreases n
  {
    if n == 0 then Some(d)
    else match NextDay(d)
      case None => None
      case Some(e) => AddDays(e, n - 1)
  }

  /** Adding days is adding to the ordinal, and it fails exactly when the
      ordinal would pass that of 9999-12-31. */
  lemma {:induction false} AddDaysOrdinal(d: Date, n: nat)
    requires ValidDate(d)
    ensures AddDays(d, n).Some? ==> Ordinal(AddDays(d, n).value) == Ordinal(d) + n
    ensures AddDays(d, n).None? <==> Ordinal(d) + n > Ordinal(LastDate)
    decreases n
  {
    OrdinalMonotone(d, LastDate);
    if n > 0 {
      match NextDay(d)
      case None =>
      case Some(e) =>
        NextDayOrdinal(d);
        AddDaysOrdinal(e, n - 1);
    }
  }

  /** Adding a positive number of days moves strictly forward. */
  lemma AddDaysAdvances(d: Date, n: nat)
    requires ValidDate(d) && AddDays(d, n).Some?
    ensures AtMost(d, AddDays(d, n).value)
    ensures n > 0 ==> Before(d, AddDays(d, n).value)
  {
    AddDaysOrdinal(d, n);
    OrdinalMonotone(d, AddDays(d, n).value);
  }

  // ---------------------------------------------------------------------------
  // Month arithmetic: `datetime + relativedelta(months=n)`
  // ---------------------------------------------------------------------------

  /** Months elapsed from January of year 0 to the month of `d`. */
  function MonthIndex(d: Date): int {
    12 * d.year + d.month - 1
  }

  function Min(a: int, b: int): int {
    if a <= b then a else b
  }

  /** `relativedelta(months=n)` added to a date: the constructor normalises
      `n` into whole years and 0..11 months, the addition carries a month
      past December into the next year, and the day is clamped to the
      length of the target month. `None` when the year passes 9999 (Python
      raises `ValueError`). */
  function AddMonths(d: Date, months: nat): (r: Option<Date>)
    requires ValidDate(d)
    ensures r.Some? ==> ValidDate(r.value)
  {
    var years := months / 12;
    var rest := months % 12;
    var y := if d.month + rest > 12 then d.year + years + 1 else d.year + years;
    var m := if d.month + rest > 12 then d.month + rest - 12 else d.month + rest;
    if y > MaxYear then None
    else Some(Date(y, m, Min(d.day, DaysInMonth(y, m))))
  }

  /** Month addition shifts the month index by exactly `months`, keeps the day
      unless the target month is shorter, and fails exactly when the target
      month lies after December 9999. */
  lemma AddMonthsShiftsMonth(d: Date, months: nat)
    requires ValidDate(d)
    ensures AddMonths(d, months).None? <==> MonthIndex(d) + months > MonthIndex(LastDate)
    ensures AddMonths(d, months).Some? ==>
      var e := AddMonths(d, months).value;
      && MonthIndex(e) == MonthIndex(d) + months
      && e.day == Min(d.day, DaysInMonth(e.year, e.month))
  {
  }

  /** Adding months never moves backward, and a positive number of months
      moves strictly forward. */
  lemma AddMonthsAdvances(d: Date, months: nat)
    requires ValidDate(d) && AddMonths(d, months).Some?
    ensures AtMost(d, AddMonths(d, months).value)
    ensures months > 0 ==> Before(d, AddMonths(d, months).value)
  {
    AddMonthsShiftsMonth(d, months);
  }

  /** Month addition preserves chronological order (weakly: clamping can map
      two dates of one month to the same day). */
  lemma AddMonthsMonotone(a: Date, b: Date, months: nat)
    requires ValidDate(a) && ValidDate(b) && AtMost(a, b)
    requires AddMonths(b, months).Some?
    ensures AddMonths(a, months).Some?
    ensures AtMost(AddMonths(a, months).value, AddMonths(b, months).value)
  {
    AddMonthsShiftsMonth(a, months);
    AddMonthsShiftsMonth(b, months);
  }
}
