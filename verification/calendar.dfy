/** Calendar dates as Python's datetime.date sees them: a (year, month, day)
    triple in the proleptic Gregorian calendar, years 1 to 9999, compared
    field by field, and subtracted through their day numbers. */
module Calendar {
  import opened Wrappers
  import opened Text

  datatype Date = Date(year: int, month: int, day: int)

  predicate IsLeapYear(y: int) {
    y % 4 == 0 && (y % 100 != 0 || y % 400 == 0)
  }

  function DaysInMonth(y: int, m: int): (n: int)
    requires 1 <= m <= 12
    ensures 28 <= n <= 31
  {
    if m == 2 then (if IsLeapYear(y) then 29 else 28)
    else if m == 4 || m == 6 || m == 9 || m == 11 then 30
    else 31
  }

  function DaysInYear(y: int): int {
    if IsLeapYear(y) then 366 else 365
  }

  /** The dates date(year, month, day) accepts without a ValueError. */
  predicate Valid(d: Date) {
    && 1 <= d.year <= 9999
    && 1 <= d.month <= 12
    && 1 <= d.day <= DaysInMonth(d.year, d.month)
  }

  /** date(year, month, day): the date, or the ValueError it raises. */
  function MakeDate(year: int, month: int, day: int): (r: Result<Date>)
    ensures r.Ok? <==> Valid(Date(year, month, day))
    ensures r.Ok? ==> r.value == Date(year, month, day)
    ensures r.Err? ==> r.fault == InvalidDate
  {
    if Valid(Date(year, month, day)) then Ok(Date(year, month, day)) else Err(InvalidDate)
  }

  function DaysBeforeMonth(y: int, m: int): int
    requires 1 <= m <= 12
  {
    if m == 1 then 0 else DaysBeforeMonth(y, m - 1) + DaysInMonth(y, m - 1)
  }

  function DaysBeforeYear(y: int): int
    requires y >= 1
  {
    var p := y - 1;
    p * 365 + p / 4 - p / 100 + p / 400
  }

  /** date.toordinal(): 1 January of year 1 is day 1. */
  function DayNumber(d: Date): int
    requires Valid(d)
  {
    DaysBeforeYear(d.year) + DaysBeforeMonth(d.year, d.month) + d.day
  }

  /** (b - a).days for two dates. */
  function DaysBetween(a: Date, b: Date): int
    requires Valid(a) && Valid(b)
  {
    DayNumber(b) - DayNumber(a)
  }

  /** a < b on date objects: year, then month, then day. */
  predicate Before(a: Date, b: Date) {
    a.year < b.year
    || (a.year == b.year && (a.month < b.month || (a.month == b.month && a.day < b.day)))
  }

  lemma DaysBeforeYearStep(y: int)
    requires y >= 1
    ensures DaysBeforeYear(y + 1) == DaysBeforeYear(y) + DaysInYear(y)
  {
    var p := y - 1;
    assert y / 4 == p / 4 + (if y % 4 == 0 then 1 else 0);
    assert y / 100 == p / 100 + (if y % 100 == 0 then 1 else 0);
    assert y / 400 == p / 400 + (if y % 400 == 0 then 1 else 0);
  }

  /** The days of the months before December, which with December's 31 make
      up the year. */
  lemma DaysBeforeDecember(y: int)
    ensures DaysBeforeMonth(y, 12) + DaysInMonth(y, 12) == DaysInYear(y)
  {
    assert DaysBeforeMonth(y, 2) == 31;
    assert DaysBeforeMonth(y, 3) == 31 + DaysInMonth(y, 2);
    assert DaysBeforeMonth(y, 4) == 62 + DaysInMonth(y, 2);
    assert DaysBeforeMonth(y, 5) == 92 + DaysInMonth(y, 2);
    assert DaysBeforeMonth(y, 6) == 123 + DaysInMonth(y, 2);
    assert DaysBeforeMonth(y, 7) == 153 + DaysInMonth(y, 2);
    assert DaysBeforeMonth(y, 8) == 184 + DaysInMonth(y, 2);
    assert DaysBeforeMonth(y, 9) == 215 + DaysInMonth(y, 2);
    assert DaysBeforeMonth(y, 10) == 245 + DaysInMonth(y, 2);
    assert DaysBeforeMonth(y, 11) == 276 + DaysInMonth(y, 2);
    assert DaysBeforeMonth(y, 12) == 306 + DaysInMonth(y, 2);
  }

  lemma {:induction false} DaysBeforeYearMonotonic(y: int, z: int)
    requires 1 <= y <= z
    ensures DaysBeforeYear(y) + (z - y) * 365 <= DaysBeforeYear(z)
    decreases z - y
  {
    if y < z {
      DaysBeforeYearMonotonic(y + 1, z);
      DaysBeforeYearStep(y);
    }
  }

  lemma {:induction false} DaysBeforeMonthMonotonic(y: int, m: int, n: int)
    requires 1 <= m <= n <= 12
    ensures DaysBeforeMonth(y, m) + (n - m) * 28 <= DaysBeforeMonth(y, n)
    decreases n - m
  {
    if m < n {
      DaysBeforeMonthMonotonic(y, m, n - 1);
    }
  }

  /** Every day of a year falls within that year's day count. */
  lemma DayOfYearBound(d: Date)
    requires Valid(d)
    ensures 1 <= DaysBeforeMonth(d.year, d.month) + d.day <= DaysInYear(d.year)
  {
    DaysBeforeMonthMonotonic(d.year, 1, d.month);
    DaysBeforeDecember(d.year);
    if d.month < 12 {
      assert DaysBeforeMonth(d.year, d.month + 1) == DaysBeforeMonth(d.year, d.month) + DaysInMonth(d.year, d.month);
      DaysBeforeMonthMonotonic(d.year, d.month + 1, 12);
    }
  }

  lemma BeforeMeansSmallerDayNumber(a: Date, b: Date)
    requires Valid(a) && Valid(b) && Before(a, b)
    ensures DayNumber(a) < DayNumber(b)
  {
    if a.year < b.year {
      DayOfYearBound(a);
      DayOfYearBound(b);
      DaysBeforeYearStep(a.year);
      DaysBeforeYearMonotonic(a.year + 1, b.year);
    } else if a.month < b.month {
      DaysBeforeMonthMonotonic(a.year, a.month + 1, b.month);
    }
  }

  /** Comparing dates field by field is comparing their day numbers, so
      `>=` on dates and the sign of a day difference always agree. */
  lemma BeforeIffSmallerDayNumber(a: Date, b: Date)
    requires Valid(a) && Valid(b)
    ensures Before(a, b) <==> DayNumber(a) < DayNumber(b)
    ensures a == b <==> DayNumber(a) == DayNumber(b)
  {
    if Before(a, b) {
      BeforeMeansSmallerDayNumber(a, b);
    } else if Before(b, a) {
      BeforeMeansSmallerDayNumber(b, a);
    }
  }

  /** str(date): the ISO form YYYY-MM-DD, each field zero-padded. */
  function IsoFormat(d: Date): string
    requires Valid(d)
  {
    ZeroPad(NatToString(d.year), 4) + "-" + ZeroPad(NatToString(d.month), 2) + "-"
    + ZeroPad(NatToString(d.day), 2)
  }
}
