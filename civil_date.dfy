/** Proleptic Gregorian civil dates and the days they name.

    A calendar day is represented by its day number: the count of days from
    1970-01-01 (negative before it), the way a JavaScript Date is a count of
    milliseconds. The civil (year, month, day) triple of a day is recovered by
    CivilOf; DayNumber goes the other way. Elsewhere a Date is the calendar day
    it falls on and its time of day; its local-time instant appears only where
    the source compares instants (DayCells.Instant). */
module CivilDate {

  datatype Date = Date(year: int, month: int, day: int)

  /** Days since 1970-01-01. */
  type Day = int

  type Hour = h: int | 0 <= h < 24
  type Minute = m: int | 0 <= m < 60

  /** A point in local time to the minute: a day and a time of day. */
  datatype DateTime = DateTime(day: Day, hour: Hour, minute: Minute)

  predicate IsLeapYear(y: int) {
    (y % 4 == 0 && y % 100 != 0) || y % 400 == 0
  }

  function YearLength(y: int): int {
    if IsLeapYear(y) then 366 else 365
  }

  function MonthLength(y: int, m: int): (n: int)
    requires 1 <= m <= 12
    ensures 28 <= n <= 31
    ensures n == 29 <==> m == 2 && IsLeapYear(y)
  {
    if m == 2 then (if IsLeapYear(y) then 29 else 28)
    else if m == 4 || m == 6 || m == 9 || m == 11 then 30
    else 31
  }

  predicate Valid(d: Date) {
    1 <= d.month <= 12 && 1 <= d.day <= MonthLength(d.year, d.month)
  }

  /** The day number of January 1st of year y. */
  function DaysBeforeYear(y: int): int
    decreases if y < 1970 then 1970 - y else y - 1970
  {
    if y == 1970 then 0
    else if y > 1970 then DaysBeforeYear(y - 1) + YearLength(y - 1)
    else DaysBeforeYear(y + 1) - YearLength(y)
  }

  /** The day number of the 1st of month m of year y. */
  function MonthStart(y: int, m: int): int
    requires 1 <= m <= 12
    decreases m
  {
    if m == 1 then DaysBeforeYear(y) else MonthStart(y, m - 1) + MonthLength(y, m - 1)
  }

  /** The day number of a date: 0 for 1970-01-01, negative before it. */
  function DayNumber(d: Date): Day
    requires Valid(d)
  {
    MonthStart(d.year, d.month) + d.day - 1
  }

  /** The weekday of a day, 0 for Sunday up to 6 for Saturday
      (the numbering of Date.prototype.getDay); 1970-01-01 was a Thursday. */
  function Weekday(n: Day): (w: int)
    ensures 0 <= w < 7
  {
    (n + 4) % 7
  }

  lemma DaysBeforeNextYear(y: int)
    ensures DaysBeforeYear(y + 1) == DaysBeforeYear(y) + YearLength(y)
  {
  }

  /** The last day of December is the day before January 1st of the next year. */
  lemma {:induction false} YearEnd(y: int)
    ensures MonthStart(y, 12) + MonthLength(y, 12) == DaysBeforeYear(y + 1)
  {
    DaysBeforeNextYear(y);
    var ly := if IsLeapYear(y) then 1 else 0;
    assert MonthStart(y, 3) == DaysBeforeYear(y) + 59 + ly;
    assert MonthStart(y, 6) == MonthStart(y, 3) + 92;
    assert MonthStart(y, 9) == MonthStart(y, 6) + 92;
    assert MonthStart(y, 12) == MonthStart(y, 9) + 91;
  }

  /** Months follow each other within a year. */
  lemma {:induction false} MonthStartMonotone(y: int, m1: int, m2: int)
    requires 1 <= m1 < m2 <= 12
    ensures MonthStart(y, m1) + MonthLength(y, m1) <= MonthStart(y, m2)
    decreases m2
  {
    if m1 + 1 < m2 {
      MonthStartMonotone(y, m1, m2 - 1);
    }
  }

  /** Every valid date of year y has a day number in [DaysBeforeYear(y), DaysBeforeYear(y + 1)). */
  lemma DayNumberInYear(d: Date)
    requires Valid(d)
    ensures DaysBeforeYear(d.year) <= DayNumber(d) < DaysBeforeYear(d.year + 1)
  {
    if d.month > 1 {
      MonthStartMonotone(d.year, 1, d.month);
    }
    if d.month < 12 {
      MonthStartMonotone(d.year, d.month, 12);
    }
    YearEnd(d.year);
  }

  lemma {:induction false} DaysBeforeYearMonotone(y1: int, y2: int)
    requires y1 < y2
    ensures DaysBeforeYear(y1 + 1) <= DaysBeforeYear(y2)
    decreases y2 - y1
  {
    if y1 + 1 < y2 {
      DaysBeforeYearMonotone(y1, y2 - 1);
      DaysBeforeNextYear(y2 - 1);
    }
  }

  /** Two valid dates have the same day number exactly when they are the same date. */
  lemma DayNumberInjective(a: Date, b: Date)
    requires Valid(a) && Valid(b)
    ensures DayNumber(a) == DayNumber(b) <==> a == b
  {
    DayNumberInYear(a);
    DayNumberInYear(b);
    if a.year < b.year {
      DaysBeforeYearMonotone(a.year, b.year);
    } else if b.year < a.year {
      DaysBeforeYearMonotone(b.year, a.year);
    } else if a.month < b.month {
      MonthStartMonotone(a.year, a.month, b.month);
    } else if b.month < a.month {
      MonthStartMonotone(a.year, b.month, a.month);
    }
  }

  /** The year holding day n, searching upwards from year y. */
  function YearUp(n: Day, y: int): (r: int)
    requires DaysBeforeYear(y) <= n
    ensures DaysBeforeYear(r) <= n < DaysBeforeYear(r + 1)
    decreases n - DaysBeforeYear(y)
  {
    DaysBeforeNextYear(y);
    if n < DaysBeforeYear(y + 1) then y else YearUp(n, y + 1)
  }

  /** The year holding day n, searching downwards from year y. */
  function YearDown(n: Day, y: int): (r: int)
    requires n < DaysBeforeYear(y + 1)
    ensures DaysBeforeYear(r) <= n < DaysBeforeYear(r + 1)
    decreases DaysBeforeYear(y + 1) - n
  {
    DaysBeforeNextYear(y);
    if DaysBeforeYear(y) <= n then y else YearDown(n, y - 1)
  }

  /** The year holding day n. */
  function YearOf(n: Day): (r: int)
    ensures DaysBeforeYear(r) <= n < DaysBeforeYear(r + 1)
  {
    if n >= 0 then YearUp(n, 1970) else YearDown(n, 1969)
  }

  /** The month of year y holding day n, searching upwards from month m. */
  function MonthIn(y: int, n: Day, m: int): (r: int)
    requires 1 <= m <= 12 && MonthStart(y, m) <= n < DaysBeforeYear(y + 1)
    ensures 1 <= r <= 12 && MonthStart(y, r) <= n < MonthStart(y, r) + MonthLength(y, r)
    decreases 12 - m
  {
    if m == 12 then YearEnd(y); m
    else if n < MonthStart(y, m + 1) then m
    else MonthIn(y, n, m + 1)
  }

  /** The civil date of day n. */
  function CivilOf(n: Day): (d: Date)
    ensures Valid(d) && DayNumber(d) == n
  {
    var y := YearOf(n);
    var m := MonthIn(y, n, 1);
    Date(y, m, n - MonthStart(y, m) + 1)
  }

  /** CivilOf inverts DayNumber: every valid date is the civil date of its day number. */
  lemma CivilOfDayNumber(d: Date)
    requires Valid(d)
    ensures CivilOf(DayNumber(d)) == d
  {
    DayNumberInjective(CivilOf(DayNumber(d)), d);
  }

  /** Day n falls in month m of year y exactly when it lies between the 1st and
      the last day of that month; it is then day n - MonthStart(y, m) + 1. */
  lemma InMonth(n: Day, y: int, m: int)
    requires 1 <= m <= 12
    ensures (CivilOf(n).year == y && CivilOf(n).month == m)
        <==> MonthStart(y, m) <= n < MonthStart(y, m) + MonthLength(y, m)
    ensures MonthStart(y, m) <= n < MonthStart(y, m) + MonthLength(y, m)
        ==> CivilOf(n) == Date(y, m, n - MonthStart(y, m) + 1)
  {
    var c := CivilOf(n);
    if c.year == y && c.month == m {
      assert n == MonthStart(y, m) + c.day - 1;
    }
    if MonthStart(y, m) <= n < MonthStart(y, m) + MonthLength(y, m) {
      var d := Date(y, m, n - MonthStart(y, m) + 1);
      assert DayNumber(d) == n;
      DayNumberInjective(c, d);
    }
  }
}
