/** The visible month of the calendar (Calendar.tsx:201-213): the run of days
    from the start of the week holding the 1st to the end of the week holding
    the last day of the month, and the step to the adjacent month. */
module CalendarGrid {
  import opened CivilDate

  /** The weekday a week starts on, 0 = Sunday. It comes from the date-fns
      locale of the interface language, whose data is not part of this model. */
  type WeekStart = w: int | 0 <= w < 7

  /** Weekdays advance with days, modulo 7. */
  lemma WeekdayShift(a: Day, k: int)
    ensures Weekday(a + k) == (Weekday(a) + k) % 7
  {
    var q := (a + 4) / 7;
    assert a + 4 == 7 * q + Weekday(a);
    assert (a + k + 4) - (Weekday(a) + k) == 7 * q;
  }

  /** startOfWeek: the latest day on or before n that falls on weekday ws. */
  function StartOfWeek(n: Day, ws: WeekStart): (r: Day)
    ensures r <= n < r + 7 && Weekday(r) == ws
  {
    var r := n - (Weekday(n) - ws) % 7;
    WeekStartBefore(n, ws, r);
    r
  }

  lemma WeekStartBefore(n: Day, ws: WeekStart, r: Day)
    requires r == n - (Weekday(n) - ws) % 7
    ensures r <= n < r + 7 && Weekday(r) == ws
  {
    WeekdayShift(n, r - n);
  }

  /** No day after the start of the week, up to n, falls on weekday ws. */
  lemma StartOfWeekLatest(n: Day, ws: WeekStart)
    ensures forall x :: StartOfWeek(n, ws) < x <= n ==> Weekday(x) != ws
  {
    var r := StartOfWeek(n, ws);
    forall x | r < x <= n
      ensures Weekday(x) != ws
    {
      WeekdayShift(r, x - r);
    }
  }

  /** endOfWeek: the earliest day on or after n that falls on the weekday before ws. */
  function EndOfWeek(n: Day, ws: WeekStart): (r: Day)
    ensures n <= r < n + 7 && Weekday(r) == (ws + 6) % 7
  {
    var r := n + (ws + 6 - Weekday(n)) % 7;
    WeekEndAfter(n, ws, r);
    r
  }

  lemma WeekEndAfter(n: Day, ws: WeekStart, r: Day)
    requires r == n + (ws + 6 - Weekday(n)) % 7
    ensures n <= r < n + 7 && Weekday(r) == (ws + 6) % 7
  {
    WeekdayShift(n, r - n);
  }

  /** No day from n up to the end of the week falls on weekday (ws + 6) % 7
      before the end itself. */
  lemma EndOfWeekEarliest(n: Day, ws: WeekStart)
    ensures forall x :: n <= x < EndOfWeek(n, ws) ==> Weekday(x) != (ws + 6) % 7
  {
    var r := EndOfWeek(n, ws);
    forall x | n <= x < r
      ensures Weekday(x) != (ws + 6) % 7
    {
      WeekdayShift(x, r - x);
    }
  }

  /** isSameMonth */
  predicate SameMonth(a: Day, b: Day) {
    CivilOf(a).year == CivilOf(b).year && CivilOf(a).month == CivilOf(b).month
  }

  /** startOfMonth: the 1st of the month holding n. */
  function FirstOfMonth(n: Day): (r: Day)
    ensures CivilOf(r) == Date(CivilOf(n).year, CivilOf(n).month, 1)
    ensures r <= n < r + MonthLength(CivilOf(n).year, CivilOf(n).month)
  {
    var c := CivilOf(n);
    CivilOfDayNumber(Date(c.year, c.month, 1));
    MonthStart(c.year, c.month)
  }

  /** endOfMonth, as a calendar day: the last day of month m of year y. */
  function LastDay(y: int, m: int): (r: Day)
    requires 1 <= m <= 12
    ensures CivilOf(r) == Date(y, m, MonthLength(y, m))
  {
    CivilOfDayNumber(Date(y, m, MonthLength(y, m)));
    MonthStart(y, m) + MonthLength(y, m) - 1
  }

  /** The number of days on the grid of month m of year y before its 1st. */
  function LeadingDays(y: int, m: int, ws: WeekStart): (k: int)
    requires 1 <= m <= 12
    ensures 0 <= k < 7
  {
    MonthStart(y, m) - StartOfWeek(MonthStart(y, m), ws)
  }

  /** The number of days on the grid of month m of year y after its last day. */
  function TrailingDays(y: int, m: int, ws: WeekStart): (k: int)
    requires 1 <= m <= 12
    ensures 0 <= k < 7
  {
    EndOfWeek(LastDay(y, m), ws) - LastDay(y, m)
  }

  /** Two weekdays are equal exactly when their difference is 0 mod 7. */
  lemma ResidueGapZero(w: int, v: int)
    requires 0 <= w < 7 && 0 <= v < 7
    ensures (w - v) % 7 == 0 <==> w == v
  {
  }

  /** startOfWeek goes back (weekday - ws) mod 7 days, and stays put exactly on weekday ws. */
  lemma StartOfWeekOffset(n: Day, ws: WeekStart)
    ensures n - StartOfWeek(n, ws) == (Weekday(n) - ws) % 7
    ensures StartOfWeek(n, ws) == n <==> Weekday(n) == ws
  {
    ResidueGapZero(Weekday(n), ws);
  }

  /** endOfWeek goes forward (ws + 6 - weekday) mod 7 days, and stays put exactly
      on weekday (ws + 6) mod 7. */
  lemma EndOfWeekOffset(n: Day, ws: WeekStart)
    ensures EndOfWeek(n, ws) - n == (ws + 6 - Weekday(n)) % 7
    ensures EndOfWeek(n, ws) == n <==> Weekday(n) == (ws + 6) % 7
  {
    var w := Weekday(n);
    ResidueGapZero((ws + 6) % 7, w);
    assert (ws + 6 - w) % 7 == ((ws + 6) % 7 - w) % 7;
  }

  /** The leading days are (weekday(1st) - ws) mod 7, so a month that starts on
      the week-start weekday has none. */
  lemma LeadingDaysFormula(y: int, m: int, ws: WeekStart)
    requires 1 <= m <= 12
    ensures LeadingDays(y, m, ws) == (Weekday(MonthStart(y, m)) - ws) % 7
    ensures LeadingDays(y, m, ws) == 0 <==> Weekday(MonthStart(y, m)) == ws
  {
    StartOfWeekOffset(MonthStart(y, m), ws);
  }

  /** The trailing days are (ws + 6 - weekday(last day)) mod 7, so a month that
      ends on the last weekday of the week has none. */
  lemma TrailingDaysFormula(y: int, m: int, ws: WeekStart)
    requires 1 <= m <= 12
    ensures TrailingDays(y, m, ws) == (ws + 6 - Weekday(LastDay(y, m))) % 7
    ensures TrailingDays(y, m, ws) == 0 <==> Weekday(LastDay(y, m)) == (ws + 6) % 7
  {
    EndOfWeekOffset(LastDay(y, m), ws);
  }

  /** eachDayOfInterval from the start of the week holding a to the end of the
      week holding b. */
  function Span(a: Day, b: Day, ws: WeekStart): (g: seq<Day>)
    requires a <= b
    ensures |g| == EndOfWeek(b, ws) - StartOfWeek(a, ws) + 1
    ensures forall i :: 0 <= i < |g| ==> g[i] == StartOfWeek(a, ws) + i
  {
    var first := StartOfWeek(a, ws);
    seq(EndOfWeek(b, ws) - first + 1, i => first + i)
  }

  /** A span starts on weekday ws and ends on weekday (ws + 6) % 7. */
  lemma SpanEnds(a: Day, b: Day, ws: WeekStart)
    requires a <= b
    ensures var g := Span(a, b, ws);
      && g[0] == StartOfWeek(a, ws) && g[|g| - 1] == EndOfWeek(b, ws)
      && Weekday(g[0]) == ws && Weekday(g[|g| - 1]) == (ws + 6) % 7
  {
  }

  /** A run of k + 1 days from weekday ws to weekday (ws + 6) % 7 is a whole
      number of weeks. */
  lemma WholeWeeks(ws: WeekStart, k: int)
    requires k >= 0 && (ws + k) % 7 == (ws + 6) % 7
    ensures (k + 1) % 7 == 0
  {
    var q := (ws + k) / 7;
    assert ws + k == 7 * q + (ws + 6) % 7;
    if ws == 0 {
      assert k + 1 == 7 * (q + 1);
    } else {
      assert k + 1 == 7 * q - 7 + 7;
    }
  }

  /** A span is a whole number of weeks. */
  lemma SpanWeeks(a: Day, b: Day, ws: WeekStart)
    requires a <= b
    ensures |Span(a, b, ws)| % 7 == 0
  {
    var first := StartOfWeek(a, ws);
    var k := EndOfWeek(b, ws) - first;
    WeekdayShift(first, k);
    WholeWeeks(ws, k);
  }

  /** The days shown for month m of year y (Calendar.tsx:209-213): from the
      start of the week of the 1st to the end of the week of the last day. */
  function GridOf(y: int, m: int, ws: WeekStart): (g: seq<Day>)
    requires 1 <= m <= 12
    ensures |g| > 0
  {
    Span(MonthStart(y, m), LastDay(y, m), ws)
  }

  /** The grid runs from the start of the week of the 1st (weekday ws) to the
      end of the week of the last day (weekday (ws + 6) % 7). */
  lemma GridEnds(y: int, m: int, ws: WeekStart)
    requires 1 <= m <= 12
    ensures var g := GridOf(y, m, ws);
      && g[0] == StartOfWeek(MonthStart(y, m), ws)
      && g[|g| - 1] == EndOfWeek(LastDay(y, m), ws)
      && Weekday(g[0]) == ws && Weekday(g[|g| - 1]) == (ws + 6) % 7
  {
    SpanEnds(MonthStart(y, m), LastDay(y, m), ws);
  }

  /** The grid is a strictly ascending run of consecutive days, so no day
      appears twice. */
  lemma GridAscending(y: int, m: int, ws: WeekStart)
    requires 1 <= m <= 12
    ensures var g := GridOf(y, m, ws);
      && (forall i :: 0 < i < |g| ==> g[i] == g[i - 1] + 1)
      && (forall i, j :: 0 <= i < j < |g| ==> g[i] < g[j])
  {
  }

  /** The grid is 4 to 6 whole weeks: leading days, the month, trailing days. */
  lemma GridLength(y: int, m: int, ws: WeekStart)
    requires 1 <= m <= 12
    ensures var n := |GridOf(y, m, ws)|;
      && n == LeadingDays(y, m, ws) + MonthLength(y, m) + TrailingDays(y, m, ws)
      && n % 7 == 0 && 28 <= n <= 42
  {
    var a, b := MonthStart(y, m), LastDay(y, m);
    SpanWeeks(a, b, ws);
    var n := |GridOf(y, m, ws)|;
    var lead, len, trail := LeadingDays(y, m, ws), MonthLength(y, m), TrailingDays(y, m, ws);
    assert n == lead + len + trail;
    WeeksBetween(n, lead, len, trail);
  }

  /** Whole weeks made of fewer than 7 days on each side of 28 to 31 days are
      4 to 6 weeks. */
  lemma WeeksBetween(n: int, lead: int, len: int, trail: int)
    requires n == lead + len + trail && n % 7 == 0
    requires 0 <= lead < 7 && 0 <= trail < 7 && 28 <= len <= 31
    ensures 28 <= n <= 42
  {
  }

  /** The i-th grid day is in month m of year y exactly when it comes after the
      leading days and before the trailing ones; it is then day i - leading + 1. */
  lemma GridMembership(y: int, m: int, ws: WeekStart, i: int)
    requires 1 <= m <= 12 && 0 <= i < |GridOf(y, m, ws)|
    ensures var g := GridOf(y, m, ws);
      var lead := LeadingDays(y, m, ws);
      && (CivilOf(g[i]).year == y && CivilOf(g[i]).month == m <==> lead <= i < lead + MonthLength(y, m))
      && (lead <= i < lead + MonthLength(y, m) ==> CivilOf(g[i]) == Date(y, m, i - lead + 1))
  {
    var g := GridOf(y, m, ws);
    assert g[i] == MonthStart(y, m) - LeadingDays(y, m, ws) + i;
    InMonth(g[i], y, m);
  }

  /** Every day of month m of year y is on its grid. */
  lemma GridCoversMonth(y: int, m: int, ws: WeekStart, d: Day)
    requires 1 <= m <= 12 && CivilOf(d).year == y && CivilOf(d).month == m
    ensures d in GridOf(y, m, ws)
  {
    InMonth(d, y, m);
    var i := d - StartOfWeek(MonthStart(y, m), ws);
    GridLength(y, m, ws);
    assert GridOf(y, m, ws)[i] == d;
  }

  /** The grid shown while day selected is selected. */
  function MonthGrid(selected: Day, ws: WeekStart): seq<Day> {
    GridOf(CivilOf(selected).year, CivilOf(selected).month, ws)
  }

  /** The grid shown for day selected holds exactly the days of its month at
      positions LeadingDays up to LeadingDays + the month length, and every such
      cell is in the selected month. */
  lemma MonthGridSameMonth(selected: Day, ws: WeekStart, i: int)
    requires 0 <= i < |MonthGrid(selected, ws)|
    ensures var c := CivilOf(selected);
      var lead := LeadingDays(c.year, c.month, ws);
      SameMonth(MonthGrid(selected, ws)[i], selected) <==> lead <= i < lead + MonthLength(c.year, c.month)
  {
    var c := CivilOf(selected);
    GridMembership(c.year, c.month, ws, i);
  }

  /** The selected day is itself on its grid. */
  lemma MonthGridHoldsSelected(selected: Day, ws: WeekStart)
    ensures selected in MonthGrid(selected, ws)
  {
    var c := CivilOf(selected);
    GridCoversMonth(c.year, c.month, ws, selected);
  }

  datatype Direction = Prev | Next

  /** The 1st of the month before month m of year y; it ends the day before the
      1st of month m. */
  function PrevMonth(y: int, m: int): (r: Date)
    requires 1 <= m <= 12
    ensures Valid(r) && r.day == 1
    ensures MonthStart(r.year, r.month) + MonthLength(r.year, r.month) == MonthStart(y, m)
  {
    if m == 1 then YearEnd(y - 1); Date(y - 1, 12, 1) else Date(y, m - 1, 1)
  }

  /** The 1st of the month after month m of year y; it starts the day after the
      last day of month m. */
  function NextMonth(y: int, m: int): (r: Date)
    requires 1 <= m <= 12
    ensures Valid(r) && r.day == 1
    ensures MonthStart(r.year, r.month) == MonthStart(y, m) + MonthLength(y, m)
  {
    if m == 12 then YearEnd(y); Date(y + 1, 1, 1) else Date(y, m + 1, 1)
  }

  /** Going back a month and then forward, or forward and then back, returns to
      the 1st of the month; the year changes only between December and January. */
  lemma MonthStepRoundTrip(y: int, m: int)
    requires 1 <= m <= 12
    ensures NextMonth(PrevMonth(y, m).year, PrevMonth(y, m).month) == Date(y, m, 1)
    ensures PrevMonth(NextMonth(y, m).year, NextMonth(y, m).month) == Date(y, m, 1)
    ensures PrevMonth(y, m).year == (if m == 1 then y - 1 else y)
    ensures NextMonth(y, m).year == (if m == 12 then y + 1 else y)
  {
  }

  /** The 1st of the month before or after the month of date c. */
  function StepMonth(c: Date, dir: Direction): (r: Date)
    requires Valid(c)
    ensures Valid(r) && r.day == 1
  {
    match dir
    case Prev => PrevMonth(c.year, c.month)
    case Next => NextMonth(c.year, c.month)
  }

  /** navigateDate: setMonth(getMonth() -/+ 1) on the 1st of the month holding
      n, which can never overflow into a third month. */
  function NavigateTarget(n: Day, dir: Direction): Day {
    DayNumber(StepMonth(CivilOf(n), dir))
  }

  /** Navigation lands on the 1st of the month before or after. */
  lemma NavigateLandsOnFirst(n: Day, dir: Direction)
    ensures CivilOf(NavigateTarget(n, dir)) == StepMonth(CivilOf(n), dir)
    ensures CivilOf(NavigateTarget(n, dir)).day == 1
  {
    CivilOfDayNumber(StepMonth(CivilOf(n), dir));
  }

  /** Navigating back and then forward, or forward and then back, lands on the
      1st of the original month. */
  lemma NavigateRoundTrip(n: Day)
    ensures NavigateTarget(NavigateTarget(n, Prev), Next) == FirstOfMonth(n)
    ensures NavigateTarget(NavigateTarget(n, Next), Prev) == FirstOfMonth(n)
  {
    var c := CivilOf(n);
    MonthStepRoundTrip(c.year, c.month);
    NavigateLandsOnFirst(n, Prev);
    NavigateLandsOnFirst(n, Next);
    NavigateLandsOnFirst(NavigateTarget(n, Prev), Next);
    NavigateLandsOnFirst(NavigateTarget(n, Next), Prev);
  }
}
