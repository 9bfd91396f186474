/** The cells of the month grid (Calendar.tsx:319-415): the events that start
    on each day, the two shown and the "more" line, the day's flags and its
    label. */
module DayCells {
  import opened Wrappers
  import opened Locales
  import opened CivilDate
  import opened TextFormat
  import opened DateFormat
  import opened CalendarGrid
  import opened Sequences

  /** The calendar's Event record (Calendar.tsx:30-42). An optional field is
      None when absent; the source tests it for truthiness, so Some("") and
      Some([]) count as absent too. */
  datatype Event = Event(
    id: string,
    title: string,
    startTime: DateTime,
    endTime: DateTime,
    category: Option<string>,
    priority: Option<string>,
    duration: Option<string>,
    location: Option<string>,
    description: Option<string>,
    tags: Option<seq<string>>,
    participants: Option<seq<string>>)

  /** isSameDay(event.startTime, day). */
  predicate OnDay(e: Event, d: Day) {
    e.startTime.day == d
  }

  /** events.filter(event => isSameDay(event.startTime, day)). */
  function DayEvents(events: seq<Event>, d: Day): (r: seq<Event>)
    ensures |r| <= |events|
    ensures forall e :: e in r <==> e in events && OnDay(e, d)
  {
    if events == [] then []
    else if OnDay(events[0], d) then [events[0]] + DayEvents(events[1..], d)
    else DayEvents(events[1..], d)
  }

  /** Every occurrence of an event starting on d is kept, and no other. */
  lemma {:induction false} DayEventsCount(events: seq<Event>, d: Day, e: Event)
    ensures multiset(DayEvents(events, d))[e] == if OnDay(e, d) then multiset(events)[e] else 0
  {
    if events != [] {
      DayEventsCount(events[1..], d, e);
      assert events == [events[0]] + events[1..];
    }
  }

  /** The day's events keep the order they have in the list of all events. */
  lemma {:induction false} DayEventsInOrder(events: seq<Event>, d: Day)
    ensures Subsequence(DayEvents(events, d), events)
  {
    if events != [] {
      DayEventsInOrder(events[1..], d);
      var rest := DayEvents(events[1..], d);
      if OnDay(events[0], d) {
        assert ([events[0]] + rest)[1..] == rest;
      } else if rest != [] {
        assert DayEvents(events, d) == rest;
      }
    }
  }

  /** Filtering a concatenation filters each part. */
  lemma {:induction false} DayEventsConcat(a: seq<Event>, b: seq<Event>, d: Day)
    ensures DayEvents(a + b, d) == DayEvents(a, d) + DayEvents(b, d)
  {
    if a != [] {
      assert (a + b)[1..] == a[1..] + b;
      DayEventsConcat(a[1..], b, d);
    } else {
      assert a + b == b;
    }
  }

  /** Two different grid cells never share an event: the grid has no repeated
      day and an event starts on one day only. */
  lemma EventInOneCell(events: seq<Event>, y: int, m: int, ws: WeekStart, i: int, j: int, e: Event)
    requires 1 <= m <= 12
    requires 0 <= i < |GridOf(y, m, ws)| && 0 <= j < |GridOf(y, m, ws)|
    requires e in DayEvents(events, GridOf(y, m, ws)[i]) && e in DayEvents(events, GridOf(y, m, ws)[j])
    ensures i == j
  {
    GridAscending(y, m, ws);
  }

  /** What a cell lists: the first events of the day and, when there are more,
      how many are not shown. */
  datatype CellList = CellList(shown: seq<Event>, more: Option<nat>)

  /** dayEvents.slice(0, 2) and the "{more} n-2" line shown when
      dayEvents.length > 2 (Calendar.tsx:375, 407-415). */
  function CellOf(dayEvents: seq<Event>): (c: CellList)
    ensures |c.shown| == if |dayEvents| < 2 then |dayEvents| else 2
    ensures c.shown <= dayEvents
    ensures c.more.Some? <==> |dayEvents| > 2
  {
    if |dayEvents| > 2 then CellList(dayEvents[..2], Some(|dayEvents| - 2))
    else CellList(dayEvents, None)
  }

  /** The shown events and the count on the "more" line add up to all the
      events of the day, and every shown event starts on that day. */
  lemma CellAccountsForAll(events: seq<Event>, d: Day)
    ensures var c := CellOf(DayEvents(events, d));
      && |c.shown| + (if c.more.Some? then c.more.value else 0) == |DayEvents(events, d)|
      && (forall e :: e in c.shown ==> e in events && OnDay(e, d))
  {
  }

  /** The per-cell flags (Calendar.tsx:321-325). Today is an input: the source
      reads the clock with new Date(). */
  datatype DayFlags = DayFlags(
    isSelected: bool, isToday: bool, isCurrentMonth: bool, isPast: bool, isFuture: bool)

  /** The local-time instant, in milliseconds since 1970-01-01 00:00, of
      h:mi:s.ms on day d: what setHours(h, mi, s, ms) makes of a Date on day d
      when every field is in range. It lies within the 86400000 milliseconds
      of day d, at the first of them exactly for 00:00:00.000 and at the last
      exactly for 23:59:59.999. The grid's days are at 00:00, since
      eachDayOfInterval starts each one at midnight. */
  function Instant(d: Day, h: int, mi: int, s: int, ms: int): (t: int)
    requires 0 <= h < 24 && 0 <= mi < 60 && 0 <= s < 60 && 0 <= ms < 1000
    ensures d * 86400000 <= t < (d + 1) * 86400000
    ensures t == d * 86400000 <==> h == 0 && mi == 0 && s == 0 && ms == 0
    ensures t == (d + 1) * 86400000 - 1 <==> h == 23 && mi == 59 && s == 59 && ms == 999
  {
    (((d * 24 + h) * 60 + mi) * 60 + s) * 1000 + ms
  }

  /** The flags as Calendar.tsx:321-325 computes them. isPast compares the
      cell's midnight with today's, made by setHours(0, 0, 0, 0); isFuture
      compares it with the last millisecond of today, made by
      setHours(23, 59, 59, 999). Both come down to comparing days. */
  function FlagsOf(day: Day, selected: Day, today: Day): (f: DayFlags)
    ensures f.isPast <==> day < today
    ensures f.isFuture <==> day > today
  {
    var at := Instant(day, 0, 0, 0, 0);
    DayFlags(day == selected, day == today, SameMonth(day, selected),
             at < Instant(today, 0, 0, 0, 0), at > Instant(today, 23, 59, 59, 999))
  }

  /** Every day is exactly one of past, today and future, and the selected day
      is always in the current month. */
  lemma FlagsConsistent(day: Day, selected: Day, today: Day)
    ensures var f := FlagsOf(day, selected, today);
      && (f.isPast <==> !f.isToday && !f.isFuture)
      && !(f.isToday && f.isFuture)
      && (f.isSelected ==> f.isCurrentMonth)
  {
  }

  /** The date in a cell (Calendar.tsx:364-367): 'd', or 'MMM d' in English and
      'M月d日' otherwise when the day is outside the current month and its month
      number differs from the selected one. */
  function DayLabel(day: Day, selected: Day, locale: Locale): (s: string)
    ensures |s| >= 1
  {
    var c := CivilOf(day);
    if !SameMonth(day, selected) && c.month != CivilOf(selected).month then
      if locale == En then MonthAbbrev(c.month) + " " + Decimal(c.day, 1)
      else Decimal(c.month, 1) + "月" + Decimal(c.day, 1) + "日"
    else Decimal(c.day, 1)
  }

  /** On the grid, a day is out of the current month exactly when its month
      number differs: the leading days belong to the month before and the
      trailing days to the month after. So a cell shows the long label exactly
      when it is outside the selected month. */
  lemma GridLabelIsLongOutsideMonth(selected: Day, ws: WeekStart, i: int)
    requires 0 <= i < |MonthGrid(selected, ws)|
    ensures var day := MonthGrid(selected, ws)[i];
      !SameMonth(day, selected) <==> CivilOf(day).month != CivilOf(selected).month
  {
    var c := CivilOf(selected);
    var y, m := c.year, c.month;
    var g := GridOf(y, m, ws);
    var day := g[i];
    var lead := LeadingDays(y, m, ws);
    GridMembership(y, m, ws, i);
    assert day == MonthStart(y, m) - lead + i;
    if i < lead {
      var p := PrevMonth(y, m);
      InMonth(day, p.year, p.month);
    } else if i >= lead + MonthLength(y, m) {
      GridLength(y, m, ws);
      var q := NextMonth(y, m);
      InMonth(day, q.year, q.month);
    }
  }
}
