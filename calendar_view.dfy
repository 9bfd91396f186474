/** The Calendar component's state and handlers (Calendar.tsx:54-207): the
    selected day, the event list, the busy flag and error of the diary export,
    and what it sends and saves. The clock and the endpoint are inputs. */
module CalendarView {
  import opened Wrappers
  import opened Locales
  import opened CivilDate
  import opened CalendarGrid
  import opened DayCells
  import opened Diary

  /** One request to the diary endpoint, named by what it is built from: the
      locale and the events of the day. Its system message and its prompt are
      the texts below. */
  datatype Request = Request(locale: Locale, dayEvents: seq<Event>)
  {
    function System(): string {
      SystemMessage(locale)
    }

    function Body(): string {
      Prompt(locale, dayEvents)
    }
  }

  /** A file handed to the browser for download. */
  datatype Download = Download(fileName: string, text: string)

  function NoEventsMessage(locale: Locale): string {
    if locale == En then "No events scheduled for the selected date" else "所选日期没有日程安排"
  }

  function ExportFailedMessage(locale: Locale): string {
    if locale == En then "Error generating diary, please try again later" else "生成日记时出错，请稍后重试"
  }

  /** The two messages the export can show are different. */
  lemma ExportMessagesDiffer(locale: Locale)
    ensures NoEventsMessage(locale) != ExportFailedMessage(locale)
  {
    assert |NoEventsMessage(locale)| < |ExportFailedMessage(locale)|;
  }

  class Calendar {
    /** From the auth context, and the week start of its date-fns locale. */
    const locale: Locale
    const weekStart: WeekStart
    /** API_CONFIG.API_KEY. */
    const apiKey: Option<string>

    var selected: Day
    var events: seq<Event>
    var isGenerating: bool
    var error: Option<string>
    /** Every request sent to the endpoint, oldest first. */
    var requests: seq<Request>
    /** Every file handed out for download, oldest first. */
    var downloads: seq<Download>

    /** useState(new Date()), useState([]), useState(false), useState(null). */
    constructor(locale: Locale, weekStart: WeekStart, apiKey: Option<string>, today: Day)
      ensures this.locale == locale && this.weekStart == weekStart && this.apiKey == apiKey
      ensures selected == today && events == [] && !isGenerating && error == None
      ensures requests == [] && downloads == []
    {
      this.locale := locale;
      this.weekStart := weekStart;
      this.apiKey := apiKey;
      selected := today;
      events := [];
      isGenerating := false;
      error := None;
      requests := [];
      downloads := [];
    }

    /** The days on screen (Calendar.tsx:209-213). */
    function Days(): seq<Day>
      reads this
    {
      MonthGrid(selected, weekStart)
    }

    /** What the i-th cell lists (Calendar.tsx:320, 375, 407). */
    function Cell(i: int): (c: CellList)
      reads this
      requires 0 <= i < |Days()|
      ensures forall e :: e in c.shown ==> e in events && OnDay(e, Days()[i])
    {
      CellOf(DayEvents(events, Days()[i]))
    }

    /** The selected day is always on screen, and exactly one cell is marked
        selected, whatever day today is. */
    lemma SelectedOnScreen(today: Day)
      ensures selected in Days()
      ensures exists i :: 0 <= i < |Days()| && FlagsOf(Days()[i], selected, today).isSelected
      ensures forall i, j ::
        (0 <= i < |Days()| && 0 <= j < |Days()| &&
         FlagsOf(Days()[i], selected, today).isSelected && FlagsOf(Days()[j], selected, today).isSelected) ==> i == j
    {
      MonthGridHoldsSelected(selected, weekStart);
      var c := CivilOf(selected);
      GridAscending(c.year, c.month, weekStart);
      var i :| 0 <= i < |Days()| && Days()[i] == selected;
      assert FlagsOf(Days()[i], selected, today).isSelected;
    }

    /** handleDayClick. */
    method SelectDay(d: Day)
      modifies this
      ensures selected == d
      ensures events == old(events) && isGenerating == old(isGenerating) && error == old(error)
      ensures requests == old(requests) && downloads == old(downloads)
    {
      selected := d;
    }

    /** The Today button: setSelectedDate(new Date()). */
    method GoToToday(today: Day)
      modifies this
      ensures selected == today
      ensures events == old(events) && isGenerating == old(isGenerating) && error == old(error)
      ensures requests == old(requests) && downloads == old(downloads)
    {
      selected := today;
    }

    /** navigateDate: the 1st of the month before or after the selected one. */
    method Navigate(dir: Direction)
      modifies this
      ensures selected == NavigateTarget(old(selected), dir)
      ensures events == old(events) && isGenerating == old(isGenerating) && error == old(error)
      ensures requests == old(requests) && downloads == old(downloads)
    {
      selected := NavigateTarget(selected, dir);
    }

    /** generateDiaryContent: builds the prompt, sends it when a key is set, and
        classifies the reply. No request goes out without a key. */
    method GenerateDiaryContent(dayEvents: seq<Event>, reply: Reply) returns (r: Result<string, GenError>)
      modifies this
      ensures r == Classify(apiKey, reply)
      ensures requests == old(requests) + (if HasKey(apiKey) then [Request(locale, dayEvents)] else [])
      ensures selected == old(selected) && events == old(events) && isGenerating == old(isGenerating)
      ensures error == old(error) && downloads == old(downloads)
    {
      var request := Request(locale, dayEvents);
      if !HasKey(apiKey) {
        r := Err(MissingKey);
      } else {
        requests := requests + [request];
        if reply.NetworkFailure? {
          r := Err(Thrown);
        } else if !reply.ok {
          r := Err(RequestFailed(reply.status, reply.statusText));
        } else if reply.body.None? {
          r := Err(Thrown);
        } else if reply.body.value.error.Some? {
          r := Err(ApiError(reply.body.value.error.value.message));
        } else if !Present(reply.body.value.content) {
          r := Err(NoContent);
        } else {
          r := Ok(reply.body.value.content.value);
        }
      }
    }

    /** handleExportDiary (Calendar.tsx:151-195). The error is cleared first; a
        day without events sets the no-events message and asks nothing of the
        endpoint; any failure of the generator sets the one generic message; a
        success hands out `diary-yyyy-MM-dd.txt` holding the header and the
        diary; the busy flag is down at the end. */
    method ExportDiary(reply: Reply)
      modifies this
      ensures !isGenerating
      ensures selected == old(selected) && events == old(events)
      ensures var dayEvents := DayEvents(events, selected);
        if dayEvents == [] then
          && error == Some(NoEventsMessage(locale))
          && requests == old(requests) && downloads == old(downloads)
        else
          && requests == old(requests) + (if HasKey(apiKey) then [Request(locale, dayEvents)] else [])
          && match Classify(apiKey, reply)
               case Ok(content) =>
                 && error == None
                 && downloads == old(downloads) + [Download(DiaryFileName(selected), DiaryText(locale, selected, content))]
               case Err(_) =>
                 && error == Some(ExportFailedMessage(locale))
                 && downloads == old(downloads)
    {
      isGenerating := true;
      error := None;
      var dayEvents := DayEvents(events, selected);
      if |dayEvents| == 0 {
        error := Some(NoEventsMessage(locale));
      } else {
        var r := GenerateDiaryContent(dayEvents, reply);
        if r.Ok? {
          downloads := downloads + [Download(DiaryFileName(selected), DiaryText(locale, selected, r.value))];
        } else {
          error := Some(ExportFailedMessage(locale));
        }
      }
      isGenerating := false;
    }
  }

  /** As written, nothing ever fills the event list of the calendar, so an
      export from a freshly mounted calendar always reports that the day has
      no events and never reaches the endpoint, whatever it would reply. */
  method FreshExportFindsNoEvents(locale: Locale, weekStart: WeekStart, apiKey: Option<string>, today: Day, reply: Reply)
    returns (err: Option<string>, sent: nat, saved: nat)
    ensures err == Some(NoEventsMessage(locale)) && sent == 0 && saved == 0
  {
    var cal := new Calendar(locale, weekStart, apiKey, today);
    cal.ExportDiary(reply);
    err, sent, saved := cal.error, |cal.requests|, |cal.downloads|;
  }
}
