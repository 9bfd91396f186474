/** The diary export of the calendar (Calendar.tsx:62-195): the prompt built
    from the day's events, the chain of checks that turns the endpoint's reply
    into diary text or a failure, and the name and header of the file. */
module Diary {
  import opened Wrappers
  import opened Locales
  import opened CivilDate
  import opened TextFormat
  import opened DateFormat
  import opened DayCells

  /** A string field the template tests for truthiness: absent and '' are both false. */
  predicate Present(v: Option<string>) {
    v.Some? && v.value != ""
  }

  /** `list?.length`: absent and [] are both false. */
  predicate PresentList(v: Option<seq<string>>) {
    v.Some? && |v.value| > 0
  }

  /** The field labels of one event block. */
  datatype Labels = Labels(
    time: string, title: string, category: string, priority: string,
    location: string, participants: string, tags: string, description: string)

  /** Any locale other than 'en' gets the Chinese template, zh-TW included. */
  function LabelsOf(locale: Locale): Labels {
    if locale == En then
      Labels("Time: ", "Title: ", "Category: ", "Priority: ",
             "Location: ", "Participants: ", "Tags: ", "Description: ")
    else
      Labels("时间：", "标题：", "类别：", "优先级：",
             "地点：", "参与人：", "标签：", "描述：")
  }

  /** `${field ? `Label: ${field}\n` : ''}` */
  function OptionalLine(caption: string, v: Option<string>): (s: string)
    ensures s == "" <==> !Present(v)
  {
    if Present(v) then caption + v.value + "\n" else ""
  }

  /** `${list?.length ? `Label: ${list.join(', ')}\n` : ''}` */
  function ListLine(caption: string, v: Option<seq<string>>): (s: string)
    ensures s == "" <==> !PresentList(v)
  {
    if PresentList(v) then caption + Join(v.value, ", ") + "\n" else ""
  }

  /** The text one event contributes to the prompt, with labels l
      (Calendar.tsx:66-69, 73-76). */
  function Block(l: Labels, e: Event): string {
    "\n" + (l.time + Clock(e.startTime) + " - " + Clock(e.endTime)) + "\n"
    + (l.title + e.title) + "\n"
    + OptionalLine(l.category, e.category)
    + OptionalLine(l.priority, e.priority)
    + OptionalLine(l.location, e.location)
    + ListLine(l.participants, e.participants)
    + ListLine(l.tags, e.tags)
    + (if Present(e.description) then l.description + e.description.value else "")
  }

  /** The block of e in the template of locale. */
  function EventBlock(locale: Locale, e: Event): string {
    Block(LabelsOf(locale), e)
  }

  /** events.map(block) */
  function EventBlocks(locale: Locale, events: seq<Event>): (bs: seq<string>)
    ensures |bs| == |events|
    ensures forall i :: 0 <= i < |events| ==> bs[i] == EventBlock(locale, events[i])
  {
    if events == [] then [] else [EventBlock(locale, events[0])] + EventBlocks(locale, events[1..])
  }

  /** The blocks of all events joined with '\n'. */
  function EventsSection(locale: Locale, events: seq<Event>): string {
    Join(EventBlocks(locale, events), "\n")
  }

  function Intro(locale: Locale): string {
    if locale == En then "Please generate a diary entry in first person perspective based on the following schedule:"
    else "请根据以下日程安排生成一篇日记，以第一人称的视角描述这一天："
  }

  function Outro(locale: Locale): string {
    if locale == En then "Please write a vivid and interesting diary entry that includes thoughts and feelings about each event. Make it personal and emotional."
    else "请生成一篇生动有趣的日记，包含对每个事件的感受和思考。要有感情和个人色彩，像真实的日记一样。"
  }

  /** The system message sent with the prompt (Calendar.tsx:97-99). */
  function SystemMessage(locale: Locale): string {
    if locale == En then "You are a diary writing assistant. Write diary entries in a personal, emotional, and reflective style. Include thoughts, feelings, and reactions to events. Make the writing feel authentic and intimate, like a real diary."
    else "你是一个日记写作助手。以个人化、感性和反思的风格写作。包含对事件的想法、感受和反应。让写作风格真实自然，像真实的日记一样。"
  }

  /** The prompt of generateDiaryContent (Calendar.tsx:63-79). */
  function Prompt(locale: Locale, events: seq<Event>): (p: string)
    ensures |p| > |EventsSection(locale, events)|
  {
    Intro(locale) + "\n\n" + EventsSection(locale, events) + "\n\n" + Outro(locale)
  }

  /** zh-TW gets exactly the zh-CN prompt and system message. */
  lemma ChineseTemplateShared(events: seq<Event>)
    ensures Prompt(ZhTW, events) == Prompt(ZhCN, events)
    ensures SystemMessage(ZhTW) == SystemMessage(ZhCN)
  {
    assert EventBlocks(ZhTW, events) == EventBlocks(ZhCN, events);
  }

  // ---- The block as a list of lines ----------------------------------------

  /** A line that is there or not. */
  function Kept(os: seq<Option<string>>): (ks: seq<string>)
    ensures |ks| <= |os|
  {
    if os == [] then []
    else (if os[0].Some? then [os[0].value] else []) + Kept(os[1..])
  }

  /** The optional lines of an event, in template order. */
  function OptionalLines(l: Labels, e: Event): seq<Option<string>> {
    [ if Present(e.category) then Some(l.category + e.category.value) else None,
      if Present(e.priority) then Some(l.priority + e.priority.value) else None,
      if Present(e.location) then Some(l.location + e.location.value) else None,
      if PresentList(e.participants) then Some(l.participants + Join(e.participants.value, ", ")) else None,
      if PresentList(e.tags) then Some(l.tags + Join(e.tags.value, ", ")) else None ]
  }

  /** An independent description of a block: its lines, in order. The time and
      the title are always there, each optional field adds its line only when it
      is present, and the description, possibly empty, is the last line. */
  function Lines(l: Labels, e: Event): (ls: seq<string>)
    ensures |ls| >= 3
  {
    [l.time + Clock(e.startTime) + " - " + Clock(e.endTime), l.title + e.title]
    + Kept(OptionalLines(l, e))
    + [if Present(e.description) then l.description + e.description.value else ""]
  }

  /** The lines of the block of e in the template of locale. */
  function BlockLines(locale: Locale, e: Event): seq<string> {
    Lines(LabelsOf(locale), e)
  }

  /** The number of optional fields of e that get a line. */
  function PresentFields(e: Event): (k: nat)
    ensures k <= 5
  {
    (if Present(e.category) then 1 else 0) + (if Present(e.priority) then 1 else 0)
    + (if Present(e.location) then 1 else 0) + (if PresentList(e.participants) then 1 else 0)
    + (if PresentList(e.tags) then 1 else 0)
  }

  function Fragment(o: Option<string>): string {
    if o.Some? then o.value + "\n" else ""
  }

  /** The fragments of os, each ending in '\n', followed by last. */
  function FragmentsThen(os: seq<Option<string>>, last: string): string {
    if os == [] then last else Fragment(os[0]) + FragmentsThen(os[1..], last)
  }

  /** Lines that each end in '\n', followed by a last piece, are the kept lines
      and the last piece joined by '\n'. */
  lemma {:induction false} FragmentsJoin(os: seq<Option<string>>, last: string)
    ensures FragmentsThen(os, last) == Join(Kept(os) + [last], "\n")
  {
    if os == [] {
      assert Kept(os) + [last] == [last];
    } else {
      FragmentsJoin(os[1..], last);
      var rest := Kept(os[1..]) + [last];
      if os[0].Some? {
        assert Kept(os) + [last] == [os[0].value] + rest;
        assert ([os[0].value] + rest)[1..] == rest;
      } else {
        assert Kept(os) + [last] == rest;
      }
    }
  }

  lemma Regroup(a: string, t: string, n: string, ti: string,
                o0: string, o1: string, o2: string, o3: string, o4: string, d: string)
    ensures a + t + n + ti + n + o0 + o1 + o2 + o3 + o4 + d
         == a + ((t + n) + ((ti + n) + (o0 + (o1 + (o2 + (o3 + (o4 + d)))))))
  {
  }

  /** A block is a '\n' followed by its lines joined with '\n'. */
  lemma BlockAsLines(locale: Locale, e: Event)
    ensures EventBlock(locale, e) == "\n" + Join(BlockLines(locale, e), "\n")
  {
    LinesJoin(LabelsOf(locale), e);
  }

  lemma LinesJoin(l: Labels, e: Event)
    ensures Block(l, e) == "\n" + Join(Lines(l, e), "\n")
  {
    var os := OptionalLines(l, e);
    var d := if Present(e.description) then l.description + e.description.value else "";
    var t := l.time + Clock(e.startTime) + " - " + Clock(e.endTime);
    var ti := l.title + e.title;
    assert OptionalLine(l.category, e.category) == Fragment(os[0]);
    assert OptionalLine(l.priority, e.priority) == Fragment(os[1]);
    assert OptionalLine(l.location, e.location) == Fragment(os[2]);
    assert ListLine(l.participants, e.participants) == Fragment(os[3]);
    assert ListLine(l.tags, e.tags) == Fragment(os[4]);
    assert Lines(l, e) == [t, ti] + (Kept(os) + [d]);
    FragmentsAsLines(t, ti, os, d);
  }

  /** The same fact with the pieces as variables. */
  lemma FragmentsAsLines(t: string, ti: string, os: seq<Option<string>>, d: string)
    requires |os| == 5
    ensures "\n" + t + "\n" + ti + "\n" + Fragment(os[0]) + Fragment(os[1]) + Fragment(os[2])
            + Fragment(os[3]) + Fragment(os[4]) + d
         == "\n" + Join([t, ti] + (Kept(os) + [d]), "\n")
  {
    var o0, o1, o2, o3, o4 := Fragment(os[0]), Fragment(os[1]), Fragment(os[2]), Fragment(os[3]), Fragment(os[4]);
    FiveFragments(os, d);
    FragmentsJoin(os, d);
    var tail := Kept(os) + [d];
    HeadJoin(t, ti, tail);
    Regroup("\n", t, "\n", ti, o0, o1, o2, o3, o4, d);
  }

  lemma FiveFragments(os: seq<Option<string>>, d: string)
    requires |os| == 5
    ensures FragmentsThen(os, d)
         == Fragment(os[0]) + (Fragment(os[1]) + (Fragment(os[2]) + (Fragment(os[3]) + (Fragment(os[4]) + d))))
  {
    assert os[4..][1..] == [];
    assert os[3..][1..] == os[4..];
    assert os[2..][1..] == os[3..];
    assert os[1..][1..] == os[2..];
    assert FragmentsThen(os[4..], d) == Fragment(os[4]) + d;
    assert FragmentsThen(os[3..], d) == Fragment(os[3]) + FragmentsThen(os[4..], d);
    assert FragmentsThen(os[2..], d) == Fragment(os[2]) + FragmentsThen(os[3..], d);
    assert FragmentsThen(os[1..], d) == Fragment(os[1]) + FragmentsThen(os[2..], d);
  }

  lemma HeadJoin(t: string, ti: string, tail: seq<string>)
    requires tail != []
    ensures Join([t, ti] + tail, "\n") == (t + "\n") + ((ti + "\n") + Join(tail, "\n"))
  {
    var ls := [t, ti] + tail;
    assert ls[1..] == [ti] + tail;
    assert ls[1..][1..] == tail;
  }

  /** No line break in s. */
  predicate OneLine(s: string) {
    forall i :: 0 <= i < |s| ==> s[i] != '\n'
  }

  /** Every text field of e that reaches the prompt is a single line. */
  predicate SingleLineFields(e: Event) {
    && OneLine(e.title)
    && (e.category.Some? ==> OneLine(e.category.value))
    && (e.priority.Some? ==> OneLine(e.priority.value))
    && (e.location.Some? ==> OneLine(e.location.value))
    && (e.description.Some? ==> OneLine(e.description.value))
    && (e.participants.Some? ==> forall p :: p in e.participants.value ==> OneLine(p))
    && (e.tags.Some? ==> forall t :: t in e.tags.value ==> OneLine(t))
  }

  lemma {:induction false} CountAllZero(parts: seq<string>)
    requires forall p :: p in parts ==> OneLine(p)
    ensures CountAll('\n', parts) == 0
  {
    if parts != [] {
      assert parts[0] in parts;
      CountAbsent('\n', parts[0]);
      CountAllZero(parts[1..]);
    }
  }

  /** Single lines joined with '\n' hold one line break fewer than there are lines. */
  lemma JoinLinesCount(ls: seq<string>, sep: string)
    requires ls != [] && forall p :: p in ls ==> OneLine(p)
    requires sep == "\n"
    ensures Count('\n', Join(ls, sep)) == |ls| - 1
  {
    assert Count('\n', sep) == 1;
    CountAllZero(ls);
    JoinCount('\n', ls, sep);
  }

  /** Joining single lines with ", " gives a single line. */
  lemma JoinOneLine(parts: seq<string>)
    requires forall p :: p in parts ==> OneLine(p)
    ensures OneLine(Join(parts, ", "))
  {
    if parts != [] {
      JoinCount('\n', parts, ", ");
      CountAllZero(parts);
      CountAbsent('\n', ", ");
      CountAbsent('\n', Join(parts, ", "));
    }
  }

  lemma ClockOneLine(t: DateTime)
    ensures OneLine(Clock(t))
  {
    var s := Clock(t);
    ClockFields(t);
    forall i | 0 <= i < |s| ensures s[i] != '\n' {
      if i != 2 { assert IsDigit(s[i]); }
    }
  }

  function SomeCount(os: seq<Option<string>>): nat {
    if os == [] then 0 else (if os[0].Some? then 1 else 0) + SomeCount(os[1..])
  }

  lemma {:induction false} KeptLength(os: seq<Option<string>>)
    ensures |Kept(os)| == SomeCount(os)
  {
    if os != [] {
      KeptLength(os[1..]);
    }
  }

  /** Each of the kept optional lines is a single line. */
  lemma {:induction false} KeptOneLine(os: seq<Option<string>>)
    requires forall o :: o in os && o.Some? ==> OneLine(o.value)
    ensures forall p :: p in Kept(os) ==> OneLine(p)
  {
    if os != [] {
      assert os[0] in os;
      KeptOneLine(os[1..]);
    }
  }

  lemma EnglishLabelOneLine(s: string)
    requires s in ["Time: ", "Title: ", "Category: ", "Priority: ",
                   "Location: ", "Participants: ", "Tags: ", "Description: "]
    ensures OneLine(s)
  {
  }

  lemma ChineseLabelOneLine(s: string)
    requires s in ["时间：", "标题：", "类别：", "优先级：", "地点：", "参与人：", "标签：", "描述："]
    ensures OneLine(s)
  {
  }

  /** Every label is a single line. */
  predicate SingleLineLabels(l: Labels) {
    && OneLine(l.time) && OneLine(l.title) && OneLine(l.category) && OneLine(l.priority)
    && OneLine(l.location) && OneLine(l.participants) && OneLine(l.tags) && OneLine(l.description)
  }

  lemma LabelsOneLine(locale: Locale)
    ensures SingleLineLabels(LabelsOf(locale))
  {
    var l := LabelsOf(locale);
    if locale == En {
      EnglishLabelOneLine(l.time); EnglishLabelOneLine(l.title);
      EnglishLabelOneLine(l.category); EnglishLabelOneLine(l.priority);
      EnglishLabelOneLine(l.location); EnglishLabelOneLine(l.participants);
      EnglishLabelOneLine(l.tags); EnglishLabelOneLine(l.description);
    } else {
      ChineseLabelOneLine(l.time); ChineseLabelOneLine(l.title);
      ChineseLabelOneLine(l.category); ChineseLabelOneLine(l.priority);
      ChineseLabelOneLine(l.location); ChineseLabelOneLine(l.participants);
      ChineseLabelOneLine(l.tags); ChineseLabelOneLine(l.description);
    }
  }

  /** With single-line fields, a block holds 3 line breaks and one more per
      optional field that is present: its leading break, the ones after the
      time and after the title, and one after each optional line. */
  lemma BlockLineBreaks(locale: Locale, e: Event)
    requires SingleLineFields(e)
    ensures Count('\n', EventBlock(locale, e)) == 3 + PresentFields(e)
  {
    LabelsOneLine(locale);
    BreaksInBlock(LabelsOf(locale), e);
  }

  lemma BreaksInBlock(l: Labels, e: Event)
    requires SingleLineLabels(l) && SingleLineFields(e)
    ensures Count('\n', Block(l, e)) == 3 + PresentFields(e)
  {
    var ls := Lines(l, e);
    var nl := "\n";
    assert Block(l, e) == nl + Join(ls, nl) by { LinesJoin(l, e); }
    assert |ls| == 3 + PresentFields(e) by { LinesCount(l, e); }
    assert Count('\n', Join(ls, nl)) == |ls| - 1 by {
      LinesSingle(l, e);
      JoinLinesCount(ls, nl);
    }
    assert Count('\n', nl) == 1;
    CountConcat('\n', nl, Join(ls, nl));
  }

  /** A block has the time, the title, one line per present optional field and
      the description. */
  lemma LinesCount(l: Labels, e: Event)
    ensures |Lines(l, e)| == 3 + PresentFields(e)
  {
    var os := OptionalLines(l, e);
    KeptLength(os);
    assert os[5..] == [];
    assert SomeCount(os[4..]) == if os[4].Some? then 1 else 0;
    assert SomeCount(os[3..]) == (if os[3].Some? then 1 else 0) + SomeCount(os[4..]);
    assert SomeCount(os[2..]) == (if os[2].Some? then 1 else 0) + SomeCount(os[3..]);
    assert SomeCount(os[1..]) == (if os[1].Some? then 1 else 0) + SomeCount(os[2..]);
    assert SomeCount(os) == PresentFields(e);
  }

  lemma OneLineConcat(a: string, b: string)
    requires OneLine(a) && OneLine(b)
    ensures OneLine(a + b)
  {
  }

  lemma LinesOneLine(t: string, ti: string, o0: Option<string>, o1: Option<string>,
                     o2: Option<string>, o3: Option<string>, o4: Option<string>, d: string)
    requires OneLine(t) && OneLine(ti) && OneLine(d)
    requires o0.Some? ==> OneLine(o0.value)
    requires o1.Some? ==> OneLine(o1.value)
    requires o2.Some? ==> OneLine(o2.value)
    requires o3.Some? ==> OneLine(o3.value)
    requires o4.Some? ==> OneLine(o4.value)
    ensures forall p :: p in [t, ti] + Kept([o0, o1, o2, o3, o4]) + [d] ==> OneLine(p)
  {
    KeptOneLine([o0, o1, o2, o3, o4]);
  }

  /** With single-line fields, every line of a block is a single line. */
  lemma LinesSingle(l: Labels, e: Event)
    requires SingleLineLabels(l) && SingleLineFields(e)
    ensures forall p :: p in Lines(l, e) ==> OneLine(p)
  {
    var os := OptionalLines(l, e);
    var c1, c2 := Clock(e.startTime), Clock(e.endTime);
    var t := l.time + c1 + " - " + c2;
    var ti := l.title + e.title;
    var d := if Present(e.description) then l.description + e.description.value else "";
    assert OneLine(t) by {
      ClockOneLine(e.startTime);
      ClockOneLine(e.endTime);
    }
    assert os[3].Some? ==> OneLine(os[3].value) by {
      if PresentList(e.participants) { JoinOneLine(e.participants.value); }
    }
    assert os[4].Some? ==> OneLine(os[4].value) by {
      if PresentList(e.tags) { JoinOneLine(e.tags.value); }
    }
    LinesOneLine(t, ti, os[0], os[1], os[2], os[3], os[4], d);
    assert os == [os[0], os[1], os[2], os[3], os[4]];
    assert Lines(l, e) == [t, ti] + Kept(os) + [d];
  }

  /** The line breaks the blocks of events hold: 3 each, plus their present
      optional fields. */
  function BreaksOf(events: seq<Event>): nat {
    if events == [] then 0 else 3 + PresentFields(events[0]) + BreaksOf(events[1..])
  }

  lemma {:induction false} BlocksBreaks(locale: Locale, events: seq<Event>)
    requires forall e :: e in events ==> SingleLineFields(e)
    ensures CountAll('\n', EventBlocks(locale, events)) == BreaksOf(events)
  {
    if events != [] {
      assert events[0] in events;
      BlockLineBreaks(locale, events[0]);
      BlocksBreaks(locale, events[1..]);
      assert EventBlocks(locale, events)[1..] == EventBlocks(locale, events[1..]);
    }
  }

  /** The events part of the prompt holds the line breaks of every block and
      one separator between each two neighbouring blocks. */
  lemma SectionLineBreaks(locale: Locale, events: seq<Event>)
    requires events != []
    requires forall e :: e in events ==> SingleLineFields(e)
    ensures Count('\n', EventsSection(locale, events)) == BreaksOf(events) + |events| - 1
  {
    var nl := "\n";
    assert Count('\n', nl) == 1;
    BlocksBreaks(locale, events);
    JoinCount('\n', EventBlocks(locale, events), nl);
  }

  // ---- The reply of the endpoint -------------------------------------------

  /** `data.error`: its message may be missing or empty. */
  datatype ApiFault = ApiFault(message: Option<string>)

  /** The fields of the parsed JSON body that the chain looks at:
      `data.error` and `data.choices?.[0]?.message?.content`. */
  datatype Payload = Payload(error: Option<ApiFault>, content: Option<string>)

  /** What fetch settles to. A rejected fetch is NetworkFailure; a body that
      response.json() rejects is Response with body None. */
  datatype Reply =
    | NetworkFailure
    | Response(ok: bool, status: nat, statusText: string, body: Option<Payload>)

  /** The ways generateDiaryContent fails, in the order it checks them;
      Thrown stands for an exception of fetch or response.json() itself. */
  datatype GenError =
    | MissingKey
    | RequestFailed(status: nat, statusText: string)
    | ApiError(message: Option<string>)
    | NoContent
    | Thrown

  /** `!API_CONFIG.API_KEY`: an unset and an empty key are both missing. */
  predicate HasKey(apiKey: Option<string>) {
    apiKey.Some? && apiKey.value != ""
  }

  /** The outcome of generateDiaryContent (Calendar.tsx:80-144). */
  function Classify(apiKey: Option<string>, reply: Reply): (r: Result<string, GenError>)
    ensures r.Ok? ==> r.value != ""
  {
    if !HasKey(apiKey) then Err(MissingKey)
    else match reply
      case NetworkFailure => Err(Thrown)
      case Response(ok, status, statusText, body) =>
        if !ok then Err(RequestFailed(status, statusText))
        else if body.None? then Err(Thrown)
        else if body.value.error.Some? then Err(ApiError(body.value.error.value.message))
        else if !Present(body.value.content) then Err(NoContent)
        else Ok(body.value.content.value)
  }

  /** A successful, well-formed reply. */
  function ContentReply(content: string): Reply {
    Response(true, 200, "OK", Some(Payload(None, Some(content))))
  }

  /** Generation succeeds exactly when a key is set and the reply is an OK
      response whose body parses, carries no error and has non-empty content;
      the result is then that content. */
  lemma ClassifySucceedsIff(apiKey: Option<string>, reply: Reply)
    ensures Classify(apiKey, reply).Ok? <==>
      && HasKey(apiKey) && reply.Response? && reply.ok && reply.body.Some?
      && reply.body.value.error.None? && Present(reply.body.value.content)
    ensures Classify(apiKey, reply).Ok? ==> Classify(apiKey, reply).value == reply.body.value.content.value
  {
  }

  /** The checks come in order: a missing key fails whatever the reply; with a
      key, a non-OK status fails whatever the body holds, and an error payload
      fails whatever content comes with it. */
  lemma ClassifyOrder(apiKey: Option<string>, reply: Reply)
    ensures !HasKey(apiKey) ==> Classify(apiKey, reply) == Err(MissingKey)
    ensures HasKey(apiKey) && reply.Response? && !reply.ok ==>
      Classify(apiKey, reply) == Err(RequestFailed(reply.status, reply.statusText))
    ensures HasKey(apiKey) && reply.Response? && reply.ok && reply.body.Some? && reply.body.value.error.Some? ==>
      Classify(apiKey, reply) == Err(ApiError(reply.body.value.error.value.message))
  {
  }

  /** Any non-empty content comes back unchanged; empty content is a failure. */
  lemma ContentRoundTrip(apiKey: Option<string>, content: string)
    requires HasKey(apiKey)
    ensures content != "" ==> Classify(apiKey, ContentReply(content)) == Ok(content)
    ensures content == "" ==> Classify(apiKey, ContentReply(content)) == Err(NoContent)
  {
  }

  /** The message generateDiaryContent throws for each failure it raises
      itself; Thrown keeps the runtime's message, which is not modelled. */
  function ErrorMessage(locale: Locale, e: GenError): (m: Option<string>)
    ensures m.None? <==> e.Thrown?
  {
    match e
      case MissingKey => Some(if locale == En then "API Key not configured" else "API Key 未配置")
      case RequestFailed(status, text) =>
        Some((if locale == En then "API request failed: " else "API 请求失败: ") + Decimal(status, 1) + " " + text)
      case ApiError(message) =>
        var shown := if Present(message) then message.value else if locale == En then "Unknown error" else "未知错误";
        Some((if locale == En then "API error: " else "API 错误: ") + shown)
      case NoContent =>
        Some(if locale == En then "Unable to extract content from API response" else "无法从 API 响应中提取内容")
      case Thrown => None
  }

  /** Different kinds of failure read differently, in either language. */
  lemma ErrorMessagesDistinct(locale: Locale, a: GenError, b: GenError)
    requires !a.Thrown? && !b.Thrown?
    requires ErrorMessage(locale, a) == ErrorMessage(locale, b)
    ensures a.MissingKey? == b.MissingKey? && a.RequestFailed? == b.RequestFailed?
    ensures a.ApiError? == b.ApiError? && a.NoContent? == b.NoContent?
  {
    var ma, mb := ErrorMessage(locale, a).value, ErrorMessage(locale, b).value;
    assert ma[0] == mb[0] && ma[4] == mb[4];
  }

  // ---- The exported file ---------------------------------------------------

  /** `diary-${format(selectedDate, 'yyyy-MM-dd')}.txt` */
  function DiaryFileName(day: Day): string {
    "diary-" + IsoDate(day) + ".txt"
  }

  /** Reads the day back from a diary file name. */
  function ParseDiaryFileName(name: string): (r: Option<Day>)
    ensures r.Some? ==> DiaryFileName(r.value) == name
  {
    if |name| >= 10 && name[..6] == "diary-" && name[|name| - 4..] == ".txt" then
      var r := ParseIsoDate(name[6..|name| - 4]);
      if r.Some? then
        assert name == "diary-" + name[6..|name| - 4] + ".txt";
        r
      else None
    else None
  }

  /** For the years 1 to 9999 the file name gives back the day it was made for,
      so two such days never share a file name. */
  lemma DiaryFileNameRoundTrip(day: Day)
    requires 1 <= CivilOf(day).year <= 9999
    ensures ParseDiaryFileName(DiaryFileName(day)) == Some(day)
  {
    var name := DiaryFileName(day);
    var iso := IsoDate(day);
    IsoDateRoundTrip(day);
    assert |iso| == 10;
    assert name[..6] == "diary-";
    assert name[|name| - 4..] == ".txt";
    assert name[6..|name| - 4] == iso;
  }

  /** The first line of the file, without its line break: 'EEEE, MMMM d, yyyy'
      in English, 'yyyy年MM月dd日 EEEE' otherwise, with English day names in
      both because the format call passes no locale (Calendar.tsx:171-173). */
  function HeaderLine(locale: Locale, day: Day): string {
    var c := CivilOf(day);
    var weekday := WeekdayName(Weekday(day));
    if locale == En then
      "Diary - " + weekday + ", " + MonthName(c.month) + " " + Decimal(c.day, 1) + ", " + Year4(c.year)
    else
      "日记 - " + Year4(c.year) + "年" + Decimal(c.month, 2) + "月" + Decimal(c.day, 2) + "日 " + weekday
  }

  /** The text written to the file: the header, a blank line and the diary. */
  function DiaryText(locale: Locale, day: Day, content: string): string {
    HeaderLine(locale, day) + "\n\n" + content
  }

  /** The header is a single line, so the diary is everything after the first
      blank line of the file. */
  lemma HeaderIsOneLine(locale: Locale, day: Day)
    ensures OneLine(HeaderLine(locale, day))
  {
    var c := CivilOf(day);
    var wn, mn := WeekdayName(Weekday(day)), MonthName(c.month);
    var d1, d2, m2, y4 := Decimal(c.day, 1), Decimal(c.day, 2), Decimal(c.month, 2), Year4(c.year);
    NamesOneLine(Weekday(day), c.month);
    DigitsOneLine(d1);
    DigitsOneLine(d2);
    DigitsOneLine(m2);
    DigitsOneLine(y4);
    if locale == En {
      OneLineConcat("Diary - ", wn);
      OneLineConcat("Diary - " + wn, ", ");
      OneLineConcat("Diary - " + wn + ", ", mn);
      OneLineConcat("Diary - " + wn + ", " + mn, " ");
      OneLineConcat("Diary - " + wn + ", " + mn + " ", d1);
      OneLineConcat("Diary - " + wn + ", " + mn + " " + d1, ", ");
      OneLineConcat("Diary - " + wn + ", " + mn + " " + d1 + ", ", y4);
    } else {
      OneLineConcat("日记 - ", y4);
      OneLineConcat("日记 - " + y4, "年");
      OneLineConcat("日记 - " + y4 + "年", m2);
      OneLineConcat("日记 - " + y4 + "年" + m2, "月");
      OneLineConcat("日记 - " + y4 + "年" + m2 + "月", d2);
      OneLineConcat("日记 - " + y4 + "年" + m2 + "月" + d2, "日 ");
      OneLineConcat("日记 - " + y4 + "年" + m2 + "月" + d2 + "日 ", wn);
    }
  }

  lemma NamesOneLine(w: int, m: int)
    requires 0 <= w < 7 && 1 <= m <= 12
    ensures OneLine(WeekdayName(w)) && OneLine(MonthName(m))
  {
  }

  lemma DigitsOneLine(s: string)
    requires forall i :: 0 <= i < |s| ==> IsDigit(s[i])
    ensures OneLine(s)
  {
  }

  /** Splitting the file at its first line break gives the header line back, and
      the diary follows the blank line. */
  lemma DiaryTextSplits(locale: Locale, day: Day, content: string)
    ensures var h := HeaderLine(locale, day);
      var text := DiaryText(locale, day, content);
      && text[..|h|] == h && text[|h|..|h| + 2] == "\n\n" && text[|h| + 2..] == content
      && (forall i :: 0 <= i < |h| ==> text[i] != '\n')
  {
    HeaderIsOneLine(locale, day);
  }
}
