/** The event dialog (EventForm.tsx:56-132): the form fields, how they are
    filled when the dialog opens, the tag and participant chips, and what is
    handed on when the form is submitted. */
module EventFormView {
  import opened Wrappers
  import opened CivilDate
  import opened Sequences

  /** The form's own Event record (EventForm.tsx:23-34), used for
      initialValues. An optional field is None when absent. */
  datatype Draft = Draft(
    title: string,
    startTime: DateTime,
    endTime: DateTime,
    category: Option<string>,
    priority: Option<string>,
    duration: Option<string>,
    location: Option<string>,
    description: Option<string>,
    tags: Option<seq<string>>,
    participants: Option<seq<string>>)

  /** The record handleSubmit passes to onSubmit: the nine form fields, each
      of them present. */
  datatype Submission = Submission(
    title: string,
    startTime: DateTime,
    endTime: DateTime,
    location: string,
    description: string,
    category: string,
    priority: string,
    participants: seq<string>,
    tags: seq<string>)

  /** `v || ''`: a missing or empty string becomes ''. */
  function OrEmpty(v: Option<string>): string {
    if v.Some? then v.value else ""
  }

  /** `v || []`: a missing list becomes []. */
  function OrNone(v: Option<seq<string>>): seq<string> {
    if v.Some? then v.value else []
  }

  /** Minutes since the epoch, to compare two times. */
  function Minutes(t: DateTime): int {
    t.day * 1440 + t.hour * 60 + t.minute
  }

  /** The guard of handleAddTag and handleAddParticipant: a non-empty entry
      that is not in the list yet. */
  predicate Accepts(xs: seq<string>, x: string) {
    x != "" && x !in xs
  }

  /** [...xs, x] when the guard holds, xs otherwise. */
  function AddIfAbsent(xs: seq<string>, x: string): (r: seq<string>)
    ensures xs <= r
    ensures |r| == |xs| + (if Accepts(xs, x) then 1 else 0)
    ensures forall y :: y in r <==> y in xs || (y == x && x != "")
  {
    if Accepts(xs, x) then xs + [x] else xs
  }

  /** xs.filter(y => y !== x). */
  function RemoveAll(xs: seq<string>, x: string): (r: seq<string>)
    ensures |r| <= |xs|
    ensures forall y :: y in r <==> y in xs && y != x
  {
    if xs == [] then []
    else if xs[0] == x then RemoveAll(xs[1..], x)
    else [xs[0]] + RemoveAll(xs[1..], x)
  }

  /** Every occurrence of x goes, and every other element keeps its count. */
  lemma {:induction false} RemoveAllCount(xs: seq<string>, x: string, y: string)
    ensures multiset(RemoveAll(xs, x))[y] == if y == x then 0 else multiset(xs)[y]
  {
    if xs != [] {
      RemoveAllCount(xs[1..], x, y);
      assert xs == [xs[0]] + xs[1..];
    }
  }

  /** The remaining elements keep their order. */
  lemma {:induction false} RemoveAllInOrder(xs: seq<string>, x: string)
    ensures Subsequence(RemoveAll(xs, x), xs)
  {
    if xs != [] {
      RemoveAllInOrder(xs[1..], x);
      var rest := RemoveAll(xs[1..], x);
      if xs[0] != x {
        assert ([xs[0]] + rest)[1..] == rest;
      } else if rest != [] {
        assert RemoveAll(xs, x) == rest;
      }
    }
  }

  /** Removing an element that is not there changes nothing. */
  lemma {:induction false} RemoveAllAbsent(xs: seq<string>, x: string)
    requires x !in xs
    ensures RemoveAll(xs, x) == xs
  {
    if xs != [] {
      RemoveAllAbsent(xs[1..], x);
      assert xs == [xs[0]] + xs[1..];
    }
  }

  /** Filtering a list with one more element at the end. */
  lemma {:induction false} RemoveAllSnoc(xs: seq<string>, y: string, x: string)
    ensures RemoveAll(xs + [y], x) == RemoveAll(xs, x) + (if y == x then [] else [y])
  {
    if xs == [] {
      assert xs + [y] == [y];
    } else {
      assert (xs + [y])[1..] == xs[1..] + [y];
      RemoveAllSnoc(xs[1..], y, x);
    }
  }

  /** Adding an entry that is not in the list and then removing it gives the
      list back. */
  lemma AddThenRemove(xs: seq<string>, x: string)
    requires Accepts(xs, x)
    ensures RemoveAll(AddIfAbsent(xs, x), x) == xs
  {
    RemoveAllSnoc(xs, x, x);
    RemoveAllAbsent(xs, x);
  }

  /** A chip list as the handlers keep it: no repeats and no empty entry. */
  predicate ChipList(xs: seq<string>) {
    NoDuplicates(xs) && "" !in xs
  }

  /** Adding keeps a chip list a chip list. */
  lemma AddKeepsChipList(xs: seq<string>, x: string)
    requires ChipList(xs)
    ensures ChipList(AddIfAbsent(xs, x))
  {
    if Accepts(xs, x) {
      var r := xs + [x];
      forall i, j | 0 <= i < j < |r|
        ensures r[i] != r[j]
      {
        if j == |xs| {
          assert r[i] == xs[i];
        }
      }
    }
  }

  /** Removing keeps a chip list a chip list. */
  lemma {:induction false} RemoveKeepsChipList(xs: seq<string>, x: string)
    requires ChipList(xs)
    ensures ChipList(RemoveAll(xs, x))
  {
    if xs != [] {
      assert forall i, j :: 0 <= i < j < |xs[1..]| ==> xs[1..][i] == xs[i + 1] && xs[1..][j] == xs[j + 1];
      RemoveKeepsChipList(xs[1..], x);
      var rest := RemoveAll(xs[1..], x);
      if xs[0] != x {
        assert xs[0] !in xs[1..] by {
          forall k | 0 <= k < |xs[1..]|
            ensures xs[1..][k] != xs[0]
          {
            assert xs[1..][k] == xs[k + 1];
          }
        }
        var r := [xs[0]] + rest;
        forall i, j | 0 <= i < j < |r|
          ensures r[i] != r[j]
        {
          if i == 0 {
            assert r[j] == rest[j - 1];
            assert r[j] in rest;
          } else {
            assert r[i] == rest[i - 1] && r[j] == rest[j - 1];
          }
        }
      }
    }
  }

  /** A change made through one of the form's inputs (EventForm.tsx:140-245).
      The date pickers ignore a cleared value. */
  datatype Input =
    | Title(title: string)
    | StartTime(start: Option<DateTime>)
    | EndTime(end: Option<DateTime>)
    | Location(location: string)
    | Description(description: string)
    | Category(category: string)
    | Priority(priority: string)
    | NewTag(entry: string)
    | NewParticipant(entry: string)

  class EventForm {
    var title: string
    var startTime: DateTime
    var endTime: DateTime
    var location: string
    var description: string
    var category: string
    var priority: string
    var participants: seq<string>
    var tags: seq<string>
    var newTag: string
    var newParticipant: string

    /** The state once the dialog has opened: the useState defaults
        (EventForm.tsx:67-81), with 09:00 and 10:00 on the selected date, and
        then the copy the effect makes of initialValues (EventForm.tsx:83-95),
        '' or [] standing in for a missing field. */
    constructor(selectedDate: Day, initialValues: Option<Draft>)
      ensures initialValues.None? ==>
        && title == "" && location == "" && description == ""
        && category == "" && priority == "" && participants == [] && tags == []
        && startTime == DateTime(selectedDate, 9, 0) && endTime == DateTime(selectedDate, 10, 0)
      ensures initialValues.Some? ==>
        var v := initialValues.value;
        && title == v.title && startTime == v.startTime && endTime == v.endTime
        && location == OrEmpty(v.location) && description == OrEmpty(v.description)
        && category == OrEmpty(v.category) && priority == OrEmpty(v.priority)
        && participants == OrNone(v.participants) && tags == OrNone(v.tags)
      ensures newTag == "" && newParticipant == ""
    {
      title := "";
      startTime := if initialValues.Some? then initialValues.value.startTime else DateTime(selectedDate, 9, 0);
      endTime := if initialValues.Some? then initialValues.value.endTime else DateTime(selectedDate, 10, 0);
      location := "";
      description := "";
      category := "";
      priority := "";
      participants := [];
      tags := [];
      newTag := "";
      newParticipant := "";
      if initialValues.Some? {
        var v := initialValues.value;
        title := v.title;
        startTime := v.startTime;
        endTime := v.endTime;
        location := OrEmpty(v.location);
        description := OrEmpty(v.description);
        category := OrEmpty(v.category);
        priority := OrEmpty(v.priority);
        participants := OrNone(v.participants);
        tags := OrNone(v.tags);
      }
    }

    /** The onChange handler of one input: it sets that field and no other. */
    method Edit(input: Input)
      modifies this
      ensures title == (if input.Title? then input.title else old(title))
      ensures startTime == (if input.StartTime? && input.start.Some? then input.start.value else old(startTime))
      ensures endTime == (if input.EndTime? && input.end.Some? then input.end.value else old(endTime))
      ensures location == (if input.Location? then input.location else old(location))
      ensures description == (if input.Description? then input.description else old(description))
      ensures category == (if input.Category? then input.category else old(category))
      ensures priority == (if input.Priority? then input.priority else old(priority))
      ensures newTag == (if input.NewTag? then input.entry else old(newTag))
      ensures newParticipant == (if input.NewParticipant? then input.entry else old(newParticipant))
      ensures tags == old(tags) && participants == old(participants)
    {
      match input
      case Title(s) => title := s;
      case StartTime(t) => if t.Some? { startTime := t.value; }
      case EndTime(t) => if t.Some? { endTime := t.value; }
      case Location(s) => location := s;
      case Description(s) => description := s;
      case Category(s) => category := s;
      case Priority(s) => priority := s;
      case NewTag(s) => newTag := s;
      case NewParticipant(s) => newParticipant := s;
    }

    /** handleSubmit: exactly the current values of the nine fields. */
    method Submit() returns (s: Submission)
      ensures s == Submission(title, startTime, endTime, location, description,
                              category, priority, participants, tags)
    {
      s := Submission(title, startTime, endTime, location, description,
                      category, priority, participants, tags);
    }

    /** handleAddTag: appends the entry and clears it when it is non-empty and
        new; otherwise nothing changes. A chip list stays one. */
    method AddTag()
      modifies this
      ensures tags == AddIfAbsent(old(tags), old(newTag))
      ensures newTag == if Accepts(old(tags), old(newTag)) then "" else old(newTag)
      ensures ChipList(old(tags)) ==> ChipList(tags)
      ensures participants == old(participants) && newParticipant == old(newParticipant)
      ensures title == old(title) && startTime == old(startTime) && endTime == old(endTime)
      ensures location == old(location) && description == old(description)
      ensures category == old(category) && priority == old(priority)
    {
      if newTag != "" && newTag !in tags {
        tags := tags + [newTag];
        newTag := "";
      }
      if ChipList(old(tags)) {
        AddKeepsChipList(old(tags), old(newTag));
      }
    }

    /** handleRemoveTag: drops every occurrence of the tag. */
    method RemoveTag(tag: string)
      modifies this
      ensures tags == RemoveAll(old(tags), tag)
      ensures ChipList(old(tags)) ==> ChipList(tags)
      ensures newTag == old(newTag)
      ensures participants == old(participants) && newParticipant == old(newParticipant)
      ensures title == old(title) && startTime == old(startTime) && endTime == old(endTime)
      ensures location == old(location) && description == old(description)
      ensures category == old(category) && priority == old(priority)
    {
      if ChipList(tags) {
        RemoveKeepsChipList(tags, tag);
      }
      tags := RemoveAll(tags, tag);
    }

    /** handleAddParticipant: as handleAddTag, on the participants. */
    method AddParticipant()
      modifies this
      ensures participants == AddIfAbsent(old(participants), old(newParticipant))
      ensures newParticipant == if Accepts(old(participants), old(newParticipant)) then "" else old(newParticipant)
      ensures ChipList(old(participants)) ==> ChipList(participants)
      ensures tags == old(tags) && newTag == old(newTag)
      ensures title == old(title) && startTime == old(startTime) && endTime == old(endTime)
      ensures location == old(location) && description == old(description)
      ensures category == old(category) && priority == old(priority)
    {
      if newParticipant != "" && newParticipant !in participants {
        participants := participants + [newParticipant];
        newParticipant := "";
      }
      if ChipList(old(participants)) {
        AddKeepsChipList(old(participants), old(newParticipant));
      }
    }

    /** handleRemoveParticipant: as handleRemoveTag, on the participants. */
    method RemoveParticipant(participant: string)
      modifies this
      ensures participants == RemoveAll(old(participants), participant)
      ensures ChipList(old(participants)) ==> ChipList(participants)
      ensures newParticipant == old(newParticipant)
      ensures tags == old(tags) && newTag == old(newTag)
      ensures title == old(title) && startTime == old(startTime) && endTime == old(endTime)
      ensures location == old(location) && description == old(description)
      ensures category == old(category) && priority == old(priority)
    {
      if ChipList(participants) {
        RemoveKeepsChipList(participants, participant);
      }
      participants := RemoveAll(participants, participant);
    }
  }

  /** A dialog opened without initial values submits an untitled event from
      09:00 to 10:00 on the selected date, an hour long. */
  method SubmitBlank(selectedDate: Day) returns (s: Submission)
    ensures s.title == "" && s.tags == [] && s.participants == []
    ensures s.startTime.day == selectedDate && s.endTime.day == selectedDate
    ensures Minutes(s.endTime) == Minutes(s.startTime) + 60
  {
    var form := new EventForm(selectedDate, None);
    s := form.Submit();
  }

  /** A dialog opened on an event and submitted unchanged hands back all of that
      event's fields but its duration, with '' and [] for the missing ones. */
  method SubmitUnchanged(selectedDate: Day, v: Draft) returns (s: Submission)
    ensures s.title == v.title && s.startTime == v.startTime && s.endTime == v.endTime
    ensures s.location == OrEmpty(v.location) && s.description == OrEmpty(v.description)
    ensures s.category == OrEmpty(v.category) && s.priority == OrEmpty(v.priority)
    ensures s.participants == OrNone(v.participants) && s.tags == OrNone(v.tags)
    ensures v.location.Some? ==> s.location == v.location.value
    ensures v.tags.Some? ==> s.tags == v.tags.value
  {
    var form := new EventForm(selectedDate, Some(v));
    s := form.Submit();
  }

  /** Adding a new tag and then removing its chip gives the dialog back its
      tags, and leaves the participants alone. */
  method AddThenRemoveTag(form: EventForm)
    requires Accepts(form.tags, form.newTag)
    modifies form
    ensures form.tags == old(form.tags) && form.newTag == ""
    ensures form.participants == old(form.participants)
  {
    var tag := form.newTag;
    form.AddTag();
    form.RemoveTag(tag);
    AddThenRemove(old(form.tags), tag);
  }
}
