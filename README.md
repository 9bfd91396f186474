# calendar-diary-app, modelled in Dafny

The calendar-diary-app is a browser calendar. It shows a month of days, lets a visitor add events through a dialog, and exports the events of a day as a first-person diary written by a remote language model. Visitors sign in or register with email and password, or use a limited number of trial sessions.

This project models the logic inside those React components:

- **Calendar** (`CalendarGrid`, `DayCells`, `Diary`, `CalendarView`):
  - the days shown for the selected month;
  - the month navigation;
  - what each day cell lists;
  - the diary prompt;
  - the chain of checks on the model's reply;
  - the export handler and the file it produces.
- **EventForm** (`EventFormView`): the dialog's state, its initial values, the tag and participant chips, and the submitted record.
- **Register** (`RegisterView`): the three validators, the order of the checks, and the payload handed on.
- **AuthContext** (`Auth`): user, locale, loading flag, error and trial counter, and the operations that change them.
- **ProtectedRoute** (`RouteGuard`): the spinner / redirect / page decision.
- **Login** (`LoginView`): the submit handler and the trial button.

Helper modules:

- `Wrappers` and `Locales`: Option, Result, Outcome and the three locales.
- `Sequences`: subsequence and no-duplicates.
- `CivilDate`: proleptic Gregorian dates as day numbers counted from 1970-01-01, with weekday 0 = Sunday.
- `TextFormat`: zero-padded decimals, join and character counts.
- `DateFormat`: the date-fns patterns the components use.
- `Users`: the record types of `src/types/user.ts`.

## How the source is modelled

- A component whose handlers update `useState` fields is a `class`:
  - `CalendarView.Calendar`;
  - `EventFormView.EventForm`;
  - `RegisterView.RegisterForm`;
  - `Auth.AuthState`;
  - `LoginView.LoginPage`.
  Each handler is a method that states its whole new state.
- Remote calls become inputs: the reply of the diary endpoint, the user a login resolves to, the message a rejection carries. The clock is an input too (`today`).
- Pure computations are functions, with lemmas that tie them to an independent statement:
  - the grid is an ascending run of whole weeks that covers the month;
  - a block is its lines joined by `'\n'`;
  - the email conditions are equivalent to the regular expression;
  - the file name parses back to its day.
- The week start of the date-fns locale is a parameter (`WeekStart`, 0 = Sunday).
- The grid has 4 to 6 weeks: a 28-day February that starts on the week start gives 4 (`src/components/Calendar.tsx:209-213`), though the grid's CSS always lays out 6 rows (`src/components/Calendar.tsx:316`). `CalendarGrid.GridLength` states 28 to 42 days.
- The header's `format` call passes no locale, so the Chinese header has English weekday names (`src/components/Calendar.tsx:171-173`, `Diary.HeaderLine`).
- isPast and isFuture compare instants (`src/components/Calendar.tsx:324-325`). A grid day is its midnight, and today's bounds are its first and last millisecond (`DayCells.Instant`), so both flags come down to comparing days.

## Model

| member | source | states |
|---|---|---|
| CivilDate.MonthLength | src/components/Calendar.tsx:210 | a month has 28 to 31 days, and 29 exactly for February of a leap year |
| CivilDate.CivilOf | src/components/Calendar.tsx:209-210 | the civil date of a day is valid and numbers back to that day |
| CivilDate.CivilOfDayNumber | src/components/Calendar.tsx:209-210 | every valid date is the civil date of its day number |
| CivilDate.DayNumberInjective | src/components/Calendar.tsx:209-210 | two valid dates share a day number exactly when they are equal |
| CivilDate.InMonth | src/components/Calendar.tsx:210 | a day is in month m of year y exactly when it lies between the month's first and last day, and is then day n − start + 1 |
| CalendarGrid.StartOfWeek | src/components/Calendar.tsx:211 | startOfWeek is on or at most 6 days before n and falls on the week-start weekday |
| CalendarGrid.StartOfWeekLatest | src/components/Calendar.tsx:211 | no later day up to n falls on the week-start weekday |
| CalendarGrid.StartOfWeekOffset | src/components/Calendar.tsx:211 | startOfWeek goes back (weekday − W) mod 7 days, and stays put exactly on weekday W |
| CalendarGrid.EndOfWeek | src/components/Calendar.tsx:212 | endOfWeek is on or at most 6 days after n and falls on weekday (W+6) mod 7 |
| CalendarGrid.EndOfWeekEarliest | src/components/Calendar.tsx:212 | no earlier day from n falls on weekday (W+6) mod 7 |
| CalendarGrid.EndOfWeekOffset | src/components/Calendar.tsx:212 | endOfWeek goes forward (W+6 − weekday) mod 7 days, and stays put exactly on weekday (W+6) mod 7 |
| CalendarGrid.FirstOfMonth | src/components/Calendar.tsx:209 | startOfMonth is the 1st of n's month, and n lies within that month |
| CalendarGrid.LastDay | src/components/Calendar.tsx:210 | endOfMonth is the date with the month's length as its day |
| CalendarGrid.LeadingDaysFormula | src/components/Calendar.tsx:211 | the days before the 1st number (weekday(1st) − W) mod 7, and none exactly when the 1st falls on W |
| CalendarGrid.TrailingDaysFormula | src/components/Calendar.tsx:212 | the days after the last day number (W+6 − weekday(last)) mod 7, and none exactly when the last day falls on (W+6) mod 7 |
| CalendarGrid.Span | src/components/Calendar.tsx:213 | eachDayOfInterval lists every day from the start of the first week to the end of the last, in order |
| CalendarGrid.GridOf | src/components/Calendar.tsx:209-213 | the grid is never empty; its shape is stated by GridEnds, GridAscending, GridLength, GridMembership and GridCoversMonth |
| CalendarGrid.GridEnds | src/components/Calendar.tsx:209-213 | the grid starts on startOfWeek(1st), on weekday W, and ends on endOfWeek(last day), on weekday (W+6) mod 7 |
| CalendarGrid.GridAscending | src/components/Calendar.tsx:213 | the grid is a strictly ascending run of consecutive days |
| CalendarGrid.GridLength | src/components/Calendar.tsx:209-213 | the grid has leading + month length + trailing days, a multiple of 7 between 28 and 42 |
| CalendarGrid.GridMembership | src/components/Calendar.tsx:209-213 | cell i is in the month exactly when it comes after the leading days and before the trailing ones, and is then day i − leading + 1 |
| CalendarGrid.GridCoversMonth | src/components/Calendar.tsx:209-213 | every day of the month is on its grid |
| CalendarGrid.MonthGrid | src/components/Calendar.tsx:209-213 | the grid of the selected day's month; MonthGridSameMonth and MonthGridHoldsSelected state what it shows |
| CalendarGrid.MonthGridSameMonth | src/components/Calendar.tsx:323 | isSameMonth holds exactly for the cells from the leading count to leading + month length − 1 |
| CalendarGrid.MonthGridHoldsSelected | src/components/Calendar.tsx:209-213 | the selected day is on the grid shown for it |
| CalendarGrid.PrevMonth | src/components/Calendar.tsx:204 | the month before is a valid 1st that ends the day before month m starts |
| CalendarGrid.NextMonth | src/components/Calendar.tsx:205 | the month after is a valid 1st that starts the day after month m ends |
| CalendarGrid.MonthStepRoundTrip | src/components/Calendar.tsx:201-207 | back then forward, and forward then back, return to the 1st of the month; the year changes exactly across December and January |
| CalendarGrid.StepMonth | src/components/Calendar.tsx:202-205 | the step lands on a valid 1st of a month |
| CalendarGrid.NavigateTarget | src/components/Calendar.tsx:201-207 | the day navigateDate selects; NavigateLandsOnFirst and NavigateRoundTrip state where it lands |
| CalendarGrid.NavigateLandsOnFirst | src/components/Calendar.tsx:201-207 | navigateDate selects day 1 of the month before or after |
| CalendarGrid.NavigateRoundTrip | src/components/Calendar.tsx:201-207 | prev then next, and next then prev, land on the 1st of the original month |
| DayCells.OnDay | src/components/Calendar.tsx:320 | isSameDay(event.startTime, day); DayEvents and EventInOneCell state what the filter keeps |
| DayCells.DayEvents | src/components/Calendar.tsx:320 | a cell's events are exactly the events that start on its day |
| DayCells.DayEventsCount | src/components/Calendar.tsx:320 | every occurrence of an event of that day is kept, and no other |
| DayCells.DayEventsInOrder | src/components/Calendar.tsx:320 | the day's events are a subsequence of all events, order kept |
| DayCells.DayEventsConcat | src/components/Calendar.tsx:320 | filtering a concatenation filters each part |
| DayCells.EventInOneCell | src/components/Calendar.tsx:319-320 | an event is listed in at most one cell of a grid |
| DayCells.CellOf | src/components/Calendar.tsx:375-415 | a cell shows the first min(2, n) events, and has the "more" line exactly when n > 2 |
| DayCells.CellAccountsForAll | src/components/Calendar.tsx:375-415 | the shown events plus the "more" count are all n events of the day, and the line says n − 2 |
| DayCells.Instant | src/components/Calendar.tsx:324-325 | the instant of a time of day lies within that day's milliseconds, on the first exactly at 00:00:00.000 and on the last exactly at 23:59:59.999 |
| DayCells.FlagsOf | src/components/Calendar.tsx:321-325 | isPast, computed on instants, holds exactly when the day is before today, and isFuture exactly when it is after |
| DayCells.FlagsConsistent | src/components/Calendar.tsx:321-325 | a day is exactly one of past, today and future, and a selected day is in the current month |
| DayCells.DayLabel | src/components/Calendar.tsx:367-369 | the label is never empty; GridLabelIsLongOutsideMonth states when it is the long one |
| DayCells.GridLabelIsLongOutsideMonth | src/components/Calendar.tsx:367-369 | on the grid, a cell outside the month always has a different month number, so it gets the long label |
| DateFormat.Clock | src/components/Calendar.tsx:67 | 'HH:mm' is five characters with ':' in the middle |
| DateFormat.ClockFields | src/components/Calendar.tsx:67 | the two digit fields of 'HH:mm' read back as the hour and the minute |
| DateFormat.ParseIsoDate | src/components/Calendar.tsx:181 | a 'yyyy-MM-dd' string that parses renders back to itself |
| DateFormat.IsoDateRoundTrip | src/components/Calendar.tsx:181 | for years 1 to 9999, 'yyyy-MM-dd' parses back to the day |
| DateFormat.MonthAbbrev | src/components/Calendar.tsx:368 | 'MMM' is the first three letters of 'MMMM' |
| DateFormat.NamesDistinct | src/components/Calendar.tsx:172 | the weekday and month names are pairwise distinct |
| Diary.Prompt | src/components/Calendar.tsx:63-79 | the prompt holds more than the events section; ChineseTemplateShared states which locales share it |
| Diary.EventsSection | src/components/Calendar.tsx:66-69 | the blocks joined with '\n'; SectionLineBreaks states its line breaks |
| Diary.OptionalLine | src/components/Calendar.tsx:69 | an optional line is empty exactly when its field is absent or empty |
| Diary.ListLine | src/components/Calendar.tsx:69 | a list line is empty exactly when its list is absent or empty |
| Diary.EventBlocks | src/components/Calendar.tsx:66-69 | there is one block per event, in order |
| Diary.ChineseTemplateShared | src/components/Calendar.tsx:63-99 | zh-TW gets exactly the zh-CN prompt and system message |
| Diary.BlockAsLines | src/components/Calendar.tsx:66-77 | a block is '\n' followed by its lines joined with '\n': time, title, the present optional fields in order, the description last |
| Diary.LinesCount | src/components/Calendar.tsx:66-69 | a block has 3 lines plus one per present optional field |
| Diary.LinesSingle | src/components/Calendar.tsx:66-69 | with single-line labels and fields, every line of a block is a single line |
| Diary.LabelsOneLine | src/components/Calendar.tsx:67-77 | the labels of either template are single lines |
| Diary.BlockLineBreaks | src/components/Calendar.tsx:66-69 | with single-line fields, a block holds 3 + present-fields line breaks, none after the description |
| Diary.BlocksBreaks | src/components/Calendar.tsx:66-69 | the blocks together hold the sum of their line breaks |
| Diary.SectionLineBreaks | src/components/Calendar.tsx:66-69 | the joined section holds every block's line breaks plus one separator between each pair |
| Diary.Classify | src/components/Calendar.tsx:81-144 | a success carries non-empty content |
| Diary.ClassifySucceedsIff | src/components/Calendar.tsx:81-144 | generation succeeds exactly for a key, an OK response, a body without error, and present content, and then returns that content |
| Diary.ClassifyOrder | src/components/Calendar.tsx:81-142 | the checks come in order: missing key whatever the reply, then status, then error payload |
| Diary.ContentRoundTrip | src/components/Calendar.tsx:135-144 | non-empty content comes back unchanged, and empty content is NoContent |
| Diary.ErrorMessage | src/components/Calendar.tsx:81-142 | every failure the chain raises itself has a message, and only a rethrown one has none |
| Diary.ErrorMessagesDistinct | src/components/Calendar.tsx:81-142 | different kinds of failure have different messages in either language |
| Diary.DiaryFileName | src/components/Calendar.tsx:181 | `diary-yyyy-MM-dd.txt`; ParseDiaryFileName and DiaryFileNameRoundTrip state that it names its day |
| Diary.ParseDiaryFileName | src/components/Calendar.tsx:181 | a file name that parses is the name of the day it gives |
| Diary.DiaryFileNameRoundTrip | src/components/Calendar.tsx:181 | for years 1 to 9999, the file name gives back its day |
| Diary.HeaderLine | src/components/Calendar.tsx:171-173 | the header in either language, with English day names; HeaderIsOneLine states it is one line |
| Diary.DiaryText | src/components/Calendar.tsx:171-175 | the file text; DiaryTextSplits states it splits into the header and the content |
| Diary.HeaderIsOneLine | src/components/Calendar.tsx:171-173 | the date header holds no line break |
| Diary.DiaryTextSplits | src/components/Calendar.tsx:171-175 | the file text is the header, a blank line and then exactly the content |
| CalendarView.ExportMessagesDiffer | src/components/Calendar.tsx:161-191 | the no-events and the generic failure messages differ |
| CalendarView.Calendar.constructor | src/components/Calendar.tsx:57-60 | the calendar starts on today, with no events, not generating and no error |
| CalendarView.Calendar.Cell | src/components/Calendar.tsx:320-375 | every event a cell shows is an event of that day |
| CalendarView.Calendar.SelectedOnScreen | src/components/Calendar.tsx:209-321 | the selected day is on screen, and exactly one cell is marked selected, whatever today is |
| CalendarView.Calendar.SelectDay | src/components/Calendar.tsx:197-199 | a click selects the day and changes nothing else |
| CalendarView.Calendar.GoToToday | src/components/Calendar.tsx:237 | the Today button selects today and changes nothing else |
| CalendarView.Calendar.Navigate | src/components/Calendar.tsx:201-207 | navigation selects the navigation target and changes nothing else |
| CalendarView.Calendar.GenerateDiaryContent | src/components/Calendar.tsx:62-148 | the result is the classification of the reply; a request goes out exactly when a key is set |
| CalendarView.Calendar.ExportDiary | src/components/Calendar.tsx:151-195 | see below |
| CalendarView.FreshExportFindsNoEvents | src/components/Calendar.tsx:151-167 | an export from a freshly mounted calendar reports no events and sends and saves nothing |
| EventFormView.AddIfAbsent | src/components/EventForm.tsx:113-114 | the list grows by the entry at the end exactly when it is non-empty and new; membership is the old list plus the entry |
| EventFormView.RemoveAll | src/components/EventForm.tsx:120 | the result holds exactly the other elements |
| EventFormView.RemoveAllCount | src/components/EventForm.tsx:120 | every occurrence goes, and every other element keeps its count |
| EventFormView.RemoveAllInOrder | src/components/EventForm.tsx:120 | the remaining elements keep their order |
| EventFormView.RemoveAllAbsent | src/components/EventForm.tsx:120 | removing an absent element changes nothing |
| EventFormView.AddThenRemove | src/components/EventForm.tsx:112-121 | adding a new entry and removing it restores the list |
| EventFormView.AddKeepsChipList | src/components/EventForm.tsx:112-117 | adding keeps a list free of duplicates and of "" |
| EventFormView.RemoveKeepsChipList | src/components/EventForm.tsx:119-121 | removing keeps a list free of duplicates and of "" |
| EventFormView.EventForm.constructor | src/components/EventForm.tsx:67-95 | see below |
| EventFormView.EventForm.Edit | src/components/EventForm.tsx:143-232 | an input sets its own field only; a cleared date picker changes nothing |
| EventFormView.EventForm.Submit | src/components/EventForm.tsx:97-110 | the submitted record is exactly the nine current fields |
| EventFormView.EventForm.AddTag | src/components/EventForm.tsx:112-117 | see below |
| EventFormView.EventForm.RemoveTag | src/components/EventForm.tsx:119-121 | the tags lose every occurrence of the tag; a chip list stays one; nothing else changes |
| EventFormView.EventForm.AddParticipant | src/components/EventForm.tsx:123-128 | as AddTag on the participants; the tags are untouched |
| EventFormView.EventForm.RemoveParticipant | src/components/EventForm.tsx:130-132 | as RemoveTag on the participants; the tags are untouched |
| EventFormView.SubmitBlank | src/components/EventForm.tsx:67-110 | a blank dialog submits 09:00 to 10:00 on the selected date, so the end is an hour after the start |
| EventFormView.SubmitUnchanged | src/components/EventForm.tsx:83-110 | an unchanged dialog submits the initial fields, with '' and [] for missing ones |
| EventFormView.AddThenRemoveTag | src/components/EventForm.tsx:112-121 | adding a new tag and deleting its chip restores the tags and leaves the participants |
| RegisterView.ValidUsername | src/components/auth/Register.tsx:37-39 | 3 to 20 UTF-16 units; FirstFailure and EmptyRejected state how the form uses it |
| RegisterView.ValidPassword | src/components/auth/Register.tsx:41-43 | at least 8 UTF-16 units; FirstFailure and EmptyRejected state how the form uses it |
| RegisterView.ValidEmail | src/components/auth/Register.tsx:32-35 | the email conditions; EmailPatternIff states they are the regular expression |
| RegisterView.Utf16Length | src/components/auth/Register.tsx:37-43 | String.length counts UTF-16 units: between one and two per character |
| RegisterView.Utf16LengthBmp | src/components/auth/Register.tsx:37-43 | for Basic Multilingual Plane text it is the number of characters |
| RegisterView.EmailPatternIff | src/components/auth/Register.tsx:32-35 | see below |
| RegisterView.FirstFailure | src/components/auth/Register.tsx:49-83 | see below |
| RegisterView.EmptyRejected | src/components/auth/Register.tsx:50-74 | the validators reject "", so the emptiness checks only choose the message |
| RegisterView.Payload | src/components/auth/Register.tsx:87-92 | the payload carries the three fields, and the name exactly when it is non-empty |
| RegisterView.RegisterForm.constructor | src/components/auth/Register.tsx:22-28 | the form starts empty, with no error, not loading, nothing sent |
| RegisterView.RegisterForm.Enter | src/components/auth/Register.tsx:129-174 | an input sets its own field only |
| RegisterView.RegisterForm.Submit | src/components/auth/Register.tsx:45-98 | see below |
| Auth.TrialUser | src/contexts/AuthContext.tsx:81-90 | the trial user has id 'trial-user', the light theme and the current locale |
| Auth.TrialUserLocale | src/contexts/AuthContext.tsx:86-89 | trial users differ only in their locale |
| Auth.AuthState.constructor | src/contexts/AuthContext.tsx:35-45 | no user, loading, no error, the saved locale or 'en', the saved count or 5 |
| Auth.AuthState.LoadUser | src/contexts/AuthContext.tsx:53-70 | with a token the fetched user is set, and a failure leaves it; loading ends either way |
| Auth.AuthState.StartTrialMode | src/contexts/AuthContext.tsx:77-92 | see below |
| Auth.AuthState.SignIn | src/contexts/AuthContext.tsx:94-120 | see below |
| Auth.AuthState.Login | src/contexts/AuthContext.tsx:94-106 | as SignIn with authApi.login's reply |
| Auth.AuthState.Register | src/contexts/AuthContext.tsx:108-120 | as SignIn with authApi.register's reply |
| Auth.AuthState.Logout | src/contexts/AuthContext.tsx:122-134 | on success no user and no error; on failure the user stays and the message is set and rethrown; loading ends |
| Auth.AuthState.SetLocale | src/contexts/AuthContext.tsx:36-39 | sets the locale and nothing else |
| Auth.AuthState.UpdateUserPreferences | src/contexts/AuthContext.tsx:136-146 | without a user nothing is asked and nothing changes; otherwise the returned user is set, or the error is set and rethrown |
| Auth.FreshTrials | src/contexts/AuthContext.tsx:42-92 | from nothing saved the count runs 5, 4, 3, 2, 1, 0 and then stays at 0 |
| RouteGuard.Decide | src/components/auth/ProtectedRoute.tsx:15-36 | spinner exactly while loading; redirect to /login, with the location, exactly when not loading and no user and no trial left |
| RouteGuard.ChildrenIff | src/components/auth/ProtectedRoute.tsx:30-36 | the page shows exactly when not loading and there is a user or a trial left, without using a trial |
| RouteGuard.LocationOnlyRemembered | src/components/auth/ProtectedRoute.tsx:31-33 | the location only matters as what the redirect remembers |
| RouteGuard.GuardAfterTrial | src/components/auth/ProtectedRoute.tsx:31-36 | after a trial starts, the page is shown |
| RouteGuard.GuardAfterLogout | src/components/auth/ProtectedRoute.tsx:31-33 | after a logout with no trial left, the visitor is redirected to /login |
| LoginView.LoginPage.constructor | src/components/auth/Login.tsx:22-25 | the page starts empty, with no error and not loading |
| LoginView.LoginPage.Enter | src/components/auth/Login.tsx:86-95 | an input sets its own field only |
| LoginView.LoginPage.TrialButtonDisabled | src/components/auth/Login.tsx:122 | disabled exactly when no trial is left; TrialButtonMatchesGuard and HandleTrialMode state what that means |
| LoginView.LoginPage.TrialButtonMatchesGuard | src/components/auth/Login.tsx:122 | for a visitor without a user, the button is disabled exactly when the route guard redirects to /login |
| LoginView.LoginPage.HandleSubmit | src/components/auth/Login.tsx:27-41 | the error is cleared; success goes to '/'; any failure shows loginFailed; loading ends |
| LoginView.LoginPage.HandleTrialMode | src/components/auth/Login.tsx:43-50 | see below |

The rows marked "see below":

- **CalendarView.Calendar.ExportDiary**:
  - The busy flag is down at the end, and the selected day and the events are unchanged.
  - A day without events sets the no-events message and sends and saves nothing.
  - Otherwise a request goes out exactly when a key is set.
  - Any failure sets the one generic message and saves nothing.
  - A success clears the error and saves `diary-yyyy-MM-dd.txt`, which holds the header and the content.
- **EventFormView.EventForm.constructor**:
  - Without initial values the fields are empty, and the times are 09:00 and 10:00 on the selected date.
  - With initial values every field is copied, with '' or [] for missing ones.
  - The entry fields are empty.
- **EventFormView.EventForm.AddTag**:
  - The tags become AddIfAbsent(tags, newTag).
  - The entry is cleared exactly when the tag was accepted.
  - A chip list stays one.
  - Nothing else changes.
- **RegisterView.EmailPatternIff**: "no white space, exactly one '@', something before it, and a '.' after it that is not the first or last character after it" is equivalent to `/^[^\s@]+@[^\s@]+\.[^\s@]+$/`, in both directions.
- **RegisterView.FirstFailure**: the result is no failure exactly when every check passes. Each message is reported exactly when its check is the first one to fail, in the source's order: username empty, username bad, email empty, email bad, password empty, password short, mismatch.
- **RegisterView.RegisterForm.Submit**:
  - On the first failed check, its requirement is the error and nothing is sent.
  - Otherwise the payload is sent, a rejection's message becomes the error, and loading ends.
  - Only acceptable payloads are ever sent.
- **Auth.AuthState.StartTrialMode**:
  - With a trial left, the count drops by exactly 1 and the trial user is set.
  - Otherwise nothing changes.
  - The count never goes below 0.
- **Auth.AuthState.SignIn**:
  - The error is cleared.
  - On success the user is the returned one.
  - On failure the user stays, and the message is set and rethrown.
  - Loading ends either way.
- **LoginView.LoginPage.HandleTrialMode** (the button's `disabled` flag is at `src/components/auth/Login.tsx:122`):
  - When the button is enabled, one trial starts and the page goes to '/'.
  - When it is disabled, trialExpired is shown and nothing else happens.

## Left out

- The request itself is not modelled: the fetch, its JSON body, headers and sampling parameters (`src/components/Calendar.tsx:86-113`). A request is recorded as what it is built from, the locale and the day's events. `CalendarView.Request.System` and `Body` give its system message and prompt.
- The reply of the endpoint is an input. A rejected fetch or an unparsable body is `NetworkFailure` or `body == None`, which the chain rethrows.
- The Blob and anchor download (`src/components/Calendar.tsx:177-185`) is recorded as a `Download(fileName, text)` entry.
- `console` logging is left out.
- The date-fns library is not part of this model. The model gives its own definitions of:
  - `startOfWeek`, `endOfWeek`, `startOfMonth`, `endOfMonth` and `eachDayOfInterval`;
  - `isSameDay` and `isSameMonth`;
  - the patterns 'HH:mm', 'yyyy-MM-dd', 'd', 'MMM d', 'EEEE' and 'MMMM'.
  The week start of each date-fns locale is a parameter, because its value is locale data.
- Time zones and daylight saving are left out. A moment is a civil day with an hour and a minute; instants in milliseconds appear only for the day flags (`DayCells.Instant`), as local time with every day 86400000 milliseconds long.
- `EventForm.tsx:69-72` calls `setHours` on the `selectedDate` prop, which mutates it. The model is not affected: it only takes the selected day and 09:00/10:00.
- The title of the month (`src/components/Calendar.tsx:274`) is not modelled: it is a `format` call with a locale.
- The Chinese forms of 'd' and 'M月d日' use `Decimal` with width 1.
- The locale tables behind `t(...)` are not part of this model. Translated messages are enum values (`Requirement`, `LoginMessage`). The calendar's own literal messages are strings.
- `CalendarView.Calendar.ExportDiary`: `isGenerating` is true only while the handler runs, so the model states only its final value.
- The calendar never loads events: `setEvents` is never called. `CalendarView.FreshExportFindsNoEvents` states the consequence.
- `localStorage` is left out: its reads and writes, and `parseInt` of the saved trial count (`src/contexts/AuthContext.tsx:36-50, 72-75`). Saved values arrive already parsed as `Option` inputs. A saved locale string that is not a locale, and a count that parses to NaN, are not modelled.
- The constructor's `''` checks on saved values are not modelled: an empty string stands for nothing saved.
- The token removal in `loadUser` is not modelled. `hasToken` is an input.
- `Diary.JoinLinesCount` and `TextFormat.JoinCount`: the count of a character in a join is proved for separators that hold it at most once. That covers the separators the source uses, `'\n'` and `', '`.
- `Diary.BlockLineBreaks`, `Diary.LinesSingle` and `Diary.SectionLineBreaks` require every field to be a single line. The source does not check this. A field with its own line breaks adds them to the block.
- `DateFormat.IsoDateRoundTrip` and `Diary.DiaryFileNameRoundTrip` require years 1 to 9999, the years 'yyyy' renders in exactly four digits.
- The form ignores the `duration` of initial values: neither its state nor its submission holds it (`src/components/EventForm.tsx:67-110`). The model's `Draft`, the type of the initial values, has the field, and `EventForm` drops it. Nothing checks that the end comes after the start once the fields are edited; the source does not check it either.
- The trial user's `createdAt` is absent in the model (`None`), as it is in the source.
- `RegisterData.name` is `Option`. The source builds the payload without the key when the name is empty, although `src/types/user.ts:24` declares it required.
- `src/services/api.ts` is not part of this model. Neither are `src/components/EventList.tsx`, `src/components/settings/UserSettings.tsx`, `src/routes/index.tsx`, `src/App.tsx`, `src/config.ts` and `src/hooks/useTranslation.ts`. They hold network plumbing, rendering, routing and configuration reads, with no logic beyond what is modelled here.
- Concurrency between React renders is not modelled. Each handler runs to completion with the state it closed over. For `startTrialMode` and the login handlers, this is the same as the source's behaviour.
