# The Oasis dashboard, modelled in Dafny

The Oasis is a single-page calendar dashboard. A language-model interpreter turns a
typed command into a structured command: CREATE, READ, UPDATE or DELETE, with
optional event fields, a target title and a reply. The dashboard then applies that
command to its in-memory event store.

Around that store sit:

- a reminder tick that raises notifications for events about to start;
- a month, week and day calendar;
- a to-do list;
- a photo viewer;
- a small "Oasis plant" that grows one level on each day it is both watered and
  given a kind word.

This project models those parts and proves properties about them.

## Layout

- `wrappers.dfy`, `types.dfy`: `Option`, and the records of the dashboard.
  - The records are calendar events, the command with its partial event fields, chat
    messages, to-do items and views.
  - They also hold JavaScript truthiness (`Given`, `GivenNumber`, `Or`).
- `strings.dfy`:
  - `String.prototype.trim` and its white-space set;
  - ASCII lower-casing;
  - `includes`;
  - fixed-width decimal digits.
- `datetime.dfy`:
  - Timestamps are whole minutes since 0001-01-01 00:00 on the proleptic Gregorian
    calendar.
  - It covers splitting into day and minute, `isSameDay` and `getDay`.
  - It covers the `yyyy-MM-dd` / `HH:mm` formatter and the strict
    `yyyy-MM-dd HH:mm` parser, with their round trips.
- `seqs.dfy`: `Array.prototype.filter`, with the order and multiset facts the other
  modules use.
- `eventstore.dfy`: the store operations of the reconciler.
  - CREATE's append-and-sort is a stable insertion sort, matching the stable
    `Array.prototype.sort`.
  - DELETE's case-insensitive substring filter.
  - UPDATE's truthiness-driven field merge and date re-parse.
- `reconciler.dfy`: `applyAICommand` as a function from a command and a store to an
  `Outcome`.
  - The outcome is the new store, the error raised, the chat reply and the date the
    calendar turns to.
  - A lemma per branch restates what that branch computes in terms of the store
    operations; the order facts behind CREATE are `EventStore.SortStable` and
    `Reconciler.CreateInsertsInPlace`.
- `reminders.dfy`: one `checkReminders` pass as a loop (`ScanReminders`), proved
  against the specification function `Upcoming`, and notification dismissal.
- `app.dfy`: the `Dashboard` class holds the state fields of the `App` component.
  Its methods are the handlers: apply and submit a command, the reminder tick and
  dismissal, watering and nurturing, date selection, view change, prev and next.
- `remindernotifications.dfy`: the plant panel.
  - The same-day care checks, the status line and the growth-stage drawing.
  - Which controls are disabled.
  - The kind-word form (`OasisPlant` class).
- `calendar.dfy`:
  - the month grid's slots and their weekday columns;
  - each day's events;
  - the two-event limit of a month cell with its "+ k more" count;
  - the Monday-first week;
  - the view switch.
- `eventsidebar.dfy`: the to-do list (`TodoList` class) with add, toggle and remove.
- `photogallery.dfy`: the photo viewer (`Gallery` class) with next/prev wrap-around,
  close, thumbnail click and the keyboard handler.

What comes from outside the model is a parameter:

- `now`, the handler's `today`, and the `newId` that stands for
  `Date.now().toString()`;
- the month arithmetic of `subMonths`/`addMonths`;
- the interpreter's answer for a submitted text (`InterpreterResult`: a command,
  `null`, or a thrown error).

## Model

| member | source | states |
|---|---|---|
| Types.Or | App.tsx:149 | `s \|\| fallback` for an optional string: the value when present and non-empty, the fallback otherwise |
| Strings.Trim | components/EventSidebar.tsx:15-16 | the result is the slice of the input between two blank ends; it is empty exactly when the input is blank; a non-empty result starts and ends with a non-space |
| Strings.BlankAllSpace | App.tsx:219 | the `!s.trim()` test (`IsBlank`) holds exactly when every character is white space |
| Strings.Lower | App.tsx:183 | lower-casing keeps the length and maps each character by itself |
| Strings.LowerIdempotent | App.tsx:183 | lower-casing twice is lower-casing once |
| Strings.Contains | App.tsx:183 | `includes` is true exactly when some slice of the text equals the needle |
| Strings.ContainsEmpty | App.tsx:183 | every text includes the empty string |
| DateTime.DaySplit | App.tsx:70 | a timestamp is its day number times 1440 plus its minute of the day |
| DateTime.DateOf | App.tsx:195 | the calendar date of a day number is a valid date whose day number is that number |
| DateTime.DateOfDayNumber | App.tsx:195 | `DateOf` inverts `DayNumber` on valid dates |
| DateTime.DayNumberInMonth | components/Calendar.tsx:38 | day `k` of a month is `k - 1` days after its first |
| DateTime.ParseDateTime | App.tsx:154 | a parsed timestamp is never before year 1 |
| DateTime.FormatDateRoundTrip | App.tsx:195-196 | `yyyy-MM-dd` of a timestamp in years 1..9999 parses back to its day |
| DateTime.FormatTimeRoundTrip | App.tsx:195-196 | `HH:mm` of a timestamp parses back to its minute of the day |
| DateTime.FormatRoundTrip | App.tsx:195-197 | formatting a timestamp as `yyyy-MM-dd HH:mm` and parsing it gives the same timestamp (years 1..9999) |
| DateTime.ParseDateCanonical | App.tsx:154 | the only date strings the parser accepts are formatted dates: a string that parses to a day is the formatted form of that day |
| DateTime.ParseTimeCanonical | App.tsx:154 | a time string that parses to a minute is the formatted form of that minute |
| DateTime.ParseJoined | App.tsx:153-154 | a date string and a time string joined by a space parse to that day at that minute, and fail when either part fails |
| DateTime.JoinedParses | App.tsx:153-154 | an accepted date and an accepted time joined by a space parse together |
| DateTime.ParsedSplit | App.tsx:135-136 | a day number and a minute below 1440 give a timestamp that splits back into them |
| DateTime.ParseDateRejectsSpace | App.tsx:195-196 | no date string containing a space parses |
| DateTime.ParseTimeRejectsSpace | App.tsx:195-196 | no time string containing a space parses |
| Seqs.FilterConcat | App.tsx:183 | filtering a joined list joins the filtered parts, so filters keep order |
| Seqs.FilterKeepsAll | App.tsx:183 | a filter every element passes changes nothing |
| Seqs.FilterDropsAll | App.tsx:183 | a filter every element fails leaves nothing |
| Seqs.FilterSubMultiset | App.tsx:183 | a filter keeps at most what it was given, counted with multiplicity |
| EventStore.InsertByDate | App.tsx:170 | inserting adds exactly the one event: one longer, same multiset plus that event |
| EventStore.InsertKeepsOrder | App.tsx:170 | inserting into a date-sorted list keeps it date-sorted |
| EventStore.SortByDate | App.tsx:170 | the sort is a date-ordered permutation of its input |
| EventStore.OnDateCons | App.tsx:170 | the events at one timestamp of a list with an event in front are that event, if it is at that timestamp, then the rest's |
| EventStore.InsertOnDate | App.tsx:170 | inserting into a date-sorted list places the new event after every event at the same timestamp |
| EventStore.InsertBeforeAll | App.tsx:170 | an event earlier than the first of a date-sorted list goes in front of it, no event of the list shares its timestamp, and so it follows every event at its own timestamp |
| EventStore.SortStable | App.tsx:170 | the sort is stable: the events at any one timestamp keep their relative order |
| EventStore.InsertAtEnd | App.tsx:170 | an event not earlier than any in the list goes at the end |
| EventStore.SortKeepsSorted | App.tsx:170 | sorting a date-ordered list changes nothing |
| EventStore.NewEvent | App.tsx:162-169 | the created event has the given id, title and parsed date; the description defaults to empty and the calendar to "personal"; the reminder is copied as it came |
| EventStore.Created | App.tsx:170 | the store after CREATE is one longer, holds the old events plus the new one, and is date-sorted |
| EventStore.CreateIntoSorted | App.tsx:170 | into a sorted store, CREATE is that single in-place insertion |
| EventStore.MatchesIgnoresTargetCase | App.tsx:183 | matching is insensitive to the case of the target |
| EventStore.DeleteMatching | App.tsx:183 | DELETE keeps exactly the events whose lower-cased title does not include the lower-cased target, no more than the store held |
| EventStore.DeleteConcat | App.tsx:183 | DELETE keeps the survivors' relative order |
| EventStore.DeleteNoMatch | App.tsx:183 | DELETE with nothing matching leaves the store as it is |
| EventStore.DeleteIdempotent | App.tsx:183 | a second DELETE with the same target removes nothing more |
| EventStore.Merge | App.tsx:197 | the merged event keeps its id; title, description, calendar and reminder take the new value only when it is truthy; the date is the re-parsed date |
| EventStore.UpdateMatching | App.tsx:193-200 | UPDATE keeps length and positions, merges each matching event and leaves every other one as it was |
| EventStore.UpdateKeepsIds | App.tsx:193-200 | UPDATE changes no event's id, position by position |
| EventStore.MergeKeepsDate | App.tsx:195-197 | with no date and no time given, the reformat-and-reparse keeps the event's date |
| EventStore.MergeTimeOnly | App.tsx:195-197 | a time alone moves the event to that time on its own day |
| EventStore.MergeDateOnly | App.tsx:195-197 | a date alone moves the event to that day at its old time of day |
| EventStore.MergeBadDateKeepsDate | App.tsx:195-197 | a given date that does not parse keeps the old date, whatever the time |
| Reconciler.ReconcileErrors | App.tsx:148-214 | a command raises no error exactly when it is accepted; a refused command leaves the store as it was and moves nothing; only an accepted CREATE moves the calendar |
| Reconciler.ReconcileRead | App.tsx:208-209 | READ changes nothing and replies with the interpreter's message or the fallback |
| Reconciler.ReconcileCreate | App.tsx:151-174 | an accepted CREATE adds exactly the new event, leaves the store sorted, focuses its date, and replies with the message or the templated confirmation |
| Reconciler.ReconcileCreateRefused | App.tsx:152-178 | a CREATE whose date does not parse is refused with the invalid-date error naming the string; one without a title or date is refused as incomplete |
| Reconciler.ReconcileDelete | App.tsx:181-189 | DELETE with a target keeps exactly the non-matching events with the templated reply; without a target it is refused |
| Reconciler.ReconcileUpdate | App.tsx:191-206 | UPDATE with a target and fields merges each matching event in place; otherwise it is refused |
| Reconciler.ReconcileUnknown | App.tsx:211-213 | any other action tag raises the unknown-action error naming the tag |
| Reconciler.CreateInsertsInPlace | App.tsx:170 | on a sorted store, CREATE is the stable insertion of the new event |
| Reconciler.CreateDeleteKeepOrder | App.tsx:170-183 | CREATE, DELETE and READ keep a date-sorted store sorted |
| Reconciler.DeleteKeepsOrder | App.tsx:183 | DELETE keeps a sorted store sorted |
| Reconciler.UpdateCanUnsort | App.tsx:193-200 | UPDATE does not re-sort: moving the earlier of two ordered events past the later one leaves the store out of order |
| Reconciler.UpdateCanUnsortInstance | App.tsx:193-200 | a concrete store of two events that a date-only UPDATE leaves out of order |
| Reminders.ScanReminders | App.tsx:98-111 | the loop over the events collects exactly `Upcoming`: due, not already showing, not yet collected, in store order |
| Reminders.UpcomingSound | App.tsx:103-107 | everything collected is a store event that is due and not already showing |
| Reminders.UpcomingNoDups | App.tsx:106 | no id is collected twice |
| Reminders.UpcomingComplete | App.tsx:102-107 | every due event that is not showing has its id collected |
| Reminders.ScanKeepsNoDups | App.tsx:113-114 | a tick never makes an id show twice |
| Reminders.ScanSettles | App.tsx:113-114 | at the same instant, a second tick collects nothing |
| Reminders.NothingNew | App.tsx:113 | when every due event is already showing, the tick collects nothing |
| Reminders.Dismissed | App.tsx:122-124 | dismissal removes every notification with that id and keeps all the others |
| Reminders.DismissedConcat | App.tsx:122-124 | dismissal distributes over joined lists, so the notifications that stay keep their order |
| Reminders.DismissKeepsNoDups | App.tsx:122-124 | dismissal keeps ids distinct |
| Reminders.DismissedReturns | App.tsx:122-124 | a dismissed reminder that is still due is collected again by the next tick |
| App.Grow | App.tsx:63-65 | one level more, capped at the flowering level 4 |
| App.GrowTimesCaps | App.tsx:63-65 | repeated growth climbs one level at a time and stops at 4 |
| App.ShiftedBack | App.tsx:132-146 | in the day and week views, next undoes prev and prev undoes next; both keep the time of day, and a week step keeps the weekday |
| App.WaterGrowsOnlyWhenNurtured | App.tsx:67-73 | a watering that makes the plant grow happened on a day with a kind word, before flowering |
| App.Dashboard.constructor | App.tsx:43-61 | the initial state: seed events, today current and selected, month view, no error and no notifications, the greeting in the chat, a sprout that was never cared for |
| App.Dashboard.ApplyCommand | App.tsx:148-216 | the store and focus become the reconciler's, its error (if any) is raised, exactly one assistant reply is appended, and nothing else changes |
| App.Dashboard.SubmitCommand | App.tsx:218-239 | a blank text changes nothing; any other clears the error, logs the user's text, then adds the reconciled command or the no-command or failure message and error, and ends not loading |
| App.Dashboard.CheckReminders | App.tsx:98-116 | the newly due reminders join the end of the showing ones, ids stay distinct, and every other field is unchanged |
| App.Dashboard.DismissNotification | App.tsx:122-124 | the notifications become the dismissed list (in order, by `Reminders.DismissedConcat`), ids stay distinct, and every other field is unchanged |
| App.Dashboard.WaterPlant | App.tsx:67-73 | the watering is recorded; the plant grows one level when it was nurtured the same day; every other field is unchanged |
| App.Dashboard.NurturePlant | App.tsx:75-81 | the kind word is recorded; the plant grows one level when it was watered the same day; every other field is unchanged |
| App.Dashboard.SelectDate | App.tsx:126-130 | the date becomes selected and current, in the day view; every other field is unchanged |
| App.Dashboard.SetView | App.tsx:250 | the view changes and every other field is unchanged |
| App.Dashboard.Prev | App.tsx:132-138 | the current date moves a month, a week or a day back, as the view says; every other field is unchanged |
| App.Dashboard.Next | App.tsx:140-146 | the current date moves a month, a week or a day ahead, as the view says; every other field is unchanged |
| ReminderNotifications.CaredTodayWithinDay | components/ReminderNotifications.tsx:63-64 | a care counts for today exactly when it was recorded between today's midnight and the next |
| ReminderNotifications.StatusMessage | components/ReminderNotifications.tsx:98-104 | each of the five status lines shows exactly under its own condition, in the code's priority order |
| ReminderNotifications.StageOf | components/ReminderNotifications.tsx:15-44 | levels 0..4 have a drawing (0 the sprout, 4 the flower) and every other level none |
| ReminderNotifications.Panel | components/ReminderNotifications.tsx:113-140 | water is disabled once watered today; the input once nurtured today; send also while the message is blank; status and drawing follow the growth level and today's cares |
| ReminderNotifications.BothCaredLocks | components/ReminderNotifications.tsx:119-140 | once both cares are given today every control is locked, and the plant says it feels loved unless it has flowered |
| ReminderNotifications.OasisPlant.SetMessage | components/ReminderNotifications.tsx:130 | the input holds what was typed |
| ReminderNotifications.OasisPlant.NurtureSubmit | components/ReminderNotifications.tsx:91-96 | a blank message sends nothing and stays; any other is sent as typed and the input empties |
| Calendar.MonthSlots | components/Calendar.tsx:21-23 | the slots are `firstDay` blanks, then the days 1 to the month's length |
| Calendar.MonthSlotsAscending | components/Calendar.tsx:21-23 | after the first day every slot is a day, and days increase along the grid |
| Calendar.MonthStart | components/Calendar.tsx:18 | the first of the month is a valid date |
| Calendar.SlotColumn | components/Calendar.tsx:19-23 | day `j + 1` sits in the column of the weekday `j` days after the first |
| Calendar.WeekdayShift | components/Calendar.tsx:19 | moving on `j` days moves the weekday `j` places round the week |
| Calendar.MonthGridColumns | components/Calendar.tsx:16-35 | the grid of the current month holds its days, and each day falls in the Sunday-first column of its own weekday |
| Calendar.MonthGridOfColumns | components/Calendar.tsx:16-35 | the same, for the month of a day number |
| Calendar.DayColumn | components/Calendar.tsx:19-23 | the same, for a month given by year and month |
| Calendar.DayEvents | components/Calendar.tsx:96 | a day lists exactly the store's events on that day |
| Calendar.DayEventsConcat | components/Calendar.tsx:81 | a day lists its events in store order |
| Calendar.CreatedEventShows | components/Calendar.tsx:96 | an event added by CREATE shows in the list of its own day |
| Calendar.Visible | components/Calendar.tsx:51 | a month cell lists at most the first two of its day's events |
| Calendar.MoreCount | components/Calendar.tsx:56-57 | "+ k more" shows exactly when a day has more than two events, with `k` the rest |
| Calendar.CellAccountsForAll | components/Calendar.tsx:51-57 | the listed events and the "more" count together account for every event of the day |
| Calendar.WeekDays | components/Calendar.tsx:69-70 | the week view has seven consecutive days from a Monday, and the current day is among them |
| Calendar.Dispatch | components/Calendar.tsx:129-135 | 'day' and 'week' draw their own views; 'month' and every other value draw the month |
| Calendar.DispatchMatchesView | components/Calendar.tsx:129-135 | each dashboard view draws its own rendering |
| EventSidebar.Toggled | components/EventSidebar.tsx:21-23 | each item with that id flips its done flag; every other stays |
| EventSidebar.ToggleTwice | components/EventSidebar.tsx:21-23 | toggling twice gives the list back |
| EventSidebar.ToggleUnknown | components/EventSidebar.tsx:21-23 | toggling an unknown id changes nothing |
| EventSidebar.Removed | components/EventSidebar.tsx:25-27 | removal keeps exactly the items with another id |
| EventSidebar.RemovedConcat | components/EventSidebar.tsx:25-27 | removal keeps the remaining items' order |
| EventSidebar.RemoveUnknown | components/EventSidebar.tsx:25-27 | removing an unknown id changes nothing |
| EventSidebar.TodoList.constructor | components/EventSidebar.tsx:10-11 | the seed items and an empty input |
| EventSidebar.TodoList.SetInput | components/EventSidebar.tsx:11 | the input holds what was typed; the items stay |
| EventSidebar.TodoList.AddTodo | components/EventSidebar.tsx:13-19 | text that trims to something is added at the end, trimmed and not done, and the input clears; blank text changes nothing |
| EventSidebar.TodoList.Toggle | components/EventSidebar.tsx:21-23 | the items become the toggled list |
| EventSidebar.TodoList.Remove | components/EventSidebar.tsx:25-27 | the items become the list without that id |
| PhotoGallery.NextIndex | components/PhotoGallery.tsx:10 | the next index stays in range, is one more, and wraps from the last photo to the first |
| PhotoGallery.PrevIndex | components/PhotoGallery.tsx:16 | the previous index stays in range, is one less, and wraps from the first photo to the last |
| PhotoGallery.PrevNextInverse | components/PhotoGallery.tsx:8-18 | prev undoes next and next undoes prev |
| PhotoGallery.Gallery.Next | components/PhotoGallery.tsx:8-12 | while open, the next photo; while closed, nothing |
| PhotoGallery.Gallery.Prev | components/PhotoGallery.tsx:14-18 | while open, the previous photo; while closed, nothing |
| PhotoGallery.Gallery.Close | components/PhotoGallery.tsx:20-22 | the viewer closes |
| PhotoGallery.Gallery.Open | components/PhotoGallery.tsx:45 | a thumbnail click opens that photo |
| PhotoGallery.Gallery.KeyDown | components/PhotoGallery.tsx:25-30 | while open, ArrowRight is next, ArrowLeft is prev and Escape closes; any other key, and any key while closed, does nothing |

## Ordering and ids

A calendar store is expected to stay sorted by date after every operation. In the
code only CREATE sorts (App.tsx:170); UPDATE maps the store in place without sorting
again (App.tsx:193-200). The model follows the code:

- `Reconciler.CreateDeleteKeepOrder` proves that CREATE, DELETE and READ keep a sorted
  store sorted.
- `Reconciler.UpdateCanUnsort` and `Reconciler.UpdateCanUnsortInstance` show that
  UPDATE can leave it out of order.

Event ids are expected to be unique among the current events. The code uses
`Date.now().toString()` (App.tsx:163), which two quick CREATEs can repeat. The model takes that id as the parameter
`newId`, and nothing is claimed about uniqueness.

## Left out

- Time zones and daylight saving time: a timestamp is local wall-clock minutes, so
  `isSameDay` is equality of day numbers.
- Seconds and milliseconds of event dates.
  - Events are whole minutes, so the model cannot show an UPDATE dropping the
    seconds when it reformats a date as `yyyy-MM-dd HH:mm`.
  - The reminder clock `now` is in milliseconds; minute `t` is millisecond
    `t * 60000`.
- DateTime.ParseDateTime: the `yyyy-MM-dd HH:mm` parse is modelled strictly, with
  exactly four, two, two, two and two digits.
  - date-fns also accepts shorter digit runs: each token reads one up to its own
    number of digits, never more.
  - date-fns also accepts white space after the minutes.
  - The model rejects both kinds of string, so such a CREATE is refused and such an
    UPDATE keeps the old date.
- DateTime.FormatRoundTrip, EventStore.MergeKeepsDate, EventStore.MergeTimeOnly:
  these are stated for years 1 to 9999.
  - Dates before year 1 are formatted as the empty string, which never parses.
  - Years past 9999 are written with more than four digits.
- Strings.Lower: `toLowerCase` is modelled on the ASCII letters only. Other letters
  stay as they are.
- The language-model interpreter itself (services/geminiService.ts) is not part of
  this model.
  - Its answer for a submitted text is the parameter `InterpreterResult`.
  - The asynchronous wait between logging the user's message and applying the
    command is not modelled; only the final state is.
- The 10-second interval that runs `checkReminders`, and React's batching of state
  updates, are left out. `CheckReminders` is one tick on the current state.
- `subMonths`/`addMonths`: the month arithmetic is a parameter of `Prev`/`Next`.
  Only the day and week steps are computed.
- Audio playback, speech recognition and snapshots of speech transcripts, the chat
  panel's rendering, the header, the command bar, and all styling and markup are
  left out.
  - This includes the day view's pixel offset of an event (Calendar.tsx:110) and the
    week view's formatted labels.
- `formatDistanceToNow` and the e-mail list of the sidebar are left out.
- The text of a kind word is not kept: `handleNurturePlant` ignores it, and so does
  `App.Dashboard.NurturePlant`.
