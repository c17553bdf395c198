/** The dashboard state of App.tsx and the handlers that change it: applying an
    interpreted command, submitting a command text, the reminder tick and dismissal,
    the plant care handlers, date selection and prev/next navigation. */
module App {
  import opened Wrappers
  import opened Strings
  import opened DateTime
  import opened Types
  import opened EventStore
  import opened Reconciler
  import opened Reminders
  import opened ReminderNotifications

  const Greeting := "Hello! How can I help you organize your day?"
  const NoCommandText := "Sorry, I couldn't understand that command."
  const FailureText := "An error occurred while communicating with the AI."

  /** What `processNaturalLanguageCommand` came back with: a command, `null`, or a
      thrown error. The interpreter returns `null` for a reply without an action, so an
      `Interpreted` command always carries a non-empty `action`. */
  datatype InterpreterResult = Interpreted(cmd: Command) | NoCommand | Failed

  /** `growPlant`: one level more, up to the flowering level. */
  function Grow(g: nat): (r: nat)
    ensures g < MaxGrowth ==> r == g + 1
    ensures g >= MaxGrowth ==> r == MaxGrowth
  {
    if g + 1 < MaxGrowth then g + 1 else MaxGrowth
  }

  /** Growing `n` times in a row: the level after `n` calls of `Dashboard.WaterPlant` or
      `Dashboard.NurturePlant` that each found the other care given the same day, since each
      such call ensures `plantGrowth == Grow(old(plantGrowth))`. */
  function GrowTimes(g: nat, n: nat): nat {
    if n == 0 then g else Grow(GrowTimes(g, n - 1))
  }

  /** Repeated growth climbs one level at a time and stops at the flowering level. */
  lemma {:induction false} GrowTimesCaps(g: nat, n: nat)
    requires g <= MaxGrowth
    ensures GrowTimes(g, n) == if g + n < MaxGrowth then g + n else MaxGrowth
  {
    if n > 0 {
      GrowTimesCaps(g, n - 1);
    }
  }

  /** The day and week arrows move by whole days; the month arrows move to the date
      the month arithmetic gives (`monthTarget`). */
  function Shifted(view: View, t: Timestamp, forward: bool, monthTarget: Timestamp): Timestamp {
    match view
    case Month => monthTarget
    case Week => if forward then t + 7 * MinutesPerDay else t - 7 * MinutesPerDay
    case Day => if forward then t + MinutesPerDay else t - MinutesPerDay
  }

  /** In the day and week views, next undoes prev and prev undoes next; both keep the
      time of day, and a week step keeps the weekday. */
  lemma ShiftedBack(view: View, t: Timestamp, forward: bool, m1: Timestamp, m2: Timestamp)
    requires view != Month
    ensures Shifted(view, Shifted(view, t, forward, m1), !forward, m2) == t
    ensures MinuteOfDay(Shifted(view, t, forward, m1)) == MinuteOfDay(t)
    ensures view == Week ==> Weekday(DayOf(Shifted(view, t, forward, m1))) == Weekday(DayOf(t))
  {
    var s := Shifted(view, t, forward, m1);
    var k := if view == Week then 7 else 1;
    var d := if forward then k else -k;
    assert s == (DayOf(t) + d) * MinutesPerDay + MinuteOfDay(t) by { DaySplit(t); }
    ParsedSplit(DayOf(t) + d, MinuteOfDay(t));
  }

  class Dashboard {
    var events: seq<CalendarEvent>
    var currentDate: Timestamp
    var selectedDate: Timestamp
    var isLoading: bool
    var error: Option<string>
    var notifications: seq<CalendarEvent>
    var calendarView: View
    var chatHistory: seq<ChatMessage>
    var plantGrowth: nat
    var lastWatered: Option<Timestamp>
    var lastNurtured: Option<Timestamp>

    /** The plant never grows past flowering, and no reminder shows twice. */
    ghost predicate Valid()
      reads this
    {
      plantGrowth <= MaxGrowth && NoDupIds(notifications)
    }

    /** The initial state: the seed events, today selected, the month view, and the
        assistant's greeting. */
    constructor(initialEvents: seq<CalendarEvent>, now: Timestamp)
      ensures Valid()
      ensures events == initialEvents && currentDate == now && selectedDate == now
      ensures !isLoading && error == None && notifications == [] && calendarView == Month
      ensures chatHistory == [ChatMessage(Ai, Greeting)]
      ensures plantGrowth == 0 && lastWatered == None && lastNurtured == None
    {
      events := initialEvents;
      currentDate := now;
      selectedDate := now;
      isLoading := false;
      error := None;
      notifications := [];
      calendarView := Month;
      chatHistory := [ChatMessage(Ai, Greeting)];
      plantGrowth := 0;
      lastWatered := None;
      lastNurtured := None;
    }

    /** `applyAICommand`: the store becomes the reconciler's, its error (if any) goes up,
        a successful CREATE turns the calendar to that day, and exactly one assistant
        message is appended. */
    method ApplyCommand(cmd: Command, newId: string)
      modifies this
      requires Valid()
      ensures Valid()
      ensures var o := Reconcile(cmd, old(events), newId);
        && events == o.events
        && error == (if o.error.Some? then o.error else old(error))
        && chatHistory == old(chatHistory) + [ChatMessage(Ai, o.reply)]
        && (o.focus.Some? ==> selectedDate == o.focus.value && currentDate == o.focus.value
                              && calendarView == Day)
        && (o.focus.None? ==> selectedDate == old(selectedDate) && currentDate == old(currentDate)
                              && calendarView == old(calendarView))
      ensures isLoading == old(isLoading) && notifications == old(notifications)
      ensures plantGrowth == old(plantGrowth) && lastWatered == old(lastWatered)
      ensures lastNurtured == old(lastNurtured)
    {
      var o := Reconcile(cmd, events, newId);
      events := o.events;
      if o.error.Some? {
        error := o.error;
      }
      if o.focus.Some? {
        selectedDate := o.focus.value;
        currentDate := o.focus.value;
        calendarView := Day;
      }
      chatHistory := chatHistory + [ChatMessage(Ai, o.reply)];
    }

    /** `handleCommandSubmit`: a blank text is ignored; any other clears the error, logs
        the user's text, then exactly one assistant message for the interpreter's
        outcome, and ends not loading. */
    method SubmitCommand(text: string, result: InterpreterResult, newId: string)
      modifies this
      requires Valid()
      requires result.Interpreted? ==> result.cmd.action != ""
      ensures Valid()
      ensures IsBlank(text) ==>
        && events == old(events) && error == old(error) && chatHistory == old(chatHistory)
        && isLoading == old(isLoading) && selectedDate == old(selectedDate)
        && currentDate == old(currentDate) && calendarView == old(calendarView)
      ensures !IsBlank(text) ==>
        && !isLoading
        && match result
           case Interpreted(cmd) =>
             var o := Reconcile(cmd, old(events), newId);
             && events == o.events && error == o.error
             && chatHistory == old(chatHistory) + [ChatMessage(User, text), ChatMessage(Ai, o.reply)]
             && (o.focus.Some? ==> selectedDate == o.focus.value && currentDate == o.focus.value
                                   && calendarView == Day)
             && (o.focus.None? ==> selectedDate == old(selectedDate) && currentDate == old(currentDate)
                                   && calendarView == old(calendarView))
           case NoCommand =>
             && events == old(events) && error == Some(NoCommandText)
             && chatHistory == old(chatHistory) + [ChatMessage(User, text), ChatMessage(Ai, NoCommandText)]
             && selectedDate == old(selectedDate) && currentDate == old(currentDate)
             && calendarView == old(calendarView)
           case Failed =>
             && events == old(events) && error == Some(FailureText)
             && chatHistory == old(chatHistory) + [ChatMessage(User, text), ChatMessage(Ai, FailureText)]
             && selectedDate == old(selectedDate) && currentDate == old(currentDate)
             && calendarView == old(calendarView)
      ensures notifications == old(notifications) && plantGrowth == old(plantGrowth)
      ensures lastWatered == old(lastWatered) && lastNurtured == old(lastNurtured)
    {
      if IsBlank(text) {
        return;
      }
      isLoading := true;
      error := None;
      chatHistory := chatHistory + [ChatMessage(User, text)];
      match result {
        case Interpreted(cmd) =>
          ApplyCommand(cmd, newId);
        case NoCommand =>
          error := Some(NoCommandText);
          chatHistory := chatHistory + [ChatMessage(Ai, NoCommandText)];
        case Failed =>
          error := Some(FailureText);
          chatHistory := chatHistory + [ChatMessage(Ai, FailureText)];
      }
      isLoading := false;
    }

    /** One `checkReminders` tick at `now`: the newly due reminders join the end of the
        showing ones. */
    method CheckReminders(now: Millis)
      modifies this
      requires Valid()
      ensures Valid()
      ensures notifications == AfterScan(old(events), old(notifications), now)
      ensures events == old(events) && currentDate == old(currentDate)
      ensures selectedDate == old(selectedDate) && isLoading == old(isLoading)
      ensures error == old(error) && calendarView == old(calendarView)
      ensures chatHistory == old(chatHistory) && plantGrowth == old(plantGrowth)
      ensures lastWatered == old(lastWatered) && lastNurtured == old(lastNurtured)
    {
      var upcoming := ScanReminders(events, notifications, now);
      if |upcoming| > 0 {
        ScanKeepsNoDups(events, notifications, now);
        notifications := notifications + upcoming;
      }
    }

    /** `handleDismissNotification`: the reminders with that id go; the store stays. */
    method DismissNotification(id: string)
      modifies this
      requires Valid()
      ensures Valid()
      ensures notifications == Dismissed(old(notifications), id)
      ensures events == old(events) && currentDate == old(currentDate)
      ensures selectedDate == old(selectedDate) && isLoading == old(isLoading)
      ensures error == old(error) && calendarView == old(calendarView)
      ensures chatHistory == old(chatHistory) && plantGrowth == old(plantGrowth)
      ensures lastWatered == old(lastWatered) && lastNurtured == old(lastNurtured)
    {
      DismissKeepsNoDups(notifications, id);
      notifications := Dismissed(notifications, id);
    }

    /** `handleWaterPlant` on day `today`: the watering is recorded, and the plant grows
        when it was also nurtured that day. */
    method WaterPlant(today: Timestamp)
      modifies this
      requires Valid()
      ensures Valid()
      ensures lastWatered == Some(today) && lastNurtured == old(lastNurtured)
      ensures plantGrowth == if CaredToday(old(lastNurtured), today) then Grow(old(plantGrowth)) else old(plantGrowth)
      ensures events == old(events) && currentDate == old(currentDate)
      ensures selectedDate == old(selectedDate) && isLoading == old(isLoading)
      ensures error == old(error) && notifications == old(notifications)
      ensures calendarView == old(calendarView) && chatHistory == old(chatHistory)
    {
      lastWatered := Some(today);
      if CaredToday(lastNurtured, today) {
        plantGrowth := Grow(plantGrowth);
      }
    }

    /** `handleNurturePlant` on day `today`: the kind word is recorded (its text is not
        kept), and the plant grows when it was also watered that day. */
    method NurturePlant(today: Timestamp, message: string)
      modifies this
      requires Valid()
      ensures Valid()
      ensures lastNurtured == Some(today) && lastWatered == old(lastWatered)
      ensures plantGrowth == if CaredToday(old(lastWatered), today) then Grow(old(plantGrowth)) else old(plantGrowth)
      ensures events == old(events) && currentDate == old(currentDate)
      ensures selectedDate == old(selectedDate) && isLoading == old(isLoading)
      ensures error == old(error) && notifications == old(notifications)
      ensures calendarView == old(calendarView) && chatHistory == old(chatHistory)
    {
      lastNurtured := Some(today);
      if CaredToday(lastWatered, today) {
        plantGrowth := Grow(plantGrowth);
      }
    }

    /** `handleDateSelect`: the day becomes selected and current, in the day view. */
    method SelectDate(date: Timestamp)
      modifies this
      requires Valid()
      ensures Valid()
      ensures selectedDate == date && currentDate == date && calendarView == Day
      ensures events == old(events) && isLoading == old(isLoading)
      ensures error == old(error) && notifications == old(notifications)
      ensures chatHistory == old(chatHistory) && plantGrowth == old(plantGrowth)
      ensures lastWatered == old(lastWatered) && lastNurtured == old(lastNurtured)
    {
      selectedDate := date;
      currentDate := date;
      calendarView := Day;
    }

    /** The header's view switch. */
    method SetView(view: View)
      modifies this
      requires Valid()
      ensures Valid()
      ensures calendarView == view && currentDate == old(currentDate)
      ensures events == old(events) && selectedDate == old(selectedDate)
      ensures isLoading == old(isLoading) && error == old(error)
      ensures notifications == old(notifications) && chatHistory == old(chatHistory)
      ensures plantGrowth == old(plantGrowth)
      ensures lastWatered == old(lastWatered) && lastNurtured == old(lastNurtured)
    {
      calendarView := view;
    }

    /** `handlePrev`: a month back (to `monthBack`, the library's `subMonths` result), a
        week back, or a day back, as the view says. */
    method Prev(monthBack: Timestamp)
      modifies this
      requires Valid()
      ensures Valid()
      ensures currentDate == Shifted(old(calendarView), old(currentDate), false, monthBack)
      ensures calendarView == old(calendarView) && selectedDate == old(selectedDate)
      ensures events == old(events) && isLoading == old(isLoading)
      ensures error == old(error) && notifications == old(notifications)
      ensures chatHistory == old(chatHistory) && plantGrowth == old(plantGrowth)
      ensures lastWatered == old(lastWatered) && lastNurtured == old(lastNurtured)
    {
      match calendarView
      case Month => currentDate := monthBack;
      case Week => currentDate := currentDate - 7 * MinutesPerDay;
      case Day => currentDate := currentDate - MinutesPerDay;
    }

    /** `handleNext`: as `Prev`, forwards (`monthAhead` is the `addMonths` result). */
    method Next(monthAhead: Timestamp)
      modifies this
      requires Valid()
      ensures Valid()
      ensures currentDate == Shifted(old(calendarView), old(currentDate), true, monthAhead)
      ensures calendarView == old(calendarView) && selectedDate == old(selectedDate)
      ensures events == old(events) && isLoading == old(isLoading)
      ensures error == old(error) && notifications == old(notifications)
      ensures chatHistory == old(chatHistory) && plantGrowth == old(plantGrowth)
      ensures lastWatered == old(lastWatered) && lastNurtured == old(lastNurtured)
    {
      match calendarView
      case Month => currentDate := monthAhead;
      case Week => currentDate := currentDate + 7 * MinutesPerDay;
      case Day => currentDate := currentDate + MinutesPerDay;
    }
  }

  /** Growth needs both cares on one day: if watering on `today` made the plant grow,
      the kind word was given that same day, and the plant had not yet flowered. */
  lemma WaterGrowsOnlyWhenNurtured(growth: nat, lastNurtured: Option<Timestamp>, today: Timestamp)
    requires growth <= MaxGrowth
    requires (if CaredToday(lastNurtured, today) then Grow(growth) else growth) != growth
    ensures CaredToday(lastNurtured, today) && growth < MaxGrowth
  {
  }
}
