/** The calendar pane of components/Calendar.tsx: the month grid's slots, the events
    each day lists, the two-event limit of a month cell with its "+ k more" line, the
    Monday-to-Sunday week, and which view is drawn. */
module Calendar {
  import opened Wrappers
  import opened DateTime
  import opened Types
  import opened Seqs
  import opened EventStore

  // ---------------------------------------------------------------------------
  // The month grid

  /** `[...Array(firstDay).fill(null), ...Array.from({length: daysInMonth}, (_, i) => i + 1)]`:
      `firstDay` blank slots, then the days 1 .. `daysInMonth`. */
  function MonthSlots(firstDay: nat, daysInMonth: nat): (r: seq<Option<nat>>)
    ensures |r| == firstDay + daysInMonth
    ensures forall i :: 0 <= i < firstDay ==> r[i] == None
    ensures forall i :: firstDay <= i < |r| ==> r[i] == Some(i - firstDay + 1)
  {
    seq(firstDay, _ => None) + seq(daysInMonth, i => Some(i + 1))
  }

  /** The days run up the grid in order, each day showing once. */
  lemma MonthSlotsAscending(firstDay: nat, daysInMonth: nat, i: nat, j: nat)
    requires i < j < firstDay + daysInMonth
    requires MonthSlots(firstDay, daysInMonth)[i].Some?
    ensures MonthSlots(firstDay, daysInMonth)[j].Some?
    ensures MonthSlots(firstDay, daysInMonth)[i].value < MonthSlots(firstDay, daysInMonth)[j].value
  {
  }

  /** The first day of the month containing day number `n`. */
  function MonthStart(n: nat): (first: nat)
    ensures var d := DateOf(n);
      ValidDate(Date(d.year, d.month, 1)) && first == DayNumber(Date(d.year, d.month, 1))
  {
    var d := DateOf(n);
    DayNumber(Date(d.year, d.month, 1))
  }

  /** `renderMonthView`'s slots for the month containing `current`: as many blanks as
      the weekday (Sunday 0) of the month's first day, then its days. */
  function MonthGrid(current: Timestamp): (r: seq<Option<nat>>)
    requires current >= 0
  {
    MonthGridOf(DayOf(current))
  }

  /** The slots of the month containing day number `n`. */
  function MonthGridOf(n: nat): seq<Option<nat>> {
    var d := DateOf(n);
    MonthSlots(Weekday(MonthStart(n)), DaysInMonth(d.year, d.month))
  }

  /** Counting `j` days on moves the weekday `j` places round the week. */
  lemma WeekdayShift(a: int, j: nat)
    ensures (Weekday(a) + j) % 7 == Weekday(a + j)
  {
    var q := (a + 1) / 7;
    assert a + 1 == 7 * q + Weekday(a);
    assert a + j + 1 == 7 * q + (Weekday(a) + j);
  }

  /** Day `j + 1` of a month whose first day is day number `first` sits in the grid
      column of the weekday of day number `first + j`. */
  lemma SlotColumn(first: int, dim: nat, j: nat)
    requires j < dim
    ensures var k := Weekday(first) + j;
      k < |MonthSlots(Weekday(first), dim)|
      && MonthSlots(Weekday(first), dim)[k] == Some(j + 1)
      && k % 7 == Weekday(first + j)
  {
    WeekdayShift(first, j);
  }

  /** Every day of the month falls in the grid column of its own weekday (columns run
      Sunday to Saturday), and the grid holds exactly that month's days. */
  lemma MonthGridColumns(current: Timestamp, j: nat)
    requires current >= 0
    requires j < DaysInMonth(DateOf(DayOf(current)).year, DateOf(DayOf(current)).month)
    ensures var d := DateOf(DayOf(current));
      var k := Weekday(MonthStart(DayOf(current))) + j;
      && |MonthGrid(current)| == Weekday(MonthStart(DayOf(current))) + DaysInMonth(d.year, d.month)
      && MonthGrid(current)[k] == Some(j + 1)
      && ValidDate(Date(d.year, d.month, j + 1))
      && k % 7 == Weekday(DayNumber(Date(d.year, d.month, j + 1)))
  {
    MonthGridOfColumns(DayOf(current), j);
  }

  lemma MonthGridOfColumns(n: nat, j: nat)
    requires j < DaysInMonth(DateOf(n).year, DateOf(n).month)
    ensures var d := DateOf(n);
      var k := Weekday(MonthStart(n)) + j;
      && |MonthGridOf(n)| == Weekday(MonthStart(n)) + DaysInMonth(d.year, d.month)
      && MonthGridOf(n)[k] == Some(j + 1)
      && ValidDate(Date(d.year, d.month, j + 1))
      && k % 7 == Weekday(DayNumber(Date(d.year, d.month, j + 1)))
  {
    var d := DateOf(n);
    assert MonthGridOf(n) == MonthSlots(Weekday(MonthStart(n)), DaysInMonth(d.year, d.month));
    DayColumn(d.year, d.month, j);
  }

  lemma DayColumn(y: int, m: int, j: nat)
    requires ValidDate(Date(y, m, j + 1))
    ensures var first := DayNumber(Date(y, m, 1));
      var k := Weekday(first) + j;
      && k < |MonthSlots(Weekday(first), DaysInMonth(y, m))|
      && MonthSlots(Weekday(first), DaysInMonth(y, m))[k] == Some(j + 1)
      && k % 7 == Weekday(DayNumber(Date(y, m, j + 1)))
  {
    DayNumberInMonth(y, m, j + 1);
    SlotColumn(DayNumber(Date(y, m, 1)), DaysInMonth(y, m), j);
  }

  // ---------------------------------------------------------------------------
  // Events of a day

  /** `events.filter(e => isSameDay(e.date, day))`: the events on the day of `day`, in
      store order. */
  function DayEvents(events: seq<CalendarEvent>, day: Timestamp): (r: seq<CalendarEvent>)
    ensures forall e :: e in r <==> e in events && SameDay(e.date, day)
  {
    Filter(events, (e: CalendarEvent) => SameDay(e.date, day))
  }

  /** The day lists keep store order: the events of joined stores are joined. */
  lemma DayEventsConcat(a: seq<CalendarEvent>, b: seq<CalendarEvent>, day: Timestamp)
    ensures DayEvents(a + b, day) == DayEvents(a, day) + DayEvents(b, day)
  {
    FilterConcat(a, b, (e: CalendarEvent) => SameDay(e.date, day));
  }

  /** An event CREATE adds shows on its own day. */
  lemma CreatedEventShows(events: seq<CalendarEvent>, e: CalendarEvent)
    ensures e in DayEvents(Created(events, e), e.date)
  {
    assert e in multiset(Created(events, e));
  }

  /** `dayEvents.slice(0, 2)`: what a month cell lists. */
  function Visible(dayEvents: seq<CalendarEvent>): (r: seq<CalendarEvent>)
    ensures |r| <= 2 && r <= dayEvents
    ensures |dayEvents| <= 2 ==> r == dayEvents
  {
    if |dayEvents| <= 2 then dayEvents else dayEvents[..2]
  }

  /** The `k` of "+ k more", when the line shows. */
  function MoreCount(dayEvents: seq<CalendarEvent>): (r: Option<nat>)
    ensures r.Some? <==> |dayEvents| > 2
    ensures r.Some? ==> r.value == |dayEvents| - 2
  {
    if |dayEvents| > 2 then Some(|dayEvents| - 2) else None
  }

  /** A month cell accounts for every event of its day: the listed ones plus the count
      of the rest. */
  lemma CellAccountsForAll(dayEvents: seq<CalendarEvent>)
    ensures |Visible(dayEvents)| + MoreCount(dayEvents).GetOr(0) == |dayEvents|
    ensures Visible(dayEvents) + dayEvents[|Visible(dayEvents)|..] == dayEvents
  {
  }

  // ---------------------------------------------------------------------------
  // The week and the view switch

  /** `eachDayOfInterval` from `startOfWeek` to `endOfWeek` with weeks starting on
      Monday: the day numbers of the week containing `current`. */
  function WeekDays(current: Timestamp): (r: seq<int>)
    ensures |r| == 7
    ensures Weekday(r[0]) == 1
    ensures forall i :: 0 <= i < 7 ==> r[i] == r[0] + i
    ensures DayOf(current) in r
  {
    var n := DayOf(current);
    var back := (Weekday(n) + 6) % 7;
    var r := seq(7, i => n - back + i);
    assert r[back] == n;
    WeekdayShift(n - back, back);
    r
  }

  /** The calendar's three renderings. */
  datatype Rendering = MonthView | WeekView | DayView

  /** The `switch (view)`: 'day' and 'week' have their own rendering; 'month', and any
      other value, draws the month. */
  function Dispatch(view: string): (r: Rendering)
    ensures r == DayView <==> view == "day"
    ensures r == WeekView <==> view == "week"
    ensures r == MonthView <==> view != "day" && view != "week"
  {
    if view == "day" then DayView else if view == "week" then WeekView else MonthView
  }

  /** The string the dashboard passes for its view. */
  function ViewName(v: View): string {
    match v
    case Month => "month"
    case Week => "week"
    case Day => "day"
  }

  /** Each view the dashboard can be in draws its own rendering. */
  lemma DispatchMatchesView(v: View)
    ensures Dispatch(ViewName(v)) == match v case Month => MonthView case Week => WeekView case Day => DayView
  {
  }
}
