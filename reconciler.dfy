/** The command reconciler of App.tsx (`applyAICommand`): what one interpreted command
    does to the event store, the error banner, the chat reply and the focused date. */
module Reconciler {
  import opened Wrappers
  import opened Strings
  import opened DateTime
  import opened Types
  import opened EventStore

  const NotSureReply := "I'm not sure how to respond to that."
  const InvalidDateReply := "I'm sorry, I couldn't understand that date. Could you try again?"
  const CreateIncompleteError := "AI response for creating an event was incomplete."
  const CreateIncompleteReply := "I seem to be missing some details. Could you please provide the event title and date?"
  const DeleteIncompleteError := "AI did not specify which event to delete."
  const DeleteIncompleteReply := "I need to know which event you'd like to delete."
  const UpdateIncompleteError := "AI response for updating an event was incomplete."
  const UpdateIncompleteReply := "I'm missing some information. What event do you want to update, and what should I change?"
  const UnknownReply := "I'm not quite sure what you mean. Could you rephrase that?"

  /** What one command does: the new store, the error it raises (`None` when it leaves
      the banner alone), the reply appended to the chat, and on a successful CREATE the
      date that becomes the selected and current date (the view turns to 'day'). */
  datatype Outcome = Outcome(
    events: seq<CalendarEvent>,
    error: Option<string>,
    reply: string,
    focus: Option<Timestamp>)

  /** The string CREATE parses: the date, a space, and the time or "00:00". */
  function CreateDateString(f: EventFields): string
    requires f.date.Some?
  {
    f.date.value + " " + Or(f.time, "00:00")
  }

  /** CREATE has the title and date it needs. */
  predicate CreateComplete(cmd: Command) {
    cmd.event.Some? && Given(cmd.event.value.title) && Given(cmd.event.value.date)
  }

  /** The date a complete CREATE asks for, if it parses. */
  function CreateDate(cmd: Command): Option<Timestamp>
    requires CreateComplete(cmd)
  {
    ParseDateTime(CreateDateString(cmd.event.value))
  }

  /** The commands the reconciler carries out without raising an error. */
  predicate Accepted(cmd: Command) {
    || (cmd.action == "CREATE" && CreateComplete(cmd) && CreateDate(cmd).Some?)
    || (cmd.action == "DELETE" && Given(cmd.targetEventTitle))
    || (cmd.action == "UPDATE" && Given(cmd.targetEventTitle) && cmd.event.Some?)
    || cmd.action == "READ"
  }

  /** The branches of `applyAICommand`. `newId` stands for `Date.now().toString()`.
      What each branch does is stated by the `Reconcile…` lemmas below. */
  function Reconcile(cmd: Command, events: seq<CalendarEvent>, newId: string): Outcome
  {
    if cmd.action == "CREATE" then Create(cmd, events, newId)
    else if cmd.action == "DELETE" then Delete(cmd, events)
    else if cmd.action == "UPDATE" then Update(cmd, events)
    else if cmd.action == "READ" then Outcome(events, None, Or(cmd.responseMessage, NotSureReply), None)
    else Outcome(events, Some("Unknown action from AI: " + cmd.action), UnknownReply, None)
  }

  /** The CREATE arm. */
  function Create(cmd: Command, events: seq<CalendarEvent>, newId: string): Outcome {
    if CreateComplete(cmd) then
      var f := cmd.event.value;
      var s := CreateDateString(f);
      match ParseDateTime(s)
      case None =>
        Outcome(events, Some("AI returned an invalid date format: " + s), InvalidDateReply, None)
      case Some(t) =>
        var e := NewEvent(newId, f, t);
        Outcome(Created(events, e), None,
                Or(cmd.responseMessage, "Okay, I've added \"" + e.title + "\" to your calendar."), Some(t))
    else
      Outcome(events, Some(CreateIncompleteError), CreateIncompleteReply, None)
  }

  /** The DELETE arm. */
  function Delete(cmd: Command, events: seq<CalendarEvent>): Outcome {
    if Given(cmd.targetEventTitle) then
      var target := cmd.targetEventTitle.value;
      Outcome(DeleteMatching(events, target), None,
              Or(cmd.responseMessage, "I've removed \"" + target + "\" from your calendar."), None)
    else
      Outcome(events, Some(DeleteIncompleteError), DeleteIncompleteReply, None)
  }

  /** The UPDATE arm. */
  function Update(cmd: Command, events: seq<CalendarEvent>): Outcome {
    if Given(cmd.targetEventTitle) && cmd.event.Some? then
      var target := cmd.targetEventTitle.value;
      Outcome(UpdateMatching(events, target, cmd.event.value), None,
              Or(cmd.responseMessage, "I've updated the event \"" + target + "\"."), None)
    else
      Outcome(events, Some(UpdateIncompleteError), UpdateIncompleteReply, None)
  }

  /** Each accepted command raises no error; every other one raises one and changes
      nothing but the reply. Only a successful CREATE moves the calendar. */
  lemma ReconcileErrors(cmd: Command, events: seq<CalendarEvent>, newId: string)
    ensures var o := Reconcile(cmd, events, newId);
      && (o.error.None? <==> Accepted(cmd))
      && (o.error.Some? ==> o.events == events && o.focus.None?)
      && (o.focus.Some? <==> cmd.action == "CREATE" && Accepted(cmd))
  {
  }

  /** READ changes nothing and gives the interpreter's reply, or a fallback. */
  lemma ReconcileRead(cmd: Command, events: seq<CalendarEvent>, newId: string)
    requires cmd.action == "READ"
    ensures Reconcile(cmd, events, newId) == Outcome(events, None, Or(cmd.responseMessage, NotSureReply), None)
  {
  }

  /** A complete CREATE whose date parses adds exactly the new event, keeps the store
      sorted by date, and turns the calendar to the new event's date. */
  lemma ReconcileCreate(cmd: Command, events: seq<CalendarEvent>, newId: string)
    requires cmd.action == "CREATE" && Accepted(cmd)
    ensures var o := Reconcile(cmd, events, newId);
      var t := CreateDate(cmd).value;
      var e := NewEvent(newId, cmd.event.value, t);
      && o.error.None?
      && o.focus == Some(t)
      && multiset(o.events) == multiset(events) + multiset{e}
      && SortedByDate(o.events)
      && o.reply == Or(cmd.responseMessage, "Okay, I've added \"" + e.title + "\" to your calendar.")
  {
    var e := NewEvent(newId, cmd.event.value, CreateDate(cmd).value);
    assert Reconcile(cmd, events, newId).events == Created(events, e);
  }

  /** A CREATE without a title or a date, or whose date does not parse, is refused with
      its own error and reply. */
  lemma ReconcileCreateRefused(cmd: Command, events: seq<CalendarEvent>, newId: string)
    requires cmd.action == "CREATE" && !Accepted(cmd)
    ensures var o := Reconcile(cmd, events, newId);
      && o.events == events && o.focus.None?
      && (CreateComplete(cmd) ==>
            o.error == Some("AI returned an invalid date format: " + CreateDateString(cmd.event.value))
            && o.reply == InvalidDateReply)
      && (!CreateComplete(cmd) ==> o.error == Some(CreateIncompleteError) && o.reply == CreateIncompleteReply)
  {
  }

  /** DELETE with a target keeps exactly the events that do not match, in order, and no
      match is no error; without a target it is refused. */
  lemma ReconcileDelete(cmd: Command, events: seq<CalendarEvent>, newId: string)
    requires cmd.action == "DELETE"
    ensures var o := Reconcile(cmd, events, newId);
      && (Accepted(cmd) ==>
            && o.events == DeleteMatching(events, cmd.targetEventTitle.value)
            && (forall e :: e in o.events <==> e in events && !Matches(e, cmd.targetEventTitle.value))
            && o.reply == Or(cmd.responseMessage, "I've removed \"" + cmd.targetEventTitle.value + "\" from your calendar."))
      && (!Accepted(cmd) ==>
            o.events == events && o.error == Some(DeleteIncompleteError) && o.reply == DeleteIncompleteReply)
  {
  }

  /** UPDATE with a target and fields keeps every position, merges the matching events
      and leaves the rest untouched; otherwise it is refused. */
  lemma ReconcileUpdate(cmd: Command, events: seq<CalendarEvent>, newId: string)
    requires cmd.action == "UPDATE"
    ensures var o := Reconcile(cmd, events, newId);
      && (Accepted(cmd) ==>
            && |o.events| == |events|
            && (forall i :: 0 <= i < |events| ==>
                  o.events[i] == if Matches(events[i], cmd.targetEventTitle.value)
                                 then Merge(events[i], cmd.event.value) else events[i])
            && o.reply == Or(cmd.responseMessage, "I've updated the event \"" + cmd.targetEventTitle.value + "\"."))
      && (!Accepted(cmd) ==>
            o.events == events && o.error == Some(UpdateIncompleteError) && o.reply == UpdateIncompleteReply)
  {
  }

  /** Any other tag, "UNKNOWN" included, is refused. */
  lemma ReconcileUnknown(cmd: Command, events: seq<CalendarEvent>, newId: string)
    requires cmd.action !in {"CREATE", "DELETE", "UPDATE", "READ"}
    ensures Reconcile(cmd, events, newId) ==
      Outcome(events, Some("Unknown action from AI: " + cmd.action), UnknownReply, None)
  {
  }

  /** CREATE on a store already in date order inserts the new event after every event
      that is not later than it. */
  lemma CreateInsertsInPlace(cmd: Command, events: seq<CalendarEvent>, newId: string)
    requires cmd.action == "CREATE" && Accepted(cmd) && SortedByDate(events)
    ensures Reconcile(cmd, events, newId).events ==
            InsertByDate(events, NewEvent(newId, cmd.event.value, CreateDate(cmd).value))
  {
    var e := NewEvent(newId, cmd.event.value, CreateDate(cmd).value);
    assert Reconcile(cmd, events, newId).events == Created(events, e);
    CreateIntoSorted(events, e);
  }

  /** CREATE and DELETE keep a store in date order; UPDATE need not (see
      `UpdateCanUnsort`). */
  lemma CreateDeleteKeepOrder(cmd: Command, events: seq<CalendarEvent>, newId: string)
    requires SortedByDate(events) && cmd.action in {"CREATE", "DELETE", "READ"}
    ensures SortedByDate(Reconcile(cmd, events, newId).events)
  {
    if cmd.action == "CREATE" && Accepted(cmd) {
      ReconcileCreate(cmd, events, newId);
    } else if cmd.action == "DELETE" && Accepted(cmd) {
      DeleteKeepsOrder(events, cmd.targetEventTitle.value);
    }
  }

  lemma {:induction false} DeleteKeepsOrder(events: seq<CalendarEvent>, target: string)
    requires SortedByDate(events)
    ensures SortedByDate(DeleteMatching(events, target))
  {
    if events != [] {
      DeleteKeepsOrder(events[1..], target);
      DeleteConcat([events[0]], events[1..], target);
      assert [events[0]] + events[1..] == events;
      var rest := DeleteMatching(events[1..], target);
      forall x | x in rest ensures events[0].date <= x.date {
        assert x in events[1..];
      }
    }
  }

  /** UPDATE does not sort again: moving the earlier of two ordered events to a day and
      time past the later one leaves the store out of date order. */
  lemma UpdateCanUnsort(a: CalendarEvent, b: CalendarEvent, target: string, ds: string, d: nat,
                        newId: string)
    requires a.date <= b.date && Matches(a, target) && !Matches(b, target)
    requires target != [] && ds != []
    requires ParseDate(ds) == Some(d) && b.date < d * MinutesPerDay + MinuteOfDay(a.date)
    ensures var f := EventFields(None, Some(ds), None, None, None, None);
            var cmd := Command("UPDATE", Some(f), Some(target), None);
            SortedByDate([a, b]) && !SortedByDate(Reconcile(cmd, [a, b], newId).events)
  {
    var f := EventFields(None, Some(ds), None, None, None, None);
    var cmd := Command("UPDATE", Some(f), Some(target), None);
    MergeDateOnly(a, f, d);
    assert Accepted(cmd);
    var r := UpdateMatching([a, b], target, f);
    assert Reconcile(cmd, [a, b], newId).events == r;
    assert r[0] == Merge(a, f) && r[1] == b;
  }

  /** An instance: an event at 0001-01-01 00:00 moved to the next day passes one at
      01:00. */
  lemma UpdateCanUnsortInstance()
    ensures var a := CalendarEvent("1", "Alpha", 0, None, "personal", None);
            var b := CalendarEvent("2", "Beta", 60, None, "personal", None);
            var f := EventFields(None, Some(FormatDate(MinutesPerDay)), None, None, None, None);
            !SortedByDate(Reconcile(Command("UPDATE", Some(f), Some("Alpha"), None), [a, b], "3").events)
  {
    var a := CalendarEvent("1", "Alpha", 0, None, "personal", None);
    var b := CalendarEvent("2", "Beta", 60, None, "personal", None);
    NextDayParses();
    TitlesMatch();
    UpdateCanUnsort(a, b, "Alpha", FormatDate(MinutesPerDay), 1, "3");
  }

  lemma NextDayParses()
    ensures ParseDate(FormatDate(MinutesPerDay)) == Some(1) && FormatDate(MinutesPerDay) != []
  {
    assert DateOf(1).year == 1 by { assert SplitYear(1, 1) == (1, 1); }
    FormatDateRoundTrip(MinutesPerDay);
  }

  lemma TitlesMatch()
    ensures Matches(CalendarEvent("1", "Alpha", 0, None, "personal", None), "Alpha")
    ensures !Matches(CalendarEvent("2", "Beta", 60, None, "personal", None), "Alpha")
  {
    assert Lower("Alpha") == "alpha" && Lower("Beta") == "beta";
    assert OccursAt("alpha", "alpha", 0);
  }
}
