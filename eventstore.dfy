/** The event-store operations of the command reconciler (App.tsx): the sorted insert
    of CREATE, the substring-matched removal of DELETE and the field merge of UPDATE. */
module EventStore {
  import opened Wrappers
  import opened Strings
  import opened DateTime
  import opened Types
  import opened Seqs

  ghost predicate SortedByDate(s: seq<CalendarEvent>) {
    forall i, j :: 0 <= i < j < |s| ==> s[i].date <= s[j].date
  }

  // ---------------------------------------------------------------------------
  // CREATE: `[...prev, newEvent].sort((a, b) => a.date - b.date)`

  /** Places `e` just before the first event of `s` that is strictly later than it,
      scanning from the front. */
  function InsertByDate(s: seq<CalendarEvent>, e: CalendarEvent): (r: seq<CalendarEvent>)
    ensures |r| == |s| + 1
    ensures multiset(r) == multiset(s) + multiset{e}
  {
    if s == [] then [e]
    else if e.date < s[0].date then [e] + s
    else
      assert s == [s[0]] + s[1..];
      [s[0]] + InsertByDate(s[1..], e)
  }

  /** Inserting into a list in date order keeps it in date order. */
  lemma {:induction false} InsertKeepsOrder(s: seq<CalendarEvent>, e: CalendarEvent)
    requires SortedByDate(s)
    ensures SortedByDate(InsertByDate(s, e))
  {
    if s != [] && e.date >= s[0].date {
      var rest := InsertByDate(s[1..], e);
      InsertKeepsOrder(s[1..], e);
      forall x | x in rest ensures s[0].date <= x.date {
        assert x in multiset(rest);
        assert x in s[1..] || x == e;
      }
      assert InsertByDate(s, e) == [s[0]] + rest;
    }
  }

  /** JavaScript's `Array.prototype.sort` with the comparator `a.date - b.date`. The
      language requires that sort to be stable, so it is modelled as an insertion sort
      that never moves an event past one with the same date. */
  function SortByDate(s: seq<CalendarEvent>): (r: seq<CalendarEvent>)
    ensures |r| == |s|
    ensures SortedByDate(r)
    ensures multiset(r) == multiset(s)
  {
    if s == [] then []
    else
      assert s == s[..|s| - 1] + [s[|s| - 1]];
      InsertKeepsOrder(SortByDate(s[..|s| - 1]), s[|s| - 1]);
      InsertByDate(SortByDate(s[..|s| - 1]), s[|s| - 1])
  }

  function AtDate(d: Timestamp): CalendarEvent -> bool {
    (e: CalendarEvent) => e.date == d
  }

  /** The events of `s` at exactly timestamp `d`, in order. */
  function OnDate(s: seq<CalendarEvent>, d: Timestamp): seq<CalendarEvent> {
    Filter(s, AtDate(d))
  }

  lemma OnDateCons(x: CalendarEvent, s: seq<CalendarEvent>, d: Timestamp)
    ensures OnDate([x] + s, d) == (if x.date == d then [x] else []) + OnDate(s, d)
  {
    assert ([x] + s)[1..] == s;
  }

  lemma {:induction false} InsertOnDate(s: seq<CalendarEvent>, e: CalendarEvent, d: Timestamp)
    requires SortedByDate(s)
    ensures OnDate(InsertByDate(s, e), d) == OnDate(s, d) + (if e.date == d then [e] else [])
  {
    if s == [] {
      OnDateCons(e, [], d);
    } else if e.date < s[0].date {
      InsertBeforeAll(s, e, d);
    } else {
      var rest := s[1..];
      assert SortedByDate(rest);
      InsertOnDate(rest, e, d);
      assert InsertByDate(s, e) == [s[0]] + InsertByDate(rest, e);
      OnDateCons(s[0], InsertByDate(rest, e), d);
      OnDateCons(s[0], rest, d);
      assert [s[0]] + rest == s;
    }
  }

  /** An event earlier than all of a sorted list goes first; no event of the list shares
      its timestamp. */
  lemma InsertBeforeAll(s: seq<CalendarEvent>, e: CalendarEvent, d: Timestamp)
    requires SortedByDate(s) && s != [] && e.date < s[0].date
    ensures InsertByDate(s, e) == [e] + s
    ensures OnDate(s, e.date) == []
    ensures OnDate(InsertByDate(s, e), d) == OnDate(s, d) + (if e.date == d then [e] else [])
  {
    assert InsertByDate(s, e) == [e] + s;
    assert forall i :: 0 <= i < |s| ==> s[0].date <= s[i].date;
    FilterDropsAll(s, AtDate(e.date));
    OnDateCons(e, s, d);
  }

  /** The sort is stable: the events sharing any one timestamp keep their relative
      order. With sortedness and the permutation this fixes the result completely. */
  lemma {:induction false} SortStable(s: seq<CalendarEvent>, d: Timestamp)
    ensures OnDate(SortByDate(s), d) == OnDate(s, d)
  {
    if s != [] {
      var init, last := s[..|s| - 1], s[|s| - 1];
      var tail := if last.date == d then [last] else [];
      calc {
        OnDate(SortByDate(s), d);
        OnDate(InsertByDate(SortByDate(init), last), d);
        { InsertOnDate(SortByDate(init), last, d); }
        OnDate(SortByDate(init), d) + tail;
        { SortStable(init, d); }
        OnDate(init, d) + tail;
        { OnDateCons(last, [], d); assert [last] + [] == [last]; }
        OnDate(init, d) + OnDate([last], d);
        { FilterConcat(init, [last], AtDate(d)); }
        OnDate(init + [last], d);
        { assert init + [last] == s; }
        OnDate(s, d);
      }
    }
  }

  lemma {:induction false} InsertAtEnd(s: seq<CalendarEvent>, e: CalendarEvent)
    requires forall i :: 0 <= i < |s| ==> s[i].date <= e.date
    ensures InsertByDate(s, e) == s + [e]
  {
    if s != [] {
      InsertAtEnd(s[1..], e);
      assert [s[0]] + (s[1..] + [e]) == s + [e];
    }
  }

  /** Sorting a list that is already in date order changes nothing. */
  lemma {:induction false} SortKeepsSorted(s: seq<CalendarEvent>)
    requires SortedByDate(s)
    ensures SortByDate(s) == s
  {
    if s != [] {
      var init := s[..|s| - 1];
      SortKeepsSorted(init);
      InsertAtEnd(init, s[|s| - 1]);
    }
  }

  /** The event CREATE builds: the caller's id and parsed date, the title verbatim,
      an empty description and the "personal" calendar when those are not given, and
      the reminder copied as it came (absent, zero or otherwise). */
  function NewEvent(id: string, f: EventFields, date: Timestamp): (e: CalendarEvent)
    requires Given(f.title)
    ensures e.id == id && e.title == f.title.value && e.date == date
    ensures e.description == Some(Or(f.description, ""))
    ensures e.calendarId == Or(f.calendarId, "personal")
    ensures e.reminderMinutesBefore == f.reminderMinutesBefore
  {
    CalendarEvent(id, f.title.value, date, Some(Or(f.description, "")),
                  Or(f.calendarId, "personal"), f.reminderMinutesBefore)
  }

  /** The store after CREATE adds `e`: the old events and `e`, sorted by date. */
  function Created(events: seq<CalendarEvent>, e: CalendarEvent): (r: seq<CalendarEvent>)
    ensures |r| == |events| + 1
    ensures multiset(r) == multiset(events) + multiset{e}
    ensures SortedByDate(r)
  {
    SortByDate(events + [e])
  }

  /** Into a store already in date order, CREATE inserts the new event after every
      event that is not later than it and moves nothing else. */
  lemma CreateIntoSorted(events: seq<CalendarEvent>, e: CalendarEvent)
    requires SortedByDate(events)
    ensures Created(events, e) == InsertByDate(events, e)
  {
    assert (events + [e])[..|events|] == events;
    SortKeepsSorted(events);
  }

  // ---------------------------------------------------------------------------
  // DELETE and UPDATE: case-insensitive substring match on the title

  /** `e.title.toLowerCase().includes(target.toLowerCase())`. */
  predicate Matches(e: CalendarEvent, target: string) {
    Contains(Lower(e.title), Lower(target))
  }

  /** Matching ignores the case of the target. */
  lemma MatchesIgnoresTargetCase(e: CalendarEvent, target: string)
    ensures Matches(e, Lower(target)) == Matches(e, target)
  {
    LowerIdempotent(target);
  }

  function Unmatched(target: string): CalendarEvent -> bool {
    (e: CalendarEvent) => !Matches(e, target)
  }

  /** The store after DELETE: exactly the events whose title does not match. */
  function DeleteMatching(events: seq<CalendarEvent>, target: string): (r: seq<CalendarEvent>)
    ensures forall e :: e in r <==> e in events && !Matches(e, target)
    ensures forall i :: 0 <= i < |r| ==> !Matches(r[i], target)
    ensures multiset(r) <= multiset(events)
  {
    FilterSubMultiset(events, Unmatched(target));
    Filter(events, Unmatched(target))
  }

  /** Deletion keeps the survivors in their original relative order: it works on each
      part of a store separately. */
  lemma DeleteConcat(a: seq<CalendarEvent>, b: seq<CalendarEvent>, target: string)
    ensures DeleteMatching(a + b, target) == DeleteMatching(a, target) + DeleteMatching(b, target)
  {
    FilterConcat(a, b, Unmatched(target));
  }

  /** When no title matches, DELETE leaves the store as it is (and is no error). */
  lemma DeleteNoMatch(events: seq<CalendarEvent>, target: string)
    requires forall i :: 0 <= i < |events| ==> !Matches(events[i], target)
    ensures DeleteMatching(events, target) == events
  {
    FilterKeepsAll(events, Unmatched(target));
  }

  /** A second DELETE with the same target removes nothing more. */
  lemma DeleteIdempotent(events: seq<CalendarEvent>, target: string)
    ensures DeleteMatching(DeleteMatching(events, target), target) == DeleteMatching(events, target)
  {
    DeleteNoMatch(DeleteMatching(events, target), target);
  }

  /** The date UPDATE gives a matched event: the supplied date and time, each falling
      back to the event's own formatted date or time, parsed as one string; the old
      date when that string does not parse. */
  function MergedDate(e: CalendarEvent, f: EventFields): Timestamp {
    var s := Or(f.date, FormatDate(e.date)) + " " + Or(f.time, FormatTime(e.date));
    match ParseDateTime(s)
    case Some(t) => t
    case None => e.date
  }

  /** `{ ...e, title: f.title || e.title, date: ..., description: f.description ||
      e.description, ... }`: each field takes the new value only when it is truthy. */
  function Merge(e: CalendarEvent, f: EventFields): (r: CalendarEvent)
    ensures r.id == e.id
    ensures r.title == Or(f.title, e.title)
    ensures r.date == MergedDate(e, f)
    ensures r.description == (if Given(f.description) then f.description else e.description)
    ensures r.calendarId == Or(f.calendarId, e.calendarId)
    ensures r.reminderMinutesBefore ==
      (if GivenNumber(f.reminderMinutesBefore) then f.reminderMinutesBefore else e.reminderMinutesBefore)
  {
    e.(title := Or(f.title, e.title),
       date := MergedDate(e, f),
       description := if Given(f.description) then f.description else e.description,
       calendarId := Or(f.calendarId, e.calendarId),
       reminderMinutesBefore :=
         if GivenNumber(f.reminderMinutesBefore) then f.reminderMinutesBefore else e.reminderMinutesBefore)
  }

  /** The store after UPDATE: same length and positions; each matching event merged,
      every other event as it was. The result is not sorted again. */
  function UpdateMatching(events: seq<CalendarEvent>, target: string, f: EventFields): (r: seq<CalendarEvent>)
    ensures |r| == |events|
    ensures forall i :: 0 <= i < |events| ==>
      r[i] == if Matches(events[i], target) then Merge(events[i], f) else events[i]
  {
    if events == [] then []
    else
      [if Matches(events[0], target) then Merge(events[0], f) else events[0]]
      + UpdateMatching(events[1..], target, f)
  }

  /** UPDATE changes no event's identity: the ids stay, position by position. */
  lemma UpdateKeepsIds(events: seq<CalendarEvent>, target: string, f: EventFields)
    ensures forall i :: 0 <= i < |events| ==> UpdateMatching(events, target, f)[i].id == events[i].id
  {
  }

  /** With neither a date nor a time given, the date survives the reformat and reparse
      unchanged (for dates in years 1 .. 9999). */
  lemma MergeKeepsDate(e: CalendarEvent, f: EventFields)
    requires !Given(f.date) && !Given(f.time)
    requires e.date >= 0 && YearOf(e.date) <= 9999
    ensures MergedDate(e, f) == e.date
  {
    FormatRoundTrip(e.date);
  }

  /** A time alone moves the event to that time on its own day. */
  lemma MergeTimeOnly(e: CalendarEvent, f: EventFields, m: nat)
    requires !Given(f.date) && Given(f.time) && ParseTime(f.time.value) == Some(m)
    requires e.date >= 0 && YearOf(e.date) <= 9999
    ensures MergedDate(e, f) == DayOf(e.date) * MinutesPerDay + m
  {
    FormatDateRoundTrip(e.date);
    ParseJoined(FormatDate(e.date), f.time.value);
  }

  /** A date alone moves the event to that day at its old time of day. */
  lemma MergeDateOnly(e: CalendarEvent, f: EventFields, d: nat)
    requires Given(f.date) && !Given(f.time) && ParseDate(f.date.value) == Some(d)
    ensures MergedDate(e, f) == d * MinutesPerDay + MinuteOfDay(e.date)
  {
    FormatTimeRoundTrip(e.date);
    ParseJoined(f.date.value, FormatTime(e.date));
  }

  /** A supplied date that does not parse keeps the old date, whatever the time; the
      other fields are merged all the same (see `Merge`). */
  lemma MergeBadDateKeepsDate(e: CalendarEvent, f: EventFields)
    requires Given(f.date) && ParseDate(f.date.value) == None
    ensures MergedDate(e, f) == e.date
  {
    var ds := f.date.value;
    var s := ds + " " + Or(f.time, FormatTime(e.date));
    if |s| == 16 && s[10] == ' ' {
      if |ds| == 10 {
        assert s[..10] == ds;
      } else if |ds| < 10 {
        assert s[..10][|ds|] == ' ';
        ParseDateRejectsSpace(s[..10], |ds|);
      } else {
        assert s[11..][|ds| - 11] == ' ';
        ParseTimeRejectsSpace(s[11..], |ds| - 11);
      }
    }
  }
}
