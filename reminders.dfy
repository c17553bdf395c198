/** The reminder scan of App.tsx (`checkReminders`, run every ten seconds): which events
    join the list of showing notifications, and dismissing one of them. */
module Reminders {
  import opened Wrappers
  import opened DateTime
  import opened Types
  import opened Seqs

  /** The scan reads the clock in milliseconds; minute timestamp `t` is millisecond
      `t * MillisPerMinute` on the same time line. */
  type Millis = int

  const MillisPerMinute := 60000

  /** `event.reminderMinutesBefore` is truthy, the reminder time (the start less that
      many minutes) is past, and the start itself is still in the future. */
  predicate Due(e: CalendarEvent, now: Millis) {
    && GivenNumber(e.reminderMinutesBefore)
    && (e.date - e.reminderMinutesBefore.value) * MillisPerMinute < now
    && now < e.date * MillisPerMinute
  }

  /** `s.find(n => n.id === id)` finds something. */
  predicate HasId(s: seq<CalendarEvent>, id: string) {
    exists i :: 0 <= i < |s| && s[i].id == id
  }

  predicate NoDupIds(s: seq<CalendarEvent>) {
    forall i, j :: 0 <= i < j < |s| ==> s[i].id != s[j].id
  }

  /** What one scan collects, in the order of `events`: each due event whose id is
      neither among the showing notifications `pending` nor collected earlier in the
      same scan. */
  function Upcoming(events: seq<CalendarEvent>, pending: seq<CalendarEvent>, now: Millis): seq<CalendarEvent>
    decreases |events|
  {
    if events == [] then []
    else
      var prior := Upcoming(events[..|events| - 1], pending, now);
      var e := events[|events| - 1];
      if Due(e, now) && !HasId(pending, e.id) && !HasId(prior, e.id) then prior + [e] else prior
  }

  /** The scan itself: one pass over the events, collecting as it goes. */
  method ScanReminders(events: seq<CalendarEvent>, pending: seq<CalendarEvent>, now: Millis)
    returns (upcoming: seq<CalendarEvent>)
    ensures upcoming == Upcoming(events, pending, now)
  {
    upcoming := [];
    var i := 0;
    while i < |events|
      invariant 0 <= i <= |events|
      invariant upcoming == Upcoming(events[..i], pending, now)
    {
      var e := events[i];
      assert events[..i + 1][..i] == events[..i];
      if Due(e, now) && !HasId(pending, e.id) && !HasId(upcoming, e.id) {
        upcoming := upcoming + [e];
      }
      i := i + 1;
    }
    assert events[..i] == events;
  }

  /** Everything collected is one of the events, due, and not showing already. */
  lemma {:induction false} UpcomingSound(events: seq<CalendarEvent>, pending: seq<CalendarEvent>, now: Millis)
    ensures forall x :: x in Upcoming(events, pending, now) ==>
      x in events && Due(x, now) && !HasId(pending, x.id)
    decreases |events|
  {
    if events != [] {
      var init := events[..|events| - 1];
      UpcomingSound(init, pending, now);
      assert forall x :: x in init ==> x in events;
    }
  }

  /** No id is collected twice. */
  lemma {:induction false} UpcomingNoDups(events: seq<CalendarEvent>, pending: seq<CalendarEvent>, now: Millis)
    ensures NoDupIds(Upcoming(events, pending, now))
    decreases |events|
  {
    if events != [] {
      var init := events[..|events| - 1];
      UpcomingNoDups(init, pending, now);
    }
  }

  /** Every due event that is not showing has its id collected. */
  lemma {:induction false} UpcomingComplete(events: seq<CalendarEvent>, pending: seq<CalendarEvent>, now: Millis)
    ensures forall i :: 0 <= i < |events| && Due(events[i], now) && !HasId(pending, events[i].id) ==>
      HasId(Upcoming(events, pending, now), events[i].id)
    decreases |events|
  {
    if events != [] {
      var init := events[..|events| - 1];
      var prior := Upcoming(init, pending, now);
      UpcomingComplete(init, pending, now);
      forall i | 0 <= i < |events| && Due(events[i], now) && !HasId(pending, events[i].id)
        ensures HasId(Upcoming(events, pending, now), events[i].id)
      {
        var r := Upcoming(events, pending, now);
        if i < |init| {
          assert init[i] == events[i];
          var k :| 0 <= k < |prior| && prior[k].id == events[i].id;
          assert r[k] == prior[k];
        } else if HasId(prior, events[i].id) {
          var k :| 0 <= k < |prior| && prior[k].id == events[i].id;
          assert r[k] == prior[k];
        } else {
          assert r[|prior|] == events[i];
        }
      }
    }
  }

  /** The new notification list after a scan: the showing ones, then the collected. */
  function AfterScan(events: seq<CalendarEvent>, pending: seq<CalendarEvent>, now: Millis): seq<CalendarEvent> {
    pending + Upcoming(events, pending, now)
  }

  /** A scan never lets an id show twice. */
  lemma ScanKeepsNoDups(events: seq<CalendarEvent>, pending: seq<CalendarEvent>, now: Millis)
    requires NoDupIds(pending)
    ensures NoDupIds(AfterScan(events, pending, now))
  {
    var u := Upcoming(events, pending, now);
    var r := AfterScan(events, pending, now);
    UpcomingNoDups(events, pending, now);
    UpcomingSound(events, pending, now);
    forall i, j | 0 <= i < j < |r| ensures r[i].id != r[j].id {
      if j >= |pending| && i < |pending| {
        assert r[j] == u[j - |pending|] && r[j] in u;
        assert r[i] == pending[i];
      }
    }
  }

  /** A second scan at the same moment adds nothing: each due event already shows. */
  lemma ScanSettles(events: seq<CalendarEvent>, pending: seq<CalendarEvent>, now: Millis)
    ensures Upcoming(events, AfterScan(events, pending, now), now) == []
  {
    var after := AfterScan(events, pending, now);
    var u := Upcoming(events, pending, now);
    UpcomingComplete(events, pending, now);
    forall i | 0 <= i < |events| && Due(events[i], now)
      ensures HasId(after, events[i].id)
    {
      if HasId(pending, events[i].id) {
        var k :| 0 <= k < |pending| && pending[k].id == events[i].id;
        assert after[k] == pending[k];
      } else {
        var k :| 0 <= k < |u| && u[k].id == events[i].id;
        assert after[|pending| + k] == u[k];
      }
    }
    NothingNew(events, after, now);
  }

  /** When every due event already shows, a scan collects nothing. */
  lemma {:induction false} NothingNew(events: seq<CalendarEvent>, pending: seq<CalendarEvent>, now: Millis)
    requires forall i :: 0 <= i < |events| && Due(events[i], now) ==> HasId(pending, events[i].id)
    ensures Upcoming(events, pending, now) == []
    decreases |events|
  {
    if events != [] {
      var init := events[..|events| - 1];
      assert forall i :: 0 <= i < |init| ==> init[i] == events[i];
      NothingNew(init, pending, now);
    }
  }

  /** `handleDismissNotification`: the showing notifications without that id. */
  function Dismissed(pending: seq<CalendarEvent>, id: string): (r: seq<CalendarEvent>)
    ensures !HasId(r, id)
    ensures forall x :: x in r <==> x in pending && x.id != id
  {
    Filter(pending, (n: CalendarEvent) => n.id != id)
  }

  /** Dismissal keeps the order of the notifications that stay: dismissing from joined
      lists joins the dismissed parts. */
  lemma DismissedConcat(a: seq<CalendarEvent>, b: seq<CalendarEvent>, id: string)
    ensures Dismissed(a + b, id) == Dismissed(a, id) + Dismissed(b, id)
  {
    FilterConcat(a, b, (n: CalendarEvent) => n.id != id);
  }

  /** Dismissing keeps ids distinct. */
  lemma {:induction false} DismissKeepsNoDups(pending: seq<CalendarEvent>, id: string)
    requires NoDupIds(pending)
    ensures NoDupIds(Dismissed(pending, id))
    decreases |pending|
  {
    if pending != [] {
      var tail := pending[1..];
      DismissKeepsNoDups(tail, id);
      var rest := Dismissed(tail, id);
      assert Dismissed(pending, id) ==
        (if pending[0].id != id then [pending[0]] else []) + rest;
      forall x | x in rest ensures x.id != pending[0].id {
        var k :| 0 <= k < |tail| && tail[k] == x;
        assert pending[k + 1] == x;
      }
    }
  }

  /** A dismissed reminder whose event is still due comes back on the next scan. */
  lemma DismissedReturns(events: seq<CalendarEvent>, pending: seq<CalendarEvent>, now: Millis, i: nat)
    requires i < |events| && Due(events[i], now)
    ensures HasId(Upcoming(events, Dismissed(pending, events[i].id), now), events[i].id)
  {
    UpcomingComplete(events, Dismissed(pending, events[i].id), now);
  }
}
