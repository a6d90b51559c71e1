/**
 * Calendar reconciliation (`CalendarService`): the upcoming-events query and
 * the two-phase sync that deletes alarms of vanished events, then updates or
 * creates one alarm per upcoming event.
 */
module CalendarSync {
  import opened Wrappers
  import opened Ids
  import opened TimeModel
  import opened AlarmModel
  import opened Sorting
  import opened Store

  /** A calendar event: identifier (may be missing), start, title (may be missing). */
  datatype Event = Event(id: Option<string>, start: Instant, title: Option<string>)

  const UpcomingDays := 14

  /** Alarms whose time is within this many seconds of the event's alarm time are left alone. */
  const Tolerance := 30

  function StartOf(e: Event): int { e.start }

  /**
   * `upcomingEvents(days:)`. `query(from, to)` is the event store's answer
   * for that window.
   */
  function UpcomingEvents(authorized: bool, now: Instant, query: (Instant, Instant) -> seq<Event>): (r: seq<Event>)
    ensures !authorized ==> r == []
    ensures authorized ==>
      && multiset(r) == multiset(query(now, now + UpcomingDays * SecondsPerDay))
      && SortedBy(r, StartOf)
  {
    if !authorized then [] else Sort(query(now, now + UpcomingDays * SecondsPerDay), StartOf)
  }

  predicate DistinctEventIds(events: seq<Event>) {
    forall i, j :: 0 <= i < j < |events| && events[i].id.Some? ==> events[i].id != events[j].id
  }

  function EventIds(events: seq<Event>): set<string> {
    set e | e in events && e.id.Some? :: e.id.value
  }

  predicate FromCalendar(a: Alarm) {
    a.calendarEventID.Some?
  }

  /** The alarms that came from calendar events: those with an event link, in list order. */
  function CalendarAlarms(alarms: seq<Alarm>): (r: seq<Alarm>)
    ensures forall x :: x in r <==> x in alarms && FromCalendar(x)
  {
    if alarms == [] then []
    else if FromCalendar(alarms[0]) then [alarms[0]] + CalendarAlarms(alarms[1..])
    else CalendarAlarms(alarms[1..])
  }

  /** The alarm to fire `lead` minutes before the start. */
  function AlarmTime(e: Event, lead: int): Instant {
    e.start - lead * 60
  }

  /** An alarm linked to a vanished event. */
  predicate Stale(x: Alarm, ids: set<string>) {
    x.calendarEventID.Some? && x.calendarEventID.value !in ids
  }

  /** Phase 1: delete every calendar alarm whose event is not upcoming. */
  function DeleteStale(list: seq<Alarm>, calendar: seq<Alarm>, ids: set<string>): (r: seq<Alarm>)
    ensures forall z :: z in r <==> z in list && forall x :: x in calendar && Stale(x, ids) ==> x.id != z.id
  {
    if calendar == [] then list
    else
      var x := calendar[0];
      var rest := DeleteStale(list, calendar[1..], ids);
      assert forall y :: y in calendar <==> y == x || y in calendar[1..];
      if Stale(x, ids) then RemoveById(rest, x.id) else rest
  }

  /** With unique identifiers, phase 1 keeps exactly the alarms that are not stale. */
  lemma DeleteStaleKeeps(alarms: seq<Alarm>, ids: set<string>, z: Alarm)
    requires UniqueIds(alarms)
    ensures z in DeleteStale(alarms, CalendarAlarms(alarms), ids) <==> z in alarms && !Stale(z, ids)
  {
    if z in alarms && Stale(z, ids) {
      assert z in CalendarAlarms(alarms);
    }
    if z in alarms && !Stale(z, ids) {
      forall x | x in CalendarAlarms(alarms) && Stale(x, ids) ensures x.id != z.id {
        var i :| 0 <= i < |alarms| && alarms[i] == x;
        var j :| 0 <= j < |alarms| && alarms[j] == z;
        assert i != j;
      }
    }
  }

  /** `calendarAlarms.first(where:)` for an event identifier. */
  function Linked(calendar: seq<Alarm>, eid: string): (r: Option<Alarm>)
    ensures r.Some? ==> r.value in calendar && r.value.calendarEventID == Some(eid)
    ensures r.None? ==> forall x :: x in calendar ==> x.calendarEventID != Some(eid)
  {
    if calendar == [] then None
    else if calendar[0].calendarEventID == Some(eid) then Some(calendar[0])
    else Linked(calendar[1..], eid)
  }

  /**
   * The alarm created for an event without one, as written: only the title
   * and the time are given, so it has neither weekdays nor a target date.
   */
  function EventAlarmAsWritten(id: Uuid, e: Event, at: Instant, now: Instant): (a: Alarm)
    requires e.id.Some?
    ensures a.calendarEventID == e.id && a.time == at && a.id == id && a.isEnabled
    ensures a.title == e.title.GetOr("Event")
    ensures a.repeatWeekdays == [] && a.targetDate.None?
  {
    NewAlarm(id, now, e.title.GetOr("Event"), at, None, [], false).(calendarEventID := e.id)
  }

  /**
   * The alarm created for an event, corrected: a one-time alarm whose target
   * date is its alarm time. The sync uses this one.
   */
  function EventAlarm(id: Uuid, e: Event, at: Instant, now: Instant): (a: Alarm)
    requires e.id.Some?
    ensures a.calendarEventID == e.id && a.time == at && a.id == id && a.isEnabled
    ensures a.title == e.title.GetOr("Event")
    ensures a.repeatWeekdays == [] && a.targetDate == Some(at) && !a.skipHolidays
  {
    EventAlarmAsWritten(id, e, at, now).(targetDate := Some(at))
  }

  /**
   * A linked alarm moved to a new alarm time. The code sets only the time;
   * the corrected sync moves the target date with it.
   */
  function Retimed(existing: Alarm, at: Instant): (a: Alarm)
    ensures a.id == existing.id && a.calendarEventID == existing.calendarEventID
    ensures a.time == at && a.targetDate == Some(at)
  {
    existing.(time := at, targetDate := Some(at))
  }

  function Distance(a: int, b: int): nat {
    if a >= b then a - b else b - a
  }

  /** Phase 2 for one event; `newId` is the identifier a created alarm gets. */
  function SyncEvent(list: seq<Alarm>, calendar: seq<Alarm>, e: Event, lead: int, now: Instant,
                     newId: Uuid): seq<Alarm>
  {
    if e.id.None? || AlarmTime(e, lead) <= now then list
    else
      var at := AlarmTime(e, lead);
      match Linked(calendar, e.id.value)
      case Some(existing) =>
        if Distance(existing.time, at) > Tolerance then ReplaceById(list, Retimed(existing, at)) else list
      case None => list + [EventAlarm(newId, e, at, now)]
  }

  /** Phase 2: every event in order; event `i` may use `newIds[i]`. */
  function SyncEvents(list: seq<Alarm>, calendar: seq<Alarm>, events: seq<Event>, lead: int, now: Instant,
                      newIds: seq<Uuid>): seq<Alarm>
    requires |newIds| >= |events|
    decreases |events|
  {
    if events == [] then list
    else SyncEvents(SyncEvent(list, calendar, events[0], lead, now, newIds[0]),
                    calendar, events[1..], lead, now, newIds[1..])
  }

  /**
   * `syncCalendarAlarms(into:leadMinutes:)` on the alarm list, with `events`
   * the upcoming events. Only the list is modelled: the code hands each
   * deletion, update and creation to the store's `delete`, `update` and
   * `add`, whose cancelling and rescheduling are not composed in here.
   */
  function Sync(authorized: bool, alarms: seq<Alarm>, events: seq<Event>, lead: int, now: Instant,
                newIds: seq<Uuid>): (r: seq<Alarm>)
    requires |newIds| >= |events|
    requires authorized ==> DistinctEventIds(events)
    ensures !authorized ==> r == alarms
  {
    if !authorized then alarms
    else
      var calendar := CalendarAlarms(alarms);
      var kept := DeleteStale(alarms, calendar, EventIds(events));
      SyncEvents(kept, calendar, events, lead, now, newIds)
  }

  // ---------------------------------------------------------------------------
  // Properties of the sync

  /** Event `e` rewrites the stored alarm with identifier `id`. */
  predicate Touches(calendar: seq<Alarm>, e: Event, lead: int, now: Instant, id: Uuid) {
    && e.id.Some? && AlarmTime(e, lead) > now
    && Linked(calendar, e.id.value).Some? && Linked(calendar, e.id.value).value.id == id
  }

  lemma ReplaceMembers(list: seq<Alarm>, a: Alarm, z: Alarm)
    ensures z in list && z.id != a.id ==> z in ReplaceById(list, a)
    ensures z in ReplaceById(list, a) ==> z in list || z == a
  {
    var r := ReplaceById(list, a);
    if z in list && z.id != a.id {
      var i :| 0 <= i < |list| && list[i] == z;
      assert r[i] == z;
    }
    if z in r {
      var i :| 0 <= i < |r| && r[i] == z;
      assert list[i] == z || a == z;
    }
  }

  lemma SyncEventKeeps(list: seq<Alarm>, calendar: seq<Alarm>, e: Event, lead: int, now: Instant,
                       newId: Uuid, z: Alarm)
    requires z in list && !Touches(calendar, e, lead, now, z.id)
    ensures z in SyncEvent(list, calendar, e, lead, now, newId)
  {
    if e.id.Some? && AlarmTime(e, lead) > now && Linked(calendar, e.id.value).Some? {
      ReplaceMembers(list, Retimed(Linked(calendar, e.id.value).value, AlarmTime(e, lead)), z);
    }
  }

  /** Phase 2 only rewrites the alarms linked to upcoming events, and removes nothing. */
  lemma {:induction false} SyncEventsKeeps(list: seq<Alarm>, calendar: seq<Alarm>, events: seq<Event>,
                                           lead: int, now: Instant, newIds: seq<Uuid>, z: Alarm)
    requires |newIds| >= |events|
    requires z in list
    requires forall j :: 0 <= j < |events| ==> !Touches(calendar, events[j], lead, now, z.id)
    ensures z in SyncEvents(list, calendar, events, lead, now, newIds)
    decreases |events|
  {
    if events != [] {
      SyncEventKeeps(list, calendar, events[0], lead, now, newIds[0], z);
      SyncEventsKeeps(SyncEvent(list, calendar, events[0], lead, now, newIds[0]),
                      calendar, events[1..], lead, now, newIds[1..], z);
    }
  }

  /** Identifiers of calendar alarms are unique and differ from every new identifier. */
  predicate FreshIds(calendar: seq<Alarm>, newIds: seq<Uuid>) {
    && (forall x, y :: x in calendar && y in calendar && x.id == y.id ==> x == y)
    && (forall j, x :: 0 <= j < |newIds| && x in calendar ==> newIds[j] != x.id)
  }

  /** The alarm an upcoming event ends with: the linked one, or the one created at its position. */
  predicate Covers(z: Alarm, calendar: seq<Alarm>, e: Event, lead: int, newId: Uuid) {
    && e.id.Some?
    && z.calendarEventID == e.id
    && Distance(z.time, AlarmTime(e, lead)) <= Tolerance
    && (z.id == newId || (Linked(calendar, e.id.value).Some? && z.id == Linked(calendar, e.id.value).value.id))
  }

  lemma SyncEventCovers(list: seq<Alarm>, calendar: seq<Alarm>, e: Event, lead: int, now: Instant, newId: Uuid)
    requires e.id.Some? && AlarmTime(e, lead) > now
    requires Linked(calendar, e.id.value).Some? ==> Linked(calendar, e.id.value).value in list
    ensures exists z :: z in SyncEvent(list, calendar, e, lead, now, newId) && Covers(z, calendar, e, lead, newId)
  {
    var at := AlarmTime(e, lead);
    var r := SyncEvent(list, calendar, e, lead, now, newId);
    match Linked(calendar, e.id.value)
    case Some(existing) =>
      if Distance(existing.time, at) > Tolerance {
        var z := Retimed(existing, at);
        var i :| 0 <= i < |list| && list[i] == existing;
        assert r[i] == z;
        assert Covers(z, calendar, e, lead, newId);
      } else {
        assert Covers(existing, calendar, e, lead, newId);
      }
    case None =>
      var z := EventAlarm(newId, e, at, now);
      assert r[|list|] == z;
      assert Covers(z, calendar, e, lead, newId);
  }

  lemma EventIdsDiffer(events: seq<Event>, j: int, k: int)
    requires DistinctEventIds(events)
    requires 0 <= j < |events| && 0 <= k < |events| && j != k && events[j].id.Some?
    ensures events[j].id != events[k].id
  {
    if k < j && events[k].id.Some? {
      assert events[k].id != events[j].id;
    }
  }

  /** Alarms linked to different events have different identifiers. */
  lemma LinkedDiffer(calendar: seq<Alarm>, newIds: seq<Uuid>, e1: string, e2: string)
    requires FreshIds(calendar, newIds) && e1 != e2
    requires Linked(calendar, e1).Some? && Linked(calendar, e2).Some?
    ensures Linked(calendar, e1).value.id != Linked(calendar, e2).value.id
  {
    assert Linked(calendar, e1).value != Linked(calendar, e2).value;
  }

  /** A covering alarm is never rewritten by another event. */
  lemma CoverUntouched(calendar: seq<Alarm>, events: seq<Event>, lead: int, now: Instant, newIds: seq<Uuid>,
                       k: int, j: int, z: Alarm)
    requires DistinctEventIds(events) && FreshIds(calendar, newIds)
    requires |newIds| >= |events| && 0 <= k < |events| && 0 <= j < |events| && j != k
    requires Covers(z, calendar, events[k], lead, newIds[k])
    ensures !Touches(calendar, events[j], lead, now, z.id)
  {
    if events[j].id.Some? && Linked(calendar, events[j].id.value).Some? {
      var y := Linked(calendar, events[j].id.value).value;
      if z.id != newIds[k] {
        EventIdsDiffer(events, j, k);
        LinkedDiffer(calendar, newIds, events[j].id.value, events[k].id.value);
      }
      assert y.id != z.id;
    }
  }

  /** Every upcoming event with a future alarm time ends with a covering alarm. */
  lemma {:induction false} SyncEventsCovers(list: seq<Alarm>, calendar: seq<Alarm>, events: seq<Event>,
                                            lead: int, now: Instant, newIds: seq<Uuid>, k: int)
    requires |newIds| >= |events| && 0 <= k < |events|
    requires DistinctEventIds(events) && FreshIds(calendar, newIds)
    requires events[k].id.Some? && AlarmTime(events[k], lead) > now
    requires forall j :: 0 <= j <= k && events[j].id.Some? && Linked(calendar, events[j].id.value).Some? ==>
      Linked(calendar, events[j].id.value).value in list
    ensures exists z :: z in SyncEvents(list, calendar, events, lead, now, newIds)
                     && Covers(z, calendar, events[k], lead, newIds[k])
    decreases |events|
  {
    var next := SyncEvent(list, calendar, events[0], lead, now, newIds[0]);
    if k == 0 {
      SyncEventCovers(list, calendar, events[0], lead, now, newIds[0]);
      var z :| z in next && Covers(z, calendar, events[0], lead, newIds[0]);
      forall j | 0 <= j < |events[1..]| ensures !Touches(calendar, events[1..][j], lead, now, z.id) {
        CoverUntouched(calendar, events, lead, now, newIds, 0, j + 1, z);
      }
      SyncEventsKeeps(next, calendar, events[1..], lead, now, newIds[1..], z);
    } else {
      forall j | 0 <= j <= k - 1 && events[1..][j].id.Some? && Linked(calendar, events[1..][j].id.value).Some?
        ensures Linked(calendar, events[1..][j].id.value).value in next
      {
        var x := Linked(calendar, events[j + 1].id.value).value;
        if events[0].id.Some? && Linked(calendar, events[0].id.value).Some? {
          EventIdsDiffer(events, 0, j + 1);
          LinkedDiffer(calendar, newIds, events[0].id.value, events[j + 1].id.value);
        }
        SyncEventKeeps(list, calendar, events[0], lead, now, newIds[0], x);
      }
      assert DistinctEventIds(events[1..]);
      assert FreshIds(calendar, newIds[1..]) by {
        assert forall j :: 0 <= j < |newIds[1..]| ==> newIds[1..][j] == newIds[j + 1];
      }
      SyncEventsCovers(next, calendar, events[1..], lead, now, newIds[1..], k - 1);
    }
  }

  lemma SameIdSameAlarm(alarms: seq<Alarm>, x: Alarm, y: Alarm)
    requires UniqueIds(alarms) && x in alarms && y in alarms && x.id == y.id
    ensures x == y
  {
    var i :| 0 <= i < |alarms| && alarms[i] == x;
    var j :| 0 <= j < |alarms| && alarms[j] == y;
  }

  /** The new identifiers are not in use. */
  predicate Unused(alarms: seq<Alarm>, newIds: seq<Uuid>) {
    forall j, x :: 0 <= j < |newIds| && x in alarms ==> newIds[j] != x.id
  }

  lemma SyncSetting(alarms: seq<Alarm>, events: seq<Event>, newIds: seq<Uuid>)
    requires UniqueIds(alarms) && Unused(alarms, newIds)
    ensures FreshIds(CalendarAlarms(alarms), newIds)
  {
    forall x, y | x in CalendarAlarms(alarms) && y in CalendarAlarms(alarms) && x.id == y.id
      ensures x == y
    {
      SameIdSameAlarm(alarms, x, y);
    }
  }

  /**
   * After a sync every upcoming event whose alarm time is still ahead has an
   * alarm linked to it that fires within 30 seconds of that time.
   */
  lemma SyncCoversUpcoming(alarms: seq<Alarm>, events: seq<Event>, lead: int, now: Instant,
                           newIds: seq<Uuid>, k: int)
    requires |newIds| >= |events| && DistinctEventIds(events)
    requires UniqueIds(alarms) && Unused(alarms, newIds)
    requires 0 <= k < |events| && events[k].id.Some? && AlarmTime(events[k], lead) > now
    ensures exists z :: z in Sync(true, alarms, events, lead, now, newIds)
                     && z.calendarEventID == events[k].id
                     && Distance(z.time, AlarmTime(events[k], lead)) <= Tolerance
  {
    var calendar := CalendarAlarms(alarms);
    var ids := EventIds(events);
    var kept := DeleteStale(alarms, calendar, ids);
    SyncSetting(alarms, events, newIds);
    forall j | 0 <= j <= k && events[j].id.Some? && Linked(calendar, events[j].id.value).Some?
      ensures Linked(calendar, events[j].id.value).value in kept
    {
      var x := Linked(calendar, events[j].id.value).value;
      assert events[j] in events;
      DeleteStaleKeeps(alarms, ids, x);
    }
    SyncEventsCovers(kept, calendar, events, lead, now, newIds, k);
  }

  lemma {:induction false} SyncEventsNoStale(list: seq<Alarm>, calendar: seq<Alarm>, events: seq<Event>,
                                             lead: int, now: Instant, newIds: seq<Uuid>, ids: set<string>)
    requires |newIds| >= |events|
    requires forall z :: z in list ==> !Stale(z, ids)
    requires forall x :: x in calendar ==> x.calendarEventID.Some?
    requires forall e :: e in events && e.id.Some? ==> e.id.value in ids
    ensures forall z :: z in SyncEvents(list, calendar, events, lead, now, newIds) ==> !Stale(z, ids)
    decreases |events|
  {
    if events != [] {
      var e := events[0];
      var next := SyncEvent(list, calendar, e, lead, now, newIds[0]);
      assert e in events;
      if e.id.Some? && AlarmTime(e, lead) > now && Linked(calendar, e.id.value).Some? {
        var a := Retimed(Linked(calendar, e.id.value).value, AlarmTime(e, lead));
        forall z | z in ReplaceById(list, a) ensures !Stale(z, ids) {
          ReplaceMembers(list, a, z);
        }
      }
      assert forall e' :: e' in events[1..] ==> e' in events;
      SyncEventsNoStale(next, calendar, events[1..], lead, now, newIds[1..], ids);
    }
  }

  /** After a sync no alarm is linked to an event that is not upcoming. */
  lemma SyncRemovesStale(alarms: seq<Alarm>, events: seq<Event>, lead: int, now: Instant,
                         newIds: seq<Uuid>, z: Alarm)
    requires |newIds| >= |events| && DistinctEventIds(events) && UniqueIds(alarms)
    requires z in Sync(true, alarms, events, lead, now, newIds) && z.calendarEventID.Some?
    ensures z.calendarEventID.value in EventIds(events)
  {
    var ids := EventIds(events);
    var calendar := CalendarAlarms(alarms);
    forall y | y in DeleteStale(alarms, calendar, ids) ensures !Stale(y, ids) {
      DeleteStaleKeeps(alarms, ids, y);
    }
    SyncEventsNoStale(DeleteStale(alarms, calendar, ids), calendar, events, lead, now, newIds, ids);
  }

  /** Alarms the user made, without an event link, survive a sync unchanged. */
  lemma SyncKeepsManual(alarms: seq<Alarm>, events: seq<Event>, lead: int, now: Instant,
                        newIds: seq<Uuid>, z: Alarm)
    requires |newIds| >= |events| && DistinctEventIds(events) && UniqueIds(alarms)
    requires z in alarms && z.calendarEventID.None?
    ensures z in Sync(true, alarms, events, lead, now, newIds)
  {
    var ids := EventIds(events);
    var calendar := CalendarAlarms(alarms);
    DeleteStaleKeeps(alarms, ids, z);
    forall j | 0 <= j < |events| ensures !Touches(calendar, events[j], lead, now, z.id) {
      if events[j].id.Some? && Linked(calendar, events[j].id.value).Some? {
        var y := Linked(calendar, events[j].id.value).value;
        assert y != z;
        if y.id == z.id {
          SameIdSameAlarm(alarms, y, z);
        }
      }
    }
    SyncEventsKeeps(DeleteStale(alarms, calendar, ids), calendar, events, lead, now, newIds, z);
  }

  /** Events that get a new alarm: upcoming, linked to no calendar alarm. */
  function Creating(calendar: seq<Alarm>, events: seq<Event>, lead: int, now: Instant): (n: nat)
    ensures n <= |events|
  {
    if events == [] then 0
    else
      var e := events[0];
      var creates := e.id.Some? && AlarmTime(e, lead) > now && Linked(calendar, e.id.value).None?;
      (if creates then 1 else 0) + Creating(calendar, events[1..], lead, now)
  }

  /** Phase 2 adds exactly one alarm per event that had none, and no others. */
  lemma {:induction false} SyncEventsLength(list: seq<Alarm>, calendar: seq<Alarm>, events: seq<Event>,
                                            lead: int, now: Instant, newIds: seq<Uuid>)
    requires |newIds| >= |events|
    ensures |SyncEvents(list, calendar, events, lead, now, newIds)| == |list| + Creating(calendar, events, lead, now)
    decreases |events|
  {
    if events != [] {
      SyncEventsLength(SyncEvent(list, calendar, events[0], lead, now, newIds[0]),
                       calendar, events[1..], lead, now, newIds[1..]);
    }
  }

  /**
   * As written, an alarm created for an event has neither weekdays nor a
   * target date, so the recurrence rule never lets it fire and the scan
   * plans no instant for it: nothing is ever scheduled.
   */
  lemma EventAlarmNeverFires(id: Uuid, e: Event, at: Instant, now: Instant, date: Instant, holidays: set<string>,
                             count: int)
    requires e.id.Some?
    ensures !Fires(EventAlarmAsWritten(id, e, at, now), date, holidays)
    ensures NextFireDates(EventAlarmAsWritten(id, e, at, now), now, now, count, holidays) == []
  {
    NoModeNeverFires(EventAlarmAsWritten(id, e, at, now), date, holidays);
    NextFireDatesOneShot(EventAlarmAsWritten(id, e, at, now), now, now, count, holidays);
  }

  /**
   * Corrected, an alarm created for an event whose alarm time is ahead, on a
   * whole minute and inside the scan window, fires on that day and is
   * scheduled for exactly that instant.
   */
  lemma EventAlarmRingsAtAlarmTime(id: Uuid, e: Event, at: Instant, now: Instant, holidays: set<string>)
    requires e.id.Some?
    requires now < at && at % 60 == 0 && Day(at) < Day(now) + ScanHorizon
    ensures Fires(EventAlarm(id, e, at, now), at, holidays)
    ensures NextFireDates(EventAlarm(id, e, at, now), now, now, 1, holidays) == [at]
  {
    var a := EventAlarm(id, e, at, now);
    NextFireDatesOneShot(a, now, now, 1, holidays);
    assert Day(now) <= Day(at);
    CombineOwnMinute(at);
    assert Eligible(a, holidays, Day(at));
  }
}
