/**
 * The system-alarm planner (`AlarmKitService`): native weekly recurrence or
 * up to five fixed alarms, with the scheduled identifiers recorded per alarm
 * so that they can be cancelled later.
 */
module AlarmKit {
  import opened Wrappers
  import opened Ids
  import opened TimeModel
  import opened AlarmModel
  import opened Seqs

  /** `Locale.Weekday`. */
  datatype LocaleWeekday = Sunday | Monday | Tuesday | Wednesday | Thursday | Friday | Saturday

  /** `Locale.Weekday(calendarWeekday:)`: 1 is Sunday, 7 is Saturday. */
  function LocaleWeekdayOf(w: int): (r: Option<LocaleWeekday>)
    ensures r.Some? <==> 1 <= w <= 7
  {
    if w == 1 then Some(Sunday)
    else if w == 2 then Some(Monday)
    else if w == 3 then Some(Tuesday)
    else if w == 4 then Some(Wednesday)
    else if w == 5 then Some(Thursday)
    else if w == 6 then Some(Friday)
    else if w == 7 then Some(Saturday)
    else None
  }

  /** Distinct calendar weekdays give distinct locale weekdays. */
  lemma LocaleWeekdayInjective(v: int, w: int)
    requires LocaleWeekdayOf(v).Some? && LocaleWeekdayOf(v) == LocaleWeekdayOf(w)
    ensures v == w
  {
  }

  /** Every locale weekday comes from exactly one calendar weekday. */
  lemma LocaleWeekdayOnto(d: LocaleWeekday)
    ensures exists w :: 1 <= w <= 7 && LocaleWeekdayOf(w) == Some(d)
  {
    match d
    case Sunday => assert LocaleWeekdayOf(1) == Some(d);
    case Monday => assert LocaleWeekdayOf(2) == Some(d);
    case Tuesday => assert LocaleWeekdayOf(3) == Some(d);
    case Wednesday => assert LocaleWeekdayOf(4) == Some(d);
    case Thursday => assert LocaleWeekdayOf(5) == Some(d);
    case Friday => assert LocaleWeekdayOf(6) == Some(d);
    case Saturday => assert LocaleWeekdayOf(7) == Some(d);
  }

  /** `repeatWeekdays.compactMap(Locale.Weekday.init)`: invalid entries are dropped. */
  function CompactWeekdays(ws: seq<int>): (r: seq<LocaleWeekday>)
    ensures |r| <= |ws|
    ensures (forall i :: 0 <= i < |ws| ==> 1 <= ws[i] <= 7) ==> |r| == |ws|
  {
    if ws == [] then []
    else
      var rest := CompactWeekdays(ws[1..]);
      match LocaleWeekdayOf(ws[0])
      case Some(d) => [d] + rest
      case None => rest
  }

  /** A locale weekday is kept exactly when some entry converts to it. */
  lemma {:induction false} CompactWeekdaysMembers(ws: seq<int>, d: LocaleWeekday)
    ensures d in CompactWeekdays(ws) <==> exists i :: 0 <= i < |ws| && LocaleWeekdayOf(ws[i]) == Some(d)
  {
    if ws != [] {
      CompactWeekdaysMembers(ws[1..], d);
      if exists i :: 0 <= i < |ws[1..]| && LocaleWeekdayOf(ws[1..][i]) == Some(d) {
        var i :| 0 <= i < |ws[1..]| && LocaleWeekdayOf(ws[1..][i]) == Some(d);
        assert LocaleWeekdayOf(ws[i + 1]) == Some(d);
      }
      if exists i :: 0 <= i < |ws| && LocaleWeekdayOf(ws[i]) == Some(d) {
        var i :| 0 <= i < |ws| && LocaleWeekdayOf(ws[i]) == Some(d);
        if i > 0 {
          assert LocaleWeekdayOf(ws[1..][i - 1]) == Some(d);
        }
      }
    }
  }

  datatype KitSchedule =
    | Weekly(hour: int, minute: int, weekdays: seq<LocaleWeekday>)  // `.relative(... repeats: .weekly)`
    | Fixed(at: Instant)                                            // `.fixed(date)`

  /** What `scheduleOne` hands to the alarm manager. */
  datatype KitAlarm = KitAlarm(schedule: KitSchedule, alertTitle: string, alarmTitle: string, snoozeMinutes: int)

  /**
   * `store` is the string-array part of `UserDefaults`; `scheduled` is the
   * alarm manager's table of alarms by identifier.
   */
  datatype KitState = KitState(store: map<string, seq<string>>, scheduled: map<Uuid, KitAlarm>)

  /** `udKey(for:)`. */
  function KitKey(id: Uuid): (key: string)
    ensures |key| == 12 + |id| && key[12..] == id
  {
    "AlarmKitIDs_" + id
  }

  /** Each alarm has its own bookkeeping key. */
  lemma KitKeyInjective(a: Uuid, b: Uuid)
    requires KitKey(a) == KitKey(b)
    ensures a == b
  {
    assert KitKey(a)[12..] == a;
  }

  /** The alert title: the alarm's title, or "Alarm" when it has none. */
  function AlertTitle(title: string): (r: string)
    ensures |r| > 0
    ensures |title| > 0 ==> r == title
  {
    if title == "" then "Alarm" else title
  }

  /** The identifiers recorded for an alarm; none when the key is absent. */
  function StoredIds(k: KitState, id: Uuid): seq<string> {
    if KitKey(id) in k.store then k.store[KitKey(id)] else []
  }

  /** Cancels every parseable identifier of `ids`; a failed cancel is ignored. */
  function CancelIds(scheduled: map<Uuid, KitAlarm>, ids: seq<string>): (r: map<Uuid, KitAlarm>)
    ensures forall u :: u in r <==> u in scheduled && u !in ids
    ensures forall u :: u in r ==> r[u] == scheduled[u]
  {
    if ids == [] then scheduled
    else
      var rest := CancelIds(scheduled, ids[1..]);
      match ParseUuid(ids[0])
      case Some(u) => rest - {u}
      case None => rest
  }

  /** `cancel(_:)`: cancels the recorded alarms and forgets the record. */
  function Cancel(k: KitState, a: Alarm): (r: KitState)
    ensures KitKey(a.id) !in r.store
    ensures forall key :: key in r.store <==> key in k.store && key != KitKey(a.id)
    ensures forall key :: key in r.store ==> r.store[key] == k.store[key]
    ensures forall u :: u in r.scheduled <==> u in k.scheduled && u !in StoredIds(k, a.id)
    ensures forall u :: u in r.scheduled ==> r.scheduled[u] == k.scheduled[u]
  {
    KitState(k.store - {KitKey(a.id)}, CancelIds(k.scheduled, StoredIds(k, a.id)))
  }

  /** The branch that lets the system repeat the alarm weekly. */
  predicate NativeWeekly(a: Alarm) {
    |a.repeatWeekdays| > 0 && !a.isLunar && !a.skipHolidays
  }

  /** At most this many fixed alarms are scheduled ahead. */
  const FixedAhead := 5

  function FixedSchedules(dates: seq<Instant>): (r: seq<KitSchedule>)
    ensures |r| == |dates|
    ensures forall i :: 0 <= i < |r| ==> r[i] == Fixed(dates[i])
  {
    if dates == [] then [] else [Fixed(dates[0])] + FixedSchedules(dates[1..])
  }

  /** The schedules `schedule(_:holidays:)` asks for, at clock `now`. */
  function Plan(a: Alarm, holidays: set<string>, now: Instant): (r: seq<KitSchedule>)
    ensures NativeWeekly(a) ==>
      r == [Weekly(HourOf(a.time), MinuteOf(a.time), CompactWeekdays(a.repeatWeekdays))]
    ensures !NativeWeekly(a) ==>
      var dates := NextFireDates(a, now, now, FixedAhead, holidays);
      |r| == |dates| <= FixedAhead && forall i :: 0 <= i < |r| ==> r[i] == Fixed(dates[i])
  {
    if NativeWeekly(a) then [Weekly(HourOf(a.time), MinuteOf(a.time), CompactWeekdays(a.repeatWeekdays))]
    else FixedSchedules(NextFireDates(a, now, now, FixedAhead, holidays))
  }

  /**
   * Registers `plans[i]` under `ids[i]` for every `i` the system accepts. The
   * schedule call's failure is swallowed (`try?`), so an identifier in
   * `refused` registers nothing.
   */
  function AddAll(scheduled: map<Uuid, KitAlarm>, ids: seq<Uuid>, plans: seq<KitSchedule>,
                  a: Alarm, snooze: int, refused: set<Uuid>): (r: map<Uuid, KitAlarm>)
    requires |ids| == |plans| && Distinct(ids)
    ensures forall u :: u in r <==> u in scheduled || (u in ids && u !in refused)
    ensures forall i :: 0 <= i < |ids| && ids[i] !in refused ==>
      r[ids[i]] == KitAlarm(plans[i], AlertTitle(a.title), a.title, snooze)
    ensures forall u :: u in scheduled && (u !in ids || u in refused) ==> r[u] == scheduled[u]
  {
    if ids == [] then scheduled
    else
      var rest := AddAll(scheduled, ids[1..], plans[1..], a, snooze, refused);
      assert forall i :: 1 <= i < |ids| ==> ids[i] == ids[1..][i - 1];
      if ids[0] in refused then rest
      else rest[ids[0] := KitAlarm(plans[0], AlertTitle(a.title), a.title, snooze)]
  }

  /**
   * `schedule(_:holidays:)` at clock `now` with snooze length `snooze`.
   * `newIds` supplies the identifiers `UUID()` would create, in order; they are
   * distinct. `refused` holds the identifiers whose schedule call the system
   * rejects (for instance without alarm authorization); they are recorded all
   * the same.
   */
  function Schedule(k: KitState, a: Alarm, holidays: set<string>, now: Instant, snooze: int,
                    newIds: seq<Uuid>, refused: set<Uuid>): (r: KitState)
    requires |newIds| >= FixedAhead && Distinct(newIds)
    ensures !a.isEnabled ==> r == Cancel(k, a)
    ensures a.isEnabled ==>
      var plans := Plan(a, holidays, now);
      && r.store == Cancel(k, a).store[KitKey(a.id) := newIds[..|plans|]]
      && (forall i :: 0 <= i < |plans| && newIds[i] !in refused ==>
           newIds[i] in r.scheduled
           && r.scheduled[newIds[i]] == KitAlarm(plans[i], AlertTitle(a.title), a.title, snooze))
      && (forall i :: 0 <= i < |plans| && newIds[i] in refused ==>
           (newIds[i] in r.scheduled <==> newIds[i] in Cancel(k, a).scheduled))
  {
    var cancelled := Cancel(k, a);
    if !a.isEnabled then cancelled
    else
      var plans := Plan(a, holidays, now);
      var ids := newIds[..|plans|];
      assert Distinct(ids);
      KitState(cancelled.store[KitKey(a.id) := ids],
               AddAll(cancelled.scheduled, ids, plans, a, snooze, refused))
  }

  /** A disabled alarm has no record afterwards. */
  lemma ScheduleDisabled(k: KitState, a: Alarm, holidays: set<string>, now: Instant, snooze: int,
                         newIds: seq<Uuid>, refused: set<Uuid>)
    requires |newIds| >= FixedAhead && Distinct(newIds)
    requires !a.isEnabled
    ensures KitKey(a.id) !in Schedule(k, a, holidays, now, snooze, newIds, refused).store
    ensures forall u :: u in StoredIds(k, a.id) ==> u !in Schedule(k, a, holidays, now, snooze, newIds, refused).scheduled
  {
  }

  /**
   * The record of an enabled alarm lists one identifier per requested alarm:
   * one weekly alarm in the native branch, otherwise one fixed alarm per
   * upcoming instant and at most five. Every recorded identifier parses; it is
   * scheduled when the system accepted it, and a refused fresh identifier is
   * recorded without being scheduled.
   */
  lemma ScheduleRecords(k: KitState, a: Alarm, holidays: set<string>, now: Instant, snooze: int,
                        newIds: seq<Uuid>, refused: set<Uuid>)
    requires |newIds| >= FixedAhead && Distinct(newIds)
    requires a.isEnabled
    ensures var r := Schedule(k, a, holidays, now, snooze, newIds, refused);
      var rec := r.store[KitKey(a.id)];
      && KitKey(a.id) in r.store
      && (forall i :: 0 <= i < |rec| ==> ParseUuid(rec[i]).Some?)
      && (forall i :: 0 <= i < |rec| && rec[i] !in refused ==> rec[i] in r.scheduled)
      && (forall i :: 0 <= i < |rec| && rec[i] in refused && rec[i] !in k.scheduled ==> rec[i] !in r.scheduled)
      && (NativeWeekly(a) ==>
            (&& |rec| == 1
             && (newIds[0] !in refused ==>
                   && r.scheduled[newIds[0]].schedule.Weekly?
                   && r.scheduled[newIds[0]].schedule.weekdays == CompactWeekdays(a.repeatWeekdays))))
      && (!NativeWeekly(a) ==>
            var dates := NextFireDates(a, now, now, FixedAhead, holidays);
            (&& |rec| == |dates| <= FixedAhead
             && forall i :: 0 <= i < |dates| && newIds[i] !in refused ==> r.scheduled[newIds[i]].schedule == Fixed(dates[i])))
  {
    var plans := Plan(a, holidays, now);
    var r := Schedule(k, a, holidays, now, snooze, newIds, refused);
    var rec := r.store[KitKey(a.id)];
    assert rec == newIds[..|plans|];
    forall i | 0 <= i < |rec|
      ensures ParseUuid(rec[i]).Some?
      ensures rec[i] !in refused ==> rec[i] in r.scheduled
      ensures rec[i] in refused && rec[i] !in k.scheduled ==> rec[i] !in r.scheduled
    {
      assert rec[i] == newIds[i];
    }
  }

  /** Scheduling records nothing under any other alarm's key. */
  lemma ScheduleKeepsOtherRecords(k: KitState, a: Alarm, holidays: set<string>, now: Instant, snooze: int,
                                  newIds: seq<Uuid>, refused: set<Uuid>, key: string)
    requires |newIds| >= FixedAhead && Distinct(newIds)
    requires key != KitKey(a.id)
    ensures key in Schedule(k, a, holidays, now, snooze, newIds, refused).store <==> key in k.store
    ensures key in k.store ==> Schedule(k, a, holidays, now, snooze, newIds, refused).store[key] == k.store[key]
  {
  }

  /** Cancelling an alarm without a record changes nothing. */
  lemma CancelWithoutRecord(k: KitState, a: Alarm)
    requires KitKey(a.id) !in k.store
    ensures Cancel(k, a) == k
  {
    assert k.store - {KitKey(a.id)} == k.store;
  }

  lemma CancelAfterAdd(c: KitState, a: Alarm, ids: seq<Uuid>, plans: seq<KitSchedule>, snooze: int,
                        refused: set<Uuid>)
    requires |ids| == |plans| && Distinct(ids)
    requires KitKey(a.id) !in c.store
    requires forall i :: 0 <= i < |ids| ==> ids[i] !in c.scheduled
    ensures Cancel(KitState(c.store[KitKey(a.id) := ids], AddAll(c.scheduled, ids, plans, a, snooze, refused)), a) == c
  {
    var r := KitState(c.store[KitKey(a.id) := ids], AddAll(c.scheduled, ids, plans, a, snooze, refused));
    var r' := Cancel(r, a);
    assert StoredIds(r, a.id) == ids;
    assert r'.store == c.store;
    forall u | u in c.scheduled
      ensures u in r'.scheduled && r'.scheduled[u] == c.scheduled[u]
    {
      assert u !in ids;
    }
    assert r'.scheduled == c.scheduled;
  }

  /**
   * Scheduling then cancelling leaves the system alarms and the records as
   * cancelling alone would, provided the new identifiers were not in use.
   */
  lemma CancelUndoesSchedule(k: KitState, a: Alarm, holidays: set<string>, now: Instant, snooze: int,
                             newIds: seq<Uuid>, refused: set<Uuid>)
    requires |newIds| >= FixedAhead && Distinct(newIds)
    requires forall i :: 0 <= i < |newIds| ==> newIds[i] !in k.scheduled
    ensures Cancel(Schedule(k, a, holidays, now, snooze, newIds, refused), a) == Cancel(k, a)
  {
    var c := Cancel(k, a);
    if a.isEnabled {
      var plans := Plan(a, holidays, now);
      var ids := newIds[..|plans|];
      assert Schedule(k, a, holidays, now, snooze, newIds, refused)
          == KitState(c.store[KitKey(a.id) := ids], AddAll(c.scheduled, ids, plans, a, snooze, refused));
      CancelAfterAdd(c, a, ids, plans, snooze, refused);
    } else {
      CancelWithoutRecord(c, a);
    }
  }
}
