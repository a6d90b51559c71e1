/**
 * The app's coordinator (`AlarmStore`): the alarm list, the holiday
 * directory and the scheduled requests, and the operations that keep them in
 * step. Every change to an alarm ends in a reschedule with the current holiday
 * union; deleting an alarm cancels its requests.
 */
module Store {
  import opened Wrappers
  import opened Ids
  import opened TimeModel
  import opened DateFormat
  import opened AlarmModel
  import opened Holidays
  import Notifications

  datatype AppState = AppState(alarms: seq<Alarm>, holidays: HolidayService, devices: Notifications.Devices)

  predicate UniqueIds(alarms: seq<Alarm>) {
    forall i, j :: 0 <= i < j < |alarms| ==> alarms[i].id != alarms[j].id
  }

  predicate HasId(alarms: seq<Alarm>, id: Uuid) {
    exists i :: 0 <= i < |alarms| && alarms[i].id == id
  }

  /** Writes `a` over the stored alarm with the same identifier. */
  function ReplaceById(alarms: seq<Alarm>, a: Alarm): (r: seq<Alarm>)
    ensures |r| == |alarms|
    ensures forall i :: 0 <= i < |r| ==> r[i] == if alarms[i].id == a.id then a else alarms[i]
  {
    if alarms == [] then []
    else [if alarms[0].id == a.id then a else alarms[0]] + ReplaceById(alarms[1..], a)
  }

  /** Removes the stored alarm with identifier `id`. */
  function RemoveById(alarms: seq<Alarm>, id: Uuid): (r: seq<Alarm>)
    ensures forall x :: x in r <==> x in alarms && x.id != id
    ensures !HasId(r, id)
    ensures |r| <= |alarms|
  {
    if alarms == [] then []
    else if alarms[0].id == id then RemoveById(alarms[1..], id)
    else [alarms[0]] + RemoveById(alarms[1..], id)
  }

  /** `reschedule`'s travel refresh with the route estimate `estimate` (`None` when it failed). */
  function Refresh(a: Alarm, estimate: Option<int>): (r: Alarm)
    ensures r.id == a.id
    ensures a.commuteEnabled && a.commuteLatitude != 0 && estimate.Some? ==>
      r == a.(commuteTravelSeconds := estimate.value)
    ensures !(a.commuteEnabled && a.commuteLatitude != 0 && estimate.Some?) ==> r == a
  {
    if a.commuteEnabled && a.commuteLatitude != 0 then
      match estimate
      case Some(travel) => a.(commuteTravelSeconds := travel)
      case None => a
    else a
  }

  /** The refresh changes only the travel time, so the alarm's firing days are the same. */
  lemma RefreshKeepsRecurrence(a: Alarm, estimate: Option<int>, date: Instant, holidays: set<string>)
    ensures Fires(Refresh(a, estimate), date, holidays) == Fires(a, date, holidays)
    ensures forall d :: Eligible(Refresh(a, estimate), holidays, d) == Eligible(a, holidays, d)
  {
  }

  /** `reschedule(_:)`: refresh the travel time, store it, and schedule with the current holidays. */
  function Reschedule(s: AppState, a: Alarm, estimate: Option<int>, ctx: Notifications.Context): (r: AppState)
    requires Notifications.ValidContext(ctx)
    ensures r.holidays == s.holidays
    ensures |r.alarms| == |s.alarms|
    ensures forall i :: 0 <= i < |s.alarms| ==> r.alarms[i].id == s.alarms[i].id
    ensures forall i :: 0 <= i < |s.alarms| && s.alarms[i].id != a.id ==> r.alarms[i] == s.alarms[i]
    ensures forall i :: 0 <= i < |s.alarms| && s.alarms[i].id == a.id ==> r.alarms[i] == Refresh(a, estimate)
    ensures r.devices == Notifications.Schedule(s.devices, Refresh(a, estimate), AllHolidays(s.holidays), ctx)
  {
    var refreshed := Refresh(a, estimate);
    AppState(ReplaceById(s.alarms, refreshed), s.holidays,
             Notifications.Schedule(s.devices, refreshed, AllHolidays(s.holidays), ctx))
  }

  /**
   * After a reschedule the alarm's own pending requests are exactly those its
   * refreshed copy plans with the union of the loaded holidays, and every
   * other alarm's request, snoozes included, is as it was.
   */
  lemma RescheduleRequests(s: AppState, a: Alarm, estimate: Option<int>, ctx: Notifications.Context, id: string)
    requires Notifications.ValidContext(ctx)
    ensures var r := Reschedule(s, a, estimate, ctx);
      var added := Notifications.Added(Refresh(a, estimate), AllHolidays(s.holidays), ctx);
      && (id in r.devices.pending && StartsWith(id, a.id) <==> exists i :: 0 <= i < |added| && added[i].id == id)
      && (forall i :: 0 <= i < |added| ==> added[i].id in r.devices.pending && r.devices.pending[added[i].id] == added[i])
      && (id in s.devices.pending && !StartsWith(id, a.id) ==>
            id in r.devices.pending && r.devices.pending[id] == s.devices.pending[id])
  {
    var refreshed := Refresh(a, estimate);
    Notifications.ScheduleOwnRequests(s.devices, refreshed, AllHolidays(s.holidays), ctx, id);
    if id in s.devices.pending && !StartsWith(id, a.id) {
      Notifications.ScheduleKeepsOthers(s.devices, refreshed, AllHolidays(s.holidays), ctx, id);
    }
  }

  /** `add(_:)`: the new alarm joins the list and is scheduled. */
  function Add(s: AppState, a: Alarm, estimate: Option<int>, ctx: Notifications.Context): (r: AppState)
    requires Notifications.ValidContext(ctx)
    requires UniqueIds(s.alarms) && !HasId(s.alarms, a.id)
    ensures UniqueIds(r.alarms)
    ensures r.alarms == s.alarms + [Refresh(a, estimate)]
    ensures r.devices == Notifications.Schedule(s.devices, Refresh(a, estimate), AllHolidays(s.holidays), ctx)
    ensures r.holidays == s.holidays
  {
    var added := s.(alarms := s.alarms + [a]);
    var r := Reschedule(added, a, estimate, ctx);
    assert r.alarms == s.alarms + [Refresh(a, estimate)] by {
      AppendedIsRefreshed(s.alarms, a, Refresh(a, estimate));
    }
    assert UniqueIds(r.alarms) by {
      forall i | 0 <= i < |s.alarms| ensures s.alarms[i].id != a.id {
        assert s.alarms[i].id == a.id ==> HasId(s.alarms, a.id);
      }
    }
    r
  }

  /** Writing the refreshed alarm over the appended one replaces it and nothing else. */
  lemma AppendedIsRefreshed(alarms: seq<Alarm>, a: Alarm, refreshed: Alarm)
    requires !HasId(alarms, a.id) && refreshed.id == a.id
    ensures ReplaceById(alarms + [a], refreshed) == alarms + [refreshed]
  {
    var r := ReplaceById(alarms + [a], refreshed);
    forall i | 0 <= i < |alarms| ensures r[i] == alarms[i] {
      assert alarms[i].id == a.id ==> HasId(alarms, a.id);
    }
  }

  /** `delete(_:)`: the alarm's requests are cancelled and it leaves the list. */
  function Delete(s: AppState, a: Alarm, hasAlarmKit: bool): (r: AppState)
    ensures !HasId(r.alarms, a.id)
    ensures forall x :: x in s.alarms && x.id != a.id ==> x in r.alarms
    ensures forall id :: id in r.devices.pending ==> !StartsWith(id, a.id)
    ensures r.devices == Notifications.Cancel(s.devices, a, hasAlarmKit)
    ensures r.holidays == s.holidays
  {
    AppState(RemoveById(s.alarms, a.id), s.holidays, Notifications.Cancel(s.devices, a, hasAlarmKit))
  }

  /** `toggle(_:)`: flips `isEnabled`, stores the alarm and reschedules it. */
  function Toggle(s: AppState, a: Alarm, estimate: Option<int>, ctx: Notifications.Context): (r: AppState)
    requires Notifications.ValidContext(ctx)
    ensures |r.alarms| == |s.alarms|
    ensures forall i :: 0 <= i < |s.alarms| ==> r.alarms[i].id == s.alarms[i].id
    ensures forall i :: 0 <= i < |s.alarms| && s.alarms[i].id == a.id ==>
      r.alarms[i].isEnabled == !a.isEnabled && r.alarms[i] == Refresh(a.(isEnabled := !a.isEnabled), estimate)
    ensures forall i :: 0 <= i < |s.alarms| && s.alarms[i].id != a.id ==> r.alarms[i] == s.alarms[i]
    ensures r.devices ==
      Notifications.Schedule(s.devices, Refresh(a.(isEnabled := !a.isEnabled), estimate), AllHolidays(s.holidays), ctx)
  {
    var toggled := a.(isEnabled := !a.isEnabled);
    Reschedule(s.(alarms := ReplaceById(s.alarms, toggled)), toggled, estimate, ctx)
  }

  /** `update(_:)`: stores the edited alarm and reschedules it. */
  function Update(s: AppState, a: Alarm, estimate: Option<int>, ctx: Notifications.Context): (r: AppState)
    requires Notifications.ValidContext(ctx)
    ensures |r.alarms| == |s.alarms|
    ensures forall i :: 0 <= i < |s.alarms| ==> r.alarms[i].id == s.alarms[i].id
    ensures forall i :: 0 <= i < |s.alarms| && s.alarms[i].id == a.id ==>
      r.alarms[i] == Refresh(a, estimate)
    ensures forall i :: 0 <= i < |s.alarms| && s.alarms[i].id != a.id ==> r.alarms[i] == s.alarms[i]
    ensures r.devices == Notifications.Schedule(s.devices, Refresh(a, estimate), AllHolidays(s.holidays), ctx)
  {
    Reschedule(s.(alarms := ReplaceById(s.alarms, a)), a, estimate, ctx)
  }

  /** Toggling the stored alarm twice restores its enabled flag. */
  lemma ToggleTwice(s: AppState, a: Alarm, e1: Option<int>, e2: Option<int>,
                    ctx1: Notifications.Context, ctx2: Notifications.Context, i: int)
    requires Notifications.ValidContext(ctx1) && Notifications.ValidContext(ctx2)
    requires 0 <= i < |s.alarms| && s.alarms[i] == a
    ensures var once := Toggle(s, a, e1, ctx1);
      Toggle(once, once.alarms[i], e2, ctx2).alarms[i].isEnabled == a.isEnabled
  {
  }

  /** Update, toggle and add keep identifiers unique. */
  lemma ChangesKeepIdsUnique(s: AppState, a: Alarm, estimate: Option<int>, ctx: Notifications.Context)
    requires Notifications.ValidContext(ctx) && UniqueIds(s.alarms)
    ensures UniqueIds(Update(s, a, estimate, ctx).alarms)
    ensures UniqueIds(Toggle(s, a, estimate, ctx).alarms)
  {
    SameIdsUnique(s.alarms, Update(s, a, estimate, ctx).alarms);
    SameIdsUnique(s.alarms, Toggle(s, a, estimate, ctx).alarms);
  }

  lemma SameIdsUnique(xs: seq<Alarm>, ys: seq<Alarm>)
    requires UniqueIds(xs) && |ys| == |xs|
    requires forall i :: 0 <= i < |xs| ==> ys[i].id == xs[i].id
    ensures UniqueIds(ys)
  {
  }

  /** Deleting keeps identifiers unique. */
  lemma {:induction false} RemoveKeepsIdsUnique(alarms: seq<Alarm>, id: Uuid)
    requires UniqueIds(alarms)
    ensures UniqueIds(RemoveById(alarms, id))
  {
    if alarms != [] {
      var tail := alarms[1..];
      assert UniqueIds(tail) by {
        forall i, j | 0 <= i < j < |tail| ensures tail[i].id != tail[j].id {
          assert tail[i] == alarms[i + 1] && tail[j] == alarms[j + 1];
        }
      }
      RemoveKeepsIdsUnique(tail, id);
      if alarms[0].id != id {
        forall x | x in RemoveById(tail, id) ensures x.id != alarms[0].id {
          var k :| 0 <= k < |tail| && tail[k] == x;
          assert alarms[k + 1] == x;
        }
        UniqueCons(alarms[0], RemoveById(tail, id));
      }
    }
  }

  lemma UniqueCons(a: Alarm, rest: seq<Alarm>)
    requires UniqueIds(rest) && forall x :: x in rest ==> x.id != a.id
    ensures UniqueIds([a] + rest)
  {
    var r := [a] + rest;
    forall i, j | 0 <= i < j < |r| ensures r[i].id != r[j].id {
      assert r[j] == rest[j - 1];
      if i > 0 {
        assert r[i] == rest[i - 1];
      }
    }
  }

  /** Removing an identifier that is not stored changes nothing. */
  lemma {:induction false} RemoveAbsent(alarms: seq<Alarm>, id: Uuid)
    requires !HasId(alarms, id)
    ensures RemoveById(alarms, id) == alarms
  {
    if alarms != [] {
      forall i | 0 <= i < |alarms[1..]| ensures alarms[1..][i].id != id {
        assert alarms[1..][i] == alarms[i + 1];
      }
      RemoveAbsent(alarms[1..], id);
      assert alarms == [alarms[0]] + alarms[1..];
    }
  }

  /**
   * Adding an alarm and deleting it again restores the list, and leaves
   * exactly the other alarms' pending requests.
   */
  lemma DeleteUndoesAdd(s: AppState, a: Alarm, estimate: Option<int>, ctx: Notifications.Context)
    requires Notifications.ValidContext(ctx)
    requires UniqueIds(s.alarms) && !HasId(s.alarms, a.id)
    ensures var r := Delete(Add(s, a, estimate, ctx), a, ctx.hasAlarmKit);
      && r.alarms == s.alarms
      && r.devices.pending == Notifications.CancelPending(s.devices.pending, a)
  {
    var added := Add(s, a, estimate, ctx);
    var refreshed := Refresh(a, estimate);
    assert added.alarms == s.alarms + [refreshed];
    RemoveAbsent(s.alarms, a.id);
    assert (s.alarms + [refreshed])[..|s.alarms|] == s.alarms;
    RemoveAppendOne(s.alarms, refreshed, a.id);
    Notifications.SchedulePendingIsAdded(s.devices, refreshed, AllHolidays(s.holidays), ctx);
    Notifications.CancelPendingAfterAdd(s.devices.pending, refreshed,
      Notifications.Added(refreshed, AllHolidays(s.holidays), ctx));
  }

  lemma {:induction false} RemoveAppendOne(alarms: seq<Alarm>, x: Alarm, id: Uuid)
    requires x.id == id
    ensures RemoveById(alarms + [x], id) == RemoveById(alarms, id)
  {
    if alarms == [] {
      assert [x][1..] == [];
    } else {
      assert (alarms + [x])[1..] == alarms[1..] + [x];
      RemoveAppendOne(alarms[1..], x, id);
    }
  }

  // ---------------------------------------------------------------------------
  // Queries

  /** `alarms(for:in:)` with a given holiday set. */
  function AlarmsOn(list: seq<Alarm>, date: Instant, holidays: set<string>): (r: seq<Alarm>)
    ensures |r| <= |list|
    ensures forall x :: multiset(r)[x] == if Fires(x, date, holidays) then multiset(list)[x] else 0
  {
    if list == [] then []
    else
      assert list == [list[0]] + list[1..];
      var rest := AlarmsOn(list[1..], date, holidays);
      if Fires(list[0], date, holidays) then [list[0]] + rest else rest
  }

  /** The filter keeps the list's order: it distributes over concatenation. */
  lemma {:induction false} AlarmsOnAppend(xs: seq<Alarm>, ys: seq<Alarm>, date: Instant, holidays: set<string>)
    ensures AlarmsOn(xs + ys, date, holidays) == AlarmsOn(xs, date, holidays) + AlarmsOn(ys, date, holidays)
  {
    if xs == [] {
      assert xs + ys == ys;
    } else {
      assert (xs + ys)[0] == xs[0];
      assert (xs + ys)[1..] == xs[1..] + ys;
      AlarmsOnAppend(xs[1..], ys, date, holidays);
    }
  }

  /** `alarms(for:in:)`: filtered with the union of the loaded holidays. */
  function AlarmsFor(s: AppState, date: Instant, list: seq<Alarm>): (r: seq<Alarm>)
    ensures forall x :: x in r <==> x in list && Fires(x, date, AllHolidays(s.holidays))
  {
    var r := AlarmsOn(list, date, AllHolidays(s.holidays));
    assert forall x :: x in r <==> multiset(r)[x] > 0;
    r
  }

  /** `hasAlarms(for:in:)`: `contains(where:)`. */
  predicate HasAlarms(s: AppState, date: Instant, list: seq<Alarm>) {
    exists i :: 0 <= i < |list| && Fires(list[i], date, AllHolidays(s.holidays))
  }

  lemma HasAlarmsIff(s: AppState, date: Instant, list: seq<Alarm>)
    ensures HasAlarms(s, date, list) <==> |AlarmsFor(s, date, list)| > 0
  {
    var r := AlarmsFor(s, date, list);
    if HasAlarms(s, date, list) {
      var i :| 0 <= i < |list| && Fires(list[i], date, AllHolidays(s.holidays));
      assert list[i] in r;
    }
    if |r| > 0 {
      assert r[0] in r;
    }
  }

  // ---------------------------------------------------------------------------
  // Setup

  /** The years `setup` asks the holiday directory for: this one and the next. */
  function SetupYears(now: Instant): (r: seq<int>)
    ensures |r| == 2 && r[0] == CalendarYear(now) && r[1] == r[0] + 1
  {
    [CalendarYear(now), CalendarYear(now) + 1]
  }

  /** `setup(modelContext:)`. */
  method Setup(s: AppState, now: Instant, fetch: int -> Option<HolidayResponse>) returns (r: AppState)
    ensures r.alarms == s.alarms && r.devices == s.devices
    ensures forall y :: y in SetupYears(now) && y !in s.holidays.loading ==>
      (y in r.holidays.byYear <==> y in s.holidays.byYear || fetch(y).Some?)
  {
    var h, _ := EnsureLoaded(s.holidays, SetupYears(now), fetch);
    r := s.(holidays := h);
  }
}
