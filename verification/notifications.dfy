/**
 * The notification planner (`NotificationService`): cancel an alarm's
 * pending requests by identifier prefix, then add a "leave now" reminder per
 * upcoming arrival for commute alarms, hand regular alarms to the system-alarm
 * planner where there is one, and otherwise add one alarm notification per
 * upcoming instant.
 */
module Notifications {
  import opened Wrappers
  import opened Ids
  import opened Decimal
  import opened TimeModel
  import opened DateFormat
  import opened AlarmModel
  import opened Commute
  import AlarmKit
  import Seqs

  const AlarmCategory := "ALARM_CATEGORY"
  const SnoozeAction := "SNOOZE"

  /** At most this many notifications are planned per alarm. */
  const NotificationsAhead := 20

  datatype Sound = DefaultSound | NamedSound(file: string)

  /**
   * A pending notification request. `trigger` is the instant the calendar
   * trigger fires: the minute of the planned instant, seconds dropped.
   */
  datatype Request = Request(
    id: string,
    title: string,
    body: string,
    trigger: Instant,
    sound: Sound,
    category: Option<string>,
    ringtone: Option<string>,
    fireTime: Option<Instant>)

  /** Pending requests by identifier, and the system-alarm planner's state. */
  datatype Devices = Devices(pending: map<string, Request>, kit: AlarmKit.KitState)

  /**
   * What a call sees besides its arguments: the clock, whether the system
   * alarm service exists (iOS 26), the ringtone and snooze settings, the
   * identifiers `UUID()` would create, and those of them the system alarm
   * service refuses to schedule.
   */
  datatype Context = Context(
    now: Instant,
    hasAlarmKit: bool,
    ringtone: string,
    snoozeMinutes: int,
    newIds: seq<Uuid>,
    kitRefused: set<Uuid>)

  predicate ValidContext(ctx: Context) {
    |ctx.newIds| >= AlarmKit.FixedAhead && Seqs.Distinct(ctx.newIds)
  }

  // ---------------------------------------------------------------------------
  // Requests

  function CommuteId(a: Alarm, arrival: Instant): (id: string)
    ensures StartsWith(id, a.id)
  {
    a.id + "-commute-" + IntString(arrival)
  }

  function RegularId(a: Alarm, at: Instant): (id: string)
    ensures StartsWith(id, a.id)
  {
    a.id + "-" + IntString(at)
  }

  /** Different arrivals give different commute identifiers. */
  lemma CommuteIdInjective(a: Alarm, t1: Instant, t2: Instant)
    requires CommuteId(a, t1) == CommuteId(a, t2)
    ensures t1 == t2
  {
    var n := |a.id| + 9;
    assert CommuteId(a, t1)[n..] == IntString(t1);
    assert CommuteId(a, t2)[n..] == IntString(t2);
    IntStringInjective(t1, t2);
  }

  /** Different instants give different alarm identifiers. */
  lemma RegularIdInjective(a: Alarm, t1: Instant, t2: Instant)
    requires RegularId(a, t1) == RegularId(a, t2)
    ensures t1 == t2
  {
    var n := |a.id| + 1;
    assert RegularId(a, t1)[n..] == IntString(t1);
    assert RegularId(a, t2)[n..] == IntString(t2);
    IntStringInjective(t1, t2);
  }

  /** A commute identifier is never an alarm identifier of the same alarm. */
  lemma CommuteAndRegularIdsDiffer(a: Alarm, t1: Instant, t2: Instant)
    ensures CommuteId(a, t1) != RegularId(a, t2)
  {
    var n := |a.id| + 1;
    assert CommuteId(a, t1)[n] == 'c';
    assert RegularId(a, t2)[n] == IntString(t2)[0];
    IntStringRoundTrip(t2);
  }

  /** The departure for an arrival: travel time and buffer before it. */
  function Departure(a: Alarm, arrival: Instant): (d: Instant)
    ensures a.commuteTravelSeconds >= 0 && a.commuteBufferMinutes >= 0 ==> d <= arrival
    ensures arrival - d == a.commuteTravelSeconds + 60 * a.commuteBufferMinutes
  {
    arrival - (a.commuteTravelSeconds + a.commuteBufferMinutes * 60)
  }

  function CommuteBody(a: Alarm, arrival: Instant): string {
    var dest := if a.commuteDestinationName == "" then "" else " → " + a.commuteDestinationName;
    TimeString(arrival) + dest + " · ~" + IntString(TravelMinutes(a.commuteTravelSeconds)) + " min"
  }

  /** `scheduleCommuteNotification`'s request, before its clock guard. */
  function CommuteRequest(a: Alarm, arrival: Instant): (r: Request)
    ensures r.id == CommuteId(a, arrival)
    ensures r.trigger <= Departure(a, arrival) < r.trigger + 60
    ensures r.category.None? && r.sound == DefaultSound
  {
    Request(CommuteId(a, arrival), "Time to Leave!", CommuteBody(a, arrival),
            MinuteFloor(Departure(a, arrival)), DefaultSound, None, None, None)
  }

  /** `scheduleRegularNotification`'s request. */
  function RegularRequest(a: Alarm, at: Instant, ringtone: string): (r: Request)
    ensures r.id == RegularId(a, at)
    ensures r.title == AlarmKit.AlertTitle(a.title)
    ensures r.trigger <= at < r.trigger + 60
    ensures r.category == Some(AlarmCategory) && r.fireTime == Some(at) && r.ringtone == Some(ringtone)
  {
    Request(RegularId(a, at), AlarmKit.AlertTitle(a.title), TimeString(at),
            MinuteFloor(at), NamedSound(ringtone + ".caf"), Some(AlarmCategory), Some(ringtone), Some(at))
  }

  /** The arrivals whose departure is still ahead of `now`, in order. */
  function Leaving(a: Alarm, arrivals: seq<Instant>, now: Instant): (r: seq<Instant>)
    ensures |r| <= |arrivals|
    ensures forall t :: t in r <==> t in arrivals && Departure(a, t) > now
  {
    if arrivals == [] then []
    else
      var rest := Leaving(a, arrivals[1..], now);
      assert forall t :: t in arrivals <==> t == arrivals[0] || t in arrivals[1..];
      if Departure(a, arrivals[0]) > now then [arrivals[0]] + rest else rest
  }

  /** Dropping arrivals keeps the rest in order. */
  lemma {:induction false} LeavingIncreasing(a: Alarm, arrivals: seq<Instant>, now: Instant)
    requires StrictlyIncreasing(arrivals)
    ensures StrictlyIncreasing(Leaving(a, arrivals, now))
    decreases |arrivals|
  {
    if arrivals != [] {
      var tail := arrivals[1..];
      assert StrictlyIncreasing(tail) by {
        forall i, j | 0 <= i < j < |tail| ensures tail[i] < tail[j] {
          assert tail[i] == arrivals[i + 1] && tail[j] == arrivals[j + 1];
        }
      }
      LeavingIncreasing(a, tail, now);
      var rest := Leaving(a, tail, now);
      forall t | t in rest ensures arrivals[0] < t {
        var k :| 0 <= k < |tail| && tail[k] == t;
        assert arrivals[k + 1] == t;
      }
    }
  }

  function CommutePlan(a: Alarm, arrivals: seq<Instant>): (r: seq<Request>)
    ensures |r| == |arrivals|
    ensures forall i :: 0 <= i < |r| ==> r[i] == CommuteRequest(a, arrivals[i])
  {
    seq(|arrivals|, i requires 0 <= i < |arrivals| => CommuteRequest(a, arrivals[i]))
  }

  function RegularPlan(a: Alarm, dates: seq<Instant>, ringtone: string): (r: seq<Request>)
    ensures |r| == |dates|
    ensures forall i :: 0 <= i < |r| ==> r[i] == RegularRequest(a, dates[i], ringtone)
  {
    seq(|dates|, i requires 0 <= i < |dates| => RegularRequest(a, dates[i], ringtone))
  }

  predicate DistinctIds(reqs: seq<Request>) {
    forall i, j :: 0 <= i < j < |reqs| ==> reqs[i].id != reqs[j].id
  }

  /** Planned requests for increasing instants have distinct identifiers. */
  lemma PlansDistinct(a: Alarm, ts: seq<Instant>, ringtone: string)
    requires StrictlyIncreasing(ts)
    ensures DistinctIds(CommutePlan(a, ts))
    ensures DistinctIds(RegularPlan(a, ts, ringtone))
  {
    forall i, j | 0 <= i < j < |ts|
      ensures CommuteId(a, ts[i]) != CommuteId(a, ts[j]) && RegularId(a, ts[i]) != RegularId(a, ts[j])
    {
      if CommuteId(a, ts[i]) == CommuteId(a, ts[j]) {
        CommuteIdInjective(a, ts[i], ts[j]);
      }
      if RegularId(a, ts[i]) == RegularId(a, ts[j]) {
        RegularIdInjective(a, ts[i], ts[j]);
      }
    }
  }

  // ---------------------------------------------------------------------------
  // The notification center

  /** Some request of the list has identifier `id`. */
  predicate Names(reqs: seq<Request>, id: string) {
    exists i :: 0 <= i < |reqs| && reqs[i].id == id
  }

  /** Adds requests in order; a request replaces a pending one with the same identifier. */
  function AddEach(pending: map<string, Request>, reqs: seq<Request>): (r: map<string, Request>)
    ensures forall id :: id in r <==> id in pending || Names(reqs, id)
    ensures forall id :: id in pending && (forall i :: 0 <= i < |reqs| ==> reqs[i].id != id) ==>
      r[id] == pending[id]
    decreases |reqs|
  {
    if reqs == [] then pending
    else
      var last := reqs[|reqs| - 1];
      var init := reqs[..|reqs| - 1];
      var r := AddEach(pending, init)[last.id := last];
      assert forall id :: Names(reqs, id) <==> id == last.id || Names(init, id)
      by {
        forall id | Names(reqs, id) && id != last.id ensures Names(init, id) {
          var i :| 0 <= i < |reqs| && reqs[i].id == id;
          assert i < |init| && init[i].id == id;
        }
      }
      r
  }

  /** Each added request is pending afterwards, unless a later one took its identifier. */
  lemma {:induction false} AddEachStores(pending: map<string, Request>, reqs: seq<Request>, i: int)
    requires 0 <= i < |reqs|
    requires forall j :: i < j < |reqs| ==> reqs[j].id != reqs[i].id
    ensures reqs[i].id in AddEach(pending, reqs) && AddEach(pending, reqs)[reqs[i].id] == reqs[i]
    decreases |reqs|
  {
    if i < |reqs| - 1 {
      var init := reqs[..|reqs| - 1];
      AddEachStores(pending, init, i);
    }
  }

  /** The pending requests of other alarms: `cancel`'s prefix filter. */
  function CancelPending(pending: map<string, Request>, a: Alarm): (r: map<string, Request>)
    ensures forall id :: id in r ==> !StartsWith(id, a.id)
    ensures forall id :: id in pending && !StartsWith(id, a.id) ==> id in r && r[id] == pending[id]
    ensures r.Keys <= pending.Keys
  {
    map id | id in pending && !StartsWith(id, a.id) :: pending[id]
  }

  /** Requests of other alarms and snooze requests survive a cancel. */
  lemma CancelKeepsOthers(pending: map<string, Request>, a: Alarm, b: Uuid, id: string)
    requires id in pending
    requires (StartsWith(id, b) && b != a.id) || StartsWith(id, "snooze-")
    ensures id in CancelPending(pending, a) && CancelPending(pending, a)[id] == pending[id]
  {
    if StartsWith(id, "snooze-") {
      UuidNotPrefixOfSnooze(id, a.id);
    } else if StartsWith(id, a.id) {
      UuidPrefixUnique(id, a.id, b);
    }
  }

  /** `cancel(_:)`: the alarm's pending requests, and its system alarms where that service exists. */
  function Cancel(dev: Devices, a: Alarm, hasAlarmKit: bool): (r: Devices)
    ensures r.pending == CancelPending(dev.pending, a)
    ensures hasAlarmKit ==> r.kit == AlarmKit.Cancel(dev.kit, a)
    ensures !hasAlarmKit ==> r.kit == dev.kit
  {
    Devices(CancelPending(dev.pending, a), if hasAlarmKit then AlarmKit.Cancel(dev.kit, a) else dev.kit)
  }

  /** The commute branch: taken on every platform. */
  predicate CommuteBranch(a: Alarm) {
    a.commuteEnabled && a.commuteTravelSeconds > 0
  }

  /** The instants planned ahead for notifications. */
  function Upcoming(a: Alarm, holidays: set<string>, now: Instant): (r: seq<Instant>)
    ensures |r| <= NotificationsAhead
    ensures forall i :: 0 <= i < |r| ==> r[i] > now
    ensures StrictlyIncreasing(r)
  {
    NextFireDates(a, now, now, NotificationsAhead, holidays)
  }

  /** `schedule(_:holidays:)`. */
  function Schedule(dev: Devices, a: Alarm, holidays: set<string>, ctx: Context): (r: Devices)
    requires ValidContext(ctx)
  {
    var c := Cancel(dev, a, ctx.hasAlarmKit);
    if !a.isEnabled then c
    else if CommuteBranch(a) then
      c.(pending := AddEach(c.pending, CommutePlan(a, Leaving(a, Upcoming(a, holidays, ctx.now), ctx.now))))
    else if ctx.hasAlarmKit then
      c.(kit := AlarmKit.Schedule(c.kit, a, holidays, ctx.now, ctx.snoozeMinutes, ctx.newIds, ctx.kitRefused))
    else
      c.(pending := AddEach(c.pending, RegularPlan(a, Upcoming(a, holidays, ctx.now), ctx.ringtone)))
  }

  // ---------------------------------------------------------------------------
  // Properties of `schedule`

  /** A disabled alarm ends with no pending requests and no system-alarm record of its own. */
  lemma ScheduleDisabled(dev: Devices, a: Alarm, holidays: set<string>, ctx: Context)
    requires ValidContext(ctx) && !a.isEnabled
    ensures var r := Schedule(dev, a, holidays, ctx);
      && (forall id :: id in r.pending ==> !StartsWith(id, a.id))
      && (ctx.hasAlarmKit ==> AlarmKit.KitKey(a.id) !in r.kit.store)
  {
  }

  /** Planned requests all belong to the alarm. */
  lemma PlansOwned(a: Alarm, ts: seq<Instant>, ringtone: string)
    ensures forall i :: 0 <= i < |ts| ==> StartsWith(CommutePlan(a, ts)[i].id, a.id)
    ensures forall i :: 0 <= i < |ts| ==> StartsWith(RegularPlan(a, ts, ringtone)[i].id, a.id)
  {
  }

  /** A commute plan holds the request of an arrival exactly when it plans that arrival. */
  lemma CommutePlanHas(a: Alarm, ts: seq<Instant>, t: Instant)
    ensures CommuteRequest(a, t) in CommutePlan(a, ts) <==> t in ts
  {
    var plan := CommutePlan(a, ts);
    if CommuteRequest(a, t) in plan {
      var i :| 0 <= i < |ts| && plan[i] == CommuteRequest(a, t);
      CommuteIdInjective(a, ts[i], t);
    }
    if t in ts {
      var i :| 0 <= i < |ts| && ts[i] == t;
      assert plan[i] == CommuteRequest(a, t);
    }
  }

  /** A regular plan holds the request of an instant exactly when it plans that instant. */
  lemma RegularPlanHas(a: Alarm, ts: seq<Instant>, ringtone: string, t: Instant)
    ensures RegularRequest(a, t, ringtone) in RegularPlan(a, ts, ringtone) <==> t in ts
  {
    var plan := RegularPlan(a, ts, ringtone);
    if RegularRequest(a, t, ringtone) in plan {
      var i :| 0 <= i < |ts| && plan[i] == RegularRequest(a, t, ringtone);
      RegularIdInjective(a, ts[i], t);
    }
    if t in ts {
      var i :| 0 <= i < |ts| && ts[i] == t;
      assert plan[i] == RegularRequest(a, t, ringtone);
    }
  }

  /** What the branch taken adds to the pending requests after the cancel. */
  function Added(a: Alarm, holidays: set<string>, ctx: Context): seq<Request> {
    if !a.isEnabled then []
    else if CommuteBranch(a) then CommutePlan(a, Leaving(a, Upcoming(a, holidays, ctx.now), ctx.now))
    else if ctx.hasAlarmKit then []
    else RegularPlan(a, Upcoming(a, holidays, ctx.now), ctx.ringtone)
  }

  lemma SchedulePendingIsAdded(dev: Devices, a: Alarm, holidays: set<string>, ctx: Context)
    requires ValidContext(ctx)
    ensures Schedule(dev, a, holidays, ctx).pending == AddEach(CancelPending(dev.pending, a), Added(a, holidays, ctx))
    ensures forall i :: 0 <= i < |Added(a, holidays, ctx)| ==> StartsWith(Added(a, holidays, ctx)[i].id, a.id)
    ensures DistinctIds(Added(a, holidays, ctx))
  {
    assert Schedule(dev, a, holidays, ctx).pending == AddEach(CancelPending(dev.pending, a), Added(a, holidays, ctx)) by {
      ScheduleAdds(dev, a, holidays, ctx);
    }
    AddedOwnedDistinct(a, holidays, ctx);
  }

  lemma ScheduleAdds(dev: Devices, a: Alarm, holidays: set<string>, ctx: Context)
    requires ValidContext(ctx)
    ensures Schedule(dev, a, holidays, ctx).pending == AddEach(CancelPending(dev.pending, a), Added(a, holidays, ctx))
  {
    if !a.isEnabled || (!CommuteBranch(a) && ctx.hasAlarmKit) {
      assert Added(a, holidays, ctx) == [];
    }
  }

  lemma AddedOwnedDistinct(a: Alarm, holidays: set<string>, ctx: Context)
    ensures forall i :: 0 <= i < |Added(a, holidays, ctx)| ==> StartsWith(Added(a, holidays, ctx)[i].id, a.id)
    ensures DistinctIds(Added(a, holidays, ctx))
  {
    if a.isEnabled && (CommuteBranch(a) || !ctx.hasAlarmKit) {
      var dates := Upcoming(a, holidays, ctx.now);
      var ts := if CommuteBranch(a) then Leaving(a, dates, ctx.now) else dates;
      if CommuteBranch(a) {
        LeavingIncreasing(a, dates, ctx.now);
      }
      PlansOwned(a, ts, ctx.ringtone);
      PlansDistinct(a, ts, ctx.ringtone);
      assert Added(a, holidays, ctx) == if CommuteBranch(a) then CommutePlan(a, ts) else RegularPlan(a, ts, ctx.ringtone);
    }
  }

  /** Scheduling never touches another alarm's request or a snooze request. */
  lemma ScheduleKeepsOthers(dev: Devices, a: Alarm, holidays: set<string>, ctx: Context, id: string)
    requires ValidContext(ctx)
    requires id in dev.pending && !StartsWith(id, a.id)
    ensures var r := Schedule(dev, a, holidays, ctx);
      id in r.pending && r.pending[id] == dev.pending[id]
  {
    SchedulePendingIsAdded(dev, a, holidays, ctx);
  }

  /**
   * The alarm's own pending requests afterwards are exactly the requests the
   * branch adds, one per planned instant.
   */
  lemma ScheduleOwnRequests(dev: Devices, a: Alarm, holidays: set<string>, ctx: Context, id: string)
    requires ValidContext(ctx)
    ensures var r := Schedule(dev, a, holidays, ctx);
      var added := Added(a, holidays, ctx);
      && (id in r.pending && StartsWith(id, a.id) <==> exists i :: 0 <= i < |added| && added[i].id == id)
      && (forall i :: 0 <= i < |added| ==> added[i].id in r.pending && r.pending[added[i].id] == added[i])
  {
    var added := Added(a, holidays, ctx);
    SchedulePendingIsAdded(dev, a, holidays, ctx);
    forall i | 0 <= i < |added|
      ensures added[i].id in Schedule(dev, a, holidays, ctx).pending
      ensures Schedule(dev, a, holidays, ctx).pending[added[i].id] == added[i]
    {
      AddEachStores(CancelPending(dev.pending, a), added, i);
    }
  }

  /**
   * An enabled commute alarm, on either platform: the system alarms are only
   * cancelled, and one reminder is planned per upcoming arrival (at most 20)
   * whose departure is still ahead, firing in the departure's minute.
   */
  lemma ScheduleCommute(dev: Devices, a: Alarm, holidays: set<string>, ctx: Context, t: Instant)
    requires ValidContext(ctx) && a.isEnabled && CommuteBranch(a)
    ensures Schedule(dev, a, holidays, ctx).kit == Cancel(dev, a, ctx.hasAlarmKit).kit
    ensures |Added(a, holidays, ctx)| <= NotificationsAhead
    ensures CommuteRequest(a, t) in Added(a, holidays, ctx)
      <==> t in Upcoming(a, holidays, ctx.now) && Departure(a, t) > ctx.now
    ensures CommuteRequest(a, t) in Added(a, holidays, ctx) ==> CommuteRequest(a, t).trigger > ctx.now - 60
  {
    var dates := Upcoming(a, holidays, ctx.now);
    var leaving := Leaving(a, dates, ctx.now);
    assert Added(a, holidays, ctx) == CommutePlan(a, leaving);
    assert |leaving| <= |dates| <= NotificationsAhead;
    CommutePlanHas(a, leaving, t);
  }

  /** On the system-alarm platform a regular alarm goes to that service and adds no notification. */
  lemma ScheduleHandsOver(dev: Devices, a: Alarm, holidays: set<string>, ctx: Context)
    requires ValidContext(ctx) && a.isEnabled && !CommuteBranch(a) && ctx.hasAlarmKit
    ensures var r := Schedule(dev, a, holidays, ctx);
      && r.pending == CancelPending(dev.pending, a)
      && r.kit == AlarmKit.Schedule(AlarmKit.Cancel(dev.kit, a), a, holidays, ctx.now, ctx.snoozeMinutes, ctx.newIds, ctx.kitRefused)
  {
  }

  /** Elsewhere a regular alarm gets one notification per upcoming instant, at most 20. */
  lemma ScheduleRegular(dev: Devices, a: Alarm, holidays: set<string>, ctx: Context, t: Instant)
    requires ValidContext(ctx) && a.isEnabled && !CommuteBranch(a) && !ctx.hasAlarmKit
    ensures Schedule(dev, a, holidays, ctx).kit == dev.kit
    ensures |Added(a, holidays, ctx)| <= NotificationsAhead
    ensures RegularRequest(a, t, ctx.ringtone) in Added(a, holidays, ctx) <==> t in Upcoming(a, holidays, ctx.now)
  {
    var dates := Upcoming(a, holidays, ctx.now);
    assert Added(a, holidays, ctx) == RegularPlan(a, dates, ctx.ringtone);
    RegularPlanHas(a, dates, ctx.ringtone, t);
  }

  lemma CancelPendingAfterAdd(pending: map<string, Request>, a: Alarm, reqs: seq<Request>)
    requires forall i :: 0 <= i < |reqs| ==> StartsWith(reqs[i].id, a.id)
    ensures CancelPending(AddEach(CancelPending(pending, a), reqs), a) == CancelPending(pending, a)
  {
    var c := CancelPending(pending, a);
    var r := CancelPending(AddEach(c, reqs), a);
    forall id | id in r ensures id in c && r[id] == c[id] {
      assert forall i :: 0 <= i < |reqs| ==> reqs[i].id != id;
    }
    assert r == c;
  }

  /**
   * Scheduling is idempotent on pending requests: identifiers are derived from
   * the alarm and the instant, so a second call replaces exactly what the
   * first one added.
   */
  lemma ScheduleIdempotent(dev: Devices, a: Alarm, holidays: set<string>, ctx: Context, ctx': Context)
    requires ValidContext(ctx) && ValidContext(ctx')
    requires ctx'.now == ctx.now && ctx'.hasAlarmKit == ctx.hasAlarmKit && ctx'.ringtone == ctx.ringtone
    ensures Schedule(Schedule(dev, a, holidays, ctx), a, holidays, ctx').pending
         == Schedule(dev, a, holidays, ctx).pending
  {
    var once := Schedule(dev, a, holidays, ctx);
    SchedulePendingIsAdded(dev, a, holidays, ctx);
    SchedulePendingIsAdded(once, a, holidays, ctx');
    assert Added(a, holidays, ctx') == Added(a, holidays, ctx);
    CancelPendingAfterAdd(dev.pending, a, Added(a, holidays, ctx));
  }
}
