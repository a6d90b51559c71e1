/**
 * The "all alarms" list (`AllAlarmsView`): its display order and the next
 * alarm shown above it.
 */
module AlarmList {
  import opened Wrappers
  import opened TimeModel
  import opened AlarmModel
  import opened Sorting

  /** The comparator of `sortedAlarms`: enabled first, then by hour and minute. */
  predicate Before(a: Alarm, b: Alarm) {
    if a.isEnabled != b.isEnabled then a.isEnabled
    else MinuteOfDay(a.time) < MinuteOfDay(b.time)
  }

  /** One integer that orders alarms as the comparator does. */
  function SortKey(a: Alarm): int {
    (if a.isEnabled then 0 else 1440) + MinuteOfDay(a.time)
  }

  lemma KeyMatchesComparator(a: Alarm, b: Alarm)
    ensures Before(a, b) <==> SortKey(a) < SortKey(b)
  {
  }

  /** `sortedAlarms`. */
  function SortedAlarms(alarms: seq<Alarm>): (r: seq<Alarm>)
    ensures |r| == |alarms| && multiset(r) == multiset(alarms)
    ensures forall i, j :: 0 <= i < j < |r| ==> !Before(r[j], r[i])
  {
    var r := Sort(alarms, SortKey);
    forall i, j | 0 <= i < j < |r| ensures !Before(r[j], r[i]) {
      KeyMatchesComparator(r[j], r[i]);
    }
    r
  }

  /**
   * Every enabled alarm comes before every disabled one, and alarms in the
   * same state are in order of their time of day.
   */
  lemma SortedAlarmsOrder(alarms: seq<Alarm>, i: int, j: int)
    requires 0 <= i < j < |alarms|
    ensures var r := SortedAlarms(alarms);
      && (r[j].isEnabled ==> r[i].isEnabled)
      && (r[i].isEnabled == r[j].isEnabled ==> MinuteOfDay(r[i].time) <= MinuteOfDay(r[j].time))
  {
    var r := SortedAlarms(alarms);
    assert !Before(r[j], r[i]);
  }

  // ---------------------------------------------------------------------------
  // The next alarm

  /** `nextFireDates(from: now, count: 1, ...).first`. */
  function FirstFire(a: Alarm, now: Instant, holidays: set<string>): (r: Option<Instant>)
    ensures r.Some? ==> r.value > now && Eligible(a, holidays, Day(r.value))
  {
    var dates := NextFireDates(a, now, now, 1, holidays);
    if |dates| > 0 then
      assert WindowFire(a, holidays, now, Day(now), Day(now) + ScanHorizon, dates[0]);
      Some(dates[0])
    else None
  }

  /** Filter enabled, first fire date, keep those after `now`. */
  function Candidates(alarms: seq<Alarm>, now: Instant, holidays: set<string>): (r: seq<Instant>)
    ensures forall x :: x in r <==>
      exists a :: a in alarms && a.isEnabled && FirstFire(a, now, holidays) == Some(x)
    decreases |alarms|
  {
    if alarms == [] then []
    else
      var a := alarms[0];
      var rest := Candidates(alarms[1..], now, holidays);
      assert forall b :: b in alarms <==> b == a || b in alarms[1..];
      var first := FirstFire(a, now, holidays);
      if a.isEnabled && first.Some? && first.value > now then [first.value] + rest else rest
  }

  function Min(xs: seq<Instant>): (r: Option<Instant>)
    ensures r.None? <==> xs == []
    ensures r.Some? ==> r.value in xs && forall x :: x in xs ==> r.value <= x
    decreases |xs|
  {
    if xs == [] then None
    else
      assert forall x :: x in xs <==> x == xs[0] || x in xs[1..];
      match Min(xs[1..])
      case None => Some(xs[0])
      case Some(m) => Some(if xs[0] <= m then xs[0] else m)
  }

  /** `nextAlarmDate(after:)`. */
  function NextAlarmDate(alarms: seq<Alarm>, now: Instant, holidays: set<string>): Option<Instant> {
    Min(Candidates(alarms, now, holidays))
  }

  /**
   * The next alarm is absent exactly when no enabled alarm has an upcoming
   * date; otherwise it is one enabled alarm's first date, after `now`, and no
   * later than any enabled alarm's first date.
   */
  lemma NextAlarmIsEarliest(alarms: seq<Alarm>, now: Instant, holidays: set<string>)
    ensures var r := NextAlarmDate(alarms, now, holidays);
      && (r.None? <==> forall a :: a in alarms && a.isEnabled ==> FirstFire(a, now, holidays).None?)
      && (r.Some? ==> r.value > now)
      && (r.Some? ==> exists a :: a in alarms && a.isEnabled && FirstFire(a, now, holidays) == r)
      && (r.Some? ==> forall a :: a in alarms && a.isEnabled && FirstFire(a, now, holidays).Some? ==>
            r.value <= FirstFire(a, now, holidays).value)
  {
    var c := Candidates(alarms, now, holidays);
    forall a | a in alarms && a.isEnabled ensures FirstFire(a, now, holidays).Some? ==> c != [] {
      CandidateOf(alarms, a, now, holidays);
    }
    if c != [] {
      assert c[0] in c;
    }
  }

  lemma CandidateOf(alarms: seq<Alarm>, a: Alarm, now: Instant, holidays: set<string>)
    requires a in alarms && a.isEnabled
    ensures FirstFire(a, now, holidays).Some? ==> FirstFire(a, now, holidays).value in Candidates(alarms, now, holidays)
  {
  }

  /** Disabled alarms never decide the next alarm. */
  lemma NextAlarmIgnoresDisabled(alarms: seq<Alarm>, b: Alarm, now: Instant, holidays: set<string>)
    requires !b.isEnabled
    ensures NextAlarmDate(alarms + [b], now, holidays) == NextAlarmDate(alarms, now, holidays)
  {
    CandidatesAppendDisabled(alarms, b, now, holidays);
  }

  lemma {:induction false} CandidatesAppendDisabled(alarms: seq<Alarm>, b: Alarm, now: Instant, holidays: set<string>)
    requires !b.isEnabled
    ensures Candidates(alarms + [b], now, holidays) == Candidates(alarms, now, holidays)
    decreases |alarms|
  {
    if alarms == [] {
      assert [b][1..] == [];
    } else {
      assert (alarms + [b])[1..] == alarms[1..] + [b];
      CandidatesAppendDisabled(alarms[1..], b, now, holidays);
    }
  }
}
