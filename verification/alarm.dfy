/**
 * The alarm record and its recurrence engine: the day predicate `fires(on:)`
 * and the bounded forward scan `nextFireDates`.
 */
module AlarmModel {
  import opened Wrappers
  import opened Ids
  import opened TimeModel
  import opened Civil
  import opened DateFormat

  /**
   * One alarm. `time` carries the hour and minute (for commute alarms the
   * desired arrival time). Latitude and longitude are fixed-point integers;
   * travel time is whole seconds. The lunar fields and `calendarEventID` are
   * stored but take no part in recurrence.
   */
  datatype Alarm = Alarm(
    id: Uuid,
    title: string,
    time: Instant,
    targetDate: Option<Instant>,
    repeatWeekdays: seq<int>,
    skipHolidays: bool,
    isEnabled: bool,
    createdAt: Instant,
    commuteEnabled: bool,
    commuteDestinationName: string,
    commuteLatitude: int,
    commuteLongitude: int,
    commuteTransportType: int,
    commuteBufferMinutes: int,
    commuteTravelSeconds: int,
    isLunar: bool,
    lunarMonth: int,
    lunarDay: int,
    calendarEventID: Option<string>)

  /** Number of days `nextFireDates` examines at most. */
  const ScanHorizon := 730

  /**
   * `Alarm.init`: `id` and `createdAt` are the fresh UUID and the clock reading
   * the initialiser takes.
   */
  function NewAlarm(id: Uuid, createdAt: Instant, title: string, time: Instant,
                    targetDate: Option<Instant>, repeatWeekdays: seq<int>, skipHolidays: bool): (a: Alarm)
    ensures a.isEnabled
    ensures a.id == id && a.createdAt == createdAt
    ensures a.title == title && a.time == time && a.targetDate == targetDate
    ensures a.repeatWeekdays == repeatWeekdays && a.skipHolidays == skipHolidays
    ensures !a.commuteEnabled && a.commuteDestinationName == "" && a.commuteLatitude == 0
    ensures a.commuteLongitude == 0 && a.commuteTransportType == 0
    ensures a.commuteBufferMinutes == 15 && a.commuteTravelSeconds == 0
    ensures !a.isLunar && a.calendarEventID.None?
  {
    Alarm(id, title, time, targetDate, repeatWeekdays, skipHolidays, true, createdAt,
          false, "", 0, 0, 0, 15, 0, false, 1, 1, None)
  }

  predicate IsRepeating(a: Alarm) {
    |a.repeatWeekdays| > 0
  }

  /** The mode rule on day `d`: the weekday set decides, else the target day. */
  predicate DayMatches(a: Alarm, d: int) {
    if IsRepeating(a) then Weekday(d) in a.repeatWeekdays
    else a.targetDate.Some? && d == Day(a.targetDate.value)
  }

  /** Day `d` is a holiday the alarm is configured to skip. */
  predicate SkippedHoliday(a: Alarm, holidays: set<string>, d: int) {
    a.skipHolidays && DayKey(d) in holidays
  }

  /** A day the scan accepts, regardless of whether the alarm is enabled. */
  predicate Eligible(a: Alarm, holidays: set<string>, d: int) {
    !SkippedHoliday(a, holidays, d) && DayMatches(a, d)
  }

  /** `fires(on:holidays:)`. */
  predicate Fires(a: Alarm, date: Instant, holidays: set<string>) {
    if !a.isEnabled then false
    else if a.skipHolidays && Yyyymmdd(date) in holidays then false
    else if IsRepeating(a) then Weekday(Day(date)) in a.repeatWeekdays
    else if a.targetDate.Some? then Day(date) == Day(a.targetDate.value)
    else false
  }

  predicate StrictlyIncreasing(s: seq<Instant>) {
    forall i, j :: 0 <= i < j < |s| ==> s[i] < s[j]
  }

  lemma AppendIncreasing(s: seq<Instant>, x: Instant)
    requires StrictlyIncreasing(s)
    requires forall i :: 0 <= i < |s| ==> s[i] < x
    ensures StrictlyIncreasing(s + [x])
  {
  }

  /**
   * One step of the scan per day: `acc` holds the results so far, `day` is the
   * day under examination and `steps` the iterations left.
   */
  function Scan(a: Alarm, holidays: set<string>, clock: Instant, count: int,
                day: int, steps: nat, acc: seq<Instant>): seq<Instant>
    decreases steps
  {
    if steps == 0 || |acc| >= count then acc
    else if Eligible(a, holidays, day) then
      var fire := Combine(day, a.time);
      var acc' := if fire > clock then acc + [fire] else acc;
      if !IsRepeating(a) then acc'
      else Scan(a, holidays, clock, count, day + 1, steps - 1, acc')
    else Scan(a, holidays, clock, count, day + 1, steps - 1, acc)
  }

  /** What every stage of the scan keeps: the invariant of the Swift loop. */
  predicate ScanInvariant(a: Alarm, clock: Instant, count: int, day: int, acc: seq<Instant>) {
    && (|acc| == 0 || |acc| <= count)
    && StrictlyIncreasing(acc)
    && (forall i :: 0 <= i < |acc| ==> clock < acc[i] < DayStart(day))
    && (!IsRepeating(a) ==> |acc| == 0)
  }

  /** `x` is the instant of an eligible day in `[lo, hi)` and lies after `clock`. */
  predicate WindowFire(a: Alarm, holidays: set<string>, clock: Instant, lo: int, hi: int, x: Instant) {
    && clock < x
    && lo <= Day(x) < hi
    && Eligible(a, holidays, Day(x))
    && x == Combine(Day(x), a.time)
  }

  lemma WindowFireWiden(a: Alarm, holidays: set<string>, clock: Instant, lo: int, lo': int, hi: int, x: Instant)
    requires WindowFire(a, holidays, clock, lo', hi, x) && lo <= lo'
    ensures WindowFire(a, holidays, clock, lo, hi, x)
  {
  }

  /** One day of a scan that is still collecting, and what the day adds. */
  lemma ScanDay(a: Alarm, holidays: set<string>, clock: Instant, count: int,
                day: int, steps: nat, acc: seq<Instant>)
    requires steps > 0 && |acc| < count
    requires ScanInvariant(a, clock, count, day, acc)
    ensures var next := acc + Found(a, holidays, clock, day);
      && |next| <= count
      && StrictlyIncreasing(next)
      && (forall i :: |acc| <= i < |next| ==> WindowFire(a, holidays, clock, day, day + steps, next[i]))
      && (IsRepeating(a) || !Eligible(a, holidays, day) ==> ScanInvariant(a, clock, count, day + 1, next))
      && Scan(a, holidays, clock, count, day, steps, acc)
         == if IsRepeating(a) || !Eligible(a, holidays, day)
            then Scan(a, holidays, clock, count, day + 1, steps - 1, next) else next
  {
    DayStartStep(day);
    var fire := Combine(day, a.time);
    if Eligible(a, holidays, day) && fire > clock {
      AppendIncreasing(acc, fire);
      assert WindowFire(a, holidays, clock, day, day + steps, fire);
    } else {
      assert acc + Found(a, holidays, clock, day) == acc;
    }
  }

  /** What the scan adds to `acc`: future instants of eligible days of its window, in order. */
  lemma {:induction false} ScanProperties(a: Alarm, holidays: set<string>, clock: Instant, count: int,
                                          day: int, steps: nat, acc: seq<Instant>)
    requires ScanInvariant(a, clock, count, day, acc)
    ensures var r := Scan(a, holidays, clock, count, day, steps, acc);
      && |r| >= |acc| && r[..|acc|] == acc
      && (|r| == 0 || |r| <= count)
      && StrictlyIncreasing(r)
      && (forall i :: 0 <= i < |acc| ==> r[i] > clock)
      && (forall i :: |acc| <= i < |r| ==> WindowFire(a, holidays, clock, day, day + steps, r[i]))
      && (!IsRepeating(a) ==> |r| <= 1)
    decreases steps
  {
    if steps > 0 && |acc| < count {
      var next := acc + Found(a, holidays, clock, day);
      ScanDay(a, holidays, clock, count, day, steps, acc);
      assert next[..|acc|] == acc;
      if IsRepeating(a) || !Eligible(a, holidays, day) {
        ScanProperties(a, holidays, clock, count, day + 1, steps - 1, next);
        var r := Scan(a, holidays, clock, count, day + 1, steps - 1, next);
        assert r[..|acc|] == next[..|acc|];
        forall i | |acc| <= i < |r|
          ensures WindowFire(a, holidays, clock, day, day + steps, r[i])
        {
          if i >= |next| {
            WindowFireWiden(a, holidays, clock, day, day + 1, day + steps, r[i]);
          } else {
            assert r[i] == next[i];
          }
        }
      }
    }
  }

  /**
   * `nextFireDates(from:count:holidays:)`: the scan starts at the day of
   * `start`, while candidates are compared with the wall clock `clock`.
   */
  function NextFireDates(a: Alarm, start: Instant, clock: Instant, count: int,
                         holidays: set<string>): (r: seq<Instant>)
    ensures count <= 0 ==> r == []
    ensures |r| == 0 || |r| <= count
    ensures StrictlyIncreasing(r)
    ensures forall i :: 0 <= i < |r| ==> WindowFire(a, holidays, clock, Day(start), Day(start) + ScanHorizon, r[i])
    ensures !IsRepeating(a) ==> |r| <= 1
  {
    ScanProperties(a, holidays, clock, count, Day(start), ScanHorizon, []);
    Scan(a, holidays, clock, count, Day(start), ScanHorizon, [])
  }

  // ---------------------------------------------------------------------------
  // The day predicate

  /** `fires` is the scan's day rule plus the enabled guard. */
  lemma FiresIsEnabledAndEligible(a: Alarm, date: Instant, holidays: set<string>)
    ensures Fires(a, date, holidays) <==> a.isEnabled && Eligible(a, holidays, Day(date))
  {
  }

  /** With weekdays set, the target date plays no part. */
  lemma RepeatingIgnoresTarget(a: Alarm, target: Option<Instant>, date: Instant, holidays: set<string>)
    requires IsRepeating(a)
    ensures Fires(a, date, holidays) == Fires(a.(targetDate := target), date, holidays)
  {
  }

  /** With neither weekdays nor a target date the alarm never fires. */
  lemma NoModeNeverFires(a: Alarm, date: Instant, holidays: set<string>)
    requires !IsRepeating(a) && a.targetDate.None?
    ensures !Fires(a, date, holidays)
  {
  }

  /** Lunar fields and the calendar event link play no part in firing. */
  lemma LunarFieldsIgnored(a: Alarm, lunar: bool, month: int, day: int, event: Option<string>,
                           date: Instant, holidays: set<string>)
    ensures Fires(a, date, holidays)
      == Fires(a.(isLunar := lunar, lunarMonth := month, lunarDay := day, calendarEventID := event), date, holidays)
  {
  }

  /** A weekly alarm that does not skip holidays fires again seven days later. */
  lemma {:induction false} WeeklyPeriodic(a: Alarm, date: Instant, holidays: set<string>)
    requires IsRepeating(a) && !a.skipHolidays
    ensures Fires(a, date, holidays) == Fires(a, date + 7 * SecondsPerDay, holidays)
  {
    DivModOf(date + 7 * SecondsPerDay, SecondsPerDay, Day(date) + 7, date % SecondsPerDay);
    WeekdayOfNextWeek(Day(date));
  }

  // ---------------------------------------------------------------------------
  // The scan against an independent reference

  /** Instants of the eligible days among `n` days from `day` that are after `clock`. */
  function FutureFires(a: Alarm, holidays: set<string>, clock: Instant, day: int, n: nat): seq<Instant>
    decreases n
  {
    if n == 0 then [] else Found(a, holidays, clock, day) + FutureFires(a, holidays, clock, day + 1, n - 1)
  }

  /** The instant day `day` contributes: its alarm time when eligible and after `clock`. */
  function Found(a: Alarm, holidays: set<string>, clock: Instant, day: int): seq<Instant> {
    if Eligible(a, holidays, day) && Combine(day, a.time) > clock then [Combine(day, a.time)] else []
  }

  /** The first `k` elements, or all of them when there are fewer. */
  function TakeAtMost<T>(s: seq<T>, k: int): (r: seq<T>)
    ensures |r| == if k <= 0 then 0 else if k < |s| then k else |s|
    ensures r == s[..|r|]
  {
    if k <= 0 then [] else if k < |s| then s[..k] else s
  }

  /** One day of a weekly scan that is still collecting: the day's instant joins `acc`. */
  lemma ScanStep(a: Alarm, holidays: set<string>, clock: Instant, count: int,
                 day: int, steps: nat, acc: seq<Instant>)
    requires IsRepeating(a) && steps > 0 && |acc| < count
    requires ScanInvariant(a, clock, count, day, acc)
    ensures Scan(a, holidays, clock, count, day, steps, acc)
      == Scan(a, holidays, clock, count, day + 1, steps - 1, acc + Found(a, holidays, clock, day))
    ensures ScanInvariant(a, clock, count, day + 1, acc + Found(a, holidays, clock, day))
  {
    DayStartStep(day);
    var fire := Combine(day, a.time);
    if Eligible(a, holidays, day) && fire > clock {
      AppendIncreasing(acc, fire);
    } else {
      assert acc + Found(a, holidays, clock, day) == acc;
    }
  }

  /** Taking at most `count` from a list already that short gives it back. */
  lemma TakeAll(acc: seq<Instant>, rest: seq<Instant>, count: int)
    requires |acc| == 0 || |acc| <= count
    requires |acc| >= count || rest == []
    ensures TakeAtMost(acc + rest, count) == acc
  {
    if rest == [] {
      assert acc + rest == acc;
    } else {
      assert (acc + rest)[..|acc|] == acc;
    }
  }

  /** The inductive step of `ScanIsTake`: one day moves from the window into `acc`. */
  lemma ScanIsTakeStep(a: Alarm, holidays: set<string>, clock: Instant, count: int,
                       day: int, steps: nat, acc: seq<Instant>)
    requires steps > 0
    requires Scan(a, holidays, clock, count, day, steps, acc)
      == Scan(a, holidays, clock, count, day + 1, steps - 1, acc + Found(a, holidays, clock, day))
    requires Scan(a, holidays, clock, count, day + 1, steps - 1, acc + Found(a, holidays, clock, day))
      == TakeAtMost(acc + Found(a, holidays, clock, day) + FutureFires(a, holidays, clock, day + 1, steps - 1), count)
    ensures Scan(a, holidays, clock, count, day, steps, acc)
      == TakeAtMost(acc + FutureFires(a, holidays, clock, day, steps), count)
  {
    var extra := Found(a, holidays, clock, day);
    var tail := FutureFires(a, holidays, clock, day + 1, steps - 1);
    assert FutureFires(a, holidays, clock, day, steps) == extra + tail;
    assert acc + extra + tail == acc + (extra + tail);
  }

  lemma {:induction false} ScanIsTake(a: Alarm, holidays: set<string>, clock: Instant, count: int,
                                      day: int, steps: nat, acc: seq<Instant>)
    requires IsRepeating(a)
    requires ScanInvariant(a, clock, count, day, acc)
    ensures Scan(a, holidays, clock, count, day, steps, acc)
      == TakeAtMost(acc + FutureFires(a, holidays, clock, day, steps), count)
    decreases steps
  {
    var rest := FutureFires(a, holidays, clock, day, steps);
    if steps == 0 || |acc| >= count {
      TakeAll(acc, rest, count);
    } else {
      var next := acc + Found(a, holidays, clock, day);
      ScanStep(a, holidays, clock, count, day, steps, acc);
      ScanIsTake(a, holidays, clock, count, day + 1, steps - 1, next);
      ScanIsTakeStep(a, holidays, clock, count, day, steps, acc);
    }
  }

  /**
   * For a weekly alarm the result is exactly the first `count` future
   * instants of the eligible days of the 730-day window: nothing eligible is
   * skipped and nothing else is added.
   */
  lemma NextFireDatesRepeating(a: Alarm, start: Instant, clock: Instant, count: int, holidays: set<string>)
    requires IsRepeating(a)
    ensures NextFireDates(a, start, clock, count, holidays)
      == TakeAtMost(FutureFires(a, holidays, clock, Day(start), ScanHorizon), count)
  {
    ScanIsTake(a, holidays, clock, count, Day(start), ScanHorizon, []);
    assert [] + FutureFires(a, holidays, clock, Day(start), ScanHorizon)
      == FutureFires(a, holidays, clock, Day(start), ScanHorizon);
  }

  /** Every day of the window that fires yields its instant when it is future. */
  lemma {:induction false} FutureFiresComplete(a: Alarm, holidays: set<string>, clock: Instant,
                                               day: int, n: nat, d: int)
    requires day <= d < day + n
    requires Eligible(a, holidays, d) && Combine(d, a.time) > clock
    ensures Combine(d, a.time) in FutureFires(a, holidays, clock, day, n)
    decreases n
  {
    if d > day {
      FutureFiresComplete(a, holidays, clock, day + 1, n - 1, d);
    }
  }

  /** The target day's instant, when that day is in `[lo, hi)`, eligible and future. */
  function TargetFire(a: Alarm, holidays: set<string>, clock: Instant, count: int, lo: int, hi: int): seq<Instant> {
    if count >= 1 && a.targetDate.Some? then
      var d := Day(a.targetDate.value);
      if lo <= d < hi && Eligible(a, holidays, d) && Combine(d, a.time) > clock
      then [Combine(d, a.time)] else []
    else []
  }

  lemma {:induction false} ScanOneShot(a: Alarm, holidays: set<string>, clock: Instant, count: int,
                                       day: int, steps: nat)
    requires !IsRepeating(a)
    ensures Scan(a, holidays, clock, count, day, steps, [])
      == TargetFire(a, holidays, clock, count, day, day + steps)
    decreases steps
  {
    if steps > 0 && count >= 1 {
      if Eligible(a, holidays, day) {
        assert Day(a.targetDate.value) == day;
      } else {
        ScanOneShot(a, holidays, clock, count, day + 1, steps - 1);
        assert TargetFire(a, holidays, clock, count, day, day + steps)
          == TargetFire(a, holidays, clock, count, day + 1, day + steps);
      }
    }
  }

  /**
   * A non-repeating alarm yields at most its target instant: the scan stops at
   * the first matching day, so a target instant already past gives nothing.
   */
  lemma NextFireDatesOneShot(a: Alarm, start: Instant, clock: Instant, count: int, holidays: set<string>)
    requires !IsRepeating(a)
    ensures NextFireDates(a, start, clock, count, holidays)
      == TargetFire(a, holidays, clock, count, Day(start), Day(start) + ScanHorizon)
  {
    ScanOneShot(a, holidays, clock, count, Day(start), ScanHorizon);
  }

  /** A matching day whose instant is already past ends the scan empty-handed. */
  lemma PastTargetGivesNothing(a: Alarm, start: Instant, clock: Instant, count: int, holidays: set<string>)
    requires !IsRepeating(a) && a.targetDate.Some?
    requires Combine(Day(a.targetDate.value), a.time) <= clock
    ensures NextFireDates(a, start, clock, count, holidays) == []
  {
    NextFireDatesOneShot(a, start, clock, count, holidays);
  }

  lemma {:induction false} ScanIgnoresEnabled(a: Alarm, e: bool, holidays: set<string>, clock: Instant,
                                              count: int, day: int, steps: nat, acc: seq<Instant>)
    requires ScanInvariant(a, clock, count, day, acc)
    ensures Scan(a, holidays, clock, count, day, steps, acc)
      == Scan(a.(isEnabled := e), holidays, clock, count, day, steps, acc)
    decreases steps
  {
    DayStartStep(day);
    var b := a.(isEnabled := e);
    assert Eligible(a, holidays, day) == Eligible(b, holidays, day);
    if steps > 0 && |acc| < count && IsRepeating(a) {
      var fire := Combine(day, a.time);
      if Eligible(a, holidays, day) && fire > clock {
        assert StrictlyIncreasing(acc + [fire]) by { AppendIncreasing(acc, fire); }
        ScanIgnoresEnabled(a, e, holidays, clock, count, day + 1, steps - 1, acc + [fire]);
      } else {
        ScanIgnoresEnabled(a, e, holidays, clock, count, day + 1, steps - 1, acc);
      }
    } else if steps > 0 && |acc| < count && !Eligible(a, holidays, day) {
      ScanIgnoresEnabled(a, e, holidays, clock, count, day + 1, steps - 1, acc);
    }
  }

  /** Unlike `fires`, `nextFireDates` does not consult `isEnabled`. */
  lemma NextFireDatesIgnoresEnabled(a: Alarm, e: bool, start: Instant, clock: Instant, count: int,
                                    holidays: set<string>)
    ensures NextFireDates(a, start, clock, count, holidays)
      == NextFireDates(a.(isEnabled := e), start, clock, count, holidays)
  {
    ScanIgnoresEnabled(a, e, holidays, clock, count, Day(start), ScanHorizon, []);
  }

  /** Every returned instant is on a day the enabled alarm fires. */
  lemma NextFireDatesFire(a: Alarm, start: Instant, clock: Instant, count: int, holidays: set<string>)
    requires a.isEnabled
    ensures forall x :: x in NextFireDates(a, start, clock, count, holidays) ==> Fires(a, x, holidays)
  {
  }

  /** Results fall on pairwise distinct days, in increasing day order. */
  lemma NextFireDatesOnePerDay(a: Alarm, start: Instant, clock: Instant, count: int, holidays: set<string>)
    ensures var r := NextFireDates(a, start, clock, count, holidays);
      forall i, j :: 0 <= i < j < |r| ==> Day(r[i]) < Day(r[j])
  {
    var r := NextFireDates(a, start, clock, count, holidays);
    forall i, j | 0 <= i < j < |r|
      ensures Day(r[i]) < Day(r[j])
    {
      assert r[i] < r[j];
    }
  }

  /**
   * A weekly alarm that has fewer than `count` future days in the window
   * returns every one of them.
   */
  lemma WeeklyComplete(a: Alarm, start: Instant, clock: Instant, count: int, holidays: set<string>, d: int)
    requires IsRepeating(a)
    requires |FutureFires(a, holidays, clock, Day(start), ScanHorizon)| <= count
    requires Day(start) <= d < Day(start) + ScanHorizon
    requires Eligible(a, holidays, d) && Combine(d, a.time) > clock
    ensures Combine(d, a.time) in NextFireDates(a, start, clock, count, holidays)
  {
    NextFireDatesRepeating(a, start, clock, count, holidays);
    FutureFiresComplete(a, holidays, clock, Day(start), ScanHorizon, d);
  }
}
