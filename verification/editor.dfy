/**
 * The alarm editor (`AddAlarmView`): the form state, its defaults for a new
 * alarm and when opened on an existing one, the save guard `canSave`, the
 * input ranges, and the mapping from the form to the stored alarm.
 */
module Editor {
  import opened Wrappers
  import opened Ids
  import opened TimeModel
  import opened Civil
  import opened AlarmModel
  import opened Commute
  import opened Seqs

  /**
   * The form. `repeatWeekdays` is the form's `Set<Int>` as a duplicate-free
   * sequence; latitude and longitude are fixed-point integers as in `Alarm`.
   */
  datatype Form = Form(
    title: string,
    time: Instant,
    targetDate: Instant,
    isRepeating: bool,
    repeatWeekdays: seq<int>,
    skipHolidays: bool,
    isLunar: bool,
    lunarMonth: int,
    lunarDay: int,
    commuteEnabled: bool,
    commuteDestName: string,
    commuteLatitude: int,
    commuteLongitude: int,
    commuteTransport: TransportType,
    commuteBufferMinutes: int,
    estimatedTravelMin: int)

  // ---------------------------------------------------------------------------
  // Input ranges

  /** `weekdayItems`: the selector's calendar weekdays, Monday first. */
  const WeekdayItems: seq<int> := [2, 3, 4, 5, 6, 7, 1]

  /**
   * The selector shows every weekday once, and starting from any Monday it
   * follows the days of that week in order.
   */
  lemma WeekdayItemsFollowTheWeek(monday: int)
    requires Weekday(monday) == 2
    ensures |WeekdayItems| == 7 && Distinct(WeekdayItems)
    ensures forall w :: w in WeekdayItems <==> 1 <= w <= 7
    ensures forall i :: 0 <= i < 7 ==> WeekdayItems[i] == Weekday(monday + i)
  {
    WeekdayOfNextDay(monday);
    WeekdayOfNextDay(monday + 1);
    WeekdayOfNextDay(monday + 2);
    WeekdayOfNextDay(monday + 3);
    WeekdayOfNextDay(monday + 4);
    WeekdayOfNextDay(monday + 5);
  }

  /** `Stepper(in: 0...60, step: 5)` for the buffer: each press moves 5 minutes, clamped. */
  function BufferStep(minutes: int, up: bool): (r: int)
    ensures 0 <= minutes <= 60 ==> 0 <= r <= 60
    ensures 0 <= minutes <= 60 && minutes % 5 == 0 ==> r % 5 == 0
    ensures up ==> r >= minutes || r == 60
    ensures !up ==> r <= minutes || r == 0
  {
    if up then (if minutes + 5 > 60 then 60 else minutes + 5)
    else (if minutes - 5 < 0 then 0 else minutes - 5)
  }

  /** Away from the bounds one press down undoes one press up, and the reverse. */
  lemma BufferStepUndo(minutes: int)
    requires 0 <= minutes <= 55
    ensures BufferStep(BufferStep(minutes, true), false) == minutes
    ensures BufferStep(BufferStep(minutes + 5, false), true) == minutes + 5
  {
  }

  /** The lunar pickers' tags: months 1–12 and days 1–30. */
  function LunarChoices(count: nat): (r: seq<int>)
    ensures |r| == count
    ensures forall i :: 0 <= i < count ==> r[i] == i + 1
  {
    seq(count, i => i + 1)
  }

  lemma LunarChoicesRange(count: nat, v: int)
    ensures v in LunarChoices(count) <==> 1 <= v <= count
  {
    if 1 <= v <= count {
      assert LunarChoices(count)[v - 1] == v;
    }
  }

  /** Toggling a weekday button: remove it when selected, add it otherwise. */
  function ToggleWeekday(days: seq<int>, w: int): (r: seq<int>)
    requires Distinct(days)
    ensures Distinct(r)
    ensures w in r <==> w !in days
    ensures forall v :: v != w ==> (v in r <==> v in days)
  {
    if w in days then Without(days, w) else days + [w]
  }

  function Without(days: seq<int>, w: int): (r: seq<int>)
    requires Distinct(days)
    ensures Distinct(r)
    ensures forall v :: v in r <==> v in days && v != w
    decreases |days|
  {
    if days == [] then []
    else if days[0] == w then Without(days[1..], w)
    else
      var rest := Without(days[1..], w);
      assert days[0] !in days[1..];
      [days[0]] + rest
  }

  /** Pressing the same weekday twice leaves the selection as it was. */
  lemma ToggleWeekdayTwice(days: seq<int>, w: int)
    requires Distinct(days)
    ensures forall v :: v in ToggleWeekday(ToggleWeekday(days, w), w) <==> v in days
  {
  }

  // ---------------------------------------------------------------------------
  // Opening the editor

  /**
   * The default time of a new alarm: the start of the hour after the one
   * containing `now`.
   */
  function NextHour(now: Instant): (r: Instant)
    ensures now < r <= now + 3600
    ensures r % 3600 == 0 && MinuteOf(r) == 0
  {
    now - now % 3600 + 3600
  }

  /** `init` without an alarm: the new-alarm defaults. */
  function NewForm(initialDate: Instant, now: Instant): (f: Form)
    ensures f.title == "" && f.time == NextHour(now) && f.targetDate == initialDate
    ensures !f.isRepeating && f.repeatWeekdays == [] && !f.skipHolidays
    ensures !f.isLunar && f.lunarMonth == 1 && f.lunarDay == 1
    ensures !f.commuteEnabled && f.commuteDestName == "" && f.commuteLatitude == 0 && f.commuteLongitude == 0
    ensures f.commuteTransport == Automobile && f.commuteBufferMinutes == 15 && f.estimatedTravelMin == 0
  {
    Form("", NextHour(now), initialDate, false, [], false, false, 1, 1,
         false, "", 0, 0, Automobile, 15, 0)
  }

  /** `init` with an existing alarm: the form shows the alarm's values. */
  function EditForm(a: Alarm, initialDate: Instant): (f: Form)
    ensures f.isRepeating <==> IsRepeating(a)
    ensures forall w :: w in f.repeatWeekdays <==> w in a.repeatWeekdays
    ensures a.targetDate.Some? ==> f.targetDate == a.targetDate.value
    ensures a.targetDate.None? ==> f.targetDate == initialDate
    ensures RawValue(f.commuteTransport) == a.commuteTransportType || FromRaw(a.commuteTransportType).None?
  {
    Form(a.title, a.time, a.targetDate.GetOr(initialDate), |a.repeatWeekdays| > 0, Dedup(a.repeatWeekdays),
         a.skipHolidays, a.isLunar, a.lunarMonth, a.lunarDay,
         a.commuteEnabled, a.commuteDestinationName, a.commuteLatitude, a.commuteLongitude,
         OrAutomobile(a.commuteTransportType), a.commuteBufferMinutes, TravelMinutes(a.commuteTravelSeconds))
  }

  // ---------------------------------------------------------------------------
  // Saving

  /** `canSave`: Save is disabled for a weekly alarm with no day, or a commute with no destination. */
  predicate CanSave(f: Form) {
    if !f.isLunar && f.isRepeating && f.repeatWeekdays == [] then false
    else if f.commuteEnabled && f.commuteLatitude == 0 then false
    else true
  }

  /** The stored target date: none for lunar and weekly alarms. */
  function SavedTarget(f: Form): (r: Option<Instant>)
    ensures r.None? <==> f.isLunar || f.isRepeating
    ensures r.Some? ==> r.value == f.targetDate
  {
    if f.isLunar || f.isRepeating then None else Some(f.targetDate)
  }

  /**
   * The stored weekdays as the editor writes them: the selection is kept even
   * when Repeat is off and the selector is hidden.
   */
  function SavedWeekdaysAsWritten(f: Form): (r: seq<int>)
    ensures f.isLunar ==> r == []
    ensures !f.isLunar ==> r == f.repeatWeekdays
  {
    if f.isLunar then [] else f.repeatWeekdays
  }

  /** The stored weekdays as intended: only a weekly alarm keeps its selection. */
  function SavedWeekdays(f: Form): (r: seq<int>)
    ensures r != [] <==> !f.isLunar && f.isRepeating && f.repeatWeekdays != []
    ensures r != [] ==> r == f.repeatWeekdays
  {
    if f.isLunar || !f.isRepeating then [] else f.repeatWeekdays
  }

  /** Commute details are copied only with a destination chosen. */
  predicate HasDestination(f: Form) {
    f.commuteEnabled && f.commuteLatitude != 0
  }

  function WithCommute(a: Alarm, f: Form): (r: Alarm)
    requires HasDestination(f)
  {
    a.(commuteEnabled := true, commuteDestinationName := f.commuteDestName,
       commuteLatitude := f.commuteLatitude, commuteLongitude := f.commuteLongitude,
       commuteTransportType := RawValue(f.commuteTransport),
       commuteBufferMinutes := f.commuteBufferMinutes,
       commuteTravelSeconds := f.estimatedTravelMin * 60)
  }

  /** `save()` for a new alarm, given the weekdays to store. */
  function CreateWith(f: Form, weekdays: seq<int>, id: Uuid, createdAt: Instant): (a: Alarm)
    ensures a.id == id && a.createdAt == createdAt && a.isEnabled && a.calendarEventID.None?
    ensures a.title == f.title && a.time == f.time && a.skipHolidays == f.skipHolidays
    ensures a.targetDate == SavedTarget(f) && a.repeatWeekdays == weekdays
    ensures a.isLunar == f.isLunar && a.lunarMonth == f.lunarMonth && a.lunarDay == f.lunarDay
    ensures a.commuteEnabled <==> HasDestination(f)
    ensures HasDestination(f) ==>
      && a.commuteLatitude == f.commuteLatitude
      && a.commuteLongitude == f.commuteLongitude && a.commuteDestinationName == f.commuteDestName
      && FromRaw(a.commuteTransportType) == Some(f.commuteTransport)
      && a.commuteBufferMinutes == f.commuteBufferMinutes
      && a.commuteTravelSeconds == f.estimatedTravelMin * 60
    ensures !HasDestination(f) ==>
      a.commuteLatitude == 0 && a.commuteBufferMinutes == 15 && a.commuteTravelSeconds == 0
  {
    var a := NewAlarm(id, createdAt, f.title, f.time, SavedTarget(f), weekdays, f.skipHolidays)
               .(isLunar := f.isLunar, lunarMonth := f.lunarMonth, lunarDay := f.lunarDay);
    RawRoundTrip(f.commuteTransport, RawValue(f.commuteTransport));
    if HasDestination(f) then WithCommute(a, f) else a
  }

  /** `save()` on an existing alarm, given the weekdays to store. */
  function EditWith(f: Form, weekdays: seq<int>, existing: Alarm): (a: Alarm)
    ensures a.id == existing.id && a.createdAt == existing.createdAt
    ensures a.isEnabled == existing.isEnabled && a.calendarEventID == existing.calendarEventID
    ensures a.title == f.title && a.time == f.time && a.skipHolidays == f.skipHolidays
    ensures a.targetDate == SavedTarget(f) && a.repeatWeekdays == weekdays
    ensures a.isLunar == f.isLunar && a.lunarMonth == f.lunarMonth && a.lunarDay == f.lunarDay
    ensures a.commuteEnabled == f.commuteEnabled
    ensures HasDestination(f) ==>
      && a.commuteLatitude == f.commuteLatitude
      && a.commuteLongitude == f.commuteLongitude && a.commuteDestinationName == f.commuteDestName
      && FromRaw(a.commuteTransportType) == Some(f.commuteTransport)
      && a.commuteBufferMinutes == f.commuteBufferMinutes
      && a.commuteTravelSeconds == f.estimatedTravelMin * 60
    ensures !HasDestination(f) ==>
      && a.commuteLatitude == 0
      && a.commuteLongitude == existing.commuteLongitude
      && a.commuteDestinationName == existing.commuteDestinationName
      && a.commuteTransportType == existing.commuteTransportType
      && a.commuteBufferMinutes == existing.commuteBufferMinutes
      && a.commuteTravelSeconds == existing.commuteTravelSeconds
  {
    RawRoundTrip(f.commuteTransport, RawValue(f.commuteTransport));
    var a := existing.(title := f.title, time := f.time, isLunar := f.isLunar,
                       lunarMonth := f.lunarMonth, lunarDay := f.lunarDay,
                       targetDate := SavedTarget(f), repeatWeekdays := weekdays,
                       skipHolidays := f.skipHolidays, commuteEnabled := f.commuteEnabled);
    if HasDestination(f) then WithCommute(a, f) else a.(commuteLatitude := 0)
  }

  /** `save()` for a new alarm, as written. */
  function CreateAsWritten(f: Form, id: Uuid, createdAt: Instant): (a: Alarm)
    ensures a.repeatWeekdays == SavedWeekdaysAsWritten(f)
  {
    CreateWith(f, SavedWeekdaysAsWritten(f), id, createdAt)
  }

  /** `save()` for a new alarm, storing weekdays only for a weekly alarm. */
  function Create(f: Form, id: Uuid, createdAt: Instant): (a: Alarm)
    ensures a.repeatWeekdays == SavedWeekdays(f)
  {
    CreateWith(f, SavedWeekdays(f), id, createdAt)
  }

  /** `save()` on an existing alarm, storing weekdays only for a weekly alarm. */
  function Edit(f: Form, existing: Alarm): (a: Alarm)
    ensures a.repeatWeekdays == SavedWeekdays(f)
  {
    EditWith(f, SavedWeekdays(f), existing)
  }

  /** The form's own rule for which days a non-lunar alarm should ring on. */
  predicate Chosen(f: Form, date: Instant, holidays: set<string>) {
    && !(f.skipHolidays && DateFormat.Yyyymmdd(date) in holidays)
    && if f.isRepeating then Weekday(Day(date)) in f.repeatWeekdays else Day(date) == Day(f.targetDate)
  }

  /**
   * With Repeat off and a weekday selection left over from before, the alarm
   * as written rings weekly on the hidden days, and not on the date shown in
   * the form when that date falls on another weekday.
   */
  lemma AsWrittenRingsOnHiddenWeekdays(f: Form, id: Uuid, createdAt: Instant, date: Instant,
                                       holidays: set<string>)
    requires !f.isLunar && !f.isRepeating && f.repeatWeekdays != [] && !f.skipHolidays
    requires Weekday(Day(f.targetDate)) !in f.repeatWeekdays
    requires Weekday(Day(date)) in f.repeatWeekdays
    ensures !Fires(CreateAsWritten(f, id, createdAt), f.targetDate, holidays)
    ensures Fires(CreateAsWritten(f, id, createdAt), date, holidays)
    ensures !Chosen(f, date, holidays)
  {
  }

  /** A saved non-lunar alarm rings on exactly the days the form shows. */
  lemma CreateRingsAsChosen(f: Form, id: Uuid, createdAt: Instant, date: Instant, holidays: set<string>)
    requires !f.isLunar
    ensures Fires(Create(f, id, createdAt), date, holidays) <==> Chosen(f, date, holidays)
  {
  }

  /** The same for an edited alarm that is switched on. */
  lemma EditRingsAsChosen(f: Form, existing: Alarm, date: Instant, holidays: set<string>)
    requires !f.isLunar && existing.isEnabled
    ensures Fires(Edit(f, existing), date, holidays) <==> Chosen(f, date, holidays)
  {
  }

  /**
   * A form that can be saved gives an alarm that rings on some day, when it
   * is not lunar and its weekdays come from the selector; with a commute it
   * keeps a destination, so the commute reminder is planned.
   */
  lemma SavableRings(f: Form, id: Uuid, createdAt: Instant)
    requires CanSave(f) && !f.isLunar
    requires forall w :: w in f.repeatWeekdays ==> w in WeekdayItems
    ensures exists date :: Fires(Create(f, id, createdAt), date, {})
    ensures f.commuteEnabled ==>
      Create(f, id, createdAt).commuteEnabled && Create(f, id, createdAt).commuteLatitude != 0
  {
    var a := Create(f, id, createdAt);
    if f.isRepeating {
      var w := f.repeatWeekdays[0];
      assert w in WeekdayItems;
      var date := DayStart(w - 5);
      assert Weekday(Day(date)) == w;
      assert Fires(a, date, {});
    } else {
      assert Fires(a, f.targetDate, {});
    }
  }

  /**
   * The form's fields round-trip an alarm exactly when it is in the shape
   * the editor itself produces: its target date is set only for a plain
   * one-time alarm, a lunar alarm keeps no weekdays, weekdays are not
   * repeated, a known transport and whole travel minutes with a destination,
   * and latitude 0 without one.
   */
  predicate Settled(a: Alarm) {
    && (a.targetDate.None? <==> a.isLunar || IsRepeating(a))
    && (a.isLunar ==> a.repeatWeekdays == [])
    && Distinct(a.repeatWeekdays)
    && (a.commuteEnabled && a.commuteLatitude != 0 ==>
          FromRaw(a.commuteTransportType).Some? && a.commuteTravelSeconds % 60 == 0)
    && (a.commuteLatitude != 0 ==> a.commuteEnabled)
  }

  /** Opening an alarm and saving without a change leaves it unchanged exactly when it is settled. */
  lemma EditUnchangedIff(a: Alarm, initialDate: Instant)
    ensures Edit(EditForm(a, initialDate), a) == a <==> Settled(a)
  {
    var f := EditForm(a, initialDate);
    var b := Edit(f, a);
    if Settled(a) {
      DedupOfDistinct(a.repeatWeekdays);
      if HasDestination(f) {
        RawRoundTrip(OrAutomobile(a.commuteTransportType), a.commuteTransportType);
      }
    }
    if b == a {
      assert b.repeatWeekdays == a.repeatWeekdays;
      if !a.isLunar && IsRepeating(a) {
        assert Dedup(a.repeatWeekdays) == a.repeatWeekdays;
      }
      if a.commuteEnabled && a.commuteLatitude != 0 {
        assert b.commuteTransportType == RawValue(OrAutomobile(a.commuteTransportType));
        assert FromRaw(a.commuteTransportType).Some?;
      }
    }
  }
}
