/**
 * The month calendar (`CalendarView`): the days whose decorations are
 * reloaded, the token that decides when to reload them, and the decoration
 * of one day.
 */
module CalendarGrid {
  import opened Wrappers
  import opened Ids
  import opened TimeModel
  import opened Civil
  import opened DateFormat
  import opened AlarmModel
  import opened Holidays
  import opened Sorting
  import opened Seqs
  import Store

  // ---------------------------------------------------------------------------
  // The reloaded days

  /** Calendar order of dates: by year, then month, then day. */
  predicate Earlier(a: Ymd, b: Ymd) {
    a.year < b.year || (a.year == b.year && (a.month < b.month || (a.month == b.month && a.day < b.day)))
  }

  predicate Chronological(s: seq<Ymd>) {
    forall i, j :: 0 <= i < j < |s| ==> Earlier(s[i], s[j])
  }

  lemma ChronologicalAppend(xs: seq<Ymd>, ys: seq<Ymd>)
    requires Chronological(xs) && Chronological(ys)
    requires forall x, y :: x in xs && y in ys ==> Earlier(x, y)
    ensures Chronological(xs + ys)
  {
    var r := xs + ys;
    forall i, j | 0 <= i < j < |r| ensures Earlier(r[i], r[j]) {
      if i < |xs| && j >= |xs| {
        assert r[i] in xs && r[j] in ys;
      } else if i >= |xs| {
        assert r[i] == ys[i - |xs|] && r[j] == ys[j - |xs|];
      }
    }
  }

  /** The days of one month, as `range(of: .day, in: .month)` lists them. */
  function MonthDays(y: int, m: int): (r: seq<Ymd>)
    requires 1 <= m <= 12
    ensures |r| == DaysInMonth(y, m)
    ensures forall c :: c in r <==> ValidYmd(c) && c.year == y && c.month == m
    ensures Chronological(r)
  {
    var r := seq(DaysInMonth(y, m), i => Ymd(y, m, i + 1));
    assert forall c :: ValidYmd(c) && c.year == y && c.month == m ==> r[c.day - 1] == c;
    r
  }

  /** Months `m` to 12 of year `y`. */
  function Months(y: int, m: int): (r: seq<Ymd>)
    requires 1 <= m <= 13
    ensures forall c :: c in r <==> ValidYmd(c) && c.year == y && m <= c.month
    ensures Chronological(r)
    decreases 13 - m
  {
    if m == 13 then []
    else
      var first := MonthDays(y, m);
      var rest := Months(y, m + 1);
      ChronologicalAppend(first, rest);
      first + rest
  }

  /** Every day of the years `lo` to `hi - 1`. */
  function Years(lo: int, hi: int): (r: seq<Ymd>)
    ensures forall c :: c in r <==> ValidYmd(c) && lo <= c.year < hi
    ensures Chronological(r)
    decreases hi - lo
  {
    if lo >= hi then []
    else
      var first := Months(lo, 1);
      var rest := Years(lo + 1, hi);
      ChronologicalAppend(first, rest);
      first + rest
  }

  /**
   * `dateRange()`: every day of the year before the current one through two
   * years after it (four years, although the code's comment speaks of two
   * years either side), each exactly once and in calendar order.
   */
  function DateRange(now: Instant): (r: seq<Ymd>)
    ensures forall c :: c in r <==>
      ValidYmd(c) && CalendarYear(now) - 1 <= c.year <= CalendarYear(now) + 2
    ensures Chronological(r)
    ensures Distinct(r)
  {
    var year := CalendarYear(now);
    var r := Years(year - 1, year + 3);
    assert forall i, j :: 0 <= i < j < |r| ==> Earlier(r[i], r[j]);
    r
  }

  // ---------------------------------------------------------------------------
  // One day's decoration

  datatype Decoration =
    | RedAndBlue   // a holiday with alarms: two dots
    | Red          // a holiday
    | Blue         // a day with alarms

  /** Midnight of a calendar date. */
  function DateOf(c: Ymd): (t: Instant)
    requires 1 <= c.month <= 12
    ensures Day(t) == DaysFromCivil(c.year, c.month, c.day)
  {
    DayStart(DaysFromCivil(c.year, c.month, c.day))
  }

  /** Some alarm of the list fires on `date`, holidays taken from all loaded years. */
  predicate AnyFires(alarms: seq<Alarm>, date: Instant, holidays: set<string>) {
    exists i :: 0 <= i < |alarms| && Fires(alarms[i], date, holidays)
  }

  /** `calendarView(_:decorationFor:)`. */
  function Decorate(c: Ymd, s: HolidayService, alarms: seq<Alarm>): (r: Option<Decoration>)
    requires 1 <= c.month <= 12
  {
    var date := DateOf(c);
    var holiday := IsHoliday(s, date);
    var alarmed := AnyFires(alarms, date, AllHolidays(s));
    if holiday && alarmed then Some(RedAndBlue)
    else if holiday then Some(Red)
    else if alarmed then Some(Blue)
    else None
  }

  predicate HasRed(d: Option<Decoration>) {
    d == Some(RedAndBlue) || d == Some(Red)
  }

  predicate HasBlue(d: Option<Decoration>) {
    d == Some(RedAndBlue) || d == Some(Blue)
  }

  /**
   * The red dot marks a holiday of the date's own year, and the blue dot
   * appears exactly when the day's alarm list below the calendar is not empty.
   */
  lemma DecorationAgreesWithDayList(c: Ymd, st: Store.AppState, alarms: seq<Alarm>)
    requires 1 <= c.month <= 12
    ensures var d := Decorate(c, st.holidays, alarms);
      && (HasRed(d) <==> Yyyymmdd(DateOf(c)) in HolidaysFor(st.holidays, CalendarYear(DateOf(c))))
      && (HasRed(d) ==> Yyyymmdd(DateOf(c)) in AllHolidays(st.holidays))
      && (HasBlue(d) <==> |Store.AlarmsFor(st, DateOf(c), alarms)| > 0)
      && (d.None? <==> !HasRed(d) && !HasBlue(d))
  {
    IsHolidayInAll(st.holidays, DateOf(c));
    Store.HasAlarmsIff(st, DateOf(c), alarms);
  }

  // ---------------------------------------------------------------------------
  // When decorations are reloaded

  /**
   * One alarm's part of `refreshToken` as written: identifier, enabled flag,
   * sorted weekdays and the target date in whole seconds (0 without one).
   * The text rendering and the `|` separator are left out: the token is the
   * sequence of parts.
   */
  datatype PartAsWritten = PartAsWritten(id: Uuid, enabled: bool, weekdays: seq<int>, target: int)

  function TokenAsWritten(alarms: seq<Alarm>): (r: seq<PartAsWritten>)
    ensures |r| == |alarms|
    ensures forall i :: 0 <= i < |r| ==> r[i].id == alarms[i].id && r[i].enabled == alarms[i].isEnabled
  {
    seq(|alarms|, i requires 0 <= i < |alarms| =>
      PartAsWritten(alarms[i].id, alarms[i].isEnabled, Sort(alarms[i].repeatWeekdays, Value),
                    alarms[i].targetDate.GetOr(0)))
  }

  /** A part that also carries the skip-holidays flag on which firing depends. */
  datatype Part = Part(id: Uuid, enabled: bool, skipHolidays: bool, weekdays: seq<int>, target: Option<Instant>)

  function Token(alarms: seq<Alarm>): (r: seq<Part>)
    ensures |r| == |alarms|
    ensures forall i :: 0 <= i < |r| ==> r[i].id == alarms[i].id && r[i].enabled == alarms[i].isEnabled
  {
    seq(|alarms|, i requires 0 <= i < |alarms| =>
      Part(alarms[i].id, alarms[i].isEnabled, alarms[i].skipHolidays, Sort(alarms[i].repeatWeekdays, Value),
           alarms[i].targetDate))
  }

  /** `updateUIView`: the decorations are reloaded exactly when the token changed. */
  function Reloads<T(==)>(lastToken: T, token: T): (reload: bool)
    ensures reload <==> lastToken != token
  {
    lastToken != token
  }

  /**
   * Turning "skip holidays" on for a weekly alarm leaves the token as written
   * unchanged, so no reload happens, although the alarm no longer fires on a
   * holiday that falls on one of its weekdays.
   */
  lemma TokenAsWrittenMissesSkip(a: Alarm, date: Instant, holidays: set<string>)
    requires a.isEnabled && !a.skipHolidays && IsRepeating(a)
    requires Weekday(Day(date)) in a.repeatWeekdays && Yyyymmdd(date) in holidays
    ensures !Reloads(TokenAsWritten([a]), TokenAsWritten([a.(skipHolidays := true)]))
    ensures AnyFires([a], date, holidays) && !AnyFires([a.(skipHolidays := true)], date, holidays)
  {
    SkipKeepsTokenAsWritten(a, true);
    assert Fires([a][0], date, holidays);
  }

  lemma SkipKeepsTokenAsWritten(a: Alarm, skip: bool)
    ensures TokenAsWritten([a]) == TokenAsWritten([a.(skipHolidays := skip)])
  {
    var b := a.(skipHolidays := skip);
    assert b.repeatWeekdays == a.repeatWeekdays && b.targetDate == a.targetDate;
    assert TokenAsWritten([a])[0] == TokenAsWritten([b])[0];
  }

  lemma SameSortSameMembers(xs: seq<int>, ys: seq<int>)
    requires Sort(xs, Value) == Sort(ys, Value)
    ensures |xs| == |ys| && forall w :: w in xs <==> w in ys
  {
    SortByValueIff(xs, ys);
    assert |xs| == |multiset(xs)| == |multiset(ys)| == |ys|;
    assert forall w :: w in xs <==> w in multiset(xs);
    assert forall w :: w in ys <==> w in multiset(ys);
  }

  /** Equal parts mean the alarm fires on the same days. */
  lemma PartDecidesFiring(a: Alarm, b: Alarm, date: Instant, holidays: set<string>)
    requires Token([a]) == Token([b])
    ensures Fires(a, date, holidays) == Fires(b, date, holidays)
  {
    assert Token([a])[0] == Token([b])[0];
    SameSortSameMembers(a.repeatWeekdays, b.repeatWeekdays);
  }

  /**
   * With the skip flag in the token, an unchanged token means unchanged blue
   * dots: every day has alarms in one list exactly when it has in the other.
   */
  lemma TokenDecidesBlueDots(xs: seq<Alarm>, ys: seq<Alarm>, date: Instant, holidays: set<string>)
    requires !Reloads(Token(xs), Token(ys))
    ensures AnyFires(xs, date, holidays) <==> AnyFires(ys, date, holidays)
  {
    assert |xs| == |ys|;
    forall i | 0 <= i < |xs| ensures Fires(xs[i], date, holidays) == Fires(ys[i], date, holidays) {
      assert Token(xs)[i] == Token(ys)[i];
      assert Token([xs[i]])[0] == Token(xs)[i];
      assert Token([ys[i]])[0] == Token(ys)[i];
      PartDecidesFiring(xs[i], ys[i], date, holidays);
    }
  }
}
