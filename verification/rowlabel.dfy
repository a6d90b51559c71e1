/**
 * What a row of the alarm list shows besides the time (`AlarmRowView`): the
 * repeat summary, the holiday badge, and the commute line's travel minutes
 * and transport icon.
 */
module RowLabel {
  import opened Wrappers
  import opened Decimal
  import opened TimeModel
  import opened AlarmModel
  import opened Commute
  import opened Sorting
  import opened Seqs

  /** Names of the lunar months 1–12. */
  const LunarMonthNames: seq<string> :=
    ["正月", "二月", "三月", "四月", "五月", "六月",
     "七月", "八月", "九月", "十月", "冬月", "腊月"]

  /** Names of the lunar days 1–30. */
  const LunarDayNames: seq<string> :=
    ["初一", "初二", "初三", "初四", "初五", "初六", "初七", "初八", "初九", "初十",
     "十一", "十二", "十三", "十四", "十五", "十六", "十七", "十八", "十九", "二十",
     "廿一", "廿二", "廿三", "廿四", "廿五", "廿六", "廿七", "廿八", "廿九", "三十"]

  /** A lunar month's name, or the number followed by 月 outside 1–12. */
  function MonthName(m: int): (r: string)
    ensures 1 <= m <= 12 ==> r == LunarMonthNames[m - 1]
    ensures !(1 <= m <= 12) ==> r == IntString(m) + "月"
  {
    if 1 <= m <= 12 then LunarMonthNames[m - 1] else IntString(m) + "月"
  }

  /** A lunar day's name, or the number followed by 日 outside 1–30. */
  function DayName(d: int): (r: string)
    ensures 1 <= d <= 30 ==> r == LunarDayNames[d - 1]
    ensures !(1 <= d <= 30) ==> r == IntString(d) + "日"
  {
    if 1 <= d <= 30 then LunarDayNames[d - 1] else IntString(d) + "日"
  }

  /**
   * `repeatLabel`. Localised texts are their keys; a one-time alarm's date is
   * shown with the system's date format, kept here as the date itself.
   */
  datatype RepeatLabel =
    | LunarDate(text: string)
    | OnDate(date: Instant)
    | Once
    | EveryDay
    | Weekdays
    | Weekends
    | Days(text: string)

  /** The weekdays in ascending order. */
  function SortedDays(a: Alarm): (r: seq<int>)
    ensures multiset(r) == multiset(a.repeatWeekdays)
    ensures SortedBy(r, Value)
  {
    Sort(a.repeatWeekdays, Value)
  }

  /** The short symbols of the entries in 1…7, in order; other entries are dropped. */
  function Symbols(days: seq<int>, symbols: seq<string>): (r: seq<string>)
    requires |symbols| == 7
    ensures |r| <= |days|
    ensures (forall i :: 0 <= i < |days| ==> 1 <= days[i] <= 7) ==> |r| == |days|
    ensures forall i :: 0 <= i < |r| ==> r[i] in symbols
    ensures (forall i :: 0 <= i < |days| ==> 1 <= days[i] <= 7) ==>
      forall i :: 0 <= i < |r| ==> r[i] == symbols[days[i] - 1]
    decreases |days|
  {
    if days == [] then []
    else if 1 <= days[0] <= 7 then
      assert forall i :: 1 <= i < |days| ==> days[1..][i - 1] == days[i];
      [symbols[days[0] - 1]] + Symbols(days[1..], symbols)
    else Symbols(days[1..], symbols)
  }

  /** `repeatLabel` with the calendar's short weekday symbols, Sunday first. */
  function Summary(a: Alarm, symbols: seq<string>): (r: RepeatLabel)
    requires |symbols| == 7
  {
    if a.isLunar then LunarDate("农历 " + MonthName(a.lunarMonth) + DayName(a.lunarDay))
    else if !IsRepeating(a) then
      (match a.targetDate
       case Some(date) => OnDate(date)
       case None => Once)
    else WeeklySummary(SortedDays(a), symbols)
  }

  /** The summary of a weekly alarm from its sorted weekdays. */
  function WeeklySummary(sorted: seq<int>, symbols: seq<string>): (r: RepeatLabel)
    requires |symbols| == 7
  {
    if |sorted| == 7 then EveryDay
    else if sorted == [2, 3, 4, 5, 6] then Weekdays
    else if sorted == [1, 7] then Weekends
    else Days(Join(Symbols(sorted, symbols), " "))
  }

  /** The lunar check comes first: weekdays and target date do not matter to a lunar alarm's label. */
  lemma LunarLabelFirst(a: Alarm, symbols: seq<string>, days: seq<int>, target: Option<Instant>)
    requires |symbols| == 7 && a.isLunar
    ensures Summary(a, symbols) == Summary(a.(repeatWeekdays := days, targetDate := target), symbols)
    ensures Summary(a, symbols).LunarDate?
    ensures 1 <= a.lunarMonth <= 12 && 1 <= a.lunarDay <= 30 ==>
      Summary(a, symbols).text == "农历 " + LunarMonthNames[a.lunarMonth - 1] + LunarDayNames[a.lunarDay - 1]
  {
  }

  /** Which non-lunar alarms read "Once" or their date. */
  lemma OneTimeLabels(a: Alarm, symbols: seq<string>)
    requires |symbols| == 7 && !a.isLunar
    ensures Summary(a, symbols) == Once <==> a.repeatWeekdays == [] && a.targetDate.None?
    ensures Summary(a, symbols).OnDate? <==> a.repeatWeekdays == [] && a.targetDate.Some?
    ensures Summary(a, symbols).OnDate? ==> Summary(a, symbols).date == a.targetDate.value
  {
    if IsRepeating(a) {
      var w := WeeklySummary(SortedDays(a), symbols);
      assert Summary(a, symbols) == w;
      assert w != Once && !w.OnDate?;
    }
  }

  /** "Every Day" for seven entries, whatever they are. */
  lemma EveryDayLabel(a: Alarm, symbols: seq<string>)
    requires |symbols| == 7 && !a.isLunar
    ensures Summary(a, symbols) == EveryDay <==> |a.repeatWeekdays| == 7
  {
    assert |SortedDays(a)| == |multiset(a.repeatWeekdays)| == |a.repeatWeekdays|;
  }

  /** "Weekdays" for exactly Monday to Friday, each once, in any order. */
  lemma WeekdaysLabel(a: Alarm, symbols: seq<string>)
    requires |symbols| == 7 && !a.isLunar
    ensures Summary(a, symbols) == Weekdays <==> multiset(a.repeatWeekdays) == multiset([2, 3, 4, 5, 6])
  {
    SortedBySmall();
    SortedMatches(a, [2, 3, 4, 5, 6]);
    WeeklySummaryNames(SortedDays(a), symbols);
  }

  /** "Weekends" for exactly Sunday and Saturday, each once, in any order. */
  lemma WeekendsLabel(a: Alarm, symbols: seq<string>)
    requires |symbols| == 7 && !a.isLunar
    ensures Summary(a, symbols) == Weekends <==> multiset(a.repeatWeekdays) == multiset([1, 7])
  {
    SortedBySmall();
    SortedMatches(a, [1, 7]);
    WeeklySummaryNames(SortedDays(a), symbols);
  }

  lemma SortedBySmall()
    ensures SortedBy([2, 3, 4, 5, 6], Value) && SortedBy([1, 7], Value)
  {
  }

  lemma WeeklySummaryNames(sorted: seq<int>, symbols: seq<string>)
    requires |symbols| == 7
    ensures WeeklySummary(sorted, symbols) == Weekdays <==> sorted == [2, 3, 4, 5, 6]
    ensures WeeklySummary(sorted, symbols) == Weekends <==> sorted == [1, 7]
  {
  }

  /** The sorted weekdays equal an ascending list exactly when the elements agree. */
  lemma SortedMatches(a: Alarm, days: seq<int>)
    requires SortedBy(days, Value)
    ensures SortedDays(a) == days <==> multiset(a.repeatWeekdays) == multiset(days)
  {
    if multiset(a.repeatWeekdays) == multiset(days) {
      SortedUnique(SortedDays(a), days);
    }
  }

  /** Reordering the weekdays never changes the summary. */
  lemma LabelIgnoresOrder(a: Alarm, days: seq<int>, symbols: seq<string>)
    requires |symbols| == 7 && multiset(days) == multiset(a.repeatWeekdays)
    ensures Summary(a.(repeatWeekdays := days), symbols) == Summary(a, symbols)
  {
    SortByValueIff(days, a.repeatWeekdays);
    assert |days| == |multiset(days)| == |a.repeatWeekdays|;
  }

  // ---------------------------------------------------------------------------
  // Badges and the commute line

  /** The holiday badge next to the repeat summary. */
  predicate SummaryBadge(a: Alarm) {
    a.skipHolidays && !a.commuteEnabled
  }

  /** The commute line, shown for a commute alarm with a destination name. */
  predicate CommuteLine(a: Alarm) {
    a.commuteEnabled && a.commuteDestinationName != ""
  }

  /** The holiday badge on the commute line. */
  predicate CommuteBadge(a: Alarm) {
    CommuteLine(a) && a.skipHolidays
  }

  /**
   * A row shows the holiday badge at most once, and shows it exactly when the
   * alarm skips holidays and, for a commute alarm, has a destination name.
   */
  lemma HolidayBadgeOnce(a: Alarm)
    ensures !(SummaryBadge(a) && CommuteBadge(a))
    ensures SummaryBadge(a) || CommuteBadge(a) <==>
      a.skipHolidays && (!a.commuteEnabled || a.commuteDestinationName != "")
  {
  }

  /** The "~n min" text: the truncated travel minutes, shown only when positive. */
  function TravelText(a: Alarm): (r: Option<int>)
    ensures r.Some? <==> a.commuteTravelSeconds >= 60
    ensures r.Some? ==> r.value >= 1 && r.value * 60 <= a.commuteTravelSeconds < r.value * 60 + 60
  {
    var minutes := TravelMinutes(a.commuteTravelSeconds);
    if minutes > 0 then Some(minutes) else None
  }

  /** The transport icon, "car.fill" for an unknown raw value. */
  function Icon(a: Alarm): (r: string)
    ensures r == SystemImage(OrAutomobile(a.commuteTransportType))
  {
    match FromRaw(a.commuteTransportType)
    case Some(t) => SystemImage(t)
    case None => "car.fill"
  }
}
