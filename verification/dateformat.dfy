/**
 * The two fixed date formats of the app: the holiday key `yyyy-MM-dd`
 * (the extended calendar-date form of section 4.1.2.2 of ISO 8601:2004,
 * POSIX locale, local zone) and the 24-hour `HH:mm` time string.
 */
module DateFormat {
  import opened TimeModel
  import opened Civil
  import opened Decimal

  /** The `yyyy` field counts years within an era: 1 BC prints as 0001. */
  function YearOfEra(y: int): (r: nat)
    ensures r >= 1
  {
    if y >= 1 then y else 1 - y
  }

  /** Local calendar year of `t`, as `Calendar.component(.year, from:)` gives it. */
  function CalendarYear(t: Instant): int {
    YearOfEra(CivilFromDays(Day(t)).year)
  }

  /** Renders a calendar date as `yyyy-MM-dd`. */
  function YmdKey(c: Ymd): (s: string)
    requires ValidYmd(c)
    ensures |s| >= 10
    ensures YearOfEra(c.year) <= 9999 ==> |s| == 10 && s[4] == '-' && s[7] == '-'
    ensures YearOfEra(c.year) <= 9999 ==>
      forall i :: 0 <= i < 10 && i != 4 && i != 7 ==> IsDigit(s[i])
  {
    Padded(YearOfEra(c.year), 4) + "-" + Padded(c.month, 2) + "-" + Padded(c.day, 2)
  }

  /** Key of day number `d`. */
  function DayKey(d: int): (s: string)
    ensures |s| >= 10
  {
    CivilFromDaysValid(d);
    YmdKey(CivilFromDays(d))
  }

  /** `Date.yyyyMMdd`. */
  function Yyyymmdd(t: Instant): (s: string)
    ensures YearOfEra(CivilFromDays(Day(t)).year) <= 9999 ==> |s| == 10 && s[4] == '-' && s[7] == '-'
  {
    CivilFromDaysValid(Day(t));
    YmdKey(CivilFromDays(Day(t)))
  }

  /** `Date.timeString`: zero-padded 24-hour `HH:mm`. */
  function TimeString(t: Instant): (s: string)
    ensures |s| == 5 && s[2] == ':'
    ensures AllDigits(s[..2]) && AllDigits(s[3..])
    ensures Parse(s[..2]) == HourOf(t) && Parse(s[3..]) == MinuteOf(t)
  {
    var h := Padded(HourOf(t), 2);
    var m := Padded(MinuteOf(t), 2);
    PaddedRoundTrip(HourOf(t), 2);
    PaddedRoundTrip(MinuteOf(t), 2);
    var s := h + ":" + m;
    assert s[..2] == h && s[3..] == m;
    s
  }

  /** Two instants show the same `HH:mm` exactly when hour and minute agree. */
  lemma TimeStringSameIff(t1: Instant, t2: Instant)
    ensures TimeString(t1) == TimeString(t2)
      <==> HourOf(t1) == HourOf(t2) && MinuteOf(t1) == MinuteOf(t2)
  {
    if TimeString(t1) == TimeString(t2) {
      assert TimeString(t1)[..2] == TimeString(t2)[..2];
      assert TimeString(t1)[3..] == TimeString(t2)[3..];
    }
  }

  /** The date parts of a key can be read back from its fixed-width tail. */
  lemma YmdKeyParts(c: Ymd)
    requires ValidYmd(c)
    ensures var s := YmdKey(c);
      && s[..|s| - 6] == Padded(YearOfEra(c.year), 4)
      && s[|s| - 5..|s| - 3] == Padded(c.month, 2)
      && s[|s| - 2..] == Padded(c.day, 2)
  {
  }

  /** On dates of the common era, the key determines the date. */
  lemma YmdKeyInjective(a: Ymd, b: Ymd)
    requires ValidYmd(a) && ValidYmd(b) && a.year >= 1 && b.year >= 1
    requires YmdKey(a) == YmdKey(b)
    ensures a == b
  {
    YmdKeyParts(a);
    YmdKeyParts(b);
    PaddedInjective(YearOfEra(a.year), YearOfEra(b.year), 4);
    PaddedInjective(a.month, b.month, 2);
    PaddedInjective(a.day, b.day, 2);
  }

  /**
   * Two common-era days share a key exactly when they are the same day; in
   * particular two instants of one local day share their key.
   */
  lemma DayKeySameIff(d1: int, d2: int)
    requires CivilFromDays(d1).year >= 1 && CivilFromDays(d2).year >= 1
    ensures DayKey(d1) == DayKey(d2) <==> d1 == d2
  {
    if DayKey(d1) == DayKey(d2) {
      CivilFromDaysValid(d1);
      CivilFromDaysValid(d2);
      YmdKeyInjective(CivilFromDays(d1), CivilFromDays(d2));
      CivilFromDaysInjective(d1, d2);
    }
  }
}
