/**
 * The proleptic Gregorian calendar over day numbers: day 0 is 1970-01-01,
 * negative numbers count backwards. Days are split into 400-year eras of
 * 146097 days, each era into centuries, four-year blocks and years that start
 * on 1 March, so that every step is linear arithmetic.
 */
module Civil {
  import TimeModel

  datatype Ymd = Ymd(year: int, month: int, day: int)

  /** Days from 0000-03-01 to 1970-01-01. */
  const EpochShift := 719468
  const DaysPerEra := 146097

  predicate IsLeapYear(y: int) {
    y % 4 == 0 && (y % 100 != 0 || y % 400 == 0)
  }

  function DaysInMonth(y: int, m: int): (n: int)
    requires 1 <= m <= 12
    ensures 28 <= n <= 31
  {
    if m == 2 then (if IsLeapYear(y) then 29 else 28)
    else if m == 4 || m == 6 || m == 9 || m == 11 then 30
    else 31
  }

  predicate ValidYmd(c: Ymd) {
    1 <= c.month <= 12 && 1 <= c.day <= DaysInMonth(c.year, c.month)
  }

  /** First day-of-year of the `mp`-th month of a year starting on 1 March. */
  function MonthStart(mp: int): int {
    (153 * mp + 2) / 5
  }

  /** Position of a day inside its era, split into its parts. */
  datatype EraParts = EraParts(era: int, century: int, quad: int, yearInQuad: int, dayOfYear: int)

  function Split(n: int): (p: EraParts)
    ensures 0 <= p.century <= 3 && 0 <= p.quad <= 24 && 0 <= p.yearInQuad <= 3
    ensures 0 <= p.dayOfYear <= 365
    ensures p.dayOfYear == 365 ==> p.yearInQuad == 3 && (p.quad < 24 || p.century == 3)
    ensures n + EpochShift
      == p.era * DaysPerEra + 36524 * p.century + 1461 * p.quad + 365 * p.yearInQuad + p.dayOfYear
  {
    var z := n + EpochShift;
    var era := z / DaysPerEra;
    var doe := z % DaysPerEra;
    var c := if doe == DaysPerEra - 1 then 3 else doe / 36524;
    var doc := doe - 36524 * c;
    var q := doc / 1461;
    var doq := doc - 1461 * q;
    var y1 := if doq == 1460 then 3 else doq / 365;
    EraParts(era, c, q, y1, doq - 365 * y1)
  }

  /** The calendar date of day number `n`. */
  function CivilFromDays(n: int): Ymd {
    var p := Split(n);
    var yoe := 100 * p.century + 4 * p.quad + p.yearInQuad;
    var mp := (5 * p.dayOfYear + 2) / 153;
    var d := p.dayOfYear - MonthStart(mp) + 1;
    var m := if mp < 10 then mp + 3 else mp - 9;
    Ymd(p.era * 400 + yoe + (if m <= 2 then 1 else 0), m, d)
  }

  /** The day number of a calendar date; days past the month's end roll over. */
  function DaysFromCivil(y: int, m: int, d: int): int
    requires 1 <= m <= 12
  {
    var yy := if m <= 2 then y - 1 else y;
    var era := yy / 400;
    var yoe := yy % 400;
    var mp := if m > 2 then m - 3 else m + 9;
    var doy := MonthStart(mp) + d - 1;
    era * DaysPerEra + 365 * yoe + yoe / 4 - yoe / 100 + doy - EpochShift
  }

  lemma MonthOfDayOfYear(doy: int)
    requires 0 <= doy <= 365
    ensures var mp := (5 * doy + 2) / 153;
      0 <= mp <= 11 && MonthStart(mp) <= doy < MonthStart(mp + 1)
  {
  }

  /** The months from March to January have the lengths the month table gives them. */
  lemma MonthLength(y: int, mp: int)
    requires 0 <= mp <= 10
    ensures MonthStart(mp + 1) - MonthStart(mp) == DaysInMonth(y, if mp < 10 then mp + 3 else mp - 9)
  {
  }

  /** The 366th day of a March-based year only occurs when the following February is a leap one. */
  lemma LeapDay(p: EraParts)
    requires 0 <= p.century <= 3 && 0 <= p.quad <= 24 && p.yearInQuad == 3
    requires p.quad < 24 || p.century == 3
    ensures IsLeapYear(p.era * 400 + 100 * p.century + 4 * p.quad + p.yearInQuad + 1)
  {
    var y := p.era * 400 + 100 * p.century + 4 * p.quad + 4;
    assert y == 4 * (p.era * 100 + 25 * p.century + p.quad + 1);
    if p.quad < 24 {
      assert y == 100 * (p.era * 4 + p.century) + (4 * p.quad + 4);
    } else {
      assert y == 400 * (p.era + 1);
    }
  }

  /** Every day number names a valid calendar date. */
  lemma CivilFromDaysValid(n: int)
    ensures ValidYmd(CivilFromDays(n))
  {
    var p := Split(n);
    MonthOfDayOfYear(p.dayOfYear);
    var c := CivilFromDays(n);
    var mp := (5 * p.dayOfYear + 2) / 153;
    if mp < 11 {
      MonthLength(c.year, mp);
    } else if p.dayOfYear == 365 {
      LeapDay(p);
    }
  }

  /** Converting a day number to a date and back is the identity. */
  lemma DaysCivilRoundTrip(n: int)
    ensures var c := CivilFromDays(n); 1 <= c.month <= 12 && DaysFromCivil(c.year, c.month, c.day) == n
  {
    var p := Split(n);
    var c := CivilFromDays(n);
    var mp := (5 * p.dayOfYear + 2) / 153;
    assert 0 <= mp <= 11 && MonthStart(mp) == p.dayOfYear - c.day + 1 by {
      MonthOfDayOfYear(p.dayOfYear);
    }
    var yoe := 100 * p.century + 4 * p.quad + p.yearInQuad;
    TimeModel.DivModOf(yoe, 4, 25 * p.century + p.quad, p.yearInQuad);
    TimeModel.DivModOf(yoe, 100, p.century, 4 * p.quad + p.yearInQuad);
    var yy := p.era * 400 + yoe;
    TimeModel.DivModOf(yy, 400, p.era, yoe);
    assert (if c.month <= 2 then c.year - 1 else c.year) == yy;
    assert (if c.month > 2 then c.month - 3 else c.month + 9) == mp;
  }

  /** Distinct day numbers are distinct dates. */
  lemma CivilFromDaysInjective(a: int, b: int)
    requires CivilFromDays(a) == CivilFromDays(b)
    ensures a == b
  {
    DaysCivilRoundTrip(a);
    DaysCivilRoundTrip(b);
  }

  /** Calendar weekday, 1 = Sunday ... 7 = Saturday; 1970-01-01 was a Thursday. */
  function Weekday(n: int): (w: int)
    ensures 1 <= w <= 7
    ensures w == 5 <==> n % 7 == 0
  {
    (n + 4) % 7 + 1
  }

  lemma WeekdayOfNextDay(n: int)
    ensures Weekday(n + 1) == Weekday(n) % 7 + 1
  {
  }

  /** A week later is the same weekday. */
  lemma WeekdayOfNextWeek(n: int)
    ensures Weekday(n + 7) == Weekday(n)
  {
  }
}
