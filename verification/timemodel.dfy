/**
 * Instants are whole seconds of local wall-clock time counted from
 * 1970-01-01 00:00 in a zone with a fixed offset (no daylight saving), so a
 * local calendar day is a block of 86400 consecutive seconds.
 */
module TimeModel {

  type Instant = int

  const SecondsPerDay := 86400

  /** Day number of the local calendar day containing `t`. */
  function Day(t: Instant): int {
    t / SecondsPerDay
  }

  /** `Calendar.startOfDay(for:)`: midnight opening day `d`. */
  function DayStart(d: int): (t: Instant)
    ensures Day(t) == d
  {
    d * SecondsPerDay
  }

  lemma DayStartStep(d: int)
    ensures DayStart(d + 1) == DayStart(d) + SecondsPerDay
  {
  }

  function HourOf(t: Instant): (h: int)
    ensures 0 <= h < 24
  {
    (t % SecondsPerDay) / 3600
  }

  function MinuteOf(t: Instant): (m: int)
    ensures 0 <= m < 60
  {
    (t % 3600) / 60
  }

  /** Hour and minute of `t` as minutes since midnight. */
  function MinuteOfDay(t: Instant): (m: int)
    ensures 0 <= m < 1440
  {
    HourOf(t) * 60 + MinuteOf(t)
  }

  /**
   * `combineDateAndTime`: day `d` at the hour and minute of `time`, second 0.
   * With a fixed offset every wall-clock time exists, so the Swift optional is
   * never nil here.
   */
  function Combine(d: int, time: Instant): (t: Instant)
    ensures Day(t) == d
    ensures HourOf(t) == HourOf(time) && MinuteOf(t) == MinuteOf(time)
    ensures t % 60 == 0
    ensures DayStart(d) <= t < DayStart(d) + SecondsPerDay
  {
    var s := HourOf(time) * 3600 + MinuteOf(time) * 60;
    var t := DayStart(d) + s;
    DivModOf(t, SecondsPerDay, d, s);
    DivModOf(s, 3600, HourOf(time), MinuteOf(time) * 60);
    DivModOf(t, 3600, d * 24 + HourOf(time), MinuteOf(time) * 60);
    DivModOf(MinuteOf(time) * 60, 60, MinuteOf(time), 0);
    DivModOf(t, 60, d * 1440 + HourOf(time) * 60 + MinuteOf(time), 0);
    t
  }

  /** Euclidean division is determined by quotient and remainder. */
  lemma DivModOf(t: int, k: int, q: int, r: int)
    requires k > 0 && 0 <= r < k && t == q * k + r
    ensures t / k == q && t % k == r
  {
    var q0, r0 := t / k, t % k;
    assert (q - q0) * k == r0 - r;
    if q0 < q {
      assert (q - q0) * k >= k by { MulAtLeast(q - q0, k); }
    } else if q < q0 {
      assert (q0 - q) * k >= k by { MulAtLeast(q0 - q, k); }
    }
  }

  lemma MulAtLeast(a: int, k: int)
    requires a >= 1 && k > 0
    ensures a * k >= k
  {
  }

  /** Combined instants on later days are later. */
  lemma CombineMonotone(d1: int, d2: int, time: Instant)
    requires d1 < d2
    ensures Combine(d1, time) < Combine(d2, time)
  {
  }

  /** An instant on a whole minute is its own day combined with its own time. */
  lemma CombineOwnMinute(t: Instant)
    requires t % 60 == 0
    ensures Combine(Day(t), t) == t
  {
    var d, r := Day(t), t % SecondsPerDay;
    var h, r2 := r / 3600, r % 3600;
    DivModOf(t, 3600, d * 24 + h, r2);
    var m := r2 / 60;
    DivModOf(t, 60, d * 1440 + h * 60 + m, r2 % 60);
    assert t == DayStart(d) + HourOf(t) * 3600 + MinuteOf(t) * 60;
  }

  /** The minute containing `t` (what a calendar trigger keeps of it). */
  function MinuteFloor(t: Instant): (r: Instant)
    ensures r <= t < r + 60 && r % 60 == 0
  {
    t - t % 60
  }
}
