/**
 * The home-screen widget: the snapshot the app shares with it
 * (`AlarmWidgetSnapshot`) and the widget's timeline policy
 * (`AlarmTimelineProvider`).
 */
module Widget {
  import opened Wrappers
  import opened TimeModel

  /** What the widget shows about the next alarm. */
  datatype Snapshot = Snapshot(nextAlarmTime: Option<Instant>, nextAlarmTitle: string, nextAlarmRepeatLabel: string)

  const Empty := Snapshot(None, "", "")

  /**
   * The shared store's value under the snapshot key: `None` when nothing is
   * stored or the stored bytes do not decode.
   */
  type Stored = Option<Snapshot>

  /** `AlarmWidgetSnapshot.load()`. */
  function Load(stored: Stored): (r: Snapshot)
    ensures stored.None? ==> r == Empty
    ensures stored.Some? ==> r == stored.value
  {
    stored.GetOr(Empty)
  }

  /** `save()`: the encoded snapshot replaces whatever was stored. */
  function Save(s: Snapshot): (r: Stored)
    ensures r.Some?
  {
    Some(s)
  }

  /** Loading what was saved gives the saved snapshot back. */
  lemma SaveLoadRoundTrip(s: Snapshot)
    ensures Load(Save(s)) == s
  {
  }

  datatype Entry = Entry(date: Instant, snapshot: Snapshot)

  /** A timeline: its entries and the `.after(_:)` reload instant. */
  datatype Timeline = Timeline(entries: seq<Entry>, refreshAt: Instant)

  /** One minute after the alarm fires. */
  const AfterAlarm := 60

  /** Fifteen minutes. */
  const Idle := 900

  /** `placeholder(in:)`. */
  function Placeholder(now: Instant): (e: Entry)
    ensures e.snapshot.nextAlarmTime.None? && e.snapshot.nextAlarmTitle == "" && e.snapshot.nextAlarmRepeatLabel == ""
    ensures e.date == now
  {
    Entry(now, Empty)
  }

  /** `getSnapshot(in:completion:)`. */
  function CurrentEntry(stored: Stored, now: Instant): (e: Entry)
    ensures e.date == now
    ensures e.snapshot == Load(stored)
  {
    Entry(now, Load(stored))
  }

  /**
   * `getTimeline(in:completion:)`. The provider reads the clock three times;
   * the model reads it once.
   */
  function GetTimeline(stored: Stored, now: Instant): (t: Timeline)
  {
    var snapshot := Load(stored);
    var refresh :=
      match snapshot.nextAlarmTime
      case Some(alarm) => if alarm > now then alarm + AfterAlarm else now + Idle
      case None => now + Idle;
    Timeline([Entry(now, snapshot)], refresh)
  }

  /**
   * The timeline holds one entry showing the stored snapshot, and is reloaded
   * one minute after an upcoming alarm, otherwise fifteen minutes from now;
   * either way strictly later than now.
   */
  lemma TimelinePolicy(stored: Stored, now: Instant)
    ensures var t := GetTimeline(stored, now);
      && |t.entries| == 1
      && t.entries[0] == CurrentEntry(stored, now)
      && t.refreshAt > now
      && (forall alarm :: Load(stored).nextAlarmTime == Some(alarm) && alarm > now ==> t.refreshAt == alarm + 60)
      && ((Load(stored).nextAlarmTime.None? || Load(stored).nextAlarmTime.value <= now) ==> t.refreshAt == now + 900)
  {
  }

  /**
   * The reload never comes before the shown alarm has rung, and with no
   * upcoming alarm it comes within fifteen minutes.
   */
  lemma RefreshOutlivesShownAlarm(stored: Stored, now: Instant)
    ensures var t := GetTimeline(stored, now);
      var next := Load(stored).nextAlarmTime;
      && (next.Some? && next.value > now ==> t.refreshAt > next.value)
      && (next.None? || next.value <= now ==> t.refreshAt - now <= 900)
  {
  }

  /** With nothing stored the widget shows the empty snapshot, as the placeholder does. */
  lemma NothingStoredIsPlaceholder(now: Instant)
    ensures CurrentEntry(None, now) == Placeholder(now)
    ensures GetTimeline(None, now).refreshAt == now + 900
  {
  }
}
