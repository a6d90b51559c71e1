/**
 * User preferences (`AppSettings`) over the shared `UserDefaults` suite, and
 * the flag shown beside the holiday country (`String.flagEmoji`).
 */
module Settings {
  import opened Wrappers

  /** What the defaults suite can hold under a key, as far as the settings use it. */
  datatype Value = IntValue(i: int) | StringValue(s: string)

  type Defaults = map<string, Value>

  const SnoozeKey := "snoozeMinutes"
  const CountryKey := "holidayCountryCode"
  const RingtoneKey := "ringtone"

  const DefaultSnooze := 9
  const DefaultCountry := "CN"
  const DefaultRingtone := "alarm_classic"

  /** `integer(forKey:)`: 0 when the key holds no integer. */
  function IntegerFor(d: Defaults, key: string): (r: int)
    ensures key !in d ==> r == 0
    ensures key in d && d[key].IntValue? ==> r == d[key].i
  {
    if key in d && d[key].IntValue? then d[key].i else 0
  }

  /** `string(forKey:)`: nil when the key holds no string. */
  function StringFor(d: Defaults, key: string): (r: Option<string>)
    ensures r.Some? <==> key in d && d[key].StringValue?
    ensures r.Some? ==> r.value == d[key].s
  {
    if key in d && d[key].StringValue? then Some(d[key].s) else None
  }

  /** The settings object: its three properties and the suite behind them. */
  datatype AppSettings = AppSettings(snoozeMinutes: int, holidayCountryCode: string, ringtone: string, defaults: Defaults)

  /**
   * `init()`. The device region (`None` when the locale has none) and the
   * codes of the supported holiday countries come from outside this file and
   * are parameters.
   */
  function Init(d: Defaults, region: Option<string>, supported: seq<string>): (s: AppSettings)
    ensures s.defaults == d
    ensures s.snoozeMinutes > 0
  {
    var saved := IntegerFor(d, SnoozeKey);
    var country :=
      match StringFor(d, CountryKey)
      case Some(code) => code
      case None =>
        var r := region.GetOr(DefaultCountry);
        if r in supported then r else DefaultCountry;
    AppSettings(if saved > 0 then saved else DefaultSnooze, country, StringFor(d, RingtoneKey).GetOr(DefaultRingtone), d)
  }

  /** The defaults each property falls back to, and when. */
  lemma InitDefaults(d: Defaults, region: Option<string>, supported: seq<string>)
    ensures var s := Init(d, region, supported);
      && (IntegerFor(d, SnoozeKey) > 0 ==> s.snoozeMinutes == IntegerFor(d, SnoozeKey))
      && (IntegerFor(d, SnoozeKey) <= 0 ==> s.snoozeMinutes == 9)
      && (StringFor(d, CountryKey).Some? ==> s.holidayCountryCode == StringFor(d, CountryKey).value)
      && (StringFor(d, CountryKey).None? && region.Some? && region.value in supported ==> s.holidayCountryCode == region.value)
      && (StringFor(d, CountryKey).None? && (region.None? || region.value !in supported) ==> s.holidayCountryCode == "CN")
      && (StringFor(d, RingtoneKey).Some? ==> s.ringtone == StringFor(d, RingtoneKey).value)
      && (StringFor(d, RingtoneKey).None? ==> s.ringtone == "alarm_classic")
  {
  }

  /**
   * Setting a property (its `didSet`) writes it under its own key; every other
   * key keeps its value.
   */
  function Put(d: Defaults, key: string, v: Value): (r: Defaults)
    ensures r.Keys == d.Keys + {key}
    ensures key in r && r[key] == v
    ensures forall k :: k in d && k != key ==> r[k] == d[k]
  {
    d[key := v]
  }

  function SetSnoozeMinutes(s: AppSettings, v: int): (r: AppSettings)
    ensures r.snoozeMinutes == v && r.holidayCountryCode == s.holidayCountryCode && r.ringtone == s.ringtone
  {
    s.(snoozeMinutes := v, defaults := Put(s.defaults, SnoozeKey, IntValue(v)))
  }

  function SetHolidayCountryCode(s: AppSettings, v: string): (r: AppSettings)
    ensures r.holidayCountryCode == v && r.snoozeMinutes == s.snoozeMinutes && r.ringtone == s.ringtone
  {
    s.(holidayCountryCode := v, defaults := Put(s.defaults, CountryKey, StringValue(v)))
  }

  function SetRingtone(s: AppSettings, v: string): (r: AppSettings)
    ensures r.ringtone == v && r.snoozeMinutes == s.snoozeMinutes && r.holidayCountryCode == s.holidayCountryCode
  {
    s.(ringtone := v, defaults := Put(s.defaults, RingtoneKey, StringValue(v)))
  }

  /** Starting again from the suite reproduces the settings in memory. */
  predicate Persisted(s: AppSettings, region: Option<string>, supported: seq<string>) {
    Init(s.defaults, region, supported) == s
  }

  /** A change the settings screen makes: one property set through its `didSet`. */
  datatype Change = SnoozeTo(minutes: int) | CountryTo(code: string) | RingtoneTo(name: string)

  function ApplyChange(s: AppSettings, c: Change): AppSettings {
    match c
    case SnoozeTo(v) => SetSnoozeMinutes(s, v)
    case CountryTo(v) => SetHolidayCountryCode(s, v)
    case RingtoneTo(v) => SetRingtone(s, v)
  }

  function ApplyChanges(s: AppSettings, changes: seq<Change>): AppSettings
    decreases |changes|
  {
    if changes == [] then s else ApplyChanges(ApplyChange(s, changes[0]), changes[1..])
  }

  /** What `init()` makes of a snooze length it reads back. */
  function Normalized(minutes: int): int {
    if minutes > 0 then minutes else DefaultSnooze
  }

  /**
   * A restart reads back the settings in memory, except that a snooze length
   * that is not positive reads back as 9.
   */
  predicate RestartAgrees(s: AppSettings, region: Option<string>, supported: seq<string>) {
    Init(s.defaults, region, supported) == s.(snoozeMinutes := Normalized(s.snoozeMinutes))
  }

  lemma ChangeKeepsAgreement(s: AppSettings, c: Change, region: Option<string>, supported: seq<string>)
    requires RestartAgrees(s, region, supported)
    ensures RestartAgrees(ApplyChange(s, c), region, supported)
  {
    var r := ApplyChange(s, c);
    match c
    case SnoozeTo(v) =>
      assert IntegerFor(r.defaults, SnoozeKey) == v;
      assert StringFor(r.defaults, CountryKey) == StringFor(s.defaults, CountryKey);
      assert StringFor(r.defaults, RingtoneKey) == StringFor(s.defaults, RingtoneKey);
    case CountryTo(v) =>
      assert StringFor(r.defaults, CountryKey) == Some(v);
      assert IntegerFor(r.defaults, SnoozeKey) == IntegerFor(s.defaults, SnoozeKey);
      assert StringFor(r.defaults, RingtoneKey) == StringFor(s.defaults, RingtoneKey);
    case RingtoneTo(v) =>
      assert StringFor(r.defaults, RingtoneKey) == Some(v);
      assert IntegerFor(r.defaults, SnoozeKey) == IntegerFor(s.defaults, SnoozeKey);
      assert StringFor(r.defaults, CountryKey) == StringFor(s.defaults, CountryKey);
  }

  lemma {:induction false} ChangesKeepAgreement(s: AppSettings, changes: seq<Change>,
                                                region: Option<string>, supported: seq<string>)
    requires RestartAgrees(s, region, supported)
    ensures RestartAgrees(ApplyChanges(s, changes), region, supported)
    decreases |changes|
  {
    if changes != [] {
      ChangeKeepsAgreement(s, changes[0], region, supported);
      ChangesKeepAgreement(ApplyChange(s, changes[0]), changes[1..], region, supported);
    }
  }

  /**
   * From a fresh start, after any sequence of changes, the next start reads
   * back the country and the ringtone in memory, and the snooze length when
   * it is positive (9 minutes otherwise); it reads the same suite.
   */
  lemma RestartAfterChanges(d: Defaults, region: Option<string>, supported: seq<string>, changes: seq<Change>)
    ensures var s := ApplyChanges(Init(d, region, supported), changes);
      var t := Init(s.defaults, region, supported);
      && t.holidayCountryCode == s.holidayCountryCode
      && t.ringtone == s.ringtone
      && t.snoozeMinutes == (if s.snoozeMinutes > 0 then s.snoozeMinutes else 9)
      && t.defaults == s.defaults
  {
    ChangesKeepAgreement(Init(d, region, supported), changes, region, supported);
  }

  /**
   * A snooze length survives a restart exactly when it is positive: a stored
   * 0 or negative value reads back as 9 minutes.
   */
  lemma SnoozeRoundTrip(s: AppSettings, v: int, region: Option<string>, supported: seq<string>)
    requires Persisted(s, region, supported)
    ensures Persisted(SetSnoozeMinutes(s, v), region, supported) <==> v > 0
    ensures Init(SetSnoozeMinutes(s, v).defaults, region, supported).snoozeMinutes == if v > 0 then v else 9
  {
    var r := SetSnoozeMinutes(s, v);
    assert IntegerFor(r.defaults, SnoozeKey) == v;
    assert StringFor(r.defaults, CountryKey) == StringFor(s.defaults, CountryKey);
    assert StringFor(r.defaults, RingtoneKey) == StringFor(s.defaults, RingtoneKey);
  }

  /** A country code survives a restart, whatever the region. */
  lemma CountryRoundTrip(s: AppSettings, v: string, region: Option<string>, supported: seq<string>)
    requires Persisted(s, region, supported)
    ensures Persisted(SetHolidayCountryCode(s, v), region, supported)
    ensures Init(SetHolidayCountryCode(s, v).defaults, None, []).holidayCountryCode == v
  {
    var r := SetHolidayCountryCode(s, v);
    assert StringFor(r.defaults, CountryKey) == Some(v);
    assert IntegerFor(r.defaults, SnoozeKey) == IntegerFor(s.defaults, SnoozeKey);
    assert StringFor(r.defaults, RingtoneKey) == StringFor(s.defaults, RingtoneKey);
  }

  /** A ringtone survives a restart. */
  lemma RingtoneRoundTrip(s: AppSettings, v: string, region: Option<string>, supported: seq<string>)
    requires Persisted(s, region, supported)
    ensures Persisted(SetRingtone(s, v), region, supported)
    ensures Init(SetRingtone(s, v).defaults, region, supported).ringtone == v
  {
    var r := SetRingtone(s, v);
    assert StringFor(r.defaults, RingtoneKey) == Some(v);
    assert IntegerFor(r.defaults, SnoozeKey) == IntegerFor(s.defaults, SnoozeKey);
    assert StringFor(r.defaults, CountryKey) == StringFor(s.defaults, CountryKey);
  }

  // ---------------------------------------------------------------------------
  // The flag of a country code

  /** The distance from 'A' to REGIONAL INDICATOR SYMBOL LETTER A (U+1F1E6). */
  const FlagOffset := 127397

  predicate IsScalar(v: int) {
    (0 <= v < 0xD800) || (0xE000 <= v < 0x11_0000)
  }

  /** `Unicode.Scalar(127397 + value)`: nil when the sum is no scalar value. */
  function Shift(c: char): (r: Option<char>)
    ensures r.Some? <==> c as int + FlagOffset < 0x11_0000
    ensures r.Some? ==> r.value as int == c as int + FlagOffset
  {
    var v := c as int + FlagOffset;
    if IsScalar(v) then Some(v as char) else None
  }

  /** `flagEmoji`: each scalar shifted, in order; the ones that leave the scalar range dropped. */
  function FlagEmoji(s: string): (r: string)
    ensures |r| <= |s|
    ensures forall k :: 0 <= k < |r| ==> Unshiftable(r[k])
    decreases |s|
  {
    if s == [] then []
    else
      match Shift(s[0])
      case Some(c) => [c] + FlagEmoji(s[1..])
      case None => FlagEmoji(s[1..])
  }

  /** U+1F1E6 to U+1F1FF, the letters A to Z of the regional indicators. */
  predicate RegionalIndicator(c: char) {
    0x1F1E6 <= c as int <= 0x1F1FF
  }

  predicate Upper(c: char) {
    'A' <= c <= 'Z'
  }

  /** A character the shift can produce: one flag offset above a scalar value. */
  predicate Unshiftable(c: char) {
    IsScalar(c as int - FlagOffset)
  }

  /** Undo the shift; the partner of `FlagEmoji` on text it keeps whole. */
  function Unflag(r: string): (s: string)
    requires forall k :: 0 <= k < |r| ==> Unshiftable(r[k])
    ensures |s| == |r|
  {
    seq(|r|, k requires 0 <= k < |r| && Unshiftable(r[k]) => (r[k] as int - FlagOffset) as char)
  }

  /** Text whose every scalar can be shifted loses nothing and can be shifted back. */
  lemma {:induction false} FlagEmojiRoundTrip(s: string)
    requires forall k :: 0 <= k < |s| ==> s[k] as int + FlagOffset < 0x11_0000
    ensures |FlagEmoji(s)| == |s|
    ensures Unflag(FlagEmoji(s)) == s
    decreases |s|
  {
    if s != [] {
      FlagEmojiRoundTrip(s[1..]);
      var c := Shift(s[0]).value;
      assert FlagEmoji(s) == [c] + FlagEmoji(s[1..]);
      var u := Unflag(FlagEmoji(s));
      forall k | 0 <= k < |s| ensures u[k] == s[k] {
        if k > 0 {
          assert u[k] == Unflag(FlagEmoji(s[1..]))[k - 1];
        }
      }
    }
  }

  /** Upper-case letters land on the regional indicators, letter for letter. */
  lemma UpperIsIndicator(c: char)
    requires Upper(c)
    ensures Shift(c).Some? && RegionalIndicator(Shift(c).value)
    ensures Shift(c).value as int - 0x1F1E6 == c as int - 'A' as int
  {
  }

  /** A two-letter upper-case code becomes the flag's two regional indicators. */
  lemma TwoLetterFlag(code: string)
    requires |code| == 2 && Upper(code[0]) && Upper(code[1])
    ensures var f := FlagEmoji(code);
      && |f| == 2
      && RegionalIndicator(f[0]) && RegionalIndicator(f[1])
      && f[0] as int - 0x1F1E6 == code[0] as int - 'A' as int
      && f[1] as int - 0x1F1E6 == code[1] as int - 'A' as int
  {
    UpperIsIndicator(code[0]);
    UpperIsIndicator(code[1]);
    assert FlagEmoji(code) == [Shift(code[0]).value] + FlagEmoji(code[1..]);
    assert FlagEmoji(code[1..]) == [Shift(code[1]).value] + FlagEmoji(code[2..]);
  }

  /** No case folding: a lower-case letter shifts past the indicator block. */
  lemma LowerIsNoIndicator(c: char)
    requires 'a' <= c <= 'z'
    ensures Shift(c).Some? && !RegionalIndicator(Shift(c).value)
  {
  }

  /** A code is shown as a flag only when it is upper case; different codes show different flags. */
  lemma FlagsDiffer(a: string, b: string)
    requires |a| == 2 && Upper(a[0]) && Upper(a[1])
    requires |b| == 2 && Upper(b[0]) && Upper(b[1])
    ensures FlagEmoji(a) == FlagEmoji(b) <==> a == b
  {
    TwoLetterFlag(a);
    TwoLetterFlag(b);
    if FlagEmoji(a) == FlagEmoji(b) {
      assert a[0] == b[0] && a[1] == b[1];
    }
  }
}
