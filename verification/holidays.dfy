/**
 * The holiday directory: holiday date keys per year, the set of years being
 * fetched, the fetch filter and the durable cache of `HolidayService`.
 */
module Holidays {
  import opened Wrappers
  import opened TimeModel
  import opened DateFormat
  import opened HolidayCache

  /** One entry of the holiday source's answer. */
  datatype HolidayEntry = HolidayEntry(
    holiday: bool,          // true: day off; false: make-up working day
    name: string,
    wage: int,
    date: string,
    after: Option<bool>,
    target: Option<string>)

  datatype HolidayResponse = HolidayResponse(code: int, holiday: map<string, HolidayEntry>)

  /**
   * `byYear` is `holidaysByYear`, `loading` is `loadingYears`, and `stored` is
   * the cache entry under `HolidayCache_v1` (year to array of keys), `None`
   * when absent or undecodable.
   */
  datatype HolidayService = HolidayService(
    byYear: map<int, set<string>>,
    loading: set<int>,
    stored: Option<map<int, seq<string>>>)

  /** `allHolidays`: every key of every loaded year. */
  function AllHolidays(s: HolidayService): set<string> {
    set y, k | y in s.byYear && k in s.byYear[y] :: k
  }

  /** `holidays(for:)`. */
  function HolidaysFor(s: HolidayService, year: int): (r: set<string>)
    ensures year !in s.byYear ==> r == {}
    ensures r <= AllHolidays(s)
  {
    if year in s.byYear then s.byYear[year] else {}
  }

  /** `isHoliday(_:)`: looks only in the bucket of the instant's own year. */
  predicate IsHoliday(s: HolidayService, t: Instant)
  {
    var year := CalendarYear(t);
    year in s.byYear && Yyyymmdd(t) in s.byYear[year]
  }

  /** The union is exactly the per-year sets together. */
  lemma AllHolidaysIsUnion(s: HolidayService, k: string)
    ensures k in AllHolidays(s) <==> exists y :: y in s.byYear && k in HolidaysFor(s, y)
  {
    if k in AllHolidays(s) {
      var y :| y in s.byYear && k in s.byYear[y];
      assert k in HolidaysFor(s, y);
    }
  }

  /** A holiday of an instant's own year is in the union. */
  lemma IsHolidayInAll(s: HolidayService, t: Instant)
    ensures IsHoliday(s, t) <==> Yyyymmdd(t) in HolidaysFor(s, CalendarYear(t))
    ensures IsHoliday(s, t) ==> Yyyymmdd(t) in AllHolidays(s)
  {
  }

  /** The fetch filter: dates of entries marked as days off. */
  function DaysOff(r: HolidayResponse): set<string> {
    set e | e in r.holiday.Values && e.holiday :: e.date
  }

  /** Make-up working days are excluded unless some day-off entry has the same date. */
  lemma DaysOffExcludesWorkdays(r: HolidayResponse, e: HolidayEntry)
    requires e in r.holiday.Values && !e.holiday
    requires forall f :: f in r.holiday.Values && f.holiday ==> f.date != e.date
    ensures e.date !in DaysOff(r)
  {
  }

  /** Every day-off entry is kept. */
  lemma DaysOffKeepsHolidays(r: HolidayResponse, key: string)
    requires key in r.holiday && r.holiday[key].holiday
    ensures r.holiday[key].date in DaysOff(r)
  {
    assert r.holiday[key] in r.holiday.Values;
  }

  /** `saveToCache`: every year's set as an array; loading it gives the map back. */
  method SaveCache(m: map<int, set<string>>) returns (c: map<int, seq<string>>)
    ensures c.Keys == m.Keys
    ensures forall y :: y in c ==> SavedYear(c, m, y)
    ensures LoadCache(c) == m
  {
    c := map[];
    var rest := m.Keys;
    while rest != {}
      invariant rest <= m.Keys
      invariant c.Keys == m.Keys - rest
      invariant forall y :: y in c ==> SavedYear(c, m, y)
      decreases |rest|
    {
      ghost var some := Member(rest);
      var y :| y in rest;
      var xs := SetToArray(m[y]);
      SavedYearStep(c, m, y, xs, c[y := xs]);
      c := c[y := xs];
      rest := rest - {y};
    }
    LoadSaved(c, m);
  }

  /** `init()`: the in-memory map starts from the cache when there is one. */
  function Init(stored: Option<map<int, seq<string>>>): (s: HolidayService)
    ensures s.loading == {}
    ensures stored.None? ==> s.byYear == map[]
    ensures stored.Some? ==> s.byYear.Keys == stored.value.Keys
  {
    HolidayService(if stored.Some? then LoadCache(stored.value) else map[], {}, stored)
  }

  // ---------------------------------------------------------------------------
  // Loading

  /**
   * The effect of one year of the loop: the source is asked exactly when the
   * year is neither loaded nor loading; a successful answer adds the year and
   * saves the cache; nothing else changes, and the loading set is restored.
   */
  predicate Visited(s: HolidayService, y: int, fetch: int -> Option<HolidayResponse>, t: HolidayService, asked: bool) {
    && (asked <==> y !in s.byYear && y !in s.loading)
    && t.loading == s.loading
    && (!asked || fetch(y).None? ==> t.byYear == s.byYear && t.stored == s.stored)
    && (asked && fetch(y).Some? ==>
         && t.byYear == s.byYear[y := DaysOff(fetch(y).value)]
         && t.stored.Some? && LoadCache(t.stored.value) == t.byYear)
  }

  /** What the loop has achieved after visiting the years `done`, starting from `s`. */
  ghost predicate Progress(s: HolidayService, done: seq<int>, fetch: int -> Option<HolidayResponse>,
                     t: HolidayService, fetched: seq<int>) {
    && t.loading == s.loading
    && s.byYear.Keys <= t.byYear.Keys
    && (forall y :: y in s.byYear ==> t.byYear[y] == s.byYear[y])
    && (forall y :: y !in s.byYear ==> (y in t.byYear <==> y in done && y !in s.loading && fetch(y).Some?))
    && (forall y :: y in t.byYear && y !in s.byYear ==> fetch(y).Some? && t.byYear[y] == DaysOff(fetch(y).value))
    && (forall k :: 0 <= k < |fetched| ==> fetched[k] in done && fetched[k] !in s.byYear && fetched[k] !in s.loading)
    && (forall k, j :: 0 <= k < j < |fetched| ==> fetched[k] != fetched[j])
    && (forall y :: y in done && y !in s.byYear && y !in s.loading ==> y in fetched)
    && (t.byYear == s.byYear ==> t.stored == s.stored)
    && (t.byYear != s.byYear ==> t.stored.Some? && LoadCache(t.stored.value) == t.byYear)
  }

  /** Visiting a year not visited before extends the progress by that year. */
  lemma ProgressStep(s: HolidayService, done: seq<int>, fetch: int -> Option<HolidayResponse>,
                     t: HolidayService, fetched: seq<int>, y: int, t': HolidayService, asked: bool)
    requires Progress(s, done, fetch, t, fetched) && y !in done
    requires Visited(t, y, fetch, t', asked)
    ensures Progress(s, done + [y], fetch, t', if asked then fetched + [y] else fetched)
  {
    var fetched' := if asked then fetched + [y] else fetched;
    forall k | 0 <= k < |fetched'|
      ensures fetched'[k] in done + [y] && fetched'[k] !in s.byYear && fetched'[k] !in s.loading
    {
      if k < |fetched| {
        assert fetched'[k] == fetched[k];
      }
    }
  }

  /**
   * One year of `ensureLoaded(for:)`: a year already loaded or loading is
   * skipped; otherwise it is marked as loading, fetched, stored and saved when
   * the fetch succeeds, and unmarked again either way.
   */
  method Visit(s: HolidayService, y: int, fetch: int -> Option<HolidayResponse>)
    returns (t: HolidayService, asked: bool)
    ensures Visited(s, y, fetch, t, asked)
  {
    t := s;
    asked := y !in s.byYear && y !in s.loading;
    if asked {
      t := t.(loading := t.loading + {y});
      match fetch(y) {
        case Some(response) =>
          var byYear := t.byYear[y := DaysOff(response)];
          var c := SaveCache(byYear);
          t := t.(byYear := byYear, stored := Some(c));
        case None =>
      }
      t := t.(loading := t.loading - {y});
    }
  }

  /**
   * `ensureLoaded(for:)`. `years` is the requested set in the order the loop
   * visits it; `fetch(y)` is the source's answer for year `y`, `None` for a
   * network or decoding failure. `fetched` lists the years the source was
   * asked for, in order.
   */
  method EnsureLoaded(s: HolidayService, years: seq<int>, fetch: int -> Option<HolidayResponse>)
    returns (s': HolidayService, fetched: seq<int>)
    requires forall i, j :: 0 <= i < j < |years| ==> years[i] != years[j]
    ensures s'.loading == s.loading
    ensures forall y :: y in s.byYear ==> y in s'.byYear && s'.byYear[y] == s.byYear[y]
    ensures forall y :: y !in s.byYear ==>
      (y in s'.byYear <==> y in years && y !in s.loading && fetch(y).Some?)
    ensures forall y :: y in s'.byYear && y !in s.byYear ==>
      fetch(y).Some? && s'.byYear[y] == DaysOff(fetch(y).value)
    ensures forall i :: 0 <= i < |fetched| ==>
      fetched[i] in years && fetched[i] !in s.byYear && fetched[i] !in s.loading
    ensures forall i, j :: 0 <= i < j < |fetched| ==> fetched[i] != fetched[j]
    ensures forall y :: y in years && y !in s.byYear && y !in s.loading ==> y in fetched
    ensures s'.byYear == s.byYear ==> s'.stored == s.stored
    ensures s'.byYear != s.byYear ==> s'.stored.Some? && LoadCache(s'.stored.value) == s'.byYear
  {
    s' := s;
    fetched := [];
    var i := 0;
    while i < |years|
      invariant 0 <= i <= |years|
      invariant Progress(s, years[..i], fetch, s', fetched)
    {
      var y := years[i];
      assert years[..i + 1] == years[..i] + [y];
      assert y !in years[..i];
      var t, asked := Visit(s', y, fetch);
      ProgressStep(s, years[..i], fetch, s', fetched, y, t, asked);
      s' := t;
      if asked {
        fetched := fetched + [y];
      }
      i := i + 1;
    }
    assert years[..i] == years;
  }
}

/**
 * The durable holiday cache: each year's set of date keys stored as an array
 * (`HolidayCache_v1`), and read back as a set.
 */
module HolidayCache {
  /** Some element of a non-empty set, as evidence that one exists. */
  lemma Member<T>(s: set<T>) returns (y: T)
    requires s != {}
    ensures y in s
  {
    y :| y in s;
  }

  function Elements(xs: seq<string>): set<string> {
    set i | 0 <= i < |xs| :: xs[i]
  }

  /** `loadFromCache` after decoding: each array back to a set. */
  function LoadCache(c: map<int, seq<string>>): (m: map<int, set<string>>)
    ensures m.Keys == c.Keys
  {
    map y | y in c :: Elements(c[y])
  }

  lemma ElementsAppend(xs: seq<string>, x: string)
    ensures Elements(xs + [x]) == Elements(xs) + {x}
  {
    forall e | e in Elements(xs + [x])
      ensures e in Elements(xs) + {x}
    {
      var i :| 0 <= i < |xs + [x]| && (xs + [x])[i] == e;
      if i < |xs| {
        assert xs[i] == e;
      }
    }
    forall e | e in Elements(xs)
      ensures e in Elements(xs + [x])
    {
      var i :| 0 <= i < |xs| && xs[i] == e;
      assert (xs + [x])[i] == e;
    }
    assert (xs + [x])[|xs|] == x;
  }

  /** `Array(set)`: the elements of `s` in some order, each once. */
  method SetToArray(s: set<string>) returns (xs: seq<string>)
    ensures Elements(xs) == s
    ensures |xs| == |s|
  {
    xs := [];
    var rest := s;
    while rest != {}
      invariant Dealt(s, rest, xs)
      decreases rest
    {
      var x :| x in rest;
      DealStep(s, rest, xs, x);
      xs := xs + [x];
      rest := rest - {x};
    }
  }

  /** Part way through `SetToArray`: `xs` lists, each once, what has left `rest`. */
  predicate Dealt(s: set<string>, rest: set<string>, xs: seq<string>) {
    rest !! Elements(xs) && rest + Elements(xs) == s && |xs| == |Elements(xs)|
  }

  lemma DealStep(s: set<string>, rest: set<string>, xs: seq<string>, x: string)
    requires Dealt(s, rest, xs) && x in rest
    ensures Dealt(s, rest - {x}, xs + [x])
  {
    ElementsAppend(xs, x);
    assert x !in Elements(xs);
  }

  predicate SavedYear(c: map<int, seq<string>>, m: map<int, set<string>>, y: int)
    requires y in c
  {
    y in m && Elements(c[y]) == m[y] && |c[y]| == |m[y]|
  }

  lemma SavedYearStep(c: map<int, seq<string>>, m: map<int, set<string>>, y: int, xs: seq<string>,
                      c': map<int, seq<string>>)
    requires forall z :: z in c ==> SavedYear(c, m, z)
    requires y in m && Elements(xs) == m[y] && |xs| == |m[y]|
    requires c' == c[y := xs]
    ensures forall z :: z in c' ==> SavedYear(c', m, z)
  {
  }

  lemma LoadSaved(c: map<int, seq<string>>, m: map<int, set<string>>)
    requires c.Keys == m.Keys
    requires forall z :: z in c ==> SavedYear(c, m, z)
    ensures LoadCache(c) == m
  {
    assert forall y :: y in m ==> LoadCache(c)[y] == m[y];
  }

}
