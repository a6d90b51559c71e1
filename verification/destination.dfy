/**
 * The destination picker (`DestinationPickerView`): the one-line address under
 * each search result, the guard in front of a search, and what choosing a
 * result writes back to the editor.
 */
module Destination {
  import opened Wrappers
  import opened Seqs
  import opened Editor

  /** The address parts of an `MKPlacemark` the picker reads. */
  datatype Placemark = Placemark(subLocality: Option<string>, locality: Option<string>, administrativeArea: Option<string>)

  /** A part that is present and not empty, as a list of zero or one strings. */
  function Present(part: Option<string>): (r: seq<string>)
    ensures |r| <= 1
    ensures r != [] <==> part.Some? && part.value != ""
    ensures r != [] ==> r[0] == part.value
  {
    if part.Some? && part.value != "" then [part.value] else []
  }

  /**
   * The address parts in the order sub-locality, locality, administrative
   * area, each kept only when present and not empty.
   */
  function Parts(p: Placemark): (r: seq<string>)
    ensures |r| <= 3
    ensures forall k :: 0 <= k < |r| ==> r[k] != ""
  {
    Present(p.subLocality) + Present(p.locality) + Present(p.administrativeArea)
  }

  const Separator := ", "

  /** `briefAddress`: the parts joined by ", ", nil when that is empty. */
  function BriefAddress(p: Placemark): (r: Option<string>)
  {
    var joined := Join(Parts(p), Separator);
    if joined == [] then None else Some(joined)
  }

  predicate Blank(part: Option<string>) {
    part.None? || part.value == ""
  }

  /**
   * No address exactly when every part is missing or empty; otherwise the
   * address is the present parts in the order sub-locality, locality,
   * administrative area, with one ", " between neighbours and none at either
   * end.
   */
  lemma BriefAddressShape(p: Placemark)
    ensures BriefAddress(p).None? <==> Blank(p.subLocality) && Blank(p.locality) && Blank(p.administrativeArea)
    ensures BriefAddress(p).Some? ==>
      && BriefAddress(p).value == Join(Parts(p), ", ")
      && |BriefAddress(p).value| == TotalLength(Parts(p)) + 2 * (|Parts(p)| - 1)
      && Parts(p)[0] <= BriefAddress(p).value
  {
    var parts := Parts(p);
    if parts != [] {
      JoinLength(parts, Separator);
      JoinEnds(parts, Separator);
      assert parts[0] != "";
      assert |Join(parts, Separator)| >= |parts[0]| > 0;
    }
  }

  /** With all three parts present, the address is all three in order. */
  lemma FullAddress(sub: string, city: string, area: string)
    requires sub != "" && city != "" && area != ""
    ensures BriefAddress(Placemark(Some(sub), Some(city), Some(area))) == Some(sub + ", " + city + ", " + area)
  {
    var p := Placemark(Some(sub), Some(city), Some(area));
    var parts := [sub, city, area];
    assert Parts(p) == parts;
    assert parts[..2] == [sub, city];
    assert [sub, city][..1] == [sub];
    assert Join([sub, city], Separator) == sub + ", " + city;
    assert Join(parts, Separator) == Join([sub, city], Separator) + ", " + area;
  }

  /** A missing or empty part leaves no trace, not even a separator. */
  lemma BlankPartSkipped(p: Placemark)
    requires Blank(p.locality)
    ensures BriefAddress(p) == BriefAddress(p.(locality := None))
  {
  }

  // ---------------------------------------------------------------------------
  // Searching

  /**
   * `CharacterSet.whitespaces`: tab and the space separators of Unicode
   * (general category Zs).
   */
  predicate Whitespace(c: char) {
    var v := c as int;
    v == 0x09 || v == 0x20 || v == 0xA0 || v == 0x1680 || (0x2000 <= v <= 0x200A)
    || v == 0x202F || v == 0x205F || v == 0x3000
  }

  function TrimStart(s: string): (r: string)
    ensures |r| <= |s| && r == s[|s| - |r|..]
    ensures r != [] ==> !Whitespace(r[0])
    ensures forall k :: 0 <= k < |s| - |r| ==> Whitespace(s[k])
    decreases |s|
  {
    if s != [] && Whitespace(s[0]) then TrimStart(s[1..]) else s
  }

  function TrimEnd(s: string): (r: string)
    ensures |r| <= |s| && r == s[..|r|]
    ensures r != [] ==> !Whitespace(r[|r| - 1])
    ensures forall k :: |r| <= k < |s| ==> Whitespace(s[k])
    decreases |s|
  {
    if s != [] && Whitespace(s[|s| - 1]) then TrimEnd(s[..|s| - 1]) else s
  }

  /** `trimmingCharacters(in: .whitespaces)`. */
  function Trim(s: string): string {
    TrimEnd(TrimStart(s))
  }

  predicate AllWhitespace(s: string) {
    forall k :: 0 <= k < |s| ==> Whitespace(s[k])
  }

  /** Trimming leaves nothing exactly when every character is white space. */
  lemma TrimEmptyIff(s: string)
    ensures Trim(s) == [] <==> AllWhitespace(s)
  {
    var t := TrimStart(s);
    assert t != [] ==> t[0] == s[|s| - |t|];
  }

  /** What `search(_:)` does with the query. */
  datatype SearchStep =
    | Cleared            // results emptied, no search
    | Started(query: string)  // a local search for the text as typed

  function Search(text: string): (r: SearchStep)
    ensures r.Started? ==> r.query == text
  {
    if Trim(text) == [] then Cleared else Started(text)
  }

  /**
   * A query of white space alone, the empty one included, clears the results
   * and starts nothing; any other query is searched untrimmed.
   */
  lemma SearchGuard(text: string)
    ensures Search(text) == Cleared <==> AllWhitespace(text)
    ensures !AllWhitespace(text) ==> Search(text) == Started(text)
  {
    TrimEmptyIff(text);
  }

  /**
   * A search result: its name and coordinate. Degrees are kept as integers
   * (fixed-point micro-degrees, say); only equality with 0 matters elsewhere.
   */
  datatype MapItem = MapItem(name: Option<string>, latitude: int, longitude: int, placemark: Placemark)

  /** The editor's destination fields the picker writes. */
  datatype Chosen = Chosen(name: string, latitude: int, longitude: int)

  /** `commit(_:)`. */
  function Commit(item: MapItem): (r: Chosen)
    ensures r.latitude == item.latitude && r.longitude == item.longitude
    ensures item.name.Some? ==> r.name == item.name.value
    ensures item.name.None? ==> r.name == ""
  {
    Chosen(item.name.GetOr(""), item.latitude, item.longitude)
  }

  /** Committing a result fills the editor's destination fields. */
  function Apply(f: Form, c: Chosen): (r: Form)
    ensures r.commuteDestName == c.name && r.commuteLatitude == c.latitude && r.commuteLongitude == c.longitude
    ensures r.(commuteDestName := f.commuteDestName, commuteLatitude := f.commuteLatitude,
               commuteLongitude := f.commuteLongitude) == f
  {
    f.(commuteDestName := c.name, commuteLatitude := c.latitude, commuteLongitude := c.longitude)
  }

  /**
   * Latitude 0 stands for "no destination": a commute alarm whose chosen place
   * lies on the equator cannot be saved, while one off the equator can, other
   * things being in order.
   */
  lemma EquatorLooksUnset(f: Form, item: MapItem)
    requires f.commuteEnabled
    ensures item.latitude == 0 ==> !CanSave(Apply(f, Commit(item)))
    ensures item.latitude != 0 && (f.isLunar || !f.isRepeating || f.repeatWeekdays != []) ==>
      CanSave(Apply(f, Commit(item)))
  {
  }
}
