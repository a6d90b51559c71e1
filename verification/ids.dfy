/**
 * Identifiers: `UUID.uuidString` values and the prefix test that the
 * notification service uses to find an alarm's requests.
 */
module Ids {
  import opened Wrappers

  predicate IsUpperHex(c: char) {
    ('0' <= c <= '9') || ('A' <= c <= 'F')
  }

  /** Canonical 8-4-4-4-12 upper-case form, as `uuidString` renders a UUID. */
  predicate IsUuidString(s: string) {
    && |s| == 36
    && forall i :: 0 <= i < 36 ==>
         if i == 8 || i == 13 || i == 18 || i == 23 then s[i] == '-' else IsUpperHex(s[i])
  }

  type Uuid = s: string | IsUuidString(s) witness "00000000-0000-0000-0000-000000000000"

  /** Swift's `hasPrefix`. */
  predicate StartsWith(s: string, prefix: string) {
    |prefix| <= |s| && s[..|prefix|] == prefix
  }

  /** `UUID(uuidString:)` on canonical strings: parses exactly the canonical form. */
  function ParseUuid(s: string): (r: Option<Uuid>)
    ensures r.Some? <==> IsUuidString(s)
    ensures r.Some? ==> r.value == s
  {
    if IsUuidString(s) then Some(s) else None
  }

  /** Parsing what `uuidString` renders gives the same identifier back. */
  lemma ParseUuidRoundTrip(u: Uuid)
    ensures ParseUuid(u) == Some(u)
  {
  }

  /**
   * Parsing rejects a string of the wrong length, one missing a separator,
   * and one holding a character that is neither a hexadecimal digit nor '-'.
   */
  lemma ParseUuidRejects(s: string)
    ensures |s| != 36 ==> ParseUuid(s).None?
    ensures |s| == 36 && (s[8] != '-' || s[13] != '-' || s[18] != '-' || s[23] != '-') ==> ParseUuid(s).None?
    ensures (exists i :: 0 <= i < |s| && s[i] != '-' && !IsUpperHex(s[i]) && !('a' <= s[i] <= 'f')) ==>
      ParseUuid(s).None?
  {
  }

  /** A string begins with at most one uuid string: all have the same length. */
  lemma UuidPrefixUnique(s: string, a: Uuid, b: Uuid)
    requires StartsWith(s, a) && StartsWith(s, b)
    ensures a == b
  {
  }

  /** No uuid string is a prefix of a snooze request identifier. */
  lemma UuidNotPrefixOfSnooze(s: string, a: Uuid)
    requires StartsWith(s, "snooze-")
    ensures !StartsWith(s, a)
  {
    assert s[0] == 's';
    assert IsUpperHex(a[0]);
  }
}
