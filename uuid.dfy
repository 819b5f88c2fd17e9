/**
 * `isUuid`, shared by every route: a value is accepted when it is a string
 * matching `/^[0-9a-f]{8}-[0-9a-f]{4}-[1-5][0-9a-f]{3}-[89ab][0-9a-f]{3}-[0-9a-f]{12}$/i`,
 * the textual form of RFC 4122 (section 3) restricted to versions 1 to 5
 * (section 4.1.3) and the RFC 4122 variant (section 4.1.1).
 */
module Uuid {
  import opened Wrappers
  import opened Js
  import opened Regex

  /** `[0-9a-f]` under the `i` flag. */
  const Hex: set<char> := {
    '0', '1', '2', '3', '4', '5', '6', '7', '8', '9',
    'a', 'b', 'c', 'd', 'e', 'f', 'A', 'B', 'C', 'D', 'E', 'F'
  }
  /** `[1-5]`: the version nibble. */
  const Version: set<char> := {'1', '2', '3', '4', '5'}
  /** `[89ab]` under the `i` flag: the variant nibble. */
  const Variant: set<char> := {'8', '9', 'a', 'b', 'A', 'B'}
  const Dash: set<char> := {'-'}

  /** The pattern, node for node. */
  const Pattern: seq<Node> :=
    Rep(Hex, 8) + [Char(Dash)] +
    Rep(Hex, 4) + [Char(Dash)] +
    [Char(Version)] + Rep(Hex, 3) + [Char(Dash)] +
    [Char(Variant)] + Rep(Hex, 3) + [Char(Dash)] +
    Rep(Hex, 12)

  predicate IsUuidString(s: string) {
    Matches(Pattern, s)
  }

  /** `isUuid(value)`: `typeof value === "string" && uuidRegex.test(value)`;
      `None` stands for `undefined`. */
  predicate IsUuid(v: Option<Json>) {
    v.Some? && v.value.JStr? && IsUuidString(v.value.s)
  }

  // ---------------------------------------------------------------------------
  // An independent description: position by position
  // ---------------------------------------------------------------------------

  /** The characters allowed at position `k` of a UUID. */
  function ClassAt(k: nat): set<char> {
    if k == 8 || k == 13 || k == 18 || k == 23 then Dash
    else if k == 14 then Version
    else if k == 19 then Variant
    else Hex
  }

  predicate UuidShape(s: string) {
    |s| == 36 && forall k | 0 <= k < 36 :: s[k] in ClassAt(k)
  }

  lemma PatternIsFlat()
    ensures |Pattern| == 36 && IsFlat(Pattern)
    ensures forall k | 0 <= k < 36 :: Pattern[k].cls == ClassAt(k)
  {
  }

  /** The regular expression accepts exactly the strings of length 36 with `-`
      at indices 8, 13, 18 and 23, a version digit `1`-`5` at index 14, a
      variant character `8`, `9`, `a`, `b`, `A` or `B` at index 19 and a hex
      digit of either case everywhere else. */
  lemma UuidIffShape(s: string)
    ensures IsUuidString(s) <==> UuidShape(s)
  {
    PatternIsFlat();
    MatchFlat(Pattern, [], s, 0);
    assert Pattern + [] == Pattern;
  }

  /** Every accepted UUID is five groups of hex digits of lengths 8, 4, 4, 4
      and 12 joined by `-`. */
  lemma UuidGroups(s: string)
    requires IsUuidString(s)
    ensures |s| == 36 && s[8] == '-' && s[13] == '-' && s[18] == '-' && s[23] == '-'
    ensures forall k | 0 <= k < 36 && k != 8 && k != 13 && k != 18 && k != 23 :: s[k] in Hex
  {
    UuidIffShape(s);
    assert s[8] in ClassAt(8) && s[13] in ClassAt(13) && s[18] in ClassAt(18) && s[23] in ClassAt(23);
  }

  /** `isUuid` rejects every value that is not a string. */
  lemma NonStringsRejected(v: Option<Json>)
    requires v.None? || !v.value.JStr?
    ensures !IsUuid(v)
  {
  }

  // ---------------------------------------------------------------------------
  // Case-insensitivity
  // ---------------------------------------------------------------------------

  function AsciiLower(c: char): char {
    if 'A' <= c <= 'Z' then (c as int + 32) as char else c
  }

  function LowerString(s: string): (r: string)
    ensures |r| == |s| && forall k | 0 <= k < |s| :: r[k] == AsciiLower(s[k])
  {
    if s == [] then [] else [AsciiLower(s[0])] + LowerString(s[1..])
  }

  lemma LowerKeepsClass(c: char, k: nat)
    ensures AsciiLower(c) in ClassAt(k) <==> c in ClassAt(k)
  {
  }

  /** The `i` flag: a string is accepted exactly when its lower-case form is. */
  lemma CaseInsensitive(s: string)
    ensures IsUuidString(s) <==> IsUuidString(LowerString(s))
  {
    UuidIffShape(s);
    UuidIffShape(LowerString(s));
    forall k | 0 <= k < |s| ensures LowerString(s)[k] in ClassAt(k) <==> s[k] in ClassAt(k) {
      LowerKeepsClass(s[k], k);
    }
  }

  // ---------------------------------------------------------------------------
  // What is rejected
  // ---------------------------------------------------------------------------

  /** A string whose version nibble (index 14) is not `1` to `5` is rejected;
      this excludes the nil UUID and versions 6 to 8 of RFC 9562. */
  lemma VersionChecked(s: string)
    requires |s| == 36 && s[14] !in Version
    ensures !IsUuidString(s)
  {
    UuidIffShape(s);
    assert s[14] !in ClassAt(14);
  }

  /** A string whose variant character (index 19) is not one of `89abAB` is
      rejected. */
  lemma VariantChecked(s: string)
    requires |s| == 36 && s[19] !in Variant
    ensures !IsUuidString(s)
  {
    UuidIffShape(s);
    assert s[19] !in ClassAt(19);
  }
}
