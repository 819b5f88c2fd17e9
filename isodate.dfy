/**
 * `isoDateRegex` of the overdue listing:
 * `/^\d{4}-\d{2}-\d{2}([tT ]\d{2}:\d{2}:\d{2}(\.\d+)?(Z|[+-]\d{2}:\d{2})?)?$/`,
 * the calendar date of ISO 8601 (YYYY-MM-DD), optionally followed by a time of
 * day with optional decimal fraction of a second and optional UTC designator
 * or numeric offset. Only the shape is checked: the digits are not
 * range-checked.
 */
module IsoDate {
  import opened Regex

  const Dash: set<char> := {'-'}
  const TimeSeparator: set<char> := {'t', 'T', ' '}
  const Colon: set<char> := {':'}
  const Dot: set<char> := {'.'}
  const Zulu: set<char> := {'Z'}
  const Sign: set<char> := {'+', '-'}

  /** `\d{4}-\d{2}-\d{2}` */
  const DatePart: seq<Node> :=
    Rep(Digits, 4) + [Char(Dash)] + Rep(Digits, 2) + [Char(Dash)] + Rep(Digits, 2)
  /** `[tT ]\d{2}:\d{2}:\d{2}` */
  const ClockPart: seq<Node> :=
    [Char(TimeSeparator)] + Rep(Digits, 2) + [Char(Colon)] + Rep(Digits, 2) + [Char(Colon)] + Rep(Digits, 2)
  /** `\.\d+` */
  const Fraction: seq<Node> := [Char(Dot)] + Plus(Digits)
  /** `[+-]\d{2}:\d{2}` */
  const NumericOffset: seq<Node> := [Char(Sign)] + Rep(Digits, 2) + [Char(Colon)] + Rep(Digits, 2)
  /** `(Z|[+-]\d{2}:\d{2})` */
  const Offset: seq<Node> := [Either([Char(Zulu)], NumericOffset)]
  /** `[tT ]\d{2}:\d{2}:\d{2}(\.\d+)?(Z|[+-]\d{2}:\d{2})?` */
  const TimePart: seq<Node> := ClockPart + [Optional(Fraction), Optional(Offset)]
  /** The whole pattern. */
  const Pattern: seq<Node> := DatePart + [Optional(TimePart)]

  /** `isoDateRegex.test(s)` */
  predicate IsIsoDate(s: string) {
    Matches(Pattern, s)
  }

  // ---------------------------------------------------------------------------
  // An independent description, position by position
  // ---------------------------------------------------------------------------

  /** The characters allowed at position `k` of `YYYY-MM-DDtHH:MM:SS`. */
  function HeadClassAt(k: nat): set<char> {
    if k == 4 || k == 7 then Dash
    else if k == 10 then TimeSeparator
    else if k == 13 || k == 16 then Colon
    else Digits
  }

  /** The first `n` characters fit `YYYY-MM-DDtHH:MM:SS`. */
  predicate HeadShape(s: string, n: nat)
    requires n <= |s|
  {
    forall k | 0 <= k < n :: s[k] in HeadClassAt(k)
  }

  /** The characters allowed at position `k` of `+HH:MM`. */
  function OffsetClassAt(k: nat): set<char> {
    if k == 0 then Sign else if k == 3 then Colon else Digits
  }

  /** `s[j..]` is empty, `Z`, or a numeric offset `+HH:MM` / `-HH:MM`. */
  predicate OffsetShape(s: string, j: nat)
    requires j <= |s|
  {
    j == |s|
    || (j + 1 == |s| && s[j] == 'Z')
    || (j + 6 == |s| && forall k | 0 <= k < 6 :: s[j + k] in OffsetClassAt(k))
  }

  /** After the seconds: an optional `.` with at least one digit (all digits
      taken), then an offset as above. */
  predicate TailShape(s: string, i: nat)
    requires i <= |s|
  {
    if i + 1 < |s| && s[i] == '.' && s[i + 1] in Digits
    then OffsetShape(s, i + 1 + RunLength(s, i + 1, Digits))
    else OffsetShape(s, i)
  }

  /** A bare date of ten characters, or a date and time of at least nineteen
      followed by a well-formed tail. */
  predicate IsoShape(s: string) {
    (|s| == 10 && HeadShape(s, 10)) || (|s| >= 19 && HeadShape(s, 19) && TailShape(s, 19))
  }

  // ---------------------------------------------------------------------------
  // The pattern accepts exactly the strings of that shape
  // ---------------------------------------------------------------------------

  lemma OffsetMatches(s: string, j: nat)
    requires j <= |s|
    ensures Match([Optional(Offset)], s, j) <==> OffsetShape(s, j)
    ensures OffsetShape(s, j) ==> j == |s| || s[j] !in Digits
  {
    assert [Optional(Offset)] == [Optional(Offset)] + [];
    MatchOptional(Offset, [], s, j);
    assert Offset + [] == [Either([Char(Zulu)], NumericOffset)] + [];
    MatchEither([Char(Zulu)], NumericOffset, [], s, j);
    assert IsFlat([Char(Zulu)]) && IsFlat(NumericOffset);
    MatchFlat([Char(Zulu)], [], s, j);
    MatchFlat(NumericOffset, [], s, j);
    assert |NumericOffset| == 6;
    assert forall k | 0 <= k < 6 :: NumericOffset[k].cls == OffsetClassAt(k);
    if j + 1 == |s| && s[j] == 'Z' {
      assert s[j + 0] in [Char(Zulu)][0].cls;
    }
  }

  /** The fraction branch: `.`, one digit, then as many digits as there are,
      then an offset. */
  lemma FractionMatches(s: string, i: nat)
    requires i <= |s|
    ensures Match(Fraction + [Optional(Offset)], s, i) <==>
      i + 1 < |s| && s[i] == '.' && s[i + 1] in Digits && OffsetShape(s, i + 1 + RunLength(s, i + 1, Digits))
  {
    var afterFraction := [Optional(Offset)];
    var lead := [Char(Dot), Char(Digits)];
    assert Fraction + afterFraction == lead + ([Repeat(Digits)] + afterFraction);
    assert IsFlat(lead);
    MatchFlat(lead, [Repeat(Digits)] + afterFraction, s, i);
    if i + 2 <= |s| {
      forall j | i + 2 <= j <= |s| && Match(afterFraction, s, j) ensures j == |s| || s[j] !in Digits {
        OffsetMatches(s, j);
      }
      MatchRepeatGreedy(Digits, afterFraction, s, i + 2);
      OffsetMatches(s, i + 2 + RunLength(s, i + 2, Digits));
      assert (forall k | 0 <= k < 2 :: s[i + k] in lead[k].cls) <==> s[i] in Dot && s[i + 1] in Digits by {
        assert s[i + 0] == s[i] && lead[0].cls == Dot && lead[1].cls == Digits;
      }
      if s[i + 1] in Digits {
        assert RunLength(s, i + 1, Digits) == 1 + RunLength(s, i + 2, Digits);
      }
    }
  }

  lemma TailMatches(s: string, i: nat)
    requires i <= |s|
    ensures Match([Optional(Fraction), Optional(Offset)], s, i) <==> TailShape(s, i)
  {
    assert [Optional(Fraction), Optional(Offset)] == [Optional(Fraction)] + [Optional(Offset)];
    MatchOptional(Fraction, [Optional(Offset)], s, i);
    OffsetMatches(s, i);
    FractionMatches(s, i);
    if i < |s| && s[i] == '.' {
      assert s[i + 0] !in OffsetClassAt(0);
    }
  }

  lemma HeadFlat()
    ensures |DatePart| == 10 && IsFlat(DatePart)
    ensures forall k | 0 <= k < 10 :: DatePart[k].cls == HeadClassAt(k)
    ensures |ClockPart| == 9 && IsFlat(ClockPart)
    ensures forall k | 0 <= k < 9 :: ClockPart[k].cls == HeadClassAt(10 + k)
  {
  }

  /** `isoDateRegex` accepts exactly the strings described by `IsoShape`. */
  lemma IsoIffShape(s: string)
    ensures IsIsoDate(s) <==> IsoShape(s)
  {
    HeadFlat();
    MatchFlat(DatePart, [Optional(TimePart)], s, 0);
    if 10 <= |s| && HeadShape(s, 10) {
      assert forall k | 0 <= k < 10 :: s[0 + k] in DatePart[k].cls;
      assert [Optional(TimePart)] == [Optional(TimePart)] + [];
      MatchOptional(TimePart, [], s, 10);
      assert TimePart + [] == ClockPart + [Optional(Fraction), Optional(Offset)];
      MatchFlat(ClockPart, [Optional(Fraction), Optional(Offset)], s, 10);
      if 19 <= |s| {
        TailMatches(s, 19);
        if HeadShape(s, 19) {
          assert forall k | 0 <= k < 9 :: s[10 + k] in ClockPart[k].cls;
        }
        if forall k | 0 <= k < 9 :: s[10 + k] in ClockPart[k].cls {
          forall k | 0 <= k < 19 ensures s[k] in HeadClassAt(k) {
            if k >= 10 {
              assert s[10 + (k - 10)] in ClockPart[k - 10].cls;
            }
          }
        }
      }
    } else if 10 <= |s| {
      assert !forall k | 0 <= k < 10 :: s[0 + k] in DatePart[k].cls;
    }
  }

  // ---------------------------------------------------------------------------
  // Examples
  // ---------------------------------------------------------------------------

  /** The digits are not range-checked: month 13, day 45 and hour 99 pass. */
  lemma NoRangeCheck()
    ensures IsIsoDate("2024-13-45T99:99:99Z")
  {
    IsoIffShape("2024-13-45T99:99:99Z");
    assert HeadShape("2024-13-45T99:99:99Z", 19);
    assert TailShape("2024-13-45T99:99:99Z", 19);
  }

  /** A fraction needs at least one digit: a `.` after the seconds that is not
      followed by a digit is rejected, whatever comes after it. */
  lemma FractionNeedsDigit(s: string)
    requires |s| >= 20 && s[19] == '.' && (|s| == 20 || s[20] !in Digits)
    ensures !IsIsoDate(s)
  {
    IsoIffShape(s);
    assert s[19 + 0] !in OffsetClassAt(0);
    assert !OffsetShape(s, 19);
    assert !TailShape(s, 19);
  }
}
