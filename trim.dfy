/**
 * Removing the longest prefix and the longest suffix made of characters that
 * satisfy a given predicate, as `String.prototype.trim` does with the
 * JavaScript whitespace. The trimmed string is described by the two indices
 * where it starts and ends.
 */
module Trimming {
  predicate AllIn(s: string, ws: char -> bool) {
    forall k | 0 <= k < |s| :: ws(s[k])
  }

  /** The first index at or after `i` whose character does not satisfy `ws`,
      or `|s|` when there is none. */
  function SkipForward(s: string, ws: char -> bool, i: nat): (n: nat)
    requires i <= |s|
    ensures i <= n <= |s|
    ensures forall k | i <= k < n :: ws(s[k])
    ensures n == |s| || !ws(s[n])
    decreases |s| - i
  {
    if i < |s| && ws(s[i]) then SkipForward(s, ws, i + 1) else i
  }

  /** Going down from `j`, the last index above `lo` whose predecessor does not
      satisfy `ws`, or `lo` when every character of `s[lo..j]` does. */
  function SkipBackward(s: string, ws: char -> bool, lo: nat, j: nat): (n: nat)
    requires lo <= j <= |s|
    ensures lo <= n <= j
    ensures forall k | n <= k < j :: ws(s[k])
    ensures n == lo || !ws(s[n - 1])
    decreases j
  {
    if lo < j && ws(s[j - 1]) then SkipBackward(s, ws, lo, j - 1) else j
  }

  /** Where the trimmed string starts in `s`. */
  function TrimStartIndex(s: string, ws: char -> bool): nat
    ensures TrimStartIndex(s, ws) <= |s|
  {
    SkipForward(s, ws, 0)
  }

  /** Where the trimmed string ends in `s`. */
  function TrimEndIndex(s: string, ws: char -> bool): nat
    ensures TrimStartIndex(s, ws) <= TrimEndIndex(s, ws) <= |s|
  {
    SkipBackward(s, ws, TrimStartIndex(s, ws), |s|)
  }

  function TrimOf(s: string, ws: char -> bool): string {
    s[TrimStartIndex(s, ws)..TrimEndIndex(s, ws)]
  }

  /** The trimmed string is the part of `s` between a prefix and a suffix whose
      characters all satisfy `ws`, and it neither starts nor ends with such a
      character. */
  lemma TrimOfIsInfix(s: string, ws: char -> bool)
    ensures var i := TrimStartIndex(s, ws); var j := TrimEndIndex(s, ws);
      TrimOf(s, ws) == s[i..j]
      && (forall k | 0 <= k < i :: ws(s[k]))
      && (forall k | j <= k < |s| :: ws(s[k]))
    ensures TrimOf(s, ws) == [] || (!ws(TrimOf(s, ws)[0]) && !ws(TrimOf(s, ws)[|TrimOf(s, ws)| - 1]))
  {
    var i := TrimStartIndex(s, ws);
    var j := TrimEndIndex(s, ws);
    if i < j {
      assert j == |s| || j - 1 >= i;
      assert TrimOf(s, ws)[0] == s[i];
      assert TrimOf(s, ws)[|TrimOf(s, ws)| - 1] == s[j - 1];
    }
  }

  /** Nothing is left exactly when every character satisfies `ws`. */
  lemma TrimOfEmptyIff(s: string, ws: char -> bool)
    ensures TrimOf(s, ws) == [] <==> AllIn(s, ws)
  {
    var i := TrimStartIndex(s, ws);
    var j := TrimEndIndex(s, ws);
    assert |TrimOf(s, ws)| == j - i;
    if i == j {
      assert forall k | 0 <= k < |s| :: ws(s[k]) by {
        forall k | 0 <= k < |s| ensures ws(s[k]) {
          if k >= i {
            assert j <= k < |s|;
          }
        }
      }
    }
  }

  /** Trimming gives back `x` from `x` padded on both sides with characters
      satisfying `ws`, when `x` neither starts nor ends with one. */
  lemma TrimOfPadded(p: string, x: string, q: string, ws: char -> bool)
    requires AllIn(p, ws) && AllIn(q, ws)
    requires x == [] || (!ws(x[0]) && !ws(x[|x| - 1]))
    ensures TrimOf(p + x + q, ws) == x
  {
    var s := p + x + q;
    var i := TrimStartIndex(s, ws);
    var j := TrimEndIndex(s, ws);
    assert forall k | 0 <= k < |p| :: s[k] == p[k];
    assert forall k | |p| + |x| <= k < |s| :: s[k] == q[k - |p| - |x|];
    if x == [] {
      assert AllIn(s, ws);
      TrimOfEmptyIff(s, ws);
    } else {
      assert s[|p|] == x[0] && s[|p| + |x| - 1] == x[|x| - 1];
      assert !ws(s[|p|]) && !ws(s[|p| + |x| - 1]);
      assert i == |p|;
      assert j == |p| + |x|;
      assert s[i..j] == x;
    }
  }
}
