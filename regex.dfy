/**
 * The part of JavaScript regular expressions that the route handlers use:
 * character classes, fixed repetition, `?` groups, `|` alternation and `*` on a
 * character class, anchored at both ends (`^...$`, no flags other than `i`,
 * which is folded into the classes). A pattern is a sequence of nodes; a
 * string matches when the whole of it is consumed. The matcher explores every
 * alternative, as a backtracking engine does, so `test` is true exactly when
 * some way of reading the pattern consumes the string.
 */
module Regex {

  datatype Node =
    | Char(cls: set<char>)                       // one character of `cls`: `[...]`, `\d` or a literal
    | Optional(body: seq<Node>)                  // `(body)?`
    | Either(left: seq<Node>, right: seq<Node>)  // `(left|right)`
    | Repeat(cls: set<char>)                     // `[...]*`: any number of characters of `cls`

  const Digits: set<char> := {'0', '1', '2', '3', '4', '5', '6', '7', '8', '9'}

  function Size(ns: seq<Node>): nat
    decreases ns
  {
    if ns == [] then 0 else NodeSize(ns[0]) + Size(ns[1..])
  }

  function NodeSize(n: Node): nat
    decreases n
  {
    match n
    case Char(_) => 1
    case Repeat(_) => 1
    case Optional(body) => 1 + Size(body)
    case Either(left, right) => 1 + Size(left) + Size(right)
  }

  lemma {:induction false} SizeAppend(a: seq<Node>, b: seq<Node>)
    ensures Size(a + b) == Size(a) + Size(b)
  {
    if a != [] {
      assert (a + b)[0] == a[0];
      assert (a + b)[1..] == a[1..] + b;
      SizeAppend(a[1..], b);
    } else {
      assert a + b == b;
    }
  }

  /** `cls{n}`: `n` consecutive characters of `cls`. */
  function Rep(cls: set<char>, n: nat): (r: seq<Node>)
    ensures |r| == n && forall k | 0 <= k < n :: r[k] == Char(cls)
    ensures IsFlat(r)
  {
    if n == 0 then [] else [Char(cls)] + Rep(cls, n - 1)
  }

  /** `cls+` */
  function Plus(cls: set<char>): seq<Node> {
    [Char(cls), Repeat(cls)]
  }

  /** Can the nodes `ns` consume exactly `s[i..]`? */
  function Match(ns: seq<Node>, s: string, i: nat): bool
    requires i <= |s|
    decreases |s| - i, Size(ns)
  {
    if ns == [] then i == |s|
    else
      assert Size(ns) == NodeSize(ns[0]) + Size(ns[1..]);
      match ns[0]
      case Char(cls) =>
        i < |s| && s[i] in cls && Match(ns[1..], s, i + 1)
      case Optional(body) =>
        SizeAppend(body, ns[1..]);
        Match(body + ns[1..], s, i) || Match(ns[1..], s, i)
      case Either(left, right) =>
        SizeAppend(left, ns[1..]);
        SizeAppend(right, ns[1..]);
        Match(left + ns[1..], s, i) || Match(right + ns[1..], s, i)
      case Repeat(cls) =>
        Match(ns[1..], s, i) || (i < |s| && s[i] in cls && Match(ns, s, i + 1))
  }

  /** `/^pattern$/.test(s)` */
  predicate Matches(pattern: seq<Node>, s: string) {
    Match(pattern, s, 0)
  }

  /** Every character of `s[lo..hi]` belongs to `cls`. */
  predicate InClass(s: string, lo: nat, hi: nat, cls: set<char>)
    requires lo <= hi <= |s|
  {
    forall k | lo <= k < hi :: s[k] in cls
  }

  /** An optional group followed by the rest. */
  lemma MatchOptional(body: seq<Node>, rest: seq<Node>, s: string, i: nat)
    requires i <= |s|
    ensures Match([Optional(body)] + rest, s, i) <==> Match(body + rest, s, i) || Match(rest, s, i)
  {
    var ns := [Optional(body)] + rest;
    assert ns[0] == Optional(body) && ns[1..] == rest;
  }

  /** An alternation followed by the rest. */
  lemma MatchEither(left: seq<Node>, right: seq<Node>, rest: seq<Node>, s: string, i: nat)
    requires i <= |s|
    ensures Match([Either(left, right)] + rest, s, i) <==> Match(left + rest, s, i) || Match(right + rest, s, i)
  {
    var ns := [Either(left, right)] + rest;
    assert ns[0] == Either(left, right) && ns[1..] == rest;
  }

  /** The length of the run of characters of `cls` that starts at `i`. */
  function RunLength(s: string, i: nat, cls: set<char>): (n: nat)
    requires i <= |s|
    ensures i + n <= |s| && InClass(s, i, i + n, cls)
    ensures i + n == |s| || s[i + n] !in cls
    decreases |s| - i
  {
    if i < |s| && s[i] in cls then 1 + RunLength(s, i + 1, cls) else 0
  }

  /** A star over a class is greedy without loss when what follows it can never
      start with a character of the class: it then consumes the whole run. */
  lemma {:induction false} MatchRepeatGreedy(cls: set<char>, rest: seq<Node>, s: string, i: nat)
    requires i <= |s|
    requires forall j | i <= j <= |s| :: Match(rest, s, j) ==> j == |s| || s[j] !in cls
    ensures Match([Repeat(cls)] + rest, s, i) <==> Match(rest, s, i + RunLength(s, i, cls))
    decreases |s| - i
  {
    var ns := [Repeat(cls)] + rest;
    assert ns[0] == Repeat(cls) && ns[1..] == rest;
    if i < |s| && s[i] in cls {
      MatchRepeatGreedy(cls, rest, s, i + 1);
    }
  }

  /** A pattern made of single characters only, such as `[0-9a-f]{8}-[1-5]`. */
  predicate IsFlat(p: seq<Node>) {
    forall k | 0 <= k < |p| :: p[k].Char?
  }

  /** A pattern of single characters followed by `rest` consumes the next
      `|p|` characters, each in the class at its position, and leaves the
      remainder to `rest`. */
  lemma {:induction false} MatchFlat(p: seq<Node>, rest: seq<Node>, s: string, i: nat)
    requires i <= |s|
    requires IsFlat(p)
    ensures Match(p + rest, s, i) <==>
      i + |p| <= |s| && (forall k | 0 <= k < |p| :: s[i + k] in p[k].cls) && Match(rest, s, i + |p|)
    decreases |p|
  {
    if p == [] {
      assert p + rest == rest;
    } else {
      var tail := p[1..];
      assert (p + rest)[0] == p[0] && p[0].Char?;
      assert (p + rest)[1..] == tail + rest;
      assert IsFlat(tail) by {
        forall k | 0 <= k < |tail| ensures tail[k].Char? {
          assert tail[k] == p[k + 1];
        }
      }
      if i < |s| {
        MatchFlat(tail, rest, s, i + 1);
        if i + |p| <= |s| {
          if forall k | 0 <= k < |tail| :: s[i + 1 + k] in tail[k].cls {
            if s[i] in p[0].cls {
              forall k | 0 <= k < |p| ensures s[i + k] in p[k].cls {
                if k > 0 {
                  assert s[i + 1 + (k - 1)] in tail[k - 1].cls;
                }
              }
            }
          }
          if forall k | 0 <= k < |p| :: s[i + k] in p[k].cls {
            assert s[i + 0] in p[0].cls;
            forall k | 0 <= k < |tail| ensures s[i + 1 + k] in tail[k].cls {
              assert s[i + (k + 1)] in p[k + 1].cls;
            }
          }
        }
      }
    }
  }
}
