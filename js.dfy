/**
 * The JavaScript values the route handlers inspect: parsed JSON bodies,
 * numbers as far as `Number.isInteger` can tell them apart, thrown values
 * as a `catch` block sees them, and `String.prototype.trim`.
 */
module Js {
  import opened Wrappers
  import opened Trimming

  /** A JavaScript number, as far as the handlers look at it: a value for which
      `Number.isInteger` holds, or any other number (a fraction, NaN, an infinity). */
  datatype Number = Integer(value: int) | NonInteger

  /** A value that `JSON.parse` can produce. */
  datatype Json =
    | JNull
    | JBool(b: bool)
    | JNum(n: Number)
    | JStr(s: string)
    | JArr(elems: seq<Json>)
    | JObj(fields: map<string, Json>)

  /** A thrown value, as a `catch (err)` block sees it. */
  datatype Thrown = ErrorObject(message: string) | NonErrorValue

  /** `err instanceof Error ? err.message : "Unexpected error"` */
  function CaughtMessage(t: Thrown): (m: string)
    ensures t.ErrorObject? ==> m == t.message
    ensures t.NonErrorValue? ==> m == "Unexpected error"
  {
    match t
    case ErrorObject(message) => message
    case NonErrorValue => "Unexpected error"
  }

  /** `!v || typeof v !== "object"` is false exactly for objects and arrays:
      `null` is falsy and every other JSON value has another `typeof`. */
  predicate IsObject(v: Json) {
    v.JObj? || v.JArr?
  }

  /** The property read `v.key` for a value that is not `null`; `None` is
      `undefined`. Only objects have the own properties looked up here: a
      string, a number, a boolean or an array has none of these names. */
  function Property(v: Json, key: string): (r: Option<Json>)
    requires !v.JNull?
    ensures r.Some? <==> v.JObj? && key in v.fields
    ensures r.Some? ==> r.value == v.fields[key]
  {
    if v.JObj? && key in v.fields then Some(v.fields[key]) else None
  }

  /** The message V8 puts in the TypeError thrown by `null.key`. */
  function NullReadMessage(key: string): string {
    "Cannot read properties of null (reading '" + key + "')"
  }

  /** `typeof v === "number" && Number.isInteger(v) && v >= 0`, giving the value. */
  function NonNegativeInteger(v: Option<Json>): (r: Option<nat>)
    ensures r.Some? <==> (v.Some? && v.value.JNum? && v.value.n.Integer? && v.value.n.value >= 0)
    ensures r.Some? ==> v == Some(JNum(Integer(r.value)))
  {
    if v.Some? && v.value.JNum? && v.value.n.Integer? && v.value.n.value >= 0
    then Some(v.value.n.value)
    else None
  }

  /** `typeof v === "number" && Number.isInteger(v) && v > 0`, giving the value. */
  function PositiveInteger(v: Option<Json>): (r: Option<nat>)
    ensures r.Some? <==> (v.Some? && v.value.JNum? && v.value.n.Integer? && v.value.n.value > 0)
    ensures r.Some? ==> r.value >= 1 && v == Some(JNum(Integer(r.value)))
  {
    if v.Some? && v.value.JNum? && v.value.n.Integer? && v.value.n.value > 0
    then Some(v.value.n.value)
    else None
  }

  // ---------------------------------------------------------------------------
  // String.prototype.trim
  // ---------------------------------------------------------------------------

  /** The characters `trim` removes: ECMAScript WhiteSpace (tab, vertical tab,
      form feed, space, no-break space, the byte order mark and every Zs code
      point: U+1680, U+2000 to U+200A, U+202F, U+205F, U+3000) and
      LineTerminator (line feed, carriage return, line and paragraph
      separators). */
  predicate IsWhitespace(c: char) {
    ('\t' <= c <= '\r') || c == ' ' || c == '\U{00A0}' || c == '\U{1680}'
    || ('\U{2000}' <= c <= '\U{200A}') || c == '\U{2028}' || c == '\U{2029}'
    || c == '\U{202F}' || c == '\U{205F}' || c == '\U{3000}' || c == '\U{FEFF}'
  }

  predicate AllWhitespace(s: string) {
    AllIn(s, IsWhitespace)
  }

  /** `s.trim()` */
  function Trim(s: string): string {
    TrimOf(s, IsWhitespace)
  }

  /** `typeof v === "string" && v.trim().length > 0` */
  predicate IsNonBlank(v: Option<Json>) {
    v.Some? && v.value.JStr? && Trim(v.value.s) != []
  }

  /** `s.trim()` is an infix of `s` with only whitespace around it, and it is
      empty or starts and ends with a character that is not whitespace. */
  lemma TrimIsInfix(s: string)
    ensures var i := TrimStartIndex(s, IsWhitespace); var j := i + |Trim(s)|;
      j <= |s| && Trim(s) == s[i..j]
      && (forall k | 0 <= k < i :: IsWhitespace(s[k]))
      && (forall k | j <= k < |s| :: IsWhitespace(s[k]))
    ensures Trim(s) == [] || (!IsWhitespace(Trim(s)[0]) && !IsWhitespace(Trim(s)[|Trim(s)| - 1]))
  {
    TrimOfIsInfix(s, IsWhitespace);
  }

  /** Trimming leaves nothing exactly when the string is whitespace only. */
  lemma TrimEmptyIff(s: string)
    ensures Trim(s) == [] <==> AllWhitespace(s)
  {
    TrimOfEmptyIff(s, IsWhitespace);
  }

  /** `trim` takes off exactly the whitespace around a string: padding
      `x`, which neither starts nor ends with whitespace, with whitespace on
      both sides and trimming gives `x` back. */
  lemma TrimPadded(p: string, x: string, q: string)
    requires AllWhitespace(p) && AllWhitespace(q)
    requires x == [] || (!IsWhitespace(x[0]) && !IsWhitespace(x[|x| - 1]))
    ensures Trim(p + x + q) == x
  {
    TrimOfPadded(p, x, q, IsWhitespace);
  }

  /** Trimming twice changes nothing more. */
  lemma TrimIdempotent(s: string)
    ensures Trim(Trim(s)) == Trim(s)
  {
    TrimOfIsInfix(s, IsWhitespace);
    TrimPadded([], Trim(s), []);
    assert [] + Trim(s) + [] == Trim(s);
  }
}
