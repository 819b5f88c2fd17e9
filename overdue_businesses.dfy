/**
 * `GET /api/overdue-businesses` (src/app/api/overdue-businesses/route.ts):
 * check the optional date filters and the paging parameters, call the
 * `get_overdue_businesses` stored procedure for one page, and reshape its rows
 * into `{ items, page, pageSize, total }`.
 *
 * `new Date(s).toISOString()` and `Number(x)` are JavaScript runtime
 * conversions on doubles; the handler receives them as the parameters `toIso`
 * (`None`: an invalid date) and `number` (`None` as argument: `undefined`).
 */
module OverdueBusinesses {
  import opened Wrappers
  import opened Js
  import opened IsoDate
  import opened Api

  const DateMessage := "Invalid date format"
  const PageMessage := "page must be a positive integer"
  const PageSizeMessage := "pageSize must be a positive integer up to 100"
  const DefaultPage := 1
  const DefaultPageSize := 20
  const MaxPageSize := 100

  /** `searchParams.get(...)` for the four parameters; `None` is `null`. */
  datatype Query = Query(dueBefore: Option<string>, dueAfter: Option<string>, page: Option<string>, pageSize: Option<string>)

  /** The `get_overdue_businesses` call: `p_due_before`, `p_due_after`,
      `p_limit`, `p_offset`; a `None` filter is sent as `null`. */
  datatype Call = GetOverdueBusinesses(dueBefore: Option<string>, dueAfter: Option<string>, limit: nat, offset: nat)

  /** What the procedure gives: `data` (`None` when it is not an array; each
      row an object), an error object, or an exception. */
  datatype RowsReply =
    | RowsData(rows: Option<seq<map<string, Json>>>)
    | RowsError(message: string)
    | RowsThrew(thrown: Thrown)

  /** A query parameter is truthy when it is present and not empty. */
  predicate Supplied(raw: Option<string>) {
    raw.Some? && raw.value != []
  }

  /** `parseDate`: `null` for a missing or empty value and for a value the
      pattern rejects; otherwise what `new Date(value).toISOString()` gives,
      `null` for an invalid date. */
  function ParseDate(value: Option<string>, toIso: string -> Option<string>): (r: Option<string>)
    ensures !Supplied(value) ==> r.None?
    ensures Supplied(value) && !IsIsoDate(value.value) ==> r.None?
    ensures r.Some? ==> Supplied(value) && IsIsoDate(value.value) && toIso(value.value) == r
    ensures Supplied(value) && IsIsoDate(value.value) ==> r == toIso(value.value)
  {
    if !Supplied(value) then None
    else if !IsIsoDate(value.value) then None
    else toIso(value.value)
  }

  /** `raw && !parsed`: the parameter was given but did not parse to a
      non-empty string. */
  predicate BadDate(raw: Option<string>, parsed: Option<string>) {
    Supplied(raw) && (parsed.None? || parsed.value == [])
  }

  /** `raw ? Number(raw) : fallback` */
  function ParamNumber(raw: Option<string>, fallback: nat, number: Option<Json> -> Number): (n: Number)
    ensures !Supplied(raw) ==> n == Integer(fallback)
    ensures Supplied(raw) ==> n == number(Some(JStr(raw.value)))
  {
    if Supplied(raw) then number(Some(JStr(raw.value))) else Integer(fallback)
  }

  /** `Number.isInteger(page) && page > 0` */
  function ValidPage(n: Number): (r: Option<nat>)
    ensures r.Some? <==> n.Integer? && n.value >= 1
    ensures r.Some? ==> r.value == n.value
  {
    if n.Integer? && n.value >= 1 then Some(n.value) else None
  }

  /** `Number.isInteger(pageSize) && pageSize > 0 && pageSize <= 100` */
  function ValidPageSize(n: Number): (r: Option<nat>)
    ensures r.Some? <==> n.Integer? && 1 <= n.value <= MaxPageSize
    ensures r.Some? ==> r.value == n.value
  {
    if n.Integer? && 1 <= n.value <= MaxPageSize then Some(n.value) else None
  }

  /** `(page - 1) * pageSize`: the number of rows on the pages before `page`. */
  function Offset(page: nat, pageSize: nat): nat
    requires page >= 1
  {
    (page - 1) * pageSize
  }

  /** The guards, in the order they run; each contributes its message when it fails. */
  function Violations(q: Query, toIso: string -> Option<string>, number: Option<Json> -> Number): seq<string> {
    (if BadDate(q.dueBefore, ParseDate(q.dueBefore, toIso)) || BadDate(q.dueAfter, ParseDate(q.dueAfter, toIso))
     then [DateMessage] else [])
    + (if ValidPage(ParamNumber(q.page, DefaultPage, number)).None? then [PageMessage] else [])
    + (if ValidPageSize(ParamNumber(q.pageSize, DefaultPageSize, number)).None? then [PageSizeMessage] else [])
  }

  /** `({ total_count, ...rest }) => rest` */
  function StripTotal(row: map<string, Json>): (r: map<string, Json>)
    ensures "total_count" !in r
    ensures forall k | k != "total_count" :: (k in r <==> k in row)
    ensures forall k | k in r :: r[k] == row[k]
  {
    row - {"total_count"}
  }

  /** `rows.map(({ total_count, ...rest }) => rest)`: one item per row, in order. */
  function Items(rows: seq<map<string, Json>>): (items: seq<Json>)
    ensures |items| == |rows|
    ensures forall i | 0 <= i < |rows| :: items[i] == JObj(StripTotal(rows[i]))
  {
    if rows == [] then [] else [JObj(StripTotal(rows[0]))] + Items(rows[1..])
  }

  /** `rows.length > 0 ? Number(rows[0].total_count) : 0` */
  function Total(rows: seq<map<string, Json>>, number: Option<Json> -> Number): (n: Number)
    ensures rows == [] ==> n == Integer(0)
    ensures rows != [] && "total_count" in rows[0] ==> n == number(Some(rows[0]["total_count"]))
    ensures rows != [] && "total_count" !in rows[0] ==> n == number(None)
  {
    if rows == [] then Integer(0)
    else number(if "total_count" in rows[0] then Some(rows[0]["total_count"]) else None)
  }

  /** The 200 answer `{ items, page, pageSize, total }`. */
  function PageReply(rows: seq<map<string, Json>>, page: nat, pageSize: nat, number: Option<Json> -> Number): Response {
    Reply(200, JObj(map[
      "items" := JArr(Items(rows)),
      "page" := JNum(Integer(page)),
      "pageSize" := JNum(Integer(pageSize)),
      "total" := JNum(Total(rows, number))]))
  }

  /** What the handler answers once the procedure has replied. */
  function Complete(reply: RowsReply, page: nat, pageSize: nat, number: Option<Json> -> Number): Response {
    match reply
    case RowsError(message) => ErrorReply(message)
    case RowsThrew(thrown) => ErrorReply(CaughtMessage(thrown))
    case RowsData(data) => PageReply(if data.Some? then data.value else [], page, pageSize, number)
  }

  /** The handler. Without a call the answer is a 400; a call asks for 1 to
      100 rows; every answer is 200 or 400, and 200 exactly when the procedure
      was called and gave rows. */
  function Get(q: Query, toIso: string -> Option<string>, number: Option<Json> -> Number, reply: RowsReply): (r: Handled<Call>)
    ensures r.call.None? ==> IsErrorReply(r.response)
    ensures r.call.Some? ==> 1 <= r.call.value.limit <= MaxPageSize
    ensures r.response.Reply? && (r.response.status == 200 || r.response.status == 400)
    ensures r.response.status == 200 <==> r.call.Some? && reply.RowsData?
  {
    var dueBefore := ParseDate(q.dueBefore, toIso);
    var dueAfter := ParseDate(q.dueAfter, toIso);
    if BadDate(q.dueBefore, dueBefore) || BadDate(q.dueAfter, dueAfter) then Handled(None, ErrorReply(DateMessage))
    else
      var page := ValidPage(ParamNumber(q.page, DefaultPage, number));
      var pageSize := ValidPageSize(ParamNumber(q.pageSize, DefaultPageSize, number));
      if page.None? then Handled(None, ErrorReply(PageMessage))
      else if pageSize.None? then Handled(None, ErrorReply(PageSizeMessage))
      else
        var call := GetOverdueBusinesses(dueBefore, dueAfter, pageSize.value, Offset(page.value, pageSize.value));
        Handled(Some(call), Complete(reply, page.value, pageSize.value, number))
  }

  // ---------------------------------------------------------------------------
  // Paging arithmetic
  // ---------------------------------------------------------------------------

  /** The first page starts at row 0. */
  lemma FirstPageAtZero(pageSize: nat)
    ensures Offset(1, pageSize) == 0
  {
  }

  /** Every offset is a whole number of pages. */
  lemma OffsetIsWholePages(page: nat, pageSize: nat)
    requires page >= 1 && pageSize >= 1
    ensures Offset(page, pageSize) % pageSize == 0
    ensures Offset(page, pageSize) / pageSize == page - 1
  {
    QuotientUnique(Offset(page, pageSize), pageSize, page - 1);
  }

  /** Consecutive pages follow each other without gap or overlap. */
  lemma PagesAdjacent(page: nat, pageSize: nat)
    requires page >= 1
    ensures Offset(page + 1, pageSize) == Offset(page, pageSize) + pageSize
  {
  }

  /** Row `k` of the full listing is on exactly one page, page `k / pageSize + 1`. */
  lemma RowOnOnePage(k: nat, page: nat, pageSize: nat)
    requires page >= 1 && pageSize >= 1
    ensures Offset(page, pageSize) <= k < Offset(page, pageSize) + pageSize <==> page == k / pageSize + 1
  {
    if Offset(page, pageSize) <= k < Offset(page, pageSize) + pageSize {
      QuotientUnique(k, pageSize, page - 1);
    }
    if page == k / pageSize + 1 {
      assert Offset(page, pageSize) == (k / pageSize) * pageSize;
    }
  }

  lemma {:induction false} MulStrict(a: nat, b: nat, d: nat)
    requires a < b
    ensures a * d + d <= b * d
    decreases b
  {
    if a + 1 < b {
      MulStrict(a, b - 1, d);
      assert (b - 1) * d + d == b * d;
    } else {
      assert (a + 1) * d == a * d + d;
    }
  }

  /** The quotient is the only `p` with `p * d <= k < p * d + d`. */
  lemma QuotientUnique(k: nat, d: nat, p: nat)
    requires d >= 1 && p * d <= k < p * d + d
    ensures k / d == p && k % d == k - p * d
  {
    var q := k / d;
    assert k == q * d + k % d && 0 <= k % d < d;
    if q < p {
      MulStrict(q, p, d);
    }
    if p < q {
      MulStrict(p, q, d);
    }
  }

  // ---------------------------------------------------------------------------
  // Properties of the handler
  // ---------------------------------------------------------------------------

  /** A request failing several checks gets the first failing check's error,
      and the procedure is not called. */
  lemma FirstViolationWins(q: Query, toIso: string -> Option<string>, number: Option<Json> -> Number, reply: RowsReply)
    requires Violations(q, toIso, number) != []
    ensures Get(q, toIso, number, reply) == Handled(None, ErrorReply(Violations(q, toIso, number)[0]))
  {
  }

  /** The procedure is called exactly when no check fails. */
  lemma CallIffValid(q: Query, toIso: string -> Option<string>, number: Option<Json> -> Number, reply: RowsReply)
    ensures Get(q, toIso, number, reply).call.Some? <==> Violations(q, toIso, number) == []
  {
  }

  /** A date given in a shape the pattern rejects is answered with 400
      before anything else is looked at. */
  lemma MalformedDateRejected(q: Query, toIso: string -> Option<string>, number: Option<Json> -> Number, reply: RowsReply)
    requires (Supplied(q.dueBefore) && !IsIsoDate(q.dueBefore.value)) || (Supplied(q.dueAfter) && !IsIsoDate(q.dueAfter.value))
    ensures Get(q, toIso, number, reply) == Handled(None, ErrorReply(DateMessage))
  {
  }

  /** A missing or empty date parameter is sent as a `null` filter; a given
      one as its ISO form. */
  lemma DateFilters(q: Query, toIso: string -> Option<string>, number: Option<Json> -> Number, reply: RowsReply)
    requires Get(q, toIso, number, reply).call.Some?
    ensures var c := Get(q, toIso, number, reply).call.value;
      (!Supplied(q.dueBefore) ==> c.dueBefore.None?)
      && (Supplied(q.dueBefore) ==> IsIsoDate(q.dueBefore.value) && c.dueBefore == toIso(q.dueBefore.value) && c.dueBefore.Some?)
      && (!Supplied(q.dueAfter) ==> c.dueAfter.None?)
      && (Supplied(q.dueAfter) ==> IsIsoDate(q.dueAfter.value) && c.dueAfter == toIso(q.dueAfter.value) && c.dueAfter.Some?)
  {
  }

  /** Without `page` and `pageSize` (or with them empty) the first page of 20
      rows is requested. */
  lemma Defaults(q: Query, toIso: string -> Option<string>, number: Option<Json> -> Number, reply: RowsReply)
    requires !Supplied(q.page) && !Supplied(q.pageSize)
    requires !BadDate(q.dueBefore, ParseDate(q.dueBefore, toIso)) && !BadDate(q.dueAfter, ParseDate(q.dueAfter, toIso))
    ensures Get(q, toIso, number, reply).call.Some?
    ensures Get(q, toIso, number, reply).call.value.limit == 20
    ensures Get(q, toIso, number, reply).call.value.offset == 0
  {
  }

  /** What the procedure is asked for: at most 100 rows, starting at a whole
      number of pages. */
  lemma CallWithinBounds(q: Query, toIso: string -> Option<string>, number: Option<Json> -> Number, reply: RowsReply)
    requires Get(q, toIso, number, reply).call.Some?
    ensures var c := Get(q, toIso, number, reply).call.value;
      1 <= c.limit <= MaxPageSize && c.offset % c.limit == 0
      && ParamNumber(q.pageSize, DefaultPageSize, number) == Integer(c.limit)
      && ParamNumber(q.page, DefaultPage, number) == Integer(c.offset / c.limit + 1)
  {
    var c := Get(q, toIso, number, reply).call.value;
    var page := ValidPage(ParamNumber(q.page, DefaultPage, number)).value;
    OffsetIsWholePages(page, c.limit);
  }

  /** The answer to a call that returned rows: every row without
      `total_count`, in order; `total` from the first row or 0; and `page` and
      `pageSize` as requested. */
  lemma AnswerShape(q: Query, toIso: string -> Option<string>, number: Option<Json> -> Number, rows: seq<map<string, Json>>)
    requires Get(q, toIso, number, RowsData(Some(rows))).call.Some?
    ensures var c := Get(q, toIso, number, RowsData(Some(rows))).call.value;
      var r := Get(q, toIso, number, RowsData(Some(rows))).response;
      r.Reply? && r.status == 200 && r.body.JObj?
      && r.body.fields.Keys == {"items", "page", "pageSize", "total"}
      && r.body.fields["pageSize"] == JNum(Integer(c.limit))
      && r.body.fields["page"] == JNum(Integer(c.offset / c.limit + 1))
      && r.body.fields["total"] == JNum(Total(rows, number))
      && r.body.fields["items"].JArr? && |r.body.fields["items"].elems| == |rows|
      && forall i | 0 <= i < |rows| :: r.body.fields["items"].elems[i] == JObj(rows[i] - {"total_count"})
  {
    var c := Get(q, toIso, number, RowsData(Some(rows))).call.value;
    var page := ValidPage(ParamNumber(q.page, DefaultPage, number)).value;
    OffsetIsWholePages(page, c.limit);
  }

  /** `data` that is not an array is read as no rows: no items and total 0. */
  lemma NonArrayIsEmpty(q: Query, toIso: string -> Option<string>, number: Option<Json> -> Number)
    requires Get(q, toIso, number, RowsData(None)).call.Some?
    ensures var r := Get(q, toIso, number, RowsData(None)).response;
      r.Reply? && r.status == 200 && r.body.JObj?
      && r.body.fields["items"] == JArr([]) && r.body.fields["total"] == JNum(Integer(0))
  {
  }

  /** An error from the procedure, or an exception, is answered with 400 and
      its message. */
  lemma FailedCallAnswered(q: Query, toIso: string -> Option<string>, number: Option<Json> -> Number, reply: RowsReply)
    requires Get(q, toIso, number, reply).call.Some? && !reply.RowsData?
    ensures Get(q, toIso, number, reply).response ==
      ErrorReply(if reply.RowsError? then reply.message else CaughtMessage(reply.thrown))
  {
  }

  /** When no call is made, the answer does not depend on what the procedure
      would have replied. */
  lemma NoCallNoDependence(q: Query, toIso: string -> Option<string>, number: Option<Json> -> Number, r1: RowsReply, r2: RowsReply)
    requires Get(q, toIso, number, r1).call.None?
    ensures Get(q, toIso, number, r2) == Get(q, toIso, number, r1)
  {
  }
}
