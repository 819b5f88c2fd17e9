/**
 * `POST /api/businesses` (src/app/api/businesses/route.ts): check `name` and
 * `creditLimitCents`, insert the business, insert its credit account with a
 * zero balance, and delete the business again when the account insert
 * reports an error.
 *
 * The two tables are maps keyed by id; every request the handler sends to
 * them is appended to a log. What each request gives back is a parameter, so
 * every combination of outcomes is covered.
 */
module Businesses {
  import opened Wrappers
  import opened Js
  import opened Api

  const NameMessage := "name is required"
  const CreditLimitMessage := "creditLimitCents must be a non-negative integer"
  const NoRowMessage := "Failed to create business"

  /** The checked request: the trimmed name and the credit limit. */
  datatype NewBusiness = NewBusiness(name: string, creditLimitCents: nat)

  /** A `business_credit_accounts` row, without its `business_id` key. */
  datatype Account = Account(creditLimitCents: nat, balanceCents: int)

  /** The requests the handler sends to the two tables. */
  datatype TableCall =
    | InsertBusinessRow(name: string)
    | InsertAccountRow(businessId: string, creditLimitCents: nat, balanceCents: int)
    | DeleteBusinessRow(id: string)

  /** `businesses` (id to name), `business_credit_accounts` (business id to
      account) and the log of requests sent so far. */
  datatype Tables = Tables(businesses: map<string, string>, accounts: map<string, Account>, calls: seq<TableCall>)

  /** Every account belongs to a business. */
  predicate Consistent(t: Tables) {
    t.accounts.Keys <= t.businesses.Keys
  }

  /** Every business has an account, and every account a business. */
  predicate Paired(t: Tables) {
    t.accounts.Keys == t.businesses.Keys
  }

  /** The database hands out an id not yet used by either table. */
  predicate FreshId(t: Tables, reply: InsertReply) {
    reply.Inserted? ==> reply.id !in t.businesses && reply.id !in t.accounts
  }

  // ---------------------------------------------------------------------------
  // The guards
  // ---------------------------------------------------------------------------

  /** The guards, in the order they run; each contributes its message when it fails. */
  function Violations(b: Json): seq<string>
    requires !b.JNull?
  {
    (if IsNonBlank(Property(b, "name")) then [] else [NameMessage])
    + (if NonNegativeInteger(Property(b, "creditLimitCents")).Some? then [] else [CreditLimitMessage])
  }

  /** The guard chain: the first failing guard gives the error; when none
      fails, the request holds the body's `name` trimmed (not empty) and its
      `creditLimitCents` unchanged. */
  function Validate(b: Json): (r: Result<NewBusiness, string>)
    requires !b.JNull?
    ensures r.Success? <==> Violations(b) == []
    ensures r.Failure? ==> r.error == Violations(b)[0]
    ensures r.Success? ==>
      r.value.name == Trim(Property(b, "name").value.s) && r.value.name != []
      && Property(b, "creditLimitCents") == Some(JNum(Integer(r.value.creditLimitCents)))
  {
    var name := Property(b, "name");
    var creditLimitCents := NonNegativeInteger(Property(b, "creditLimitCents"));
    if !IsNonBlank(name) then Failure(NameMessage)
    else if creditLimitCents.None? then Failure(CreditLimitMessage)
    else Success(NewBusiness(Trim(name.value.s), creditLimitCents.value))
  }

  // ---------------------------------------------------------------------------
  // The three table requests and the handler, on values
  // ---------------------------------------------------------------------------

  /** `from("businesses").insert({ name })`: the row exists afterwards exactly
      when its id came back. */
  function AfterInsertBusiness(t: Tables, name: string, reply: InsertReply): Tables {
    Tables(
      if reply.Inserted? then t.businesses[reply.id := name] else t.businesses,
      t.accounts,
      t.calls + [InsertBusinessRow(name)])
  }

  /** `from("business_credit_accounts").insert({ business_id, credit_limit_cents,
      balance_cents: 0 })` */
  function AfterInsertAccount(t: Tables, id: string, limit: nat, reply: WriteReply): Tables {
    Tables(
      t.businesses,
      if reply.Written? then t.accounts[id := Account(limit, 0)] else t.accounts,
      t.calls + [InsertAccountRow(id, limit, 0)])
  }

  /** `from("businesses").delete().eq("id", id)` */
  function AfterDeleteBusiness(t: Tables, id: string, reply: WriteReply): Tables {
    Tables(
      if reply.Written? then t.businesses - {id} else t.businesses,
      t.accounts,
      t.calls + [DeleteBusinessRow(id)])
  }

  /** The handler: the tables afterwards and the answer, given the parsed body
      (`None`: not JSON) and what each of the three requests would give. At
      most three requests are appended to the log, and no id other than the
      one the business insert gave back is added to either table. */
  function Create(t: Tables, body: Option<Json>, businessReply: InsertReply, accountReply: WriteReply, deleteReply: WriteReply): (r: (Tables, Response))
    ensures |t.calls| <= |r.0.calls| <= |t.calls| + 3 && r.0.calls[..|t.calls|] == t.calls
    ensures businessReply.Inserted? ==> r.0.businesses.Keys <= t.businesses.Keys + {businessReply.id}
    ensures !businessReply.Inserted? ==> r.0.businesses == t.businesses
    ensures businessReply.Inserted? ==> r.0.accounts.Keys <= t.accounts.Keys + {businessReply.id}
    ensures !businessReply.Inserted? ==> r.0.accounts == t.accounts
  {
    match ReadBody(body)
    case Failure(response) => (t, response)
    case Success(b) =>
      match Validate(b)
      case Failure(message) => (t, ErrorReply(message))
      case Success(row) =>
        var t1 := AfterInsertBusiness(t, row.name, businessReply);
        match businessReply
        case InsertError(message) => (t1, ErrorReply(message))
        case NoRow => (t1, ErrorReply(NoRowMessage))
        case InsertThrew(thrown) => (t1, ErrorReply(CaughtMessage(thrown)))
        case Inserted(id) =>
          var t2 := AfterInsertAccount(t1, id, row.creditLimitCents, accountReply);
          match accountReply
          case Written => (t2, OkReply("businessId", JStr(id)))
          case WriteThrew(thrown) => (t2, ErrorReply(CaughtMessage(thrown)))
          case WriteError(message) =>
            var t3 := AfterDeleteBusiness(t2, id, deleteReply);
            // the delete's own error is not looked at; an exception from it is caught
            if deleteReply.WriteThrew? then (t3, ErrorReply(CaughtMessage(deleteReply.thrown)))
            else (t3, ErrorReply(message))
  }

  // ---------------------------------------------------------------------------
  // The tables as an object updated in place
  // ---------------------------------------------------------------------------

  class Ledger {
    var businesses: map<string, string>
    var accounts: map<string, Account>
    var calls: seq<TableCall>

    function Snapshot(): Tables
      reads this
    {
      Tables(businesses, accounts, calls)
    }

    predicate Valid()
      reads this
    {
      Consistent(Snapshot())
    }

    constructor ()
      ensures Valid() && businesses == map[] && accounts == map[] && calls == []
    {
      businesses, accounts, calls := map[], map[], [];
    }

    method InsertBusiness(name: string, reply: InsertReply)
      modifies this
      ensures Snapshot() == AfterInsertBusiness(old(Snapshot()), name, reply)
    {
      if reply.Inserted? {
        businesses := businesses[reply.id := name];
      }
      calls := calls + [InsertBusinessRow(name)];
    }

    // `InsertAccount` and `DeleteBusiness` are steps of `CreateBusiness` only:
    // on their own either can break `Valid()` (an account for an id with no
    // business, a business deleted under its account).

    method InsertAccount(id: string, limit: nat, reply: WriteReply)
      modifies this
      ensures Snapshot() == AfterInsertAccount(old(Snapshot()), id, limit, reply)
    {
      if reply.Written? {
        accounts := accounts[id := Account(limit, 0)];
      }
      calls := calls + [InsertAccountRow(id, limit, 0)];
    }

    method DeleteBusiness(id: string, reply: WriteReply)
      modifies this
      ensures Snapshot() == AfterDeleteBusiness(old(Snapshot()), id, reply)
    {
      if reply.Written? {
        businesses := businesses - {id};
      }
      calls := calls + [DeleteBusinessRow(id)];
    }

    /** `POST`: the steps one after the other, each on the tables themselves. */
    method CreateBusiness(body: Option<Json>, businessReply: InsertReply, accountReply: WriteReply, deleteReply: WriteReply)
      returns (response: Response)
      requires Valid() && FreshId(Snapshot(), businessReply)
      modifies this
      ensures Valid()
      ensures (Snapshot(), response) == Create(old(Snapshot()), body, businessReply, accountReply, deleteReply)
    {
      ConsistentKept(Snapshot(), body, businessReply, accountReply, deleteReply);
      match ReadBody(body)
      case Failure(r) =>
        return r;
      case Success(b) =>
        match Validate(b)
        case Failure(message) =>
          return ErrorReply(message);
        case Success(row) =>
          InsertBusiness(row.name, businessReply);
          match businessReply
          case InsertError(message) =>
            return ErrorReply(message);
          case NoRow =>
            return ErrorReply(NoRowMessage);
          case InsertThrew(thrown) =>
            return ErrorReply(CaughtMessage(thrown));
          case Inserted(id) =>
            InsertAccount(id, row.creditLimitCents, accountReply);
            match accountReply
            case Written =>
              return OkReply("businessId", JStr(id));
            case WriteThrew(thrown) =>
              return ErrorReply(CaughtMessage(thrown));
            case WriteError(message) =>
              DeleteBusiness(id, deleteReply);
              if deleteReply.WriteThrew? {
                return ErrorReply(CaughtMessage(deleteReply.thrown));
              }
              return ErrorReply(message);
    }
  }

  // ---------------------------------------------------------------------------
  // Properties
  // ---------------------------------------------------------------------------

  /** A rejected request writes nothing and gets the first failing guard's 400. */
  lemma NoWriteOnViolation(t: Tables, body: Json, br: InsertReply, ar: WriteReply, dr: WriteReply)
    requires IsObject(body) && Violations(body) != []
    ensures Create(t, Some(body), br, ar, dr) == (t, ErrorReply(Violations(body)[0]))
  {
  }

  /** A body that is not JSON or not an object also writes nothing. */
  lemma NoWriteOnBadBody(t: Tables, body: Option<Json>, br: InsertReply, ar: WriteReply, dr: WriteReply)
    requires body.None? || !IsObject(body.value)
    ensures Create(t, body, br, ar, dr).0 == t
    ensures IsErrorReply(Create(t, body, br, ar, dr).1)
  {
  }

  /** For an accepted request the first request is the business insert, with
      the trimmed name. */
  lemma BusinessInsertedFirst(t: Tables, body: Json, br: InsertReply, ar: WriteReply, dr: WriteReply)
    requires IsObject(body) && Violations(body) == []
    ensures var calls := Create(t, Some(body), br, ar, dr).0.calls;
      |calls| > |t.calls| && calls[..|t.calls|] == t.calls
      && calls[|t.calls|] == InsertBusinessRow(Trim(Property(body, "name").value.s))
  {
    var calls := Create(t, Some(body), br, ar, dr).0.calls;
    assert calls[..|t.calls|] == t.calls;
  }

  /** When the business insert gives no id, nothing else is sent, no table
      changes, and the answer is 400. */
  lemma NoAccountWithoutBusiness(t: Tables, body: Json, br: InsertReply, ar: WriteReply, dr: WriteReply)
    requires IsObject(body) && Violations(body) == [] && !br.Inserted?
    ensures var (t', r) := Create(t, Some(body), br, ar, dr);
      t'.businesses == t.businesses && t'.accounts == t.accounts
      && t'.calls == t.calls + [InsertBusinessRow(Validate(body).value.name)]
      && IsErrorReply(r)
    ensures br.InsertError? ==> Create(t, Some(body), br, ar, dr).1 == ErrorReply(br.message)
    ensures br.NoRow? ==> Create(t, Some(body), br, ar, dr).1 == ErrorReply(NoRowMessage)
  {
  }

  /** Once the business has its id, the account is requested for that id, with
      the requested limit and a zero balance. */
  lemma AccountForNewBusiness(t: Tables, body: Json, id: string, ar: WriteReply, dr: WriteReply)
    requires IsObject(body) && Violations(body) == []
    ensures var calls := Create(t, Some(body), Inserted(id), ar, dr).0.calls;
      |calls| >= |t.calls| + 2
      && calls[|t.calls| + 1] == InsertAccountRow(id, NonNegativeInteger(Property(body, "creditLimitCents")).value, 0)
  {
  }

  /** When the account insert reports an error, exactly the new business is
      deleted and the answer is 400: with the account error's message, or with
      the delete's exception when that throws. */
  lemma RollbackDeletesNewBusiness(t: Tables, body: Json, id: string, message: string, dr: WriteReply)
    requires IsObject(body) && Violations(body) == []
    requires id !in t.businesses
    ensures var (t', r) := Create(t, Some(body), Inserted(id), WriteError(message), dr);
      t'.calls[|t'.calls| - 1] == DeleteBusinessRow(id)
      && t'.accounts == t.accounts
      && (dr.Written? ==> t'.businesses == t.businesses)
      && (!dr.Written? ==> t'.businesses == t.businesses[id := Validate(body).value.name])
      && r == ErrorReply(if dr.WriteThrew? then CaughtMessage(dr.thrown) else message)
  {
    var name := Validate(body).value.name;
    assert t.businesses[id := name] - {id} == t.businesses;
  }

  /** The answer is 200 exactly when both inserts went through; then it names
      the new id, and the business and its account with the requested limit
      and a zero balance both exist. */
  lemma SuccessIffBothInserted(t: Tables, body: Option<Json>, br: InsertReply, ar: WriteReply, dr: WriteReply)
    ensures var (t', r) := Create(t, body, br, ar, dr);
      r.Reply? && r.status == 200
      <==> body.Some? && IsObject(body.value) && Violations(body.value) == [] && br.Inserted? && ar.Written?
    ensures var (t', r) := Create(t, body, br, ar, dr);
      r.Reply? && r.status == 200 ==>
        r.body.fields == map["businessId" := JStr(br.id)]
        && t'.businesses == t.businesses[br.id := Validate(body.value).value.name]
        && t'.accounts == t.accounts[br.id := Account(Validate(body.value).value.creditLimitCents, 0)]
  {
  }

  /** Every path answers; no exception leaves this handler. */
  lemma AlwaysAnswers(t: Tables, body: Option<Json>, br: InsertReply, ar: WriteReply, dr: WriteReply)
    ensures Create(t, body, br, ar, dr).1.Reply?
    ensures Create(t, body, br, ar, dr).1.status == 200 || IsErrorReply(Create(t, body, br, ar, dr).1)
  {
  }

  /** No account is ever left without its business. */
  lemma ConsistentKept(t: Tables, body: Option<Json>, br: InsertReply, ar: WriteReply, dr: WriteReply)
    requires Consistent(t) && FreshId(t, br)
    ensures Consistent(Create(t, body, br, ar, dr).0)
  {
  }

  /** Starting from tables where every business has an account, the handler
      leaves a business without an account exactly when the business was
      inserted and then the account insert threw, or reported an error and the
      delete did not go through. */
  lemma OrphanIff(t: Tables, body: Option<Json>, br: InsertReply, ar: WriteReply, dr: WriteReply)
    requires Paired(t) && FreshId(t, br)
    ensures !Paired(Create(t, body, br, ar, dr).0) <==>
      body.Some? && IsObject(body.value) && Violations(body.value) == [] && br.Inserted?
      && (ar.WriteThrew? || (ar.WriteError? && !dr.Written?))
  {
    var t' := Create(t, body, br, ar, dr).0;
    if body.Some? && IsObject(body.value) && Violations(body.value) == [] && br.Inserted? {
      var id := br.id;
      var name := Validate(body.value).value.name;
      if ar.Written? {
        assert t'.businesses.Keys == t.businesses.Keys + {id};
        assert t'.accounts.Keys == t.accounts.Keys + {id};
      } else if ar.WriteError? && dr.Written? {
        assert t'.businesses == t.businesses[id := name] - {id};
        assert t'.businesses.Keys == t.businesses.Keys;
      } else {
        assert id in t'.businesses && id !in t'.accounts;
      }
    }
  }

  /** A body that is not JSON, not an object, or fails a check sends nothing,
      so none of the three replies matters. */
  lemma RejectedIgnoresReplies(t: Tables, body: Option<Json>, br1: InsertReply, br2: InsertReply, ar1: WriteReply, ar2: WriteReply, dr1: WriteReply, dr2: WriteReply)
    requires body.None? || !IsObject(body.value) || Violations(body.value) != []
    ensures Create(t, body, br1, ar1, dr1) == Create(t, body, br2, ar2, dr2)
  {
  }

  /** The delete is sent only after an account error, so otherwise its reply
      does not matter. */
  lemma DeleteReplyIgnoredWithoutRollback(t: Tables, body: Option<Json>, br: InsertReply, ar: WriteReply, dr1: WriteReply, dr2: WriteReply)
    requires !ar.WriteError?
    ensures Create(t, body, br, ar, dr1) == Create(t, body, br, ar, dr2)
  {
  }

  /** When the business insert gives no id, what the database would have said
      to the account insert and the delete does not matter. */
  lemma UnsentRepliesIgnored(t: Tables, body: Json, br: InsertReply, ar1: WriteReply, ar2: WriteReply, dr1: WriteReply, dr2: WriteReply)
    requires IsObject(body) && Violations(body) == [] && !br.Inserted?
    ensures Create(t, Some(body), br, ar1, dr1) == Create(t, Some(body), br, ar2, dr2)
  {
  }
}
