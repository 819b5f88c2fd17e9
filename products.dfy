/**
 * `POST /api/products` (src/app/api/products/route.ts): a chain of guards on
 * the body, then one insert into `products` with the text fields trimmed.
 */
module Products {
  import opened Wrappers
  import opened Trimming
  import opened Js
  import opened Uuid
  import opened Api

  const BusinessIdMessage := "businessId must be a UUID"
  const SkuMessage := "sku is required"
  const NameMessage := "name is required"
  const StockMessage := "stock must be a non-negative integer"
  const PriceMessage := "priceCents must be a non-negative integer"
  const NoRowMessage := "Failed to create product"

  /** The row given to `insert`: `business_id`, `sku`, `name`, `stock`, `price_cents`. */
  datatype NewProduct = NewProduct(businessId: string, sku: string, name: string, stock: nat, priceCents: nat)

  /** The object literal passed to `insert`, with the database's column names. */
  function InsertRecord(p: NewProduct): map<string, Json> {
    map[
      "business_id" := JStr(p.businessId),
      "sku" := JStr(p.sku),
      "name" := JStr(p.name),
      "stock" := JNum(Integer(p.stock)),
      "price_cents" := JNum(Integer(p.priceCents))
    ]
  }

  /** The guards, in the order they run; each contributes its message when it fails. */
  function Violations(b: Json): seq<string>
    requires !b.JNull?
  {
    (if IsUuid(Property(b, "businessId")) then [] else [BusinessIdMessage])
    + (if IsNonBlank(Property(b, "sku")) then [] else [SkuMessage])
    + (if IsNonBlank(Property(b, "name")) then [] else [NameMessage])
    + (if NonNegativeInteger(Property(b, "stock")).Some? then [] else [StockMessage])
    + (if NonNegativeInteger(Property(b, "priceCents")).Some? then [] else [PriceMessage])
  }

  /** The guard chain and the construction of the row. The first failing guard
      gives the error; when none fails, the row holds the body's `businessId`,
      `sku` and `name` trimmed (and so not empty), and `stock` and `priceCents`
      unchanged. */
  function Validate(b: Json): (r: Result<NewProduct, string>)
    requires !b.JNull?
    ensures r.Success? <==> Violations(b) == []
    ensures r.Failure? ==> r.error == Violations(b)[0]
    ensures r.Success? ==>
      var p := r.value;
      Property(b, "businessId") == Some(JStr(p.businessId)) && IsUuidString(p.businessId)
      && p.sku == Trim(Property(b, "sku").value.s) && p.sku != []
      && p.name == Trim(Property(b, "name").value.s) && p.name != []
      && Property(b, "stock") == Some(JNum(Integer(p.stock)))
      && Property(b, "priceCents") == Some(JNum(Integer(p.priceCents)))
  {
    var businessId := Property(b, "businessId");
    var sku := Property(b, "sku");
    var name := Property(b, "name");
    var stock := NonNegativeInteger(Property(b, "stock"));
    var priceCents := NonNegativeInteger(Property(b, "priceCents"));
    if !IsUuid(businessId) then Failure(BusinessIdMessage)
    else if !IsNonBlank(sku) then Failure(SkuMessage)
    else if !IsNonBlank(name) then Failure(NameMessage)
    else if stock.None? then Failure(StockMessage)
    else if priceCents.None? then Failure(PriceMessage)
    else Success(NewProduct(businessId.value.s, Trim(sku.value.s), Trim(name.value.s), stock.value, priceCents.value))
  }

  /** What the handler answers once the insert has replied. */
  function Complete(reply: InsertReply): Response {
    match reply
    case Inserted(id) => OkReply("productId", JStr(id))
    case InsertError(message) => ErrorReply(message)
    case NoRow => ErrorReply(NoRowMessage)
    case InsertThrew(t) => ErrorReply(CaughtMessage(t))
  }

  /** The handler, given the parsed body (`None`: not JSON) and the reply the
      insert would give if it were issued. The row inserted is the checked
      body; every path answers 200 or 400, and 200 exactly when the insert gave
      back a row. */
  function Post(body: Option<Json>, reply: InsertReply): (r: Handled<NewProduct>)
    ensures r.call.Some? ==> body.Some? && IsObject(body.value) && Validate(body.value) == Success(r.call.value)
    ensures r.response.Reply? && (r.response.status == 200 || r.response.status == 400)
    ensures r.response.status == 200 <==> r.call.Some? && reply.Inserted?
  {
    match ReadBody(body)
    case Failure(response) => Handled(None, response)
    case Success(b) =>
      match Validate(b)
      case Failure(message) => Handled(None, ErrorReply(message))
      case Success(row) => Handled(Some(row), Complete(reply))
  }

  // ---------------------------------------------------------------------------
  // Properties
  // ---------------------------------------------------------------------------

  /** No insert is issued when any guard fails, and the answer is then the
      first failing guard's 400 whatever the database would have said. */
  lemma NoInsertOnViolation(body: Json, reply: InsertReply)
    requires IsObject(body) && Violations(body) != []
    ensures Post(Some(body), reply) == Handled(None, ErrorReply(Violations(body)[0]))
  {
  }

  /** An insert is issued exactly when the body is an object passing every guard. */
  lemma InsertIffValid(body: Option<Json>, reply: InsertReply)
    ensures Post(body, reply).call.Some? <==> body.Some? && IsObject(body.value) && Violations(body.value) == []
  {
  }

  /** A `sku` made of whitespace only is rejected like a missing one. */
  lemma WhitespaceOnlyRejected(b: Json, s: string)
    requires b.JObj? && IsUuid(Property(b, "businessId"))
    requires Property(b, "sku") == Some(JStr(s)) && AllWhitespace(s)
    ensures Validate(b) == Failure(SkuMessage)
  {
    TrimEmptyIff(s);
  }

  /** So is a `name` made of whitespace only, once `sku` has passed. */
  lemma WhitespaceOnlyNameRejected(b: Json, s: string)
    requires b.JObj? && IsUuid(Property(b, "businessId")) && IsNonBlank(Property(b, "sku"))
    requires Property(b, "name") == Some(JStr(s)) && AllWhitespace(s)
    ensures Validate(b) == Failure(NameMessage)
  {
    TrimEmptyIff(s);
  }

  /** The record handed to `insert` has exactly the five columns, holding the
      body's `businessId`, `stock` and `priceCents` as they came and its `sku`
      and `name` trimmed. */
  lemma InsertRecordCarriesBody(body: Json, reply: InsertReply)
    requires Post(Some(body), reply).call.Some?
    ensures var rec := InsertRecord(Post(Some(body), reply).call.value);
      rec.Keys == {"business_id", "sku", "name", "stock", "price_cents"}
      && Some(rec["business_id"]) == Property(body, "businessId")
      && rec["sku"] == JStr(Trim(Property(body, "sku").value.s))
      && rec["name"] == JStr(Trim(Property(body, "name").value.s))
      && Some(rec["stock"]) == Property(body, "stock")
      && Some(rec["price_cents"]) == Property(body, "priceCents")
  {
  }

  /** The inserted text fields carry no surrounding whitespace. */
  lemma InsertedFieldsTrimmed(b: Json, p: NewProduct)
    requires b.JObj? && Validate(b) == Success(p)
    ensures !IsWhitespace(p.sku[0]) && !IsWhitespace(p.sku[|p.sku| - 1])
    ensures !IsWhitespace(p.name[0]) && !IsWhitespace(p.name[|p.name| - 1])
  {
    TrimIsInfix(Property(b, "sku").value.s);
    TrimIsInfix(Property(b, "name").value.s);
  }

  /** When no insert is issued, what the database would have replied does not
      matter. */
  lemma NoCallNoDependence(body: Option<Json>, r1: InsertReply, r2: InsertReply)
    requires Post(body, r1).call.None?
    ensures Post(body, r2) == Post(body, r1)
  {
  }

  /** After an insert: 200 with `{ productId }` when a row came back, 400 with
      the error's message, or with a fixed message when neither came back. */
  lemma AnswerAfterInsert(body: Json, reply: InsertReply)
    requires IsObject(body) && Violations(body) == []
    ensures var r := Post(Some(body), reply).response;
      (reply.Inserted? ==> r.Reply? && r.status == 200 && r.body.fields == map["productId" := JStr(reply.id)])
      && (reply.InsertError? ==> r == ErrorReply(reply.message))
      && (reply.NoRow? ==> r == ErrorReply(NoRowMessage))
      && (reply.InsertThrew? ==> r == ErrorReply(CaughtMessage(reply.thrown)))
  {
  }
}
