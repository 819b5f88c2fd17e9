/**
 * `POST /api/purchase` (src/app/api/purchase/route.ts): check the body,
 * normalise the items, and hand everything to the `process_purchase` stored
 * procedure, whose own logic lives in the database and is not modelled.
 */
module Purchase {
  import opened Wrappers
  import opened Js
  import opened Uuid
  import opened Api

  const BusinessIdMessage := "businessId must be a UUID"
  const IdempotencyKeyMessage := "idempotencyKey must be a UUID"
  const ItemsMessage := "items must be a non-empty array"
  const ProductIdMessage := "Each item.product_id must be a UUID"
  const QtyMessage := "Each item.qty must be a positive integer"

  /** A normalised line item `{ product_id, qty }`. */
  datatype Item = Item(productId: string, qty: nat)

  /** The item as the JSON object sent to the procedure. */
  function ItemRecord(item: Item): Json {
    JObj(map["product_id" := JStr(item.productId), "qty" := JNum(Integer(item.qty))])
  }

  /** The `process_purchase` call: `p_business_id`, `p_idempotency_key`, `p_items`. */
  datatype Call = ProcessPurchase(businessId: string, idempotencyKey: string, items: seq<Item>)

  /** The argument record given to `supabaseAdmin.rpc("process_purchase", ...)`. */
  function CallArguments(c: Call): map<string, Json> {
    map[
      "p_business_id" := JStr(c.businessId),
      "p_idempotency_key" := JStr(c.idempotencyKey),
      "p_items" := JArr(seq(|c.items|, i requires 0 <= i < |c.items| => ItemRecord(c.items[i])))
    ]
  }

  /** The callback of `items.map`: read `product_id` and `qty`, throw on the
      first that is unacceptable, otherwise build `{ product_id, qty }`.
      Reading a property of `null` throws a TypeError first. */
  function NormalizeItem(item: Json): (r: Result<Item, Thrown>)
    ensures r.Success? <==>
      !item.JNull? && IsUuid(Property(item, "product_id")) && PositiveInteger(Property(item, "qty")).Some?
    ensures r.Success? ==>
      Property(item, "product_id") == Some(JStr(r.value.productId)) && IsUuidString(r.value.productId)
      && Property(item, "qty") == Some(JNum(Integer(r.value.qty))) && r.value.qty >= 1
    ensures item.JNull? ==> r == Failure(ErrorObject(NullReadMessage("product_id")))
    ensures !item.JNull? && !IsUuid(Property(item, "product_id")) ==> r == Failure(ErrorObject(ProductIdMessage))
    ensures !item.JNull? && IsUuid(Property(item, "product_id")) && PositiveInteger(Property(item, "qty")).None?
      ==> r == Failure(ErrorObject(QtyMessage))
  {
    if item.JNull? then Failure(ErrorObject(NullReadMessage("product_id")))
    else
      var productId := Property(item, "product_id");
      var qty := PositiveInteger(Property(item, "qty"));
      if !IsUuid(productId) then Failure(ErrorObject(ProductIdMessage))
      else if qty.None? then Failure(ErrorObject(QtyMessage))
      else Success(Item(productId.value.s, qty.value))
  }

  /** `items.map(...)`: every item normalised in order, or the exception of the
      first item that throws. */
  function NormalizeItems(items: seq<Json>): (r: Result<seq<Item>, Thrown>)
    ensures r.Success? <==> forall i | 0 <= i < |items| :: NormalizeItem(items[i]).Success?
    ensures r.Success? ==>
      |r.value| == |items| && forall i | 0 <= i < |items| :: NormalizeItem(items[i]) == Success(r.value[i])
    ensures r.Failure? ==>
      exists i | 0 <= i < |items| :: NormalizeItem(items[i]) == Failure(r.error)
        && forall j | 0 <= j < i :: NormalizeItem(items[j]).Success?
  {
    if items == [] then Success([])
    else
      match NormalizeItem(items[0])
      case Failure(e) => Failure(e)
      case Success(first) =>
        match NormalizeItems(items[1..])
        case Failure(e) =>
          assert forall i | 1 <= i < |items| :: items[i] == items[1..][i - 1];
          Failure(e)
        case Success(rest) =>
          assert forall i | 1 <= i < |items| :: items[i] == items[1..][i - 1];
          Success([first] + rest)
  }

  predicate IsNonEmptyArray(v: Option<Json>) {
    v.Some? && v.value.JArr? && |v.value.elems| > 0
  }

  /** The guards on the body, in the order they run; each contributes its
      message when it fails. */
  function Violations(b: Json): seq<string>
    requires !b.JNull?
  {
    (if IsUuid(Property(b, "businessId")) then [] else [BusinessIdMessage])
    + (if IsUuid(Property(b, "idempotencyKey")) then [] else [IdempotencyKeyMessage])
    + (if IsNonEmptyArray(Property(b, "items")) then [] else [ItemsMessage])
  }

  /** What the handler answers once the procedure has replied. */
  function Complete(reply: RpcReply): Response {
    match reply
    case RpcError(message) => ErrorReply(message)
    case RpcData(data) => OkReply("orderId", data)
    case RpcThrew(t) => ErrorReply(CaughtMessage(t))
  }

  /** The handler, given the parsed body (`None`: not JSON) and the reply the
      procedure would give if it were called. Without a call the answer is a
      400 or an escaping exception; an exception escapes only before the call;
      a 200 answer means the procedure was called and gave data. */
  function Post(body: Option<Json>, reply: RpcReply): (r: Handled<Call>)
    ensures r.call.None? ==> IsErrorReply(r.response) || r.response.Uncaught?
    ensures r.response.Uncaught? ==> r.call.None?
    ensures r.response.Reply? ==> r.response.status == 200 || r.response.status == 400
    ensures r.response.Reply? && r.response.status == 200 <==> r.call.Some? && reply.RpcData?
  {
    match ReadBody(body)
    case Failure(response) => Handled(None, response)
    case Success(b) =>
      var businessId := Property(b, "businessId");
      var idempotencyKey := Property(b, "idempotencyKey");
      var items := Property(b, "items");
      if !IsUuid(businessId) then Handled(None, ErrorReply(BusinessIdMessage))
      else if !IsUuid(idempotencyKey) then Handled(None, ErrorReply(IdempotencyKeyMessage))
      else if !IsNonEmptyArray(items) then Handled(None, ErrorReply(ItemsMessage))
      else
        match NormalizeItems(items.value.elems)
        // the map runs before the `try`, so its exception leaves the handler
        case Failure(thrown) => Handled(None, Uncaught(thrown))
        case Success(normalized) =>
          Handled(Some(ProcessPurchase(businessId.value.s, idempotencyKey.value.s, normalized)), Complete(reply))
  }

  // ---------------------------------------------------------------------------
  // Properties
  // ---------------------------------------------------------------------------

  /** A request failing several checks gets the first failing check's error,
      and nothing is sent to the database. */
  lemma FirstViolationWins(body: Json, reply: RpcReply)
    requires IsObject(body) && Violations(body) != []
    ensures Post(Some(body), reply) == Handled(None, ErrorReply(Violations(body)[0]))
  {
  }

  /** When every check on the body passes, the answer is never one of their
      errors: either the items are normalised and the procedure is called, or
      an item throws. */
  lemma NoViolationPassesGuards(body: Json, reply: RpcReply)
    requires IsObject(body) && Violations(body) == []
    ensures var h := Post(Some(body), reply);
      h.call.Some? <==> NormalizeItems(Property(body, "items").value.elems).Success?
    ensures Post(Some(body), reply).call.None? ==> Post(Some(body), reply).response.Uncaught?
  {
  }

  /** A missing, non-array or empty `items` is answered with 400 whatever the
      elements hold, once both identifiers are acceptable. */
  lemma ItemsCheckedFirst(body: Json, reply: RpcReply)
    requires IsObject(body) && IsUuid(Property(body, "businessId")) && IsUuid(Property(body, "idempotencyKey"))
    requires !IsNonEmptyArray(Property(body, "items"))
    ensures Post(Some(body), reply) == Handled(None, ErrorReply(ItemsMessage))
  {
  }

  /** An invalid item means no call is made, and the first invalid item's
      exception escapes the handler instead of a 400 answer. */
  lemma InvalidItemThrows(body: Json, reply: RpcReply, i: nat)
    requires IsObject(body) && Violations(body) == []
    requires i < |Property(body, "items").value.elems|
    requires NormalizeItem(Property(body, "items").value.elems[i]).Failure?
    ensures Post(Some(body), reply).call.None?
    ensures Post(Some(body), reply).response.Uncaught?
    ensures exists j | 0 <= j <= i ::
      NormalizeItem(Property(body, "items").value.elems[j]) == Failure(Post(Some(body), reply).response.thrown)
  {
    var elems := Property(body, "items").value.elems;
    assert NormalizeItems(elems).Failure?;
    var e := NormalizeItems(elems).error;
    var j :| 0 <= j < |elems| && NormalizeItem(elems[j]) == Failure(e)
      && forall k | 0 <= k < j :: NormalizeItem(elems[k]).Success?;
    assert j <= i;
  }

  /** When no call is made, the answer does not depend on what the procedure
      would have replied. */
  lemma NoCallNoDependence(body: Option<Json>, r1: RpcReply, r2: RpcReply)
    requires Post(body, r1).call.None?
    ensures Post(body, r2) == Post(body, r1)
  {
  }

  /** The procedure receives exactly the body's `businessId` and
      `idempotencyKey` and the normalised items, which keep the length and
      order of `items`; element `i` carries item `i`'s `product_id` and `qty`
      and no other field, with a UUID `product_id` and a `qty` of at least 1.
      The answer is 400 with the procedure's error message, or 200 with
      `{ orderId: data }`. */
  lemma CallCarriesRequest(body: Json, reply: RpcReply)
    requires IsObject(body) && Post(Some(body), reply).call.Some?
    ensures var c := Post(Some(body), reply).call.value;
      var elems := Property(body, "items").value.elems;
      Property(body, "businessId") == Some(JStr(c.businessId))
      && Property(body, "idempotencyKey") == Some(JStr(c.idempotencyKey))
      && |c.items| == |elems|
      && forall i | 0 <= i < |elems| ::
           ItemRecord(c.items[i]).fields.Keys == {"product_id", "qty"}
           && Some(ItemRecord(c.items[i]).fields["product_id"]) == Property(elems[i], "product_id")
           && Some(ItemRecord(c.items[i]).fields["qty"]) == Property(elems[i], "qty")
           && IsUuidString(c.items[i].productId) && c.items[i].qty >= 1
    ensures CallArguments(Post(Some(body), reply).call.value).Keys == {"p_business_id", "p_idempotency_key", "p_items"}
    ensures var r := Post(Some(body), reply).response;
      (reply.RpcError? ==> r == ErrorReply(reply.message))
      && (reply.RpcData? ==> r.Reply? && r.status == 200 && r.body.fields == map["orderId" := reply.data])
      && (reply.RpcThrew? ==> r == ErrorReply(CaughtMessage(reply.thrown)))
  {
    var c := Post(Some(body), reply).call.value;
    var elems := Property(body, "items").value.elems;
    forall i | 0 <= i < |elems|
      ensures Some(ItemRecord(c.items[i]).fields["product_id"]) == Property(elems[i], "product_id")
      ensures Some(ItemRecord(c.items[i]).fields["qty"]) == Property(elems[i], "qty")
      ensures IsUuidString(c.items[i].productId) && c.items[i].qty >= 1
    {
      assert NormalizeItem(elems[i]) == Success(c.items[i]);
    }
  }

  /** A single well-formed item `{ product_id, qty }` is passed on as it is. */
  lemma SingleItem(id: string, qty: nat)
    requires IsUuidString(id) && qty >= 1
    ensures var item := JObj(map["product_id" := JStr(id), "qty" := JNum(Integer(qty))]);
      NormalizeItems([item]) == Success([Item(id, qty)])
  {
    var item := JObj(map["product_id" := JStr(id), "qty" := JNum(Integer(qty))]);
    assert NormalizeItem(item) == Success(Item(id, qty));
    assert [item][0] == item && [item][1..] == [];
    assert NormalizeItems([]) == Success([]);
    assert [Item(id, qty)] + [] == [Item(id, qty)];
  }
}
