/**
 * What the route handlers have in common: the response they produce, the
 * call (if any) they send to the database, the replies the database client
 * can give, and the two guards every JSON body goes through.
 */
module Api {
  import opened Wrappers
  import opened Js

  /** `NextResponse.json(body, { status })`, or an exception that escapes the
      handler (the framework then answers on its own). */
  datatype Response =
    | Reply(status: int, body: Json)
    | Uncaught(thrown: Thrown)

  /** `NextResponse.json({ error: message }, { status: 400 })` */
  function ErrorReply(message: string): (r: Response)
    ensures r.Reply? && r.status == 400 && r.body.JObj?
    ensures r.body.fields.Keys == {"error"} && r.body.fields["error"] == JStr(message)
  {
    Reply(400, JObj(map["error" := JStr(message)]))
  }

  /** `NextResponse.json({ key: value }, { status: 200 })` */
  function OkReply(key: string, value: Json): (r: Response)
    ensures r.Reply? && r.status == 200 && r.body.JObj?
    ensures r.body.fields.Keys == {key} && r.body.fields[key] == value
  {
    Reply(200, JObj(map[key := value]))
  }

  predicate IsErrorReply(r: Response) {
    r.Reply? && r.status == 400
  }

  /** One run of a handler: the database request it issued (`None`: it issued
      none) and what it answered. */
  datatype Handled<C> = Handled(call: Option<C>, response: Response)

  /** What `await client.from(t).insert(row).select("id").single()` gives: the
      new row's id, an error object, neither, or an exception. */
  datatype InsertReply =
    | Inserted(id: string)
    | InsertError(message: string)
    | NoRow
    | InsertThrew(thrown: Thrown)

  /** What `await client.from(t).insert(row)` or `.delete()` gives: no error, an
      error object, or an exception. */
  datatype WriteReply =
    | Written
    | WriteError(message: string)
    | WriteThrew(thrown: Thrown)

  /** What `await client.rpc(name, args)` gives: `data`, an error object, or an
      exception. */
  datatype RpcReply =
    | RpcData(data: Json)
    | RpcError(message: string)
    | RpcThrew(thrown: Thrown)

  const InvalidJsonMessage := "Invalid JSON body"
  const InvalidBodyMessage := "Invalid request body"

  /** `await request.json()` (`None`: the body is not JSON) followed by the
      check that the result is an object. */
  function ReadBody(parsed: Option<Json>): (r: Result<Json, Response>)
    ensures r.Success? <==> parsed.Some? && IsObject(parsed.value)
    ensures r.Success? ==> r.value == parsed.value && !r.value.JNull?
    ensures r == Failure(ErrorReply(InvalidJsonMessage)) <==> parsed.None?
    ensures r.Failure? && parsed.Some? ==> r.error == ErrorReply(InvalidBodyMessage)
  {
    if parsed.None? then Failure(ErrorReply(InvalidJsonMessage))
    else if !IsObject(parsed.value) then Failure(ErrorReply(InvalidBodyMessage))
    else Success(parsed.value)
  }
}
