# Request handling of the purchase, product, business and overdue-listing routes

This project models the request validation and normalisation layer of four
Next.js route handlers, and proves properties of that model. The handlers
put a JSON API in front of a Supabase database:

- `POST /api/purchase` checks `businessId`, `idempotencyKey` and a non-empty
  `items` array. It normalises every item to `{ product_id, qty }` and calls
  the `process_purchase` stored procedure.
- `POST /api/products` runs a chain of guards. It then inserts one product
  row with `sku` and `name` trimmed.
- `POST /api/businesses` checks `name` and `creditLimitCents`. It inserts the
  business, then inserts its credit account with a zero balance. If the
  account insert reports an error, it deletes the business again.
- `GET /api/overdue-businesses` checks two optional ISO-8601 date filters and
  the `page` and `pageSize` parameters. It asks the `get_overdue_businesses`
  stored procedure for one page of rows. It answers with
  `{ items, page, pageSize, total }`.

Layout, one module per file:

- `Wrappers` holds `Option` and `Result`.
- `Js` holds the JavaScript values the handlers inspect: JSON values, numbers
  as far as `Number.isInteger` tells them apart, thrown values and
  `String.prototype.trim`.
- `Trimming` holds trimming for any set of removable characters, described by
  the two indices where the trimmed string starts and ends.
- `Api` holds responses, the database replies and the two body checks every
  POST handler shares.
- `Regex` is a small backtracking matcher for the regular expressions.
- `Uuid` and `IsoDate` are the two patterns. Each is proved equal to an
  independent position-by-position description.
- `Purchase`, `Products`, `Businesses` and `OverdueBusinesses` are the four
  handlers.

How the database calls are modelled:

- A pure handler is a function from the request, and from what the database
  call would reply, to `Handled(call, response)`. `call` is the request sent
  to the database, or `None` when none was sent.
- Lemmas show that a reply the handler never asked for does not change the
  answer: `NoCallNoDependence` in the purchase, product and overdue handlers,
  and for the business handler `RejectedIgnoresReplies`,
  `UnsentRepliesIgnored` and `DeleteReplyIgnoredWithoutRollback`.
- The business route changes two tables step by step. `Businesses.Ledger` is
  a class holding the two tables and a log of the requests sent to them.
- Its method `CreateBusiness` is proved to leave the tables as the function
  `Businesses.Create` says. The properties of the rollback are lemmas about
  `Create`.

## Model

| member | source | states |
|---|---|---|
| `Api.ReadBody` | src/app/api/purchase/route.ts:13-23 | a body that is not JSON gets 400 "Invalid JSON body"; a JSON value that is not an object or array (including `null`) gets 400 "Invalid request body"; otherwise the body goes on unchanged and is not `null` |
| `Api.ErrorReply` | src/app/api/purchase/route.ts:74-75 | an error answer has status 400 and a body with only the `error` key, holding the message |
| `Api.OkReply` | src/app/api/purchase/route.ts:72 | a success answer has status 200 and a body with only the given key, holding the value |
| `Js.IsObject` | src/app/api/purchase/route.ts:21 | the body check (falsy, or `typeof` not `"object"`) passes exactly for objects and arrays; `Api.ReadBody` states what follows from it |
| `Js.CaughtMessage` | src/app/api/purchase/route.ts:73-75 | a caught `Error` gives its message; any other thrown value gives "Unexpected error" |
| `Js.Property` | src/app/api/purchase/route.ts:25-29 | a destructured property is defined exactly when the value is an object that has the key, and it is then that key's value |
| `Js.PositiveInteger` | src/app/api/purchase/route.ts:54 | the value is accepted exactly when it is a number that is an integer and greater than 0, and that number is returned |
| `Js.NonNegativeInteger` | src/app/api/products/route.ts:45 | the value is accepted exactly when it is a number that is an integer and at least 0, and that number is returned |
| `Js.IsWhitespace` | src/app/api/products/route.ts:37 | the characters `trim()` removes: the ECMAScript WhiteSpace and LineTerminator code points; used by `Js.TrimIsInfix` and `Js.TrimEmptyIff` |
| `Js.Trim` | src/app/api/products/route.ts:61-62 | `s.trim()`; what it gives is stated by `Js.TrimIsInfix`, `Js.TrimEmptyIff`, `Js.TrimPadded` and `Js.TrimIdempotent` |
| `Js.IsNonBlank` | src/app/api/products/route.ts:37 | `typeof v === "string" && v.trim().length > 0`; by `Js.TrimEmptyIff` it fails exactly for a missing value, a non-string and a whitespace-only string |
| `Js.TrimIsInfix` | src/app/api/products/route.ts:61-62 | `trim()` gives the part of the string between a whitespace-only prefix and a whitespace-only suffix; the result is empty, or starts and ends with a character that is not whitespace |
| `Js.TrimEmptyIff` | src/app/api/products/route.ts:37 | `s.trim().length === 0` holds exactly when every character of `s` is JavaScript whitespace or a line terminator |
| `Js.TrimPadded` | src/app/api/products/route.ts:61-62 | padding a string that neither starts nor ends with whitespace on both sides with whitespace, then trimming, gives the string back |
| `Js.TrimIdempotent` | src/app/api/products/route.ts:61-62 | trimming an already trimmed string changes nothing |
| `Uuid.IsUuid` | src/app/api/purchase/route.ts:8-10 | `isUuid`: a string the pattern accepts; `Uuid.UuidIffShape` and `Uuid.NonStringsRejected` state which values those are |
| `Uuid.UuidIffShape` | src/app/api/purchase/route.ts:5-10 | the UUID pattern accepts exactly the strings of length 36 with `-` at indices 8, 13, 18 and 23, a digit `1`-`5` at index 14, one of `89abAB` at index 19 and a hex digit of either case at every other index |
| `Uuid.UuidGroups` | src/app/api/purchase/route.ts:6 | an accepted UUID has length 36, `-` at indices 8, 13, 18 and 23, and hex digits everywhere else, so it is five hex groups of lengths 8-4-4-4-12 |
| `Uuid.CaseInsensitive` | src/app/api/purchase/route.ts:6 | under the `i` flag a string is accepted exactly when its lower-case form is accepted |
| `Uuid.NonStringsRejected` | src/app/api/purchase/route.ts:8-10 | `isUuid` rejects a missing value and any value that is not a string |
| `Uuid.VersionChecked` | src/app/api/purchase/route.ts:6 | a 36-character string whose version nibble (index 14) is not `1`-`5` is rejected, for example the nil UUID |
| `Uuid.VariantChecked` | src/app/api/purchase/route.ts:6 | a 36-character string whose variant character (index 19) is not one of `89abAB` is rejected |
| `IsoDate.IsIsoDate` | src/app/api/overdue-businesses/route.ts:5-12 | `isoDateRegex.test(value)`; `IsoDate.IsoIffShape` states which strings it accepts |
| `IsoDate.IsoIffShape` | src/app/api/overdue-businesses/route.ts:5-6 | the date pattern accepts exactly `YYYY-MM-DD`, or that date followed by a `t`, `T` or space, `HH:MM:SS`, an optional `.` with at least one digit (all following digits taken), and then nothing, a `Z` or `+HH:MM`/`-HH:MM` |
| `IsoDate.NoRangeCheck` | src/app/api/overdue-businesses/route.ts:5-6 | the digits are not range-checked: month 13, day 45 and hour 99 are accepted |
| `IsoDate.FractionNeedsDigit` | src/app/api/overdue-businesses/route.ts:5-6 | every string with a `.` right after the seconds (index 19) that is not followed by a digit is rejected |
| `Purchase.NormalizeItem` | src/app/api/purchase/route.ts:46-58 | an item is normalised exactly when it is not `null`, its `product_id` is a UUID and its `qty` a positive integer; the result carries those two values; `null` throws a TypeError, a bad `product_id` and then a bad `qty` throw their own errors |
| `Purchase.NormalizeItems` | src/app/api/purchase/route.ts:46-59 | the map succeeds exactly when every item normalises; the output has the same length and element `i` is item `i` normalised; a failure is the exception of the first item that throws |
| `Purchase.Post` | src/app/api/purchase/route.ts:12-77 | without a call the answer is a 400 or an escaping exception; an exception escapes only before the call; every reply is 200 or 400, and 200 exactly when the procedure was called and gave data |
| `Purchase.FirstViolationWins` | src/app/api/purchase/route.ts:31-44 | checks run in the order businessId, idempotencyKey, items; a request failing several gets only the first one's 400, and nothing is sent |
| `Purchase.ItemsCheckedFirst` | src/app/api/purchase/route.ts:42-44 | a missing, non-array or empty `items` gets 400 before any element is inspected |
| `Purchase.NoViolationPassesGuards` | src/app/api/purchase/route.ts:42-66 | once the three checks pass, the procedure is called exactly when every item normalises; otherwise an exception escapes |
| `Purchase.InvalidItemThrows` | src/app/api/purchase/route.ts:46-61 | an invalid item means no call is made and the answer is an exception escaping the handler, raised by an item at or before the invalid one, not a 400 answer |
| `Purchase.CallCarriesRequest` | src/app/api/purchase/route.ts:46-72 | the procedure receives the body's `businessId` and `idempotencyKey` and items of the same length and order, element `i` carrying exactly item `i`'s `product_id` and `qty` with a UUID and a qty of at least 1; an error gives 400 with its message, data gives 200 with `{ orderId: data }`, an exception gives 400 with its message |
| `Purchase.NoCallNoDependence` | src/app/api/purchase/route.ts:31-66 | when no call is made, the answer does not depend on the procedure's reply |
| `Purchase.SingleItem` | src/app/api/purchase/route.ts:46-59 | a one-item array with a UUID `product_id` and a positive `qty` normalises to that item |
| `Products.Validate` | src/app/api/products/route.ts:33-65 | the request is accepted exactly when no guard fails, and otherwise the first failing guard's message is the error; the row holds the body's `businessId` (a UUID), `sku` and `name` trimmed and not empty, and `stock` and `priceCents` unchanged |
| `Products.Post` | src/app/api/products/route.ts:12-78 | an insert carries the checked body, as `Products.Validate` builds it; every answer is 200 or 400, and 200 exactly when the insert gave back a row |
| `Products.NoInsertOnViolation` | src/app/api/products/route.ts:33-57 | when a guard fails, no insert is sent and the answer is that guard's 400 |
| `Products.InsertIffValid` | src/app/api/products/route.ts:12-57 | an insert is sent exactly when the body is an object that passes every guard |
| `Products.WhitespaceOnlyRejected` | src/app/api/products/route.ts:37-39 | a `sku` made of whitespace only is rejected as "sku is required" |
| `Products.WhitespaceOnlyNameRejected` | src/app/api/products/route.ts:41-43 | once `sku` has passed, a `name` made of whitespace only is rejected as "name is required" |
| `Products.InsertedFieldsTrimmed` | src/app/api/products/route.ts:59-65 | the inserted `sku` and `name` neither start nor end with whitespace |
| `Products.InsertRecordCarriesBody` | src/app/api/products/route.ts:59-65 | the object passed to `insert` has exactly the keys `business_id`, `sku`, `name`, `stock` and `price_cents`, holding the body's `businessId`, `stock` and `priceCents` unchanged and its `sku` and `name` trimmed |
| `Products.AnswerAfterInsert` | src/app/api/products/route.ts:69-77 | a returned row gives 200 with `{ productId }`; an insert error gives 400 with its message; no row and no error gives 400 "Failed to create product"; an exception gives 400 with its message |
| `Products.NoCallNoDependence` | src/app/api/products/route.ts:12-57 | when no insert is sent, the answer does not depend on the insert's reply |
| `Businesses.Validate` | src/app/api/businesses/route.ts:23-36 | the request is accepted exactly when `name` is non-empty after trimming and `creditLimitCents` is an integer of at least 0, checked in that order; the result holds the trimmed name and the limit unchanged |
| `Businesses.Create` | src/app/api/businesses/route.ts:5-70 | at most three requests are appended to the log and the earlier ones are kept; no id other than the one the business insert gave back is added to either table, and without such an id neither table changes |
| `Businesses.Ledger.InsertBusiness` | src/app/api/businesses/route.ts:39-43 | the business row exists afterwards exactly when its id came back, and the request is logged |
| `Businesses.Ledger.InsertAccount` | src/app/api/businesses/route.ts:52-58 | the account row, with the limit and `balance_cents` 0, exists afterwards exactly when the insert went through, and the request is logged |
| `Businesses.Ledger.DeleteBusiness` | src/app/api/businesses/route.ts:61 | the business with that id is gone afterwards exactly when the delete went through, and the request is logged |
| `Businesses.Ledger.CreateBusiness` | src/app/api/businesses/route.ts:5-70 | the tables, the log and the answer end up as `Businesses.Create` describes, and no account is left without its business |
| `Businesses.NoWriteOnViolation` | src/app/api/businesses/route.ts:23-38 | a failed check returns the first failing check's 400 before any table is written |
| `Businesses.NoWriteOnBadBody` | src/app/api/businesses/route.ts:8-16 | a body that is not JSON or not an object writes nothing and gets 400 |
| `Businesses.BusinessInsertedFirst` | src/app/api/businesses/route.ts:38-43 | for an accepted request, the first request sent is the business insert with the trimmed name |
| `Businesses.NoAccountWithoutBusiness` | src/app/api/businesses/route.ts:45-50 | when the business insert gives no id, no account insert is sent, no table changes, and the answer is 400 with the error's message or "Failed to create business" |
| `Businesses.UnsentRepliesIgnored` | src/app/api/businesses/route.ts:45-50 | when the business insert gives no id, what the account insert and the delete would have replied does not matter |
| `Businesses.RejectedIgnoresReplies` | src/app/api/businesses/route.ts:8-36 | a body that is not JSON, not an object, or fails a check sends nothing, so none of the three replies changes the outcome |
| `Businesses.DeleteReplyIgnoredWithoutRollback` | src/app/api/businesses/route.ts:60-63 | the delete is sent only after the account insert reports an error; otherwise its reply changes nothing |
| `Businesses.AccountForNewBusiness` | src/app/api/businesses/route.ts:52-58 | the account is requested for the new business id, with the requested limit and a zero balance |
| `Businesses.RollbackDeletesNewBusiness` | src/app/api/businesses/route.ts:60-63 | when the account insert reports an error, the last request is a delete of exactly the new id; the business stays if that delete does not go through; the answer is 400 with the account error's message, or with the delete's exception when the delete throws |
| `Businesses.SuccessIffBothInserted` | src/app/api/businesses/route.ts:45-65 | the answer is 200 exactly when the request is accepted and both inserts go through; it then carries `{ businessId }` with the new id, and the business and its account both exist |
| `Businesses.AlwaysAnswers` | src/app/api/businesses/route.ts:38-69 | every path ends in a 200 or a 400 answer; no exception leaves the handler |
| `Businesses.ConsistentKept` | src/app/api/businesses/route.ts:39-63 | no account is ever left without its business |
| `Businesses.OrphanIff` | src/app/api/businesses/route.ts:52-68 | starting from tables where every business has an account, a business is left without an account exactly when it was inserted and then the account insert threw, or reported an error and the delete did not go through |
| `OverdueBusinesses.ParseDate` | src/app/api/overdue-businesses/route.ts:8-20 | `null` for a missing or empty value and for a value the pattern rejects; otherwise the runtime's ISO form of the date, or `null` for an invalid date |
| `OverdueBusinesses.ParamNumber` | src/app/api/overdue-businesses/route.ts:36-37 | a missing or empty parameter gives the default; otherwise `Number` of the text |
| `OverdueBusinesses.ValidPage` | src/app/api/overdue-businesses/route.ts:39-41 | `page` is accepted exactly when it is an integer greater than 0 |
| `OverdueBusinesses.ValidPageSize` | src/app/api/overdue-businesses/route.ts:43-48 | `pageSize` is accepted exactly when it is an integer from 1 to 100 |
| `OverdueBusinesses.Offset` | src/app/api/overdue-businesses/route.ts:50 | `(page - 1) * pageSize` on exact integers; its properties are `OverdueBusinesses.FirstPageAtZero`, `OffsetIsWholePages`, `PagesAdjacent` and `RowOnOnePage` |
| `OverdueBusinesses.FirstPageAtZero` | src/app/api/overdue-businesses/route.ts:50 | page 1 has offset 0 |
| `OverdueBusinesses.OffsetIsWholePages` | src/app/api/overdue-businesses/route.ts:50 | the offset is a multiple of `pageSize`, and dividing it by `pageSize` gives `page - 1` |
| `OverdueBusinesses.PagesAdjacent` | src/app/api/overdue-businesses/route.ts:50 | each page's offset is the previous page's offset plus `pageSize` |
| `OverdueBusinesses.RowOnOnePage` | src/app/api/overdue-businesses/route.ts:50 | row `k` of the full listing falls in the window of page `p` exactly when `p == k / pageSize + 1` |
| `OverdueBusinesses.StripTotal` | src/app/api/overdue-businesses/route.ts:69 | an item has every key of its row except `total_count`, with the same values |
| `OverdueBusinesses.Items` | src/app/api/overdue-businesses/route.ts:69 | one item per row, in the same order |
| `OverdueBusinesses.Total` | src/app/api/overdue-businesses/route.ts:65 | `total` is 0 without rows, and otherwise `Number` of the first row's `total_count` (of `undefined` when it has none) |
| `OverdueBusinesses.Get` | src/app/api/overdue-businesses/route.ts:22-80 | without a call the answer is a 400; a call asks for 1 to 100 rows; every answer is 200 or 400, and 200 exactly when the procedure was called and gave rows |
| `OverdueBusinesses.FirstViolationWins` | src/app/api/overdue-businesses/route.ts:29-48 | checks run in the order dates, page, pageSize; a request failing several gets only the first one's 400, and the procedure is not called |
| `OverdueBusinesses.CallIffValid` | src/app/api/overdue-businesses/route.ts:29-58 | the procedure is called exactly when no check fails |
| `OverdueBusinesses.MalformedDateRejected` | src/app/api/overdue-businesses/route.ts:29-34 | a date parameter given in a shape the pattern rejects gets 400 "Invalid date format" before anything else is looked at |
| `OverdueBusinesses.DateFilters` | src/app/api/overdue-businesses/route.ts:29-58 | a missing or empty date parameter becomes a `null` filter; a given one is sent as its ISO form and matched the pattern |
| `OverdueBusinesses.Defaults` | src/app/api/overdue-businesses/route.ts:36-37 | without `page` and `pageSize` (or with them empty), 20 rows from offset 0 are requested |
| `OverdueBusinesses.CallWithinBounds` | src/app/api/overdue-businesses/route.ts:36-58 | the procedure is asked for 1 to 100 rows, from an offset that is a whole number of pages; limit and offset give back the validated `pageSize` and `page` |
| `OverdueBusinesses.AnswerShape` | src/app/api/overdue-businesses/route.ts:64-75 | rows give 200 with exactly `items`, `page`, `pageSize` and `total`; the validated `page` and `pageSize` are echoed; `total` comes from the rows; the items are the rows without `total_count`, same count and order |
| `OverdueBusinesses.NonArrayIsEmpty` | src/app/api/overdue-businesses/route.ts:64-65 | `data` that is not an array is read as no rows: no items and total 0 |
| `OverdueBusinesses.FailedCallAnswered` | src/app/api/overdue-businesses/route.ts:60-79 | an error from the procedure, or an exception, gets 400 with its message |
| `OverdueBusinesses.NoCallNoDependence` | src/app/api/overdue-businesses/route.ts:29-58 | when no call is made, the answer does not depend on the procedure's reply |

## Left out

- The `process_purchase` and `get_overdue_businesses` stored procedures. Their bodies live in the database and are not part of this model. Each is an abstract reply: data, an error, or an exception.
- The Supabase client, `request.json()`, `new URL(...)` and `NextResponse`. Only their outcomes appear, as parameters: the parsed body or its absence, the query parameters, the reply of each table request, and the answer's status and JSON value.
- An exception from a table insert or from the compensating delete is taken to mean that request changed nothing. The model does not cover a request that commits and then fails to report it; `Businesses.OrphanIff` counts a business whose delete threw as still present.
- `Businesses.Ledger.CreateBusiness` assumes the id the database hands out for a new business is not yet used in either table. The database generates that key; this is not a check in the handler.
- An error object whose `message` is missing, which `error?.message ?? ...` would replace by the fixed text. Error objects always carry a message here.
- `new Date(value).toISOString()` and `Number(...)` are JavaScript conversions on doubles. They are the parameters `toIso` and `number` of `OverdueBusinesses.Get`, and nothing is assumed about them.
- Numbers are integers or "not an integer", which is all `Number.isInteger` looks at. Double precision and its rounding are not modelled.
- `OverdueBusinesses.Offset`: for a very large `page`, `(page - 1) * pageSize` is rounded in double precision, or becomes `Infinity`, which JSON sends as `null`. `OffsetIsWholePages`, `RowOnOnePage` and `CallWithinBounds` hold of the model's exact integers only.
- `OverdueBusinesses.Total`: a `NaN` total is serialised by `JSON.stringify` as `null`. The model keeps the number as the handler computed it.
- Rows of `get_overdue_businesses` that are not objects, for example `null`, on which destructuring would throw. Rows are modelled as objects.
- Regular expressions are modelled only as far as the two patterns use them: character classes, optional groups, alternation and `+`.
- `src/app/api/products/[productId]/route.ts`, `src/app/api/overdue/route.ts` and `scripts/seed.mjs` are not part of this model. The overdue route is a thin wrapper around one procedure, with the same `isUuid`. The seed script only writes fixed rows.
- Concurrency and retries. The handlers keep no state between requests; whatever happens concurrently happens in the database.
