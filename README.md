# Medicine order service: order store, validators and REST routes

This project models the server core of a small medicine-ordering web
service and proves properties of the model. It covers three parts.

- **The in-memory order store** (`MemStorage`). It holds a map from order
  id to order, creates orders, looks one up by id, and lists all of them
  newest first. The store is the class `Storage.MemStorage`. Its fields are
  the map and the sequence of its keys in insertion order, which is the
  iteration order of a JavaScript `Map`. `createOrder` updates both fields
  in place. The list sort is JavaScript's stable `Array.prototype.sort`.
  Here it is a stable insertion sort, proved to give newest first, to be a
  permutation of the stored orders, and to keep orders with the same time
  in creation order. Those three properties also pin down the result
  uniquely.
- **The request-body validators.** The create schema requires a name of at
  least 2 characters. It requires a phone of at least 10 characters that
  matches `^[0-9+\-\s()]+$`, and a medicine of at least 3 characters. It
  drops `id`, `createdAt` and `status`. The update schema makes every field
  optional, checks only the minimum lengths, and limits the status to four
  values. A validator returns the typed input or the list of every issue it
  found, as zod does. Members it does not know are dropped.
- **The REST routes.** Each handler is a function from the outcome of
  validation and of its store call to a status code and a payload. A store
  call returns a value or throws. Each route is also wired to the in-memory
  store. The `page` and `limit` query parameters use
  `parseInt(x) || default`, so JavaScript's `parseInt` (no radix) is
  modelled too. That covers white-space skipping, the sign, the `0x`
  prefix, the longest digit prefix, and NaN.

The modules are `Wrappers` (Option, Result), `Js` (white space,
`parseInt`), `Schema` (order record, validators), `Storage` (sort, store)
and `Routes` (handlers, routes).

### Where the routes and the store disagree

The routes expect more of the store than the in-memory store provides.
This model follows what the code does when it runs.

- The list route is commented as supporting "optional search and
  pagination" (server/routes.ts:20). It calls `getAllOrders(search, page,
  limit)` (server/routes.ts:27), but `getAllOrders` takes no parameters
  (server/storage.ts:17). JavaScript ignores the extra arguments, so the
  route answers 200 with the plain array of every stored order, newest
  first, the same for every query (`Routes.ListRoute`).
- The routes call `updateOrder` (server/routes.ts:69) and `deleteOrder`
  (server/routes.ts:87), but `MemStorage` (server/storage.ts:4-38) defines
  neither. With the in-memory store, a PATCH with a valid body, and every
  DELETE, throw a `TypeError`, and the routes answer 500
  (`Routes.UpdateRoute`, `Routes.DeleteRoute`). The handlers themselves
  (`Routes.UpdateResponse`, `Routes.DeleteResponse`) take the store's
  outcome as a parameter, so they also describe a store that has those
  methods.
- The store falls back to `"pending"` only when the status it is given is
  absent or empty (server/storage.ts:32). Every order created through the
  route is pending because the create schema omits `status`
  (shared/schema.ts:14-18), so a validated body never carries one
  (`Storage.ValidatedOrderIsPending`).

## Model

| member | source | states |
|---|---|---|
| Storage.MemStorage.constructor | server/storage.ts:13-15 | A new store is empty and well formed: no orders, no keys. |
| Storage.MemStorage.GetOrder | server/storage.ts:23-25 | An order is found exactly when an order was created under that id. The one found is the one stored, and it carries that id. |
| Storage.MemStorage.GetAllOrders | server/storage.ts:17-21 | The list is newest first and holds each stored order exactly once (same length as the store). Every listed order is the one found by its id. Orders with equal `createdAt` keep their insertion order from the map. |
| Storage.MemStorage.CreateOrder | server/storage.ts:27-37 | Builds the order from the input, the id and the time. Stores it under an unused id and appends the id to the iteration order. The store grows by one and stays well formed. The new order is found by its id, and every earlier lookup is unchanged. |
| Storage.NewOrder | server/storage.ts:29-34 | A new order carries the input's three strings, the given id and time, and the input's status, or "pending" when that is absent or empty. |
| Storage.StatusOrDefault | server/storage.ts:32 | `status \|\| "pending"`: a non-empty status is kept, an absent or empty one becomes "pending", and the result is never empty. |
| Storage.ValidatedOrderIsPending | server/storage.ts:32 | An order built from a body the create schema accepted is always "pending", because the schema drops the status. |
| Storage.InsertNewestFirst | server/storage.ts:18-20 | Insertion adds the new order to the multiset of orders and loses none. |
| Storage.InsertKeepsNewestFirst | server/storage.ts:18-20 | Inserting into a newest-first list keeps it newest first, so the new order goes in front of the first order that is not newer. |
| Storage.InsertWithCreatedAt | server/storage.ts:18-20 | Among the orders with the new order's time, the new order comes first. The orders of every other time are unchanged. |
| Storage.SortNewestFirst | server/storage.ts:18-20 | The sorted list is a permutation of its input. |
| Storage.SortIsNewestFirst | server/storage.ts:18-20 | The sort orders by `createdAt`, newest first (the comparator `b - a`). |
| Storage.SortIsStable | server/storage.ts:18-20 | For every time `t`, the orders created at `t` appear in the same relative order after the sort as before: the sort is stable. |
| Storage.NewestFirstStableUnique | server/storage.ts:18-20 | Two lists that are both newest first and agree on the relative order of each time's orders are equal. |
| Storage.SortIsTheStableNewestFirstOrder | server/storage.ts:18-20 | Any newest-first list that is stable with respect to the input is exactly the sort's result. |
| Storage.ValuesInOrder | server/storage.ts:18 | `Array.from(map.values())`: element `i` is the order stored under the `i`-th key in insertion order. |
| Storage.SortedValues | server/storage.ts:17-21 | For a well-formed store, sorting the map's values gives a list that is newest first, stable with respect to insertion order, has the store's size, holds each stored order exactly once, and holds only orders found under their own id. |
| Storage.ListTwoOrders | server/storage.ts:17-37 | Creating two orders in a fresh store and listing them gives the later one first. With equal times, they come in creation order. |
| Schema.CreateIssues | shared/schema.ts:14-22 | The create schema finds no issue exactly when the body is an object with a name of at least 2, a phone of at least 10 that matches the phone pattern, and a medicine of at least 3. It reports a bad phone pattern exactly when the phone is a string that fails it. It never complains about the status. |
| Schema.ParseInsert | shared/schema.ts:14-22 | Parsing succeeds exactly when the create schema accepts the body. A success carries the body's three strings and no status. A failure carries the non-empty list of issues. |
| Schema.CreateBodyRoundTrip | shared/schema.ts:14-22 | Sending an input as a body and parsing it gives the input back with its status dropped when the three fields are valid, and the issues otherwise. |
| Schema.UpdateIssues | server/routes.ts:8-13 | The update schema finds no issue exactly when the body is an object and each present member is a string meeting its minimum length, or, for the status, one of the four statuses. It never requires a member and never checks the phone pattern. |
| Schema.ParseUpdate | server/routes.ts:8-13 | Parsing succeeds exactly when the update schema accepts the body. A success carries exactly the members present, with a status that is one of the four. A failure carries the non-empty list of issues. |
| Js.TrimStart | server/routes.ts:24-25 | `parseInt`'s leading-blank skip: the result is a suffix of the input, everything removed is white space, and the result starts with a non-blank. |
| Js.DigitRunLength | server/routes.ts:24-25 | The digits `parseInt` reads: the longest prefix whose characters are digits in the radix. |
| Js.DecimalStringReadsBack | server/routes.ts:24-25 | A decimal rendering of `n` followed by text that cannot continue it parses back as `n`. |
| Js.ParseIntDecimal | server/routes.ts:24-25 | Reading back the plain decimal rendering of any integer `n` gives `n`. That rendering is `String(n)` for every `n` below 10^21 in magnitude. |
| Js.ParseInt | server/routes.ts:24-25 | `parseInt` with no radix gives NaN exactly when no digit of the radix follows the leading white space, the optional sign and the optional `0x`. A negative result comes only from text that starts with `-` after the white space. |
| Js.ParseIntIgnoresTrailingText | server/routes.ts:24-25 | `parseInt` stops at the first non-digit: any run of decimal digits followed by a non-digit reads as the digits alone, e.g. `"012abc"` as 12, unless the two together start with `0x`. |
| Js.ParseIntSkipsLeadingWhitespace | server/routes.ts:24-25 | Leading white space does not change what `parseInt` reads. |
| Routes.IntOrDefault | server/routes.ts:24-25 | `parseInt(raw) \|\| fallback`: an absent or unparsable value, or zero, gives the fallback. Any other parsed number, negative ones included, is kept. The result is never zero when the fallback is not zero. |
| Routes.IntOrDefaultDecimal | server/routes.ts:24-25 | A page or limit written in decimal is taken as written, and zero gives the default. |
| Routes.ListArguments | server/routes.ts:23-25 | The search term is passed through unchanged. The page and limit are the numbers `parseInt` reads (`"7"` gives 7, `"-3"` gives -3). They default to 1 and 10 when absent, when `parseInt` gives NaN, or when it gives zero, so neither is ever zero. |
| Routes.ListResponse | server/routes.ts:21-33 | 200 with the listed orders exactly when the store returned them, otherwise 500 with "Failed to fetch orders". |
| Routes.GetResponse | server/routes.ts:36-47 | 200 with the order exactly when the store found one, 404 "Order not found" exactly when it found none, 500 "Failed to fetch order" when it threw. |
| Routes.CreateResponse | server/routes.ts:50-63 | 400 with the issues exactly when the create schema rejects the body. 201 with the created order exactly when the body is valid and the store returned. 500 "Failed to create order" otherwise. |
| Routes.UpdateResponse | server/routes.ts:66-82 | 400 with the issues exactly when the update schema rejects the body. Otherwise 200 with the updated order, 404 exactly when the store found none, and 500 "Failed to update order" when it threw. |
| Routes.DeleteResponse | server/routes.ts:85-96 | 204 with no body exactly when the store deleted, 404 exactly when it did not, 500 "Failed to delete order" when it threw. |
| Routes.ValidationPrecedesStore | server/routes.ts:50-82 | A body that fails validation gets the same 400 whatever the store call would have produced. |
| Routes.ListRoute | server/routes.ts:21-33 | Against the in-memory store, the list route always answers 200. The list is newest first, has the store's size, holds every stored order once, and each listed order is found by its id. The response is the same for every query. |
| Routes.GetRoute | server/routes.ts:36-47 | Against the in-memory store, 200 with the stored order exactly when the id is stored, otherwise 404. Never 500. |
| Routes.CreateRoute | server/routes.ts:50-63 | A body the schema rejects gives 400 with its issues and leaves the store unchanged. A valid one adds exactly one "pending" order under the fresh id, found by that id, appends the id to the store's iteration order, and answers 201 with it. |
| Routes.UpdateRoute | server/routes.ts:66-82 | Against the in-memory store, which has no `updateOrder`: 400 with the issues exactly when the body is invalid, otherwise 500 "Failed to update order". |
| Routes.DeleteRoute | server/routes.ts:85-96 | Against the in-memory store, which has no `deleteOrder`: always 500 "Failed to delete order". |

## Left out

- Storage.MemStorage.CreateOrder: `randomUUID()` and `new Date()` become the parameters `id` and `now`. The method requires the id to be unused, standing in for the uniqueness of random UUIDs.
- Routes.CreateRoute: takes the fresh id and the time as parameters and requires the id to be unused, for the same reason.
- Routes.ListRoute: the search term, page and limit (`Routes.ListArguments`) do not affect the response, because `getAllOrders` ignores them. No filtering or pagination is modelled, because the store implements neither.
- Routes.UpdateResponse and Routes.DeleteResponse: the store's update and delete results are inputs. No update or delete semantics are modelled, because no store in the code defines them.
- String lengths: zod's `min` counts UTF-16 code units, while the model counts characters. So a character outside the Basic Multilingual Plane counts once here and twice in the service.
- `parseInt` results are exact integers. JavaScript numbers lose precision above 2^53, and a very long digit run becomes `Infinity`. `Js.DecimalString` is the plain decimal rendering. From 10^21 up, JavaScript's `String(n)` switches to exponent notation (`"1e+21"`), which `parseInt` reads as 1. `-0` and `+0` are one value here (both are falsy).
- Query parameters given more than once, which Express turns into arrays, are not modelled. A parameter is one string or absent.
- The 400 message text rendered by `fromZodError` is not modelled. The response carries the list of issues it is rendered from, one issue per failed check, in schema order.
- Times are integers in milliseconds. `createdAt` is always a valid `Date` made by the store, so the comparator never meets NaN.
- Not modelled: asynchrony (every store call is awaited in turn), Express routing, the HTTP server, JSON body parsing, error logging and the Drizzle table definition. Only the table's column default for `status` is used.
- The client pages are not part of this model.
