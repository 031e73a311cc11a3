/**
  The REST routes over the order store. Each handler maps the outcome of
  validation and of its store call to a response: a status code and a
  payload. A store call's outcome is either the value it returned or an
  exception, which every route turns into a 500.
*/
module Routes {
  import opened Wrappers
  import opened Schema
  import opened Storage
  import Js

  /** What a store call did: returned a value, or threw. */
  datatype Outcome<T> = Returned(value: T) | Threw

  /** The JSON a route sends back. */
  datatype Payload =
    | OrderJson(order: Order)
    | OrderListJson(orders: seq<Order>)
      /** A validation failure; the message text is rendered from these issues. */
    | IssuesJson(issues: seq<Issue>)
    | Message(text: string)
    | NoContent

  datatype Response = Response(status: nat, payload: Payload)

  const OrderNotFound: string := "Order not found"
  const FetchOrdersFailed: string := "Failed to fetch orders"
  const FetchOrderFailed: string := "Failed to fetch order"
  const CreateOrderFailed: string := "Failed to create order"
  const UpdateOrderFailed: string := "Failed to update order"
  const DeleteOrderFailed: string := "Failed to delete order"

  const DefaultPage: int := 1
  const DefaultLimit: int := 10

  /**
    `parseInt(raw) || fallback`: NaN and zero are falsy and give the
    fallback; every other number, negative ones included, is kept. An absent
    query parameter parses as NaN.
  */
  function IntOrDefault(raw: Option<string>, fallback: int): (r: int)
    ensures fallback != 0 ==> r != 0
    ensures raw.None? ==> r == fallback
    ensures r == fallback || (raw.Some? && Js.ParseInt(raw.value) == Some(r))
    ensures raw.Some? && Js.ParseInt(raw.value).Some? && Js.ParseInt(raw.value).value != 0 ==>
      r == Js.ParseInt(raw.value).value
  {
    if raw.None? then fallback
    else
      match Js.ParseInt(raw.value)
      case None => fallback
      case Some(n) => if n == 0 then fallback else n
  }

  /** A page or limit written in decimal is taken as written, except that zero gives the default. */
  lemma IntOrDefaultDecimal(n: int, fallback: int)
    ensures IntOrDefault(Some(Js.DecimalString(n)), fallback) == if n == 0 then fallback else n
  {
    Js.ParseIntDecimal(n);
  }

  /** The query string of `GET /api/orders`. */
  datatype ListQuery = ListQuery(search: Option<string>, page: Option<string>, limit: Option<string>)

  /** The arguments the list route hands to `getAllOrders`. */
  datatype ListArgs = ListArgs(search: Option<string>, page: int, limit: int)

  /**
    The search term as given; the page and limit as `parseInt` reads them,
    or their defaults when absent, unreadable or zero. Neither is ever zero.
  */
  function ListArguments(q: ListQuery): (a: ListArgs)
    ensures a.search == q.search
    ensures a.page != 0 && a.limit != 0
    ensures q.page.None? ==> a.page == DefaultPage
    ensures q.limit.None? ==> a.limit == DefaultLimit
    ensures q.page.Some? ==>
      a.page == if Js.ParseInt(q.page.value) in {None, Some(0)} then DefaultPage else Js.ParseInt(q.page.value).value
    ensures q.limit.Some? ==>
      a.limit == if Js.ParseInt(q.limit.value) in {None, Some(0)} then DefaultLimit else Js.ParseInt(q.limit.value).value
  {
    ListArgs(q.search, IntOrDefault(q.page, DefaultPage), IntOrDefault(q.limit, DefaultLimit))
  }

  /** `GET /api/orders`: 200 with what the store listed, 500 when it threw. */
  function ListResponse(listed: Outcome<seq<Order>>): (r: Response)
    ensures r.status in {200, 500}
    ensures r.status == 200 <==> listed.Returned?
    ensures listed.Returned? ==> r.payload == OrderListJson(listed.value)
    ensures listed.Threw? ==> r.payload == Message(FetchOrdersFailed)
  {
    match listed
    case Returned(orders) => Response(200, OrderListJson(orders))
    case Threw => Response(500, Message(FetchOrdersFailed))
  }

  /** `GET /api/orders/:id`: 200 with the order, 404 when there is none, 500 when the store threw. */
  function GetResponse(found: Outcome<Option<Order>>): (r: Response)
    ensures r.status in {200, 404, 500}
    ensures r.status == 200 <==> found.Returned? && found.value.Some?
    ensures r.status == 404 <==> found == Returned(None)
    ensures r.status == 200 ==> r.payload == OrderJson(found.value.value)
    ensures r.status == 404 ==> r.payload == Message(OrderNotFound)
    ensures r.status == 500 ==> r.payload == Message(FetchOrderFailed)
  {
    match found
    case Returned(None) => Response(404, Message(OrderNotFound))
    case Returned(Some(order)) => Response(200, OrderJson(order))
    case Threw => Response(500, Message(FetchOrderFailed))
  }

  /**
    `POST /api/orders`: 400 with the issues when the body fails the create
    schema, whatever the store would have done; otherwise 201 with the
    created order, or 500 when the store threw.
  */
  function CreateResponse(body: Body, created: Outcome<Order>): (r: Response)
    ensures r.status in {201, 400, 500}
    ensures r.status == 400 <==> !AcceptsInsert(body)
    ensures r.status == 400 ==> r.payload == IssuesJson(CreateIssues(body)) && CreateIssues(body) != []
    ensures r.status == 201 <==> AcceptsInsert(body) && created.Returned?
    ensures r.status == 201 ==> r.payload == OrderJson(created.value)
    ensures r.status == 500 ==> r.payload == Message(CreateOrderFailed)
  {
    match ParseInsert(body)
    case Failure(issues) => Response(400, IssuesJson(issues))
    case Success(_) =>
      match created
      case Returned(order) => Response(201, OrderJson(order))
      case Threw => Response(500, Message(CreateOrderFailed))
  }

  /**
    `PATCH /api/orders/:id`: 400 with the issues when the body fails the
    update schema, before the store is asked; otherwise 200 with the updated
    order, 404 when the store found none, 500 when it threw.
  */
  function UpdateResponse(body: Body, updated: Outcome<Option<Order>>): (r: Response)
    ensures r.status in {200, 400, 404, 500}
    ensures r.status == 400 <==> !AcceptsUpdate(body)
    ensures r.status == 400 ==> r.payload == IssuesJson(UpdateIssues(body)) && UpdateIssues(body) != []
    ensures r.status == 200 <==> AcceptsUpdate(body) && updated.Returned? && updated.value.Some?
    ensures r.status == 200 ==> r.payload == OrderJson(updated.value.value)
    ensures r.status == 404 <==> AcceptsUpdate(body) && updated == Returned(None)
    ensures r.status == 404 ==> r.payload == Message(OrderNotFound)
    ensures r.status == 500 ==> r.payload == Message(UpdateOrderFailed)
  {
    match ParseUpdate(body)
    case Failure(issues) => Response(400, IssuesJson(issues))
    case Success(_) =>
      match updated
      case Returned(None) => Response(404, Message(OrderNotFound))
      case Returned(Some(order)) => Response(200, OrderJson(order))
      case Threw => Response(500, Message(UpdateOrderFailed))
  }

  /** `DELETE /api/orders/:id`: 204 with no body when an order was removed, 404 when none was, 500 when the store threw. */
  function DeleteResponse(deleted: Outcome<bool>): (r: Response)
    ensures r.status in {204, 404, 500}
    ensures r.status == 204 <==> deleted == Returned(true)
    ensures r.status == 404 <==> deleted == Returned(false)
    ensures r.status == 204 ==> r.payload == NoContent
    ensures r.status == 404 ==> r.payload == Message(OrderNotFound)
    ensures r.status == 500 ==> r.payload == Message(DeleteOrderFailed)
  {
    match deleted
    case Returned(true) => Response(204, NoContent)
    case Returned(false) => Response(404, Message(OrderNotFound))
    case Threw => Response(500, Message(DeleteOrderFailed))
  }

  /** A body that fails validation gets the same 400 whatever the store call would have produced. */
  lemma ValidationPrecedesStore(body: Body, c1: Outcome<Order>, c2: Outcome<Order>, u1: Outcome<Option<Order>>, u2: Outcome<Option<Order>>)
    ensures !AcceptsInsert(body) ==> CreateResponse(body, c1) == CreateResponse(body, c2)
    ensures !AcceptsUpdate(body) ==> UpdateResponse(body, u1) == UpdateResponse(body, u2)
  {
  }

  /**
    `GET /api/orders` against the in-memory store. The search, page and
    limit (`ListArguments`) are handed to `getAllOrders`, which takes no
    parameters: the response is the whole store, newest first, the same
    for every query.
  */
  function ListRoute(store: MemStorage, q: ListQuery): (r: Response)
    reads store
    requires store.Valid()
    ensures r == ListResponse(Returned(store.GetAllOrders()))
    ensures r.status == 200 && r.payload.OrderListJson?
    ensures NewestFirst(r.payload.orders)
    ensures |r.payload.orders| == |store.orders|
    ensures forall k :: k in store.orders ==> multiset(r.payload.orders)[store.orders[k]] == 1
    ensures forall o :: o in r.payload.orders ==> store.GetOrder(o.id) == Some(o)
  {
    ListResponse(Returned(store.GetAllOrders()))
  }

  /** `GET /api/orders/:id` against the in-memory store, which never throws. */
  function GetRoute(store: MemStorage, id: string): (r: Response)
    reads store
    requires store.Valid()
    ensures r.status in {200, 404}
    ensures r.status == 200 <==> id in store.orders
    ensures r.status == 200 ==> r.payload == OrderJson(store.orders[id]) && r.payload.order.id == id
    ensures r.status == 404 ==> r.payload == Message(OrderNotFound)
  {
    GetResponse(Returned(store.GetOrder(id)))
  }

  /**
    `POST /api/orders` against the in-memory store, with the fresh id and the
    current time supplied by the caller. A body that fails validation leaves
    the store as it was; a valid one adds one pending order and answers 201
    with it.
  */
  method CreateRoute(store: MemStorage, body: Body, freshId: string, now: int) returns (r: Response)
    requires store.Valid()
    requires freshId !in store.orders
    modifies store
    ensures store.Valid()
    ensures !AcceptsInsert(body) ==>
      && r == Response(400, IssuesJson(CreateIssues(body)))
      && store.orders == old(store.orders) && store.keyOrder == old(store.keyOrder)
    ensures AcceptsInsert(body) ==>
      && r == CreateResponse(body, Returned(NewOrder(ParseInsert(body).value, freshId, now)))
      && r.payload.order.status == DefaultStatus
      && store.orders == old(store.orders)[freshId := r.payload.order]
      && store.keyOrder == old(store.keyOrder) + [freshId]
      && store.GetOrder(freshId) == Some(r.payload.order)
  {
    var parsed := ParseInsert(body);
    if parsed.Failure? {
      r := Response(400, IssuesJson(parsed.error));
      return;
    }
    var order := store.CreateOrder(parsed.value, freshId, now);
    r := CreateResponse(body, Returned(order));
  }

  /**
    `PATCH /api/orders/:id` against the in-memory store. The store has no
    `updateOrder`, so once the body passes validation the call throws and the
    route answers 500; the id plays no part and nothing is changed.
  */
  function UpdateRoute(store: MemStorage, id: string, body: Body): (r: Response)
    ensures r.status in {400, 500}
    ensures r.status == 400 <==> !AcceptsUpdate(body)
    ensures r.status == 400 ==> r.payload == IssuesJson(UpdateIssues(body))
    ensures r.status == 500 ==> r.payload == Message(UpdateOrderFailed)
  {
    UpdateResponse(body, Threw)
  }

  /**
    `DELETE /api/orders/:id` against the in-memory store. The store has no
    `deleteOrder`, so the call throws and the route answers 500 for every id.
  */
  function DeleteRoute(store: MemStorage, id: string): (r: Response)
    ensures r == Response(500, Message(DeleteOrderFailed))
  {
    DeleteResponse(Threw)
  }
}
