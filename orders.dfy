/** Order placement and listing (server/src/requests/orders.rs).
    `add_order` is one sequential pass: look the item up, compare the
    ordered quantity with its stock, insert the order, then overwrite the
    item's stock with the `quantity_diff` the client sent. What the database
    does at each step (an error, an empty result, the new document's
    metadata) is a parameter, so that every branch can be taken. */
module Orders {
  import opened Wrappers
  import opened Models

  /** The JSON body of `POST /api/add_order`. */
  datatype AddOrderReq = AddOrderReq(
    userId: string,
    itemId: string,
    itemName: string,
    quantity: i64,
    price: Price,
    quantityDiff: i64)

  const EXCEEDS := "Order quantity exceeds item quantity"
  const LOOKUP_FAILED := "Error retrieving item: "
  const ORDER_FAILED := "Error creating order: "
  const ORDER_NOT_CREATED := "Error creating order"
  const NO_ORDERS := "No orders found"
  const QUERY_FAILED := "Error getting item: "
  /** The database's message for a key that is not in the collection. */
  const DOCUMENT_NOT_FOUND := "document not found"

  /** `collection.document(item_id)`: a transport error, a missing key, or
      the stored item. */
  function LookupItem(items: map<string, Item>, itemId: string, lookupError: Option<string>): (r: Result<Item, string>)
    ensures r.Ok? <==> lookupError.None? && itemId in items
    ensures r.Ok? ==> r.value == items[itemId]
  {
    match lookupError
    case Some(e) => Err(e)
    case None => if itemId in items then Ok(items[itemId]) else Err(DOCUMENT_NOT_FOUND)
  }

  /** The order document the insert creates, as read back: the request's
      user, item, item name, quantity and price, the captured date, and the
      database's metadata. */
  function NewOrder(req: AddOrderReq, date: DateTime, meta: DocMeta): (o: Order)
    ensures o.userId == req.userId && o.itemId == req.itemId && o.itemName == req.itemName
    ensures o.quantity == req.quantity && o.price == req.price && o.date == date && o.meta == meta
  {
    Order(meta, date, req.userId, req.itemId, req.itemName, req.quantity, req.price)
  }

  /** The item after `update_document(item_id, {quantity: diff})`: the
      stock is replaced, every other field kept. */
  function WithStock(item: Item, quantity: i64): (updated: Item)
    ensures updated.quantity == quantity
    ensures updated.(quantity := item.quantity) == item
  {
    item.(quantity := quantity)
  }

  /** The response and the two collections after one `add_order`. */
  datatype Placement = Placement(response: Response<Order>, items: map<string, Item>, orders: seq<Order>)

  /** The lookup succeeded and the quantity is within the stock found. */
  predicate PassesCheck(items: map<string, Item>, req: AddOrderReq, lookupError: Option<string>) {
    lookupError.None? && req.itemId in items && req.quantity <= items[req.itemId].quantity
  }

  /** One `add_order`, as a transition of the item and order collections. */
  function PlaceOrder(items: map<string, Item>, orders: seq<Order>, req: AddOrderReq, date: DateTime,
                      lookupError: Option<string>, insert: InsertOutcome, updateError: Option<string>): (p: Placement)
    // a failed lookup: 500, nothing written
    ensures LookupItem(items, req.itemId, lookupError).Err? ==>
      p == Placement(Failure(INTERNAL_SERVER_ERROR, LOOKUP_FAILED + LookupItem(items, req.itemId, lookupError).error), items, orders)
    // too much ordered: 400, nothing written; an order of the whole stock passes
    ensures LookupItem(items, req.itemId, lookupError).Ok? && req.quantity > items[req.itemId].quantity ==>
      p == Placement(Failure(BAD_REQUEST, EXCEEDS), items, orders)
    // the insert failed or returned nothing: 400 or 500, nothing written
    ensures PassesCheck(items, req, lookupError) && insert.InsertError? ==>
      p == Placement(Failure(BAD_REQUEST, ORDER_FAILED + insert.msg), items, orders)
    ensures PassesCheck(items, req, lookupError) && insert.InsertedNothing? ==>
      p == Placement(Failure(INTERNAL_SERVER_ERROR, ORDER_NOT_CREATED), items, orders)
    // the insert succeeded: the order is logged whatever the stock update does
    ensures PassesCheck(items, req, lookupError) && insert.Inserted? ==>
      p.orders == orders + [NewOrder(req, date, insert.meta)]
    // ... and a failed update leaves the stock as it was (partial failure)
    ensures PassesCheck(items, req, lookupError) && insert.Inserted? && updateError.Some? ==>
      p.response == Failure(INTERNAL_SERVER_ERROR, ORDER_FAILED + updateError.value) && p.items == items
    // success is exactly all four steps succeeding; the stock becomes quantity_diff
    ensures p.response.status == OK <==> PassesCheck(items, req, lookupError) && insert.Inserted? && updateError.None?
    ensures p.response.status == OK ==>
      && p.response.body == Success(NewOrder(req, date, insert.meta))
      && p.items == items[req.itemId := WithStock(items[req.itemId], req.quantityDiff)]
    // only a successful placement touches the items
    ensures p.items != items ==> p.response.status == OK
  {
    match LookupItem(items, req.itemId, lookupError)
    case Err(e) => Placement(Failure(INTERNAL_SERVER_ERROR, LOOKUP_FAILED + e), items, orders)
    case Ok(item) =>
      if req.quantity > item.quantity then Placement(Failure(BAD_REQUEST, EXCEEDS), items, orders)
      else
        match insert
        case InsertError(e) => Placement(Failure(BAD_REQUEST, ORDER_FAILED + e), items, orders)
        case InsertedNothing => Placement(Failure(INTERNAL_SERVER_ERROR, ORDER_NOT_CREATED), items, orders)
        case Inserted(meta) =>
          var order := NewOrder(req, date, meta);
          var logged := orders + [order];
          match updateError
          case Some(e) => Placement(Failure(INTERNAL_SERVER_ERROR, ORDER_FAILED + e), items, logged)
          case None => Placement(Response(OK, Success(order)), items[req.itemId := WithStock(item, req.quantityDiff)], logged)
  }

  /** `add_order` against the database: reads, checks, inserts, updates. */
  method AddOrder(db: Database, req: AddOrderReq, date: DateTime,
                  lookupError: Option<string>, insert: InsertOutcome, updateError: Option<string>)
    returns (r: Response<Order>)
    modifies db
    ensures Placement(r, db.items, db.orders) == PlaceOrder(old(db.items), old(db.orders), req, date, lookupError, insert, updateError)
    ensures db.users == old(db.users)
  {
    var found := LookupItem(db.items, req.itemId, lookupError);
    if found.Err? {
      return Failure(INTERNAL_SERVER_ERROR, LOOKUP_FAILED + found.error);
    }
    var item := found.value;
    if req.quantity > item.quantity {
      return Failure(BAD_REQUEST, EXCEEDS);
    }
    match insert {
      case InsertError(e) =>
        r := Failure(BAD_REQUEST, ORDER_FAILED + e);
      case InsertedNothing =>
        r := Failure(INTERNAL_SERVER_ERROR, ORDER_NOT_CREATED);
      case Inserted(meta) =>
        var order := NewOrder(req, date, meta);
        db.orders := db.orders + [order];
        if updateError.Some? {
          r := Failure(INTERNAL_SERVER_ERROR, ORDER_FAILED + updateError.value);
        } else {
          db.items := db.items[req.itemId := WithStock(item, req.quantityDiff)];
          r := Response(OK, Success(order));
        }
    }
  }

  // ---------------------------------------------------------------------
  // What the placement step does and does not guarantee
  // ---------------------------------------------------------------------

  /** If the client sends `quantity_diff = stock - quantity`, a successful
      placement leaves a stock that is not negative and lower by exactly the
      ordered quantity. */
  lemma HonestDiffDecrements(items: map<string, Item>, orders: seq<Order>, req: AddOrderReq, date: DateTime,
                             lookupError: Option<string>, insert: InsertOutcome, updateError: Option<string>)
    requires req.itemId in items
    requires req.quantityDiff as int == items[req.itemId].quantity as int - req.quantity as int
    requires PlaceOrder(items, orders, req, date, lookupError, insert, updateError).response.status == OK
    ensures var after := PlaceOrder(items, orders, req, date, lookupError, insert, updateError).items[req.itemId].quantity;
      after >= 0 && after as int == items[req.itemId].quantity as int - req.quantity as int
  {
  }

  /** Whenever the order passes the check and the writes succeed, the
      stock becomes whatever the client sent, unrelated to the quantity
      ordered: it may grow, or turn negative. */
  lemma StockIsClientSupplied(items: map<string, Item>, orders: seq<Order>, req: AddOrderReq, date: DateTime, meta: DocMeta)
    requires PassesCheck(items, req, None)
    ensures var p := PlaceOrder(items, orders, req, date, None, Inserted(meta), None);
      p.response.status == OK && p.items[req.itemId].quantity == req.quantityDiff
  {
  }

  /** A negative quantity passes the check whenever it does not exceed the
      stock, in particular whenever the stock is not negative, and is then
      ordered and logged like any other. */
  lemma NegativeQuantityAccepted(items: map<string, Item>, orders: seq<Order>, req: AddOrderReq, date: DateTime, meta: DocMeta)
    requires req.itemId in items && req.quantity < 0
    requires req.quantity <= items[req.itemId].quantity
    ensures var p := PlaceOrder(items, orders, req, date, None, Inserted(meta), None);
      p.response == Response(OK, Success(NewOrder(req, date, meta))) && p.orders == orders + [NewOrder(req, date, meta)]
  {
  }

  /** The sum of the quantities ordered of `itemId`. */
  function Ordered(orders: seq<Order>, itemId: string): int {
    if orders == [] then 0
    else
      var last := orders[|orders| - 1];
      Ordered(orders[..|orders| - 1], itemId) + (if last.itemId == itemId then last.quantity as int else 0)
  }

  lemma OrderedAppend(orders: seq<Order>, o: Order, itemId: string)
    ensures Ordered(orders + [o], itemId) == Ordered(orders, itemId) + (if o.itemId == itemId then o.quantity as int else 0)
  {
    assert (orders + [o])[..|orders|] == orders;
  }

  /** With honest diffs, what has been ordered of an item plus what is in
      stock stays the same across a successful placement. */
  lemma {:induction false} HonestDiffConserves(items: map<string, Item>, orders: seq<Order>, req: AddOrderReq, date: DateTime,
                                              lookupError: Option<string>, insert: InsertOutcome, updateError: Option<string>)
    requires req.itemId in items
    requires req.quantityDiff as int == items[req.itemId].quantity as int - req.quantity as int
    requires PlaceOrder(items, orders, req, date, lookupError, insert, updateError).response.status == OK
    ensures var p := PlaceOrder(items, orders, req, date, lookupError, insert, updateError);
      Ordered(p.orders, req.itemId) + p.items[req.itemId].quantity as int
        == Ordered(orders, req.itemId) + items[req.itemId].quantity as int
  {
    OrderedAppend(orders, NewOrder(req, date, insert.meta), req.itemId);
  }

  /** Every logged order names an item that exists. */
  ghost predicate OrdersReferToItems(items: map<string, Item>, orders: seq<Order>) {
    forall i :: 0 <= i < |orders| ==> orders[i].itemId in items
  }

  lemma PlacementKeepsReferences(items: map<string, Item>, orders: seq<Order>, req: AddOrderReq, date: DateTime,
                                 lookupError: Option<string>, insert: InsertOutcome, updateError: Option<string>)
    requires OrdersReferToItems(items, orders)
    ensures var p := PlaceOrder(items, orders, req, date, lookupError, insert, updateError);
      OrdersReferToItems(p.items, p.orders)
  {
  }

  /** Item I holds 5; two orders of 3 arrive one after the other with
      honest diffs: the first succeeds and leaves 2, the second is refused. */
  lemma SequentialOrdersScenario(item: Item, req: AddOrderReq, req2: AddOrderReq, date: DateTime, m1: DocMeta, m2: DocMeta)
    requires item.quantity == 5
    requires req.itemId == item.meta.key && req.quantity == 3 && req.quantityDiff == 2
    requires req2.itemId == item.meta.key && req2.quantity == 3 && req2.quantityDiff == -1
    ensures var first := PlaceOrder(map[item.meta.key := item], [], req, date, None, Inserted(m1), None);
      && first.response.status == OK
      && first.items[item.meta.key].quantity == 2
      && PlaceOrder(first.items, first.orders, req2, date, None, Inserted(m2), None) == Placement(Failure(BAD_REQUEST, EXCEEDS), first.items, first.orders)
  {
  }

  // ---------------------------------------------------------------------
  // Listing
  // ---------------------------------------------------------------------

  /** `FOR order IN Order FILTER order.user_id == @user_id RETURN order`. */
  function OrdersOf(orders: seq<Order>, userId: string): (mine: seq<Order>)
    ensures |mine| <= |orders|
    ensures forall o :: o in mine <==> o in orders && o.userId == userId
  {
    if orders == [] then []
    else
      var rest := OrdersOf(orders[1..], userId);
      assert forall o :: o in orders <==> o == orders[0] || o in orders[1..];
      if orders[0].userId == userId then [orders[0]] + rest else rest
  }

  /** `get_orders`: the user's orders, 404 when there are none, 500 when the
      query fails. */
  function GetOrders(orders: seq<Order>, userId: string, queryError: Option<string>): (r: Response<seq<Order>>)
    ensures queryError.Some? ==> r == Failure(INTERNAL_SERVER_ERROR, QUERY_FAILED + queryError.value)
    ensures queryError.None? && (forall o :: o in orders ==> o.userId != userId) ==> r == Failure(NOT_FOUND, NO_ORDERS)
    ensures r.status == OK <==> queryError.None? && exists o :: o in orders && o.userId == userId
    ensures r.status == OK ==> r.body.Success? && r.body.content != []
    ensures r.status == OK ==> forall o :: o in r.body.content <==> o in orders && o.userId == userId
  {
    match queryError
    case Some(e) => Failure(INTERNAL_SERVER_ERROR, QUERY_FAILED + e)
    case None =>
      var mine := OrdersOf(orders, userId);
      if mine == [] then Failure(NOT_FOUND, NO_ORDERS)
      else
        assert mine[0] in mine;
        Response(OK, Success(mine))
  }
}
