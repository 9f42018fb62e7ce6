/** The order handlers: listing a user's orders with their line items, and
    moving an order one step along its lifecycle. */
module OrderTracking {

  import opened Common
  import opened OrderStatus

  /** A row of `order_items`; its price is not modelled. */
  datatype OrderItem = OrderItem(id: int, orderId: int, itemName: string, quantity: int)

  /** A row of `orders` as a dictionary. `statusTimestamps` is `None` when the
      column holds SQL null; `items` is `None` until `get_orders` attaches the
      order's line items under the `'items'` key. */
  datatype Order = Order(
    id: int,
    buyerId: string,
    sellerId: string,
    status: string,
    statusTimestamps: Option<map<string, string>>,
    createdAt: string,
    items: Option<seq<OrderItem>>)

  /** The column the listing query filters on. */
  datatype OwnerColumn = BuyerId | SellerId

  /** The body returned by a successful status update. */
  datatype StatusUpdated = StatusUpdated(message: string, orderId: int, newStatus: string)

  const InvalidRole := HttpError(403, "Invalid role")
  const OnlySellers := HttpError(403, "Only sellers can update order status")
  const OrderNotFound := HttpError(404, "Order not found")
  const NotYourOrder := HttpError(403, "You can only update your own orders")
  const InvalidStatus := HttpError(400, "Invalid status")
  const InvalidTransition := HttpError(400, "Invalid status transition")
  const UpdateFailed := HttpError(500, "Failed to update order status")

  // ---------------------------------------------------------------------------
  // Listing orders
  // ---------------------------------------------------------------------------

  /** The access check and role filter of the listing handler: the caller must
      be `userId` or a seller, and then a buyer's orders are selected by
      `buyer_id` and a seller's by `seller_id`; any other role is refused. */
  function ListingFilter(caller: Claims, userId: string): (r: Result<OwnerColumn>)
    ensures r == Err(Forbidden) <==> caller.sub != userId && caller.role != Some("seller")
    ensures r == Err(InvalidRole) <==>
      (caller.sub == userId || caller.role == Some("seller")) &&
      caller.role != Some("buyer") && caller.role != Some("seller")
    ensures r == Ok(BuyerId) <==> caller.sub == userId && caller.role == Some("buyer")
    ensures r == Ok(SellerId) <==> caller.role == Some("seller")
  {
    if caller.sub != userId && caller.role != Some("seller") then Err(Forbidden)
    else if caller.role == Some("buyer") then Ok(BuyerId)
    else if caller.role == Some("seller") then Ok(SellerId)
    else Err(InvalidRole)
  }

  function Owner(o: Order, column: OwnerColumn): string
  {
    match column
    case BuyerId => o.buyerId
    case SellerId => o.sellerId
  }

  /** The rows the equality filter `column = userId` returns, in table order. */
  function OrdersWhere(rows: seq<Order>, column: OwnerColumn, userId: string): (r: seq<Order>)
    ensures |r| <= |rows|
    ensures forall o :: o in r <==> o in rows && Owner(o, column) == userId
  {
    if rows == [] then []
    else (if Owner(rows[0], column) == userId then [rows[0]] else []) + OrdersWhere(rows[1..], column, userId)
  }

  /** The ids of the fetched orders, in the same order. */
  function IdsOf(orders: seq<Order>): (ids: seq<int>)
    ensures |ids| == |orders|
    ensures forall i :: 0 <= i < |orders| ==> ids[i] == orders[i].id
  {
    if orders == [] then [] else [orders[0].id] + IdsOf(orders[1..])
  }

  /** The rows of `order_items` whose `order_id` is among `ids`, in table order. */
  function ItemsWithOrderIn(rows: seq<OrderItem>, ids: seq<int>): (r: seq<OrderItem>)
    ensures |r| <= |rows|
    ensures forall x :: x in r ==> x in rows && x.orderId in ids
    ensures forall x :: x in rows && x.orderId in ids ==> x in r
  {
    if rows == [] then []
    else
      var last := rows[|rows| - 1];
      ItemsWithOrderIn(rows[..|rows| - 1], ids) + (if last.orderId in ids then [last] else [])
  }

  /** The items of `items` that belong to order `orderId`, in their original order. */
  function ItemsOf(items: seq<OrderItem>, orderId: int): (r: seq<OrderItem>)
    ensures |r| <= |items|
  {
    if items == [] then []
    else
      var last := items[|items| - 1];
      ItemsOf(items[..|items| - 1], orderId) + (if last.orderId == orderId then [last] else [])
  }

  /** `o` with its line items attached under `'items'`. */
  function WithItems(o: Order, itemRows: seq<OrderItem>): Order
  {
    o.(items := Some(ItemsOf(itemRows, o.id)))
  }

  /** `listed` is `orders`, element for element, each with its own items attached. */
  ghost predicate IsListing(listed: seq<Order>, orders: seq<Order>, itemRows: seq<OrderItem>)
  {
    |listed| == |orders| &&
    forall i :: 0 <= i < |orders| ==> listed[i] == WithItems(orders[i], itemRows)
  }

  /** An order's items are fetched items that name that order. */
  lemma {:induction false} ItemsOfSound(items: seq<OrderItem>, orderId: int, x: OrderItem)
    requires x in ItemsOf(items, orderId)
    ensures x in items && x.orderId == orderId
  {
    var n := |items| - 1;
    if x != items[n] || items[n].orderId != orderId {
      ItemsOfSound(items[..n], orderId, x);
    }
  }

  /** Every item of order `orderId` is among its items: grouping loses nothing. */
  lemma {:induction false} ItemsOfComplete(items: seq<OrderItem>, orderId: int, x: OrderItem)
    requires x in items && x.orderId == orderId
    ensures x in ItemsOf(items, orderId)
  {
    var n := |items| - 1;
    if items[n] != x {
      assert items == items[..n] + [items[n]];
      ItemsOfComplete(items[..n], orderId, x);
    }
  }

  /** An order has no items exactly when no fetched item names it. */
  lemma ItemsOfEmpty(items: seq<OrderItem>, orderId: int)
    ensures ItemsOf(items, orderId) == [] <==> forall x :: x in items ==> x.orderId != orderId
  {
  }

  /** Grouping keeps fetch order: the items of a concatenation are the items of
      the first part followed by the items of the second. */
  lemma {:induction false} ItemsOfAppend(a: seq<OrderItem>, b: seq<OrderItem>, orderId: int)
    ensures ItemsOf(a + b, orderId) == ItemsOf(a, orderId) + ItemsOf(b, orderId)
  {
    if b != [] {
      var n := |b| - 1;
      assert (a + b)[..|a + b| - 1] == a + b[..n];
      ItemsOfAppend(a, b[..n], orderId);
    } else {
      assert a + b == a;
    }
  }

  /** Appending one fetched item extends exactly its own order's items. */
  lemma ItemsOfSnoc(s: seq<OrderItem>, x: OrderItem)
    ensures forall k :: ItemsOf(s + [x], k) == ItemsOf(s, k) + (if x.orderId == k then [x] else [])
  {
    assert (s + [x])[..|s + [x]| - 1] == s;
  }

  /** Fetching only the items of the listed orders does not change the items
      of any listed order. */
  lemma {:induction false} FetchedItemsOf(rows: seq<OrderItem>, ids: seq<int>, orderId: int)
    requires orderId in ids
    ensures ItemsOf(ItemsWithOrderIn(rows, ids), orderId) == ItemsOf(rows, orderId)
  {
    if rows != [] {
      var n := |rows| - 1;
      var last := rows[n];
      assert rows == rows[..n] + [last];
      FetchedItemsOf(rows[..n], ids, orderId);
      var fetched := ItemsWithOrderIn(rows[..n], ids);
      ItemsOfSnoc(rows[..n], last);
      if last.orderId in ids {
        assert ItemsWithOrderIn(rows, ids) == fetched + [last];
        ItemsOfSnoc(fetched, last);
      } else {
        assert ItemsWithOrderIn(rows, ids) == fetched + [];
        assert fetched + [] == fetched;
      }
    }
  }

  /** The group recorded for `orderId`, or the empty list when it has none. */
  function GroupOf(byOrder: map<int, seq<OrderItem>>, orderId: int): seq<OrderItem>
  {
    if orderId in byOrder then byOrder[orderId] else []
  }

  /** One step of the grouping loop: adding item `i` to its group keeps the
      grouping of the first `i` items, now of the first `next = i + 1`. */
  lemma GroupStep(byOrder: map<int, seq<OrderItem>>, items: seq<OrderItem>, i: nat, next: nat)
    requires i < |items| && next == i + 1
    requires forall k :: GroupOf(byOrder, k) == ItemsOf(items[..i], k)
    ensures forall k ::
      GroupOf(byOrder[items[i].orderId := GroupOf(byOrder, items[i].orderId) + [items[i]]], k)
      == ItemsOf(items[..next], k)
  {
    assert items[..next] == items[..i] + [items[i]];
    ItemsOfSnoc(items[..i], items[i]);
  }

  /** The first loop of the listing handler, which appends each fetched item
      to the group of its order, creating the group on first use: each
      order id that occurs maps to its items in fetch order, and an id that
      does not occur is absent. */
  method GroupByOrder(items: seq<OrderItem>) returns (byOrder: map<int, seq<OrderItem>>)
    ensures forall k :: GroupOf(byOrder, k) == ItemsOf(items, k)
    ensures forall k :: k in byOrder ==> byOrder[k] != []
  {
    byOrder := map[];
    var i := 0;
    while i < |items|
      invariant 0 <= i <= |items|
      invariant forall k :: GroupOf(byOrder, k) == ItemsOf(items[..i], k)
      invariant forall k :: k in byOrder ==> byOrder[k] != []
    {
      var item := items[i];
      GroupStep(byOrder, items, i, i + 1);
      byOrder := byOrder[item.orderId := GroupOf(byOrder, item.orderId) + [item]];
      i := i + 1;
    }
    assert items[..i] == items;
  }

  /** The second loop of the listing handler, which sets each fetched order's
      items to its group (empty when it has none), in place: given the grouping of `fetched`, every order receives
      exactly its own fetched items, and the orders keep their order. */
  method AttachItems(orders: seq<Order>, fetched: seq<OrderItem>, byOrder: map<int, seq<OrderItem>>)
    returns (listed: seq<Order>)
    requires forall k :: GroupOf(byOrder, k) == ItemsOf(fetched, k)
    ensures IsListing(listed, orders, fetched)
  {
    var a := new Order[|orders|](j requires 0 <= j < |orders| => orders[j]);
    var k := 0;
    while k < a.Length
      invariant 0 <= k <= a.Length == |orders|
      invariant forall j :: 0 <= j < k ==> a[j] == WithItems(orders[j], fetched)
      invariant forall j :: k <= j < a.Length ==> a[j] == orders[j]
    {
      var o := a[k];
      a[k] := o.(items := Some(GroupOf(byOrder, o.id)));
      k := k + 1;
    }
    listed := a[..];
  }

  /** `get_orders`: the access check, the filtered query, then one loop that
      groups the fetched items by `order_id` and one that attaches each group
      to its order. */
  method GetOrders(caller: Claims, userId: string, orderRows: seq<Order>, itemRows: seq<OrderItem>)
    returns (r: Result<seq<Order>>)
    ensures r.Err? <==> ListingFilter(caller, userId).Err?
    ensures r.Err? ==> r.error == ListingFilter(caller, userId).error
    ensures r.Ok? ==>
      IsListing(r.value, OrdersWhere(orderRows, ListingFilter(caller, userId).value, userId), itemRows)
  {
    var role := caller.role;
    if caller.sub != userId && role != Some("seller") {
      return Err(Forbidden);
    }
    var column;
    if role == Some("buyer") {
      column := BuyerId;
    } else if role == Some("seller") {
      column := SellerId;
    } else {
      return Err(InvalidRole);
    }
    assert ListingFilter(caller, userId) == Ok(column);
    var orders := OrdersWhere(orderRows, column, userId);
    if orders == [] {
      return Ok([]);
    }
    var orderIds := IdsOf(orders);
    var fetched := ItemsWithOrderIn(itemRows, orderIds);

    var byOrder := GroupByOrder(fetched);

    var listed := AttachItems(orders, fetched, byOrder);

    forall j | 0 <= j < |orders|
      ensures ItemsOf(fetched, orders[j].id) == ItemsOf(itemRows, orders[j].id)
    {
      assert orderIds[j] == orders[j].id;
      FetchedItemsOf(itemRows, orderIds, orders[j].id);
    }
    r := Ok(listed);
  }

  // ---------------------------------------------------------------------------
  // Updating an order's status
  // ---------------------------------------------------------------------------

  /** The order's status timestamps, with a null column read as the empty map. */
  function Timestamps(o: Order): map<string, string>
  {
    match o.statusTimestamps
    case Some(m) => m
    case None => map[]
  }

  /** The row written by a successful update: the new status, and the time
      `now` recorded under the new status's key. */
  function Advanced(o: Order, newStatus: string, now: string): (o': Order)
    ensures o'.status == newStatus
    ensures newStatus in Timestamps(o') && Timestamps(o')[newStatus] == now
    ensures Timestamps(o').Keys == Timestamps(o).Keys + {newStatus}
    ensures forall k :: k in Timestamps(o) && k != newStatus ==> Timestamps(o')[k] == Timestamps(o)[k]
    ensures o'.id == o.id && o'.buyerId == o.buyerId && o'.sellerId == o.sellerId
    ensures o'.createdAt == o.createdAt && o'.items == o.items
  {
    o.(status := newStatus, statusTimestamps := Some(Timestamps(o)[newStatus := now]))
  }

  /** The caller is a seller and owns the existing order `orderId`. */
  predicate SellerOwns(store: map<int, Order>, caller: Claims, orderId: int)
  {
    caller.role == Some("seller") && orderId in store && store[orderId].sellerId == caller.sub
  }

  /** `update_order_status` on the orders table `store`, with `now` the
      current time and `writeFails` the outcome of the database update. */
  method UpdateOrderStatus(
    store: map<int, Order>, caller: Claims, orderId: int, newStatus: string, now: string, writeFails: bool)
    returns (r: Result<StatusUpdated>, store': map<int, Order>)
    requires orderId in store ==> store[orderId].status in Statuses
    ensures caller.role != Some("seller") ==> r == Err(OnlySellers)
    ensures caller.role == Some("seller") && orderId !in store ==> r == Err(OrderNotFound)
    ensures caller.role == Some("seller") && orderId in store && store[orderId].sellerId != caller.sub ==>
      r == Err(NotYourOrder)
    ensures SellerOwns(store, caller, orderId) && newStatus !in Statuses ==> r == Err(InvalidStatus)
    ensures (SellerOwns(store, caller, orderId) && newStatus in Statuses &&
             !IsLegalTransition(store[orderId].status, newStatus)) ==> r == Err(InvalidTransition)
    ensures (SellerOwns(store, caller, orderId) && newStatus in Statuses &&
             IsLegalTransition(store[orderId].status, newStatus)) ==>
      r == if writeFails then Err(UpdateFailed) else Ok(StatusUpdated("Order status updated", orderId, newStatus))
    ensures r.Ok? ==> store' == store[orderId := Advanced(store[orderId], newStatus, now)]
    ensures r.Err? ==> store' == store
    ensures SellerOwns(store, caller, orderId) && !writeFails ==>
      store' == store[orderId := Step(store[orderId], newStatus, now)]
  {
    store' := store;
    if caller.role != Some("seller") {
      return Err(OnlySellers), store';
    }
    if orderId !in store {
      return Err(OrderNotFound), store';
    }
    var order := store[orderId];
    if order.sellerId != caller.sub {
      return Err(NotYourOrder), store';
    }
    var currentStatus := order.status;
    if newStatus !in Statuses {
      return Err(InvalidStatus), store';
    }
    if IndexOf(Statuses, newStatus) != IndexOf(Statuses, currentStatus) + 1 {
      return Err(InvalidTransition), store';
    }
    var statusTimestamps := Timestamps(order);
    statusTimestamps := statusTimestamps[newStatus := now];
    if writeFails {
      return Err(UpdateFailed), store';
    }
    store' := store[orderId := order.(status := newStatus, statusTimestamps := Some(statusTimestamps))];
    r := Ok(StatusUpdated("Order status updated", orderId, newStatus));
  }

  // ---------------------------------------------------------------------------
  // The lifecycle across successive updates
  // ---------------------------------------------------------------------------

  /** The order's status is one of the four, and only statuses up to the
      current one carry a timestamp. A freshly placed order (status `Placed`,
      timestamps `{}` or null) satisfies it. */
  ghost predicate WellFormed(o: Order)
  {
    o.status in Statuses &&
    forall k :: k in Timestamps(o) ==> k in Statuses && IndexOf(Statuses, k) <= IndexOf(Statuses, o.status)
  }

  /** The effect on one order of a status request by its seller whose write
      succeeds: the order advances when the transition is legal, and is left
      as it was when the request is rejected. */
  function Step(o: Order, newStatus: string, now: string): Order
    requires o.status in Statuses
  {
    if newStatus in Statuses && IsLegalTransition(o.status, newStatus) then Advanced(o, newStatus, now) else o
  }

  /** A legal update writes a key that was not there before (each status is
      timestamped at most once) and keeps the order well formed. */
  lemma AdvancePreservesWellFormed(o: Order, newStatus: string, now: string)
    requires WellFormed(o) && newStatus in Statuses && IsLegalTransition(o.status, newStatus)
    ensures newStatus !in Timestamps(o)
    ensures WellFormed(Advanced(o, newStatus, now))
  {
  }

  /** Whether the request is accepted or rejected, the order stays well formed. */
  lemma StepPreservesWellFormed(o: Order, newStatus: string, now: string)
    requires WellFormed(o)
    ensures WellFormed(Step(o, newStatus, now))
  {
  }

  /** A status request by a seller, as `(new_status, now)`. */
  datatype StatusRequest = StatusRequest(newStatus: string, now: string)

  /** The order after a series of its seller's status requests. */
  function Replay(o: Order, requests: seq<StatusRequest>): (o': Order)
    requires WellFormed(o)
    ensures WellFormed(o')
    decreases |requests|
  {
    if requests == [] then o
    else
      var next := Step(o, requests[0].newStatus, requests[0].now);
      StepPreservesWellFormed(o, requests[0].newStatus, requests[0].now);
      Replay(next, requests[1..])
  }

  /** Over any series of requests the status never moves back and moves at
      most one step per request, and no timestamp is ever removed or
      overwritten. */
  lemma {:induction false} ReplayOnlyMovesForward(o: Order, requests: seq<StatusRequest>)
    requires WellFormed(o)
    decreases |requests|
    ensures IndexOf(Statuses, o.status) <= IndexOf(Statuses, Replay(o, requests).status)
      <= IndexOf(Statuses, o.status) + |requests|
    ensures forall k :: k in Timestamps(o) ==>
      k in Timestamps(Replay(o, requests)) && Timestamps(Replay(o, requests))[k] == Timestamps(o)[k]
  {
    if requests != [] {
      var req := requests[0];
      var next := Step(o, req.newStatus, req.now);
      StepPreservesWellFormed(o, req.newStatus, req.now);
      if next != o {
        LegalTransitionMovesOneForward(o.status, req.newStatus);
      }
      ReplayOnlyMovesForward(next, requests[1..]);
    }
  }
}
