/** The client orders reducer: a local list of orders that grows by placing
    an order and whose entries change status by order id. */
module OrdersContext {

  datatype ClientItem = ClientItem(dishName: string, quantity: int)

  datatype ClientOrder = ClientOrder(
    orderId: int,
    restaurantId: int,
    customerName: string,
    customerEmail: string,
    status: string,
    items: seq<ClientItem>)

  /** Appends the new order; the orders already there keep their places. */
  function PlaceOrder(orders: seq<ClientOrder>, newOrder: ClientOrder): (r: seq<ClientOrder>)
    ensures |r| == |orders| + 1
    ensures r[..|orders|] == orders && r[|orders|] == newOrder
  {
    orders + [newOrder]
  }

  /** Sets the status of every order with the id (the `map` step); every
      order keeps its place and every other field. */
  function UpdateOrderStatus(orders: seq<ClientOrder>, orderId: int, newStatus: string): (r: seq<ClientOrder>)
    ensures |r| == |orders|
    ensures forall k :: 0 <= k < |orders| ==>
      r[k] == if orders[k].orderId == orderId then orders[k].(status := newStatus) else orders[k]
  {
    if |orders| == 0 then []
    else
      var head := if orders[0].orderId == orderId then orders[0].(status := newStatus) else orders[0];
      [head] + UpdateOrderStatus(orders[1..], orderId, newStatus)
  }

  /** An id that no order carries leaves the list as it was. */
  lemma UpdateUnknownIdIsNoOp(orders: seq<ClientOrder>, orderId: int, newStatus: string)
    requires forall k :: 0 <= k < |orders| ==> orders[k].orderId != orderId
    ensures UpdateOrderStatus(orders, orderId, newStatus) == orders
  {
  }

  /** Applying the same update twice is the same as applying it once. */
  lemma UpdateIdempotent(orders: seq<ClientOrder>, orderId: int, newStatus: string)
    ensures var once := UpdateOrderStatus(orders, orderId, newStatus);
      UpdateOrderStatus(once, orderId, newStatus) == once
  {
  }

  /** Of two updates, only the later one counts for the orders they share. */
  lemma LaterUpdateWins(orders: seq<ClientOrder>, orderId: int, first: string, second: string)
    ensures UpdateOrderStatus(UpdateOrderStatus(orders, orderId, first), orderId, second)
            == UpdateOrderStatus(orders, orderId, second)
  {
  }

  /** Placing an order and then updating its id is updating the list and
      placing the updated order. */
  lemma UpdateAfterPlace(orders: seq<ClientOrder>, newOrder: ClientOrder, newStatus: string)
    ensures UpdateOrderStatus(PlaceOrder(orders, newOrder), newOrder.orderId, newStatus)
            == PlaceOrder(UpdateOrderStatus(orders, newOrder.orderId, newStatus), newOrder.(status := newStatus))
  {
  }
}
