/** The order lifecycle HTTP handlers: create an order, update its status,
    list a customer's or a restaurant's live orders, and archive a
    restaurant's completed orders. Each handler is a function from the store,
    the broker and the request to the new store, broker and reply; the two
    send outcomes of a writer are oracle arguments the handler ignores. */
module OrderController {
  import opened Wrappers
  import opened OrderSchema
  import opened Kafka

  /** A customer profile, found through the session's user id. */
  datatype Customer = Customer(id: ObjectId, address: Option<Address>)

  /** A restaurant profile, found through the session's user id. */
  datatype Restaurant = Restaurant(id: ObjectId)

  /** The fields of a create-order request body that the handler reads. */
  datatype CreateOrderBody = CreateOrderBody(
    restaurantId: Option<ObjectId>,
    items: seq<ItemDraft>,
    totalAmount: Option<real>,
    deliveryFee: Option<real>,
    deliveryAddress: Option<Address>,
    paymentMethod: Option<string>,
    orderNotes: Option<string>)

  /** A listed order with its display number. */
  datatype NumberedOrder = NumberedOrder(order: Order, orderNumber: nat)

  datatype Reply =
    | Created(order: Order)
    | Updated(order: Order)
    | Listed(orders: seq<Order>)
    | Numbered(entries: seq<NumberedOrder>)
    | Archived(count: nat)
    | NoneToArchive
    | InvalidStatus
    | NotFound(what: string)
    | ServerError

  datatype Outcome = Outcome(store: Store, broker: Broker, reply: Reply)

  /** The two log entries a writer appends, in order, after `before`. */
  predicate AppendsTwo(before: Broker, after: Broker) {
    |after.log| == |before.log| + 2 && after.log[..|before.log|] == before.log
  }

  // ---------------------------------------------------------------- create

  /** The document the handler constructs: status `placed`, the session
      customer, and the body's address or else the customer's own. */
  function DraftFor(c: Customer, body: CreateOrderBody): OrderDraft {
    OrderDraft(
      Some(c.id), body.restaurantId, body.items, Some(StatusName(Placed)),
      body.totalAmount, body.deliveryFee,
      if body.deliveryAddress.Some? then body.deliveryAddress else c.address,
      body.paymentMethod, None, body.orderNotes, None)
  }

  /** Creates an order for the session user `userId` under the fresh id
      `newId`. An unknown customer is a 404; a document the schema rejects or
      an id already taken fails the save (500); in all three cases nothing is
      stored or sent. Otherwise the order is stored with status `placed` and
      ORDER_CREATED then RESTAURANT_NOTIFICATION are sent. */
  function CreateOrder(store: Store, broker: Broker, customers: map<ObjectId, Customer>,
                       userId: ObjectId, body: CreateOrderBody, newId: ObjectId,
                       now: string, ok1: bool, ok2: bool): (r: Outcome)
    ensures userId !in customers ==> r.reply == NotFound("Customer not found")
    ensures userId in customers && !r.reply.Created? ==> r.reply == ServerError
    ensures r.reply.Created? <==>
      userId in customers && newId !in store && DraftValid(DraftFor(customers[userId], body))
    ensures !r.reply.Created? ==> r.store == store && r.broker == broker
    ensures r.reply.Created? ==>
      var o := r.reply.order;
      && r.store == store[newId := o]
      && o.id == newId
      && o.status == Placed
      && !o.archived
      && o.customerId == customers[userId].id
      && Some(o.restaurantId) == body.restaurantId
      && o.deliveryAddress == (if body.deliveryAddress.Some? then body.deliveryAddress
                               else customers[userId].address)
    ensures r.reply.Created? ==> ValidateOrder(newId, DraftFor(customers[userId], body)) == Some(r.reply.order)
    ensures r.reply.Created? ==> AppendsTwo(broker, r.broker)
    ensures r.reply.Created? ==>
      var o := r.reply.order;
      var e1 := r.broker.log[|broker.log|];
      var e2 := r.broker.log[|broker.log| + 1];
      && e1.kind == Produced && e1.topic == OrderCreated
      && e1.payload.orderId == Some(newId) && e1.payload.status == Some("placed")
      && e1.payload.customerId == Some(o.customerId) && e1.payload.restaurantId == Some(o.restaurantId)
      && e2.kind == Produced && e2.topic == RestaurantNotification
      && e2.payload.kind == Some("NEW_ORDER") && e2.payload.orderId == Some(newId)
      && e2.payload.restaurantId == Some(o.restaurantId)
    ensures ValidStore(store) ==> ValidStore(r.store)
  {
    if userId !in customers then Outcome(store, broker, NotFound("Customer not found"))
    else
      var customer := customers[userId];
      match ValidateOrder(newId, DraftFor(customer, body))
      case None => Outcome(store, broker, ServerError)
      case Some(o) =>
        if newId in store then Outcome(store, broker, ServerError)
        else
          var sent := SendPair(broker, OrderCreated, OrderCreatedPayload(o, now),
                               RestaurantNotification, NewOrderPayload(o, now), now, ok1, ok2);
          Outcome(store[newId := o], sent, Created(o))
  }

  /** Best-effort notification: whether the two sends succeed changes neither
      the reply nor the store. */
  lemma CreateOrderIgnoresSendResults(store: Store, broker: Broker, customers: map<ObjectId, Customer>,
                                      userId: ObjectId, body: CreateOrderBody, newId: ObjectId,
                                      now: string, ok1: bool, ok2: bool, ok1': bool, ok2': bool)
    ensures CreateOrder(store, broker, customers, userId, body, newId, now, ok1, ok2).reply
         == CreateOrder(store, broker, customers, userId, body, newId, now, ok1', ok2').reply
    ensures CreateOrder(store, broker, customers, userId, body, newId, now, ok1, ok2).store
         == CreateOrder(store, broker, customers, userId, body, newId, now, ok1', ok2').store
  {
  }

  // ---------------------------------------------------------------- update

  /** The status list the update handler validates against. */
  const ValidStatuses: seq<string> := [
    "placed", "Order Received", "Preparing", "On the Way", "Pick-up Ready",
    "Delivered", "Picked Up", "Cancelled", "confirmed", "ready_for_pickup",
    "out_for_delivery"
  ]

  /** The handler's list is the schema's enum, entry for entry. */
  lemma ValidStatusesMatchSchema()
    ensures ValidStatuses == StatusEnum
    ensures forall name :: name in ValidStatuses <==> ParseStatus(name).Some?
  {
  }

  /** Updates the status of order `orderId` to the requested `status`. A value
      off the list is a 400 before any lookup; an unknown id is a 404; neither
      writes or sends anything. Otherwise only that order's status changes,
      and ORDER_UPDATED (previous and new status) then CUSTOMER_NOTIFICATION
      (new status) are sent; the reply is success whatever the sends return. */
  function UpdateOrderStatus(store: Store, broker: Broker, orderId: ObjectId, status: Option<string>,
                             now: string, ok1: bool, ok2: bool): (r: Outcome)
    ensures (status.None? || status.value !in ValidStatuses) ==> r.reply == InvalidStatus
    ensures status.Some? && status.value in ValidStatuses && orderId !in store ==>
      r.reply == NotFound("Order not found")
    ensures r.reply.Updated? <==> status.Some? && status.value in ValidStatuses && orderId in store
    ensures !r.reply.Updated? ==> r.store == store && r.broker == broker
    ensures r.reply.Updated? ==>
      && r.store.Keys == store.Keys
      && StatusName(r.store[orderId].status) == status.value
      && r.store[orderId] == store[orderId].(status := r.store[orderId].status)
      && r.reply.order == r.store[orderId]
      && (forall other :: other in store && other != orderId ==> r.store[other] == store[other])
    ensures r.reply.Updated? ==> AppendsTwo(broker, r.broker)
    ensures r.reply.Updated? ==>
      var e1 := r.broker.log[|broker.log|];
      var e2 := r.broker.log[|broker.log| + 1];
      && e1.kind == Produced && e1.topic == OrderUpdated
      && e1.payload.orderId == Some(r.reply.order.id)
      && e1.payload.previousStatus == Some(StatusName(store[orderId].status))
      && e1.payload.newStatus == status
      && e2.kind == Produced && e2.topic == CustomerNotification
      && e2.payload.kind == Some("ORDER_STATUS_UPDATE")
      && e2.payload.orderId == Some(r.reply.order.id)
      && e2.payload.status == status
    ensures r.reply.Updated? && ValidStore(store) ==> r.reply.order.id == orderId
    ensures ValidStore(store) ==> ValidStore(r.store)
  {
    if status.None? || status.value !in ValidStatuses then Outcome(store, broker, InvalidStatus)
    else if orderId !in store then Outcome(store, broker, NotFound("Order not found"))
    else
      ValidStatusesMatchSchema();
      var previous := store[orderId].status;
      var next := ParseStatus(status.value).value;
      var written := WriteStatus(store, orderId, next);
      var o := written[orderId];
      var sent := SendPair(broker,
                           OrderUpdated, OrderUpdatedPayload(o, StatusName(previous), StatusName(next), now),
                           CustomerNotification, StatusUpdatePayload(o, StatusName(next), now),
                           now, ok1, ok2);
      Outcome(written, sent, Updated(o))
  }

  /** Best-effort notification: the update's reply and store do not depend on
      whether the two sends succeed. */
  lemma UpdateIgnoresSendResults(store: Store, broker: Broker, orderId: ObjectId, status: Option<string>,
                                 now: string, ok1: bool, ok2: bool, ok1': bool, ok2': bool)
    ensures UpdateOrderStatus(store, broker, orderId, status, now, ok1, ok2).reply
         == UpdateOrderStatus(store, broker, orderId, status, now, ok1', ok2').reply
    ensures UpdateOrderStatus(store, broker, orderId, status, now, ok1, ok2).store
         == UpdateOrderStatus(store, broker, orderId, status, now, ok1', ok2').store
  {
  }

  /** Requesting the status an order already has rewrites nothing, but still
      sends both events, with equal previous and new status. */
  lemma UpdateToSameStatus(store: Store, broker: Broker, orderId: ObjectId, now: string, ok1: bool, ok2: bool)
    requires orderId in store
    ensures var r := UpdateOrderStatus(store, broker, orderId, Some(StatusName(store[orderId].status)), now, ok1, ok2);
      && r.store == store
      && AppendsTwo(broker, r.broker)
      && r.broker.log[|broker.log|].payload.previousStatus == r.broker.log[|broker.log|].payload.newStatus
  {
    StatusNameRoundTrip(store[orderId].status);
    ValidStatusesMatchSchema();
    var r := UpdateOrderStatus(store, broker, orderId, Some(StatusName(store[orderId].status)), now, ok1, ok2);
    assert StatusName(r.store[orderId].status) == StatusName(store[orderId].status);
    assert ParseStatus(StatusName(r.store[orderId].status)) == Some(r.store[orderId].status);
    assert r.store[orderId] == store[orderId];
  }

  // --------------------------------------------------------------- listing

  /** The two listing filters; both exclude archived orders. */
  datatype OrderQuery =
    | ByCustomer(customerId: ObjectId)
    | ByRestaurant(restaurantId: ObjectId, status: Option<string>)

  predicate Matches(q: OrderQuery, o: Order) {
    && !o.archived
    && match q
       case ByCustomer(c) => o.customerId == c
       case ByRestaurant(rid, st) =>
         && o.restaurantId == rid
         // an absent or empty status query adds no filter
         && (st.None? || st.value == "" || StatusName(o.status) == st.value)
  }

  /** The orders matching `q`, visiting ids in the order `ids` lists them
      (the store's creation-time order, which the model takes as given). */
  function Find(store: Store, ids: seq<ObjectId>, q: OrderQuery): (r: seq<Order>)
    ensures |r| <= |ids|
    ensures forall k :: 0 <= k < |r| ==> Matches(q, r[k])
    ensures forall o :: o in r ==> exists id :: id in ids && id in store && store[id] == o
    ensures forall j :: 0 <= j < |ids| && ids[j] in store && Matches(q, store[ids[j]]) ==> store[ids[j]] in r
    decreases |ids|
  {
    if |ids| == 0 then []
    else
      var init := Find(store, ids[..|ids| - 1], q);
      var last := ids[|ids| - 1];
      assert forall j :: 0 <= j < |ids| - 1 ==> ids[..|ids| - 1][j] == ids[j];
      assert forall id :: id in ids[..|ids| - 1] ==> id in ids;
      if last in store && Matches(q, store[last]) then init + [store[last]] else init
  }

  /** The entries list the orders in order, numbered from 1. */
  predicate NumberedAs(entries: seq<NumberedOrder>, found: seq<Order>) {
    && |entries| == |found|
    && forall k :: 0 <= k < |found| ==> entries[k].order == found[k] && entries[k].orderNumber == k + 1
  }

  lemma NumberedSnoc(entries: seq<NumberedOrder>, found: seq<Order>, o: Order)
    requires NumberedAs(entries, found)
    ensures NumberedAs(entries + [NumberedOrder(o, |entries| + 1)], found + [o])
  {
  }

  /** Listing a concatenation of ids lists the first part, then the second:
      with `FindOne` this fixes both the order and the multiplicity of the
      listing. */
  lemma {:induction false} FindAppend(store: Store, a: seq<ObjectId>, b: seq<ObjectId>, q: OrderQuery)
    ensures Find(store, a + b, q) == Find(store, a, q) + Find(store, b, q)
    decreases |b|
  {
    if |b| == 0 {
      assert a + b == a;
    } else {
      var b' := b[..|b| - 1];
      var last := b[|b| - 1];
      assert (a + b)[..|a + b| - 1] == a + b';
      assert (a + b)[|a + b| - 1] == last;
      FindAppend(store, a, b', q);
    }
  }

  /** A single id lists its order exactly when it is stored and matches. */
  lemma FindOne(store: Store, id: ObjectId, q: OrderQuery)
    ensures Find(store, [id], q) == if id in store && Matches(q, store[id]) then [store[id]] else []
  {
    assert [id][..0] == [];
  }

  /** `ids` enumerates the store: every stored id once, and nothing else. */
  predicate ListsStore(store: Store, ids: seq<ObjectId>) {
    && (forall id :: id in store ==> id in ids)
    && (forall i :: 0 <= i < |ids| ==> ids[i] in store)
    && (forall i, j :: 0 <= i < j < |ids| ==> ids[i] != ids[j])
  }

  /** Over an enumeration of the store, a stored order is listed exactly when
      it matches the query. */
  lemma FindListsExactly(store: Store, ids: seq<ObjectId>, q: OrderQuery)
    requires ListsStore(store, ids)
    ensures forall id :: id in store ==> (store[id] in Find(store, ids, q) <==> Matches(q, store[id]))
  {
    forall id | id in store ensures store[id] in Find(store, ids, q) <==> Matches(q, store[id]) {
      var j :| 0 <= j < |ids| && ids[j] == id;
    }
  }

  /** A customer's non-archived orders, in listing order; a session user
      without a customer profile gets a 404. */
  function GetCustomerOrders(store: Store, customers: map<ObjectId, Customer>, userId: ObjectId,
                             ids: seq<ObjectId>): (r: Reply)
    requires ListsStore(store, ids)
    ensures userId !in customers <==> r == NotFound("Customer not found")
    ensures userId in customers ==> r.Listed?
    ensures r.Listed? ==> r.orders == Find(store, ids, ByCustomer(customers[userId].id))
    ensures r.Listed? ==> forall k :: 0 <= k < |r.orders| ==>
      r.orders[k].customerId == customers[userId].id && !r.orders[k].archived
    ensures r.Listed? ==> forall id :: id in store ==>
      (store[id] in r.orders <==> store[id].customerId == customers[userId].id && !store[id].archived)
  {
    if userId !in customers then NotFound("Customer not found")
    else
      FindListsExactly(store, ids, ByCustomer(customers[userId].id));
      Listed(Find(store, ids, ByCustomer(customers[userId].id)))
  }

  /** A restaurant's non-archived orders, optionally only those with the
      queried status, numbered from 1 in listing order. */
  method GetRestaurantOrders(store: Store, restaurants: map<ObjectId, Restaurant>, userId: ObjectId,
                             status: Option<string>, ids: seq<ObjectId>) returns (r: Reply)
    requires ListsStore(store, ids)
    ensures userId !in restaurants <==> r == NotFound("Restaurant not found")
    ensures userId in restaurants ==> r.Numbered?
    ensures r.Numbered? ==>
      var found := Find(store, ids, ByRestaurant(restaurants[userId].id, status));
      && |r.entries| == |found|
      && forall k :: 0 <= k < |found| ==> r.entries[k].order == found[k] && r.entries[k].orderNumber == k + 1
    ensures r.Numbered? ==> forall id :: id in store ==>
      (store[id] in Find(store, ids, ByRestaurant(restaurants[userId].id, status)) <==>
       Matches(ByRestaurant(restaurants[userId].id, status), store[id]))
  {
    if userId !in restaurants {
      return NotFound("Restaurant not found");
    }
    var q := ByRestaurant(restaurants[userId].id, status);
    var found := Find(store, ids, q);
    FindListsExactly(store, ids, q);
    var entries: seq<NumberedOrder> := [];
    var i := 0;
    while i < |found|
      invariant 0 <= i <= |found|
      invariant NumberedAs(entries, found[..i])
    {
      NumberedSnoc(entries, found[..i], found[i]);
      assert found[..i + 1] == found[..i] + [found[i]];
      entries := entries + [NumberedOrder(found[i], i + 1)];
      i := i + 1;
    }
    assert found[..|found|] == found;
    r := Numbered(entries);
  }

  // --------------------------------------------------------------- archive

  /** An order the archive operation selects for restaurant `rid`. */
  predicate Archivable(o: Order, rid: ObjectId) {
    o.restaurantId == rid && IsTerminal(o.status) && !o.archived
  }

  /** The ids whose `archived` flag goes from false to true between two stores. */
  function NewlyArchived(before: Store, after: Store): set<ObjectId> {
    set id | id in before && id in after && !before[id].archived && after[id].archived
  }

  /** Archives a restaurant's completed orders: every non-archived order of
      the restaurant with a terminal status gets `archived` set, nothing else
      changes, no event is sent, and the count is the number of orders
      archived; with none to archive the reply says so and nothing is written. */
  function ClearCompletedOrders(store: Store, broker: Broker, restaurants: map<ObjectId, Restaurant>,
                                userId: ObjectId): (r: Outcome)
    ensures r.broker == broker
    ensures userId !in restaurants ==> r.reply == NotFound("Restaurant not found") && r.store == store
    ensures userId in restaurants ==>
      && r.store.Keys == store.Keys
      && forall id :: id in store ==>
           r.store[id] == (if Archivable(store[id], restaurants[userId].id)
                           then store[id].(archived := true) else store[id])
    ensures userId in restaurants ==>
      (r.reply == NoneToArchive <==> forall id :: id in store ==> !Archivable(store[id], restaurants[userId].id))
    ensures userId in restaurants ==> r.reply == NoneToArchive || r.reply.Archived?
    ensures userId in restaurants && (exists id :: id in store && Archivable(store[id], restaurants[userId].id)) ==>
      r.reply.Archived?
    ensures userId in restaurants && r.reply.Archived? ==>
      r.reply.count == |set id | id in store && Archivable(store[id], restaurants[userId].id)|
    ensures r.reply == NoneToArchive ==> r.store == store
    ensures r.reply.Archived? ==> r.reply.count == |NewlyArchived(store, r.store)| && r.reply.count > 0
    ensures ValidStore(store) ==> ValidStore(r.store)
  {
    if userId !in restaurants then Outcome(store, broker, NotFound("Restaurant not found"))
    else
      var rid := restaurants[userId].id;
      var completed := set id | id in store && Archivable(store[id], rid);
      if completed == {} then
        assert forall id :: id in store ==> !Archivable(store[id], rid) by {
          forall id | id in store ensures !Archivable(store[id], rid) {
            assert id !in completed;
          }
        }
        Outcome(store, broker, NoneToArchive)
      else
        var archived := map id | id in store ::
          if id in completed then store[id].(archived := true) else store[id];
        assert NewlyArchived(store, archived) == completed;
        Outcome(archived, broker, Archived(|completed|))
  }

  /** Archiving twice in a row: the second call finds nothing, writes nothing
      and reports that there was nothing to archive. */
  lemma ArchiveIdempotent(store: Store, broker: Broker, restaurants: map<ObjectId, Restaurant>, userId: ObjectId)
    requires userId in restaurants
    ensures var first := ClearCompletedOrders(store, broker, restaurants, userId);
            var second := ClearCompletedOrders(first.store, first.broker, restaurants, userId);
            second.reply == NoneToArchive && second.store == first.store
  {
    var rid := restaurants[userId].id;
    var first := ClearCompletedOrders(store, broker, restaurants, userId);
    forall id | id in first.store ensures !Archivable(first.store[id], rid) {
      assert id in store;
    }
  }
}
