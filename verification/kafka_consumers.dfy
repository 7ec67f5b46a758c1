/** The three consumer services as pure handlers from the store, the broker
    and one consumed record to the new store, broker and the timers the
    handler scheduled, plus the two delayed auto-advance callbacks of the
    restaurant service as explicit pending actions. */
module KafkaConsumers {
  import opened Wrappers
  import opened OrderSchema
  import opened Kafka

  /** A consumed record: its value either parses as JSON or it does not. */
  datatype Incoming = Malformed | Parsed(payload: Payload)

  /** A delayed auto-advance scheduled by the restaurant service. */
  datatype PendingAction = AutoConfirm(orderId: ObjectId) | AutoShip(orderId: ObjectId)

  /** The status an auto-advance requires when it fires. */
  function Guard(a: PendingAction): OrderStatus {
    match a
    case AutoConfirm(_) => Placed
    case AutoShip(_) => Preparing
  }

  /** The status an auto-advance writes. */
  function Target(a: PendingAction): OrderStatus {
    match a
    case AutoConfirm(_) => Preparing
    case AutoShip(_) => OnTheWay
  }

  /** What a handler or callback leaves behind. */
  datatype Reaction = Reaction(store: Store, broker: Broker, scheduled: seq<PendingAction>)

  /** `after` differs from `before` at most in the status of order `id`. */
  predicate OnlyStatusOf(before: Store, after: Store, id: ObjectId) {
    && after.Keys == before.Keys
    && (forall other :: other in before && other != id ==> after[other] == before[other])
    && (id in before ==> after[id] == before[id].(status := after[id].status))
  }

  /** The reconciliation write of the order and notification services: when
      the event names an existing order and a status other than the stored
      one, that status is written over whatever is stored (no check of the
      transition). A status outside the enum fails the save's validation and
      the error is swallowed, so nothing is written. */
  function Reconcile(store: Store, id: Option<ObjectId>, status: Option<string>): (r: Store)
    ensures id.Some? ==> OnlyStatusOf(store, r, id.value)
    ensures id.Some? && id.value in store && status.Some? && status.value in StatusEnum ==>
      StatusName(r[id.value].status) == status.value
    ensures !(id.Some? && id.value in store && status.Some? && status.value in StatusEnum) ==> r == store
    ensures ValidStore(store) ==> ValidStore(r)
  {
    if id.None? || id.value !in store || status.None? then store
    else
      match ParseStatus(status.value)
      case None => store
      case Some(s) =>
        if store[id.value].status == s then store else WriteStatus(store, id.value, s)
  }

  /** Reconciling with the same event twice gives the same store as once. */
  lemma ReconcileIdempotent(store: Store, id: Option<ObjectId>, status: Option<string>)
    ensures Reconcile(Reconcile(store, id, status), id, status) == Reconcile(store, id, status)
  {
    if id.Some? && id.value in store && status.Some? && status.value in StatusEnum {
      var once := Reconcile(store, id, status);
      var s := ParseStatus(status.value).value;
      StatusNameRoundTrip(once[id.value].status);
      assert once[id.value].status == s;
    }
  }

  /** The order service (ORDER_CREATED and ORDER_UPDATED). A record that does
      not parse is dropped before anything happens. Otherwise it is logged as
      CONSUMED and the store is reconciled with the event's `status`
      (ORDER_CREATED) or `new_status` (ORDER_UPDATED); nothing is sent or
      scheduled. */
  function HandleOrderMessage(store: Store, broker: Broker, topic: Topic, msg: Incoming, now: string): (r: Reaction)
    ensures r.scheduled == [] && r.broker.queues == broker.queues
    ensures msg.Malformed? ==> r.store == store && r.broker == broker
    ensures msg.Parsed? ==> r.broker.log == broker.log + [LogEntry(Consumed, topic, msg.payload, now)]
    ensures msg.Parsed? && msg.payload.orderId.Some? ==> OnlyStatusOf(store, r.store, msg.payload.orderId.value)
    ensures msg.Parsed? && (msg.payload.orderId.None? || msg.payload.orderId.value !in store) ==> r.store == store
    ensures msg.Parsed? && topic == OrderCreated && msg.payload.orderId.Some? && msg.payload.orderId.value in store
            && msg.payload.status.Some? && msg.payload.status.value in StatusEnum ==>
      StatusName(r.store[msg.payload.orderId.value].status) == msg.payload.status.value
    ensures msg.Parsed? && topic == OrderUpdated && msg.payload.orderId.Some? && msg.payload.orderId.value in store
            && msg.payload.newStatus.Some? && msg.payload.newStatus.value in StatusEnum ==>
      StatusName(r.store[msg.payload.orderId.value].status) == msg.payload.newStatus.value
    ensures msg.Parsed? && topic == OrderCreated ==> r.store == Reconcile(store, msg.payload.orderId, msg.payload.status)
    ensures msg.Parsed? && topic == OrderUpdated ==> r.store == Reconcile(store, msg.payload.orderId, msg.payload.newStatus)
    ensures msg.Parsed? && topic == OrderCreated
            && (msg.payload.status.None? || msg.payload.status.value !in StatusEnum) ==>
      r.store == store
    ensures msg.Parsed? && topic == OrderUpdated
            && (msg.payload.newStatus.None? || msg.payload.newStatus.value !in StatusEnum) ==>
      r.store == store
    ensures topic != OrderCreated && topic != OrderUpdated ==> r.store == store
    ensures ValidStore(store) ==> ValidStore(r.store)
  {
    match msg
    case Malformed => Reaction(store, broker, [])
    case Parsed(p) =>
      var logged := LogConsumed(broker, topic, p, now);
      if topic == OrderCreated then Reaction(Reconcile(store, p.orderId, p.status), logged, [])
      else if topic == OrderUpdated then Reaction(Reconcile(store, p.orderId, p.newStatus), logged, [])
      else Reaction(store, logged, [])
  }

  /** Redelivering a record to the order service leaves the store as the
      first delivery left it. */
  lemma OrderMessageIdempotent(store: Store, broker: Broker, topic: Topic, msg: Incoming, now: string)
    ensures var once := HandleOrderMessage(store, broker, topic, msg, now);
            HandleOrderMessage(once.store, once.broker, topic, msg, now).store == once.store
  {
    if msg.Parsed? {
      ReconcileIdempotent(store, msg.payload.orderId, msg.payload.status);
      ReconcileIdempotent(store, msg.payload.orderId, msg.payload.newStatus);
    }
  }

  /** The order service overwrites blindly: a late ORDER_UPDATED whose
      `new_status` is older than the stored status moves the order back. */
  lemma StaleUpdateRegresses(store: Store, broker: Broker, id: ObjectId, now: string)
    requires id in store && store[id].status == Delivered
    ensures var p := Payload(None, Some(id), None, Some("placed"), Some("Preparing"), None, None, None);
            HandleOrderMessage(store, broker, OrderUpdated, Parsed(p), now).store[id].status == Preparing
  {
    var p := Payload(None, Some(id), None, Some("placed"), Some("Preparing"), None, None, None);
    var r := HandleOrderMessage(store, broker, OrderUpdated, Parsed(p), now);
    assert StatusName(r.store[id].status) == "Preparing";
    StatusNameRoundTrip(r.store[id].status);
  }

  /** The restaurant service (RESTAURANT_NOTIFICATION). Only a parsed NEW_ORDER
      record naming an existing order does anything beyond logging: it
      schedules the first auto-advance for that order. The store is never
      written and nothing is sent. */
  function HandleRestaurantMessage(store: Store, broker: Broker, msg: Incoming, now: string): (r: Reaction)
    ensures r.store == store && r.broker.queues == broker.queues
    ensures msg.Malformed? ==> r.broker == broker
    ensures msg.Parsed? ==> r.broker.log == broker.log + [LogEntry(Consumed, RestaurantNotification, msg.payload, now)]
    ensures r.scheduled != [] <==>
      msg.Parsed? && msg.payload.kind == Some("NEW_ORDER") && msg.payload.orderId.Some? && msg.payload.orderId.value in store
    ensures r.scheduled != [] ==> r.scheduled == [AutoConfirm(msg.payload.orderId.value)]
  {
    match msg
    case Malformed => Reaction(store, broker, [])
    case Parsed(p) =>
      var logged := LogConsumed(broker, RestaurantNotification, p, now);
      if p.kind == Some(NewOrderType) && p.orderId.Some? && p.orderId.value in store then
        Reaction(store, logged, [AutoConfirm(p.orderId.value)])
      else Reaction(store, logged, [])
  }

  /** The notification service (CUSTOMER_NOTIFICATION). A parsed
      ORDER_STATUS_UPDATE record reconciles the store with its `status`; any
      other record is only logged. */
  function HandleNotificationMessage(store: Store, broker: Broker, msg: Incoming, now: string): (r: Reaction)
    ensures r.scheduled == [] && r.broker.queues == broker.queues
    ensures msg.Malformed? ==> r.store == store && r.broker == broker
    ensures msg.Parsed? ==> r.broker.log == broker.log + [LogEntry(Consumed, CustomerNotification, msg.payload, now)]
    ensures msg.Parsed? && msg.payload.kind != Some("ORDER_STATUS_UPDATE") ==> r.store == store
    ensures msg.Parsed? && msg.payload.orderId.Some? ==> OnlyStatusOf(store, r.store, msg.payload.orderId.value)
    ensures msg.Parsed? && (msg.payload.orderId.None? || msg.payload.orderId.value !in store) ==> r.store == store
    ensures msg.Parsed? && msg.payload.kind == Some("ORDER_STATUS_UPDATE")
            && msg.payload.orderId.Some? && msg.payload.orderId.value in store
            && msg.payload.status.Some? && msg.payload.status.value in StatusEnum ==>
      StatusName(r.store[msg.payload.orderId.value].status) == msg.payload.status.value
    ensures msg.Parsed? && msg.payload.kind == Some("ORDER_STATUS_UPDATE") ==>
      r.store == Reconcile(store, msg.payload.orderId, msg.payload.status)
    ensures msg.Parsed? && (msg.payload.status.None? || msg.payload.status.value !in StatusEnum) ==> r.store == store
    ensures ValidStore(store) ==> ValidStore(r.store)
  {
    match msg
    case Malformed => Reaction(store, broker, [])
    case Parsed(p) =>
      var logged := LogConsumed(broker, CustomerNotification, p, now);
      if p.kind == Some(StatusUpdateType) then Reaction(Reconcile(store, p.orderId, p.status), logged, [])
      else Reaction(store, logged, [])
  }

  /** Redelivering a record to the notification service leaves the store as
      the first delivery left it. */
  lemma NotificationMessageIdempotent(store: Store, broker: Broker, msg: Incoming, now: string)
    ensures var once := HandleNotificationMessage(store, broker, msg, now);
            HandleNotificationMessage(once.store, once.broker, msg, now).store == once.store
  {
    if msg.Parsed? {
      ReconcileIdempotent(store, msg.payload.orderId, msg.payload.status);
    }
  }

  /** The check a timer callback makes after reading the order: the order
      exists and has the action's guard status. */
  predicate GuardHolds(store: Store, a: PendingAction) {
    a.orderId in store && store[a.orderId].status == Guard(a)
  }

  /** The second half of a timer callback, once its read has seen the guard:
      the save writes the target over whatever status is stored by then (the
      save does not re-check), then ORDER_UPDATED (guard to target) and
      CUSTOMER_NOTIFICATION (target) are sent, and the first advance
      schedules the second. An order that no longer exists fails the save and
      nothing happens. */
  function Advance(store: Store, broker: Broker, a: PendingAction, now: string, ok1: bool, ok2: bool): (r: Reaction)
    ensures OnlyStatusOf(store, r.store, a.orderId)
    ensures a.orderId !in store ==> r.store == store && r.broker == broker && r.scheduled == []
    ensures a.orderId in store ==>
      && r.store[a.orderId].status == Target(a)
      && |r.broker.log| == |broker.log| + 2 && r.broker.log[..|broker.log|] == broker.log
      && r.broker.log[|broker.log|].topic == OrderUpdated
      && r.broker.log[|broker.log|].payload.previousStatus == Some(StatusName(Guard(a)))
      && r.broker.log[|broker.log|].payload.newStatus == Some(StatusName(Target(a)))
      && r.broker.log[|broker.log| + 1].topic == CustomerNotification
      && r.broker.log[|broker.log| + 1].payload.kind == Some("ORDER_STATUS_UPDATE")
      && r.broker.log[|broker.log| + 1].payload.status == Some(StatusName(Target(a)))
    ensures a.orderId in store && a.AutoConfirm? ==> r.scheduled == [AutoShip(a.orderId)]
    ensures a.AutoShip? ==> r.scheduled == []
    ensures ValidStore(store) ==> ValidStore(r.store)
  {
    var id := a.orderId;
    if id in store then
      var written := WriteStatus(store, id, Target(a));
      var o := written[id];
      var previous := StatusName(Guard(a));
      var next := StatusName(Target(a));
      var sent := SendPair(broker,
                           OrderUpdated, OrderUpdatedPayload(o, previous, next, now),
                           CustomerNotification, StatusUpdatePayload(o, next, now),
                           now, ok1, ok2);
      Reaction(written, sent, if a.AutoConfirm? then [AutoShip(id)] else [])
    else Reaction(store, broker, [])
  }

  /** A timer callback whose read, check and save happen with no other write
      in between, as a conditional update on the stored status would make
      them: it writes only when the order's status at that moment is the
      action's guard, and then does what `Advance` does; otherwise it writes,
      sends and schedules nothing. */
  function Fire(store: Store, broker: Broker, a: PendingAction, now: string, ok1: bool, ok2: bool): (r: Reaction)
    ensures OnlyStatusOf(store, r.store, a.orderId)
    ensures r.store != store ==> GuardHolds(store, a) && r.store[a.orderId].status == Target(a)
    ensures !GuardHolds(store, a) ==> r.store == store && r.broker == broker && r.scheduled == []
    ensures GuardHolds(store, a) ==>
      && r.store[a.orderId].status == Target(a)
      && |r.broker.log| == |broker.log| + 2 && r.broker.log[..|broker.log|] == broker.log
      && r.broker.log[|broker.log|].topic == OrderUpdated
      && r.broker.log[|broker.log|].payload.previousStatus == Some(StatusName(Guard(a)))
      && r.broker.log[|broker.log|].payload.newStatus == Some(StatusName(Target(a)))
      && r.broker.log[|broker.log| + 1].topic == CustomerNotification
      && r.broker.log[|broker.log| + 1].payload.status == Some(StatusName(Target(a)))
    ensures GuardHolds(store, a) && a.AutoConfirm? ==> r.scheduled == [AutoShip(a.orderId)]
    ensures a.AutoShip? ==> r.scheduled == []
    ensures r.scheduled != [] ==> r.store[a.orderId].status == Preparing
    ensures ValidStore(store) ==> ValidStore(r.store)
  {
    if GuardHolds(store, a) then Advance(store, broker, a, now, ok1, ok2)
    else Reaction(store, broker, [])
  }
}
