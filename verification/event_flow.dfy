/** The event flow as a transition system: order creation, human status
    updates, archiving, deliveries of any record to any consumer service
    (redelivered, stale or out of order), and the restaurant service's
    auto-advance timers, in any interleaving. A timer callback is two steps:
    its timeout, where it reads the order and checks the guard status, and
    its save, which comes later; any other step may run in between. The save
    mode says how the save behaves: `AsWritten` writes the target whatever
    the status is by then, as the code's read-then-save does; `Conditional`
    writes only if the guard still holds, as a conditional update would. */
module EventFlow {
  import opened Wrappers
  import opened OrderSchema
  import opened Kafka
  import opened KafkaConsumers
  import OrderController

  /** A scheduled auto-advance: waiting for its timeout, or past a read that
      saw the guard and waiting for its save. */
  datatype Timer = Waiting(action: PendingAction) | Saving(action: PendingAction)

  datatype SaveMode = AsWritten | Conditional

  datatype System = System(store: Store, broker: Broker, pending: seq<Timer>)

  datatype Step =
    | Create(customers: map<ObjectId, OrderController.Customer>, userId: ObjectId,
             body: OrderController.CreateOrderBody, newId: ObjectId, now: string, ok1: bool, ok2: bool)
    | HumanUpdate(orderId: ObjectId, status: Option<string>, ok1: bool, ok2: bool, now: string)
    | Archive(restaurants: map<ObjectId, OrderController.Restaurant>, userId: ObjectId)
    | DeliverToOrderService(topic: Topic, msg: Incoming, now: string)
    | DeliverToRestaurantService(msg: Incoming, now: string)
    | DeliverToNotificationService(msg: Incoming, now: string)
    | TimerElapses(index: nat)
    | TimerSaves(index: nat, ok1: bool, ok2: bool, now: string)

  /** The pending list with entry `k` removed. */
  function RemoveAt(s: seq<Timer>, k: nat): (r: seq<Timer>)
    requires k < |s|
    ensures |r| == |s| - 1
    ensures forall i :: 0 <= i < |r| ==> r[i] == (if i < k then s[i] else s[i + 1])
  {
    s[..k] + s[k + 1..]
  }

  /** Newly scheduled actions, each waiting for its timeout. */
  function Arm(actions: seq<PendingAction>): (r: seq<Timer>)
    ensures |r| == |actions|
    ensures forall i :: 0 <= i < |r| ==> r[i].Waiting? && r[i].action == actions[i]
  {
    seq(|actions|, i requires 0 <= i < |actions| => Waiting(actions[i]))
  }

  /** `after` keeps every order of `before`, changed at most in its status
      and its archived flag, and an archived order stays archived. */
  predicate Evolves(before: Store, after: Store) {
    && before.Keys <= after.Keys
    && (forall id :: id in before ==>
          after[id] == before[id].(status := after[id].status, archived := after[id].archived))
    && (forall id :: id in before && before[id].archived ==> after[id].archived)
  }

  lemma EvolvesTrans(a: Store, b: Store, c: Store)
    requires Evolves(a, b) && Evolves(b, c)
    ensures Evolves(a, c)
  {
    forall id | id in a
      ensures c[id] == a[id].(status := c[id].status, archived := c[id].archived)
    {
      assert b[id] == a[id].(status := b[id].status, archived := b[id].archived);
    }
  }

  lemma EvolvesRefl(s: Store)
    ensures Evolves(s, s)
  {
  }

  /** A write confined to one order's status is an evolution of the store. */
  lemma OnlyStatusEvolves(before: Store, after: Store, id: ObjectId)
    requires OnlyStatusOf(before, after, id)
    ensures Evolves(before, after)
  {
    forall other | other in before
      ensures after[other] == before[other].(status := after[other].status, archived := after[other].archived)
    {
      if other == id {
        assert after[other] == before[other].(status := after[other].status);
      }
    }
  }

  function ApplyCreate(sys: System, customers: map<ObjectId, OrderController.Customer>, userId: ObjectId,
                       body: OrderController.CreateOrderBody, newId: ObjectId,
                       now: string, ok1: bool, ok2: bool): (r: System)
    ensures Evolves(sys.store, r.store) && r.pending == sys.pending
    ensures forall id :: id in sys.store ==> r.store[id] == sys.store[id]
    ensures ValidStore(sys.store) ==> ValidStore(r.store)
  {
    var out := OrderController.CreateOrder(sys.store, sys.broker, customers, userId, body, newId, now, ok1, ok2);
    if out.reply.Created? then
      assert forall id :: id in sys.store ==> id != newId && out.store[id] == sys.store[id];
      System(out.store, out.broker, sys.pending)
    else
      EvolvesRefl(sys.store);
      System(out.store, out.broker, sys.pending)
  }

  function ApplyHuman(sys: System, id: ObjectId, status: Option<string>, ok1: bool, ok2: bool, now: string): (r: System)
    ensures Evolves(sys.store, r.store) && r.pending == sys.pending
    ensures forall other :: other in sys.store && other != id ==> r.store[other] == sys.store[other]
    ensures ValidStore(sys.store) ==> ValidStore(r.store)
  {
    var out := OrderController.UpdateOrderStatus(sys.store, sys.broker, id, status, now, ok1, ok2);
    if out.reply.Updated? then
      assert OnlyStatusOf(sys.store, out.store, id);
      OnlyStatusEvolves(sys.store, out.store, id);
      System(out.store, out.broker, sys.pending)
    else
      EvolvesRefl(sys.store);
      System(out.store, out.broker, sys.pending)
  }

  function ApplyArchive(sys: System, restaurants: map<ObjectId, OrderController.Restaurant>, userId: ObjectId): (r: System)
    ensures Evolves(sys.store, r.store) && r.pending == sys.pending
    ensures forall id :: id in sys.store ==> r.store[id].status == sys.store[id].status
    ensures ValidStore(sys.store) ==> ValidStore(r.store)
  {
    var out := OrderController.ClearCompletedOrders(sys.store, sys.broker, restaurants, userId);
    EvolvesRefl(sys.store);
    System(out.store, out.broker, sys.pending)
  }

  /** The state after a consumer's reaction to a record: the store and broker
      it leaves, and its timers armed behind the pending ones. */
  function ApplyReaction(sys: System, r: Reaction, msg: Incoming): (out: System)
    requires r.store == sys.store || (msg.Parsed? && msg.payload.orderId.Some?
                                      && OnlyStatusOf(sys.store, r.store, msg.payload.orderId.value))
    requires ValidStore(sys.store) ==> ValidStore(r.store)
    ensures Evolves(sys.store, out.store)
    ensures ValidStore(sys.store) ==> ValidStore(out.store)
    ensures out.store == r.store && out.broker == r.broker
    ensures out.pending == sys.pending + Arm(r.scheduled)
    ensures forall other :: other in sys.store && !(msg.Parsed? && msg.payload.orderId == Some(other)) ==>
      out.store[other] == sys.store[other]
  {
    if r.store == sys.store then EvolvesRefl(sys.store); System(r.store, r.broker, sys.pending + Arm(r.scheduled))
    else
      OnlyStatusEvolves(sys.store, r.store, msg.payload.orderId.value);
      System(r.store, r.broker, sys.pending + Arm(r.scheduled))
  }

  function ApplyTimeout(sys: System, k: nat): (r: System)
    ensures r.store == sys.store && r.broker == sys.broker
    ensures k < |sys.pending| && sys.pending[k].Waiting? && GuardHolds(sys.store, sys.pending[k].action) ==>
      r.pending == sys.pending[k := Saving(sys.pending[k].action)]
    ensures k < |sys.pending| && sys.pending[k].Waiting? && !GuardHolds(sys.store, sys.pending[k].action) ==>
      r.pending == RemoveAt(sys.pending, k)
    ensures !(k < |sys.pending| && sys.pending[k].Waiting?) ==> r == sys
  {
    if k < |sys.pending| && sys.pending[k].Waiting? then
      var a := sys.pending[k].action;
      if GuardHolds(sys.store, a) then sys.(pending := sys.pending[k := Saving(a)])
      else sys.(pending := RemoveAt(sys.pending, k))
    else sys
  }

  function ApplySave(mode: SaveMode, sys: System, k: nat, ok1: bool, ok2: bool, now: string): (r: System)
    ensures Evolves(sys.store, r.store)
    ensures ValidStore(sys.store) ==> ValidStore(r.store)
    ensures !(k < |sys.pending| && sys.pending[k].Saving?) ==> r == sys
    ensures k < |sys.pending| && sys.pending[k].Saving? ==>
      var a := sys.pending[k].action;
      var x := if mode == AsWritten then Advance(sys.store, sys.broker, a, now, ok1, ok2)
               else Fire(sys.store, sys.broker, a, now, ok1, ok2);
      r == System(x.store, x.broker, RemoveAt(sys.pending, k) + Arm(x.scheduled))
  {
    if k < |sys.pending| && sys.pending[k].Saving? then
      var a := sys.pending[k].action;
      var x := if mode == AsWritten then Advance(sys.store, sys.broker, a, now, ok1, ok2)
               else Fire(sys.store, sys.broker, a, now, ok1, ok2);
      OnlyStatusEvolves(sys.store, x.store, a.orderId);
      System(x.store, x.broker, RemoveAt(sys.pending, k) + Arm(x.scheduled))
    else
      EvolvesRefl(sys.store);
      sys
  }

  function Apply(mode: SaveMode, sys: System, step: Step): (r: System)
    ensures Evolves(sys.store, r.store)
    ensures ValidStore(sys.store) ==> ValidStore(r.store)
  {
    match step
    case Create(customers, userId, body, newId, now, ok1, ok2) =>
      ApplyCreate(sys, customers, userId, body, newId, now, ok1, ok2)
    case HumanUpdate(id, status, ok1, ok2, now) => ApplyHuman(sys, id, status, ok1, ok2, now)
    case Archive(restaurants, userId) => ApplyArchive(sys, restaurants, userId)
    case DeliverToOrderService(topic, msg, now) =>
      ApplyReaction(sys, HandleOrderMessage(sys.store, sys.broker, topic, msg, now), msg)
    case DeliverToRestaurantService(msg, now) =>
      ApplyReaction(sys, HandleRestaurantMessage(sys.store, sys.broker, msg, now), msg)
    case DeliverToNotificationService(msg, now) =>
      ApplyReaction(sys, HandleNotificationMessage(sys.store, sys.broker, msg, now), msg)
    case TimerElapses(k) => EvolvesRefl(sys.store); ApplyTimeout(sys, k)
    case TimerSaves(k, ok1, ok2, now) => ApplySave(mode, sys, k, ok1, ok2, now)
  }

  function Run(mode: SaveMode, sys: System, steps: seq<Step>): System
    decreases |steps|
  {
    if |steps| == 0 then sys else Run(mode, Apply(mode, sys, steps[0]), steps[1..])
  }

  /** Along any run, orders are only ever added: every order keeps its id and
      every field but its status and archived flag, an archived order stays
      archived, and every reachable store stays valid. */
  lemma {:induction false} RunKeepsOrders(mode: SaveMode, sys: System, steps: seq<Step>)
    ensures Evolves(sys.store, Run(mode, sys, steps).store)
    ensures ValidStore(sys.store) ==> ValidStore(Run(mode, sys, steps).store)
    decreases |steps|
  {
    if |steps| > 0 {
      var next := Apply(mode, sys, steps[0]);
      RunKeepsOrders(mode, next, steps[1..]);
      EvolvesTrans(sys.store, next.store, Run(mode, next, steps[1..]).store);
    }
  }

  /** A timeout only reads: it writes and sends nothing. */
  lemma TimeoutOnlyReads(mode: SaveMode, sys: System, k: nat)
    ensures Apply(mode, sys, TimerElapses(k)).store == sys.store
    ensures Apply(mode, sys, TimerElapses(k)).broker == sys.broker
  {
  }

  /** The as-written save writes the target whatever the order's status is
      by the time it runs. */
  lemma BlindSaveWritesTarget(sys: System, k: nat, ok1: bool, ok2: bool, now: string)
    requires k < |sys.pending| && sys.pending[k].Saving?
    requires sys.pending[k].action.orderId in sys.store
    ensures var a := sys.pending[k].action;
            var after := Apply(AsWritten, sys, TimerSaves(k, ok1, ok2, now));
            a.orderId in after.store && after.store[a.orderId].status == Target(a)
  {
  }

  /** With a conditional save, a timer changes the store only if the order's
      status at the moment of the save is the timer's guard, and then the
      order ends up in the timer's target. */
  lemma ConditionalSaveIsGuarded(sys: System, k: nat, ok1: bool, ok2: bool, now: string)
    requires k < |sys.pending|
    ensures var after := Apply(Conditional, sys, TimerSaves(k, ok1, ok2, now));
            var a := sys.pending[k].action;
            after.store != sys.store ==>
              && sys.pending[k].Saving?
              && GuardHolds(sys.store, a)
              && after.store[a.orderId].status == Target(a)
              && OnlyStatusOf(sys.store, after.store, a.orderId)
  {
  }

  /** A step that may write the status `placed` into order `id`. */
  predicate MayWritePlaced(step: Step, id: ObjectId) {
    match step
    case Create(_, _, _, _, _, _, _) => false
    case HumanUpdate(o, status, _, _, _) => o == id && status == Some("placed")
    case Archive(_, _) => false
    case DeliverToOrderService(_, msg, _) =>
      msg.Parsed? && msg.payload.orderId == Some(id)
      && (msg.payload.status == Some("placed") || msg.payload.newStatus == Some("placed"))
    case DeliverToRestaurantService(_, _) => false
    case DeliverToNotificationService(msg, _) =>
      msg.Parsed? && msg.payload.orderId == Some(id) && msg.payload.status == Some("placed")
    case TimerElapses(_) => false
    case TimerSaves(_, _, _, _) => false
  }

  /** One step keeps an existing order out of `placed` unless it is a step
      that names `placed` for that order; no timer ever writes `placed`, and
      a creation only ever adds a new order. */
  lemma StepKeepsNotPlaced(mode: SaveMode, sys: System, step: Step, id: ObjectId)
    requires id in sys.store && sys.store[id].status != Placed
    requires !MayWritePlaced(step, id)
    ensures id in Apply(mode, sys, step).store && Apply(mode, sys, step).store[id].status != Placed
  {
    match step
    case Create(customers, userId, body, newId, now, ok1, ok2) =>
    case HumanUpdate(o, status, ok1, ok2, now) => HumanKeepsNotPlaced(sys, o, status, ok1, ok2, now, id);
    case Archive(restaurants, userId) =>
    case DeliverToOrderService(topic, msg, now) => OrderDeliveryKeepsNotPlaced(sys, topic, msg, now, id);
    case DeliverToRestaurantService(msg, now) =>
    case DeliverToNotificationService(msg, now) => NotificationKeepsNotPlaced(sys, msg, now, id);
    case TimerElapses(k) =>
    case TimerSaves(k, ok1, ok2, now) =>
      SaveKeepsNotPlaced(mode, sys, k, ok1, ok2, now, id);
      assert Apply(mode, sys, step) == ApplySave(mode, sys, k, ok1, ok2, now);
  }

  lemma OrderDeliveryKeepsNotPlaced(sys: System, topic: Topic, msg: Incoming, now: string, id: ObjectId)
    requires id in sys.store && sys.store[id].status != Placed
    requires !(msg.Parsed? && msg.payload.orderId == Some(id)
               && (msg.payload.status == Some("placed") || msg.payload.newStatus == Some("placed")))
    ensures var r := HandleOrderMessage(sys.store, sys.broker, topic, msg, now);
            id in r.store && r.store[id].status != Placed
  {
    if msg.Parsed? && topic == OrderCreated {
      ReconcileKeepsNotPlaced(sys.store, id, msg.payload.orderId, msg.payload.status);
    } else if msg.Parsed? && topic == OrderUpdated {
      ReconcileKeepsNotPlaced(sys.store, id, msg.payload.orderId, msg.payload.newStatus);
    }
  }

  lemma NotificationKeepsNotPlaced(sys: System, msg: Incoming, now: string, id: ObjectId)
    requires id in sys.store && sys.store[id].status != Placed
    requires !(msg.Parsed? && msg.payload.orderId == Some(id) && msg.payload.status == Some("placed"))
    ensures var r := HandleNotificationMessage(sys.store, sys.broker, msg, now);
            id in r.store && r.store[id].status != Placed
  {
    if msg.Parsed? && msg.payload.kind == Some("ORDER_STATUS_UPDATE") {
      ReconcileKeepsNotPlaced(sys.store, id, msg.payload.orderId, msg.payload.status);
    }
  }

  lemma SaveKeepsNotPlaced(mode: SaveMode, sys: System, k: nat, ok1: bool, ok2: bool, now: string, id: ObjectId)
    requires id in sys.store && sys.store[id].status != Placed
    ensures id in ApplySave(mode, sys, k, ok1, ok2, now).store
    ensures ApplySave(mode, sys, k, ok1, ok2, now).store[id].status != Placed
  {
    if k < |sys.pending| && sys.pending[k].Saving? {
      assert Target(sys.pending[k].action) != Placed;
    }
  }

  lemma ReconcileKeepsNotPlaced(store: Store, id: ObjectId, o: Option<ObjectId>, status: Option<string>)
    requires id in store && store[id].status != Placed
    requires !(o == Some(id) && status == Some("placed"))
    ensures id in Reconcile(store, o, status) && Reconcile(store, o, status)[id].status != Placed
  {
    StatusNameRoundTrip(Placed);
  }

  lemma HumanKeepsNotPlaced(sys: System, o: ObjectId, status: Option<string>, ok1: bool, ok2: bool, now: string, id: ObjectId)
    requires id in sys.store && sys.store[id].status != Placed
    requires !(o == id && status == Some("placed"))
    ensures id in ApplyHuman(sys, o, status, ok1, ok2, now).store
    ensures ApplyHuman(sys, o, status, ok1, ok2, now).store[id].status != Placed
  {
    if o == id {
      StatusNameRoundTrip(Placed);
      var out := OrderController.UpdateOrderStatus(sys.store, sys.broker, id, status, now, ok1, ok2);
      assert out.reply.Updated? ==> out.store[id].status != Placed;
    }
  }

  /** Once an order has left `placed`, no interleaving of timers, creations,
      archiving, redeliveries and updates brings it back, unless some step
      explicitly names `placed` for it (a human update or a stale event). In
      particular the first auto-advance can never pass its guard for it
      again. */
  lemma {:induction false} PlacedNeverReturns(mode: SaveMode, sys: System, steps: seq<Step>, id: ObjectId)
    requires id in sys.store && sys.store[id].status != Placed
    requires forall i :: 0 <= i < |steps| ==> !MayWritePlaced(steps[i], id)
    ensures id in Run(mode, sys, steps).store && Run(mode, sys, steps).store[id].status != Placed
    decreases |steps|
  {
    if |steps| > 0 {
      StepKeepsNotPlaced(mode, sys, steps[0], id);
      assert forall i :: 0 <= i < |steps[1..]| ==> steps[1..][i] == steps[i + 1];
      PlacedNeverReturns(mode, Apply(mode, sys, steps[0]), steps[1..], id);
    }
  }

  /** A step that does not write the status of order `id` by anything but a
      timer: every non-timer step either names another order, cannot be
      parsed, creates a new order or only archives. */
  predicate OnlyTimersTouch(step: Step, id: ObjectId) {
    match step
    case Create(_, _, _, _, _, _, _) => true
    case HumanUpdate(o, _, _, _, _) => o != id
    case Archive(_, _) => true
    case DeliverToOrderService(_, msg, _) => msg.Malformed? || msg.payload.orderId != Some(id)
    case DeliverToRestaurantService(_, _) => true
    case DeliverToNotificationService(msg, _) => msg.Malformed? || msg.payload.orderId != Some(id)
    case TimerElapses(_) => true
    case TimerSaves(_, _, _, _) => true
  }

  /** No timer for order `id` is between its read and its save. */
  predicate NoSaveInFlight(pending: seq<Timer>, id: ObjectId) {
    forall i :: 0 <= i < |pending| ==> !(pending[i].Saving? && pending[i].action.orderId == id)
  }

  /** Timers never override a status past the auto-advance chain: an order
      whose status is neither `placed` nor `Preparing` keeps it through any
      interleaving of timer steps and of steps about other orders. With the
      as-written save this needs that no timer for the order has already
      read it and is waiting to save (see `LostHumanUpdate`); with a
      conditional save it holds outright. */
  lemma {:induction false} TimersPreserveHumanStatus(mode: SaveMode, sys: System, steps: seq<Step>, id: ObjectId)
    requires id in sys.store && sys.store[id].status != Placed && sys.store[id].status != Preparing
    requires mode == Conditional || NoSaveInFlight(sys.pending, id)
    requires forall i :: 0 <= i < |steps| ==> OnlyTimersTouch(steps[i], id)
    ensures id in Run(mode, sys, steps).store && Run(mode, sys, steps).store[id].status == sys.store[id].status
    decreases |steps|
  {
    if |steps| > 0 {
      var next := Apply(mode, sys, steps[0]);
      TimerStepPreservesHumanStatus(mode, sys, steps[0], id);
      assert forall i :: 0 <= i < |steps[1..]| ==> steps[1..][i] == steps[i + 1];
      TimersPreserveHumanStatus(mode, next, steps[1..], id);
    }
  }

  lemma TimerStepPreservesHumanStatus(mode: SaveMode, sys: System, step: Step, id: ObjectId)
    requires id in sys.store && sys.store[id].status != Placed && sys.store[id].status != Preparing
    requires mode == Conditional || NoSaveInFlight(sys.pending, id)
    requires OnlyTimersTouch(step, id)
    ensures id in Apply(mode, sys, step).store
    ensures Apply(mode, sys, step).store[id].status == sys.store[id].status
    ensures mode == Conditional || NoSaveInFlight(Apply(mode, sys, step).pending, id)
  {
    match step
    case Create(customers, userId, body, newId, now, ok1, ok2) =>
    case HumanUpdate(o, status, ok1, ok2, now) =>
    case Archive(restaurants, userId) =>
    case DeliverToOrderService(topic, msg, now) =>
      ArmKeepsNoSave(sys.pending, HandleOrderMessage(sys.store, sys.broker, topic, msg, now).scheduled, id);
    case DeliverToRestaurantService(msg, now) =>
      ArmKeepsNoSave(sys.pending, HandleRestaurantMessage(sys.store, sys.broker, msg, now).scheduled, id);
    case DeliverToNotificationService(msg, now) =>
      ArmKeepsNoSave(sys.pending, HandleNotificationMessage(sys.store, sys.broker, msg, now).scheduled, id);
    case TimerElapses(k) => TimeoutKeepsHumanStatus(mode, sys, k, id);
    case TimerSaves(k, ok1, ok2, now) => SaveKeepsHumanStatus(mode, sys, k, ok1, ok2, now, id);
  }

  lemma ArmKeepsNoSave(pending: seq<Timer>, actions: seq<PendingAction>, id: ObjectId)
    ensures NoSaveInFlight(pending, id) ==> NoSaveInFlight(pending + Arm(actions), id)
  {
  }

  lemma RemoveAtKeepsNoSave(pending: seq<Timer>, k: nat, id: ObjectId)
    requires k < |pending|
    ensures NoSaveInFlight(pending, id) ==> NoSaveInFlight(RemoveAt(pending, k), id)
  {
  }

  /** A timeout for this order finds it past the guard and is dropped, so no
      save for it is ever started. */
  lemma TimeoutKeepsHumanStatus(mode: SaveMode, sys: System, k: nat, id: ObjectId)
    requires id in sys.store && sys.store[id].status != Placed && sys.store[id].status != Preparing
    requires mode == Conditional || NoSaveInFlight(sys.pending, id)
    ensures ApplyTimeout(sys, k).store == sys.store
    ensures mode == Conditional || NoSaveInFlight(ApplyTimeout(sys, k).pending, id)
  {
    if k < |sys.pending| && sys.pending[k].Waiting? {
      var a := sys.pending[k].action;
      assert Guard(a) == Placed || Guard(a) == Preparing;
      RemoveAtKeepsNoSave(sys.pending, k, id);
    }
  }

  /** A save never touches this order: in the conditional mode its guard
      fails for it, and in the as-written mode no save for it is open. */
  lemma SaveKeepsHumanStatus(mode: SaveMode, sys: System, k: nat, ok1: bool, ok2: bool, now: string, id: ObjectId)
    requires id in sys.store && sys.store[id].status != Placed && sys.store[id].status != Preparing
    requires mode == Conditional || NoSaveInFlight(sys.pending, id)
    ensures id in ApplySave(mode, sys, k, ok1, ok2, now).store
    ensures ApplySave(mode, sys, k, ok1, ok2, now).store[id].status == sys.store[id].status
    ensures mode == Conditional || NoSaveInFlight(ApplySave(mode, sys, k, ok1, ok2, now).pending, id)
  {
    if k < |sys.pending| && sys.pending[k].Saving? {
      var a := sys.pending[k].action;
      var x := if mode == AsWritten then Advance(sys.store, sys.broker, a, now, ok1, ok2)
               else Fire(sys.store, sys.broker, a, now, ok1, ok2);
      if mode == AsWritten {
        assert a.orderId != id;
      } else {
        assert Guard(a) == Placed || Guard(a) == Preparing;
        assert !GuardHolds(sys.store, a) || a.orderId != id;
      }
      assert x.store[id] == sys.store[id];
      RemoveAtKeepsNoSave(sys.pending, k, id);
      ArmKeepsNoSave(RemoveAt(sys.pending, k), x.scheduled, id);
    }
  }

  /** A human update with a listed status writes exactly that status. */
  lemma HumanUpdateWrites(mode: SaveMode, sys: System, id: ObjectId, s: OrderStatus, ok1: bool, ok2: bool, now: string)
    requires id in sys.store
    ensures var after := Apply(mode, sys, HumanUpdate(id, Some(StatusName(s)), ok1, ok2, now));
            id in after.store && after.store[id].status == s && after.pending == sys.pending
  {
    StatusNameRoundTrip(s);
    OrderController.ValidStatusesMatchSchema();
    var out := OrderController.UpdateOrderStatus(sys.store, sys.broker, id, Some(StatusName(s)), now, ok1, ok2);
    assert out.reply.Updated?;
    StatusNameInjective(out.store[id].status, s);
  }

  /** The guard scenario: a human moves an order to a status past the chain
      (say `Delivered` or `Cancelled`) while its auto-advances are pending;
      whatever timer steps follow, in whatever order, the order keeps the
      human's status, provided no timer for the order had already read it
      when the human wrote, or the save is conditional. */
  lemma HumanUpdatePreemptsTimers(mode: SaveMode, sys: System, id: ObjectId, s: OrderStatus,
                                  ok1: bool, ok2: bool, now: string, steps: seq<Step>)
    requires id in sys.store
    requires s != Placed && s != Preparing
    requires mode == Conditional || NoSaveInFlight(sys.pending, id)
    requires forall i :: 0 <= i < |steps| ==> OnlyTimersTouch(steps[i], id)
    ensures var afterHuman := Apply(mode, sys, HumanUpdate(id, Some(StatusName(s)), ok1, ok2, now));
            id in Run(mode, afterHuman, steps).store && Run(mode, afterHuman, steps).store[id].status == s
  {
    var afterHuman := Apply(mode, sys, HumanUpdate(id, Some(StatusName(s)), ok1, ok2, now));
    HumanUpdateWrites(mode, sys, id, s, ok1, ok2, now);
    TimersPreserveHumanStatus(mode, afterHuman, steps, id);
  }

  /** A timeout of the only pending timer, whose guard holds, starts its save. */
  lemma TimeoutAlone(sys: System, a: PendingAction)
    requires sys.pending == [Waiting(a)] && GuardHolds(sys.store, a)
    ensures ApplyTimeout(sys, 0) == sys.(pending := [Saving(a)])
  {
    assert [Waiting(a)][0 := Saving(a)] == [Saving(a)];
  }

  /** The save of the only pending timer writes its target when the save is
      as written or the guard still holds, and arms the next auto-advance. */
  lemma SaveAlone(mode: SaveMode, sys: System, a: PendingAction, ok: bool, now: string)
    requires sys.pending == [Saving(a)] && a.orderId in sys.store
    requires mode == AsWritten || GuardHolds(sys.store, a)
    ensures var after := ApplySave(mode, sys, 0, ok, ok, now);
            && a.orderId in after.store && after.store[a.orderId].status == Target(a)
            && after.pending == (if a.AutoConfirm? then [Waiting(AutoShip(a.orderId))] else [])
  {
    var x := if mode == AsWritten then Advance(sys.store, sys.broker, a, now, ok, ok)
             else Fire(sys.store, sys.broker, a, now, ok, ok);
    assert x.scheduled == (if a.AutoConfirm? then [AutoShip(a.orderId)] else []);
    assert RemoveAt(sys.pending, 0) == [];
    var armed := Arm(x.scheduled);
    assert armed == (if a.AutoConfirm? then [Waiting(AutoShip(a.orderId))] else []);
  }

  /** A conditional save whose guard no longer holds writes nothing and drops
      the timer. */
  lemma SaveRefused(sys: System, a: PendingAction, ok: bool, now: string)
    requires sys.pending == [Saving(a)] && !GuardHolds(sys.store, a)
    ensures var after := ApplySave(Conditional, sys, 0, ok, ok, now);
            after.store == sys.store && after.pending == []
  {
    assert RemoveAt(sys.pending, 0) == [];
    assert Arm([]) == [];
  }

  /** The schedule the code leaves open: the first timer reads `placed`, a
      human then marks the order `Delivered`, and the timer's save still
      writes `Preparing`; the second timer reads that and moves the order on
      to `On the Way`. With the as-written save the human's status is lost;
      with a conditional save the same schedule keeps it. */
  lemma LostHumanUpdate(sys: System, id: ObjectId, ok: bool, now: string)
    requires id in sys.store && sys.store[id].status == Placed
    requires sys.pending == [Waiting(AutoConfirm(id))]
    ensures var steps := [TimerElapses(0), HumanUpdate(id, Some("Delivered"), ok, ok, now),
                          TimerSaves(0, ok, ok, now), TimerElapses(0), TimerSaves(0, ok, ok, now)];
            && id in Run(AsWritten, sys, steps).store
            && Run(AsWritten, sys, steps).store[id].status == OnTheWay
            && id in Run(Conditional, sys, steps).store
            && Run(Conditional, sys, steps).store[id].status == Delivered
  {
    ScheduleUnfolds(AsWritten, sys, id, ok, now);
    ScheduleUnfolds(Conditional, sys, id, ok, now);
    AsWrittenOverwrites(sys, id, ok, now);
    ConditionalKeeps(sys, id, ok, now);
  }

  /** The state after a run of the five-step schedule, one step at a time. */
  function Schedule(mode: SaveMode, sys: System, id: ObjectId, ok: bool, now: string): System {
    var read := ApplyTimeout(sys, 0);
    var s0 := ApplyHuman(read, id, Some("Delivered"), ok, ok, now);
    var s1 := ApplySave(mode, s0, 0, ok, ok, now);
    var s2 := ApplyTimeout(s1, 0);
    ApplySave(mode, s2, 0, ok, ok, now)
  }

  lemma ScheduleUnfolds(mode: SaveMode, sys: System, id: ObjectId, ok: bool, now: string)
    ensures Run(mode, sys, [TimerElapses(0), HumanUpdate(id, Some("Delivered"), ok, ok, now),
                            TimerSaves(0, ok, ok, now), TimerElapses(0), TimerSaves(0, ok, ok, now)])
         == Schedule(mode, sys, id, ok, now)
  {
    var human := HumanUpdate(id, Some("Delivered"), ok, ok, now);
    var save := TimerSaves(0, ok, ok, now);
    var tick := TimerElapses(0);
    var read := ApplyTimeout(sys, 0);
    var s0 := ApplyHuman(read, id, Some("Delivered"), ok, ok, now);
    var s1 := ApplySave(mode, s0, 0, ok, ok, now);
    var s2 := ApplyTimeout(s1, 0);
    RunTick(mode, sys, 0, [human, save, tick, save]);
    RunHuman(mode, read, id, Some("Delivered"), ok, ok, now, [save, tick, save]);
    RunSave(mode, s0, 0, ok, ok, now, [tick, save]);
    RunTick(mode, s1, 0, [save]);
    RunSave(mode, s2, 0, ok, ok, now, []);
  }

  lemma RunTick(mode: SaveMode, sys: System, k: nat, rest: seq<Step>)
    ensures Run(mode, sys, [TimerElapses(k)] + rest) == Run(mode, ApplyTimeout(sys, k), rest)
  {
    var steps := [TimerElapses(k)] + rest;
    assert steps[0] == TimerElapses(k) && steps[1..] == rest;
    var next := Apply(mode, sys, steps[0]);
    assert next == ApplyTimeout(sys, k);
    assert Run(mode, sys, steps) == Run(mode, next, rest);
  }

  lemma RunSave(mode: SaveMode, sys: System, k: nat, ok1: bool, ok2: bool, now: string, rest: seq<Step>)
    ensures Run(mode, sys, [TimerSaves(k, ok1, ok2, now)] + rest) == Run(mode, ApplySave(mode, sys, k, ok1, ok2, now), rest)
  {
    var steps := [TimerSaves(k, ok1, ok2, now)] + rest;
    assert steps[0] == TimerSaves(k, ok1, ok2, now) && steps[1..] == rest;
    var next := Apply(mode, sys, steps[0]);
    assert next == ApplySave(mode, sys, k, ok1, ok2, now);
    assert Run(mode, sys, steps) == Run(mode, next, rest);
  }

  lemma RunHuman(mode: SaveMode, sys: System, id: ObjectId, status: Option<string>, ok1: bool, ok2: bool, now: string,
                 rest: seq<Step>)
    ensures Run(mode, sys, [HumanUpdate(id, status, ok1, ok2, now)] + rest)
         == Run(mode, ApplyHuman(sys, id, status, ok1, ok2, now), rest)
  {
    var steps := [HumanUpdate(id, status, ok1, ok2, now)] + rest;
    assert steps[0] == HumanUpdate(id, status, ok1, ok2, now) && steps[1..] == rest;
    var next := Apply(mode, sys, steps[0]);
    assert next == ApplyHuman(sys, id, status, ok1, ok2, now);
    assert Run(mode, sys, steps) == Run(mode, next, rest);
  }

  /** The first two steps of the schedule: the timer reads `placed`, then the
      human writes `Delivered`; the timer's save is still pending. */
  lemma ReadThenHuman(sys: System, id: ObjectId, ok: bool, now: string)
    requires id in sys.store && sys.store[id].status == Placed
    requires sys.pending == [Waiting(AutoConfirm(id))]
    ensures var s0 := ApplyHuman(ApplyTimeout(sys, 0), id, Some("Delivered"), ok, ok, now);
            && id in s0.store && s0.store[id].status == Delivered
            && s0.pending == [Saving(AutoConfirm(id))]
  {
    TimeoutAlone(sys, AutoConfirm(id));
    var read := ApplyTimeout(sys, 0);
    assert StatusName(Delivered) == "Delivered";
    HumanUpdateWrites(AsWritten, read, id, Delivered, ok, ok, now);
  }

  lemma AsWrittenOverwrites(sys: System, id: ObjectId, ok: bool, now: string)
    requires id in sys.store && sys.store[id].status == Placed
    requires sys.pending == [Waiting(AutoConfirm(id))]
    ensures var s3 := Schedule(AsWritten, sys, id, ok, now);
            id in s3.store && s3.store[id].status == OnTheWay
  {
    ReadThenHuman(sys, id, ok, now);
    var s0 := ApplyHuman(ApplyTimeout(sys, 0), id, Some("Delivered"), ok, ok, now);
    SaveAlone(AsWritten, s0, AutoConfirm(id), ok, now);
    var s1 := ApplySave(AsWritten, s0, 0, ok, ok, now);
    TimeoutAlone(s1, AutoShip(id));
    var s2 := ApplyTimeout(s1, 0);
    SaveAlone(AsWritten, s2, AutoShip(id), ok, now);
  }

  lemma ConditionalKeeps(sys: System, id: ObjectId, ok: bool, now: string)
    requires id in sys.store && sys.store[id].status == Placed
    requires sys.pending == [Waiting(AutoConfirm(id))]
    ensures var s3 := Schedule(Conditional, sys, id, ok, now);
            id in s3.store && s3.store[id].status == Delivered
  {
    ReadThenHuman(sys, id, ok, now);
    var s0 := ApplyHuman(ApplyTimeout(sys, 0), id, Some("Delivered"), ok, ok, now);
    SaveRefused(s0, AutoConfirm(id), ok, now);
    var s1 := ApplySave(Conditional, s0, 0, ok, ok, now);
    assert ApplyTimeout(s1, 0) == s1;
    assert ApplySave(Conditional, s1, 0, ok, ok, now) == s1;
  }
}
