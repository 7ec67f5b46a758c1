/** The order document schema: the closed status enumeration with its string
    spelling, the item and order records, and the validation a save performs
    (required fields, enums, the quantity minimum and the defaults). */
module OrderSchema {
  import opened Wrappers

  /** Document ids are opaque; only equality matters. */
  type ObjectId = nat

  /** The eleven statuses the schema admits, in the enum's declaration order. */
  datatype OrderStatus =
    | Placed
    | OrderReceived
    | Preparing
    | OnTheWay
    | PickupReady
    | Delivered
    | PickedUp
    | Cancelled
    | Confirmed
    | ReadyForPickup
    | OutForDelivery

  /** The stored string spelling of each status. */
  function StatusName(s: OrderStatus): string {
    match s
    case Placed => "placed"
    case OrderReceived => "Order Received"
    case Preparing => "Preparing"
    case OnTheWay => "On the Way"
    case PickupReady => "Pick-up Ready"
    case Delivered => "Delivered"
    case PickedUp => "Picked Up"
    case Cancelled => "Cancelled"
    case Confirmed => "confirmed"
    case ReadyForPickup => "ready_for_pickup"
    case OutForDelivery => "out_for_delivery"
  }

  /** The schema's `enum` list for the status path. */
  const StatusEnum: seq<string> := [
    "placed", "Order Received", "Preparing", "On the Way", "Pick-up Ready",
    "Delivered", "Picked Up", "Cancelled", "confirmed", "ready_for_pickup",
    "out_for_delivery"
  ]

  /** Enum validation: a string names a status exactly when it is on the list. */
  function ParseStatus(name: string): (r: Option<OrderStatus>)
    ensures r.Some? <==> name in StatusEnum
    ensures r.Some? ==> StatusName(r.value) == name
  {
    if name == "placed" then Some(Placed)
    else if name == "Order Received" then Some(OrderReceived)
    else if name == "Preparing" then Some(Preparing)
    else if name == "On the Way" then Some(OnTheWay)
    else if name == "Pick-up Ready" then Some(PickupReady)
    else if name == "Delivered" then Some(Delivered)
    else if name == "Picked Up" then Some(PickedUp)
    else if name == "Cancelled" then Some(Cancelled)
    else if name == "confirmed" then Some(Confirmed)
    else if name == "ready_for_pickup" then Some(ReadyForPickup)
    else if name == "out_for_delivery" then Some(OutForDelivery)
    else None
  }

  /** Every status is spelled by exactly one enum entry, and parsing its
      spelling gives it back: the datatype and the list are the same set. */
  lemma StatusNameRoundTrip(s: OrderStatus)
    ensures StatusName(s) in StatusEnum
    ensures ParseStatus(StatusName(s)) == Some(s)
  {
  }

  /** Distinct statuses have distinct spellings. */
  lemma StatusNameInjective(a: OrderStatus, b: OrderStatus)
    requires StatusName(a) == StatusName(b)
    ensures a == b
  {
    StatusNameRoundTrip(a);
    StatusNameRoundTrip(b);
  }

  /** The enum has eleven pairwise distinct entries. */
  lemma StatusEnumDistinct()
    ensures |StatusEnum| == 11
    ensures forall i, j :: 0 <= i < j < |StatusEnum| ==> StatusEnum[i] != StatusEnum[j]
  {
  }

  /** The statuses that end an order's life; also the archival eligibility set. */
  predicate IsTerminal(s: OrderStatus) {
    s == Delivered || s == PickedUp || s == Cancelled
  }

  datatype PaymentMethod = Card | Cash

  function ParsePaymentMethod(name: string): (r: Option<PaymentMethod>)
    ensures r.Some? <==> name == "card" || name == "cash"
    ensures name == "card" ==> r == Some(Card)
    ensures name == "cash" ==> r == Some(Cash)
  {
    if name == "card" then Some(Card)
    else if name == "cash" then Some(Cash)
    else None
  }

  datatype Address = Address(
    street: Option<string>,
    city: Option<string>,
    state: Option<string>,
    country: Option<string>,
    zipCode: Option<string>)

  /** An item as supplied by a request body: every path may be absent. */
  datatype ItemDraft = ItemDraft(
    dishId: Option<ObjectId>,
    name: Option<string>,
    quantity: Option<int>,
    price: Option<real>)

  /** A stored item; `ValidItem` holds of every item that passed validation. */
  datatype OrderItem = OrderItem(
    dishId: ObjectId,
    name: Option<string>,
    quantity: int,
    price: real)

  /** A new document before validation: what the constructor was given. */
  datatype OrderDraft = OrderDraft(
    customerId: Option<ObjectId>,
    restaurantId: Option<ObjectId>,
    items: seq<ItemDraft>,
    status: Option<string>,
    totalAmount: Option<real>,
    deliveryFee: Option<real>,
    deliveryAddress: Option<Address>,
    paymentMethod: Option<string>,
    deliveryTimeEstimate: Option<string>,
    orderNotes: Option<string>,
    archived: Option<bool>)

  /** A stored order document. */
  datatype Order = Order(
    id: ObjectId,
    customerId: ObjectId,
    restaurantId: ObjectId,
    items: seq<OrderItem>,
    status: OrderStatus,
    totalAmount: real,
    deliveryFee: Option<real>,
    deliveryAddress: Option<Address>,
    paymentMethod: Option<PaymentMethod>,
    deliveryTimeEstimate: Option<string>,
    orderNotes: Option<string>,
    archived: bool)

  /** The order store: documents keyed by their id. */
  type Store = map<ObjectId, Order>

  predicate ItemDraftValid(d: ItemDraft) {
    d.dishId.Some? && d.quantity.Some? && d.quantity.value >= 1 && d.price.Some?
  }

  predicate ValidItem(i: OrderItem) {
    i.quantity >= 1
  }

  /** Everything the schema checks of a new document. */
  predicate DraftValid(d: OrderDraft) {
    && d.customerId.Some?
    && d.restaurantId.Some?
    && d.totalAmount.Some?
    && (d.status.Some? ==> d.status.value in StatusEnum)
    && (d.paymentMethod.Some? ==> d.paymentMethod.value in ["card", "cash"])
    && (forall k :: 0 <= k < |d.items| ==> ItemDraftValid(d.items[k]))
  }

  predicate ValidOrder(o: Order) {
    forall k :: 0 <= k < |o.items| ==> ValidItem(o.items[k])
  }

  /** Every document is stored under its own id and passed validation. */
  predicate ValidStore(s: Store) {
    forall id :: id in s ==> s[id].id == id && ValidOrder(s[id])
  }

  /** Validates the items of a draft, keeping their order; fails when any item
      lacks a dish id, a quantity or a price, or has a quantity below 1. */
  function ValidateItems(ds: seq<ItemDraft>): (r: Option<seq<OrderItem>>)
    ensures r.Some? <==> forall k :: 0 <= k < |ds| ==> ItemDraftValid(ds[k])
    ensures r.Some? ==> |r.value| == |ds|
    ensures r.Some? ==> forall k :: 0 <= k < |ds| ==>
      && ValidItem(r.value[k])
      && r.value[k].dishId == ds[k].dishId.value
      && r.value[k].name == ds[k].name
      && r.value[k].quantity == ds[k].quantity.value
      && r.value[k].price == ds[k].price.value
  {
    if |ds| == 0 then Some([])
    else
      var d := ds[0];
      if d.dishId.None? || d.quantity.None? || d.price.None? || d.quantity.value < 1 then None
      else
        match ValidateItems(ds[1..])
        case None => None
        case Some(rest) =>
          Some([OrderItem(d.dishId.value, d.name, d.quantity.value, d.price.value)] + rest)
  }

  /** The validation a save performs on a new document with id `id`: the
      required paths, the status and payment enums, the item constraints, and
      the defaults (`placed` for an absent status, `false` for `archived`). */
  function ValidateOrder(id: ObjectId, d: OrderDraft): (r: Option<Order>)
    ensures r.Some? <==> DraftValid(d)
    ensures r.Some? ==> ValidOrder(r.value) && r.value.id == id
    ensures r.Some? ==>
      && r.value.customerId == d.customerId.value
      && r.value.restaurantId == d.restaurantId.value
      && r.value.totalAmount == d.totalAmount.value
      && r.value.items == ValidateItems(d.items).value
      && r.value.deliveryFee == d.deliveryFee
      && r.value.deliveryTimeEstimate == d.deliveryTimeEstimate
      && r.value.orderNotes == d.orderNotes
    ensures r.Some? && d.status.None? ==> r.value.status == Placed
    ensures r.Some? && d.status.Some? ==> StatusName(r.value.status) == d.status.value
    ensures r.Some? ==> r.value.archived == d.archived.GetOr(false)
    ensures r.Some? ==> r.value.deliveryAddress == d.deliveryAddress
    ensures r.Some? && d.paymentMethod.None? ==> r.value.paymentMethod.None?
    ensures r.Some? && d.paymentMethod.Some? ==>
      r.value.paymentMethod.Some? && (d.paymentMethod.value == "card" <==> r.value.paymentMethod.value == Card)
  {
    var status := if d.status.Some? then ParseStatus(d.status.value) else Some(Placed);
    // None: the enum check failed; Some(m): the (possibly absent) stored method
    var payment: Option<Option<PaymentMethod>> :=
      if d.paymentMethod.None? then Some(None)
      else match ParsePaymentMethod(d.paymentMethod.value)
        case None => None
        case Some(m) => Some(Some(m));
    var items := ValidateItems(d.items);
    if d.customerId.None? || d.restaurantId.None? || d.totalAmount.None? then None
    else if status.None? || payment.None? || items.None? then None
    else Some(Order(
      id, d.customerId.value, d.restaurantId.value, items.value, status.value,
      d.totalAmount.value, d.deliveryFee, d.deliveryAddress, payment.value,
      d.deliveryTimeEstimate, d.orderNotes, d.archived.GetOr(false)))
  }

  /** The single-document status write every writer performs. */
  function WriteStatus(s: Store, id: ObjectId, status: OrderStatus): (r: Store)
    requires id in s
    ensures r.Keys == s.Keys
    ensures r[id].status == status
    ensures r[id] == s[id].(status := status)
    ensures forall other :: other in s && other != id ==> r[other] == s[other]
  {
    s[id := s[id].(status := status)]
  }

  /** A status write keeps every document valid and under its own id. */
  lemma WriteStatusKeepsValid(s: Store, id: ObjectId, status: OrderStatus)
    requires id in s && ValidStore(s)
    ensures ValidStore(WriteStatus(s, id, status))
  {
  }
}
