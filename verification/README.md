# UberEats order lifecycle — a Dafny model

This project models the core of the UberEats food-ordering system. That core is:

- the order document and its eleven-value status enum;
- the HTTP handlers that create, update, list and archive orders;
- the Kafka configuration and publisher: the four topics, topic provisioning, the fixed consumer subscriptions, `sendMessage` and the audit-log format;
- the three consumer services, which reconcile the order store with the events;
- the two delayed auto-advances of the restaurant service (`placed` → `Preparing` → `On the Way`);
- the browser-side reducers for the cart, the restaurant's dishes and profile, and the local order list;
- the grouping step of checkout;
- the three session guards.

The order handlers and the consumers are modelled as written. The server as checked in does not reach them: `backend/server.js:40` mounts the MySQL-backed `backend/routes/orderRoutes.js` at `/orders`, and nothing in `server.js` starts the consumers. The checkout's posts (`frontend/src/pages/CartPage.js:44`) therefore reach the MySQL route, which is not part of this model.

Modules follow the source files:

| module | file | models |
|---|---|---|
| `Wrappers` | wrappers.dfy | `Option` |
| `OrderSchema` | order_schema.dfy | `backend/models/Order.js` |
| `Kafka` | kafka.dfy | `backend/config/kafka.js` |
| `OrderController` | order_controller.dfy | `backend/controllers/orderController.js` |
| `KafkaConsumers` | kafka_consumers.dfy | `backend/services/kafkaConsumers.js` |
| `EventFlow` | event_flow.dfy | all writers interleaved as one transition system |
| `CartContext` | cart_context.dfy | `frontend/src/context/CartContext.js` |
| `RestaurantContext` | restaurant_context.dfy | `frontend/src/context/RestaurantContext.js` |
| `OrdersContext` | orders_context.dfy | `frontend/src/context/OrdersContext.js` |
| `CartPage` | cart_page.dfy | checkout grouping in `frontend/src/pages/CartPage.js` |
| `Auth` | auth.dfy | `backend/middleware/auth.js` |

## How the model is built

- **The database** is a `map<ObjectId, Order>`. Object ids are naturals.
- **Saving** goes through `OrderSchema.ValidateOrder` and `OrderSchema.WriteStatus`. They stand for Mongoose validation and the single-document status write.
- **Time and fresh ids** are arguments. So is the order in which a query lists documents: the model is given the ids sorted by creation time.
- **The broker** has two parts. One is an audit log of PRODUCED and CONSUMED entries. The other is a queue of delivered payloads for each topic.
- **Send outcomes** are oracle booleans (`delivered`, `ok1`, `ok2`). Every theorem about a writer holds for all of them.
- **Timers** are pending actions: `AutoConfirm` and `AutoShip`. Each callback in `backend/services/kafkaConsumers.js` reads the order (lines 93 and 122), checks the guard (94, 123) and saves later (95-96, 124-125). Other writes can land between the read and the save. So `EventFlow` splits a timer into two steps:
  - a timeout, which reads and checks the guard;
  - a save, which comes later.
- **Interleaving.** `EventFlow.Step` can take either timer step for any pending timer at any moment. It can create orders, apply human updates and archive. It can also deliver any record, including stale or repeated ones, to any consumer.
- **Save modes.** The save has two modes:
  - `AsWritten` writes the target whatever the order's status is by then, as the code does;
  - `Conditional` writes only if the guard still holds.

### Behaviour worth knowing

- **`createOrder` does not check the restaurant.** `backend/controllers/orderController.js:21-25` looks up only the session's customer. `OrderController.CreateOrder` accepts any `restaurant_id` the schema accepts.
- **Status is not monotonic.** The consumers write whatever status an event carries (`backend/services/kafkaConsumers.js:26-31`):
  - `KafkaConsumers.StaleUpdateRegresses` shows a late ORDER_UPDATED moving a `Delivered` order back to `Preparing`;
  - the model therefore proves no monotonicity. It proves the guarded-timer properties in `EventFlow` instead.
- **A broker failure at start-up does not abort.** `connectAll` catches the error and returns `false`.

## Model

| member | source | states |
|---|---|---|
| `OrderSchema.ParseStatus` | backend/models/Order.js:33-49 | a string is accepted as a status exactly when it is one of the eleven enum entries, and the status it yields is spelled that way |
| `OrderSchema.StatusNameRoundTrip` | backend/models/Order.js:35-47 | every status is spelled by an enum entry, and parsing that spelling gives the same status back |
| `OrderSchema.StatusNameInjective` | backend/models/Order.js:35-47 | two statuses with the same spelling are the same status |
| `OrderSchema.StatusEnumDistinct` | backend/models/Order.js:35-47 | the enum has eleven entries, no two equal |
| `OrderSchema.ParsePaymentMethod` | backend/models/Order.js:62-65 | only `card` and `cash` are accepted payment methods; `card` yields `Card` and `cash` yields `Cash` |
| `OrderSchema.ValidateItems` | backend/models/Order.js:3-19 | the item list passes exactly when every item has a dish id, a quantity and a price, with quantity at least 1; the stored items keep the order and values of the input |
| `OrderSchema.ValidateOrder` | backend/models/Order.js:21-73 | a document saves exactly when its required paths are present, its status and payment method are in their enums and its items pass; a missing status becomes `placed` and a missing `archived` becomes false; the stored customer, restaurant, address, total, validated items, delivery fee, time estimate and notes are those of the input |
| `OrderSchema.WriteStatus` | backend/controllers/orderController.js:131-135 | a status write changes that one document's status and nothing else in the store |
| `OrderSchema.WriteStatusKeepsValid` | backend/controllers/orderController.js:134-135 | writing an enum status keeps every stored document valid |
| `Kafka.TopicNamesDistinct` | backend/config/kafka.js:35-40 | the four topic names are pairwise distinct and the topic table lists every topic once, in declaration order |
| `Kafka.MissingTopics` | backend/config/kafka.js:63 | the filter keeps exactly the topics whose names the broker does not list, in their original order |
| `Kafka.TopicsToCreate` | backend/config/kafka.js:62-63 | a topic is to be created exactly when its name is missing; the list is in declaration order; with all four present it is empty |
| `Kafka.ProvisionTopics` | backend/config/kafka.js:61-75 | no create request when nothing is missing; otherwise one request, waiting for leaders, whose topics are exactly the missing ones, each once, in declaration order, with one partition and replication factor one; afterwards every topic exists |
| `Kafka.ProvisionIdempotent` | backend/config/kafka.js:61-75 | provisioning again after its own request has been applied creates nothing |
| `Kafka.SubscriptionsPartitionTopics` | backend/config/kafka.js:30-91 | each topic is read by exactly one consumer group, the one its handler lives in, and the three group ids are distinct |
| `Kafka.SendMessage` | backend/config/kafka.js:116-132 | a send always logs a PRODUCED entry first; it returns true exactly when the broker accepts the record, which is then appended to that topic's queue alone; a failure is reported, not raised |
| `Kafka.SendPair` | backend/controllers/orderController.js:137-154 | two sends in a row log exactly their two PRODUCED entries, in order, whatever each send's outcome |
| `Kafka.LogConsumed` | backend/services/kafkaConsumers.js:16-19 | consuming a record logs one CONSUMED entry and leaves every topic queue alone |
| `Kafka.FormatLogEntry` | backend/config/kafka.js:43-46 | an audit-log entry is the bracketed timestamp, then a space, the entry kind, ` \| Topic: `, the topic name, ` \| ` and the JSON, then a line break, a rule of exactly eighty `=` and a line break |
| `OrderController.CreateOrder` | backend/controllers/orderController.js:6-68 | an unknown customer is a 404; a created order is exactly what the schema makes of the body (items, total, delivery fee, payment method, notes) completed with the session customer and fresh id; for a known customer, every reply other than creation is a 500 (an invalid document or a taken id); in those cases nothing is stored or sent; otherwise the order is stored in `placed`, not archived, under the session customer, with the body's address or else the customer's, then ORDER_CREATED and then a NEW_ORDER restaurant notification are logged |
| `OrderController.CreateOrderIgnoresSendResults` | backend/controllers/orderController.js:43-63 | notification is best-effort: the reply and the stored order do not depend on whether either send succeeds |
| `OrderController.ValidStatusesMatchSchema` | backend/controllers/orderController.js:106-118 | the handler's status list is the schema's enum, so every status the handler accepts can be saved |
| `OrderController.UpdateOrderStatus` | backend/controllers/orderController.js:101-164 | a missing or unlisted status is a 400 before any lookup; an unknown order is a 404; neither writes or sends; otherwise only that order's status changes, to the requested one, and ORDER_UPDATED (old and new status) then CUSTOMER_NOTIFICATION (new status) are logged |
| `OrderController.UpdateIgnoresSendResults` | backend/controllers/orderController.js:137-159 | the update's reply and store do not depend on whether the two sends succeed |
| `OrderController.UpdateToSameStatus` | backend/controllers/orderController.js:130-154 | re-requesting the current status rewrites nothing but still emits both events, with equal old and new status |
| `OrderController.Find` | backend/controllers/orderController.js:207-219 | the listing holds only non-archived orders that match the owner and the optional status filter (an absent or empty filter adds no condition), and every such order the ids name |
| `OrderController.FindAppend` | backend/controllers/orderController.js:207-219 | listing a concatenation of ids lists the first part, then the second, so the listing keeps the order of the ids |
| `OrderController.FindOne` | backend/controllers/orderController.js:207-219 | a single id lists its order exactly when it is stored and matches, once |
| `OrderController.FindListsExactly` | backend/controllers/orderController.js:178-182 | over ids that enumerate the store without repeats, a stored order is listed exactly when it matches the query |
| `OrderController.GetCustomerOrders` | backend/controllers/orderController.js:167-191 | a user without a customer profile gets a 404; otherwise the reply is always a listing, equal to the query's listing over the store, and a stored order is in it exactly when it belongs to the customer and is not archived |
| `OrderController.GetRestaurantOrders` | backend/controllers/orderController.js:194-232 | a user without a restaurant profile gets a 404; otherwise the reply is always numbered: the entries are the query's listing in order, numbered 1, 2, 3, …, and a stored order is listed exactly when it matches |
| `OrderController.ClearCompletedOrders` | backend/controllers/orderController.js:235-272 | exactly the restaurant's non-archived orders in `Delivered`, `Picked Up` or `Cancelled` become archived, nothing else changes and nothing is sent; a known restaurant gets either the archive count or the nothing-to-archive reply, the count whenever some order qualifies, and the count is the number of qualifying orders; with none nothing is written |
| `OrderController.ArchiveIdempotent` | backend/controllers/orderController.js:246-262 | archiving a second time finds nothing to archive and changes nothing |
| `KafkaConsumers.Reconcile` | backend/services/kafkaConsumers.js:26-31 | an event naming a stored order and an enum status sets that status, whatever the order held before; any other event writes nothing; no other document changes and the store stays valid |
| `KafkaConsumers.ReconcileIdempotent` | backend/services/kafkaConsumers.js:38-43 | applying the same event twice leaves the store as applying it once |
| `KafkaConsumers.HandleOrderMessage` | backend/services/kafkaConsumers.js:12-60 | an unparsable record is dropped untouched; a parsed one is logged as CONSUMED; the store after ORDER_CREATED is `Reconcile` on `status`, after ORDER_UPDATED `Reconcile` on `new_status`; a missing or non-enum status writes nothing; nothing is sent or scheduled |
| `KafkaConsumers.OrderMessageIdempotent` | backend/services/kafkaConsumers.js:21-43 | redelivering a record to the order service leaves the store as the first delivery did |
| `KafkaConsumers.StaleUpdateRegresses` | backend/services/kafkaConsumers.js:38-43 | a late ORDER_UPDATED naming `Preparing` moves a `Delivered` order back to `Preparing`: the consumers do not keep status monotonic |
| `KafkaConsumers.HandleRestaurantMessage` | backend/services/kafkaConsumers.js:65-91 | the restaurant service never writes the store or sends; it schedules one auto-confirm exactly for a parsed NEW_ORDER naming a stored order |
| `KafkaConsumers.HandleNotificationMessage` | backend/services/kafkaConsumers.js:169-195 | only a parsed ORDER_STATUS_UPDATE can write, and the store after it is `Reconcile` on `status`; a missing or non-enum status writes nothing; other records are only logged |
| `KafkaConsumers.NotificationMessageIdempotent` | backend/services/kafkaConsumers.js:184-190 | redelivering a record to the notification service leaves the store as the first delivery did |
| `KafkaConsumers.Advance` | backend/services/kafkaConsumers.js:95-115 | a timer's save, as written: for a stored order it writes the target over whatever status is stored, logs ORDER_UPDATED (guard to target) and CUSTOMER_NOTIFICATION, and the first advance schedules the second; for a missing order it does nothing |
| `KafkaConsumers.Fire` | backend/services/kafkaConsumers.js:91-156 | an auto-advance whose read and save are not separated writes only when the order's status is its guard (`placed`, then `Preparing`), and then writes the target, logs ORDER_UPDATED (guard to target) and CUSTOMER_NOTIFICATION; a guarded auto-confirm schedules exactly one auto-ship, an auto-ship schedules nothing; otherwise it does nothing |
| `EventFlow.ApplyCreate` | backend/controllers/orderController.js:6-68 | a creation keeps every existing order exactly as it was and can only add orders |
| `EventFlow.Apply` | backend/services/kafkaConsumers.js:12-198 | no step of any writer removes an order or changes anything of it but its status and archived flag, an archived order stays archived, and every step keeps the store valid |
| `EventFlow.RunKeepsOrders` | backend/services/kafkaConsumers.js:12-198 | the same holds for every interleaving of steps |
| `EventFlow.TimeoutOnlyReads` | backend/services/kafkaConsumers.js:93-94 | a timer's read and guard check write and send nothing |
| `EventFlow.BlindSaveWritesTarget` | backend/services/kafkaConsumers.js:95-96 | as written, a timer's save writes its target whatever status the order holds by then |
| `EventFlow.ConditionalSaveIsGuarded` | backend/services/kafkaConsumers.js:93-96 | with a conditional save, a timer that changes the store found its guard status at the save and wrote its target, touching only that order's status |
| `EventFlow.StepKeepsNotPlaced` | backend/services/kafkaConsumers.js:94-95 | no timer writes `placed`; a step moves an order back to `placed` only if it names `placed` for that order |
| `EventFlow.PlacedNeverReturns` | backend/services/kafkaConsumers.js:91-96 | once an order has left `placed`, no interleaving brings it back unless some step names `placed` for it, so a later auto-confirm read can never pass its guard for it again |
| `EventFlow.TimersPreserveHumanStatus` | backend/services/kafkaConsumers.js:120-125 | an order in neither `placed` nor `Preparing` keeps its status through any steps about other orders and any timer steps, provided no timer for it is between its read and its save (as written) or outright (conditional save) |
| `EventFlow.HumanUpdateWrites` | backend/controllers/orderController.js:120-135 | a human update with any enum status leaves the order in exactly that status |
| `EventFlow.HumanUpdatePreemptsTimers` | backend/services/kafkaConsumers.js:91-125 | after a human moves an order past the auto-advance chain, no timer steps override that status, provided no timer for the order had read it before the update (as written) or outright (conditional save) |
| `EventFlow.LostHumanUpdate` | backend/services/kafkaConsumers.js:91-125 | as written, a timer that read `placed` before a human set `Delivered` still saves `Preparing`, and the next timer moves the order to `On the Way`; with a conditional save the same schedule keeps `Delivered` |
| `CartContext.FindIndex` | frontend/src/context/CartContext.js:11-13 | the result is the first entry with the (restaurant, product) key, or -1 exactly when no entry has it |
| `CartContext.AddToCart` | frontend/src/context/CartContext.js:9-33 | an existing key gains exactly one unit in place and nothing else changes; a new key is appended with one unit and the product's details; one entry per key and positive quantities are preserved |
| `CartContext.AddToCartInPlace` | frontend/src/context/CartContext.js:16-18 | as written, incrementing an existing entry also changes the previous state's list, which ends up equal to the new one |
| `CartContext.InPlaceReplayDoubleCounts` | frontend/src/context/CartContext.js:10-18 | as written, replaying the updater on the same previous state adds two units for one click |
| `CartContext.ReplayedAddCountsOnce` | frontend/src/context/CartContext.js:9-33 | without the in-place write, the kept result has exactly one more unit |
| `CartContext.Decrement` | frontend/src/context/CartContext.js:38-43 | exactly the entries with the key lose one unit; the others are unchanged and in place |
| `CartContext.KeepPositive` | frontend/src/context/CartContext.js:44 | the filter keeps exactly the entries with a positive quantity |
| `CartContext.KeepPositiveUnique` | frontend/src/context/CartContext.js:44 | filtering never creates two entries with the same key |
| `CartContext.RemoveFromCart` | frontend/src/context/CartContext.js:35-46 | after a removal every entry holds at least one unit and the cart never grows; one entry per key is preserved |
| `CartContext.RemoveAbsent` | frontend/src/context/CartContext.js:35-46 | removing a key the cart does not hold leaves the cart unchanged |
| `CartContext.RemoveOneOfSeveral` | frontend/src/context/CartContext.js:35-46 | removing from an entry with several units takes away exactly one; nothing else changes |
| `CartContext.RemoveLastUnit` | frontend/src/context/CartContext.js:35-46 | removing an entry's last unit drops that entry; the others keep their order |
| `CartContext.AddThenRemove` | frontend/src/context/CartContext.js:9-46 | adding one unit and then removing one unit of the same key restores the cart |
| `CartContext.ClearCart` | frontend/src/context/CartContext.js:48-50 | clearing leaves an empty cart that holds no key and satisfies the cart invariant, whatever it held |
| `CartContext.AddAfterClear` | frontend/src/context/CartContext.js:9-50 | after clearing, adding a product gives a one-line cart with one unit, and removing any product gives the empty cart |
| `RestaurantContext.NextId` | frontend/src/context/RestaurantContext.js:51 | the new id is one more than the last dish's id, or 1 for an empty list; with ascending ids it exceeds every existing id |
| `RestaurantContext.EditDish` | frontend/src/context/RestaurantContext.js:48 | exactly the dishes carrying the id are replaced; the others stay in place |
| `RestaurantContext.AddOrEditDish` | frontend/src/context/RestaurantContext.js:44-55 | a form with a non-zero id edits in place (an unknown id changes nothing); a form without one appends the form's dish under `NextId`, one more than the last id or 1; ascending ids stay ascending |
| `RestaurantContext.SubmitAllKeepsIdsUnique` | frontend/src/context/RestaurantContext.js:18-55 | starting from the two initial dishes, any sequence of submissions keeps dish ids strictly increasing, hence unique |
| `RestaurantContext.AscendingPreserved` | frontend/src/context/RestaurantContext.js:44-55 | any sequence of submissions keeps ascending ids ascending |
| `RestaurantContext.UpdateProfileForgetsCurrent` | frontend/src/context/RestaurantContext.js:39-41 | the profile after an update does not depend on the profile before it; name and image come from the new profile |
| `RestaurantContext.LastProfileWins` | frontend/src/context/RestaurantContext.js:39-41 | of two updates the second wins, and re-submitting the current profile changes nothing |
| `OrdersContext.PlaceOrder` | frontend/src/context/OrdersContext.js:23-25 | placing appends the order and leaves every earlier order in place |
| `OrdersContext.UpdateOrderStatus` | frontend/src/context/OrdersContext.js:27-33 | exactly the orders with the id get the new status; every order keeps its place and all other fields |
| `OrdersContext.UpdateUnknownIdIsNoOp` | frontend/src/context/OrdersContext.js:27-33 | an id no order carries leaves the list unchanged |
| `OrdersContext.UpdateIdempotent` | frontend/src/context/OrdersContext.js:27-33 | applying the same update twice equals applying it once |
| `OrdersContext.LaterUpdateWins` | frontend/src/context/OrdersContext.js:27-33 | of two updates of the same id, only the later status remains |
| `OrdersContext.UpdateAfterPlace` | frontend/src/context/OrdersContext.js:23-33 | updating a just-placed order equals placing it already updated |
| `CartPage.DecimalString` | frontend/src/pages/CartPage.js:31-32 | an object key for a restaurant id is a non-empty string of decimal digits |
| `CartPage.ParseInt` | frontend/src/pages/CartPage.js:44 | `parseInt` yields NaN exactly when the string does not start with a digit |
| `CartPage.ParseIntOfDecimal` | frontend/src/pages/CartPage.js:43-44 | reading a key back with `parseInt` gives the restaurant id it was made from |
| `CartPage.DigitsValueOfDecimal` | frontend/src/pages/CartPage.js:43-44 | the digits of a key denote the restaurant id |
| `CartPage.GroupIsFilter` | frontend/src/pages/CartPage.js:28-39 | the grouping has a key exactly for each restaurant in the cart, and each group is exactly that restaurant's lines in cart order |
| `CartPage.Insert` | frontend/src/pages/CartPage.js:43 | inserting a key into an ascending key list keeps it ascending and adds only that key |
| `CartPage.Keys` | frontend/src/pages/CartPage.js:43 | the key order of the grouping object is ascending, and each restaurant in the cart appears exactly once |
| `CartPage.HandleCheckout` | frontend/src/pages/CartPage.js:22-45 | an empty cart posts nothing; otherwise there is one post per restaurant in the cart, in ascending id order, naming that restaurant and carrying exactly its lines in cart order, never an empty list |
| `CartPage.EachRowPostedOnce` | frontend/src/pages/CartPage.js:28-45 | every cart row's restaurant gets exactly one post |
| `Auth.IsAuthenticated` | backend/middleware/auth.js:4-9 | the request passes exactly when a user is logged in; otherwise it gets 401 with the login message |
| `Auth.IsCustomer` | backend/middleware/auth.js:12-17 | the request passes exactly when the logged-in user's role is `customer`; otherwise it gets 401 with the customer message |
| `Auth.IsRestaurant` | backend/middleware/auth.js:20-25 | the request passes exactly when the logged-in user's role is `restaurant`; otherwise it gets 401 with the restaurant message |
| `Auth.RoleGuardsExclusive` | backend/middleware/auth.js:4-25 | each role guard is stricter than the login guard, and no session passes both role guards |

## Left out

- **Broker I/O.** Connecting and disconnecting clients, `listTopics`, `createTopics` and `producer.send` are not modelled. The model computes the create request and treats a send's success as an oracle argument.
- **`connectAll`'s return value.** The model does not cover its `true`/`false` result, including `false` on a broker failure at start-up.
- **Real timers.** The 15-second delays become pending timers whose timeout and save may happen at any time, in any order.
- **Sends inside a timer's save.** The two sends after the save (`backend/services/kafkaConsumers.js:99-115`) are folded into the save step. Other steps cannot land between the save and the sends. In the code they can, so the model rules out some orders of audit-log entries and of queued records across topics. For example, a timer's ORDER_UPDATED queued before a human's while its CUSTOMER_NOTIFICATION is queued after. The save also arms the auto-ship before the sends, while the code arms it after them (line 120). No theorem reads the queues or the order of log entries between writers.
- **Read-then-save of handlers and consumers.** `updateOrderStatus` and the consumers read and then save unconditionally. The model treats each as one step. An intervening write changes only the `previous_status` reported, never the status stored.
- **Console output.** Console logging is not modelled.
- **The log file.** The file header and appending entries to the file are not modelled. `FormatLogEntry` models the entry text only.
- **Mongoose internals.** The following are not modelled:
  - persistence and `populate`;
  - the timestamps;
  - casting strings to numbers or ObjectIds;
  - the stored `orderNumber` path, which no handler writes.
- **`getOrderById`.** It is not one of the lifecycle operations, and its authorisation check needs the user and customer collections.
- **MySQL cart routes, the demo and seed scripts, and React rendering.** These are outside the core.
- **Money.** Amounts are `real`. Floating-point rounding and `toFixed` are not modelled. Neither is the cart total on the cart page, which only feeds the display.
- **JSON.** Parsing is a `Malformed`/`Parsed` choice. Serialisation is an opaque string.
- **Checkout I/O.** The checkout's HTTP calls, its `alert`s and the cart deletion after posting are not modelled; they are I/O.
- `OrderController.GetCustomerOrders`: does not state the sort by creation time, newest first. The model takes the store's ids, each once, in that order as an input.
- `OrderController.GetRestaurantOrders`: does not state the sort by creation time either; the enumeration of ids is likewise an input.
- `OrderController.Find`: does not state the sort by creation time; the listing is in the order of the given ids (`FindAppend`).
- `KafkaConsumers.Reconcile`: a payload without a status field writes nothing. The model does not assign `undefined` and let Mongoose unset the path. The system's own producers always include the field.
- `KafkaConsumers.HandleOrderMessage`: the status-specific console messages after the write are left out.
- `OrderSchema.ValidateOrder`: checks presence, enum membership and the quantity minimum only. Type casting and the nested address sub-document defaults are not modelled.
- `CartPage.ParseInt`: covers strings without leading blanks or a sign. That is the only form a grouping key has.
- `CartPage.Keys`: ascending numeric order is JavaScript's order only for integer keys below 2^32 − 1. Larger integer-like keys come in insertion order; the model does not cover them.
- `CartContext.AddToCart`: models the reducer without the in-place write. The written version is `CartContext.AddToCartInPlace` (see Findings).

## Findings

| source | as written | input that shows it | evidently intended | confidence | as-written member | corrected member |
|---|---|---|---|---|---|---|
| frontend/src/context/CartContext.js:16-18 | `[...prevItems]` copies the array but not its entries, so `quantity += 1` also changes the entry held by the previous state | a cart `[{restaurantId: 1, productId: 7, quantity: 1}]`, `addToCart(1, {productId: 7})` with the updater replayed on the same previous state, as React's StrictMode does in development: the kept cart has quantity 3 | one click adds exactly one unit; the previous state is not mutated | medium, not executed; only shows when React replays the updater | `CartContext.InPlaceReplayDoubleCounts` | `CartContext.AddToCart` |
| backend/services/kafkaConsumers.js:91-125 | each auto-advance reads the order, checks the guard, and later saves the target over whatever is stored by then | an order in `placed` with its auto-confirm pending: the timer reads `placed`; a human sets `Delivered`; the timer's save writes `Preparing`; the auto-ship then reads `Preparing` and writes `On the Way` | a human status past the chain is never overridden by a timer; the guard holds at the save | medium, not executed; needs a human update within the window between the timer's read and its save | `EventFlow.LostHumanUpdate` | `EventFlow.HumanUpdatePreemptsTimers` |
