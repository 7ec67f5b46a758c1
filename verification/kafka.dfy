/** The broker configuration: the four topics, start-up topic provisioning,
    the fixed consumer subscriptions, the event payloads, the publisher
    (`sendMessage`) over an abstract broker, and the audit-log entry format.
    The broker client itself is not modelled: a send's success is an oracle
    argument, and topics are per-topic sequences of delivered payloads. */
module Kafka {
  import opened Wrappers
  import opened OrderSchema

  datatype Topic =
    | OrderCreated
    | OrderUpdated
    | RestaurantNotification
    | CustomerNotification

  function TopicName(t: Topic): string {
    match t
    case OrderCreated => "order-created"
    case OrderUpdated => "order-updated"
    case RestaurantNotification => "restaurant-notification"
    case CustomerNotification => "customer-notification"
  }

  /** Position of a topic in the declaration of the topic table. */
  function Ordinal(t: Topic): nat {
    match t
    case OrderCreated => 0
    case OrderUpdated => 1
    case RestaurantNotification => 2
    case CustomerNotification => 3
  }

  /** The topic table's values, in declaration order. */
  const RequiredTopics: seq<Topic> :=
    [OrderCreated, OrderUpdated, RestaurantNotification, CustomerNotification]

  /** The four topic names are pairwise distinct, and the table lists every topic once. */
  lemma TopicNamesDistinct()
    ensures forall t: Topic, u: Topic :: TopicName(t) == TopicName(u) ==> t == u
    ensures forall t: Topic :: t in RequiredTopics
    ensures forall i :: 0 <= i < |RequiredTopics| ==> Ordinal(RequiredTopics[i]) == i
  {
    forall t: Topic ensures t in RequiredTopics {
      assert RequiredTopics[Ordinal(t)] == t;
    }
  }

  /** Keeps the topics of `ts` whose names are absent from `existing`, in order. */
  function MissingTopics(ts: seq<Topic>, existing: seq<string>): (r: seq<Topic>)
    ensures |r| <= |ts|
    ensures forall t :: t in r <==> t in ts && TopicName(t) !in existing
    ensures (forall i, j :: 0 <= i < j < |ts| ==> Ordinal(ts[i]) < Ordinal(ts[j])) ==>
              forall i, j :: 0 <= i < j < |r| ==> Ordinal(r[i]) < Ordinal(r[j])
  {
    if |ts| == 0 then []
    else
      var rest := MissingTopics(ts[1..], existing);
      assert ts == [ts[0]] + ts[1..];
      if TopicName(ts[0]) in existing then rest
      else
        assert (forall i, j :: 0 <= i < j < |ts| ==> Ordinal(ts[i]) < Ordinal(ts[j])) ==>
                 forall t :: t in ts[1..] ==> Ordinal(ts[0]) < Ordinal(t);
        [ts[0]] + rest
  }

  /** The topics start-up must create: the required topics whose names the
      broker does not list, in declaration order. */
  function TopicsToCreate(existing: seq<string>): (r: seq<Topic>)
    ensures forall t :: t in r <==> TopicName(t) !in existing
    ensures forall i, j :: 0 <= i < j < |r| ==> Ordinal(r[i]) < Ordinal(r[j])
    ensures (forall t :: TopicName(t) in existing) ==> r == []
  {
    TopicNamesDistinct();
    var r := MissingTopics(RequiredTopics, existing);
    assert |r| > 0 ==> r[0] in r;
    r
  }

  datatype TopicSpec = TopicSpec(topic: string, numPartitions: nat, replicationFactor: nat)

  /** The single admin request start-up issues to create topics. */
  datatype CreateTopicsRequest = CreateTopicsRequest(topics: seq<TopicSpec>, waitForLeaders: bool)

  function SpecsFor(ts: seq<Topic>): (r: seq<TopicSpec>)
    ensures |r| == |ts|
    ensures forall k :: 0 <= k < |ts| ==> r[k] == TopicSpec(TopicName(ts[k]), 1, 1)
  {
    if |ts| == 0 then [] else [TopicSpec(TopicName(ts[0]), 1, 1)] + SpecsFor(ts[1..])
  }

  function SpecNames(specs: seq<TopicSpec>): (r: seq<string>)
    ensures |r| == |specs|
    ensures forall k :: 0 <= k < |specs| ==> r[k] == specs[k].topic
  {
    if |specs| == 0 then [] else [specs[0].topic] + SpecNames(specs[1..])
  }

  /** The topic names a provisioning request creates (none without a request). */
  function CreatedNames(req: Option<CreateTopicsRequest>): seq<string> {
    if req.None? then [] else SpecNames(req.value.topics)
  }

  /** Every topic of `ts` is named by the specs built for `ts`. */
  lemma SpecsForNames(ts: seq<Topic>, t: Topic)
    requires t in ts
    ensures TopicName(t) in SpecNames(SpecsFor(ts))
  {
    var k :| 0 <= k < |ts| && ts[k] == t;
    assert SpecNames(SpecsFor(ts))[k] == TopicName(t);
  }

  /** The specs built for the missing topics name only missing topics, and
      every missing topic. */
  lemma MissingSpecs(existing: seq<string>)
    ensures var specs := SpecsFor(TopicsToCreate(existing));
      && (forall k :: 0 <= k < |specs| ==> specs[k].topic !in existing)
      && (forall t: Topic :: TopicName(t) in existing || TopicName(t) in SpecNames(specs))
  {
    var missing := TopicsToCreate(existing);
    var specs := SpecsFor(missing);
    forall k | 0 <= k < |specs| ensures specs[k].topic !in existing {
      assert specs[k].topic == TopicName(missing[k]) && missing[k] in missing;
    }
    forall t: Topic | TopicName(t) !in existing ensures TopicName(t) in SpecNames(specs) {
      SpecsForNames(missing, t);
    }
  }

  /** Topic provisioning: no request when every topic exists; otherwise one
      request creating exactly the missing topics, each with one partition and
      replication factor one, waiting for leader election. */
  function ProvisionTopics(existing: seq<string>): (r: Option<CreateTopicsRequest>)
    ensures r.None? <==> TopicsToCreate(existing) == []
    ensures r.Some? ==> r.value.waitForLeaders
    ensures r.Some? ==> forall k :: 0 <= k < |r.value.topics| ==>
      r.value.topics[k].numPartitions == 1 && r.value.topics[k].replicationFactor == 1
    ensures r.Some? ==> forall k :: 0 <= k < |r.value.topics| ==> r.value.topics[k].topic !in existing
    ensures r.Some? ==> r.value.topics == SpecsFor(TopicsToCreate(existing))
    ensures r.Some? ==> forall i, j :: 0 <= i < j < |r.value.topics| ==> r.value.topics[i].topic != r.value.topics[j].topic
    ensures forall t: Topic :: TopicName(t) in existing || TopicName(t) in CreatedNames(r)
  {
    var missing := TopicsToCreate(existing);
    MissingSpecs(existing);
    if |missing| == 0 then
      assert forall t: Topic :: TopicName(t) in existing by {
        forall t: Topic ensures TopicName(t) in existing {
          assert t !in missing;
        }
      }
      None
    else
      var req := CreateTopicsRequest(SpecsFor(missing), true);
      TopicNamesDistinct();
      assert forall i, j :: 0 <= i < j < |missing| ==> missing[i] != missing[j];
      assert CreatedNames(Some(req)) == SpecNames(SpecsFor(missing));
      Some(req)
  }

  /** Provisioning is idempotent: once its request has been applied, running it
      again against the broker's new topic list creates nothing. */
  lemma ProvisionIdempotent(existing: seq<string>)
    ensures ProvisionTopics(existing + CreatedNames(ProvisionTopics(existing))).None?
  {
    var after := existing + CreatedNames(ProvisionTopics(existing));
    forall t: Topic ensures TopicName(t) in after {
      assert TopicName(t) in existing || TopicName(t) in CreatedNames(ProvisionTopics(existing));
    }
  }

  /** The three consumer groups, one per consuming service. */
  datatype ConsumerGroup = OrderService | RestaurantService | NotificationService

  function GroupId(g: ConsumerGroup): string {
    match g
    case OrderService => "order-service-group"
    case RestaurantService => "restaurant-service-group"
    case NotificationService => "notification-service-group"
  }

  /** The topics each group subscribes to at start-up. */
  function Subscriptions(g: ConsumerGroup): seq<Topic> {
    match g
    case OrderService => [OrderCreated, OrderUpdated]
    case RestaurantService => [RestaurantNotification]
    case NotificationService => [CustomerNotification]
  }

  /** The one group that reads each topic. */
  function SubscriberOf(t: Topic): ConsumerGroup {
    match t
    case OrderCreated => OrderService
    case OrderUpdated => OrderService
    case RestaurantNotification => RestaurantService
    case CustomerNotification => NotificationService
  }

  /** The subscriptions partition the topics: a group subscribes to a topic
      exactly when it is that topic's one reader, and the group ids are distinct. */
  lemma SubscriptionsPartitionTopics()
    ensures forall t: Topic, g: ConsumerGroup :: t in Subscriptions(g) <==> g == SubscriberOf(t)
    ensures forall g: ConsumerGroup, h: ConsumerGroup :: GroupId(g) == GroupId(h) ==> g == h
  {
    forall t: Topic, g: ConsumerGroup ensures t in Subscriptions(g) <==> g == SubscriberOf(t) {
      match g
      case OrderService =>
      case RestaurantService =>
      case NotificationService =>
    }
  }

  /** An event message as parsed JSON: every field may be absent. `kind` is the
      `type` field. */
  datatype Payload = Payload(
    kind: Option<string>,
    orderId: Option<ObjectId>,
    status: Option<string>,
    previousStatus: Option<string>,
    newStatus: Option<string>,
    restaurantId: Option<ObjectId>,
    customerId: Option<ObjectId>,
    timestamp: Option<string>)

  const NewOrderType := "NEW_ORDER"
  const StatusUpdateType := "ORDER_STATUS_UPDATE"

  /** The ORDER_CREATED payload for a freshly saved order. */
  function OrderCreatedPayload(o: Order, now: string): Payload {
    Payload(None, Some(o.id), Some(StatusName(o.status)), None, None,
            Some(o.restaurantId), Some(o.customerId), Some(now))
  }

  /** The ORDER_UPDATED payload for a transition `previous` to `next` of `o`. */
  function OrderUpdatedPayload(o: Order, previous: string, next: string, now: string): Payload {
    Payload(None, Some(o.id), None, Some(previous), Some(next),
            Some(o.restaurantId), Some(o.customerId), Some(now))
  }

  /** The NEW_ORDER restaurant notification for `o`. */
  function NewOrderPayload(o: Order, now: string): Payload {
    Payload(Some(NewOrderType), Some(o.id), None, None, None, Some(o.restaurantId), None, Some(now))
  }

  /** The ORDER_STATUS_UPDATE customer notification for `o` with `status`. */
  function StatusUpdatePayload(o: Order, status: string, now: string): Payload {
    Payload(Some(StatusUpdateType), Some(o.id), Some(status), None, None, None, Some(o.customerId), Some(now))
  }

  datatype LogKind = Produced | Consumed

  function LogKindName(k: LogKind): string {
    match k
    case Produced => "PRODUCED"
    case Consumed => "CONSUMED"
  }

  /** One audit-log record, before rendering to text. */
  datatype LogEntry = LogEntry(kind: LogKind, topic: Topic, payload: Payload, at: string)

  /** The broker as the application sees it: the audit log of every produced
      and consumed message, and the payloads each topic has accepted. */
  datatype Broker = Broker(log: seq<LogEntry>, queues: map<Topic, seq<Payload>>)

  function Queue(b: Broker, t: Topic): seq<Payload> {
    if t in b.queues then b.queues[t] else []
  }

  /** The result of `sendMessage`: the broker afterwards and the returned flag. */
  datatype SendResult = SendResult(broker: Broker, sent: bool)

  /** The publisher: logs a PRODUCED entry before the send is attempted, then
      the send either reaches the topic (`delivered`) or fails; the failure is
      swallowed and reported as `false`, never raised. */
  function SendMessage(b: Broker, t: Topic, p: Payload, now: string, delivered: bool): (r: SendResult)
    ensures r.broker.log == b.log + [LogEntry(Produced, t, p, now)]
    ensures r.sent <==> delivered
    ensures Queue(r.broker, t) == if delivered then Queue(b, t) + [p] else Queue(b, t)
    ensures forall u :: u != t ==> Queue(r.broker, u) == Queue(b, u)
  {
    var logged := b.(log := b.log + [LogEntry(Produced, t, p, now)]);
    if delivered then SendResult(logged.(queues := logged.queues[t := Queue(b, t) + [p]]), true)
    else SendResult(logged, false)
  }

  /** Two sends in a row, results ignored, as every writer of the core does. */
  function SendPair(b: Broker, t1: Topic, p1: Payload, t2: Topic, p2: Payload,
                    now: string, ok1: bool, ok2: bool): (r: Broker)
    ensures r.log == b.log + [LogEntry(Produced, t1, p1, now), LogEntry(Produced, t2, p2, now)]
  {
    SendMessage(SendMessage(b, t1, p1, now, ok1).broker, t2, p2, now, ok2).broker
  }

  /** The log line written for a CONSUMED message (the consumer's first act
      after parsing). */
  function LogConsumed(b: Broker, t: Topic, p: Payload, now: string): (r: Broker)
    ensures r.log == b.log + [LogEntry(Consumed, t, p, now)]
    ensures r.queues == b.queues
  {
    b.(log := b.log + [LogEntry(Consumed, t, p, now)])
  }

  function Repeat(c: char, n: nat): (r: string)
    ensures |r| == n
    ensures forall i :: 0 <= i < n ==> r[i] == c
  {
    if n == 0 then [] else [c] + Repeat(c, n - 1)
  }

  /** The rendered audit-log entry: `[ts] TYPE | Topic: name | json`, a line
      break, a rule of eighty `=`, a line break. JSON rendering is opaque and
      arrives as `json`. */
  function FormatLogEntry(ts: string, kind: LogKind, topic: Topic, json: string): (r: string)
    ensures |r| == |ts| + |LogKindName(kind)| + |TopicName(topic)| + |json| + 98
    ensures r[..|ts| + 2] == "[" + ts + "]"
    ensures r[|ts| + 2..|r| - 82] == " " + LogKindName(kind) + " | Topic: " + TopicName(topic) + " | " + json
    ensures r[|r| - 82] == '\n' && r[|r| - 1] == '\n'
    ensures forall i :: |r| - 81 <= i < |r| - 1 ==> r[i] == '='
  {
    var stamp := "[" + ts + "]";
    var rest := " " + LogKindName(kind) + " | Topic: " + TopicName(topic) + " | " + json;
    var rule := "\n" + Repeat('=', 80) + "\n";
    PrefixOfConcat(stamp, rest + rule);
    SuffixOfConcat(stamp + rest, rule);
    MiddleOfConcat(stamp, rest, rule);
    stamp + (rest + rule)
  }

  lemma PrefixOfConcat(a: string, b: string)
    ensures (a + b)[..|a|] == a
  {
  }

  lemma MiddleOfConcat(a: string, b: string, c: string)
    ensures (a + (b + c))[|a|..|a| + |b|] == b
  {
    assert (a + (b + c))[|a|..] == b + c;
  }

  lemma SuffixOfConcat(a: string, b: string)
    ensures forall k :: 0 <= k < |b| ==> (a + b)[|a| + k] == b[k]
  {
  }
}
