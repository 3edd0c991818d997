/**
 * SimpleNotificationBroker: a broker that keeps subscriptions and publishers as
 * (endpoint, termination) tuples, refuses every filter, and hands each incoming Notify
 * to its consumer listeners.
 *
 * `ServiceUtilities.parseW3CEndpoint` answers `None` where it throws
 * `SubscribeCreationFailedFault`.
 */
module SimpleBroker {
  import opened WsnTypes
  import opened Filters
  import opened Subscriptions

  datatype ConsumerListener = ConsumerListener(id: nat)

  datatype NotificationEvent = NotificationEvent(notify: Notify)

  /** One call `listener.notify(event)`. */
  datatype Delivery = Delivery(listener: ConsumerListener, event: NotificationEvent)

  type Table = map<string, EndpointTerminationTuple>

  /**
   * The answer to `subscribe`. Its termination time is a newly made calendar that is
   * never set to the computed time, so only the key is modelled.
   */
  datatype SimpleSubscribeResponse = SimpleSubscribeResponse(subscriptionKey: string)

  /**
   * The two tables as the Java class declares them: the fields have no initialiser and
   * no constructor assigns them, so both stay `null` (`None`).
   */
  datatype AsWrittenTables = AsWrittenTables(subscriptions: Option<Table>, publishers: Option<Table>)

  const AsWrittenInitialTables: AsWrittenTables := AsWrittenTables(None, None)

  /** `keyExists` over the declared fields: dereferencing a `null` table throws. */
  function AsWrittenKeyExists(tables: AsWrittenTables, key: string): (r: Result<bool>)
    ensures tables.subscriptions.None? ==> r == Failure(NullPointerException)
    ensures r.Success? ==> (r.value <==> key in tables.subscriptions.value ||
                                         (tables.publishers.Some? && key in tables.publishers.value))
  {
    match tables.subscriptions
    case None => Failure(NullPointerException)
    case Some(subscriptions) =>
      if key in subscriptions then Success(true)
      else
        match tables.publishers
        case None => Failure(NullPointerException)
        case Some(publishers) => Success(key in publishers)
  }

  /** On a freshly created broker `keyExists` throws for every key. */
  lemma AsWrittenKeyExistsAlwaysThrows(key: string)
    ensures AsWrittenKeyExists(AsWrittenInitialTables, key) == Failure(NullPointerException)
  {
  }

  /** The `_subscriptions.put` of a successful `subscribe`, on the declared fields. */
  function AsWrittenStoreSubscription(tables: AsWrittenTables, key: string, tuple: EndpointTerminationTuple)
    : (r: Result<AsWrittenTables>)
    ensures tables.subscriptions.None? <==> r == Failure(NullPointerException)
    ensures r.Success? ==> r.value == tables.(subscriptions := Some(tables.subscriptions.value[key := tuple]))
  {
    match tables.subscriptions
    case None => Failure(NullPointerException)
    case Some(subscriptions) => Success(tables.(subscriptions := Some(subscriptions[key := tuple])))
  }

  /** On a freshly created broker no subscription can ever be stored. */
  lemma AsWrittenSubscribeNeverStores(key: string, tuple: EndpointTerminationTuple)
    ensures AsWrittenStoreSubscription(AsWrittenInitialTables, key, tuple) == Failure(NullPointerException)
  {
  }

  /** The `_publishers.put` of a successful `registerPublisher`, on the declared fields. */
  function AsWrittenStorePublisher(tables: AsWrittenTables, key: string, tuple: EndpointTerminationTuple)
    : (r: Result<AsWrittenTables>)
    ensures tables.publishers.None? <==> r == Failure(NullPointerException)
    ensures r.Success? ==> r.value == tables.(publishers := Some(tables.publishers.value[key := tuple]))
  {
    match tables.publishers
    case None => Failure(NullPointerException)
    case Some(publishers) => Success(tables.(publishers := Some(publishers[key := tuple])))
  }

  /** On a freshly created broker no publisher registration can ever be stored. */
  lemma AsWrittenRegisterPublisherNeverStores(key: string, tuple: EndpointTerminationTuple)
    ensures AsWrittenStorePublisher(AsWrittenInitialTables, key, tuple) == Failure(NullPointerException)
  {
  }

  /** The checks of `subscribe`: consumer reference, endpoint, no filter, termination time. */
  function SubscribeOutcome(request: Subscribe, now: int, parseEndpoint: EndpointReference -> Option<string>,
                            interpret: string -> Option<int>): (r: Result<EndpointTerminationTuple>)
    ensures request.consumerReference.None? ==> r == Failure(SubscribeCreationFailedFault)
    ensures request.consumerReference.Some? && parseEndpoint(request.consumerReference.value).Some? && request.filter.Some? ==>
              r == Failure(InvalidFilterFault(None))
    ensures r.Success? ==> request.filter.None? && r.value.termination >= now
    ensures r.Success? ==> parseEndpoint(request.consumerReference.value) == Some(r.value.endpoint)
    ensures r.Success? && request.initialTerminationTime.None? ==> r.value.termination == now + OneDay
    ensures request.consumerReference.Some? && parseEndpoint(request.consumerReference.value).None? ==>
              r == Failure(SubscribeCreationFailedFault)
    ensures request.consumerReference.Some? && parseEndpoint(request.consumerReference.value).Some? &&
            request.filter.None? && InitialTerminationTime(request.initialTerminationTime, now, interpret).Failure? ==>
              r == Failure(UnacceptableInitialTerminationTimeFault)
  {
    if request.consumerReference.None? then Failure(SubscribeCreationFailedFault)
    else
      match parseEndpoint(request.consumerReference.value)
      case None => Failure(SubscribeCreationFailedFault)
      case Some(endpoint) =>
        if request.filter.Some? then Failure(InvalidFilterFault(None))
        else
          match InitialTerminationTime(request.initialTerminationTime, now, interpret)
          case Failure(f) => Failure(f)
          case Success(termination) => Success(EndpointTerminationTuple(endpoint, termination))
  }

  /**
   * The checks of `registerPublisher`. A missing publisher reference or termination
   * time is dereferenced and throws a `NullPointerException`.
   */
  function RegisterPublisherOutcome(request: RegisterPublisher, now: int,
                                    parseEndpoint: EndpointReference -> Option<string>): (r: Result<EndpointTerminationTuple>)
    ensures request.publisherReference.None? ==> r == Failure(NullPointerException)
    ensures request.publisherReference.Some? && parseEndpoint(request.publisherReference.value).None? ==>
              r == Failure(PublisherRegistrationFailedFault)
    ensures request.publisherReference.Some? && parseEndpoint(request.publisherReference.value).Some? &&
            request.initialTerminationTime.Some? && request.initialTerminationTime.value < now ==>
              r == Failure(UnacceptableInitialTerminationTimeFault)
    ensures r.Success? ==> && request.initialTerminationTime == Some(r.value.termination)
                           && r.value.termination >= now
                           && parseEndpoint(request.publisherReference.value) == Some(r.value.endpoint)
  {
    if request.publisherReference.None? then Failure(NullPointerException)
    else
      match parseEndpoint(request.publisherReference.value)
      case None => Failure(PublisherRegistrationFailedFault)
      case Some(endpoint) =>
        match request.initialTerminationTime
        case None => Failure(NullPointerException)
        case Some(termination) =>
          if termination < now then Failure(UnacceptableInitialTerminationTimeFault)
          else Success(EndpointTerminationTuple(endpoint, termination))
  }

  /** `order` lists every key of `table` exactly once, as a hash map's key set is enumerated. */
  predicate Enumerates(order: seq<string>, table: Table) {
    && (forall i | 0 <= i < |order| :: order[i] in table)
    && (forall k | k in table :: k in order)
    && (forall i, j | 0 <= i < j < |order| :: order[i] != order[j])
  }

  /** The tuples of `table` under the keys of `order`, in that order. */
  function ValuesInOrder(table: Table, order: seq<string>): (values: seq<EndpointTerminationTuple>)
    requires forall i | 0 <= i < |order| :: order[i] in table
    ensures |values| == |order|
    ensures forall i | 0 <= i < |order| :: values[i] == table[order[i]]
  {
    if |order| == 0 then []
    else ValuesInOrder(table, order[..|order| - 1]) + [table[order[|order| - 1]]]
  }

  /** The keys under which `table` holds the tuple `t`. */
  ghost function KeysHolding(table: Table, t: EndpointTerminationTuple): set<string> {
    set k | k in table && table[k] == t
  }

  /** An enumeration of the keys is as long as the table. */
  lemma {:induction false} EnumerationLength(order: seq<string>, table: Table)
    requires Enumerates(order, table)
    ensures |order| == |table|
  {
    DistinctLength(order);
    assert (set k | k in order) == table.Keys;
  }

  lemma {:induction false} DistinctLength(order: seq<string>)
    requires forall i, j | 0 <= i < j < |order| :: order[i] != order[j]
    ensures |set k | k in order| == |order|
  {
    if |order| > 0 {
      var init := order[..|order| - 1];
      var last := order[|order| - 1];
      DistinctLength(init);
      assert (set k | k in order) == (set k | k in init) + {last};
      assert last !in init;
    }
  }

  /** Each tuple occurs among the values as often as there are keys holding it. */
  lemma {:induction false} RecipientCounts(table: Table, order: seq<string>)
    requires Enumerates(order, table)
    ensures forall t :: multiset(ValuesInOrder(table, order))[t] == |KeysHolding(table, t)|
  {
    forall t
      ensures multiset(ValuesInOrder(table, order))[t] == |KeysHolding(table, t)|
    {
      PrefixCounts(table, order, t);
      assert KeysAmong(table, order, t) == KeysHolding(table, t);
    }
  }

  /** The keys among `order` under which `table` holds `t`. */
  ghost function KeysAmong(table: Table, order: seq<string>, t: EndpointTerminationTuple): set<string> {
    set k | k in order && k in table && table[k] == t
  }

  lemma KeysAmongAppend(table: Table, init: seq<string>, last: string, t: EndpointTerminationTuple)
    requires last in table && last !in init
    ensures table[last] == t ==> KeysAmong(table, init + [last], t) == KeysAmong(table, init, t) + {last}
    ensures table[last] != t ==> KeysAmong(table, init + [last], t) == KeysAmong(table, init, t)
    ensures last !in KeysAmong(table, init, t)
  {
    assert forall k :: k in init + [last] <==> k in init || k == last;
  }

  lemma {:induction false} PrefixCounts(table: Table, order: seq<string>, t: EndpointTerminationTuple)
    requires forall i | 0 <= i < |order| :: order[i] in table
    requires forall i, j | 0 <= i < j < |order| :: order[i] != order[j]
    ensures multiset(ValuesInOrder(table, order))[t] == |KeysAmong(table, order, t)|
  {
    if |order| > 0 {
      var init := order[..|order| - 1];
      var last := order[|order| - 1];
      PrefixCounts(table, init, t);
      assert order == init + [last];
      assert multiset(ValuesInOrder(table, order)) == multiset(ValuesInOrder(table, init)) + multiset{table[last]};
      KeysAmongAppend(table, init, last, t);
    }
  }

  /**
   * The broker with its tables created empty, as the rest of the class evidently
   * expects.
   */
  class SimpleNotificationBroker {
    var subscriptions: Table
    var publishers: Table
    var listeners: seq<ConsumerListener>

    constructor (listeners: seq<ConsumerListener>)
      ensures subscriptions == map[] && publishers == map[]
      ensures this.listeners == listeners
    {
      subscriptions := map[];
      publishers := map[];
      this.listeners := listeners;
    }

    function KeyExists(key: string): (exists_: bool)
      reads this
      ensures exists_ <==> key in subscriptions || key in publishers
    {
      key in subscriptions || key in publishers
    }

    /**
     * The recipients are the stored tuples themselves, one per subscription, in the
     * order `order` in which the hash map enumerates its keys.
     */
    function GetRecipients(order: seq<string>): (recipients: seq<EndpointTerminationTuple>)
      requires Enumerates(order, subscriptions)
      reads this
      ensures |recipients| == |order| == |subscriptions|
      ensures forall i | 0 <= i < |order| :: recipients[i] == subscriptions[order[i]]
      ensures forall t :: multiset(recipients)[t] == |KeysHolding(subscriptions, t)|
    {
      EnumerationLength(order, subscriptions);
      RecipientCounts(subscriptions, order);
      ValuesInOrder(subscriptions, order)
    }

    /** Hands the same event, made from `notify`, to every listener in order. */
    method Notify(notify: Notify) returns (deliveries: seq<Delivery>)
      ensures |deliveries| == |listeners|
      ensures forall i | 0 <= i < |listeners| :: deliveries[i] == Delivery(listeners[i], NotificationEvent(notify))
    {
      var event := NotificationEvent(notify);
      deliveries := [];
      for i := 0 to |listeners|
        invariant |deliveries| == i
        invariant forall j | 0 <= j < i :: deliveries[j] == Delivery(listeners[j], event)
      {
        deliveries := deliveries + [Delivery(listeners[i], event)];
      }
    }

    method RegisterPublisher(request: RegisterPublisher, now: int, newKey: string,
                             parseEndpoint: EndpointReference -> Option<string>)
      returns (r: Result<RegisterPublisherResponse>)
      modifies this
      ensures var outcome := RegisterPublisherOutcome(request, now, parseEndpoint);
              && (outcome.Failure? ==> r == Failure(outcome.error) && publishers == old(publishers))
              && (outcome.Success? ==> r == Success(RegisterPublisherResponse(newKey, None))
                                       && publishers == old(publishers)[newKey := outcome.value])
      ensures r.Success? ==> KeyExists(newKey)
      ensures forall k | k != newKey :: KeyExists(k) == old(KeyExists(k))
      ensures subscriptions == old(subscriptions) && listeners == old(listeners)
    {
      var outcome := RegisterPublisherOutcome(request, now, parseEndpoint);
      if outcome.Failure? {
        return Failure(outcome.error);
      }
      publishers := publishers[newKey := outcome.value];
      return Success(RegisterPublisherResponse(newKey, None));
    }

    method Subscribe(request: Subscribe, now: int, newKey: string,
                     parseEndpoint: EndpointReference -> Option<string>, interpret: string -> Option<int>)
      returns (r: Result<SimpleSubscribeResponse>)
      modifies this
      ensures var outcome := SubscribeOutcome(request, now, parseEndpoint, interpret);
              && (outcome.Failure? ==> r == Failure(outcome.error) && subscriptions == old(subscriptions))
              && (outcome.Success? ==> r == Success(SimpleSubscribeResponse(newKey))
                                       && subscriptions == old(subscriptions)[newKey := outcome.value])
      ensures r.Success? ==> KeyExists(newKey)
      ensures forall k | k != newKey :: KeyExists(k) == old(KeyExists(k))
      ensures publishers == old(publishers) && listeners == old(listeners)
    {
      var outcome := SubscribeOutcome(request, now, parseEndpoint, interpret);
      if outcome.Failure? {
        return Failure(outcome.error);
      }
      subscriptions := subscriptions[newKey := outcome.value];
      return Success(SimpleSubscribeResponse(newKey));
    }
  }
}
