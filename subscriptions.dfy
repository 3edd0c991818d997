/**
 * The tables and request handling the notification producer and the brokers share:
 * subscription handles, the Subscribe request of OASIS WS-BaseNotification 1.3
 * (section 4.2), the initial termination time rule, the filter checks, the expiry
 * sweep and the per-topic cache of latest messages behind GetCurrentMessage
 * (section 4.3).
 *
 * Times are milliseconds since the epoch; the current time is always a parameter.
 */
module Subscriptions {
  import opened WsnTypes
  import opened Topics
  import opened Filters
  import TopicValidation

  /** One day in milliseconds, the lifetime of a subscription that names no termination time. */
  const OneDay: int := 86400 * 1000

  datatype EndpointTerminationTuple = EndpointTerminationTuple(endpoint: string, termination: int)

  datatype SubscriptionHandle = SubscriptionHandle(
    endpointTerminationTuple: EndpointTerminationTuple,
    subscriptionInfo: SubscriptionInfo,
    isPaused: bool)

  /** One item of a Filter element: a JAXB element, or content of any other kind. */
  datatype FilterItem = FilterElement(name: QName, value: FilterValue) | OtherContent(id: nat)

  datatype Subscribe = Subscribe(
    consumerReference: Option<EndpointReference>,
    filter: Option<seq<FilterItem>>,
    initialTerminationTime: Option<string>)

  /** The subscription reference is represented by the key it is derived from. */
  datatype SubscribeResponse = SubscribeResponse(subscriptionKey: string, terminationTime: int)

  /**
   * A RegisterPublisher request. The termination time is already in milliseconds;
   * `None` is a request without one.
   */
  datatype RegisterPublisher = RegisterPublisher(
    publisherReference: Option<EndpointReference>,
    initialTerminationTime: Option<int>)

  /** The consumer reference is represented by the key it is derived from. */
  datatype RegisterPublisherResponse = RegisterPublisherResponse(
    consumerReferenceKey: string,
    publisherRegistrationReference: Option<EndpointReference>)

  /**
   * The termination time of a new subscription. `interpret` stands for
   * `ServiceUtilities.interpretTerminationTime`; `None` is its
   * `UnacceptableTerminationTimeFault`.
   */
  function InitialTerminationTime(requested: Option<string>, now: int, interpret: string -> Option<int>): (r: Result<int>)
    ensures r.Failure? ==> r.error == UnacceptableInitialTerminationTimeFault
    ensures r.Success? ==> r.value >= now
    ensures requested.None? ==> r == Success(now + OneDay)
    ensures requested.Some? ==>
              (r.Success? <==> interpret(requested.value).Some? && interpret(requested.value).value >= now)
    ensures requested.Some? && r.Success? ==> r.value == interpret(requested.value).value
  {
    match requested
    case None => Success(now + OneDay)
    case Some(text) =>
      match interpret(text)
      case None => Failure(UnacceptableInitialTerminationTimeFault)
      case Some(t) => if t < now then Failure(UnacceptableInitialTerminationTimeFault) else Success(t)
  }

  /**
   * Whether a filter is accepted: `supportsFilter` when there is filter support, a
   * refusal when there is none.
   */
  function FilterCheck(filterSupport: Option<FilterSupport>, contextOf: FilterValue -> NamespaceContext): (check: (QName, FilterValue) -> Result<bool>)
    ensures filterSupport.None? ==> forall n, v :: check(n, v) == Success(false)
  {
    match filterSupport
    case None => (n, v) => Success(false)
    case Some(support) => (n, v) => support.supportsFilter(n, v, contextOf(v))
  }

  /**
   * The filters of a Filter element that pass `check`, keyed by name; the first filter
   * that is refused raises `InvalidFilterFault` with its name, and a fault raised by
   * `check` is passed on. Items that are not JAXB elements are skipped.
   */
  function AcceptedFilters(items: seq<FilterItem>, check: (QName, FilterValue) -> Result<bool>): Result<map<QName, FilterValue>>
    decreases |items|
  {
    if items == [] then Success(map[])
    else
      match AcceptedFilters(items[..|items| - 1], check)
      case Failure(f) => Failure(f)
      case Success(present) =>
        match items[|items| - 1]
        case OtherContent(_) => Success(present)
        case FilterElement(name, value) =>
          match check(name, value)
          case Failure(f) => Failure(f)
          case Success(supported) =>
            if supported then Success(present[name := value]) else Failure(InvalidFilterFault(Some(name)))
  }

  /** The filter loop of a Subscribe request. */
  method CollectFilters(items: seq<FilterItem>, check: (QName, FilterValue) -> Result<bool>)
    returns (r: Result<map<QName, FilterValue>>)
    ensures r == AcceptedFilters(items, check)
  {
    var present: map<QName, FilterValue> := map[];
    for i := 0 to |items|
      invariant AcceptedFilters(items[..i], check) == Success(present)
    {
      assert items[..i + 1][..i] == items[..i];
      match items[i]
      case OtherContent(_) =>
      case FilterElement(name, value) =>
        var supported := check(name, value);
        if supported.Failure? {
          FilterFailureStays(items, check, i + 1);
          return Failure(supported.error);
        }
        if !supported.value {
          FilterFailureStays(items, check, i + 1);
          return Failure(InvalidFilterFault(Some(name)));
        }
        present := present[name := value];
    }
    assert items[..|items|] == items;
    return Success(present);
  }

  lemma {:induction false} FilterFailureStays(items: seq<FilterItem>, check: (QName, FilterValue) -> Result<bool>, i: nat)
    requires i <= |items|
    requires AcceptedFilters(items[..i], check).Failure?
    ensures AcceptedFilters(items, check) == AcceptedFilters(items[..i], check)
    decreases |items|
  {
    if i < |items| {
      assert items[..|items| - 1][..i] == items[..i];
      FilterFailureStays(items[..|items| - 1], check, i);
    } else {
      assert items[..i] == items;
    }
  }

  /**
   * The filters are accepted exactly when every JAXB filter element passes the check,
   * and then every such element is present under its name.
   */
  lemma {:induction false} AcceptedFiltersSucceedIff(items: seq<FilterItem>, check: (QName, FilterValue) -> Result<bool>)
    ensures AcceptedFilters(items, check).Success? <==>
            forall i | 0 <= i < |items| && items[i].FilterElement? :: check(items[i].name, items[i].value) == Success(true)
    ensures AcceptedFilters(items, check).Success? ==>
            forall i | 0 <= i < |items| && items[i].FilterElement? :: items[i].name in AcceptedFilters(items, check).value
    decreases |items|
  {
    if items != [] {
      var init := items[..|items| - 1];
      AcceptedFiltersSucceedIff(init, check);
      assert forall i | 0 <= i < |init| :: init[i] == items[i];
    }
  }

  /** Without filter support a Filter element holding any JAXB filter is refused. */
  lemma NoFilterSupportRefusesFilters(items: seq<FilterItem>, contextOf: FilterValue -> NamespaceContext, i: nat)
    requires i < |items| && items[i].FilterElement?
    ensures AcceptedFilters(items, FilterCheck(None, contextOf)).Failure?
    ensures AcceptedFilters(items, FilterCheck(None, contextOf)).error.InvalidFilterFault?
  {
    var check := FilterCheck(None, contextOf);
    AcceptedFiltersSucceedIff(items, check);
    RefusalIsInvalidFilter(items, contextOf);
  }

  lemma {:induction false} RefusalIsInvalidFilter(items: seq<FilterItem>, contextOf: FilterValue -> NamespaceContext)
    ensures AcceptedFilters(items, FilterCheck(None, contextOf)).Failure? ==>
            AcceptedFilters(items, FilterCheck(None, contextOf)).error.InvalidFilterFault?
    decreases |items|
  {
    if items != [] {
      RefusalIsInvalidFilter(items[..|items| - 1], contextOf);
    }
  }

  /** The filters of a request: absent without a Filter element. */
  function FiltersOf(filter: Option<seq<FilterItem>>, check: (QName, FilterValue) -> Result<bool>): (r: Result<Option<map<QName, FilterValue>>>)
    ensures filter.None? ==> r == Success(None)
    ensures filter.Some? ==> (r.Success? <==> AcceptedFilters(filter.value, check).Success?)
    ensures filter.Some? && r.Success? ==> r.value == Some(AcceptedFilters(filter.value, check).value)
  {
    match filter
    case None => Success(None)
    case Some(items) =>
      match AcceptedFilters(items, check)
      case Failure(f) => Failure(f)
      case Success(present) => Success(Some(present))
  }

  /** The keys of `m` whose values satisfy `p`, each once. */
  method SelectKeys<V>(m: map<string, V>, p: V -> bool) returns (keys: seq<string>)
    ensures forall k :: k in keys <==> k in m && p(m[k])
    ensures forall i, j | 0 <= i < j < |keys| :: keys[i] != keys[j]
  {
    keys := [];
    var remaining := m.Keys;
    while remaining != {}
      invariant remaining <= m.Keys
      invariant forall k :: k in keys <==> k in m && k !in remaining && p(m[k])
      invariant forall i, j | 0 <= i < j < |keys| :: keys[i] != keys[j]
      decreases |remaining|
    {
      var k :| k in remaining;
      if p(m[k]) {
        keys := keys + [k];
      }
      remaining := remaining - {k};
    }
  }

  /** `m` with every key of `keys` removed, one `remove` after another. */
  method RemoveKeys<V>(m: map<string, V>, keys: seq<string>) returns (r: map<string, V>)
    ensures r.Keys == m.Keys - set k | k in keys
    ensures forall k | k in r :: r[k] == m[k]
  {
    r := m;
    for i := 0 to |keys|
      invariant r.Keys == m.Keys - set k | k in keys[..i]
      invariant forall k | k in r :: r[k] == m[k]
    {
      assert keys[..i + 1] == keys[..i] + [keys[i]];
      r := r - {keys[i]};
    }
    assert keys[..|keys|] == keys;
  }

  /** The subscriptions that survive an expiry sweep at time `now`. */
  function Unexpired(subscriptions: map<string, SubscriptionHandle>, now: int): (live: map<string, SubscriptionHandle>)
    ensures forall k :: k in live <==> k in subscriptions && subscriptions[k].endpointTerminationTuple.termination >= now
    ensures forall k | k in live :: live[k] == subscriptions[k]
  {
    map k | k in subscriptions && !(subscriptions[k].endpointTerminationTuple.termination < now) :: subscriptions[k]
  }

  /** Sweeping twice at the same time removes nothing more. */
  lemma UnexpiredIdempotent(subscriptions: map<string, SubscriptionHandle>, now: int)
    ensures Unexpired(Unexpired(subscriptions, now), now) == Unexpired(subscriptions, now)
  {
  }

  /** A later sweep keeps no more subscriptions than an earlier one. */
  lemma UnexpiredMonotone(subscriptions: map<string, SubscriptionHandle>, earlier: int, later: int)
    requires earlier <= later
    ensures Unexpired(subscriptions, later).Keys <= Unexpired(subscriptions, earlier).Keys
  {
  }

  /** The expiry sweep: collect expired keys, then remove them. */
  method SweepExpired(subscriptions: map<string, SubscriptionHandle>, now: int)
    returns (live: map<string, SubscriptionHandle>)
    ensures live == Unexpired(subscriptions, now)
  {
    var expired := SelectKeys(subscriptions, (h: SubscriptionHandle) => h.endpointTerminationTuple.termination < now);
    live := RemoveKeys(subscriptions, expired);
  }

  /** What caching does with one message holder. */
  datatype TopicKey = CacheUnder(name: string) | Skip | Abort(fault: Fault)

  /**
   * The cache key of a holder: the string of the QNames its topic evaluates to. A holder
   * without a topic is skipped, as is one whose topic raises one of the three topic
   * faults caught while caching; any other fault ends the caching loop.
   */
  function TopicKeyOf(registry: TopicValidation.Registry, topicToString: seq<QName> -> string,
                      contextOf: TopicExpression -> NamespaceContext, holder: MessageHolder): (key: TopicKey)
    ensures holder.topic.None? ==> key == Skip
    ensures key.Abort? ==> !(key.fault.InvalidTopicExpressionFault? || key.fault.MultipleTopicsSpecifiedFault?
                             || key.fault.TopicExpressionDialectUnknownFault?)
  {
    match holder.topic
    case None => Skip
    case Some(topic) =>
      match TopicValidation.EvaluateTopicExpressionToQName(registry, topic, contextOf(topic))
      case Success(names) => CacheUnder(topicToString(names))
      case Failure(f) =>
        if f.InvalidTopicExpressionFault? || f.MultipleTopicsSpecifiedFault? || f.TopicExpressionDialectUnknownFault?
        then Skip
        else Abort(f)
  }

  /** A holder whose topic's dialect is unregistered is skipped. */
  lemma UnknownDialectIsSkipped(registry: TopicValidation.Registry, topicToString: seq<QName> -> string,
                                contextOf: TopicExpression -> NamespaceContext, holder: MessageHolder)
    requires holder.topic.Some? && holder.topic.value.dialect !in registry
    ensures TopicKeyOf(registry, topicToString, contextOf, holder) == Skip
  {
  }

  datatype CacheOutcome = CacheOutcome(cache: map<string, MessageHolder>, aborted: Option<Fault>)

  /** The cache after the caching loop over `holders`; an abort keeps what was cached before it. */
  function Cached(cache: map<string, MessageHolder>, holders: seq<MessageHolder>, keyOf: MessageHolder -> TopicKey): CacheOutcome
    decreases |holders|
  {
    if holders == [] then CacheOutcome(cache, None)
    else
      var before := Cached(cache, holders[..|holders| - 1], keyOf);
      var last := holders[|holders| - 1];
      if before.aborted.Some? then before
      else
        match keyOf(last)
        case CacheUnder(name) => CacheOutcome(before.cache[name := last], None)
        case Skip => before
        case Abort(f) => CacheOutcome(before.cache, Some(f))
  }

  /** The caching loop of `sendNotification`. */
  method CacheMessages(cache: map<string, MessageHolder>, holders: seq<MessageHolder>, keyOf: MessageHolder -> TopicKey)
    returns (outcome: CacheOutcome)
    ensures outcome == Cached(cache, holders, keyOf)
  {
    var latest := cache;
    for i := 0 to |holders|
      invariant Cached(cache, holders[..i], keyOf) == CacheOutcome(latest, None)
    {
      assert holders[..i + 1][..i] == holders[..i];
      match keyOf(holders[i])
      case CacheUnder(name) =>
        latest := latest[name := holders[i]];
      case Skip =>
      case Abort(f) =>
        CacheAbortStays(cache, holders, keyOf, i + 1);
        return CacheOutcome(latest, Some(f));
    }
    assert holders[..|holders|] == holders;
    return CacheOutcome(latest, None);
  }

  lemma {:induction false} CacheAbortStays(cache: map<string, MessageHolder>, holders: seq<MessageHolder>,
                                           keyOf: MessageHolder -> TopicKey, i: nat)
    requires i <= |holders|
    requires Cached(cache, holders[..i], keyOf).aborted.Some?
    ensures Cached(cache, holders, keyOf) == Cached(cache, holders[..i], keyOf)
    decreases |holders|
  {
    if i < |holders| {
      assert holders[..|holders| - 1][..i] == holders[..i];
      CacheAbortStays(cache, holders[..|holders| - 1], keyOf, i);
    } else {
      assert holders[..i] == holders;
    }
  }

  /** The last holder of `holders` that is cached under `name`, if any. */
  function LastCachedUnder(holders: seq<MessageHolder>, keyOf: MessageHolder -> TopicKey, name: string): (h: Option<MessageHolder>)
    ensures h.Some? ==> h.value in holders && keyOf(h.value) == CacheUnder(name)
    decreases |holders|
  {
    if holders == [] then None
    else if keyOf(holders[|holders| - 1]) == CacheUnder(name) then Some(holders[|holders| - 1])
    else LastCachedUnder(holders[..|holders| - 1], keyOf, name)
  }

  /**
   * When no holder aborts the loop, each topic string maps to the last holder cached
   * under it, and the entries of topics no holder names are kept as they were.
   */
  lemma {:induction false} CachedHoldsLastPerTopic(cache: map<string, MessageHolder>, holders: seq<MessageHolder>,
                                                   keyOf: MessageHolder -> TopicKey, name: string)
    requires forall i | 0 <= i < |holders| :: !keyOf(holders[i]).Abort?
    ensures Cached(cache, holders, keyOf).aborted.None?
    ensures LastCachedUnder(holders, keyOf, name).Some? ==>
              name in Cached(cache, holders, keyOf).cache &&
              Cached(cache, holders, keyOf).cache[name] == LastCachedUnder(holders, keyOf, name).value
    ensures LastCachedUnder(holders, keyOf, name).None? ==>
              (name in Cached(cache, holders, keyOf).cache <==> name in cache) &&
              (name in cache ==> Cached(cache, holders, keyOf).cache[name] == cache[name])
    decreases |holders|
  {
    if holders != [] {
      var init := holders[..|holders| - 1];
      assert forall i | 0 <= i < |init| :: init[i] == holders[i];
      CachedHoldsLastPerTopic(cache, init, keyOf, name);
    }
  }

  /** The loop aborts exactly when some holder's topic raises an uncaught fault. */
  lemma {:induction false} CachedAbortsIff(cache: map<string, MessageHolder>, holders: seq<MessageHolder>,
                                           keyOf: MessageHolder -> TopicKey)
    ensures Cached(cache, holders, keyOf).aborted.Some? <==> exists i | 0 <= i < |holders| :: keyOf(holders[i]).Abort?
    decreases |holders|
  {
    if holders != [] {
      var init := holders[..|holders| - 1];
      CachedAbortsIff(cache, init, keyOf);
      assert forall i | 0 <= i < |init| :: init[i] == holders[i];
      if Cached(cache, init, keyOf).aborted.Some? {
        var i :| 0 <= i < |init| && keyOf(init[i]).Abort?;
        assert keyOf(holders[i]).Abort?;
      }
    }
  }

  /** Holders that are all skipped — topicless or with a caught fault — leave the cache as it was. */
  lemma {:induction false} SkippedHoldersKeepCache(cache: map<string, MessageHolder>, holders: seq<MessageHolder>,
                                                   keyOf: MessageHolder -> TopicKey)
    requires forall i | 0 <= i < |holders| :: keyOf(holders[i]) == Skip
    ensures Cached(cache, holders, keyOf) == CacheOutcome(cache, None)
    decreases |holders|
  {
    if holders != [] {
      var init := holders[..|holders| - 1];
      assert forall i | 0 <= i < |init| :: init[i] == holders[i];
      SkippedHoldersKeepCache(cache, init, keyOf);
    }
  }

  /** The type of a `SubscriptionEvent`. */
  datatype SubscriptionEventType = Pause | Resume | Unsubscribe | Renew | OtherEventType

  datatype SubscriptionEvent = SubscriptionEvent(eventType: SubscriptionEventType, subscriptionReference: string)
}
