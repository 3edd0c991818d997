/**
 * NotificationProducerImpl: the subscription table, the latest-message cache, and the
 * Subscribe (section 4.2) and GetCurrentMessage (section 4.3) operations of OASIS
 * WS-BaseNotification 1.3.
 *
 * The topic registry of TopicValidator, `TopicUtils.topicToString`,
 * `ServiceUtilities.getAddress` and `ServiceUtilities.interpretTerminationTime` are
 * passed in; the clock and the generated subscription key are parameters.
 */
module NotificationProducer {
  import opened WsnTypes
  import opened Topics
  import opened Filters
  import opened Subscriptions
  import TopicValidation

  const TopicMissingMessage: string := "Topic missing from request."

  /**
   * The checks of `subscribe` in their order: consumer reference, address, filters,
   * termination time. On success: the consumer address, the termination time and the
   * filters to store.
   */
  function SubscribeOutcome(request: Subscribe, now: int, getAddress: EndpointReference -> string,
                            check: (QName, FilterValue) -> Result<bool>, interpret: string -> Option<int>)
    : (r: Result<(string, int, Option<map<QName, FilterValue>>)>)
    ensures request.consumerReference.None? ==> r == Failure(SubscribeCreationFailedFault)
    ensures request.consumerReference.Some? && getAddress(request.consumerReference.value) == "" ==>
              r == Failure(SubscribeCreationFailedFault)
    ensures r.Success? ==> request.consumerReference.Some? && r.value.0 == getAddress(request.consumerReference.value)
    ensures r.Success? ==> r.value.0 != ""
    ensures r.Success? ==> r.value.1 >= now
    ensures r.Success? && request.initialTerminationTime.None? ==> r.value.1 == now + OneDay
    ensures r.Success? ==> FiltersOf(request.filter, check) == Success(r.value.2)
  {
    if request.consumerReference.None? then Failure(SubscribeCreationFailedFault)
    else
      var address := getAddress(request.consumerReference.value);
      if address == "" then Failure(SubscribeCreationFailedFault)
      else
        match FiltersOf(request.filter, check)
        case Failure(f) => Failure(f)
        case Success(filters) =>
          match InitialTerminationTime(request.initialTerminationTime, now, interpret)
          case Failure(f) => Failure(f)
          case Success(termination) => Success((address, termination, filters))
  }

  /** A past termination time is refused once the consumer and the filters have passed. */
  lemma PastTerminationRefused(request: Subscribe, now: int, getAddress: EndpointReference -> string,
                               check: (QName, FilterValue) -> Result<bool>, interpret: string -> Option<int>)
    requires request.consumerReference.Some? && getAddress(request.consumerReference.value) != ""
    requires FiltersOf(request.filter, check).Success?
    requires request.initialTerminationTime.Some?
    requires interpret(request.initialTerminationTime.value).Some?
    requires interpret(request.initialTerminationTime.value).value < now
    ensures SubscribeOutcome(request, now, getAddress, check, interpret) == Failure(UnacceptableInitialTerminationTimeFault)
  {
  }

  /** Without filter support, a request with any JAXB filter is refused with `InvalidFilterFault`. */
  lemma UnsupportedFilterRefused(request: Subscribe, now: int, getAddress: EndpointReference -> string,
                                 contextOf: FilterValue -> NamespaceContext, interpret: string -> Option<int>, i: nat)
    requires request.consumerReference.Some? && getAddress(request.consumerReference.value) != ""
    requires request.filter.Some? && i < |request.filter.value| && request.filter.value[i].FilterElement?
    ensures SubscribeOutcome(request, now, getAddress, FilterCheck(None, contextOf), interpret).Failure?
    ensures SubscribeOutcome(request, now, getAddress, FilterCheck(None, contextOf), interpret).error.InvalidFilterFault?
  {
    NoFilterSupportRefusesFilters(request.filter.value, contextOf, i);
  }

  /** The result of a topic-string lookup in the cache, in the order `getCurrentMessage` checks. */
  function CurrentMessage(cacheMessages: bool, latestMessages: map<string, MessageHolder>,
                          registry: TopicValidation.Registry, topicToString: seq<QName> -> string,
                          topic: Option<TopicExpression>, context: NamespaceContext): (r: Result<XmlNode>)
    ensures !cacheMessages ==> r == Failure(NoCurrentMessageOnTopicFault)
    ensures cacheMessages && topic.None? ==> r == Failure(InvalidTopicExpressionFault(TopicMissingMessage))
    ensures cacheMessages && topic.Some? && topic.value.dialect !in registry ==>
              r.Failure? && r.error.TopicExpressionDialectUnknownFault?
    ensures cacheMessages && topic.Some? && TopicValidation.EvaluateTopicExpressionToQName(registry, topic.value, context).Failure? ==>
              r == Failure(TopicValidation.EvaluateTopicExpressionToQName(registry, topic.value, context).error)
    ensures cacheMessages && topic.Some? && TopicValidation.EvaluateTopicExpressionToQName(registry, topic.value, context).Success? ==>
              var name := topicToString(TopicValidation.EvaluateTopicExpressionToQName(registry, topic.value, context).value);
              && (name !in latestMessages ==> r == Failure(NoCurrentMessageOnTopicFault))
              && (name in latestMessages ==> r == Success(latestMessages[name].message))
    ensures r.Success? ==> exists name | name in latestMessages :: r.value == latestMessages[name].message
  {
    if !cacheMessages then Failure(NoCurrentMessageOnTopicFault)
    else if topic.None? then Failure(InvalidTopicExpressionFault(TopicMissingMessage))
    else
      match TopicValidation.EvaluateTopicExpressionToQName(registry, topic.value, context)
      case Failure(f) => Failure(f)
      case Success(names) =>
        var name := topicToString(names);
        if name !in latestMessages then Failure(NoCurrentMessageOnTopicFault)
        else Success(latestMessages[name].message)
  }

  /** The topic keys of a Notify when topics are resolved through the message's resolver. */
  function ResolvedTopicKey(registry: TopicValidation.Registry, topicToString: seq<QName> -> string,
                            resolver: NamespaceContextResolver): (keyOf: MessageHolder -> TopicKey)
    ensures forall h :: keyOf(h) == TopicKeyOf(registry, topicToString, resolver.resolveTopic, h)
  {
    h => TopicKeyOf(registry, topicToString, resolver.resolveTopic, h)
  }

  /** The new state of a subscription table after a SubscriptionEvent. */
  function AfterSubscriptionEvent(subscriptions: map<string, SubscriptionHandle>, event: SubscriptionEvent)
    : (r: map<string, SubscriptionHandle>)
    ensures forall k | k != event.subscriptionReference :: (k in r <==> k in subscriptions)
    ensures forall k | k in r && k != event.subscriptionReference :: r[k] == subscriptions[k]
  {
    var key := event.subscriptionReference;
    match event.eventType
    case Pause =>
      if key in subscriptions then subscriptions[key := subscriptions[key].(isPaused := true)] else subscriptions
    case Resume =>
      if key in subscriptions then subscriptions[key := subscriptions[key].(isPaused := false)] else subscriptions
    case Unsubscribe => subscriptions - {key}
    case Renew => subscriptions
    case OtherEventType => subscriptions
  }

  /**
   * PAUSE and RESUME only set the flag of an existing subscription, UNSUBSCRIBE removes
   * it, and any other event changes nothing.
   */
  lemma SubscriptionEventEffects(subscriptions: map<string, SubscriptionHandle>, event: SubscriptionEvent)
    ensures var r := AfterSubscriptionEvent(subscriptions, event);
            var key := event.subscriptionReference;
            && (event.eventType.Pause? || event.eventType.Resume? ==>
                  (key in r <==> key in subscriptions)
                  && (key in subscriptions ==>
                        r[key] == subscriptions[key].(isPaused := event.eventType.Pause?)))
            && (event.eventType.Unsubscribe? ==> key !in r)
            && (event.eventType.Renew? || event.eventType.OtherEventType? ==> r == subscriptions)
  {
  }

  /** Pausing and then resuming a subscription gives back an unpaused handle, otherwise unchanged. */
  lemma PauseThenResume(subscriptions: map<string, SubscriptionHandle>, key: string)
    requires key in subscriptions
    ensures var paused := AfterSubscriptionEvent(subscriptions, SubscriptionEvent(Pause, key));
            AfterSubscriptionEvent(paused, SubscriptionEvent(Resume, key)) ==
            subscriptions[key := subscriptions[key].(isPaused := false)]
  {
  }

  class NotificationProducerImpl {
    var latestMessages: map<string, MessageHolder>
    var subscriptions: map<string, SubscriptionHandle>
    var filterSupport: Option<FilterSupport>
    var cacheMessages: bool

    /** A producer with the given (default) filter support that caches messages. */
    constructor (defaultFilterSupport: FilterSupport)
      ensures latestMessages == map[] && subscriptions == map[]
      ensures filterSupport == Some(defaultFilterSupport) && cacheMessages
    {
      latestMessages := map[];
      subscriptions := map[];
      filterSupport := Some(defaultFilterSupport);
      cacheMessages := true;
    }

    method SetFilterSupport(support: Option<FilterSupport>)
      modifies this
      ensures filterSupport == support
      ensures subscriptions == old(subscriptions) && latestMessages == old(latestMessages)
      ensures cacheMessages == old(cacheMessages)
    {
      filterSupport := support;
    }

    method SetCacheMessages(value: bool)
      modifies this
      ensures cacheMessages == value
      ensures subscriptions == old(subscriptions) && latestMessages == old(latestMessages)
      ensures filterSupport == old(filterSupport)
    {
      cacheMessages := value;
    }

    function KeyExists(key: string): (exists_: bool)
      reads this
      ensures exists_ <==> key in subscriptions
    {
      key in subscriptions
    }

    /**
     * Removes every subscription whose termination is earlier than `now` and answers the
     * remaining keys whose subscriptions are not paused.
     */
    method GetAllRecipients(now: int) returns (recipients: seq<string>)
      modifies this
      ensures subscriptions == Unexpired(old(subscriptions), now)
      ensures forall k :: k in recipients <==> k in subscriptions && !subscriptions[k].isPaused
      ensures forall i, j | 0 <= i < j < |recipients| :: recipients[i] != recipients[j]
      ensures latestMessages == old(latestMessages) && filterSupport == old(filterSupport)
      ensures cacheMessages == old(cacheMessages)
    {
      subscriptions := SweepExpired(subscriptions, now);
      recipients := SelectKeys(subscriptions, (h: SubscriptionHandle) => !h.isPaused);
    }

    /**
     * The part of `notify` meant for `recipient`: nothing for an unknown recipient, all
     * of it without filter support, and otherwise what the filter support selects for
     * the recipient's subscription.
     */
    function GetRecipientFilteredNotify(recipient: string, notify: Notify, resolver: NamespaceContextResolver)
      : (r: Option<Notify>)
      reads this
      ensures recipient !in subscriptions ==> r.None?
      ensures recipient in subscriptions && filterSupport.None? ==> r == Some(notify)
      ensures recipient in subscriptions && filterSupport.Some? ==>
                r == filterSupport.value.evaluateNotifyToSubscription(
                       notify, subscriptions[recipient].subscriptionInfo, ByResolver(resolver))
    {
      if recipient !in subscriptions then None
      else if filterSupport.None? then Some(notify)
      else filterSupport.value.evaluateNotifyToSubscription(notify, subscriptions[recipient].subscriptionInfo, ByResolver(resolver))
    }

    /**
     * Caches the last holder of each resolvable topic (when caching is on). The result
     * is the fault that ended the loop, if one did. The delivery to the recipients that
     * follows is not part of this model.
     */
    method SendNotification(notify: Notify, resolver: NamespaceContextResolver,
                            registry: TopicValidation.Registry, topicToString: seq<QName> -> string)
      returns (thrown: Option<Fault>)
      modifies this
      ensures !old(cacheMessages) ==> latestMessages == old(latestMessages) && thrown.None?
      ensures old(cacheMessages) ==>
                var outcome := Cached(old(latestMessages), notify.notificationMessage,
                                      ResolvedTopicKey(registry, topicToString, resolver));
                latestMessages == outcome.cache && thrown == outcome.aborted
      ensures subscriptions == old(subscriptions) && filterSupport == old(filterSupport)
      ensures cacheMessages == old(cacheMessages)
    {
      thrown := None;
      if cacheMessages {
        var outcome := CacheMessages(latestMessages, notify.notificationMessage,
                                     ResolvedTopicKey(registry, topicToString, resolver));
        latestMessages := outcome.cache;
        thrown := outcome.aborted;
      }
    }

    /**
     * Adds a subscription under `newKey` once the request has passed every check; a
     * refused request changes nothing.
     */
    method Subscribe(request: Subscribe, now: int, newKey: string, resolver: NamespaceContextResolver,
                     getAddress: EndpointReference -> string, interpret: string -> Option<int>)
      returns (r: Result<SubscribeResponse>)
      modifies this
      ensures var outcome := SubscribeOutcome(request, now, getAddress,
                                              FilterCheck(old(filterSupport), resolver.resolveFilter), interpret);
              && (outcome.Failure? ==> r == Failure(outcome.error) && subscriptions == old(subscriptions))
              && (outcome.Success? ==>
                    var (address, termination, filters) := outcome.value;
                    && r == Success(SubscribeResponse(newKey, termination))
                    && subscriptions == old(subscriptions)[newKey := SubscriptionHandle(
                         EndpointTerminationTuple(address, termination),
                         SubscriptionInfo(filters, ByResolver(resolver)), false)])
      ensures r.Success? ==> KeyExists(newKey)
      ensures latestMessages == old(latestMessages) && filterSupport == old(filterSupport)
      ensures cacheMessages == old(cacheMessages)
    {
      var check := FilterCheck(filterSupport, resolver.resolveFilter);
      if request.consumerReference.None? {
        return Failure(SubscribeCreationFailedFault);
      }
      var address := getAddress(request.consumerReference.value);
      if address == "" {
        return Failure(SubscribeCreationFailedFault);
      }
      var filters: Option<map<QName, FilterValue>> := None;
      if request.filter.Some? {
        var collected := CollectFilters(request.filter.value, check);
        if collected.Failure? {
          return Failure(collected.error);
        }
        filters := Some(collected.value);
      }
      var termination := InitialTerminationTime(request.initialTerminationTime, now, interpret);
      if termination.Failure? {
        return Failure(termination.error);
      }
      var handle := SubscriptionHandle(EndpointTerminationTuple(address, termination.value),
                                       SubscriptionInfo(filters, ByResolver(resolver)), false);
      subscriptions := subscriptions[newKey := handle];
      return Success(SubscribeResponse(newKey, termination.value));
    }

    function GetCurrentMessage(topic: Option<TopicExpression>, context: NamespaceContext,
                               registry: TopicValidation.Registry, topicToString: seq<QName> -> string)
      : (r: Result<XmlNode>)
      reads this
      ensures r == CurrentMessage(cacheMessages, latestMessages, registry, topicToString, topic, context)
    {
      CurrentMessage(cacheMessages, latestMessages, registry, topicToString, topic, context)
    }

    method SubscriptionChanged(event: SubscriptionEvent)
      modifies this
      ensures subscriptions == AfterSubscriptionEvent(old(subscriptions), event)
      ensures latestMessages == old(latestMessages) && filterSupport == old(filterSupport)
      ensures cacheMessages == old(cacheMessages)
    {
      var key := event.subscriptionReference;
      match event.eventType
      case Pause =>
        if key in subscriptions {
          subscriptions := subscriptions[key := subscriptions[key].(isPaused := true)];
        }
      case Resume =>
        if key in subscriptions {
          subscriptions := subscriptions[key := subscriptions[key].(isPaused := false)];
        }
      case Unsubscribe =>
        subscriptions := subscriptions - {key};
      case Renew =>
      case OtherEventType =>
    }
  }

  /**
   * Round trip of caching and GetCurrentMessage: after `sendNotification` with caching
   * on and no aborting holder, asking for a topic whose QNames give the same topic
   * string as a sent holder's topic answers the message of the last such holder.
   */
  lemma CurrentMessageAfterSend(p: NotificationProducerImpl, before: map<string, MessageHolder>, notify: Notify,
                                resolver: NamespaceContextResolver, registry: TopicValidation.Registry,
                                topicToString: seq<QName> -> string, asked: TopicExpression, context: NamespaceContext,
                                i: nat)
    requires p.cacheMessages
    requires var keyOf := ResolvedTopicKey(registry, topicToString, resolver);
             forall j | 0 <= j < |notify.notificationMessage| :: !keyOf(notify.notificationMessage[j]).Abort?
    requires p.latestMessages == Cached(before, notify.notificationMessage, ResolvedTopicKey(registry, topicToString, resolver)).cache
    requires TopicValidation.EvaluateTopicExpressionToQName(registry, asked, context).Success?
    requires i < |notify.notificationMessage|
    requires ResolvedTopicKey(registry, topicToString, resolver)(notify.notificationMessage[i]) ==
             CacheUnder(topicToString(TopicValidation.EvaluateTopicExpressionToQName(registry, asked, context).value))
    ensures var name := topicToString(TopicValidation.EvaluateTopicExpressionToQName(registry, asked, context).value);
            var last := LastCachedUnder(notify.notificationMessage, ResolvedTopicKey(registry, topicToString, resolver), name);
            last.Some? && p.GetCurrentMessage(Some(asked), context, registry, topicToString) == Success(last.value.message)
  {
    var keyOf := ResolvedTopicKey(registry, topicToString, resolver);
    var name := topicToString(TopicValidation.EvaluateTopicExpressionToQName(registry, asked, context).value);
    LastCachedUnderFound(notify.notificationMessage, keyOf, name, i);
    CachedHoldsLastPerTopic(before, notify.notificationMessage, keyOf, name);
  }

  lemma {:induction false} LastCachedUnderFound(holders: seq<MessageHolder>, keyOf: MessageHolder -> TopicKey, name: string, i: nat)
    requires i < |holders| && keyOf(holders[i]) == CacheUnder(name)
    ensures LastCachedUnder(holders, keyOf, name).Some?
    decreases |holders|
  {
    if i < |holders| - 1 && keyOf(holders[|holders| - 1]) != CacheUnder(name) {
      assert holders[..|holders| - 1][i] == holders[i];
      LastCachedUnderFound(holders[..|holders| - 1], keyOf, name, i);
    }
  }

  /**
   * With filter support that keeps the FilterEvaluator contract, what a recipient is
   * sent is always part of the Notify, in order.
   */
  lemma RecipientGetsPartOfNotify(p: NotificationProducerImpl, recipient: string, notify: Notify,
                                  resolver: NamespaceContextResolver)
    requires p.filterSupport.Some? ==> SupportConforms(p.filterSupport.value)
    ensures var r := p.GetRecipientFilteredNotify(recipient, notify, resolver);
            r.Some? ==> IsSubsequence(r.value.notificationMessage, notify.notificationMessage)
  {
    SubsequenceOfSelf(notify.notificationMessage);
    if recipient in p.subscriptions && p.filterSupport.Some? {
      var support := p.filterSupport.value;
      assert PermittedEvaluation(Some(notify), support.evaluateNotifyToSubscription(
        notify, p.subscriptions[recipient].subscriptionInfo, ByResolver(resolver)));
    }
  }
}
