/**
 * GenericNotificationBroker: a broker of OASIS WS-BrokeredNotification 1.3 with the
 * same subscription table and message cache as the producer, but one namespace context
 * per request, no pause filtering of recipients, and publisher registration.
 *
 * `ServiceUtilities.getAddress` answers `None` where it throws `IllegalAccessException`.
 */
module GenericBroker {
  import opened WsnTypes
  import opened Topics
  import opened Filters
  import opened Subscriptions
  import TopicValidation

  /** The checks of the broker's `subscribe`, in order. */
  function SubscribeOutcome(request: Subscribe, now: int, getAddress: EndpointReference -> Option<string>,
                            check: (QName, FilterValue) -> Result<bool>, interpret: string -> Option<int>)
    : (r: Result<(string, int, Option<map<QName, FilterValue>>)>)
    ensures request.consumerReference.None? ==> r == Failure(SubscribeCreationFailedFault)
    ensures request.consumerReference.Some? && getAddress(request.consumerReference.value).None? ==>
              r == Failure(SubscribeCreationFailedFault)
    ensures r.Success? ==> request.consumerReference.Some? && getAddress(request.consumerReference.value) == Some(r.value.0)
    ensures r.Success? ==> r.value.1 >= now
    ensures r.Success? && request.initialTerminationTime.None? ==> r.value.1 == now + OneDay
    ensures r.Success? ==> FiltersOf(request.filter, check) == Success(r.value.2)
    ensures request.consumerReference.Some? && getAddress(request.consumerReference.value).Some? &&
            FiltersOf(request.filter, check).Success? &&
            InitialTerminationTime(request.initialTerminationTime, now, interpret).Failure? ==>
              r == Failure(UnacceptableInitialTerminationTimeFault)
  {
    if request.consumerReference.None? then Failure(SubscribeCreationFailedFault)
    else
      match getAddress(request.consumerReference.value)
      case None => Failure(SubscribeCreationFailedFault)
      case Some(address) =>
        match FiltersOf(request.filter, check)
        case Failure(f) => Failure(f)
        case Success(filters) =>
          match InitialTerminationTime(request.initialTerminationTime, now, interpret)
          case Failure(f) => Failure(f)
          case Success(termination) => Success((address, termination, filters))
  }

  /** Filters are checked before the termination time: a refused filter wins over a past time. */
  lemma FilterCheckedBeforeTermination(request: Subscribe, now: int, getAddress: EndpointReference -> Option<string>,
                                       check: (QName, FilterValue) -> Result<bool>, interpret: string -> Option<int>)
    requires request.consumerReference.Some? && getAddress(request.consumerReference.value).Some?
    requires FiltersOf(request.filter, check).Failure?
    ensures SubscribeOutcome(request, now, getAddress, check, interpret) == Failure(FiltersOf(request.filter, check).error)
  {
  }

  /** The topic keys of a Notify when every topic is read in the one request context. */
  function RequestTopicKey(registry: TopicValidation.Registry, topicToString: seq<QName> -> string,
                           namespaceContext: NamespaceContext): (keyOf: MessageHolder -> TopicKey)
    ensures forall h :: keyOf(h) == TopicKeyOf(registry, topicToString, _ => namespaceContext, h)
  {
    h => TopicKeyOf(registry, topicToString, _ => namespaceContext, h)
  }

  class GenericNotificationBroker {
    var subscriptions: map<string, SubscriptionHandle>
    /** Never written: the store in `registerPublisher` is commented out. */
    var publishers: map<string, SubscriptionHandle>
    var latestMessages: map<string, MessageHolder>
    const filterSupport: Option<FilterSupport>
    var demandRegistered: bool
    var cacheMessages: bool

    constructor (defaultFilterSupport: FilterSupport)
      ensures subscriptions == map[] && publishers == map[] && latestMessages == map[]
      ensures filterSupport == Some(defaultFilterSupport)
      ensures cacheMessages && demandRegistered
    {
      subscriptions := map[];
      publishers := map[];
      latestMessages := map[];
      filterSupport := Some(defaultFilterSupport);
      cacheMessages := true;
      demandRegistered := true;
    }

    function KeyExists(key: string): (exists_: bool)
      reads this
      ensures exists_ <==> key in subscriptions
    {
      key in subscriptions
    }

    /** Removes the expired subscriptions and answers every remaining key, paused or not. */
    method GetAllRecipients(now: int) returns (recipients: set<string>)
      modifies this
      ensures subscriptions == Unexpired(old(subscriptions), now)
      ensures recipients == subscriptions.Keys
      ensures publishers == old(publishers) && latestMessages == old(latestMessages)
      ensures cacheMessages == old(cacheMessages) && demandRegistered == old(demandRegistered)
    {
      subscriptions := SweepExpired(subscriptions, now);
      recipients := subscriptions.Keys;
    }

    function GetRecipientFilteredNotify(recipient: string, notify: Notify, namespaceContext: NamespaceContext)
      : (r: Option<Notify>)
      reads this
      ensures recipient !in subscriptions ==> r.None?
      ensures recipient in subscriptions && filterSupport.None? ==> r == Some(notify)
      ensures recipient in subscriptions && filterSupport.Some? ==>
                r == filterSupport.value.evaluateNotifyToSubscription(
                       notify, subscriptions[recipient].subscriptionInfo, Fixed(namespaceContext))
    {
      if recipient !in subscriptions then None
      else if filterSupport.None? then Some(notify)
      else filterSupport.value.evaluateNotifyToSubscription(notify, subscriptions[recipient].subscriptionInfo, Fixed(namespaceContext))
    }

    /** Caches the last holder of each resolvable topic, every topic read in the one request context. */
    method SendNotification(notify: Notify, namespaceContext: NamespaceContext,
                            registry: TopicValidation.Registry, topicToString: seq<QName> -> string)
      returns (thrown: Option<Fault>)
      modifies this
      ensures !old(cacheMessages) ==> latestMessages == old(latestMessages) && thrown.None?
      ensures old(cacheMessages) ==>
                var outcome := Cached(old(latestMessages), notify.notificationMessage,
                                      RequestTopicKey(registry, topicToString, namespaceContext));
                latestMessages == outcome.cache && thrown == outcome.aborted
      ensures subscriptions == old(subscriptions) && publishers == old(publishers)
      ensures cacheMessages == old(cacheMessages) && demandRegistered == old(demandRegistered)
    {
      thrown := None;
      if cacheMessages {
        var outcome := CacheMessages(latestMessages, notify.notificationMessage,
                                     RequestTopicKey(registry, topicToString, namespaceContext));
        latestMessages := outcome.cache;
        thrown := outcome.aborted;
      }
    }

    method Subscribe(request: Subscribe, now: int, newKey: string, namespaceContext: NamespaceContext,
                     getAddress: EndpointReference -> Option<string>, interpret: string -> Option<int>)
      returns (r: Result<SubscribeResponse>)
      modifies this
      ensures var outcome := SubscribeOutcome(request, now, getAddress,
                                              FilterCheck(filterSupport, _ => namespaceContext), interpret);
              && (outcome.Failure? ==> r == Failure(outcome.error) && subscriptions == old(subscriptions))
              && (outcome.Success? ==>
                    var (address, termination, filters) := outcome.value;
                    && r == Success(SubscribeResponse(newKey, termination))
                    && subscriptions == old(subscriptions)[newKey := SubscriptionHandle(
                         EndpointTerminationTuple(address, termination),
                         SubscriptionInfo(filters, Fixed(namespaceContext)), false)])
      ensures r.Success? ==> KeyExists(newKey)
      ensures publishers == old(publishers) && latestMessages == old(latestMessages)
      ensures cacheMessages == old(cacheMessages) && demandRegistered == old(demandRegistered)
    {
      var check := FilterCheck(filterSupport, _ => namespaceContext);
      if request.consumerReference.None? {
        return Failure(SubscribeCreationFailedFault);
      }
      var address := getAddress(request.consumerReference.value);
      if address.None? {
        return Failure(SubscribeCreationFailedFault);
      }
      var filters: Option<map<QName, FilterValue>> := None;
      if request.filter.Some? {
        var collected := CollectFilters(request.filter.value, check);
        if collected.Failure? {
          return Failure(collected.error);
        }
        filters := Some(collected.value);
      }
      var termination := InitialTerminationTime(request.initialTerminationTime, now, interpret);
      if termination.Failure? {
        return Failure(termination.error);
      }
      var handle := SubscriptionHandle(EndpointTerminationTuple(address.value, termination.value),
                                       SubscriptionInfo(filters, Fixed(namespaceContext)), false);
      subscriptions := subscriptions[newKey := handle];
      return Success(SubscribeResponse(newKey, termination.value));
    }

    /**
     * Checks a publisher registration and answers the references, storing nothing. A
     * request without a termination time fails with a `NullPointerException`.
     */
    function RegisterPublisher(request: RegisterPublisher, now: int, newKey: string,
                               getAddress: EndpointReference -> Option<string>): (r: Result<RegisterPublisherResponse>)
      ensures request.publisherReference.None? ==> r == Failure(PublisherRegistrationFailedFault)
      ensures request.publisherReference.Some? && getAddress(request.publisherReference.value).None? ==>
                r == Failure(PublisherRegistrationFailedFault)
      ensures request.publisherReference.Some? && getAddress(request.publisherReference.value).Some? ==>
                && (request.initialTerminationTime.None? ==> r == Failure(NullPointerException))
                && (request.initialTerminationTime.Some? && request.initialTerminationTime.value < now ==>
                      r == Failure(UnacceptableInitialTerminationTimeFault))
      ensures r.Success? ==> r.value == RegisterPublisherResponse(newKey, request.publisherReference)
      ensures r.Success? ==> request.initialTerminationTime.Some? && request.initialTerminationTime.value >= now
    {
      if request.publisherReference.None? then Failure(PublisherRegistrationFailedFault)
      else if getAddress(request.publisherReference.value).None? then Failure(PublisherRegistrationFailedFault)
      else if request.initialTerminationTime.None? then Failure(NullPointerException)
      else if request.initialTerminationTime.value < now then Failure(UnacceptableInitialTerminationTimeFault)
      else Success(RegisterPublisherResponse(newKey, request.publisherReference))
    }

    /** GetCurrentMessage is not supported: the answer is always `null`. */
    function GetCurrentMessage(topic: Option<TopicExpression>): (r: Option<XmlNode>)
      ensures r.None?
    {
      None
    }
  }

  /**
   * With caching on and no aborting holder, the broker's cache maps each topic string to
   * the last holder sent on it.
   */
  lemma CacheHoldsLastHolder(b: GenericNotificationBroker, before: map<string, MessageHolder>, notify: Notify,
                             namespaceContext: NamespaceContext, registry: TopicValidation.Registry,
                             topicToString: seq<QName> -> string, name: string)
    requires var keyOf := RequestTopicKey(registry, topicToString, namespaceContext);
             && b.latestMessages == Cached(before, notify.notificationMessage, keyOf).cache
             && forall j | 0 <= j < |notify.notificationMessage| :: !keyOf(notify.notificationMessage[j]).Abort?
    ensures var keyOf := RequestTopicKey(registry, topicToString, namespaceContext);
            var last := LastCachedUnder(notify.notificationMessage, keyOf, name);
            last.Some? ==> name in b.latestMessages && b.latestMessages[name] == last.value
  {
    var keyOf := RequestTopicKey(registry, topicToString, namespaceContext);
    CachedHoldsLastPerTopic(before, notify.notificationMessage, keyOf, name);
  }
}
