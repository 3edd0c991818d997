/**
 * SimplePublisherRegistrationManager: the table of registered publishers of OASIS
 * WS-BrokeredNotification 1.3 (endpoint reference to the end of the registration, in
 * milliseconds), its periodic expiry sweep, and the DestroyRegistration operation.
 *
 * `ServiceUtilities.throwResourceNotDestroyed` always throws a
 * `ResourceNotDestroyedFault`. The request parameters are the query parameters of the
 * request URI, each name mapped to its values.
 */
module PublisherRegistration {
  import opened WsnTypes
  import Subscriptions

  type Registrations = map<string, int>

  /** The query parameter that names the registration to destroy. */
  const RegistrationParameter: string := "publisherregistration"

  datatype RegistrationEventType = Destroyed | OtherRegistrationEventType

  datatype PublisherRegistrationEvent = PublisherRegistrationEvent(reference: string, eventType: RegistrationEventType)

  datatype PublisherChangedListener = PublisherChangedListener(id: nat)

  /** One call `listener.publisherChanged(event)`. */
  datatype Delivery = Delivery(listener: PublisherChangedListener, event: PublisherRegistrationEvent)

  datatype DestroyRegistrationResponse = DestroyRegistrationResponse

  /**
   * What DestroyRegistration does: answer a response, having removed the named
   * registration (`Some`) or nothing (`None`), or refuse with `ResourceNotDestroyedFault`.
   */
  datatype DestroyDecision = Respond(removed: Option<string>) | Refuse

  /**
   * The decision on the values of the `publisherregistration` parameter. With more than
   * one value the first one counts, and the test is inverted with respect to the
   * single-value case: an unknown first value is answered with a response.
   */
  function DestroyDecisionOf(publishers: Registrations, parameters: map<string, seq<string>>): (d: DestroyDecision)
    ensures RegistrationParameter !in parameters ==> d == Refuse
    ensures RegistrationParameter in parameters && |parameters[RegistrationParameter]| == 0 ==> d == Refuse
    ensures RegistrationParameter in parameters && |parameters[RegistrationParameter]| == 1 ==>
              var reference := parameters[RegistrationParameter][0];
              && (reference in publishers ==> d == Respond(Some(reference)))
              && (reference !in publishers ==> d == Refuse)
    ensures RegistrationParameter in parameters && |parameters[RegistrationParameter]| > 1 ==>
              var reference := parameters[RegistrationParameter][0];
              && (reference in publishers ==> d == Refuse)
              && (reference !in publishers ==> d == Respond(None))
    ensures d.Respond? && d.removed.Some? ==> d.removed.value in publishers
  {
    if RegistrationParameter !in parameters then Refuse
    else
      var values := parameters[RegistrationParameter];
      if |values| == 0 then Refuse
      else if |values| > 1 then
        if values[0] !in publishers then Respond(None) else Refuse
      else if values[0] in publishers then Respond(Some(values[0]))
      else Refuse
  }

  /** The table as DestroyRegistration leaves it. */
  function AfterDestroy(publishers: Registrations, d: DestroyDecision): (after: Registrations)
    ensures d.Respond? && d.removed.Some? ==> after.Keys == publishers.Keys - {d.removed.value}
    ensures !(d.Respond? && d.removed.Some?) ==> after == publishers
    ensures forall k | k in after :: k in publishers && after[k] == publishers[k]
  {
    if d.Respond? && d.removed.Some? then publishers - {d.removed.value} else publishers
  }

  /**
   * Only a request naming exactly one registered reference destroys anything, and then
   * it destroys just that one.
   */
  lemma {:induction false} DestroyRemovesOnlyTheNamedReference(publishers: Registrations,
                                                               parameters: map<string, seq<string>>)
    ensures var after := AfterDestroy(publishers, DestroyDecisionOf(publishers, parameters));
            after != publishers <==>
              RegistrationParameter in parameters && |parameters[RegistrationParameter]| == 1 &&
              parameters[RegistrationParameter][0] in publishers &&
              after.Keys == publishers.Keys - {parameters[RegistrationParameter][0]}
  {
    var d := DestroyDecisionOf(publishers, parameters);
    var after := AfterDestroy(publishers, d);
    if d.Respond? && d.removed.Some? {
      assert d.removed.value in publishers && d.removed.value !in after;
    }
  }

  /** A response without a removal means the named reference was not registered. */
  lemma ResponseWithoutRemovalMeansUnknown(publishers: Registrations, parameters: map<string, seq<string>>)
    requires DestroyDecisionOf(publishers, parameters) == Respond(None)
    ensures RegistrationParameter in parameters && |parameters[RegistrationParameter]| > 1
    ensures parameters[RegistrationParameter][0] !in publishers
  {
  }

  /** The registrations `update` keeps, as written: those whose end is not after now. */
  function AsWrittenRemaining(publishers: Registrations, now: int): (remaining: Registrations)
    ensures forall k :: k in remaining <==> k in publishers && publishers[k] <= now
    ensures forall k | k in remaining :: remaining[k] == publishers[k]
  {
    map k | k in publishers && !(publishers[k] > now) :: publishers[k]
  }

  /** `update` as written: collect the keys whose end lies after now, then remove them. */
  method AsWrittenUpdate(publishers: Registrations, now: int) returns (remaining: Registrations)
    ensures remaining == AsWrittenRemaining(publishers, now)
  {
    var toBeRemoved := Subscriptions.SelectKeys(publishers, (end: int) => end > now);
    remaining := Subscriptions.RemoveKeys(publishers, toBeRemoved);
  }

  /**
   * As written, `update` drops a registration that ends a millisecond from now and keeps
   * one that ended a millisecond ago.
   */
  lemma AsWrittenUpdateDropsLiveKeepsExpired(now: int)
    ensures var before := map["live" := now + 1, "expired" := now - 1];
            AsWrittenRemaining(before, now) == map["expired" := now - 1]
  {
    var before := map["live" := now + 1, "expired" := now - 1];
    assert "live" !in AsWrittenRemaining(before, now);
  }

  /** The registrations still live at `now`: those that do not end before it. */
  function LiveRegistrations(publishers: Registrations, now: int): (live: Registrations)
    ensures forall k :: k in live <==> k in publishers && publishers[k] >= now
    ensures forall k | k in live :: live[k] == publishers[k]
  {
    map k | k in publishers && !(publishers[k] < now) :: publishers[k]
  }

  /** A second sweep at the same time removes nothing. */
  lemma LiveRegistrationsIdempotent(publishers: Registrations, now: int)
    ensures LiveRegistrations(LiveRegistrations(publishers, now), now) == LiveRegistrations(publishers, now)
  {
  }

  /** Where both sweeps are defined, the corrected one keeps what the as-written one drops. */
  lemma SweepsDisagreeOnLiveRegistrations(publishers: Registrations, now: int, k: string)
    requires k in publishers && publishers[k] > now
    ensures k in LiveRegistrations(publishers, now) && k !in AsWrittenRemaining(publishers, now)
  {
  }

  /** A registration added with an end not before now survives the next sweep. */
  lemma AddedRegistrationSurvivesSweep(publishers: Registrations, endpoint: string, end: int, now: int)
    requires end >= now
    ensures endpoint in LiveRegistrations(publishers[endpoint := end], now)
    ensures LiveRegistrations(publishers[endpoint := end], now)[endpoint] == end
  {
  }

  class SimplePublisherRegistrationManager {
    var publishers: Registrations
    const listeners: seq<PublisherChangedListener>

    constructor (listeners: seq<PublisherChangedListener>)
      ensures publishers == map[] && this.listeners == listeners
    {
      publishers := map[];
      this.listeners := listeners;
    }

    /** Registers `endpoint` until `end`, replacing any earlier end. */
    method AddPublisher(endpoint: string, end: int)
      modifies this
      ensures publishers == old(publishers)[endpoint := end]
    {
      publishers := publishers[endpoint := end];
    }

    /** Forgets `endpoint`; absent keys are ignored. */
    method RemovePublisher(endpoint: string)
      modifies this
      ensures publishers == old(publishers) - {endpoint}
    {
      publishers := publishers - {endpoint};
    }

    /** Hands the same event to every listener in order. */
    method FirePublisherRegistrationChanged(reference: string, eventType: RegistrationEventType)
      returns (deliveries: seq<Delivery>)
      ensures |deliveries| == |listeners|
      ensures forall i | 0 <= i < |listeners| ::
                deliveries[i] == Delivery(listeners[i], PublisherRegistrationEvent(reference, eventType))
    {
      var event := PublisherRegistrationEvent(reference, eventType);
      deliveries := [];
      for i := 0 to |listeners|
        invariant |deliveries| == i
        invariant forall j | 0 <= j < i :: deliveries[j] == Delivery(listeners[j], event)
      {
        deliveries := deliveries + [Delivery(listeners[i], event)];
      }
    }

    /**
     * Scans the parameters for `publisherregistration` and acts on the first match; a
     * DESTROYED event goes to every listener when a registration is removed.
     */
    method DestroyRegistration(parameters: map<string, seq<string>>)
      returns (r: Result<DestroyRegistrationResponse>, deliveries: seq<Delivery>)
      modifies this
      ensures var d := DestroyDecisionOf(old(publishers), parameters);
              && publishers == AfterDestroy(old(publishers), d)
              && (d.Refuse? ==> r == Failure(ResourceNotDestroyedFault) && deliveries == [])
              && (d.Respond? ==> r == Success(DestroyRegistrationResponse))
              && (d.Respond? && d.removed.None? ==> deliveries == [])
              && (d.Respond? && d.removed.Some? ==>
                    && |deliveries| == |listeners|
                    && forall i | 0 <= i < |listeners| ::
                         deliveries[i] == Delivery(listeners[i], PublisherRegistrationEvent(d.removed.value, Destroyed)))
    {
      var remaining := parameters.Keys;
      while remaining != {}
        invariant remaining <= parameters.Keys
        invariant RegistrationParameter in parameters ==> RegistrationParameter in remaining
        invariant publishers == old(publishers)
        decreases |remaining|
      {
        var key :| key in remaining;
        remaining := remaining - {key};
        if key != RegistrationParameter {
          continue;
        }
        var values := parameters[key];
        if |values| > 1 {
          if values[0] !in publishers {
            publishers := publishers - {values[0]};
            return Success(DestroyRegistrationResponse), [];
          }
          return Failure(ResourceNotDestroyedFault), [];
        } else if |values| == 0 {
          return Failure(ResourceNotDestroyedFault), [];
        }
        var reference := values[0];
        if reference !in publishers {
          return Failure(ResourceNotDestroyedFault), [];
        }
        RemovePublisher(reference);
        deliveries := FirePublisherRegistrationChanged(reference, Destroyed);
        return Success(DestroyRegistrationResponse), deliveries;
      }
      return Failure(ResourceNotDestroyedFault), [];
    }

    /** Removes every registration that has ended before now. */
    method Update(now: int)
      modifies this
      ensures publishers == LiveRegistrations(old(publishers), now)
    {
      var toBeRemoved := Subscriptions.SelectKeys(publishers, (end: int) => end < now);
      publishers := Subscriptions.RemoveKeys(publishers, toBeRemoved);
    }
  }
}
