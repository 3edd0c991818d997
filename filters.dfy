/**
 * Notifications and filtering: the `Notify` message of OASIS WS-BaseNotification 1.3
 * (section 3.2), the FilterEvaluator interface with the contract its implementations
 * must keep, and the signature of the filter support the producers delegate to.
 */
module Filters {
  import opened WsnTypes
  import opened Topics

  /** A `NotificationMessageHolderType`: an optional topic and the message payload. */
  datatype MessageHolder = MessageHolder(topic: Option<TopicExpression>, message: XmlNode)

  datatype Notify = Notify(notificationMessage: seq<MessageHolder>)

  /** A `NuNamespaceContextResolver`: the namespace context each part of a message was read in. */
  datatype NamespaceContextResolver = NamespaceContextResolver(
    resolveTopic: TopicExpression -> NamespaceContext,
    resolveFilter: FilterValue -> NamespaceContext)

  /** The value of one filter element of a Subscribe request. */
  datatype FilterValue =
    | TopicExpressionFilter(expression: TopicExpression)
    | MessageContentFilter(dialect: string, content: seq<ContentItem>)
    | OtherFilter(id: nat)

  /** The Java class a FilterEvaluator handles. */
  datatype FilterClass = TopicExpressionType | QueryExpressionType | OtherClass(id: nat)

  /**
   * A FilterEvaluator. `evaluate` takes a possibly absent Notify and answers the
   * accepted notifications, absent when none is accepted.
   */
  datatype FilterEvaluator = FilterEvaluator(
    filterClass: FilterClass,
    filterName: QName,
    isWellFormed: (FilterValue, NamespaceContext) -> Result<bool>,
    evaluate: (Option<Notify>, NamespaceContextResolver, FilterValue, NamespaceContext) -> Option<Notify>)

  /** `sub` is `s` with some elements left out, the rest kept in order. */
  predicate IsSubsequence<T(==)>(sub: seq<T>, s: seq<T>)
    decreases |s|
  {
    if sub == [] then true
    else if s == [] then false
    else if sub[|sub| - 1] == s[|s| - 1] then IsSubsequence(sub[..|sub| - 1], s[..|s| - 1])
    else IsSubsequence(sub, s[..|s| - 1])
  }

  /** The faults `isWellFormed` may raise, by the class of filter the evaluator handles. */
  predicate PermittedWellFormednessFault(filterClass: FilterClass, f: Fault) {
    match filterClass
    case TopicExpressionType =>
      f.TopicExpressionDialectUnknownFault? || f.InvalidTopicExpressionFault?
    case QueryExpressionType => f.InvalidMessageContentExpressionFault?
    case OtherClass(_) => false
  }

  /** What `evaluate` may answer for a given Notify. */
  predicate PermittedEvaluation(notify: Option<Notify>, result: Option<Notify>) {
    match result
    case None => true
    case Some(accepted) =>
      && notify.Some?
      && |accepted.notificationMessage| > 0
      && IsSubsequence(accepted.notificationMessage, notify.value.notificationMessage)
  }

  /** The contract of the interface, which every implementation must keep. */
  ghost predicate Conforms(fe: FilterEvaluator) {
    && (forall filter: FilterValue, context: NamespaceContext
          | fe.isWellFormed(filter, context).Failure? ::
            PermittedWellFormednessFault(fe.filterClass, fe.isWellFormed(filter, context).error))
    && (forall notify: Option<Notify>, resolver: NamespaceContextResolver, filter: FilterValue, context: NamespaceContext
          :: PermittedEvaluation(notify, fe.evaluate(notify, resolver, filter, context)))
  }

  /** The messages of `messages` that `accept` lets through, in order. */
  function Accepted(messages: seq<MessageHolder>, accept: MessageHolder -> bool): (kept: seq<MessageHolder>)
    ensures forall m | m in kept :: m in messages && accept(m)
    decreases |messages|
  {
    if messages == [] then []
    else
      var last := messages[|messages| - 1];
      Accepted(messages[..|messages| - 1], accept) + (if accept(last) then [last] else [])
  }

  /**
   * The reference evaluation: the Notify of the accepted messages, or absent when none
   * is accepted or no Notify was given.
   */
  function Filtered(notify: Option<Notify>, accept: MessageHolder -> bool): Option<Notify> {
    match notify
    case None => None
    case Some(n) =>
      var kept := Accepted(n.notificationMessage, accept);
      if |kept| == 0 then None else Some(Notify(kept))
  }

  lemma {:induction false} SubsequenceOfSelf<T>(s: seq<T>)
    ensures IsSubsequence(s, s)
    decreases |s|
  {
    if s != [] {
      SubsequenceOfSelf(s[..|s| - 1]);
    }
  }

  lemma {:induction false} AcceptedIsSubsequence(messages: seq<MessageHolder>, accept: MessageHolder -> bool)
    ensures IsSubsequence(Accepted(messages, accept), messages)
    decreases |messages|
  {
    if messages != [] {
      var init := messages[..|messages| - 1];
      var last := messages[|messages| - 1];
      AcceptedIsSubsequence(init, accept);
      var kept := Accepted(messages, accept);
      if accept(last) {
        assert kept[..|kept| - 1] == Accepted(init, accept);
      } else {
        var earlier := Accepted(init, accept);
        assert kept == earlier + [];
        assert kept == earlier;
        assert messages == init + [last];
        SubsequenceExtend(earlier, init, last);
        assert IsSubsequence(earlier, init + [last]);
      }
    }
  }

  /** A subsequence of `s` is a subsequence of any extension of `s`. */
  lemma {:induction false} SubsequenceExtend<T>(sub: seq<T>, s: seq<T>, x: T)
    requires IsSubsequence(sub, s)
    ensures IsSubsequence(sub, s + [x])
    decreases |s|, 1
  {
    assert (s + [x])[..|s + [x]| - 1] == s;
    if sub != [] && sub[|sub| - 1] == x {
      SubsequenceDropLast(sub, s);
    }
  }

  /** Removing the last element of a subsequence keeps it a subsequence. */
  lemma {:induction false} SubsequenceDropLast<T>(sub: seq<T>, s: seq<T>)
    requires sub != [] && IsSubsequence(sub, s)
    ensures IsSubsequence(sub[..|sub| - 1], s)
    decreases |s|, 0
  {
    var init := s[..|s| - 1];
    var last := s[|s| - 1];
    assert s == init + [last];
    if sub[|sub| - 1] == last {
      SubsequenceExtend(sub[..|sub| - 1], init, last);
    } else {
      SubsequenceDropLast(sub, init);
      SubsequenceExtend(sub[..|sub| - 1], init, last);
    }
  }

  /** Nothing is accepted exactly when no message passes `accept`. */
  lemma {:induction false} AcceptedEmptyIff(messages: seq<MessageHolder>, accept: MessageHolder -> bool)
    ensures |Accepted(messages, accept)| == 0 <==> forall i | 0 <= i < |messages| :: !accept(messages[i])
    decreases |messages|
  {
    if messages != [] {
      var init := messages[..|messages| - 1];
      AcceptedEmptyIff(init, accept);
      assert forall i | 0 <= i < |init| :: init[i] == messages[i];
    }
  }

  /** Every accepted message of the input is kept. */
  lemma {:induction false} AcceptedKeepsAccepted(messages: seq<MessageHolder>, accept: MessageHolder -> bool, m: MessageHolder)
    requires m in messages && accept(m)
    ensures m in Accepted(messages, accept)
    decreases |messages|
  {
    var init := messages[..|messages| - 1];
    if m != messages[|messages| - 1] {
      assert messages == init + [messages[|messages| - 1]];
      AcceptedKeepsAccepted(init, accept, m);
    }
  }

  /** Filtering twice with the same acceptance keeps what filtering once keeps. */
  lemma {:induction false} AcceptedIdempotent(messages: seq<MessageHolder>, accept: MessageHolder -> bool)
    ensures Accepted(Accepted(messages, accept), accept) == Accepted(messages, accept)
    decreases |messages|
  {
    if messages != [] {
      var init := messages[..|messages| - 1];
      var last := messages[|messages| - 1];
      AcceptedIdempotent(init, accept);
      var kept := Accepted(messages, accept);
      AcceptedAppend(Accepted(init, accept), if accept(last) then [last] else [], accept);
      if accept(last) {
        AcceptedSingle(last, accept);
      }
    }
  }

  lemma AcceptedSingle(m: MessageHolder, accept: MessageHolder -> bool)
    ensures Accepted([m], accept) == if accept(m) then [m] else []
  {
    assert [m][..0] == [];
  }

  lemma {:induction false} AcceptedAppend(a: seq<MessageHolder>, b: seq<MessageHolder>, accept: MessageHolder -> bool)
    ensures Accepted(a + b, accept) == Accepted(a, accept) + Accepted(b, accept)
    decreases |b|
  {
    if b == [] {
      assert a + b == a;
    } else {
      var ab := a + b;
      var init := b[..|b| - 1];
      var last := b[|b| - 1];
      assert ab[..|ab| - 1] == a + init;
      assert ab[|ab| - 1] == last;
      AcceptedAppend(a, init, accept);
      var tail := if accept(last) then [last] else [];
      assert Accepted(ab, accept) == Accepted(a + init, accept) + tail;
      assert Accepted(b, accept) == Accepted(init, accept) + tail;
      assert (Accepted(a, accept) + Accepted(init, accept)) + tail ==
             Accepted(a, accept) + (Accepted(init, accept) + tail);
    }
  }

  /** The reference evaluation keeps the contract `evaluate` must keep. */
  lemma FilteredIsPermitted(notify: Option<Notify>, accept: MessageHolder -> bool)
    ensures PermittedEvaluation(notify, Filtered(notify, accept))
  {
    if notify.Some? {
      AcceptedIsSubsequence(notify.value.notificationMessage, accept);
    }
  }

  /** The reference evaluation is absent exactly when no message of the Notify is accepted. */
  lemma FilteredNoneIff(notify: Notify, accept: MessageHolder -> bool)
    ensures Filtered(Some(notify), accept).None? <==>
            forall i | 0 <= i < |notify.notificationMessage| :: !accept(notify.notificationMessage[i])
  {
    AcceptedEmptyIff(notify.notificationMessage, accept);
  }

  lemma FilteredIdempotent(notify: Option<Notify>, accept: MessageHolder -> bool)
    ensures Filtered(Filtered(notify, accept), accept) == Filtered(notify, accept)
  {
    if notify.Some? {
      AcceptedIdempotent(notify.value.notificationMessage, accept);
    }
  }

  /**
   * A filter that is well formed but never true, such as a message-content expression
   * that does not evaluate to a boolean, accepts no message at all.
   */
  lemma NeverTrueFilterAcceptsNothing(notify: Option<Notify>)
    ensures Filtered(notify, _ => false) == None
  {
    if notify.Some? {
      AcceptedEmptyIff(notify.value.notificationMessage, _ => false);
    }
  }

  /**
   * An evaluator built from a per-filter acceptance test, whose well-formedness check
   * raises only the faults its class permits.
   */
  function AcceptanceEvaluator(filterClass: FilterClass, filterName: QName,
                               isWellFormed: (FilterValue, NamespaceContext) -> Result<bool>,
                               accepts: (FilterValue, NamespaceContext, NamespaceContextResolver, MessageHolder) -> bool): (fe: FilterEvaluator)
    ensures fe.filterClass == filterClass && fe.filterName == filterName
    ensures forall n, r, f, c :: fe.evaluate(n, r, f, c) == Filtered(n, m => accepts(f, c, r, m))
  {
    FilterEvaluator(filterClass, filterName, isWellFormed,
                    (n, r, f, c) => Filtered(n, m => accepts(f, c, r, m)))
  }

  lemma AcceptanceEvaluatorConforms(filterClass: FilterClass, filterName: QName,
                                    isWellFormed: (FilterValue, NamespaceContext) -> Result<bool>,
                                    accepts: (FilterValue, NamespaceContext, NamespaceContextResolver, MessageHolder) -> bool)
    requires forall f: FilterValue, c: NamespaceContext | isWellFormed(f, c).Failure? ::
               PermittedWellFormednessFault(filterClass, isWellFormed(f, c).error)
    ensures Conforms(AcceptanceEvaluator(filterClass, filterName, isWellFormed, accepts))
  {
    var fe := AcceptanceEvaluator(filterClass, filterName, isWellFormed, accepts);
    forall n: Option<Notify>, r: NamespaceContextResolver, f: FilterValue, c: NamespaceContext
      ensures PermittedEvaluation(n, fe.evaluate(n, r, f, c))
    {
      FilteredIsPermitted(n, m => accepts(f, c, r, m));
    }
  }

  /**
   * Where the namespace contexts of a request come from: a resolver for each part of the
   * message, or one context for the whole request.
   */
  datatype ContextSource = ByResolver(resolver: NamespaceContextResolver) | Fixed(context: NamespaceContext)

  /**
   * `FilterSupport.SubscriptionInfo`: the filters of a subscription (absent when the
   * request had no Filter element) and the contexts they were read in.
   */
  datatype SubscriptionInfo = SubscriptionInfo(filters: Option<map<QName, FilterValue>>, contexts: ContextSource)

  /** FilterSupport, whose implementation is not part of this model. */
  datatype FilterSupport = FilterSupport(
    supportsFilter: (QName, FilterValue, NamespaceContext) -> Result<bool>,
    evaluateNotifyToSubscription: (Notify, SubscriptionInfo, ContextSource) -> Option<Notify>)

  /** A FilterSupport whose evaluations keep the FilterEvaluator contract. */
  ghost predicate SupportConforms(support: FilterSupport) {
    forall n: Notify, info: SubscriptionInfo, contexts: ContextSource ::
      PermittedEvaluation(Some(n), support.evaluateNotifyToSubscription(n, info, contexts))
  }
}
