/**
 * TopicValidator: the registry that maps a topic-expression dialect URI to its
 * evaluator, and the five operations of section 8.5 of OASIS Web Services Topics 1.3
 * that are delegated through it.
 *
 * The dispatch operations only read the registry, so they are functions over it; the
 * class holds the state the Java class keeps in static fields and the operations that
 * change it.
 */
module TopicValidation {
  import opened WsnTypes
  import opened Topics
  import XPathDialect

  type Registry = map<string, Evaluator>

  /** Every key is the dialect URI of the evaluator stored under it. */
  ghost predicate KeysMatchDialects(registry: Registry) {
    forall d | d in registry :: registry[d].dialectURI == d
  }

  /** A registry whose evaluators only ever report an unknown dialect for foreign expressions. */
  ghost predicate HonestRegistry(registry: Registry) {
    KeysMatchDialects(registry) && forall d | d in registry :: DialectHonest(registry[d])
  }

  /** The registry after `put(evaluator.getDialectURIAsString(), evaluator)`. */
  function Put(registry: Registry, e: Evaluator): (r: Registry)
    ensures r.Keys == registry.Keys + {e.dialectURI}
    ensures e.dialectURI in r && r[e.dialectURI] == e
    ensures forall d | d in registry && d != e.dialectURI :: r[d] == registry[d]
    ensures KeysMatchDialects(registry) ==> KeysMatchDialects(r)
  {
    registry[e.dialectURI := e]
  }

  lemma PutKeepsHonest(registry: Registry, e: Evaluator)
    requires HonestRegistry(registry) && DialectHonest(e)
    ensures HonestRegistry(Put(registry, e))
  {
    var r := Put(registry, e);
    forall d | d in r
      ensures DialectHonest(r[d])
    {
      if d != e.dialectURI {
        assert r[d] == registry[d];
      }
    }
  }

  /** The registry the static initialiser builds, in its order of insertion. */
  function InitialRegistry(xpath: Evaluator, simple: Evaluator, concrete: Evaluator, full: Evaluator): (r: Registry)
    ensures KeysMatchDialects(r)
    ensures r.Keys == {xpath.dialectURI, simple.dialectURI, concrete.dialectURI, full.dialectURI}
  {
    Put(Put(Put(Put(map[], xpath), simple), concrete), full)
  }

  /**
   * With the four evaluators reporting their documented dialect URIs, the initial
   * registry holds exactly those four URIs, each mapped to its own evaluator.
   */
  lemma InitialRegistryHoldsDefaultDialects(xpath: Evaluator, simple: Evaluator, concrete: Evaluator, full: Evaluator)
    requires xpath.dialectURI == XPathDialect.DialectURI
    requires simple.dialectURI == SimpleDialectURI
    requires concrete.dialectURI == ConcreteDialectURI
    requires full.dialectURI == FullDialectURI
    ensures InitialRegistry(xpath, simple, concrete, full) ==
            map[XPathDialect.DialectURI := xpath, SimpleDialectURI := simple,
                ConcreteDialectURI := concrete, FullDialectURI := full]
  {
    // the four URIs have pairwise different lengths
    assert |XPathDialect.DialectURI| == 44 && |SimpleDialectURI| == 57;
    assert |ConcreteDialectURI| == 59 && |FullDialectURI| == 55;
  }

  const UnknownDialectPrefix: string := "The TopicExpression dialect {"

  /** The fault raised for a dialect that is not a registry key. */
  function UnknownDialectFault(dialect: string): (f: Fault)
    ensures f.TopicExpressionDialectUnknownFault?
    ensures Contains(f.description, dialect)
  {
    var description := UnknownDialectPrefix + dialect + "} was unknown.";
    assert description[|UnknownDialectPrefix|..|UnknownDialectPrefix| + |dialect|] == dialect;
    assert OccursAt(description, dialect, |UnknownDialectPrefix|);
    TopicExpressionDialectUnknownFault(description)
  }

  function IsExpressionPermittedInNamespace(registry: Registry, expression: TopicExpression,
                                            namespace: TopicNamespace): (r: Result<bool>)
    ensures expression.dialect !in registry ==> r == Failure(UnknownDialectFault(expression.dialect))
    ensures expression.dialect in registry ==>
              r == registry[expression.dialect].isExpressionPermittedInNamespace(expression, namespace)
  {
    if expression.dialect !in registry then Failure(UnknownDialectFault(expression.dialect))
    else registry[expression.dialect].isExpressionPermittedInNamespace(expression, namespace)
  }

  function GetIntersection(registry: Registry, expression: TopicExpression, topicSet: TopicSet,
                           namespaceContext: NamespaceContext): (r: Result<Option<TopicSet>>)
    ensures expression.dialect !in registry ==> r == Failure(UnknownDialectFault(expression.dialect))
    ensures expression.dialect in registry ==>
              r == registry[expression.dialect].getIntersection(expression, topicSet, namespaceContext)
  {
    if expression.dialect !in registry then Failure(UnknownDialectFault(expression.dialect))
    else registry[expression.dialect].getIntersection(expression, topicSet, namespaceContext)
  }

  function EvaluateTopicWithExpression(registry: Registry, expression: TopicExpression, topic: Topic): (r: Result<bool>)
    ensures expression.dialect !in registry ==> r == Failure(UnknownDialectFault(expression.dialect))
    ensures expression.dialect in registry ==>
              r == registry[expression.dialect].evaluateTopicWithExpression(expression, topic)
  {
    if expression.dialect !in registry then Failure(UnknownDialectFault(expression.dialect))
    else registry[expression.dialect].evaluateTopicWithExpression(expression, topic)
  }

  function EvaluateTopicExpressionToQName(registry: Registry, expression: TopicExpression,
                                          context: NamespaceContext): (r: Result<seq<QName>>)
    ensures expression.dialect !in registry ==> r == Failure(UnknownDialectFault(expression.dialect))
    ensures expression.dialect in registry ==>
              r == registry[expression.dialect].evaluateTopicExpressionToQName(expression, context)
  {
    if expression.dialect !in registry then Failure(UnknownDialectFault(expression.dialect))
    else registry[expression.dialect].evaluateTopicExpressionToQName(expression, context)
  }

  function IsLegalExpression(registry: Registry, expression: TopicExpression,
                             namespaceContext: NamespaceContext): (r: Result<bool>)
    ensures expression.dialect !in registry ==> r == Failure(UnknownDialectFault(expression.dialect))
    ensures expression.dialect in registry ==>
              r == registry[expression.dialect].isLegalExpression(expression, namespaceContext)
  {
    if expression.dialect !in registry then Failure(UnknownDialectFault(expression.dialect))
    else registry[expression.dialect].isLegalExpression(expression, namespaceContext)
  }

  /**
   * Over a registry of honest evaluators keyed by their own dialects, each of the five
   * operations reports an unknown dialect exactly when the dialect is not a key.
   */
  lemma UnknownDialectExactlyWhenUnregistered(registry: Registry, expression: TopicExpression,
                                              namespace: TopicNamespace, topicSet: TopicSet,
                                              context: NamespaceContext, topic: Topic)
    requires HonestRegistry(registry)
    ensures IsDialectUnknown(IsExpressionPermittedInNamespace(registry, expression, namespace))
            <==> expression.dialect !in registry
    ensures IsDialectUnknown(GetIntersection(registry, expression, topicSet, context))
            <==> expression.dialect !in registry
    ensures IsDialectUnknown(EvaluateTopicWithExpression(registry, expression, topic))
            <==> expression.dialect !in registry
    ensures IsDialectUnknown(EvaluateTopicExpressionToQName(registry, expression, context))
            <==> expression.dialect !in registry
    ensures IsDialectUnknown(IsLegalExpression(registry, expression, context))
            <==> expression.dialect !in registry
  {
    if expression.dialect in registry {
      var e := registry[expression.dialect];
      assert e.dialectURI == expression.dialect;
      assert DialectHonest(e);
    }
  }

  /**
   * After initialisation with honest evaluators, an expression in one of the four default
   * dialects never meets an unknown-dialect fault, and any other expression always does.
   */
  lemma InitialRegistryKnowsExactlyDefaultDialects(
    engine: XPathDialect.XPathEngine, isLegalXPath: (TopicExpression, NamespaceContext) -> Result<bool>,
    simple: Evaluator, concrete: Evaluator, full: Evaluator,
    expression: TopicExpression, topicSet: TopicSet, context: NamespaceContext)
    requires forall x: TopicExpression, c: NamespaceContext
               | x.dialect == XPathDialect.DialectURI :: !IsDialectUnknown(isLegalXPath(x, c))
    requires DialectHonest(simple) && DialectHonest(concrete) && DialectHonest(full)
    ensures var registry := InitialRegistry(XPathDialect.XPathTopicEvaluator(engine, isLegalXPath), simple, concrete, full);
            IsDialectUnknown(GetIntersection(registry, expression, topicSet, context)) <==>
            expression.dialect !in {XPathDialect.DialectURI, simple.dialectURI, concrete.dialectURI, full.dialectURI}
  {
    var xpath := XPathDialect.XPathTopicEvaluator(engine, isLegalXPath);
    XPathDialect.XPathEvaluatorIsDialectHonest(engine, isLegalXPath);
    var r0: Registry := map[];
    PutKeepsHonest(r0, xpath);
    var r1 := Put(r0, xpath);
    PutKeepsHonest(r1, simple);
    var r2 := Put(r1, simple);
    PutKeepsHonest(r2, concrete);
    var r3 := Put(r2, concrete);
    PutKeepsHonest(r3, full);
    var registry := Put(r3, full);
    UnknownDialectExactlyWhenUnregistered(registry, expression, TopicNamespace(0), topicSet, context, Topic(0));
  }

  class TopicValidator {
    var evaluators: Registry
    var slashAsSimpleAndConcreteDialectStartAccepted: bool

    ghost predicate Valid()
      reads this
    {
      KeysMatchDialects(evaluators)
    }

    /** The static initialiser: XPath, Simple, Concrete and Full, in that order. */
    constructor (engine: XPathDialect.XPathEngine, isLegalXPath: (TopicExpression, NamespaceContext) -> Result<bool>,
                 simple: Evaluator, concrete: Evaluator, full: Evaluator)
      ensures Valid()
      ensures evaluators == InitialRegistry(XPathDialect.XPathTopicEvaluator(engine, isLegalXPath), simple, concrete, full)
      ensures !slashAsSimpleAndConcreteDialectStartAccepted
    {
      var registry: Registry := map[];
      registry := Put(registry, XPathDialect.XPathTopicEvaluator(engine, isLegalXPath));
      registry := Put(registry, simple);
      registry := Put(registry, concrete);
      registry := Put(registry, full);
      evaluators := registry;
      slashAsSimpleAndConcreteDialectStartAccepted := false;
    }

    /** Enters `e` under its own dialect URI, replacing any evaluator stored there. */
    method AddTopicExpressionEvaluator(e: Evaluator)
      requires Valid()
      modifies this
      ensures Valid()
      ensures evaluators == old(evaluators)[e.dialectURI := e]
      ensures slashAsSimpleAndConcreteDialectStartAccepted == old(slashAsSimpleAndConcreteDialectStartAccepted)
    {
      evaluators := Put(evaluators, e);
    }

    function IsSlashAsSimpleAndConcreteDialectStartAccepted(): (accepted: bool)
      reads this
      ensures accepted <==> slashAsSimpleAndConcreteDialectStartAccepted
    {
      slashAsSimpleAndConcreteDialectStartAccepted
    }

    method SetSlashAsSimpleAndConcreteDialectStartAccepted(value: bool)
      modifies this
      ensures IsSlashAsSimpleAndConcreteDialectStartAccepted() == value
      ensures evaluators == old(evaluators)
    {
      slashAsSimpleAndConcreteDialectStartAccepted := value;
    }
  }
}
