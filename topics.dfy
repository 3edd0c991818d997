/**
 * Topic expressions (section 8 of OASIS Web Services Topics 1.3) and the operations every
 * topic-expression dialect evaluator offers (TopicExpressionEvaluatorInterface).
 */
module Topics {
  import opened WsnTypes

  const SimpleDialectURI: string := "http://docs.oasis-open.org/wsn/t-1/TopicExpression/Simple"
  const ConcreteDialectURI: string := "http://docs.oasis-open.org/wsn/t-1/TopicExpression/Concrete"
  const FullDialectURI: string := "http://docs.oasis-open.org/wsn/t-1/TopicExpression/Full"

  /** One entry of a `TopicExpressionType`'s mixed content: a text node or an element. */
  datatype ContentItem = TextItem(text: string) | ElementItem(node: XmlNode)

  datatype TopicExpression = TopicExpression(dialect: string, content: seq<ContentItem>)

  /** The `any` list of a `TopicSetType`. */
  type TopicSet = seq<XmlNode>

  /** A `TopicType` and a `TopicNamespaceType`: handles the dispatch never looks into. */
  datatype Topic = Topic(id: nat)
  datatype TopicNamespace = TopicNamespace(id: nat)

  /**
   * A dialect evaluator: its dialect URI and its five operations. A `null` topic set
   * returned by `getIntersection` is `None`.
   */
  datatype Evaluator = Evaluator(
    dialectURI: string,
    isExpressionPermittedInNamespace: (TopicExpression, TopicNamespace) -> Result<bool>,
    getIntersection: (TopicExpression, TopicSet, NamespaceContext) -> Result<Option<TopicSet>>,
    evaluateTopicWithExpression: (TopicExpression, Topic) -> Result<bool>,
    evaluateTopicExpressionToQName: (TopicExpression, NamespaceContext) -> Result<seq<QName>>,
    isLegalExpression: (TopicExpression, NamespaceContext) -> Result<bool>)

  /**
   * An evaluator never answers an expression of its own dialect with an unknown-dialect
   * fault: that fault is reserved for expressions it was not made for.
   */
  ghost predicate DialectHonest(e: Evaluator) {
    && (forall x: TopicExpression, ns: TopicNamespace
          | x.dialect == e.dialectURI :: !IsDialectUnknown(e.isExpressionPermittedInNamespace(x, ns)))
    && (forall x: TopicExpression, s: TopicSet, c: NamespaceContext
          | x.dialect == e.dialectURI :: !IsDialectUnknown(e.getIntersection(x, s, c)))
    && (forall x: TopicExpression, t: Topic
          | x.dialect == e.dialectURI :: !IsDialectUnknown(e.evaluateTopicWithExpression(x, t)))
    && (forall x: TopicExpression, c: NamespaceContext
          | x.dialect == e.dialectURI :: !IsDialectUnknown(e.evaluateTopicExpressionToQName(x, c)))
    && (forall x: TopicExpression, c: NamespaceContext
          | x.dialect == e.dialectURI :: !IsDialectUnknown(e.isLegalExpression(x, c)))
  }

  predicate IsDialectUnknown<T>(r: Result<T>) {
    r.Failure? && r.error.TopicExpressionDialectUnknownFault?
  }
}
