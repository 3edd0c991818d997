/**
 * The XPath 1.0 topic-expression dialect evaluator (XPathEvaluator). The XPath engine
 * itself (`javax.xml.xpath`) is a pair of uninterpreted functions: compiling an
 * expression in a namespace context, and evaluating a compiled expression on one node.
 */
module XPathDialect {
  import opened WsnTypes
  import opened Topics

  const DialectURI: string := "http://www.w3.org/TR/1999/REC-xpath-19991116"

  const MultipleExpressionsMessage: string := "The given content of the expression was not an XPath expression!"
  const NoExpressionMessage: string := "No expression was given, and thus can not be evaluated!"
  const CompileFailedMessage: string := "Topic expression claimed to be an XPath expression, but was not!"
  const EvaluationFailedMessage: string := "Some part of expression failed to evaluate, this can not be a legal XPath expression!"
  const NotImplementedTopicMessage: string := "Namespace evaluation is still not implemented"
  const NotImplementedNamespaceMessage: string := "Permittance in namespace is still not implemented"
  const NoContextMessage: string := "The XPath evaluator is unable to evaluate an expression without context"

  datatype CompiledXPath = CompiledXPath(id: nat)

  /** `None` stands for an `XPathExpressionException`. */
  datatype XPathEngine = XPathEngine(
    compile: (string, NamespaceContext) -> Option<CompiledXPath>,
    evaluate: (CompiledXPath, XmlNode) -> Option<seq<XmlNode>>)

  function DialectMismatchMessage(dialect: string): string {
    "Could not evaluate dialect! Given dialect was " + dialect + " but only " + DialectURI + " is allowed!"
  }

  function GetDialectURIAsString(): (uri: string)
    ensures uri == "http://www.w3.org/TR/1999/REC-xpath-19991116"
  {
    DialectURI
  }

  /** The text items of a mixed content list, in order; element items are dropped. */
  function TextItems(content: seq<ContentItem>): (texts: seq<string>)
    ensures |texts| <= |content|
  {
    if content == [] then []
    else
      var last := content[|content| - 1];
      TextItems(content[..|content| - 1]) + (if last.TextItem? then [last.text] else [])
  }

  lemma {:induction false} TextItemsOfPrefix(content: seq<ContentItem>, i: nat)
    requires i <= |content|
    ensures |TextItems(content[..i])| <= |TextItems(content)|
    decreases |content|
  {
    if i < |content| {
      assert content[..|content| - 1][..i] == content[..i];
      TextItemsOfPrefix(content[..|content| - 1], i);
    } else {
      assert content[..i] == content;
    }
  }

  /** The single XPath string of an expression's content. */
  function ExpressionString(content: seq<ContentItem>): Result<string> {
    var texts := TextItems(content);
    if |texts| == 0 then Failure(InvalidTopicExpressionFault(NoExpressionMessage))
    else if |texts| > 1 then Failure(InvalidTopicExpressionFault(MultipleExpressionsMessage))
    else Success(texts[0])
  }

  /** The scan over the content that looks for the expression string. */
  method FindExpressionString(content: seq<ContentItem>) returns (r: Result<string>)
    ensures r == ExpressionString(content)
  {
    var expression: Option<string> := None;
    for i := 0 to |content|
      invariant |TextItems(content[..i])| <= 1
      invariant expression.None? <==> |TextItems(content[..i])| == 0
      invariant expression.Some? ==> TextItems(content[..i]) == [expression.value]
    {
      assert content[..i + 1][..i] == content[..i];
      if content[i].TextItem? {
        if expression.Some? {
          TextItemsOfPrefix(content, i + 1);
          return Failure(InvalidTopicExpressionFault(MultipleExpressionsMessage));
        }
        expression := Some(content[i].text);
      }
    }
    assert content[..|content|] == content;
    if expression.None? {
      return Failure(InvalidTopicExpressionFault(NoExpressionMessage));
    }
    return Success(expression.value);
  }

  /**
   * The nodes a compiled expression selects on the members of a topic set, member after
   * member; `None` as soon as one evaluation fails.
   */
  function Selected(engine: XPathEngine, compiled: CompiledXPath, members: seq<XmlNode>): Option<seq<XmlNode>>
    decreases |members|
  {
    if members == [] then Some([])
    else
      match Selected(engine, compiled, members[..|members| - 1])
      case None => None
      case Some(prefix) =>
        match engine.evaluate(compiled, members[|members| - 1])
        case None => None
        case Some(nodes) => Some(prefix + nodes)
  }

  /** The specification of getIntersection. */
  function Intersection(engine: XPathEngine, expression: TopicExpression, topicSet: TopicSet,
                        namespaceContext: NamespaceContext): Result<Option<TopicSet>>
  {
    if expression.dialect != DialectURI then
      Failure(TopicExpressionDialectUnknownFault(DialectMismatchMessage(expression.dialect)))
    else
      match ExpressionString(expression.content)
      case Failure(f) => Failure(f)
      case Success(xpath) =>
        match engine.compile(xpath, namespaceContext)
        case None => Failure(InvalidTopicExpressionFault(CompileFailedMessage))
        case Some(compiled) =>
          match Selected(engine, compiled, topicSet)
          case None => Failure(InvalidTopicExpressionFault(EvaluationFailedMessage))
          case Some(nodes) => Success(if |nodes| == 0 then None else Some(nodes))
  }

  method GetIntersection(engine: XPathEngine, expression: TopicExpression, topicSet: TopicSet,
                         namespaceContext: NamespaceContext) returns (r: Result<Option<TopicSet>>)
    ensures r == Intersection(engine, expression, topicSet, namespaceContext)
  {
    if expression.dialect != DialectURI {
      return Failure(TopicExpressionDialectUnknownFault(DialectMismatchMessage(expression.dialect)));
    }
    var found := FindExpressionString(expression.content);
    if found.Failure? {
      return Failure(found.error);
    }
    var compiledOrNot := engine.compile(found.value, namespaceContext);
    if compiledOrNot.None? {
      return Failure(InvalidTopicExpressionFault(CompileFailedMessage));
    }
    var compiled := compiledOrNot.value;

    var returnCount := 0;
    var returnSet: seq<XmlNode> := [];
    for i := 0 to |topicSet|
      invariant Selected(engine, compiled, topicSet[..i]) == Some(returnSet)
      invariant returnCount == |returnSet|
    {
      assert topicSet[..i + 1][..i] == topicSet[..i];
      var nodeList := engine.evaluate(compiled, topicSet[i]);
      if nodeList.None? {
        SelectedFailureStays(engine, compiled, topicSet, i + 1);
        return Failure(InvalidTopicExpressionFault(EvaluationFailedMessage));
      }
      var nodes := nodeList.value;
      returnCount := returnCount + |nodes|;
      ghost var before := returnSet;
      for j := 0 to |nodes|
        invariant returnSet == before + nodes[..j]
      {
        returnSet := returnSet + [nodes[j]];
      }
      assert nodes[..|nodes|] == nodes;
    }
    assert topicSet[..|topicSet|] == topicSet;
    if returnCount == 0 {
      return Success(None);
    }
    return Success(Some(returnSet));
  }

  /** Once an evaluation on some member has failed, no longer topic set selects anything. */
  lemma {:induction false} SelectedFailureStays(engine: XPathEngine, compiled: CompiledXPath,
                                                 members: seq<XmlNode>, i: nat)
    requires i <= |members|
    requires Selected(engine, compiled, members[..i]).None?
    ensures Selected(engine, compiled, members).None?
    decreases |members|
  {
    if i < |members| {
      assert members[..|members| - 1][..i] == members[..i];
      SelectedFailureStays(engine, compiled, members[..|members| - 1], i);
    } else {
      assert members[..i] == members;
    }
  }

  /**
   * Selection over a concatenated topic set is the concatenation of the selections: the
   * result lists the nodes of each member in topic-set order.
   */
  lemma {:induction false} SelectedConcat(engine: XPathEngine, compiled: CompiledXPath, a: seq<XmlNode>, b: seq<XmlNode>)
    ensures Selected(engine, compiled, a + b) ==
            (if Selected(engine, compiled, a).Some? && Selected(engine, compiled, b).Some?
             then Some(Selected(engine, compiled, a).value + Selected(engine, compiled, b).value)
             else None)
    decreases |b|
  {
    if b == [] {
      assert a + b == a;
      if Selected(engine, compiled, a).Some? {
        assert Selected(engine, compiled, a).value + [] == Selected(engine, compiled, a).value;
      }
    } else {
      var b' := b[..|b| - 1];
      var ab := a + b;
      assert ab[..|ab| - 1] == a + b';
      assert ab[|ab| - 1] == b[|b| - 1];
      SelectedConcat(engine, compiled, a, b');
      assert Selected(engine, compiled, ab) ==
             match Selected(engine, compiled, a + b')
             case None => None
             case Some(prefix) =>
               match engine.evaluate(compiled, b[|b| - 1])
               case None => None
               case Some(nodes) => Some(prefix + nodes);
      assert Selected(engine, compiled, b) ==
             match Selected(engine, compiled, b')
             case None => None
             case Some(prefix) =>
               match engine.evaluate(compiled, b[|b| - 1])
               case None => None
               case Some(nodes) => Some(prefix + nodes);
      if Selected(engine, compiled, a).Some? && Selected(engine, compiled, b').Some?
         && engine.evaluate(compiled, b[|b| - 1]).Some? {
        var x := Selected(engine, compiled, a).value;
        var y := Selected(engine, compiled, b').value;
        var z := engine.evaluate(compiled, b[|b| - 1]).value;
        assert (x + y) + z == x + (y + z);
      }
    }
  }

  /** The selection on one member is exactly what the engine returns for it. */
  lemma SelectedSingle(engine: XPathEngine, compiled: CompiledXPath, n: XmlNode)
    ensures Selected(engine, compiled, [n]) == engine.evaluate(compiled, n)
  {
    assert [n][..|[n]| - 1] == [];
    assert [n][|[n]| - 1] == n;
    assert Selected(engine, compiled, []) == Some([]);
    if engine.evaluate(compiled, n).Some? {
      assert [] + engine.evaluate(compiled, n).value == engine.evaluate(compiled, n).value;
    }
  }

  /** Nothing is selected exactly when every member evaluates to an empty node list. */
  lemma {:induction false} SelectedEmptyIff(engine: XPathEngine, compiled: CompiledXPath, members: seq<XmlNode>)
    ensures Selected(engine, compiled, members) == Some([]) <==>
            forall i | 0 <= i < |members| :: engine.evaluate(compiled, members[i]) == Some([])
    decreases |members|
  {
    if members != [] {
      var init := members[..|members| - 1];
      SelectedEmptyIff(engine, compiled, init);
      assert forall i | 0 <= i < |init| :: init[i] == members[i];
      match Selected(engine, compiled, init)
      case None =>
      case Some(prefix) =>
        match engine.evaluate(compiled, members[|members| - 1])
        case None =>
        case Some(nodes) =>
          assert prefix + nodes == [] <==> prefix == [] && nodes == [];
    }
  }

  /**
   * getIntersection answers `null` exactly when the expression is a well-formed XPath
   * string that compiles and evaluates on every member to an empty node list; in
   * particular an empty topic set always gives `null`.
   */
  lemma IntersectionNullIff(engine: XPathEngine, expression: TopicExpression, topicSet: TopicSet,
                            namespaceContext: NamespaceContext)
    ensures Intersection(engine, expression, topicSet, namespaceContext) == Success(None) <==>
            && expression.dialect == DialectURI
            && ExpressionString(expression.content).Success?
            && engine.compile(ExpressionString(expression.content).value, namespaceContext).Some?
            && var compiled := engine.compile(ExpressionString(expression.content).value, namespaceContext).value;
               forall i | 0 <= i < |topicSet| :: engine.evaluate(compiled, topicSet[i]) == Some([])
  {
    if expression.dialect == DialectURI && ExpressionString(expression.content).Success? {
      var compiledOrNot := engine.compile(ExpressionString(expression.content).value, namespaceContext);
      if compiledOrNot.Some? {
        SelectedEmptyIff(engine, compiledOrNot.value, topicSet);
      }
    }
  }

  lemma IntersectionOfEmptyTopicSet(engine: XPathEngine, expression: TopicExpression, namespaceContext: NamespaceContext)
    requires expression.dialect == DialectURI
    requires |TextItems(expression.content)| == 1
    requires engine.compile(TextItems(expression.content)[0], namespaceContext).Some?
    ensures Intersection(engine, expression, [], namespaceContext) == Success(None)
  {
  }

  /** A second text item in the content is refused whatever else the content holds. */
  lemma SecondTextItemRefused(content: seq<ContentItem>, i: nat, j: nat)
    requires i < j < |content| && content[i].TextItem? && content[j].TextItem?
    ensures ExpressionString(content) == Failure(InvalidTopicExpressionFault(MultipleExpressionsMessage))
  {
    TextItemsCount(content, i, j);
  }

  lemma {:induction false} TextItemsCount(content: seq<ContentItem>, i: nat, j: nat)
    requires i < j < |content| && content[i].TextItem? && content[j].TextItem?
    ensures |TextItems(content)| >= 2
    decreases |content|
  {
    var init := content[..|content| - 1];
    if j < |content| - 1 {
      TextItemsCount(init, i, j);
    } else {
      assert init[i] == content[i];
      TextItemAt(init, i);
    }
  }

  lemma {:induction false} TextItemAt(content: seq<ContentItem>, i: nat)
    requires i < |content| && content[i].TextItem?
    ensures |TextItems(content)| >= 1
    decreases |content|
  {
    if i < |content| - 1 {
      assert content[..|content| - 1][i] == content[i];
      TextItemAt(content[..|content| - 1], i);
    }
  }

  /** Element items never change which expression string is found. */
  lemma ElementItemsIgnored(content: seq<ContentItem>, n: XmlNode)
    ensures ExpressionString(content + [ElementItem(n)]) == ExpressionString(content)
  {
    assert (content + [ElementItem(n)])[..|content|] == content;
  }

  function EvaluateTopicWithExpression(expression: TopicExpression, topic: Topic): (r: Result<bool>)
    ensures r == Failure(UnsupportedOperationException(NotImplementedTopicMessage))
  {
    Failure(UnsupportedOperationException(NotImplementedTopicMessage))
  }

  function IsExpressionPermittedInNamespace(expression: TopicExpression, namespace: TopicNamespace): (r: Result<bool>)
    ensures r == Failure(UnsupportedOperationException(NotImplementedNamespaceMessage))
  {
    Failure(UnsupportedOperationException(NotImplementedNamespaceMessage))
  }

  function EvaluateTopicExpressionToQName(expression: TopicExpression, context: NamespaceContext): (r: Result<seq<QName>>)
    ensures r == Failure(UnsupportedOperationException(NoContextMessage))
  {
    Failure(UnsupportedOperationException(NoContextMessage))
  }

  /**
   * The evaluator as it is entered into the registry. `isLegalExpression` is not part of
   * XPathEvaluator's shown text, so it is supplied by the caller.
   */
  function XPathTopicEvaluator(engine: XPathEngine,
                               isLegalExpression: (TopicExpression, NamespaceContext) -> Result<bool>): (e: Evaluator)
    ensures e.dialectURI == DialectURI
  {
    Evaluator(
      DialectURI,
      IsExpressionPermittedInNamespace,
      (x, s, c) => Intersection(engine, x, s, c),
      EvaluateTopicWithExpression,
      EvaluateTopicExpressionToQName,
      isLegalExpression)
  }

  /**
   * The XPath evaluator reports an unknown dialect only for expressions of another
   * dialect, provided the supplied legality check behaves the same way.
   */
  lemma XPathEvaluatorIsDialectHonest(engine: XPathEngine,
                                      isLegalExpression: (TopicExpression, NamespaceContext) -> Result<bool>)
    requires forall x: TopicExpression, c: NamespaceContext
               | x.dialect == DialectURI :: !IsDialectUnknown(isLegalExpression(x, c))
    ensures DialectHonest(XPathTopicEvaluator(engine, isLegalExpression))
  {
    var e := XPathTopicEvaluator(engine, isLegalExpression);
    forall x: TopicExpression, s: TopicSet, c: NamespaceContext | x.dialect == e.dialectURI
      ensures !IsDialectUnknown(e.getIntersection(x, s, c))
    {
      assert e.getIntersection(x, s, c) == Intersection(engine, x, s, c);
    }
  }
}
