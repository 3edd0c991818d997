/**
 * UnpackingConnector: the connector that unpacks the body of a SOAP envelope and calls
 * the web-service method whose `@WebMethod` operation name equals the
 * `@XmlRootElement` name of a body element.
 *
 * Reflection enters as data: a method of the web service is its list of annotations and
 * whether it returns `void`, and `Method.invoke` is the parameter `invoke`.
 */
module Connector {
  import opened WsnTypes
  import opened Messages

  datatype MethodAnnotation = WebMethod(operationName: string) | OtherMethodAnnotation

  /** A public method of the web-service class. */
  datatype ServiceMethod = ServiceMethod(annotations: seq<MethodAnnotation>, returnsVoid: bool, id: nat)

  /** What `Method.invoke` does: return a value or throw one of the two checked exceptions. */
  datatype Invocation = Returned(value: Payload) | IllegalAccess | InvocationTarget

  type MethodTable = map<string, ServiceMethod>

  /** The operation name a method is entered under: that of its first `@WebMethod`. */
  function OperationName(annotations: seq<MethodAnnotation>): (name: Option<string>)
    ensures name.None? <==> forall i | 0 <= i < |annotations| :: !annotations[i].WebMethod?
    ensures name.Some? ==> exists i | 0 <= i < |annotations| :: annotations[i] == WebMethod(name.value)
  {
    if |annotations| == 0 then None
    else if annotations[0].WebMethod? then Some(annotations[0].operationName)
    else
      var rest := OperationName(annotations[1..]);
      assert rest.None? ==> forall i | 0 <= i < |annotations| :: !annotations[i].WebMethod? by {
        if rest.None? {
          forall i | 0 <= i < |annotations|
            ensures !annotations[i].WebMethod?
          {
            if i > 0 {
              assert annotations[i] == annotations[1..][i - 1];
            }
          }
        }
      }
      rest
  }

  /** The table the constructor builds, one method after another: a later method wins. */
  function AllowedMethods(methods: seq<ServiceMethod>): MethodTable
  {
    if |methods| == 0 then map[]
    else
      var earlier := AllowedMethods(methods[..|methods| - 1]);
      var last := methods[|methods| - 1];
      match OperationName(last.annotations)
      case None => earlier
      case Some(name) => earlier[name := last]
  }

  /** The table knows exactly the operation names of the methods. */
  lemma {:induction false} AllowedMethodsKeys(methods: seq<ServiceMethod>, name: string)
    ensures name in AllowedMethods(methods) <==>
              exists i | 0 <= i < |methods| :: OperationName(methods[i].annotations) == Some(name)
    decreases |methods|
  {
    if |methods| > 0 {
      var earlier := methods[..|methods| - 1];
      AllowedMethodsKeys(earlier, name);
      if exists i | 0 <= i < |methods| :: OperationName(methods[i].annotations) == Some(name) {
        var i :| 0 <= i < |methods| && OperationName(methods[i].annotations) == Some(name);
        if i < |methods| - 1 {
          assert earlier[i] == methods[i];
        }
      }
      if name in AllowedMethods(earlier) {
        var i :| 0 <= i < |earlier| && OperationName(earlier[i].annotations) == Some(name);
        assert methods[i] == earlier[i];
      }
    }
  }

  /** Every entry is filed under its own method's operation name. */
  lemma {:induction false} AllowedMethodsFiledByName(methods: seq<ServiceMethod>, name: string)
    requires name in AllowedMethods(methods)
    ensures OperationName(AllowedMethods(methods)[name].annotations) == Some(name)
    decreases |methods|
  {
    var earlier := methods[..|methods| - 1];
    if OperationName(methods[|methods| - 1].annotations) != Some(name) {
      AllowedMethodsFiledByName(earlier, name);
    }
  }

  /** Of several methods with one operation name, the last one is entered. */
  lemma {:induction false} AllowedMethodsLastWins(methods: seq<ServiceMethod>, i: nat, name: string)
    requires i < |methods| && OperationName(methods[i].annotations) == Some(name)
    requires forall j | i < j < |methods| :: OperationName(methods[j].annotations) != Some(name)
    ensures name in AllowedMethods(methods) && AllowedMethods(methods)[name] == methods[i]
    decreases |methods|
  {
    if i < |methods| - 1 {
      var earlier := methods[..|methods| - 1];
      assert earlier[i] == methods[i];
      AllowedMethodsLastWins(earlier, i, name);
    }
  }

  /** The constructor's scan: every method, and in each the annotations up to the first `@WebMethod`. */
  method BuildAllowedMethods(methods: seq<ServiceMethod>) returns (table: MethodTable)
    ensures table == AllowedMethods(methods)
  {
    table := map[];
    for i := 0 to |methods|
      invariant table == AllowedMethods(methods[..i])
    {
      assert methods[..i + 1][..i] == methods[..i];
      var annotations := methods[i].annotations;
      var j := 0;
      while j < |annotations|
        invariant 0 <= j <= |annotations|
        invariant OperationName(annotations) == OperationName(annotations[j..])
        invariant table == AllowedMethods(methods[..i])
      {
        if annotations[j].WebMethod? {
          table := table[annotations[j].operationName := methods[i]];
          break;
        }
        assert annotations[j..][1..] == annotations[j + 1..];
        j := j + 1;
      }
    }
    assert methods[..|methods|] == methods;
  }

  /** Scanning one annotation of a body element either decides the reply or goes on. */
  datatype Step = Decided(reply: Option<InternalMessage>) | NoDecision

  function AnnotationStep(table: MethodTable, element: BodyElement, annotation: ClassAnnotation,
                          invoke: (ServiceMethod, BodyElement) -> Invocation): Step
  {
    match annotation
    case OtherClassAnnotation => NoDecision
    case XmlRootElement(name) =>
      if name !in table then Decided(Some(InternalMessage(StatusInvalidDestination, Null)))
      else
        match invoke(table[name], element)
        case IllegalAccess => Decided(None)
        case InvocationTarget => NoDecision
        case Returned(value) =>
          if table[name].returnsVoid then Decided(Some(InternalMessage(StatusOk, Null)))
          else Decided(Some(InternalMessage(StatusOkHasMessage, value)))
  }

  function ElementStep(table: MethodTable, element: BodyElement, annotations: seq<ClassAnnotation>,
                       invoke: (ServiceMethod, BodyElement) -> Invocation): Step
  {
    if |annotations| == 0 then NoDecision
    else
      match AnnotationStep(table, element, annotations[0], invoke)
      case NoDecision => ElementStep(table, element, annotations[1..], invoke)
      case Decided(reply) => Decided(reply)
  }

  /** The possible replies of a dispatch over body elements. */
  predicate DispatchReply(reply: Option<InternalMessage>) {
    reply.Some? ==> && reply.value.status in {StatusOk, StatusOkHasMessage, StatusInvalidDestination, StatusFaultUnknownMethod}
                    && (reply.value.status != StatusOkHasMessage ==> reply.value.message == Null)
  }

  lemma {:induction false} ElementStepReply(table: MethodTable, element: BodyElement, annotations: seq<ClassAnnotation>,
                                            invoke: (ServiceMethod, BodyElement) -> Invocation)
    ensures var step := ElementStep(table, element, annotations, invoke);
            step.Decided? ==> DispatchReply(step.reply) && (step.reply.Some? ==> step.reply.value.status != StatusFaultUnknownMethod)
    decreases |annotations|
  {
    if |annotations| > 0 {
      ElementStepReply(table, element, annotations[1..], invoke);
    }
  }

  /** The element-by-element scan of `acceptMessage`; `None` is the Java `null`. */
  function Dispatch(table: MethodTable, elements: seq<BodyElement>,
                    invoke: (ServiceMethod, BodyElement) -> Invocation): (reply: Option<InternalMessage>)
    ensures DispatchReply(reply)
  {
    if |elements| == 0 then Some(InternalMessage(StatusFaultUnknownMethod, Null))
    else
      ElementStepReply(table, elements[0], elements[0].annotations, invoke);
      match ElementStep(table, elements[0], elements[0].annotations, invoke)
      case Decided(reply) => reply
      case NoDecision => Dispatch(table, elements[1..], invoke)
  }

  function AcceptMessageOutcome(table: MethodTable, internalMessage: InternalMessage,
                                invoke: (ServiceMethod, BodyElement) -> Invocation): (reply: Option<InternalMessage>)
    ensures !internalMessage.message.Envelope? ==> reply == Some(InternalMessage(StatusFaultInvalidPayload, Null))
    ensures internalMessage.message.Envelope? ==> DispatchReply(reply)
  {
    if !internalMessage.message.Envelope? then Some(InternalMessage(StatusFaultInvalidPayload, Null))
    else Dispatch(table, internalMessage.message.body, invoke)
  }

  /** The name of the first `@XmlRootElement` among a class's annotations. */
  function RootName(annotations: seq<ClassAnnotation>): Option<string>
  {
    if |annotations| == 0 then None
    else if annotations[0].XmlRootElement? then Some(annotations[0].name)
    else RootName(annotations[1..])
  }

  /** The first body element decides when its root name is unknown: invalid destination. */
  lemma {:induction false} UnknownRootNameIsInvalidDestination(table: MethodTable, elements: seq<BodyElement>,
                                                               invoke: (ServiceMethod, BodyElement) -> Invocation)
    requires |elements| > 0
    requires RootName(elements[0].annotations).Some? && RootName(elements[0].annotations).value !in table
    ensures Dispatch(table, elements, invoke) == Some(InternalMessage(StatusInvalidDestination, Null))
  {
    UnknownRootStep(table, elements[0], elements[0].annotations, invoke);
  }

  lemma {:induction false} UnknownRootStep(table: MethodTable, element: BodyElement, annotations: seq<ClassAnnotation>,
                                           invoke: (ServiceMethod, BodyElement) -> Invocation)
    requires RootName(annotations).Some? && RootName(annotations).value !in table
    ensures ElementStep(table, element, annotations, invoke) == Decided(Some(InternalMessage(StatusInvalidDestination, Null)))
    decreases |annotations|
  {
    if !annotations[0].XmlRootElement? {
      UnknownRootStep(table, element, annotations[1..], invoke);
    }
  }

  /**
   * A known root name invokes the method; its return value is the message exactly when
   * the method is not `void`.
   */
  lemma {:induction false} KnownRootNameInvokes(table: MethodTable, element: BodyElement, annotations: seq<ClassAnnotation>,
                                                invoke: (ServiceMethod, BodyElement) -> Invocation, value: Payload)
    requires RootName(annotations).Some? && RootName(annotations).value in table
    requires invoke(table[RootName(annotations).value], element) == Returned(value)
    ensures var target := table[RootName(annotations).value];
            && (target.returnsVoid ==> ElementStep(table, element, annotations, invoke) == Decided(Some(InternalMessage(StatusOk, Null))))
            && (!target.returnsVoid ==>
                  ElementStep(table, element, annotations, invoke) == Decided(Some(InternalMessage(StatusOkHasMessage, value))))
    decreases |annotations|
  {
    if !annotations[0].XmlRootElement? {
      KnownRootNameInvokes(table, element, annotations[1..], invoke, value);
    }
  }

  /** A known root name whose method cannot be accessed ends the scan with a `null` reply. */
  lemma {:induction false} IllegalAccessStep(table: MethodTable, element: BodyElement, annotations: seq<ClassAnnotation>,
                                             invoke: (ServiceMethod, BodyElement) -> Invocation)
    requires RootName(annotations).Some? && RootName(annotations).value in table
    requires invoke(table[RootName(annotations).value], element) == IllegalAccess
    ensures ElementStep(table, element, annotations, invoke) == Decided(None)
    decreases |annotations|
  {
    if !annotations[0].XmlRootElement? {
      IllegalAccessStep(table, element, annotations[1..], invoke);
    }
  }

  /** Elements that decide nothing are passed over: the dispatch goes on with the rest. */
  lemma {:induction false} UndecidedElementsSkipped(table: MethodTable, elements: seq<BodyElement>,
                                                    invoke: (ServiceMethod, BodyElement) -> Invocation, k: nat)
    requires k <= |elements|
    requires forall i | 0 <= i < k :: ElementStep(table, elements[i], elements[i].annotations, invoke) == NoDecision
    ensures Dispatch(table, elements, invoke) == Dispatch(table, elements[k..], invoke)
    decreases k
  {
    if k > 0 {
      var rest := elements[1..];
      assert forall i | 0 <= i < k - 1 :: rest[i] == elements[i + 1];
      UndecidedElementsSkipped(table, rest, invoke, k - 1);
      assert rest[k - 1..] == elements[k..];
    }
  }

  /**
   * After elements that decide nothing, an element whose known method cannot be
   * accessed makes `acceptMessage` answer `null`.
   */
  lemma {:induction false} IllegalAccessIsNullReply(table: MethodTable, elements: seq<BodyElement>,
                                                    invoke: (ServiceMethod, BodyElement) -> Invocation, k: nat)
    requires k < |elements|
    requires forall i | 0 <= i < k :: ElementStep(table, elements[i], elements[i].annotations, invoke) == NoDecision
    requires RootName(elements[k].annotations).Some? && RootName(elements[k].annotations).value in table
    requires invoke(table[RootName(elements[k].annotations).value], elements[k]) == IllegalAccess
    ensures Dispatch(table, elements, invoke) == None
  {
    UndecidedElementsSkipped(table, elements, invoke, k);
    IllegalAccessStep(table, elements[k], elements[k].annotations, invoke);
    assert elements[k..][0] == elements[k];
  }

  /** A body in which no invocation returns and no root name is unknown ends with an unknown method. */
  lemma {:induction false} NothingDispatchedIsUnknownMethod(table: MethodTable, elements: seq<BodyElement>,
                                                            invoke: (ServiceMethod, BodyElement) -> Invocation)
    requires forall i, j | 0 <= i < |elements| && 0 <= j < |elements[i].annotations| ::
               elements[i].annotations[j].XmlRootElement? ==>
                 elements[i].annotations[j].name in table &&
                 invoke(table[elements[i].annotations[j].name], elements[i]) == InvocationTarget
    ensures Dispatch(table, elements, invoke) == Some(InternalMessage(StatusFaultUnknownMethod, Null))
    decreases |elements|
  {
    if |elements| > 0 {
      NothingDecidedInElement(table, elements[0], elements[0].annotations, invoke);
      NothingDispatchedIsUnknownMethod(table, elements[1..], invoke);
    }
  }

  lemma {:induction false} NothingDecidedInElement(table: MethodTable, element: BodyElement, annotations: seq<ClassAnnotation>,
                                                   invoke: (ServiceMethod, BodyElement) -> Invocation)
    requires forall j | 0 <= j < |annotations| ::
               annotations[j].XmlRootElement? ==>
                 annotations[j].name in table && invoke(table[annotations[j].name], element) == InvocationTarget
    ensures ElementStep(table, element, annotations, invoke) == NoDecision
    decreases |annotations|
  {
    if |annotations| > 0 {
      NothingDecidedInElement(table, element, annotations[1..], invoke);
    }
  }

  class UnpackingConnector {
    const webService: nat
    const allowedMethods: MethodTable

    predicate Valid() {
      forall name | name in allowedMethods :: OperationName(allowedMethods[name].annotations) == Some(name)
    }

    /** Builds the table of allowed methods from the public methods of the web service. */
    constructor (webService: nat, methods: seq<ServiceMethod>)
      ensures this.webService == webService
      ensures allowedMethods == AllowedMethods(methods)
      ensures Valid()
    {
      this.webService := webService;
      var table := BuildAllowedMethods(methods);
      forall name | name in table
        ensures OperationName(table[name].annotations) == Some(name)
      {
        AllowedMethodsFiledByName(methods, name);
      }
      allowedMethods := table;
    }

    method AcceptMessage(internalMessage: InternalMessage, invoke: (ServiceMethod, BodyElement) -> Invocation)
      returns (reply: Option<InternalMessage>)
      ensures reply == AcceptMessageOutcome(allowedMethods, internalMessage, invoke)
    {
      if !internalMessage.message.Envelope? {
        return Some(InternalMessage(StatusFaultInvalidPayload, Null));
      }
      var messages := internalMessage.message.body;
      for i := 0 to |messages|
        invariant Dispatch(allowedMethods, messages, invoke) == Dispatch(allowedMethods, messages[i..], invoke)
      {
        var message := messages[i];
        var annotations := message.annotations;
        for j := 0 to |annotations|
          invariant ElementStep(allowedMethods, message, annotations, invoke) ==
                    ElementStep(allowedMethods, message, annotations[j..], invoke)
        {
          assert annotations[j..][1..] == annotations[j + 1..];
          var annotation := annotations[j];
          if annotation.XmlRootElement? {
            if annotation.name in allowedMethods {
              var target := allowedMethods[annotation.name];
              match invoke(target, message)
              case IllegalAccess =>
                return None;
              case InvocationTarget =>
              case Returned(value) =>
                if target.returnsVoid {
                  return Some(InternalMessage(StatusOk, Null));
                }
                return Some(InternalMessage(StatusOkHasMessage, value));
            } else {
              return Some(InternalMessage(StatusInvalidDestination, Null));
            }
          }
        }
        assert messages[i..][1..] == messages[i + 1..];
      }
      return Some(InternalMessage(StatusFaultUnknownMethod, Null));
    }

    /** The table of allowed methods, each filed under its own operation name. */
    function GetServiceFunctionality(): (table: MethodTable)
      requires Valid()
      ensures forall name | name in table :: OperationName(table[name].annotations) == Some(name)
    {
      allowedMethods
    }
  }
}
