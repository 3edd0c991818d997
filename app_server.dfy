/**
 * ApplicationServer: the singleton HTTP front end. Its handler turns the status flags
 * of the hub's reply into an HTTP status code; `sendMessage` checks a message before
 * posting it to its endpoint; the static flags record whether the server runs and
 * whether the singleton exists.
 *
 * Jetty itself (server, client, threads, stream copying) is not modelled: the reply of
 * the hub, the outcome of a request and the server's URI enter as parameters.
 */
module AppServer {
  import opened WsnTypes
  import opened Messages

  const Ok200: int := 200
  const BadRequest400: int := 400
  const Forbidden403: int := 403
  const NotFound404: int := 404
  const InternalServerError500: int := 500

  /** The port `getURI` reports when the server's URI has none. */
  const DefaultPort: int := 8080

  /** The handler either sets a status, with the body copied from a stream, or throws. */
  datatype HandleResult = Answered(httpStatus: int, body: Option<nat>) | Threw(fault: Fault)

  /** `(InputStream) returnMessage.getMessage()` followed by `ByteStreams.copy`. */
  function CopiedBody(message: Payload): (body: Result<nat>)
    ensures message.InputStream? ==> body == Success(message.id)
    ensures body.Success? ==> message.InputStream?
    ensures message == Null ==> body == Failure(NullPointerException)
  {
    match message
    case InputStream(id) => Success(id)
    case Null => Failure(NullPointerException)
    case _ => Failure(ClassCastException)
  }

  /** The code of a fault reply without a message; `accessNotAllowed` is the code for ACCESS_NOT_ALLOWED. */
  function FaultCode(status: Status, accessNotAllowed: int): (code: int)
    ensures status.faultInvalidDestination ==> code == NotFound404
    ensures !status.faultInvalidDestination && status.faultInternalError ==> code == InternalServerError500
    ensures !status.faultInvalidDestination && !status.faultInternalError && status.faultInvalidPayload ==>
              code == BadRequest400
    ensures (!status.faultInvalidDestination && !status.faultInternalError && !status.faultInvalidPayload &&
             status.faultAccessNotAllowed) ==> code == accessNotAllowed
    ensures (!status.faultInvalidDestination && !status.faultInternalError && !status.faultInvalidPayload &&
             !status.faultAccessNotAllowed) ==> code == InternalServerError500
  {
    if status.faultInvalidDestination then NotFound404
    else if status.faultInternalError then InternalServerError500
    else if status.faultInvalidPayload then BadRequest400
    else if status.faultAccessNotAllowed then accessNotAllowed
    else InternalServerError500
  }

  /** The handler's answer to the hub's reply (`None` being `null`). */
  function ResponseTable(returnMessage: Option<InternalMessage>, accessNotAllowed: int): (r: HandleResult)
    // no reply from the hub
    ensures returnMessage.None? ==> r == Answered(InternalServerError500, None)
    // a fault with a message: the stream is copied as the body of a 500
    ensures returnMessage.Some? && returnMessage.value.status.fault && returnMessage.value.status.hasMessage ==>
              && (returnMessage.value.message.InputStream? ==>
                    r == Answered(InternalServerError500, Some(returnMessage.value.message.id)))
              && (returnMessage.value.message == Null ==> r == Threw(NullPointerException))
              && (!returnMessage.value.message.InputStream? && returnMessage.value.message != Null ==>
                    r == Threw(ClassCastException))
    // a fault without a message: the code of its first kind flag
    ensures returnMessage.Some? && returnMessage.value.status.fault && !returnMessage.value.status.hasMessage ==>
              r == Answered(FaultCode(returnMessage.value.status, accessNotAllowed), None)
    // OK with a message: 500 for a missing message, otherwise the stream as the body of a 200
    ensures returnMessage.Some? && !returnMessage.value.status.fault &&
            returnMessage.value.status.ok && returnMessage.value.status.hasMessage ==>
              && (returnMessage.value.message == Null ==> r == Answered(InternalServerError500, None))
              && (returnMessage.value.message.InputStream? ==> r == Answered(Ok200, Some(returnMessage.value.message.id)))
              && (!returnMessage.value.message.InputStream? && returnMessage.value.message != Null ==>
                    r == Threw(ClassCastException))
    // OK without a message, or neither flag: 200 without a body
    ensures (returnMessage.Some? && !returnMessage.value.status.fault &&
             !(returnMessage.value.status.ok && returnMessage.value.status.hasMessage)) ==> r == Answered(Ok200, None)
    // only a copied stream gives a body
    ensures r.Answered? && r.body.Some? ==> returnMessage.Some? && returnMessage.value.status.hasMessage &&
                                            returnMessage.value.message == InputStream(r.body.value)
  {
    match returnMessage
    case None => Answered(InternalServerError500, None)
    case Some(reply) =>
      if reply.status.fault then
        if reply.status.hasMessage then
          match CopiedBody(reply.message)
          case Failure(f) => Threw(f)
          case Success(body) => Answered(InternalServerError500, Some(body))
        else Answered(FaultCode(reply.status, accessNotAllowed), None)
      else if reply.status.ok && reply.status.hasMessage then
        if reply.message == Null then Answered(InternalServerError500, None)
        else
          match CopiedBody(reply.message)
          case Failure(f) => Threw(f)
          case Success(body) => Answered(Ok200, Some(body))
      else Answered(Ok200, None)
  }

  /** What the handler evidently intends: ACCESS_NOT_ALLOWED is answered with 403. */
  function Response(returnMessage: Option<InternalMessage>): HandleResult
  {
    ResponseTable(returnMessage, Forbidden403)
  }

  /** What the handler does as written: the 403 is overwritten with 500. */
  function AsWrittenResponse(returnMessage: Option<InternalMessage>): HandleResult
  {
    ResponseTable(returnMessage, InternalServerError500)
  }

  /**
   * The handler as written: a chain of `setStatus` calls in which the 403 for
   * ACCESS_NOT_ALLOWED is followed by the 500 meant for other faults.
   */
  method HandleAsWritten(returnMessage: Option<InternalMessage>) returns (result: HandleResult)
    ensures result == AsWrittenResponse(returnMessage)
  {
    if returnMessage.None? {
      return Answered(InternalServerError500, None);
    }
    var reply := returnMessage.value;
    if reply.status.fault {
      if reply.status.hasMessage {
        var body := CopiedBody(reply.message);
        if body.Failure? {
          return Threw(body.error);
        }
        return Answered(InternalServerError500, Some(body.value));
      }
      var httpStatus: int;
      if reply.status.faultInvalidDestination {
        return Answered(NotFound404, None);
      } else if reply.status.faultInternalError {
        return Answered(InternalServerError500, None);
      } else if reply.status.faultInvalidPayload {
        return Answered(BadRequest400, None);
      } else if reply.status.faultAccessNotAllowed {
        httpStatus := Forbidden403;
      }
      httpStatus := InternalServerError500;
      return Answered(httpStatus, None);
    } else if reply.status.ok && reply.status.hasMessage {
      if reply.message == Null {
        return Answered(InternalServerError500, None);
      }
      var body := CopiedBody(reply.message);
      if body.Failure? {
        return Threw(body.error);
      }
      return Answered(Ok200, Some(body.value));
    } else if reply.status.ok {
      return Answered(Ok200, None);
    }
    return Answered(Ok200, None);
  }

  /** As written, a refused access is reported as an internal server error. */
  lemma AsWrittenAccessNotAllowedIs500()
    ensures AsWrittenResponse(Some(InternalMessage(StatusFaultAccessNotAllowed, Null))) == Answered(InternalServerError500, None)
  {
  }

  /** With the intended table a refused access is answered with 403 Forbidden. */
  lemma AccessNotAllowedIs403(reply: InternalMessage)
    requires reply.status.fault && !reply.status.hasMessage && reply.status.faultAccessNotAllowed
    requires !reply.status.faultInvalidDestination && !reply.status.faultInternalError && !reply.status.faultInvalidPayload
    ensures Response(Some(reply)) == Answered(Forbidden403, None)
  {
  }

  /** The two tables differ on exactly the replies that the lost 403 was meant for. */
  lemma {:induction false} TablesDifferOnlyOnAccessNotAllowed(returnMessage: Option<InternalMessage>)
    ensures Response(returnMessage) != AsWrittenResponse(returnMessage) <==>
              && returnMessage.Some?
              && returnMessage.value.status.fault && !returnMessage.value.status.hasMessage
              && !returnMessage.value.status.faultInvalidDestination && !returnMessage.value.status.faultInternalError
              && !returnMessage.value.status.faultInvalidPayload && returnMessage.value.status.faultAccessNotAllowed
  {
    if returnMessage.Some? {
      var s := returnMessage.value.status;
      if s.fault && !s.hasMessage && !s.faultInvalidDestination && !s.faultInternalError && !s.faultInvalidPayload &&
         s.faultAccessNotAllowed {
        assert Response(returnMessage).httpStatus == Forbidden403;
      }
    }
  }

  /** The fault flag is read before the ok flag: a reply flagged both is treated as a fault. */
  lemma FaultWinsOverOk(reply: InternalMessage, accessNotAllowed: int)
    requires reply.status.fault
    ensures ResponseTable(Some(reply), accessNotAllowed) ==
            ResponseTable(Some(reply.(status := reply.status.(ok := false))), accessNotAllowed)
  {
  }

  /**
   * A fault reply without a message is answered without a body, its code chosen by the
   * first kind flag in the order destination, internal error, payload, access; a fault
   * of no known kind is an internal server error.
   */
  lemma {:induction false} FaultFlagsInOrder(reply: InternalMessage, accessNotAllowed: int)
    requires reply.status.fault && !reply.status.hasMessage
    ensures var r := ResponseTable(Some(reply), accessNotAllowed);
            var s := reply.status;
            && r.Answered? && r.body.None?
            && (s.faultInvalidDestination ==> r.httpStatus == NotFound404)
            && (!s.faultInvalidDestination && s.faultInternalError ==> r.httpStatus == InternalServerError500)
            && (!s.faultInvalidDestination && !s.faultInternalError && s.faultInvalidPayload ==>
                  r.httpStatus == BadRequest400)
            && ((!s.faultInvalidDestination && !s.faultInternalError && !s.faultInvalidPayload &&
                 s.faultAccessNotAllowed) ==> r.httpStatus == accessNotAllowed)
            && ((!s.faultInvalidDestination && !s.faultInternalError && !s.faultInvalidPayload &&
                 !s.faultAccessNotAllowed) ==> r.httpStatus == InternalServerError500)
            && r.httpStatus in {NotFound404, InternalServerError500, BadRequest400, accessNotAllowed}
  {
  }

  /** A reply flagged with neither ok nor fault is still answered with 200. */
  lemma UnflaggedReplyIs200(reply: InternalMessage)
    requires !reply.status.fault && !reply.status.ok
    ensures Response(Some(reply)) == Answered(Ok200, None)
  {
  }

  /** The intended handler: the same chain with the 403 returned at once. */
  method Handle(returnMessage: Option<InternalMessage>) returns (result: HandleResult)
    ensures result == Response(returnMessage)
  {
    if returnMessage.None? {
      return Answered(InternalServerError500, None);
    }
    var reply := returnMessage.value;
    if reply.status.fault {
      if reply.status.hasMessage {
        var body := CopiedBody(reply.message);
        if body.Failure? {
          return Threw(body.error);
        }
        return Answered(InternalServerError500, Some(body.value));
      }
      if reply.status.faultInvalidDestination {
        return Answered(NotFound404, None);
      } else if reply.status.faultInternalError {
        return Answered(InternalServerError500, None);
      } else if reply.status.faultInvalidPayload {
        return Answered(BadRequest400, None);
      } else if reply.status.faultAccessNotAllowed {
        return Answered(Forbidden403, None);
      }
      return Answered(InternalServerError500, None);
    } else if reply.status.ok && reply.status.hasMessage {
      if reply.message == Null {
        return Answered(InternalServerError500, None);
      }
      var body := CopiedBody(reply.message);
      if body.Failure? {
        return Threw(body.error);
      }
      return Answered(Ok200, Some(body.value));
    }
    return Answered(Ok200, None);
  }

  /** A POST to `endpoint`, with the stream to send as its content if there is one. */
  datatype OutgoingRequest = OutgoingRequest(endpoint: string, content: Option<nat>)

  datatype SendOutcome = SendOutcome(reply: InternalMessage, sent: Option<OutgoingRequest>)

  /**
   * `sendMessage`. `send` answers the content of the response, or `None` when sending
   * throws. A `null` payload flagged as a stream makes the send fail.
   */
  function SendMessage(message: InternalMessage, requestInformation: RequestInformation,
                       send: OutgoingRequest -> Option<string>): (r: SendOutcome)
    ensures requestInformation.endpointReference.None? ==> r == SendOutcome(InternalMessage(StatusFault, Null), None)
    ensures requestInformation.endpointReference.Some? && message.status.hasMessage && !message.status.messageIsInputStream ==>
              r == SendOutcome(InternalMessage(StatusFaultInvalidPayload, Null), None)
    ensures r.sent.Some? <==> && requestInformation.endpointReference.Some?
                              && (!message.status.hasMessage ||
                                  (message.status.messageIsInputStream && message.message.InputStream?))
    ensures r.sent.Some? ==> && r.sent.value.endpoint == requestInformation.endpointReference.value
                             && (r.sent.value.content.Some? <==> message.status.hasMessage)
    ensures r.reply.status.ok <==> r.sent.Some? && send(r.sent.value).Some?
    ensures r.reply.status.ok ==> r.reply == InternalMessage(StatusOkHasMessage, Text(send(r.sent.value).value))
  {
    match requestInformation.endpointReference
    case None => SendOutcome(InternalMessage(StatusFault, Null), None)
    case Some(endpoint) =>
      if !message.status.hasMessage then Sent(OutgoingRequest(endpoint, None), send)
      else if !message.status.messageIsInputStream then SendOutcome(InternalMessage(StatusFaultInvalidPayload, Null), None)
      else
        match message.message
        case InputStream(stream) => Sent(OutgoingRequest(endpoint, Some(stream)), send)
        case Null => SendOutcome(InternalMessage(StatusFaultInternalError, Null), None)
        case _ => SendOutcome(InternalMessage(StatusFaultInvalidPayload, Null), None)
  }

  /** The reply to a request that was sent. */
  function Sent(request: OutgoingRequest, send: OutgoingRequest -> Option<string>): (r: SendOutcome)
    ensures r.sent == Some(request)
  {
    match send(request)
    case None => SendOutcome(InternalMessage(StatusFaultInternalError, Null), Some(request))
    case Some(content) => SendOutcome(InternalMessage(StatusOkHasMessage, Text(content)), Some(request))
  }

  /** The decimal digits of `n`, as Java prints an `int`. */
  function DecimalText(n: nat): (s: string)
    ensures |s| > 0
    ensures forall i | 0 <= i < |s| :: '0' <= s[i] <= '9'
  {
    if n < 10 then [Digit(n)] else DecimalText(n / 10) + [Digit(n % 10)]
  }

  function Digit(d: nat): (c: char)
    requires d < 10
    ensures '0' <= c <= '9' && c as int - '0' as int == d
  {
    (d + '0' as int) as char
  }

  /** The number a string of decimal digits denotes. */
  function DecimalValue(s: string): nat
    requires forall i | 0 <= i < |s| :: '0' <= s[i] <= '9'
  {
    if |s| == 0 then 0 else 10 * DecimalValue(s[..|s| - 1]) + (s[|s| - 1] as int - '0' as int)
  }

  /** The printed port reads back as the port. */
  lemma {:induction false} DecimalTextRoundTrip(n: nat)
    ensures DecimalValue(DecimalText(n)) == n
    decreases n
  {
    if n >= 10 {
      var s := DecimalText(n);
      assert s[..|s| - 1] == DecimalText(n / 10);
      DecimalTextRoundTrip(n / 10);
    }
  }

  lemma DefaultPortText()
    ensures DecimalText(DefaultPort) == "8080"
  {
    assert DecimalText(8) == "8";
    assert DecimalText(80) == "80";
    assert DecimalText(808) == "808";
  }

  /** The host and port of the running server's URI. */
  datatype ServerInstance = ServerInstance(host: string, port: int)

  /** The static state of the class. */
  class ApplicationServer {
    var isRunning: bool
    var hasBeenInvoked: bool
    var singleton: Option<ServerInstance>
    var parentHub: Option<nat>

    predicate Valid()
      reads this
    {
      hasBeenInvoked <==> singleton.Some?
    }

    constructor ()
      ensures !isRunning && !hasBeenInvoked && singleton.None? && parentHub.None?
      ensures Valid()
    {
      isRunning := false;
      hasBeenInvoked := false;
      singleton := None;
      parentHub := None;
    }

    /** Creates the instance on the first successful call and answers that one ever after. */
    method GetInstance(created: Result<ServerInstance>) returns (r: Result<ServerInstance>)
      requires Valid()
      modifies this
      ensures Valid()
      ensures old(hasBeenInvoked) ==> r == Success(old(singleton).value) && singleton == old(singleton)
      ensures !old(hasBeenInvoked) ==> r == created
      ensures !old(hasBeenInvoked) && created.Success? ==> singleton == Some(created.value)
      ensures !old(hasBeenInvoked) && created.Failure? ==> singleton == old(singleton)
      ensures isRunning == old(isRunning) && parentHub == old(parentHub)
    {
      if !hasBeenInvoked {
        if created.Failure? {
          return created;
        }
        singleton := Some(created.value);
        hasBeenInvoked := true;
        return created;
      }
      return Success(singleton.value);
    }

    /** Starts once: a second call while running changes nothing. */
    method Start(hub: nat)
      modifies this
      ensures old(isRunning) ==> isRunning && parentHub == old(parentHub)
      ensures !old(isRunning) ==> isRunning && parentHub == Some(hub)
      ensures hasBeenInvoked == old(hasBeenInvoked) && singleton == old(singleton)
    {
      if isRunning {
        return;
      }
      isRunning := true;
      parentHub := Some(hub);
    }

    /** `stopped` is whether stopping Jetty and joining its thread went without an exception. */
    method Stop(stopped: bool)
      modifies this
      ensures isRunning == (old(isRunning) && !stopped)
      ensures hasBeenInvoked == old(hasBeenInvoked) && singleton == old(singleton) && parentHub == old(parentHub)
    {
      if stopped {
        isRunning := false;
      }
    }

    /** `host:port` of the singleton's URI, with 8080 for a URI without a port. */
    function GetURI(): (uri: Result<string>)
      reads this
      ensures singleton.None? ==> uri == Failure(NullPointerException)
      ensures singleton.Some? && singleton.value.port <= -1 ==> uri == Success(singleton.value.host + ":8080")
      ensures singleton.Some? && singleton.value.port > -1 ==>
                && uri.Success? && StartsWith(uri.value, singleton.value.host + ":")
                && var digits := uri.value[|singleton.value.host| + 1..];
                   (forall i | 0 <= i < |digits| :: '0' <= digits[i] <= '9') && DecimalValue(digits) == singleton.value.port
    {
      match singleton
      case None => Failure(NullPointerException)
      case Some(instance) =>
        var port := if instance.port > -1 then instance.port else DefaultPort;
        var text := DecimalText(port);
        DecimalTextRoundTrip(port);
        DefaultPortText();
        assert instance.port <= -1 ==> text == "8080" && instance.host + ":" + text == instance.host + ":8080";
        assert (instance.host + ":" + text)[|instance.host| + 1..] == text;
        Success(instance.host + ":" + text)
    }
  }
}
