/**
 * The messages passed between the server, the hub, the connectors and the web services.
 *
 * An `InternalMessage` carries a status code made of flags and a payload of any type.
 * The numeric values of the flags do not matter to the modelled code, which only tests
 * and combines them; each flag is therefore a boolean of `Status`.
 */
module Messages {
  import opened WsnTypes

  /** One boolean per `STATUS_*` flag. */
  datatype Status = Status(
    ok: bool,
    fault: bool,
    hasMessage: bool,
    messageIsInputStream: bool,
    invalidDestination: bool,
    faultInvalidDestination: bool,
    faultInternalError: bool,
    faultInvalidPayload: bool,
    faultAccessNotAllowed: bool,
    faultNotFound: bool,
    faultUnknownMethod: bool)

  const NoFlags: Status := Status(false, false, false, false, false, false, false, false, false, false, false)

  const StatusOk: Status := NoFlags.(ok := true)
  const StatusOkHasMessage: Status := StatusOk.(hasMessage := true)
  const StatusOkInputStream: Status := StatusOkHasMessage.(messageIsInputStream := true)
  const StatusFault: Status := NoFlags.(fault := true)
  const StatusFaultInvalidPayload: Status := StatusFault.(faultInvalidPayload := true)
  const StatusFaultInvalidDestination: Status := StatusFault.(faultInvalidDestination := true)
  const StatusFaultAccessNotAllowed: Status := StatusFault.(faultAccessNotAllowed := true)
  const StatusFaultNotFound: Status := StatusFault.(faultNotFound := true)
  /** `STATUS_INVALID_DESTINATION` alone, without the fault flag. */
  const StatusInvalidDestination: Status := NoFlags.(invalidDestination := true)
  /** `STATUS_FAULT_UNKNOWN_METHOD` alone, without the fault flag. */
  const StatusFaultUnknownMethod: Status := NoFlags.(faultUnknownMethod := true)
  /** `STATUS_FAULT_INTERNAL_ERROR` alone, without the fault flag. */
  const StatusFaultInternalError: Status := NoFlags.(faultInternalError := true)

  /** An annotation on the class of a body element. */
  datatype ClassAnnotation = XmlRootElement(name: string) | OtherClassAnnotation

  /** A JAXB object inside a SOAP body, with the annotations of its class. */
  datatype BodyElement = BodyElement(annotations: seq<ClassAnnotation>, id: nat)

  /** What an `InternalMessage` may carry. */
  datatype Payload =
    | Null
    | Envelope(body: seq<BodyElement>)
    | InputStream(id: nat)
    | Text(text: string)
    | OtherObject(id: nat)

  datatype InternalMessage = InternalMessage(status: Status, message: Payload)

  /** The request data the server attaches to a message. */
  datatype RequestInformation = RequestInformation(
    endpointReference: Option<string>,
    requestURL: string,
    parameters: Option<map<string, seq<string>>>)
}
