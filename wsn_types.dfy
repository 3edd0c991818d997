/**
 * Values shared by every part of the model: optional values, results, qualified
 * names, opaque handles for XML objects, and the faults of OASIS WS-BaseNotification 1.3,
 * WS-BrokeredNotification 1.3 and WS-Topics 1.3, together with the few Java runtime
 * exceptions the modelled code raises.
 */
module WsnTypes {

  datatype Option<+T> = None | Some(value: T)

  /** What a Java method either returns or throws. */
  datatype Result<+T> = Success(value: T) | Failure(error: Fault)

  /** A qualified XML name: (namespace URI, local part). */
  datatype QName = QName(namespaceURI: string, localPart: string)

  /** A DOM node or JAXB element. Its structure is never inspected by the modelled code. */
  datatype XmlNode = XmlNode(id: nat)

  /** A `javax.xml.namespace.NamespaceContext`; only ever passed along. */
  datatype NamespaceContext = NamespaceContext(id: nat)

  /** A `W3CEndpointReference`. */
  datatype EndpointReference = EndpointReference(id: nat)

  datatype Fault =
    | TopicExpressionDialectUnknownFault(description: string)
    | InvalidTopicExpressionFault(description: string)
    | MultipleTopicsSpecifiedFault
    | InvalidMessageContentExpressionFault
    | InvalidFilterFault(filterName: Option<QName>)
    | SubscribeCreationFailedFault
    | UnacceptableInitialTerminationTimeFault
    | NoCurrentMessageOnTopicFault
    | PublisherRegistrationFailedFault
    | ResourceNotDestroyedFault
    // java.lang runtime exceptions
    | UnsupportedOperationException(description: string)
    | IllegalArgumentException
    | IllegalStateException
    | NullPointerException
    | ClassCastException

  predicate StartsWith(s: string, prefix: string) {
    |prefix| <= |s| && s[..|prefix|] == prefix
  }

  /** `s` occurs somewhere inside `text`. */
  predicate Contains(text: string, s: string) {
    exists i | 0 <= i <= |text| :: OccursAt(text, s, i)
  }

  /** `s` occurs inside `text` starting at index `i`. */
  predicate OccursAt(text: string, s: string, i: int) {
    0 <= i <= |text| - |s| && text[i..i + |s|] == s
  }
}
