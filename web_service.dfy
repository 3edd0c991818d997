/**
 * WebService: the base class of every WS-Nu web service. It keeps the service's
 * endpoint references, its content managers and the location of its WSDL file, and it
 * answers requests that carry no content (a `?wsdl` query or a file below the
 * endpoint).
 *
 * The hub's address, `Utilities.stripUrlOfProtocolAndHost`, `ContentManager.accepts`
 * and the file system enter as parameters. The endpoint pattern is read as a literal
 * prefix, not as a regular expression.
 */
module WebServices {
  import opened WsnTypes
  import opened Messages

  datatype Hub = Hub(id: nat)
  datatype ServiceConnection = ServiceConnection(id: nat)
  datatype ContentManager = ContentManager(id: nat)

  /** The characters that `.` in a Java regular expression does not match. */
  predicate LineTerminator(c: char) {
    c == '\n' || c == '\r' || c == '\U{0085}' || c == '\U{2028}' || c == '\U{2029}'
  }

  /** `s` is matched by the Java pattern `(.*)?`. */
  predicate AnyLine(s: string) {
    forall i | 0 <= i < |s| :: !LineTerminator(s[i])
  }

  /** `s` is matched by `^(https?://)(.*)?`. */
  predicate IsFullUrl(s: string) {
    || (StartsWith(s, "http://") && AnyLine(s[7..]))
    || (StartsWith(s, "https://") && AnyLine(s[8..]))
  }

  /** The text Java makes of `pureEndpointReference` inside a string concatenation. */
  function PatternText(pure: Option<string>): (text: string)
    ensures pure.Some? ==> text == pure.value
    ensures pure.None? ==> text == "null"
  {
    if pure.Some? then pure.value else "null"
  }

  /** `uri` is matched by `^/?` + `prefix` + `(.*)?`, the prefix taken literally. */
  predicate MatchesEndpoint(uri: string, prefix: string) {
    || (StartsWith(uri, prefix) && AnyLine(uri[|prefix|..]))
    || (StartsWith(uri, "/" + prefix) && AnyLine(uri[|prefix| + 1..]))
  }

  /** `replaceAll("^/", "")`: drops one leading slash. */
  function StripLeadingSlash(s: string): (r: string)
    ensures |s| > 0 && s[0] == '/' ==> "/" + r == s
    ensures !(|s| > 0 && s[0] == '/') ==> r == s
  {
    if |s| > 0 && s[0] == '/' then s[1..] else s
  }

  /** A path below a relative endpoint, with or without its leading slash, passes the destination check. */
  lemma RelativeEndpointAcceptsItsPaths(endpoint: string, rest: string)
    requires AnyLine(rest)
    ensures MatchesEndpoint(endpoint + rest, PatternText(Some(endpoint)))
    ensures MatchesEndpoint("/" + endpoint + rest, PatternText(Some(endpoint)))
  {
    var uri := "/" + endpoint + rest;
    assert uri[..|endpoint| + 1] == "/" + endpoint;
    assert uri[|endpoint| + 1..] == rest;
    assert (endpoint + rest)[..|endpoint|] == endpoint;
    assert (endpoint + rest)[|endpoint|..] == rest;
  }

  /** `ArrayList.remove(Object)`: the first occurrence goes, the order of the rest stays. */
  function RemoveFirst(managers: seq<ContentManager>, manager: ContentManager): (r: seq<ContentManager>)
    ensures manager !in managers ==> r == managers
    ensures manager in managers ==> |r| == |managers| - 1
  {
    if |managers| == 0 then []
    else if managers[0] == manager then managers[1..]
    else [managers[0]] + RemoveFirst(managers[1..], manager)
  }

  /** The copy removed is the first: everything before it and everything after it stays, in order. */
  lemma {:induction false} RemoveFirstAtFirstOccurrence(managers: seq<ContentManager>, manager: ContentManager, i: nat)
    requires i < |managers| && managers[i] == manager && manager !in managers[..i]
    ensures RemoveFirst(managers, manager) == managers[..i] + managers[i + 1..]
  {
    if i > 0 {
      assert managers[0] in managers[..i];
      assert managers[1..][..i - 1] == managers[..i][1..];
      RemoveFirstAtFirstOccurrence(managers[1..], manager, i - 1);
      assert managers[..i] == [managers[0]] + managers[1..][..i - 1];
      assert managers[1..][i..] == managers[i + 1..];
    }
  }

  /** Removing a manager takes exactly one copy of it out of the list. */
  lemma {:induction false} RemoveFirstTakesOneCopy(managers: seq<ContentManager>, manager: ContentManager)
    ensures multiset(RemoveFirst(managers, manager)) == multiset(managers) - multiset{manager}
  {
    if |managers| > 0 {
      assert managers == [managers[0]] + managers[1..];
      if managers[0] != manager {
        RemoveFirstTakesOneCopy(managers[1..], manager);
      }
    }
  }

  /** Adding a manager and removing it again restores the list. */
  lemma {:induction false} RemoveFirstUndoesAppend(managers: seq<ContentManager>, manager: ContentManager)
    requires manager !in managers
    ensures RemoveFirst(managers + [manager], manager) == managers
  {
    if |managers| > 0 {
      assert (managers + [manager])[1..] == managers[1..] + [manager];
      RemoveFirstUndoesAppend(managers[1..], manager);
      assert managers == [managers[0]] + managers[1..];
    }
  }

  /** The reply for a file that is opened: its stream, or not found. */
  function Served(stream: Option<nat>): (reply: InternalMessage)
    ensures stream.None? ==> reply == InternalMessage(StatusFaultNotFound, Null)
    ensures stream.Some? ==> reply == InternalMessage(StatusOkInputStream, InputStream(stream.value))
  {
    match stream
    case None => InternalMessage(StatusFaultNotFound, Null)
    case Some(s) => InternalMessage(StatusOkInputStream, InputStream(s))
  }

  /** The answer of `acceptRequest`: a WSDL query, then the destination, then the managers, then the file. */
  function AcceptRequestOutcome(requestInformation: RequestInformation, wsdlLocation: Option<string>,
                                pureEndpointReference: Option<string>, managers: seq<ContentManager>,
                                accepts: (ContentManager, string) -> bool, open: string -> Option<nat>)
    : (reply: InternalMessage)
    ensures var wsdlQuery := requestInformation.parameters.Some? && "wsdl" in requestInformation.parameters.value;
            && (wsdlQuery && wsdlLocation.None? ==> reply == InternalMessage(StatusFaultNotFound, Null))
            && (!wsdlQuery && !MatchesEndpoint(requestInformation.requestURL, PatternText(pureEndpointReference)) ==>
                  reply == InternalMessage(StatusFaultInvalidDestination, Null))
            && (!wsdlQuery && MatchesEndpoint(requestInformation.requestURL, PatternText(pureEndpointReference)) &&
                (exists i | 0 <= i < |managers| :: !accepts(managers[i], StripLeadingSlash(requestInformation.requestURL))) ==>
                  reply == InternalMessage(StatusFaultAccessNotAllowed, Null))
    // a WSDL query serves the file at the WSDL location
    ensures requestInformation.parameters.Some? && "wsdl" in requestInformation.parameters.value && wsdlLocation.Some? ==>
              reply == Served(open(wsdlLocation.value))
    // an accepted request serves the file its URI names, without leading slashes
    ensures var uri := StripLeadingSlash(requestInformation.requestURL);
            && !(requestInformation.parameters.Some? && "wsdl" in requestInformation.parameters.value)
            && MatchesEndpoint(requestInformation.requestURL, PatternText(pureEndpointReference))
            && (forall i | 0 <= i < |managers| :: accepts(managers[i], uri)) ==>
              reply == Served(open(StripLeadingSlash(uri)))
    ensures reply.status.ok ==> reply.status == StatusOkInputStream && reply.message.InputStream?
    ensures !reply.status.ok ==> reply.status.fault && reply.message == Null
  {
    if requestInformation.parameters.Some? && "wsdl" in requestInformation.parameters.value then
      if wsdlLocation.None? then InternalMessage(StatusFaultNotFound, Null)
      else
        match open(wsdlLocation.value)
        case None => InternalMessage(StatusFaultNotFound, Null)
        case Some(stream) => InternalMessage(StatusOkInputStream, InputStream(stream))
    else if !MatchesEndpoint(requestInformation.requestURL, PatternText(pureEndpointReference)) then
      InternalMessage(StatusFaultInvalidDestination, Null)
    else
      var uri := StripLeadingSlash(requestInformation.requestURL);
      if exists i | 0 <= i < |managers| :: !accepts(managers[i], uri) then InternalMessage(StatusFaultAccessNotAllowed, Null)
      else
        match open(StripLeadingSlash(uri))
        case None => InternalMessage(StatusFaultNotFound, Null)
        case Some(stream) => InternalMessage(StatusOkInputStream, InputStream(stream))
  }

  /**
   * The destination and the content managers are decided before any file is opened:
   * when either refuses, the file system makes no difference.
   */
  lemma GatesComeBeforeFiles(requestInformation: RequestInformation, wsdlLocation: Option<string>,
                             pureEndpointReference: Option<string>, managers: seq<ContentManager>,
                             accepts: (ContentManager, string) -> bool, open: string -> Option<nat>,
                             otherOpen: string -> Option<nat>)
    requires !(requestInformation.parameters.Some? && "wsdl" in requestInformation.parameters.value)
    requires !MatchesEndpoint(requestInformation.requestURL, PatternText(pureEndpointReference)) ||
             exists i | 0 <= i < |managers| :: !accepts(managers[i], StripLeadingSlash(requestInformation.requestURL))
    ensures AcceptRequestOutcome(requestInformation, wsdlLocation, pureEndpointReference, managers, accepts, open) ==
            AcceptRequestOutcome(requestInformation, wsdlLocation, pureEndpointReference, managers, accepts, otherOpen)
    ensures !AcceptRequestOutcome(requestInformation, wsdlLocation, pureEndpointReference, managers, accepts, open).status.ok
  {
  }

  /**
   * The content managers as declared: only the constructor without a hub creates the
   * list, so a service built with a hub has `null` (`None`) there.
   */
  function AsWrittenManagersAfterConstruction(withHub: bool): (managers: Option<seq<ContentManager>>)
    ensures withHub <==> managers.None?
  {
    if withHub then None else Some([])
  }

  /** `addContentManager` as declared: appending to a `null` list throws. */
  function AsWrittenAddContentManager(managers: Option<seq<ContentManager>>, manager: ContentManager)
    : (r: Result<seq<ContentManager>>)
    ensures managers.None? <==> r == Failure(NullPointerException)
    ensures managers.Some? ==> r == Success(managers.value + [manager])
  {
    match managers
    case None => Failure(NullPointerException)
    case Some(list) => Success(list + [manager])
  }

  /** A service constructed with a hub cannot take a content manager. */
  lemma AsWrittenHubServiceRefusesManagers(manager: ContentManager)
    ensures AsWrittenAddContentManager(AsWrittenManagersAfterConstruction(true), manager) == Failure(NullPointerException)
  {
  }

  class WebService {
    var contentManagers: seq<ContentManager>
    var hub: Option<Hub>
    var connection: Option<ServiceConnection>
    var endpointReference: Option<string>
    var pureEndpointReference: Option<string>
    var wsdlLocation: Option<string>

    constructor ()
      ensures contentManagers == [] && hub.None? && connection.None?
      ensures endpointReference.None? && pureEndpointReference.None? && wsdlLocation.None?
    {
      contentManagers := [];
      hub := None;
      connection := None;
      endpointReference := None;
      pureEndpointReference := None;
      wsdlLocation := None;
    }

    /** The constructor taking a hub, with the list of content managers created as well. */
    constructor WithHub(hub: Hub)
      ensures contentManagers == [] && this.hub == Some(hub) && connection.None?
      ensures endpointReference.None? && pureEndpointReference.None? && wsdlLocation.None?
    {
      contentManagers := [];
      this.hub := Some(hub);
      connection := None;
      endpointReference := None;
      pureEndpointReference := None;
      wsdlLocation := None;
    }

    /**
     * Takes the argument as the whole endpoint reference. `notified` is the address
     * passed to `connection.endpointUpdated`, if there is a connection.
     */
    method ForceEndpointReference(endpoint: string, stripUrlOfProtocolAndHost: string -> string)
      returns (notified: Option<string>)
      modifies this
      ensures endpointReference == Some(endpoint)
      ensures pureEndpointReference == Some(stripUrlOfProtocolAndHost(endpoint))
      ensures notified == if connection.Some? then Some(endpoint) else None
      ensures contentManagers == old(contentManagers) && hub == old(hub) && connection == old(connection)
      ensures wsdlLocation == old(wsdlLocation)
    {
      endpointReference := Some(endpoint);
      pureEndpointReference := Some(stripUrlOfProtocolAndHost(endpoint));
      notified := if connection.Some? then Some(endpoint) else None;
    }

    /**
     * A full URL is forced; a relative reference is placed below the hub's address.
     * On a thrown exception the references are left as they were.
     */
    method SetEndpointReference(endpoint: string, inetAddress: Hub -> string, stripUrlOfProtocolAndHost: string -> string)
      returns (thrown: Option<Fault>, notified: Option<string>)
      modifies this
      ensures Contains(endpoint, "\\") ==>
                && thrown == Some(IllegalArgumentException) && notified.None?
                && endpointReference == old(endpointReference) && pureEndpointReference == old(pureEndpointReference)
      ensures !Contains(endpoint, "\\") && IsFullUrl(endpoint) ==>
                && thrown.None? && endpointReference == Some(endpoint)
                && pureEndpointReference == Some(stripUrlOfProtocolAndHost(endpoint))
                && notified == (if connection.Some? then Some(endpoint) else None)
      ensures !Contains(endpoint, "\\") && !IsFullUrl(endpoint) && old(hub).None? ==>
                && thrown == Some(IllegalStateException) && notified.None?
                && endpointReference == old(endpointReference) && pureEndpointReference == old(pureEndpointReference)
      ensures !Contains(endpoint, "\\") && !IsFullUrl(endpoint) && old(hub).Some? ==>
                && thrown.None? && pureEndpointReference == Some(endpoint)
                && endpointReference == Some(inetAddress(old(hub).value) + "/" + endpoint)
                && notified == (if connection.Some? then endpointReference else None)
      ensures contentManagers == old(contentManagers) && hub == old(hub) && connection == old(connection)
      ensures wsdlLocation == old(wsdlLocation)
    {
      if Contains(endpoint, "\\") {
        return Some(IllegalArgumentException), None;
      }
      if IsFullUrl(endpoint) {
        notified := ForceEndpointReference(endpoint, stripUrlOfProtocolAndHost);
        return None, notified;
      }
      if hub.None? {
        return Some(IllegalStateException), None;
      }
      pureEndpointReference := Some(endpoint);
      endpointReference := Some(inetAddress(hub.value) + "/" + endpoint);
      thrown := None;
      notified := if connection.Some? then endpointReference else None;
    }

    method AddContentManager(manager: ContentManager)
      modifies this
      ensures contentManagers == old(contentManagers) + [manager]
      ensures hub == old(hub) && connection == old(connection) && wsdlLocation == old(wsdlLocation)
      ensures endpointReference == old(endpointReference) && pureEndpointReference == old(pureEndpointReference)
    {
      contentManagers := contentManagers + [manager];
    }

    method RemoveContentManager(manager: ContentManager)
      modifies this
      ensures contentManagers == RemoveFirst(old(contentManagers), manager)
      ensures hub == old(hub) && connection == old(connection) && wsdlLocation == old(wsdlLocation)
      ensures endpointReference == old(endpointReference) && pureEndpointReference == old(pureEndpointReference)
    {
      contentManagers := RemoveFirst(contentManagers, manager);
    }

    method ClearContentManagers()
      modifies this
      ensures contentManagers == []
      ensures hub == old(hub) && connection == old(connection) && wsdlLocation == old(wsdlLocation)
      ensures endpointReference == old(endpointReference) && pureEndpointReference == old(pureEndpointReference)
    {
      contentManagers := [];
    }

    /** Takes the path as the WSDL location only if it names a file. */
    method SetWsdlLocation(path: string, isFile: string -> bool) returns (found: bool)
      modifies this
      ensures found == isFile(path)
      ensures found ==> wsdlLocation == Some(path)
      ensures !found ==> wsdlLocation == old(wsdlLocation)
      ensures contentManagers == old(contentManagers) && hub == old(hub) && connection == old(connection)
      ensures endpointReference == old(endpointReference) && pureEndpointReference == old(pureEndpointReference)
    {
      if !isFile(path) {
        return false;
      }
      wsdlLocation := Some(path);
      return true;
    }

    /** Registers the connection; a service without one cannot read its requests. */
    method SetConnection(c: ServiceConnection)
      modifies this
      ensures connection == Some(c)
      ensures contentManagers == old(contentManagers) && hub == old(hub) && wsdlLocation == old(wsdlLocation)
      ensures endpointReference == old(endpointReference) && pureEndpointReference == old(pureEndpointReference)
    {
      connection := Some(c);
    }

    /**
     * Answers a request without content; the content managers are asked in order.
     * `requestInformation` is what `connection.getRequestInformation()` answers: a
     * service without a connection dereferences `null` before any check.
     */
    method AcceptRequest(requestInformation: RequestInformation, accepts: (ContentManager, string) -> bool,
                         open: string -> Option<nat>)
      returns (reply: Result<InternalMessage>)
      ensures connection.None? ==> reply == Failure(NullPointerException)
      ensures connection.Some? ==>
                reply == Success(AcceptRequestOutcome(requestInformation, wsdlLocation, pureEndpointReference,
                                                      contentManagers, accepts, open))
    {
      if connection.None? {
        return Failure(NullPointerException);
      }
      var uri := requestInformation.requestURL;
      var parameters := requestInformation.parameters;
      if parameters.Some? && |parameters.value| != 0 && "wsdl" in parameters.value {
        if wsdlLocation.None? {
          return Success(InternalMessage(StatusFaultNotFound, Null));
        }
        var stream := open(wsdlLocation.value);
        if stream.None? {
          return Success(InternalMessage(StatusFaultNotFound, Null));
        }
        return Success(InternalMessage(StatusOkInputStream, InputStream(stream.value)));
      }
      if !MatchesEndpoint(uri, PatternText(pureEndpointReference)) {
        return Success(InternalMessage(StatusFaultInvalidDestination, Null));
      }
      uri := StripLeadingSlash(uri);
      for i := 0 to |contentManagers|
        invariant forall j | 0 <= j < i :: accepts(contentManagers[j], uri)
      {
        if !accepts(contentManagers[i], uri) {
          return Success(InternalMessage(StatusFaultAccessNotAllowed, Null));
        }
      }
      var stream := open(StripLeadingSlash(uri));
      if stream.None? {
        return Success(InternalMessage(StatusFaultNotFound, Null));
      }
      return Success(InternalMessage(StatusOkInputStream, InputStream(stream.value)));
    }
  }
}
