/**
 * ZMQConnector: what the broker and the client share. A received frame is
 * parsed and its "message_type" checked; a failure is answered with one
 * error message on the socket the caller names. Sockets are output logs.
 */
module Connector {
  import opened Wrappers
  import opened MessageTypes
  import opened Messages

  datatype Socket = HelloSocket | DataSocket

  /**
   * One message written to a socket. `peer` is the address frame sent
   * before it on the routing data socket, "" when none is sent.
   */
  datatype Sent = Sent(socket: Socket, peer: string, msg: Object)

  /**
   * The outcome of parseMessage: the message and its type, a rejection
   * answered with an error message, or an exception parseMessage does not
   * catch (a "message_type" that is not a string).
   */
  datatype Parsed =
    | Accepted(msg: Object, msgType: MessageType)
    | Rejected(code: ErrorCode, text: string)
    | Thrown(error: Exception)

  /** parseMessage: the exception kinds mapped to error codes and texts. */
  function ParseMessage(w: Wire): (p: Parsed)
    ensures p.Accepted? ==> w.WellFormed? && p.msg == w.obj
  {
    var obj := FromJSON(w);
    if obj.Err? then Rejected(ErrorJsonSyntax, "json syntax")
    else
      var t := TypeOf(obj.value);
      if t.Ok? then Accepted(obj.value, t.value)
      else if t.error == InvalidAccess then Rejected(ErrorMissingAttribute, "missing attribute: message_type")
      else if t.error == InvalidArgument then Rejected(ErrorMissingAttribute, "unknown message_type")
      else Thrown(t.error)
  }

  /** A message is accepted iff it is JSON and its "message_type" is one of the twelve names. */
  lemma AcceptedIff(w: Wire)
    ensures ParseMessage(w).Accepted? <==>
      w.WellFormed? && "message_type" in w.obj &&
      (exists t :: w.obj["message_type"] == JString(TypeName(t)))
    ensures ParseMessage(w).Accepted? ==> w.obj["message_type"] == JString(TypeName(ParseMessage(w).msgType))
  {
    if w.WellFormed? && "message_type" in w.obj {
      if t :| w.obj["message_type"] == JString(TypeName(t)) {
        ParseTypeName(t);
      }
    }
  }

  lemma MissingTypeRejected(o: Object)
    requires "message_type" !in o
    ensures ParseMessage(WellFormed(o)) == Rejected(ErrorMissingAttribute, "missing attribute: message_type")
  {
  }

  /** An unknown type name is reported as a missing attribute, not as an unsupported message. */
  lemma UnknownTypeRejected(o: Object, name: string)
    requires "message_type" in o && o["message_type"] == JString(name)
    requires forall t :: TypeName(t) != name
    ensures ParseMessage(WellFormed(o)) == Rejected(ErrorMissingAttribute, "unknown message_type")
  {
    ParseTypeRejects(name);
  }

  lemma MalformedRejected()
    ensures ParseMessage(Malformed) == Rejected(ErrorJsonSyntax, "json syntax")
  {
  }

  /**
   * createAddress: the endpoint is "tcp://" followed by the resolved
   * host:port; a host that does not resolve rethrows. Resolution is done
   * by the caller (`resolved`).
   */
  function CreateAddress(resolved: Result<string, Exception>): Result<string, Exception>
  {
    if resolved.Err? then Err(resolved.error) else Ok("tcp://" + resolved.value)
  }

  lemma AddressIsTcp(resolved: Result<string, Exception>)
    ensures CreateAddress(resolved).Ok? <==> resolved.Ok?
    ensures CreateAddress(resolved).Ok? ==>
      |CreateAddress(resolved).value| == 6 + |resolved.value| &&
      CreateAddress(resolved).value[..6] == "tcp://" &&
      CreateAddress(resolved).value[6..] == resolved.value
    ensures resolved.Err? ==> CreateAddress(resolved) == Err(resolved.error)
  {
  }

  class Connector {
    /** m_stop: 0 while running. */
    var stopFlag: int
    var dataHost: string
    var helloHost: string
    var dataPort: int
    var helloPort: int
    /** Everything written to the two sockets, oldest first. */
    var sent: seq<Sent>

    constructor ()
      ensures stopFlag == 0 && sent == []
    {
      stopFlag := 0;
      dataHost, helloHost := "", "";
      dataPort, helloPort := 0, 0;
      sent := [];
    }

    /** stop: repeating it leaves the flag at 1. */
    method Stop()
      modifies this`stopFlag
      ensures stopFlag == 1
    {
      stopFlag := 1;
    }

    method SetDataServerHost(host: string)
      modifies this`dataHost
      ensures dataHost == host
    {
      dataHost := host;
    }

    method SetHelloServerHost(host: string)
      modifies this`helloHost
      ensures helloHost == host
    {
      helloHost := host;
    }

    method SetDataServerPort(port: int)
      modifies this`dataPort
      ensures dataPort == port
    {
      dataPort := port;
    }

    method SetHelloServerPort(port: int)
      modifies this`helloPort
      ensures helloPort == port
    {
      helloPort := port;
    }

    /** Writes one message, with an address frame first when `peer` is not "". */
    method Send(socket: Socket, peer: string, msg: Object)
      modifies this`sent
      ensures sent == old(sent) + [Sent(socket, peer, msg)]
    {
      sent := sent + [Sent(socket, peer, msg)];
    }

    /** sendError: one error message on the given socket. */
    method SendError(code: ErrorCode, text: string, socket: Socket)
      modifies this`sent
      ensures sent == old(sent) + [Sent(socket, "", ErrorObject(code, text))]
    {
      var m := Message.FromError(code, text);
      Send(socket, "", m.json);
    }

    /**
     * parseMessage: an accepted message sends nothing; each rejection sends
     * exactly one error message, on the socket passed in.
     */
    method Parse(w: Wire, socket: Socket) returns (p: Parsed)
      modifies this`sent
      ensures p == ParseMessage(w)
      ensures p.Rejected? ==> sent == old(sent) + [Sent(socket, "", ErrorObject(p.code, p.text))]
      ensures !p.Rejected? ==> sent == old(sent)
    {
      p := ParseMessage(w);
      if p.Rejected? {
        SendError(p.code, p.text, socket);
      }
    }
  }
}
