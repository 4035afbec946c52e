/**
 * ZMQClient: a device manager's side of the broker protocol. It asks for
 * a DeviceManagerID on the hello socket, then delivers every message that
 * parses on the data socket. Receiving is modelled by input sequences, one
 * frame per loop pass; when an input runs out the loop ends as if stop()
 * had been called.
 */
module Client {
  import opened Wrappers
  import opened Identity
  import opened MessageTypes
  import opened Messages
  import opened Connector

  /** The messages a data phase delivers to onReceive: the ones that parse, in order. */
  function Delivered(ws: seq<Wire>): (objs: seq<Object>)
    ensures |objs| <= |ws|
  {
    if |ws| == 0 then []
    else
      var p := ParseMessage(ws[|ws| - 1]);
      Delivered(ws[..|ws| - 1]) + (if p.Accepted? then [p.msg] else [])
  }

  /** Every delivered message is one of the inputs with a known type. */
  lemma {:induction false} DeliveredAreAccepted(ws: seq<Wire>, k: nat)
    requires k < |Delivered(ws)|
    ensures exists i :: 0 <= i < |ws| && ParseMessage(ws[i]).Accepted? && ParseMessage(ws[i]).msg == Delivered(ws)[k]
    decreases |ws|
  {
    var n := |ws| - 1;
    var init := Delivered(ws[..n]);
    if k < |init| {
      DeliveredAreAccepted(ws[..n], k);
      var i :| 0 <= i < |ws[..n]| && ParseMessage(ws[..n][i]).Accepted? && ParseMessage(ws[..n][i]).msg == init[k];
      assert ws[..n][i] == ws[i];
    } else {
      assert ParseMessage(ws[n]).Accepted?;
    }
  }

  /** Well-formed messages of a known type are all delivered, malformed ones never. */
  lemma {:induction false} DeliveredCount(ws: seq<Wire>)
    ensures (forall i :: 0 <= i < |ws| ==> ParseMessage(ws[i]).Accepted?) ==> |Delivered(ws)| == |ws|
    ensures (forall i :: 0 <= i < |ws| ==> ws[i].Malformed?) ==> Delivered(ws) == []
    decreases |ws|
  {
    if |ws| > 0 {
      var n := |ws| - 1;
      DeliveredCount(ws[..n]);
      assert forall i :: 0 <= i < n ==> ws[..n][i] == ws[i];
    }
  }

  /** What one pass of the hello phase leaves: the outcome, the ID, the messages sent. */
  datatype HelloEffect = HelloEffect(result: Result<(), Exception>, id: Option<DeviceManagerID>, sent: seq<Sent>)

  /**
   * sendError on m_dataServerSocket: an error message on the data socket,
   * or, while that socket is still null (`dataSocket` false),
   * NullPointerException before anything is written.
   */
  function DataError(id: Option<DeviceManagerID>, dataSocket: bool, code: ErrorCode, text: string): HelloEffect
  {
    if dataSocket then HelloEffect(Ok(()), id, [Sent(DataSocket, "", ErrorObject(code, text))])
    else HelloEffect(Err(NullPointer), id, [])
  }

  /**
   * One hello-socket frame. Parse errors and an unexpected type are
   * answered on the data socket; a hello_response sets the ID, and one
   * whose ID does not parse throws out of the run loop. `dataSocket` says
   * whether the data socket has been configured.
   */
  function HelloStep(w: Wire, id: Option<DeviceManagerID>, dataSocket: bool): HelloEffect
  {
    var p := ParseMessage(w);
    match p
    case Thrown(e) => HelloEffect(Err(e), id, [])
    case Rejected(code, text) => DataError(id, dataSocket, code, text)
    case Accepted(msg, t) =>
      if t == TypeHelloResponse then
        var parsed := ToHelloResponse(msg);
        if parsed.Ok? then HelloEffect(Ok(()), Some(parsed.value), [])
        else HelloEffect(Err(parsed.error), id, [])
      else DataError(id, dataSocket, ErrorUnsupportedMessage, "unsupported message type")
  }

  /**
   * A pass sends at most one message, always on the data socket, and none
   * while that socket is null; only a hello_response changes the ID, to
   * the one it carries, and only when that ID parses. Before the data
   * socket exists every frame other than such a hello_response ends the
   * run with an exception; afterwards a rejected frame is answered with
   * its error message and the run goes on.
   */
  lemma HelloStepEffects(w: Wire, id: Option<DeviceManagerID>, dataSocket: bool)
    ensures |HelloStep(w, id, dataSocket).sent| <= 1
    ensures forall k :: 0 <= k < |HelloStep(w, id, dataSocket).sent| ==> HelloStep(w, id, dataSocket).sent[k].socket == DataSocket
    ensures !dataSocket ==> HelloStep(w, id, dataSocket).sent == []
    ensures !IsHelloResponse(w) ==> HelloStep(w, id, dataSocket).id == id
    ensures IsHelloResponse(w) ==>
      && HelloStep(w, id, dataSocket).sent == []
      && (HelloStep(w, id, dataSocket).result.Ok? <==> ToHelloResponse(w.obj).Ok?)
      && HelloStep(w, id, dataSocket).id == (if ToHelloResponse(w.obj).Ok? then Some(ToHelloResponse(w.obj).value) else id)
    ensures !dataSocket ==> (HelloStep(w, id, dataSocket).result.Ok? <==> IsHelloResponse(w) && ToHelloResponse(w.obj).Ok?)
    ensures ParseMessage(w).Thrown? ==> HelloStep(w, id, dataSocket) == HelloEffect(Err(ParseMessage(w).error), id, [])
    ensures ParseMessage(w).Rejected? ==>
      HelloStep(w, id, dataSocket) == DataError(id, dataSocket, ParseMessage(w).code, ParseMessage(w).text)
  {
  }

  /** A hello_response carrying the text of a constructible ID assigns exactly that ID. */
  lemma HelloResponseAssigns(d: DeviceManagerID, id: Option<DeviceManagerID>, dataSocket: bool)
    requires Constructible(d)
    ensures HelloStep(WellFormed(HelloResponseObject(d)), id, dataSocket) == HelloEffect(Ok(()), Some(d), [])
  {
    HelloResponseRoundTrip(d);
  }

  /**
   * Any other known type is answered with ERROR_UNSUPPORTED_MESSAGE on the
   * data socket and leaves the ID alone; before that socket exists the
   * answer throws NullPointerException instead.
   */
  lemma OtherTypeUnsupported(o: Object, t: MessageType, id: Option<DeviceManagerID>)
    requires TypeOf(o) == Ok(t) && t != TypeHelloResponse
    ensures HelloStep(WellFormed(o), id, true) ==
      HelloEffect(Ok(()), id, [Sent(DataSocket, "", ErrorObject(ErrorUnsupportedMessage, "unsupported message type"))])
    ensures HelloStep(WellFormed(o), id, false) == HelloEffect(Err(NullPointer), id, [])
  {
  }

  /**
   * The broker's answer to a hello_request when its table is full, an
   * "error" message on the hello socket, ends a client that has no ID yet
   * with NullPointerException.
   */
  lemma FullTableReplyAborts()
    ensures HelloStep(WellFormed(ErrorObject(ErrorMaximumDeviceManagers, "maximum number of registered device managers")), None, false) ==
      HelloEffect(Err(NullPointer), None, [])
  {
    ErrorRoundTrip(ErrorMaximumDeviceManagers, "maximum number of registered device managers");
  }

  class Client {
    /** The inherited ZMQConnector part: stop flag and sockets. */
    const conn: Connector
    var prefix: DevicePrefix
    var managerId: Option<DeviceManagerID>
    var dataConfigured: bool
    /** The messages handed to onReceive, oldest first. */
    var delivered: seq<Object>

    constructor ()
      ensures prefix == PrefixInvalid && managerId == None
      ensures !dataConfigured && delivered == []
      ensures fresh(conn) && conn.stopFlag == 0 && conn.sent == []
    {
      conn := new Connector();
      prefix := PrefixInvalid;
      managerId := None;
      dataConfigured := false;
      delivered := [];
    }

    method SetDeviceManagerPrefix(p: DevicePrefix)
      modifies this`prefix
      ensures prefix == p
    {
      prefix := p;
    }

    function DeviceManagerId(): Option<DeviceManagerID>
      reads this
    {
      managerId
    }

    /**
     * sendError on m_dataServerSocket, which is null until run configures
     * the data socket: dereferencing it throws NullPointerException.
     */
    method SendDataError(code: ErrorCode, text: string) returns (r: Result<(), Exception>)
      modifies conn`sent
      ensures dataConfigured ==> r == Ok(()) && conn.sent == old(conn.sent) + [Sent(DataSocket, "", ErrorObject(code, text))]
      ensures !dataConfigured ==> r == Err(NullPointer) && conn.sent == old(conn.sent)
    {
      if !dataConfigured {
        return Err(NullPointer);
      }
      conn.SendError(code, text, DataSocket);
      return Ok(());
    }

    /** helloServerReceive for one frame, as specified by HelloStep. */
    method HelloServerReceive(w: Wire) returns (r: Result<(), Exception>)
      modifies this`managerId, conn`sent
      ensures r == HelloStep(w, old(managerId), dataConfigured).result
      ensures managerId == HelloStep(w, old(managerId), dataConfigured).id
      ensures conn.sent == old(conn.sent) + HelloStep(w, old(managerId), dataConfigured).sent
    {
      // parseMessage answers a rejected frame on m_dataServerSocket
      var p := ParseMessage(w);
      if p.Thrown? {
        return Err(p.error);
      }
      if p.Rejected? {
        r := SendDataError(p.code, p.text);
        return;
      }
      if p.msgType == TypeHelloResponse {
        var id := ToHelloResponse(p.msg);
        if id.Err? {
          return Err(id.error);
        }
        managerId := Some(id.value);
        return Ok(());
      }
      r := SendDataError(ErrorUnsupportedMessage, "unsupported message type");
    }

    /** dataServerReceive for one frame: a message that parses goes to onReceive. */
    method DataServerReceive(w: Wire) returns (r: Result<(), Exception>)
      modifies this`delivered, conn`sent
      ensures var p := ParseMessage(w);
        r == (if p.Thrown? then Err(p.error) else if p.Rejected? && !dataConfigured then Err(NullPointer) else Ok(())) &&
        delivered == old(delivered) + (if p.Accepted? then [p.msg] else []) &&
        conn.sent == old(conn.sent) + (if p.Rejected? && dataConfigured then [Sent(DataSocket, "", ErrorObject(p.code, p.text))] else [])
    {
      var p := ParseMessage(w);
      if p.Thrown? {
        return Err(p.error);
      }
      if p.Rejected? {
        r := SendDataError(p.code, p.text);
        return;
      }
      delivered := delivered + [p.msg];
      return Ok(());
    }

    /**
     * The hello phase: one frame per pass until an ID is assigned or the
     * input ends. Without a data socket nothing is sent, and the first
     * frame decides the outcome: it either assigns the ID or ends the run.
     */
    method HelloPhase(helloIn: seq<Wire>) returns (r: Result<(), Exception>)
      modifies this`managerId, conn`sent
      ensures |conn.sent| >= |old(conn.sent)| && conn.sent[..|old(conn.sent)|] == old(conn.sent)
      ensures OnlyData(conn.sent, |old(conn.sent)|)
      ensures !dataConfigured ==> conn.sent == old(conn.sent)
      ensures old(managerId).Some? ==> managerId == old(managerId)
      ensures r.Ok? && managerId.None? && conn.stopFlag == 0 ==> NoHelloResponse(helloIn)
      ensures !dataConfigured && old(managerId).None? && conn.stopFlag == 0 && |helloIn| > 0 ==>
        r == HelloStep(helloIn[0], None, false).result && managerId == HelloStep(helloIn[0], None, false).id
    {
      var i := 0;
      while conn.stopFlag == 0 && managerId.None? && i < |helloIn|
        invariant 0 <= i <= |helloIn|
        invariant |conn.sent| >= |old(conn.sent)| && conn.sent[..|old(conn.sent)|] == old(conn.sent)
        invariant OnlyData(conn.sent, |old(conn.sent)|)
        invariant !dataConfigured ==> conn.sent == old(conn.sent)
        invariant old(managerId).Some? ==> managerId == old(managerId)
        invariant managerId.None? ==> NoHelloResponse(helloIn[..i])
        invariant i == 0 ==> managerId == old(managerId)
        invariant !dataConfigured && old(managerId).None? && i > 0 ==>
          i == 1 && HelloStep(helloIn[0], None, false) == HelloEffect(Ok(()), managerId, [])
        decreases |helloIn| - i
      {
        ghost var before := conn.sent;
        HelloStepEffects(helloIn[i], managerId, dataConfigured);
        var step := HelloServerReceive(helloIn[i]);
        assert conn.sent[..|before|] == before;
        if step.Err? {
          return step;
        }
        assert helloIn[..i + 1][..i] == helloIn[..i];
        i := i + 1;
      }
      assert helloIn[..i] == helloIn || managerId.Some? || conn.stopFlag != 0;
      return Ok(());
    }

    /** The data phase: one frame per pass; `consumed` frames were read before the loop ended. */
    method DataPhase(dataIn: seq<Wire>) returns (r: Result<(), Exception>, consumed: nat)
      modifies this`delivered, conn`sent
      ensures consumed <= |dataIn|
      ensures delivered == old(delivered) + Delivered(dataIn[..consumed])
      ensures r.Ok? && conn.stopFlag == 0 ==> consumed == |dataIn|
      ensures r.Err? ==>
        && consumed < |dataIn|
        && (ParseMessage(dataIn[consumed]).Thrown? || (!dataConfigured && ParseMessage(dataIn[consumed]).Rejected?))
      ensures |conn.sent| >= |old(conn.sent)| && conn.sent[..|old(conn.sent)|] == old(conn.sent)
      ensures OnlyData(conn.sent, |old(conn.sent)|)
    {
      consumed := 0;
      while conn.stopFlag == 0 && consumed < |dataIn|
        invariant 0 <= consumed <= |dataIn|
        invariant delivered == old(delivered) + Delivered(dataIn[..consumed])
        invariant |conn.sent| >= |old(conn.sent)| && conn.sent[..|old(conn.sent)|] == old(conn.sent)
        invariant OnlyData(conn.sent, |old(conn.sent)|)
        decreases |dataIn| - consumed
      {
        ghost var before := conn.sent;
        var step := DataServerReceive(dataIn[consumed]);
        assert conn.sent[..|before|] == before;
        if step.Err? {
          return step, consumed;
        }
        assert dataIn[..consumed + 1][..consumed] == dataIn[..consumed];
        consumed := consumed + 1;
      }
      return Ok(()), consumed;
    }

    /**
     * run: exactly one hello_request, carrying the prefix, goes out on the
     * hello socket; everything else the run sends goes to the data socket.
     * The data socket is configured (with the ID as its identity) and the
     * data phase entered only once an ID is known, and the hello phase is
     * not re-entered. Until then the data socket is null, so a first hello
     * frame that is not a hello_response ends the run with an exception.
     */
    method Run(helloIn: seq<Wire>, dataIn: seq<Wire>) returns (r: Result<(), Exception>)
      requires conn.stopFlag == 0 && managerId.None? && !dataConfigured
      modifies this`managerId, this`dataConfigured, this`delivered, conn`sent
      ensures |conn.sent| > |old(conn.sent)| && conn.sent[..|old(conn.sent)|] == old(conn.sent)
      ensures conn.sent[|old(conn.sent)|] == Sent(HelloSocket, "", HelloRequestObject(prefix))
      ensures OnlyData(conn.sent, |old(conn.sent)| + 1)
      ensures dataConfigured ==> managerId.Some?
      ensures r.Ok? ==> (dataConfigured <==> managerId.Some?)
      ensures !dataConfigured ==> delivered == old(delivered)
      ensures r.Ok? && managerId.Some? ==> delivered == old(delivered) + Delivered(dataIn)
      ensures |helloIn| > 0 && HelloStep(helloIn[0], None, false).result.Ok? ==>
        dataConfigured && managerId == HelloStep(helloIn[0], None, false).id
      ensures |helloIn| > 0 && !IsHelloResponse(helloIn[0]) ==>
        r.Err? && !dataConfigured && |conn.sent| == |old(conn.sent)| + 1 && delivered == old(delivered)
    {
      var request := Message.FromHelloRequest(prefix);
      conn.Send(HelloSocket, "", request.json);
      ghost var afterHello := conn.sent;
      r := HelloPhase(helloIn);
      if r.Err? || managerId.None? {
        return;
      }
      dataConfigured := true;
      var consumed;
      ghost var afterPhase := conn.sent;
      r, consumed := DataPhase(dataIn);
      assert conn.sent[..|afterPhase|] == afterPhase;
      assert conn.sent[..|afterHello|] == afterHello;
      assert dataIn[..consumed] == dataIn || r.Err?;
    }
  }

  /** A frame that parses as a hello_response. */
  predicate IsHelloResponse(w: Wire)
  {
    ParseMessage(w).Accepted? && ParseMessage(w).msgType == TypeHelloResponse
  }

  /** No frame of `ws` parses as a hello_response. */
  predicate NoHelloResponse(ws: seq<Wire>)
    decreases |ws|
  {
    |ws| == 0 || (NoHelloResponse(ws[..|ws| - 1]) && !IsHelloResponse(ws[|ws| - 1]))
  }

  /** NoHelloResponse holds exactly when no single frame is a hello_response. */
  lemma {:induction false} NoHelloResponseIff(ws: seq<Wire>)
    ensures NoHelloResponse(ws) <==> forall k :: 0 <= k < |ws| ==> !IsHelloResponse(ws[k])
    decreases |ws|
  {
    if |ws| > 0 {
      var init := ws[..|ws| - 1];
      NoHelloResponseIff(init);
      assert forall k :: 0 <= k < |init| ==> init[k] == ws[k];
    }
  }

  /** Every message sent from position `from` on went to the data socket. */
  ghost predicate OnlyData(sent: seq<Sent>, from: nat)
  {
    forall k :: from <= k < |sent| ==> sent[k].socket == DataSocket
  }
}
