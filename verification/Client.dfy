/**
 * `WSClient` of websocket/src/sync/client.rs: a class whose methods update its fields, each proved
 * to compute the function of the same name in Session. The ghost fields are the trace.
 */
module Client {
  import opened Bytes
  import opened Wrappers
  import opened Frames
  import opened Text
  import opened Session
  import Http
  import Utf8

  datatype Trace = Trace(
    written: seq<Event>, wire: seq<byte>, enqueued: seq<Frame>, payloads: seq<text>,
    received: seq<byte>, dispatched: seq<Frame>, callbacks: seq<WSEvent>)

  datatype EventIO = INPUT | OUTPUT

  class WSClient {
    var path: text
    var connectionStatus: Status
    var messageSize: nat
    var stream: bool
    var recvStorage: seq<byte>
    var recvData: seq<byte>
    var callback: bool
    var protocol: Option<text>
    var acceptableProtocols: Option<seq<text>>
    var inputEvents: seq<Event>
    var outputEvents: seq<Event>
    var websocketKey: text

    ghost var trace: Trace

    ghost function Abs(): State
      reads this
    {
      State(connectionStatus, path, messageSize, stream, recvStorage, recvData, callback, protocol,
            acceptableProtocols, websocketKey, inputEvents, outputEvents,
            trace.written, trace.wire, trace.enqueued, trace.payloads,
            trace.received, trace.dispatched, trace.callbacks)
    }

    constructor ()
      ensures Abs() == FRESH
    {
      path, connectionStatus, messageSize, stream := [], NotInit, DEFAULT_MESSAGE_SIZE, false;
      recvStorage, recvData, callback, protocol, acceptableProtocols := [], [], false, None, None;
      inputEvents, outputEvents, websocketKey := [], [], [];
      trace := Trace([], [], [], [], [], [], []);
    }

    method Init(path: text, config: Option<Config>)
      modifies this
      ensures Abs() == Session.Init(old(Abs()), path, config)
    {
      this.path := path;
      if config.Some? {
        callback := config.value.callback;
        acceptableProtocols := config.value.protocols;
      }
      connectionStatus := Status.StartInit;
    }

    method SetMessageSize(size: nat)
      modifies this
      ensures Abs() == old(Abs()).(messageSize := size)
    {
      messageSize := size;
    }

    method Send(c: SendCall) returns (o: Outcome)
      modifies this
      ensures Result(Abs(), o) == Session.Send(old(Abs()), c)
    {
      if connectionStatus == Closed { return Ok; }
      if messageSize == 0 {
        // the condition of the loop stays true for ever, or is false at once
        if |c.payload| > 0 { return Panic(Endless); }
        trace := trace.(payloads := trace.payloads + [c.payload]);
        return Ok;
      }
      var cutsOk := QueueFragments(c);
      if !cutsOk { return Panic(CharBoundary); }
      trace := trace.(payloads := trace.payloads + [c.payload]);
      o := Ok;
    }

    /** The loop of send; it stops at the first cut inside a character. */
    method QueueFragments(c: SendCall) returns (cutsOk: bool)
      requires messageSize > 0
      modifies `outputEvents, `trace
      ensures outputEvents == old(outputEvents) + Events(Fragments(c.payload, messageSize, c.masks, 0))
      ensures trace == old(trace).(enqueued := old(trace.enqueued) + Fragments(c.payload, messageSize, c.masks, 0))
      ensures cutsOk == CutsOk(c.payload, messageSize, 0)
    {
      var payload := c.payload;
      var size: Positive := messageSize;
      var dataSent := 0;
      ghost var sent: seq<Frame> := [];
      ghost var rest := Fragments(payload, size, c.masks, 0);
      ghost var all := rest;
      while dataSent < |payload|
        invariant sent + rest == all && rest == Fragments(payload, size, c.masks, dataSent)
        invariant outputEvents == old(outputEvents) + Events(sent)
        invariant trace == old(trace).(enqueued := old(trace.enqueued) + sent)
        invariant CutsOk(payload, size, dataSent) <==> CutsOk(payload, size, 0)
      {
        var i := dataSent + size;
        if i >= |payload| { i := |payload|; }
        if !Utf8.CharBoundary(payload, dataSent) || !Utf8.CharBoundary(payload, i) {
          assert !CutOk(payload, size, dataSent);
          return false;
        }
        assert CutOk(payload, size, dataSent);
        var chunk := payload[dataSent..i];
        var flag := if dataSent + size >= |payload| then FIN else NOFLAG;
        var code := if dataSent == 0 then TEXT else CONTINUATION;
        var frame := NewDataFrame(flag, code, chunk, Some(c.masks(dataSent)));
        assert frame == Fragment(payload, size, c.masks, dataSent);
        ghost var next := Fragments(payload, size, c.masks, dataSent + size);
        assert rest == [frame] + next;
        PushStep(old(outputEvents), old(trace.enqueued), sent, frame, next);
        outputEvents := outputEvents + [WebsocketData(frame)];
        trace := trace.(enqueued := trace.enqueued + [frame]);
        sent, rest := sent + [frame], next;
        dataSent := dataSent + size;
      }
      cutsOk := true;
    }

    /** The user's callback: it may call send any number of times. */
    method RunCallback(e: WSEvent, calls: seq<SendCall>) returns (o: Outcome)
      modifies this
      ensures Result(Abs(), o) == Fire(old(Abs()), e, calls)
    {
      trace := trace.(callbacks := trace.callbacks + [e]);
      ghost var s0 := Abs();
      for k := 0 to |calls|
        invariant SendAll(s0, calls) == SendAll(Abs(), calls[k..])
      {
        assert calls[k..][0] == calls[k] && calls[k..][1..] == calls[k + 1..];
        o := Send(calls[k]);
        if !o.Ok? { return; }
      }
      o := Ok;
    }

    /** The accepted protocols, each followed by a separator. */
    static method ProtocolsValue(protocols: seq<text>) returns (value: text)
      ensures value == JoinProtocols(protocols)
    {
      value := [];
      for k := 0 to |protocols|
        invariant value + JoinProtocols(protocols[k..]) == JoinProtocols(protocols)
      {
        assert protocols[k..][0] == protocols[k] && protocols[k..][1..] == protocols[k + 1..];
        value := value + protocols[k];
        value := value + [44, SPACE];
      }
    }

    method StartInit(i: StepInput) returns (o: Outcome)
      modifies this
      ensures Result(Abs(), o) == Connect(old(Abs()), i)
    {
      if !i.connected { return Err(UnreachableHost); }
      var joined := None;
      if acceptableProtocols.Some? {
        var value := ProtocolsValue(acceptableProtocols.value);
        if |value| < 2 { return Panic(EmptyProtocols); }
        joined := Some(value[..|value| - 2]);
      }
      var request := HandshakeRequest(path, i.key, joined);
      outputEvents := [HttpRequest(request)] + outputEvents;
      websocketKey := i.key;
      if !i.nonblocking { return Err(IOError); }
      stream := true;
      connectionStatus := Handshake;
      o := Ok;
    }

    method HandleRecvBytesFrame() returns (o: Outcome, event: Event)
      modifies this
      ensures ReadOut(Abs(), o, event) == TakeFrame(old(Abs()))
    {
      var parsed := BytesToFrame(recvStorage);
      match parsed
      case Panics => return Panic(FrameSlice), NoData;
      case Invalid => return Err(InvalidFrame), NoData;
      case NeedMore => return Ok, NoData;
      case Complete(frame, offset) =>
        recvStorage := recvStorage[offset..];
        return Ok, WebsocketData(frame);
    }

    method HandleRecvBytesHttpResponse() returns (o: Outcome, event: Event)
      modifies this
      ensures ReadOut(Abs(), o, event) == TakeResponse(old(Abs()))
    {
      var parsed := Http.ResponseParse(recvStorage);
      match parsed
      case Panics => return Panic(StatusLine), NoData;
      case ParseError => return Ok, NoData;
      case Parsed(response) =>
        recvStorage := [];
        return Ok, HttpResponse(response);
    }

    method ReadBytesFromSocket(i: StepInput) returns (o: Outcome, event: Event)
      modifies this
      ensures ReadOut(Abs(), o, event) == ReadBytes(old(Abs()), i)
    {
      event := NoData;
      if !stream { return Panic(NoStream), event; }
      match i.read {
        case EndOfStream => return Err(ConnectionClose), event;
        case ReadError => return Err(IOError), event;
        case NothingYet =>
        case Received(bytes) =>
          trace := trace.(received := if Framing(connectionStatus) then trace.received + bytes else trace.received);
          recvStorage := recvStorage + bytes;
      }
      o := Ok;
      if |recvStorage| > 0 {
        match connectionStatus {
          case Handshake => o, event := HandleRecvBytesHttpResponse();
          case Open | ClientWantsToClose | ServerWantsToClose => o, event := HandleRecvBytesFrame();
          case _ =>
        }
      }
    }

    method InsertInputEvent(event: Event)
      modifies this
      ensures Abs() == InsertInput(old(Abs()), event)
    {
      match event
      case WebsocketData(frame) =>
        if frame.Kind() == Control {
          inputEvents := [event] + inputEvents;
        } else {
          inputEvents := inputEvents + [event];
        }
      case HttpResponse(_) => inputEvents := inputEvents + [event];
      case _ =>
    }

    method PopOutputEvent() returns (event: Option<Event>)
      modifies this
      ensures PopOut(Abs(), event) == PopOutput(old(Abs()))
    {
      event := None;
      if outputEvents == [] { return; }
      event := Some(outputEvents[0]);
      outputEvents := outputEvents[1..];
      if connectionStatus == Handshake && event.value.WebsocketData? {
        outputEvents := [event.value] + outputEvents;
        event := None;
      }
    }

    method HandleRecvFrame(frame: Frame, i: StepInput) returns (o: Outcome)
      modifies this
      ensures Result(Abs(), o) == HandleFrame(old(Abs()), frame, i)
    {
      trace := trace.(dispatched := trace.dispatched + [frame]);
      match frame.Kind()
      case Data =>
        if frame.header.flag != FIN {
          recvData := recvData + frame.data;
        }
        if callback {
          if !Utf8.Valid(frame.data) { return Err(DecodingFromUtf8); }
          if recvData == [] {
            o := RunCallback(OnText(frame.data), i.inputSends);
            return;
          } else {
            if !Utf8.Valid(recvData) { return Err(DecodingFromUtf8); }
            o := RunCallback(OnText(recvData + frame.data), i.inputSends);
            if !o.Ok? { return; }
            recvData := [];
          }
        }
        return Ok;
      case Control =>
        if !frame.ControlFrame? { return Panic(Downcast); }
        o := HandleControlFrame(frame, i);
      case NotDefine => return Err(InvalidFrame);
    }

    method HandleControlFrame(frame: Frame, i: StepInput) returns (o: Outcome)
      requires frame.ControlFrame?
      modifies this
      ensures Result(Abs(), o) == HandleControl(old(Abs()), frame, i)
    {
      if frame.header.opcode == PING {
        var pong := NewControlFrame(FIN, PONG, None, frame.data, Some(i.mask));
        outputEvents := [WebsocketData(pong)] + outputEvents;
        return Ok;
      } else if frame.header.opcode == PONG {
        return Panic(PongUnimplemented);
      } else if frame.header.opcode == CLOSE {
        o := HandleCloseFrame(frame, i);
      } else {
        return Err(InvalidFrame);
      }
    }

    /** The CLOSE branch of handle_control_frame. */
    method HandleCloseFrame(frame: Frame, i: StepInput) returns (o: Outcome)
      requires frame.ControlFrame?
      modifies this
      ensures Result(Abs(), o) == HandleClose(old(Abs()), frame, i)
    {
      var data := frame.data;
      if |data| < 2 { return Panic(ShortClose); }
      match connectionStatus
      case Open =>
        var code := StatusFromBits(BytesToU16(data[..2]).value);
        var statusCode := if code.Some? then code.value else PROTOCOL_ERROR;
        if EvaluateStatusCode(statusCode).0 { statusCode := PROTOCOL_ERROR; }
        inputEvents := [];
        var close := NewControlFrame(FIN, CLOSE, Some(statusCode), data[2..], Some(i.mask));
        outputEvents := [WebsocketData(close)];
        connectionStatus := ServerWantsToClose;
        return Ok;
      case ClientWantsToClose =>
        connectionStatus := Closed;
        if !stream { return Panic(NoStream); }
        if !i.shutdownOk { return Err(IOError); }
        if callback {
          if frame.statusCode.None? { return Panic(MissingStatus); }
          o := RunCallback(OnClose(ClientClose(frame.statusCode.value)), i.inputSends);
          return;
        }
        return Ok;
      case _ => return Ok;
    }

    method HandleRecvHttpResponse(response: Http.Response, i: StepInput) returns (o: Outcome)
      modifies this
      ensures Result(Abs(), o) == HandleResponse(old(Abs()), response, i)
    {
      if connectionStatus != Handshake { return Ok; }
      var accept := response.Header(Literal("Sec-WebSocket-Accept"));
      if accept.None? { return Err(HandShake); }
      var accepted := i.verify(websocketKey, accept.value);
      if !accepted { return Err(HandShake); }
      if response.statusCode == 0 || response.statusCode != SWITCHING_PROTOCOLS { return Err(HandShake); }
      protocol := response.Header(Literal("Sec-WebSocket-Protocol"));
      connectionStatus := Open;
      if callback {
        o := RunCallback(OnConnect(response.body), i.inputSends);
        return;
      }
      o := Ok;
    }

    /** The write of these bytes succeeds, would block, or fails. */
    method TryWrite(bytes: seq<byte>, i: StepInput) returns (o: Outcome, sent: bool)
      modifies `trace
      ensures trace == if o == Ok && sent then old(trace).(wire := old(trace.wire) + bytes) else old(trace)
      ensures !stream ==> o == Panic(NoStream)
      ensures stream && i.write.WriteError? ==> o == Err(IOError)
      ensures stream && !i.write.WriteError? ==> o == Ok && sent == i.write.Sent?
    {
      if !stream { return Panic(NoStream), false; }
      match i.write
      case Sent => trace := trace.(wire := trace.wire + bytes); return Ok, true;
      case Blocked => return Ok, false;
      case WriteError => return Err(IOError), false;
    }

    method HandleSendFrame(frame: Frame, i: StepInput) returns (o: Outcome)
      modifies this
      ensures Result(Abs(), o) == Session.HandleSendFrame(old(Abs()), frame, i)
    {
      var bytes := Serialize(frame);
      var sent;
      o, sent := TryWrite(bytes, i);
      if !o.Ok? { return; }
      if sent { trace := trace.(written := trace.written + [WebsocketData(frame)]); }
      var status := None;
      if frame.Kind() == Control {
        if !frame.ControlFrame? { return Panic(Downcast); }
        status := frame.statusCode;
      }
      if !sent { outputEvents := [WebsocketData(frame)] + outputEvents; }
      if sent && frame.Kind() == Control && connectionStatus == ServerWantsToClose {
        o := Shutdown(status, i);
      }
    }

    /** The end of handle_send_frame, once the reply to the server's CLOSE is sent. */
    method Shutdown(status: Option<nat>, i: StepInput) returns (o: Outcome)
      modifies this
      ensures forall f: Frame | f.ControlFrame? && f.statusCode == status && old(stream) ::
                Result(Abs(), o) == EndByServer(old(Abs()), f, i)
    {
      connectionStatus := Closed;
      if !i.shutdownOk { return Err(IOError); }
      stream := false;
      o := Ok;
      if callback {
        o := RunCallback(OnClose(ServerClose(if status.Some? then status.value else 0)), i.outputSends);
      }
    }

    method HandleSendHttpRequest(request: Http.Request, i: StepInput) returns (o: Outcome)
      modifies this
      ensures Result(Abs(), o) == HandleSendRequest(old(Abs()), request, i)
    {
      var bytes := Http.SerializeRequest(request, i.order);
      var sent;
      o, sent := TryWrite(bytes, i);
      if !o.Ok? { return; }
      if sent {
        trace := trace.(written := trace.written + [HttpRequest(request)]);
      } else {
        outputEvents := [HttpRequest(request)] + outputEvents;
      }
    }

    method HandleEvent(event: Event, kind: EventIO, i: StepInput) returns (o: Outcome)
      modifies this
      ensures Result(Abs(), o) ==
              if kind.INPUT? then HandleInput(old(Abs()), event, i) else HandleOutput(old(Abs()), event, i)
    {
      o := Ok;
      match kind
      case INPUT =>
        match event {
          case WebsocketData(frame) => o := HandleRecvFrame(frame, i);
          case HttpResponse(response) => o := HandleRecvHttpResponse(response, i);
          case _ =>
        }
      case OUTPUT =>
        match event {
          case WebsocketData(frame) => o := HandleSendFrame(frame, i);
          case HttpRequest(request) => o := HandleSendHttpRequest(request, i);
          case _ =>
        }
    }

    method EventLoop(i: StepInput) returns (o: Outcome)
      modifies this
      ensures Result(Abs(), o) == Session.EventLoop(old(Abs()), i)
    {
      if connectionStatus == NotInit { return Ok; }
      if connectionStatus == Status.StartInit { o := StartInit(i); return; }
      if connectionStatus == Closed { return Err(ConnectionClose); }

      var event;
      o, event := ReadBytesFromSocket(i);
      if !o.Ok? { return; }
      InsertInputEvent(event);

      var inEvent := None;
      if inputEvents != [] {
        inEvent := Some(inputEvents[0]);
        inputEvents := inputEvents[1..];
      }
      var outEvent := PopOutputEvent();

      if inEvent.Some? {
        o := HandleEvent(inEvent.value, INPUT, i);
        if !o.Ok? { return; }
      }
      if outEvent.Some? {
        o := HandleEvent(outEvent.value, OUTPUT, i);
        if !o.Ok? { return; }
      }
      return Ok;
    }

    method Drop(mask: Mask, inputs: seq<StepInput>) returns (o: Outcome)
      modifies this
      ensures Result(Abs(), o) == Session.Drop(old(Abs()), mask, inputs)
    {
      if connectionStatus != NotInit && connectionStatus != Handshake && connectionStatus != Closed && stream {
        var close := NewControlFrame(FIN, CLOSE, Some(NORMAL_CLOSURE), DONE, Some(mask));
        inputEvents := [];
        outputEvents := [WebsocketData(close)];
        connectionStatus := ClientWantsToClose;
        o := AwaitClose(inputs);
      } else {
        o := Ok;
      }
    }

    /** The loop of Drop::drop and the shutdown after it; the timeout strikes when the inputs are used up. */
    method AwaitClose(inputs: seq<StepInput>) returns (o: Outcome)
      modifies this
      ensures Result(Abs(), o) == DropLoop(old(Abs()), inputs)
    {
      var k := 0;
      while connectionStatus != Closed && k < |inputs|
        invariant k <= |inputs|
        invariant DropLoop(old(Abs()), inputs) == DropLoop(Abs(), inputs[k..])
      {
        assert inputs[k..][0] == inputs[k] && inputs[k..][1..] == inputs[k + 1..];
        o := EventLoop(inputs[k]);
        if o.Panic? { return; }
        if o.Err? { break; }
        k := k + 1;
      }
      o := if stream then Ok else Panic(NoStream);
    }
  }

  lemma PushStep(queue: seq<Event>, frames: seq<Frame>, sent: seq<Frame>, f: Frame, rest: seq<Frame>)
    ensures queue + Events(sent + [f]) == queue + Events(sent) + [WebsocketData(f)]
    ensures frames + (sent + [f]) == frames + sent + [f]
    ensures sent + ([f] + rest) == sent + [f] + rest
  {
    assert Events(sent + [f]) == Events(sent) + [WebsocketData(f)];
  }
}
