/**
 * The client of websocket/src/sync/client.rs as a state machine on values. Every function is one
 * method of `WSClient`; the class in Client.dfy is proved to compute them. What the operating
 * system, the random generator and the user's callback do is the input of a step.
 */
module Session {
  import opened Bytes
  import opened Wrappers
  import opened Frames
  import opened Text
  import Http
  import Utf8

  type Positive = n: nat | n > 0 witness 1

  datatype Status =
    | NotInit
    | StartInit
    | Handshake
    | Open
    | ClientWantsToClose
    | ServerWantsToClose
    | Closed

  datatype Reason = ServerClose(code: nat) | ClientClose(code: nat)

  datatype WSEvent = OnConnect(body: Option<text>) | OnText(message: text) | OnClose(reason: Reason)

  datatype Error = UnreachableHost | HandShake | InvalidFrame | ConnectionClose | DecodingFromUtf8 | IOError

  /** Why a call never returns: an unwrap of None, a slice out of range, todo!(), or a loop without end. */
  datatype PanicKind =
    | NoStream | CharBoundary | Endless | FrameSlice | StatusLine | PongUnimplemented | EmptyProtocols
    | Downcast | ShortClose | MissingStatus

  datatype Outcome = Ok | Err(error: Error) | Panic(kind: PanicKind)

  datatype Event =
    | WebsocketData(frame: Frame)
    | HttpResponse(response: Http.Response)
    | HttpRequest(request: Http.Request)
    | NoData

  /** The fields of `WSClient`, then the trace of what the client has done, which no method reads. */
  datatype State = State(
    status: Status,
    path: text,
    messageSize: nat,
    hasStream: bool,
    recvStorage: seq<byte>,
    recvData: seq<byte>,
    hasCallback: bool,
    protocol: Option<text>,
    acceptable: Option<seq<text>>,
    key: text,
    inputEvents: seq<Event>,
    outputEvents: seq<Event>,
    // trace
    written: seq<Event>,      // events whose bytes went to the socket
    wire: seq<byte>,          // those bytes
    enqueued: seq<Frame>,     // frames that send queued
    payloads: seq<text>,      // payloads that send took
    received: seq<byte>,      // bytes read since the connection opened
    dispatched: seq<Frame>,   // frames handed to the frame handler
    callbacks: seq<WSEvent>)  // calls of the user's callback

  datatype Result = Result(s: State, outcome: Outcome)

  /** One call of send, with the mask that the generator yields for the fragment at each offset. */
  datatype SendCall = SendCall(payload: Slice, masks: nat -> Mask)

  type Chunk = c: seq<byte> | 1 <= |c| <= 1024 witness [0]

  datatype ReadResult = Received(bytes: Chunk) | NothingYet | EndOfStream | ReadError

  datatype WriteResult = Sent | Blocked | WriteError

  /** What the outside world does during one event loop iteration. */
  datatype StepInput = StepInput(
    connected: bool,                // TcpStream::connect succeeds
    nonblocking: bool,              // set_nonblocking succeeds
    key: text,                      // gen_key
    read: ReadResult,
    write: WriteResult,
    shutdownOk: bool,
    mask: Mask,                     // gen_mask for a reply frame
    order: Http.HashOrder,          // iteration order of the header map
    verify: (text, text) -> bool,   // verify_key
    inputSends: seq<SendCall>,      // calls of send from the callback while input is handled
    outputSends: seq<SendCall>)     // the same while output is handled

  datatype Config = Config(callback: bool, protocols: Option<seq<text>>)

  const DEFAULT_MESSAGE_SIZE: nat := 1024
  const SWITCHING_PROTOCOLS: nat := 101

  const FRESH: State :=
    State(NotInit, [], DEFAULT_MESSAGE_SIZE, false, [], [], false, None, None, [], [], [], [], [], [], [], [], [], [])

  function Init(s: State, path: text, config: Option<Config>): State {
    if config.None? then s.(path := path, status := StartInit)
    else
      s.(path := path, status := StartInit,
         hasCallback := config.value.callback, acceptable := config.value.protocols)
  }

  // ---- send ----

  function Min(a: nat, b: nat): nat {
    if a < b then a else b
  }

  /** The frame that send makes of the payload from offset `sent`. */
  function Fragment(payload: Slice, size: Positive, masks: nat -> Mask, sent: nat): Frame
    requires sent < |payload|
  {
    NewDataFrame(if sent + size >= |payload| then FIN else NOFLAG,
                 if sent == 0 then TEXT else CONTINUATION,
                 payload[sent..Min(sent + size, |payload|)],
                 Some(masks(sent)))
  }

  /** `payload[sent..i]` does not cut a character. */
  predicate CutOk(payload: Slice, size: Positive, sent: nat)
    requires sent < |payload|
  {
    Utf8.CharBoundary(payload, sent) && Utf8.CharBoundary(payload, Min(sent + size, |payload|))
  }

  /** The frames of the payload from offset `sent` on, up to the first cut inside a character. */
  function Fragments(payload: Slice, size: Positive, masks: nat -> Mask, sent: nat): seq<Frame>
    decreases |payload| - sent
  {
    if sent >= |payload| || !CutOk(payload, size, sent) then []
    else [Fragment(payload, size, masks, sent)] + Fragments(payload, size, masks, sent + size)
  }

  predicate CutsOk(payload: Slice, size: Positive, sent: nat)
    decreases |payload| - sent
  {
    sent >= |payload| || (CutOk(payload, size, sent) && CutsOk(payload, size, sent + size))
  }

  function Events(frames: seq<Frame>): (r: seq<Event>)
    ensures |r| == |frames|
  {
    seq(|frames|, i requires 0 <= i < |frames| => WebsocketData(frames[i]))
  }

  /** With message size 0 the loop over a non-empty payload queues empty frames for ever. */
  predicate Ends(size: nat, payload: Slice) {
    size > 0 || payload == []
  }

  function Send(s: State, c: SendCall): Result
  {
    if s.status.Closed? then Result(s, Ok)
    else if !Ends(s.messageSize, c.payload) then Result(s, Panic(Endless))
    else if s.messageSize == 0 then Result(s.(payloads := s.payloads + [c.payload]), Ok)
    else
      var frames := Fragments(c.payload, s.messageSize, c.masks, 0);
      var s := s.(outputEvents := s.outputEvents + Events(frames), enqueued := s.enqueued + frames);
      if CutsOk(c.payload, s.messageSize, 0) then Result(s.(payloads := s.payloads + [c.payload]), Ok)
      else Result(s, Panic(CharBoundary))
  }

  function SendAll(s: State, calls: seq<SendCall>): Result
    decreases |calls|
  {
    if calls == [] then Result(s, Ok)
    else
      var r := Send(s, calls[0]);
      if r.outcome.Ok? then SendAll(r.s, calls[1..]) else r
  }

  /** A call of the user's callback, which may call send. */
  function Fire(s: State, e: WSEvent, calls: seq<SendCall>): Result
  {
    SendAll(s.(callbacks := s.callbacks + [e]), calls)
  }

  // ---- start_init ----

  /** The protocols joined as the header wants them; the code cuts the last separator off again. */
  function JoinProtocols(protocols: seq<text>): text {
    if protocols == [] then [] else protocols[0] + [44, SPACE] + JoinProtocols(protocols[1..])
  }

  function RequestHeaders(key: text): Http.Headers {
    map[Literal("Upgrade") := Literal("websocket"),
        Literal("Connection") := Literal("Upgrade"),
        Literal("Sec-WebSocket-Key") := key,
        Literal("Sec-WebSocket-Version") := Literal("13"),
        Literal("User-agent") := Literal("rust-websocket-std")]
  }

  function HandshakeRequest(path: text, key: text, protocols: Option<text>): Http.Request {
    var headers := RequestHeaders(key);
    Http.Request(Http.GET, path, Literal("HTTP/1.1"),
      if protocols.None? then headers
      else headers[Literal("Sec-WebSocket-Protocol") := protocols.value])
  }

  function Connect(s: State, i: StepInput): Result {
    if !i.connected then Result(s, Err(UnreachableHost))
    else if s.acceptable.Some? && |JoinProtocols(s.acceptable.value)| < 2 then Result(s, Panic(EmptyProtocols))
    else
      var joined := if s.acceptable.None? then None
                    else
                      var all := JoinProtocols(s.acceptable.value);
                      Some(all[..|all| - 2]);
      var request := HandshakeRequest(s.path, i.key, joined);
      var s := s.(outputEvents := [HttpRequest(request)] + s.outputEvents, key := i.key);
      if !i.nonblocking then Result(s, Err(IOError))
      else Result(s.(hasStream := true, status := Handshake), Ok)
  }

  // ---- input ----

  predicate Framing(status: Status) {
    status.Open? || status.ClientWantsToClose? || status.ServerWantsToClose?
  }

  datatype ReadOut = ReadOut(s: State, outcome: Outcome, event: Event)

  function TakeFrame(s: State): ReadOut {
    match Parse(s.recvStorage)
    case Panics => ReadOut(s, Panic(FrameSlice), NoData)
    case Invalid => ReadOut(s, Err(InvalidFrame), NoData)
    case NeedMore => ReadOut(s, Ok, NoData)
    case Complete(frame, offset) =>
      ReadOut(s.(recvStorage := s.recvStorage[offset..]), Ok, WebsocketData(frame))
  }

  function TakeResponse(s: State): ReadOut {
    match Http.ParseResponse(s.recvStorage)
    case Panics => ReadOut(s, Panic(StatusLine), NoData)
    case ParseError => ReadOut(s, Ok, NoData)
    case Parsed(response) => ReadOut(s.(recvStorage := []), Ok, HttpResponse(response))
  }

  /** The bytes of this read go to the storage; the trace starts once frames are expected. */
  function Store(s: State, bytes: seq<byte>): State {
    s.(recvStorage := s.recvStorage + bytes,
       received := if Framing(s.status) then s.received + bytes else s.received)
  }

  function ReadBytes(s: State, i: StepInput): ReadOut {
    if !s.hasStream then ReadOut(s, Panic(NoStream), NoData)
    else if i.read.EndOfStream? then ReadOut(s, Err(ConnectionClose), NoData)
    else if i.read.ReadError? then ReadOut(s, Err(IOError), NoData)
    else
      var s := if i.read.Received? then Store(s, i.read.bytes) else s;
      if s.recvStorage == [] then ReadOut(s, Ok, NoData)
      else if s.status.Handshake? then TakeResponse(s)
      else if Framing(s.status) then TakeFrame(s)
      else ReadOut(s, Ok, NoData)
  }

  function InsertInput(s: State, e: Event): State {
    match e
    case WebsocketData(f) =>
      if f.Kind().Control? then s.(inputEvents := [e] + s.inputEvents)
      else s.(inputEvents := s.inputEvents + [e])
    case HttpResponse(_) => s.(inputEvents := s.inputEvents + [e])
    case _ => s
  }

  function HandleFrame(s: State, f: Frame, i: StepInput): Result
  {
    var s := s.(dispatched := s.dispatched + [f]);
    match f.Kind()
    case Data => HandleData(s, f, i)
    case Control => if f.ControlFrame? then HandleControl(s, f, i) else Result(s, Panic(Downcast))
    case NotDefine => Result(s, Err(InvalidFrame))
  }

  function HandleData(s: State, f: Frame, i: StepInput): Result
  {
    var s := if f.header.flag != FIN then s.(recvData := s.recvData + f.data) else s;
    if !s.hasCallback then Result(s, Ok)
    else if !Utf8.Valid(f.data) then Result(s, Err(DecodingFromUtf8))
    else if s.recvData == [] then Fire(s, OnText(f.data), i.inputSends)
    else if !Utf8.Valid(s.recvData) then Result(s, Err(DecodingFromUtf8))
    else
      var r := Fire(s, OnText(s.recvData + f.data), i.inputSends);
      if r.outcome.Ok? then Result(r.s.(recvData := []), Ok) else r
  }

  function PongFor(f: Frame, mask: Mask): Frame {
    NewControlFrame(FIN, PONG, None, f.data, Some(mask))
  }

  /** The status that the close reply carries. */
  function ReplyStatus(code: nat): (c: nat)
    ensures c < U16_LIMIT
  {
    match StatusFromBits(code)
    case None => PROTOCOL_ERROR
    case Some(c) => if EvaluateStatusCode(c).0 then PROTOCOL_ERROR else c
  }

  function CloseReply(f: Frame, mask: Mask): Frame
    requires |f.data| >= 2
  {
    NewControlFrame(FIN, CLOSE, Some(ReplyStatus(BytesToU16(f.data[..2]).value)), f.data[2..], Some(mask))
  }

  function HandleControl(s: State, f: Frame, i: StepInput): Result
    requires f.ControlFrame?
  {
    if f.header.opcode == PING then
      Result(s.(outputEvents := [WebsocketData(PongFor(f, i.mask))] + s.outputEvents), Ok)
    else if f.header.opcode == PONG then Result(s, Panic(PongUnimplemented))
    else if f.header.opcode == CLOSE then HandleClose(s, f, i)
    else Result(s, Err(InvalidFrame))
  }

  function HandleClose(s: State, f: Frame, i: StepInput): Result
    requires f.ControlFrame?
  {
    if |f.data| < 2 then Result(s, Panic(ShortClose))
    else if s.status.Open? then
      Result(s.(outputEvents := [WebsocketData(CloseReply(f, i.mask))], inputEvents := [],
                status := ServerWantsToClose), Ok)
    else if s.status.ClientWantsToClose? then
      var s := s.(status := Closed);
      if !s.hasStream then Result(s, Panic(NoStream))
      else if !i.shutdownOk then Result(s, Err(IOError))
      else if !s.hasCallback then Result(s, Ok)
      else if f.statusCode.None? then Result(s, Panic(MissingStatus))
      else Fire(s, OnClose(ClientClose(f.statusCode.value)), i.inputSends)
    else Result(s, Ok)
  }

  function HandleResponse(s: State, r: Http.Response, i: StepInput): Result
  {
    if !s.status.Handshake? then Result(s, Ok)
    else
      var accept := r.Header(Literal("Sec-WebSocket-Accept"));
      if accept.None? || !i.verify(s.key, accept.value) then Result(s, Err(HandShake))
      else if r.statusCode != SWITCHING_PROTOCOLS then Result(s, Err(HandShake))
      else
        var s := s.(protocol := r.Header(Literal("Sec-WebSocket-Protocol")), status := Open);
        if s.hasCallback then Fire(s, OnConnect(r.body), i.inputSends) else Result(s, Ok)
  }

  function HandleInput(s: State, e: Event, i: StepInput): Result
  {
    match e
    case WebsocketData(f) => HandleFrame(s, f, i)
    case HttpResponse(r) => HandleResponse(s, r, i)
    case _ => Result(s, Ok)
  }

  // ---- output ----

  datatype PopOut = PopOut(s: State, event: Option<Event>)

  /** During the handshake a websocket event stays in the queue. */
  function PopOutput(s: State): PopOut {
    if s.outputEvents == [] || (s.status.Handshake? && s.outputEvents[0].WebsocketData?) then PopOut(s, None)
    else PopOut(s.(outputEvents := s.outputEvents[1..]), Some(s.outputEvents[0]))
  }

  function EventBytes(e: Event, i: StepInput): seq<byte> {
    match e
    case WebsocketData(f) => FrameBytes(f)
    case HttpRequest(r) => Http.RequestBytes(r, i.order(r.headers))
    case _ => []
  }

  /** The bytes of the event went to the socket. */
  function Wrote(s: State, e: Event, i: StepInput): State {
    s.(written := s.written + [e], wire := s.wire + EventBytes(e, i))
  }

  /** A blocked event goes back to the front; a control frame sent while the server closes ends the connection. */
  function HandleSendFrame(s: State, f: Frame, i: StepInput): Result
  {
    if !s.hasStream then Result(s, Panic(NoStream))
    else if i.write.WriteError? then Result(s, Err(IOError))
    else
      var s := if i.write.Sent? then Wrote(s, WebsocketData(f), i) else s;
      if f.Kind().Control? && !f.ControlFrame? then Result(s, Panic(Downcast))
      else if i.write.Blocked? then Result(s.(outputEvents := [WebsocketData(f)] + s.outputEvents), Ok)
      else if f.Kind().Control? && s.status.ServerWantsToClose? then EndByServer(s, f, i)
      else Result(s, Ok)
  }

  function EndByServer(s: State, f: Frame, i: StepInput): Result
    requires f.ControlFrame? && s.hasStream
  {
    var s := s.(status := Closed);
    if !i.shutdownOk then Result(s, Err(IOError))
    else
      var s := s.(hasStream := false);
      if s.hasCallback then
        Fire(s, OnClose(ServerClose(if f.statusCode.Some? then f.statusCode.value else 0)), i.outputSends)
      else Result(s, Ok)
  }

  function HandleSendRequest(s: State, r: Http.Request, i: StepInput): Result {
    if !s.hasStream then Result(s, Panic(NoStream))
    else if i.write.WriteError? then Result(s, Err(IOError))
    else if i.write.Blocked? then Result(s.(outputEvents := [HttpRequest(r)] + s.outputEvents), Ok)
    else Result(Wrote(s, HttpRequest(r), i), Ok)
  }

  function HandleOutput(s: State, e: Event, i: StepInput): Result
  {
    match e
    case WebsocketData(f) => HandleSendFrame(s, f, i)
    case HttpRequest(r) => HandleSendRequest(s, r, i)
    case _ => Result(s, Ok)
  }

  // ---- event_loop ----

  /** One event is taken from each queue; the output event is taken before the input event is handled. */
  function EventLoop(s: State, i: StepInput): Result
  {
    if s.status.NotInit? then Result(s, Ok)
    else if s.status.StartInit? then Connect(s, i)
    else if s.status.Closed? then Result(s, Err(ConnectionClose))
    else
      var r := ReadBytes(s, i);
      if !r.outcome.Ok? then Result(r.s, r.outcome) else Dispatch(InsertInput(r.s, r.event), i)
  }

  function Dispatch(s: State, i: StepInput): Result
  {
    var input := if s.inputEvents == [] then None else Some(s.inputEvents[0]);
    var s := if s.inputEvents == [] then s else s.(inputEvents := s.inputEvents[1..]);
    var out := PopOutput(s);
    var r := if input.Some? then HandleInput(out.s, input.value, i) else Result(out.s, Ok);
    if !r.outcome.Ok? || out.event.None? then r else HandleOutput(r.s, out.event.value, i)
  }

  // ---- drop ----

  const DONE: text := [68, 111, 110, 101]

  predicate MustClose(s: State) {
    !s.status.NotInit? && !s.status.Handshake? && !s.status.Closed? && s.hasStream
  }

  function BeginDrop(s: State, mask: Mask): State {
    s.(outputEvents := [WebsocketData(NewControlFrame(FIN, CLOSE, Some(NORMAL_CLOSURE), DONE, Some(mask)))],
       inputEvents := [], status := ClientWantsToClose)
  }

  /** The closing loop; the timeout strikes when the inputs are used up. */
  function DropLoop(s: State, inputs: seq<StepInput>): Result
    decreases |inputs|
  {
    if s.status.Closed? || inputs == [] then
      if s.hasStream then Result(s, Ok) else Result(s, Panic(NoStream))
    else
      var r := EventLoop(s, inputs[0]);
      if r.outcome.Panic? then r
      else if r.outcome.Err? then
        if r.s.hasStream then Result(r.s, Ok) else Result(r.s, Panic(NoStream))
      else DropLoop(r.s, inputs[1..])
  }

  function Drop(s: State, mask: Mask, inputs: seq<StepInput>): Result
  {
    if MustClose(s) then DropLoop(BeginDrop(s, mask), inputs) else Result(s, Ok)
  }
}
