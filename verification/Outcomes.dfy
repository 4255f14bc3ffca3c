/** What the next iteration returns, on every run: which error, and when, in terms of what it meets. */
module Outcomes {
  import opened Bytes
  import opened Wrappers
  import opened Frames
  import opened Text
  import opened Session
  import opened Outgoing
  import opened Runs
  import opened Lifecycle
  import opened Streaming
  import opened Opening
  import opened HttpRoundTrip
  import opened Failures
  import Http
  import Utf8

  datatype Verdict = Fine | Fails(error: Error) | Aborted

  function KindOf(o: Outcome): Verdict {
    match o
    case Ok => Fine
    case Err(e) => Fails(e)
    case Panic(_) => Aborted
  }

  // ---- What an iteration meets ----

  /** A frame: opcodes 3 and 11, PONG, text, CLOSE, PING. */
  ghost function FrameVerdict(s: State, f: Frame, i: StepInput): (v: Verdict)
    ensures v in {Fine, Aborted, Fails(InvalidFrame), Fails(DecodingFromUtf8), Fails(IOError)}
  {
    if f.header.opcode == 3 || f.header.opcode == 11 then Fails(InvalidFrame)
    else if f.header.opcode == PONG then Aborted
    else if f.header.opcode < 3 then
      if !s.hasCallback then Fine
      else if Undecodable(s, f) then Fails(DecodingFromUtf8)
      else if AllFit(s.messageSize, i.inputSends) then Fine
      else Aborted
    else if f.header.opcode == CLOSE && s.status.ClientWantsToClose? && !i.shutdownOk then Fails(IOError)
    else Fine
  }

  ghost function BytesVerdict(s: State, b: seq<byte>, i: StepInput): (v: Verdict)
    ensures v in {Fine, Aborted, Fails(InvalidFrame), Fails(DecodingFromUtf8), Fails(IOError)}
  {
    match Parse(b)
    case NeedMore => Fine
    case Invalid => Fails(InvalidFrame)
    case Panics => Aborted
    case Complete(f, _) => FrameVerdict(s, f, i)
  }

  /** A response: cut short, not parsed (yet), accepted, or not. */
  ghost function ResponseVerdict(s: State, b: seq<byte>, i: StepInput): (v: Verdict)
    ensures v in {Fine, Aborted, Fails(HandShake)}
  {
    if ResponsePanics(s, b, i) then Aborted
    else
      match Http.ParseResponse(b)
      case Parsed(r) => if Accepted(s, r, i) then Fine else Fails(HandShake)
      case _ => Fine
  }

  ghost function InputVerdict(s: State, i: StepInput): Verdict {
    if i.read.EndOfStream? then Fails(ConnectionClose)
    else if i.read.ReadError? then Fails(IOError)
    else
      var b := Stored(s, i).recvStorage;
      if b == [] then Fine
      else if s.status.Handshake? then ResponseVerdict(s, b, i)
      else BytesVerdict(s, b, i)
  }

  /** The head of the queue is up for writing, unless it is a frame during the handshake. */
  predicate Writes(s: State) {
    s.outputEvents != [] && !(s.status.Handshake? && s.outputEvents[0].WebsocketData?)
  }

  /** The server is closing, or its CLOSE is in the storage. */
  predicate ServerCloses(s: State, i: StepInput) {
    || s.status.ServerWantsToClose?
    || (s.status.Open? && Found(s, i).Some? && Found(s, i).value.header.opcode == CLOSE)
  }

  function OutputVerdict(s: State, i: StepInput): (v: Verdict)
    ensures v in {Fine, Fails(IOError)}
  {
    if !Writes(s) then Fine
    else if i.write.WriteError? then Fails(IOError)
    else if i.write.Sent? && ServerCloses(s, i) && s.outputEvents[0].WebsocketData? &&
            ControlOpcode(s.outputEvents[0].frame.header.opcode) && !i.shutdownOk then Fails(IOError)
    else Fine
  }

  ghost function LoopVerdict(s: State, i: StepInput): Verdict {
    match s.status
    case NotInit => Fine
    case StartInit =>
      if !i.connected then Fails(UnreachableHost)
      else if s.acceptable == Some([]) then Aborted
      else if !i.nonblocking then Fails(IOError)
      else Fine
    case Closed => Fails(ConnectionClose)
    case _ => if InputVerdict(s, i).Fine? then OutputVerdict(s, i) else InputVerdict(s, i)
  }

  // ---- The handlers ----

  lemma FrameKind(s: State, f: Frame, i: StepInput)
    requires Framing(s.status) && s.hasStream && Incoming(f)
    ensures KindOf(HandleFrame(s, f, i).outcome) == FrameVerdict(s, f, i)
  {
    FrameOutcome(s, f, i);
    var t := s.(dispatched := s.dispatched + [f]);
    if f.Kind().Data? {
      DataOutcome(t, f, i);
    } else if f.header.opcode == CLOSE && s.status.ClientWantsToClose? {
      var u := t.(status := Closed);
      ClosedSendsNothing(u.(callbacks := u.callbacks + [OnClose(ClientClose(f.statusCode.value))]), i.inputSends);
    }
  }

  lemma ParsedKind(s: State, r: Http.Response, i: StepInput)
    requires s.status.Handshake?
    ensures KindOf(HandleResponse(s, r, i).outcome) ==
            if !Accepted(s, r, i) then Fails(HandShake)
            else if s.hasCallback && !AllFit(s.messageSize, i.inputSends) then Aborted
            else Fine
  {
    if Accepted(s, r, i) {
      var t := s.(protocol := r.Header(Literal("Sec-WebSocket-Protocol")), status := Open);
      FireOkIff(t, OnConnect(r.body), i.inputSends);
    } else {
      ResponseAnswered(s, r, i);
    }
  }

  /** What the verdict amounts to, by what the parser makes of the bytes. */
  lemma ResponseCases(s: State, b: seq<byte>, i: StepInput)
    ensures var p := Http.ParseResponse(b);
            ResponseVerdict(s, b, i) ==
            if p.Panics? then Aborted
            else if p.ParseError? then Fine
            else if !Accepted(s, p.response, i) then Fails(HandShake)
            else if s.hasCallback && !AllFit(s.messageSize, i.inputSends) then Aborted
            else Fine
  {
    ParsePanicsIff(Utf8.Lossy(b));
  }

  // ---- The first half of an iteration ----

  function InputOutcome(s: State, i: StepInput): Outcome {
    var r := ReadBytes(s, i);
    if !r.outcome.Ok? then r.outcome else HandleInput(PopOutput(r.s).s, r.event, i).outcome
  }

  lemma FramingInput(s: State, i: StepInput)
    requires Healthy(s) && Framing(s.status)
    ensures KindOf(InputOutcome(s, i)) == InputVerdict(s, i)
  {
    ReadKeepsQueues(s, i);
    ReadSound(s, i);
    var r := ReadBytes(s, i);
    if r.event.WebsocketData? {
      ReadTakes(s, i);
      FrameKind(PopOutput(r.s).s, r.event.frame, i);
    }
  }

  lemma HandshakeReads(s: State, i: StepInput)
    requires s.hasStream && s.status.Handshake? && (i.read.Received? || i.read.NothingYet?)
    ensures var r, b := ReadBytes(s, i), Stored(s, i).recvStorage;
            if b == [] then r.outcome.Ok? && r.event.NoData?
            else
              match Http.ParseResponse(b)
              case Panics => r.outcome.Panic?
              case ParseError => r.outcome.Ok? && r.event.NoData?
              case Parsed(p) => r.outcome.Ok? && r.event == HttpResponse(p)
  {
  }

  lemma HandshakeInput(s: State, i: StepInput)
    requires s.hasStream && s.status.Handshake?
    ensures KindOf(InputOutcome(s, i)) == InputVerdict(s, i)
  {
    if i.read.Received? || i.read.NothingYet? {
      ReadKeepsQueues(s, i);
      HandshakeReads(s, i);
      var r, b := ReadBytes(s, i), Stored(s, i).recvStorage;
      if r.event.HttpResponse? {
        HandshakeEvent(s, PopOutput(r.s).s, b, r.event.response, i);
        assert InputVerdict(s, i) == ResponseVerdict(s, b, i);
      } else {
        ResponseCases(s, b, i);
      }
    }
  }

  lemma HandshakeEvent(s: State, t: State, b: seq<byte>, p: Http.Response, i: StepInput)
    requires t.status.Handshake? && Http.ParseResponse(b) == Http.Parsed(p)
    requires t.key == s.key && t.hasCallback == s.hasCallback && t.messageSize == s.messageSize
    ensures KindOf(HandleInput(t, HttpResponse(p), i).outcome) == ResponseVerdict(s, b, i)
  {
    ResponseCases(s, b, i);
    ParsedKind(t, p, i);
  }

  // ---- The second half ----

  /** Which frames change the status, whatever else happens. */
  lemma FrameStatus(s: State, f: Frame, i: StepInput)
    requires Framing(s.status) && Incoming(f)
    ensures HandleFrame(s, f, i).s.status ==
            if f.header.opcode != CLOSE || s.status.ServerWantsToClose? then s.status
            else if s.status.Open? then ServerWantsToClose
            else Closed
  {
    var t := s.(dispatched := s.dispatched + [f]);
    if f.Kind().Data? {
      var u := if f.header.flag != FIN then t.(recvData := t.recvData + f.data) else t;
      var m := if u.recvData == [] then f.data else u.recvData + f.data;
      var fs, ps := SendAllEffect(u.(callbacks := u.callbacks + [OnText(m)]), i.inputSends);
    } else if f.header.opcode == CLOSE && s.status.ClientWantsToClose? {
      var u := t.(status := Closed);
      var e := OnClose(ClientClose(f.statusCode.value));
      var fs, ps := SendAllEffect(u.(callbacks := u.callbacks + [e]), i.inputSends);
    }
  }

  lemma OutputKind(s: State, e: Event, i: StepInput)
    requires s.hasStream && OutEvent(e)
    ensures KindOf(HandleOutput(s, e, i).outcome) ==
            if i.write.WriteError? then Fails(IOError)
            else if i.write.Sent? && s.status.ServerWantsToClose? && e.WebsocketData? &&
                    ControlOpcode(e.frame.header.opcode) && !i.shutdownOk then Fails(IOError)
            else Fine
  {
    OutputNeverPanics(s, e, i);
    if e.WebsocketData? && e.frame.ControlFrame? && i.shutdownOk {
      var code := if e.frame.statusCode.Some? then e.frame.statusCode.value else 0;
      var u := Wrote(s, e, i).(status := Closed, hasStream := false);
      ClosedSendsNothing(u.(callbacks := u.callbacks + [OnClose(ServerClose(code))]), i.outputSends);
    }
  }

  /** Between the two halves the server is closing exactly if it was, or its CLOSE has just come. */
  lemma ClosesBetween(s: State, i: StepInput)
    requires Healthy(s) && Connected(s.status) && InputOutcome(s, i).Ok?
    ensures HandleInput(PopOutput(ReadBytes(s, i).s).s, ReadBytes(s, i).event, i).s.status.ServerWantsToClose?
            <==> ServerCloses(s, i)
  {
    ReadKeepsQueues(s, i);
    ReadSound(s, i);
    var r := ReadBytes(s, i);
    var t := PopOutput(r.s).s;
    if Framing(s.status) {
      ReadTakes(s, i);
      if r.event.WebsocketData? {
        FrameStatus(t, r.event.frame, i);
      }
    } else if r.event.HttpResponse? {
      ResponseAnswered(t, r.event.response, i);
    }
  }

  lemma TurnKind(s: State, i: StepInput)
    requires Healthy(s) && Connected(s.status)
    ensures KindOf(Turn(s, i).outcome) == LoopVerdict(s, i)
  {
    if s.status.Handshake? {
      HandshakeInput(s, i);
    } else {
      FramingInput(s, i);
    }
    if InputOutcome(s, i).Ok? {
      WriteKind(s, i);
    }
  }

  lemma WriteKind(s: State, i: StepInput)
    requires Healthy(s) && Connected(s.status) && InputOutcome(s, i).Ok?
    ensures KindOf(Turn(s, i).outcome) == OutputVerdict(s, i)
  {
    ReadKeepsQueues(s, i);
    ReadSound(s, i);
    var r := ReadBytes(s, i);
    PopSound(r.s);
    var out := PopOutput(r.s);
    InputSound(out.s, r.event, i);
    ClosesBetween(s, i);
    if out.event.Some? {
      OutputKind(HandleInput(out.s, r.event, i).s, out.event.value, i);
    }
  }

  /**
   * On every run of a client initialised at most once, failures and the drop included: whether the next
   * iteration succeeds, panics or fails, and with which error, is what LoopVerdict says of the status,
   * the protocols, the read, the bytes in the storage, the write, the shutdown and the callback's
   * payloads.
   */
  lemma NextIterationOutcome(acts: seq<Action>, i: StepInput)
    requires SingleInit(FRESH, acts)
    ensures KindOf(EventLoop(After(FRESH, acts), i).outcome) == LoopVerdict(After(FRESH, acts), i)
  {
    RunSound(FRESH, acts);
    var s := After(FRESH, acts);
    if Connected(s.status) {
      EventLoopIsTurn(s, i);
      TurnKind(s, i);
    } else if s.acceptable.Some? {
      NoProtocols(s.acceptable.value);
    }
  }

  /** The read brings the bytes in the storage to be looked at. */
  predicate Looks(s: State, i: StepInput) {
    (i.read.Received? || i.read.NothingYet?) && Stored(s, i).recvStorage != []
  }

  /** A complete response that is not accepted. */
  predicate BadResponse(s: State, i: StepInput) {
    && s.status.Handshake? && Looks(s, i)
    && var p := Http.ParseResponse(Stored(s, i).recvStorage);
       p.Parsed? && !Accepted(s, p.response, i)
  }

  /** Bytes that the parser rejects, or a whole frame with opcode 3 or 11. */
  predicate BadFrame(s: State, i: StepInput) {
    && Framing(s.status) && Looks(s, i)
    && var p := Parse(Stored(s, i).recvStorage);
       p.Invalid? || (p.Complete? && (p.frame.header.opcode == 3 || p.frame.header.opcode == 11))
  }

  /** A whole data frame that cannot be reported. */
  predicate BadText(s: State, i: StepInput) {
    && Framing(s.status) && Looks(s, i) && s.hasCallback
    && var p := Parse(Stored(s, i).recvStorage);
       p.Complete? && p.frame.header.opcode < 3 && Undecodable(s, p.frame)
  }

  /**
   * On every run of a client initialised at most once, when the next iteration returns each error.
   * IOError is what remains: a failing set_nonblocking, read, write or shutdown.
   */
  lemma ErrorsIff(acts: seq<Action>, i: StepInput)
    requires SingleInit(FRESH, acts)
    ensures var s := After(FRESH, acts);
            var o := EventLoop(s, i).outcome;
            && (o == Err(UnreachableHost) <==> s.status.StartInit? && !i.connected)
            && (o == Err(ConnectionClose) <==> s.status.Closed? || (Connected(s.status) && i.read.EndOfStream?))
            && (o == Err(HandShake) <==> BadResponse(s, i))
            && (o == Err(InvalidFrame) <==> BadFrame(s, i))
            && (o == Err(DecodingFromUtf8) <==> BadText(s, i))
  {
    NextIterationOutcome(acts, i);
    VerdictErrors(After(FRESH, acts), i);
  }

  lemma VerdictErrors(s: State, i: StepInput)
    ensures var v := LoopVerdict(s, i);
            && (v == Fails(UnreachableHost) <==> s.status.StartInit? && !i.connected)
            && (v == Fails(ConnectionClose) <==> s.status.Closed? || (Connected(s.status) && i.read.EndOfStream?))
            && (v == Fails(HandShake) <==> BadResponse(s, i))
            && (v == Fails(InvalidFrame) <==> BadFrame(s, i))
            && (v == Fails(DecodingFromUtf8) <==> BadText(s, i))
  {
    var o := OutputVerdict(s, i);
    if Connected(s.status) {
      InputErrors(s, i);
    }
  }

  lemma InputErrors(s: State, i: StepInput)
    requires Connected(s.status)
    ensures var v := InputVerdict(s, i);
            && v != Fails(UnreachableHost)
            && (v == Fails(ConnectionClose) <==> i.read.EndOfStream?)
            && (v == Fails(HandShake) <==> BadResponse(s, i))
            && (v == Fails(InvalidFrame) <==> BadFrame(s, i))
            && (v == Fails(DecodingFromUtf8) <==> BadText(s, i))
  {
    if s.status.Handshake? {
      ResponseRefused(s, Stored(s, i).recvStorage, i);
    }
  }

  lemma ResponseRefused(s: State, b: seq<byte>, i: StepInput)
    ensures var p := Http.ParseResponse(b);
            ResponseVerdict(s, b, i) == Fails(HandShake) <==> p.Parsed? && !Accepted(s, p.response, i)
  {
    ResponseCases(s, b, i);
  }

  /** Before init an iteration does nothing; once the connection is closed it does nothing and fails. */
  lemma NothingBeforeOrAfter(s: State, i: StepInput)
    ensures s.status.NotInit? ==> EventLoop(s, i) == Result(s, Ok)
    ensures s.status.Closed? ==> EventLoop(s, i) == Result(s, Err(ConnectionClose))
  {
  }

  /** So no successful run goes on iterating after the end. */
  lemma TheEndIsFinal(acts: seq<Action>, i: StepInput, more: seq<Action>)
    requires SingleInit(FRESH, acts) && After(FRESH, acts).status.Closed?
    ensures !OkRun(FRESH, acts + ([Iterate(i)] + more))
  {
    RunConcat(FRESH, acts, [Iterate(i)] + more);
    ErrorsIff(acts, i);
    assert ([Iterate(i)] + more)[0] == Iterate(i);
  }
}
