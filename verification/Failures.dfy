/**
 * Iterations that fail: which ones they are, in terms of the bytes in the storage, when they panic,
 * and what they lose.
 */
module Failures {
  import opened Bytes
  import opened Wrappers
  import opened Frames
  import opened Text
  import opened Session
  import opened Outgoing
  import opened Runs
  import opened Lifecycle
  import opened Output
  import opened Writes
  import opened Streaming
  import opened Opening
  import opened HttpRoundTrip
  import Fragmentation
  import Http
  import Utf8

  // ---- send ----

  /** send gets through: there is nothing to cut, or no cut falls inside a character. */
  ghost predicate Fits(size: nat, payload: Slice) {
    payload == [] || (size > 0 && forall k | 0 <= k < |payload| && k % size == 0 :: Utf8.CharBoundary(payload, k))
  }

  ghost predicate AllFit(size: nat, calls: seq<SendCall>) {
    forall k | 0 <= k < |calls| :: Fits(size, calls[k].payload)
  }

  lemma SendOkIff(s: State, c: SendCall)
    requires !s.status.Closed?
    ensures Send(s, c).outcome.Ok? <==> Fits(s.messageSize, c.payload)
    ensures Send(s, c).s.messageSize == s.messageSize && Send(s, c).s.status == s.status
  {
    if s.messageSize > 0 {
      Fragmentation.CutsOkIff(c.payload, s.messageSize, 0);
    }
  }

  lemma {:induction false} SendAllOkIff(s: State, calls: seq<SendCall>)
    requires !s.status.Closed?
    ensures SendAll(s, calls).outcome.Ok? <==> AllFit(s.messageSize, calls)
    decreases |calls|
  {
    if calls != [] {
      SendOkIff(s, calls[0]);
      if Fits(s.messageSize, calls[0].payload) {
        SendAllOkIff(Send(s, calls[0]).s, calls[1..]);
        assert forall k | 1 <= k < |calls| :: calls[k] == calls[1..][k - 1];
        assert forall k | 0 <= k < |calls[1..]| :: calls[1..][k] == calls[k + 1];
      }
    }
  }

  /** The payloads of calls of send, in order. */
  function PayloadsOf(calls: seq<SendCall>): (r: seq<text>)
    ensures |r| == |calls|
  {
    seq(|calls|, k requires 0 <= k < |calls| => calls[k].payload)
  }

  /** Calls that get through are all taken, in order. */
  lemma {:induction false} SendAllTakes(s: State, calls: seq<SendCall>)
    requires !s.status.Closed? && AllFit(s.messageSize, calls)
    ensures SendAll(s, calls).s.payloads == s.payloads + PayloadsOf(calls)
    decreases |calls|
  {
    if calls == [] {
      assert s.payloads + [] == s.payloads;
    } else {
      SendOkIff(s, calls[0]);
      var fs, ps := SendEffect(s, calls[0]);
      assert forall k | 0 <= k < |calls[1..]| :: calls[1..][k] == calls[k + 1];
      SendAllTakes(Send(s, calls[0]).s, calls[1..]);
      assert PayloadsOf(calls) == [calls[0].payload] + PayloadsOf(calls[1..]);
    }
  }

  lemma FireOkIff(s: State, e: WSEvent, calls: seq<SendCall>)
    requires !s.status.Closed?
    ensures Fire(s, e, calls).outcome.Ok? <==> AllFit(s.messageSize, calls)
    ensures !Fire(s, e, calls).outcome.Err?
  {
    SendAllOkIff(s.(callbacks := s.callbacks + [e]), calls);
    var fs, ps := SendAllEffect(s.(callbacks := s.callbacks + [e]), calls);
  }

  // ---- Input ----

  /** The bytes to report are not UTF-8. */
  predicate Undecodable(s: State, f: Frame) {
    !Utf8.Valid(f.data) || !Utf8.Valid(if f.header.flag != FIN then s.recvData + f.data else s.recvData)
  }

  /** Frames whose handling ends in an error, unless the client is closing. */
  predicate Refused(s: State, f: Frame) {
    || f.Kind().NotDefine?
    || (f.Kind().Data? && s.hasCallback && Undecodable(s, f))
  }

  /** Frames whose handling panics: a PONG, and a text if the callback sends what does not fit. */
  ghost predicate Aborts(s: State, f: Frame, i: StepInput) {
    || f.header.opcode == PONG
    || (f.Kind().Data? && s.hasCallback && !Undecodable(s, f) && !AllFit(s.messageSize, i.inputSends))
  }

  lemma DataOutcome(s: State, f: Frame, i: StepInput)
    requires !s.status.Closed?
    ensures HandleData(s, f, i).outcome.Err? <==> s.hasCallback && Undecodable(s, f)
    ensures HandleData(s, f, i).outcome.Panic? <==>
              s.hasCallback && !Undecodable(s, f) && !AllFit(s.messageSize, i.inputSends)
  {
    var t := if f.header.flag != FIN then s.(recvData := s.recvData + f.data) else s;
    FireOkIff(t, OnText(f.data), i.inputSends);
    FireOkIff(t, OnText(t.recvData + f.data), i.inputSends);
  }

  lemma FrameOutcome(s: State, f: Frame, i: StepInput)
    requires Framing(s.status) && s.hasStream && Incoming(f)
    ensures HandleFrame(s, f, i).outcome.Panic? <==> Aborts(s, f, i)
    ensures !s.status.ClientWantsToClose? ==> (HandleFrame(s, f, i).outcome.Err? <==> Refused(s, f))
  {
    var t := s.(dispatched := s.dispatched + [f]);
    if f.Kind().Data? {
      DataOutcome(t, f, i);
    } else if f.header.opcode == CLOSE && s.status.ClientWantsToClose? {
      var u := t.(status := Closed);
      ClosedSendsNothing(u.(callbacks := u.callbacks + [OnClose(ClientClose(f.statusCode.value))]), i.inputSends);
    }
  }

  lemma ResponseOutcome(s: State, r: Http.Response, i: StepInput)
    requires s.status.Handshake?
    ensures HandleResponse(s, r, i).outcome.Panic? <==>
              Accepted(s, r, i) && s.hasCallback && !AllFit(s.messageSize, i.inputSends)
  {
    var t := s.(protocol := r.Header(Literal("Sec-WebSocket-Protocol")), status := Open);
    FireOkIff(t, OnConnect(r.body), i.inputSends);
  }

  lemma OutputNeverPanics(s: State, e: Event, i: StepInput)
    requires s.hasStream && OutEvent(e)
    ensures !HandleOutput(s, e, i).outcome.Panic?
  {
    if e.WebsocketData? && e.frame.ControlFrame? {
      var code := if e.frame.statusCode.Some? then e.frame.statusCode.value else 0;
      var u := Wrote(s, e, i).(status := Closed, hasStream := false);
      ClosedSendsNothing(u.(callbacks := u.callbacks + [OnClose(ServerClose(code))]), i.outputSends);
    }
  }

  // ---- When an iteration panics ----

  /**
   * A response whose header is complete has a status line that is cut short, or it opens the
   * connection to a callback that panics.
   */
  ghost predicate ResponsePanics(s: State, b: seq<byte>, i: StepInput) {
    var message := Utf8.Lossy(b);
    || (Find(message, BLANK).Some? && Http.CutShort(FirstLine(message)))
    || (var p := Http.ParseText(message);
        p.Parsed? && Accepted(s, p.response, i) && s.hasCallback && !AllFit(s.messageSize, i.inputSends))
  }

  ghost predicate FramePanics(s: State, b: seq<byte>, i: StepInput) {
    match Parse(b)
    case Panics => true
    case Complete(f, _) => Aborts(s, f, i)
    case _ => false
  }

  /** What makes a call of event_loop panic. */
  ghost predicate LoopPanics(s: State, i: StepInput) {
    || (s.status.StartInit? && i.connected && s.acceptable == Some([]))
    || (Connected(s.status) && (i.read.Received? || i.read.NothingYet?) && Stored(s, i).recvStorage != [] &&
        if s.status.Handshake? then ResponsePanics(s, Stored(s, i).recvStorage, i)
        else FramePanics(s, Stored(s, i).recvStorage, i))
  }

  lemma TurnPanicsIff(s: State, i: StepInput)
    requires Healthy(s) && Connected(s.status)
    ensures Turn(s, i).outcome.Panic? <==> LoopPanics(s, i)
  {
    ReadKeepsQueues(s, i);
    ReadSound(s, i);
    var r := ReadBytes(s, i);
    if r.outcome.Ok? {
      PopSound(r.s);
      var out := PopOutput(r.s);
      InputPanicsIff(s, i);
      InputSound(out.s, r.event, i);
      var h := HandleInput(out.s, r.event, i);
      if h.outcome.Ok? && out.event.Some? {
        OutputNeverPanics(h.s, out.event.value, i);
      }
    } else {
      ReadPanicsIff(s, i);
    }
  }

  lemma ReadPanicsIff(s: State, i: StepInput)
    requires Healthy(s) && Connected(s.status) && !ReadBytes(s, i).outcome.Ok?
    ensures ReadBytes(s, i).outcome.Panic? <==> LoopPanics(s, i)
  {
    ParsePanicsIff(Utf8.Lossy(Stored(s, i).recvStorage));
  }

  lemma InputPanicsIff(s: State, i: StepInput)
    requires Healthy(s) && Connected(s.status) && ReadBytes(s, i).outcome.Ok?
    ensures HandleInput(PopOutput(ReadBytes(s, i).s).s, ReadBytes(s, i).event, i).outcome.Panic? <==> LoopPanics(s, i)
  {
    if s.status.Handshake? {
      ResponseInputPanicsIff(s, i);
    } else {
      FrameInputPanicsIff(s, i);
    }
  }

  lemma ResponseInputPanicsIff(s: State, i: StepInput)
    requires s.hasStream && s.status.Handshake? && ReadBytes(s, i).outcome.Ok?
    ensures HandleInput(PopOutput(ReadBytes(s, i).s).s, ReadBytes(s, i).event, i).outcome.Panic? <==> LoopPanics(s, i)
  {
    ReadKeepsQueues(s, i);
    var r := ReadBytes(s, i);
    ParsePanicsIff(Utf8.Lossy(Stored(s, i).recvStorage));
    if r.event.HttpResponse? {
      ResponseOutcome(PopOutput(r.s).s, r.event.response, i);
    }
  }

  lemma FrameInputPanicsIff(s: State, i: StepInput)
    requires Healthy(s) && Framing(s.status) && ReadBytes(s, i).outcome.Ok?
    ensures HandleInput(PopOutput(ReadBytes(s, i).s).s, ReadBytes(s, i).event, i).outcome.Panic? <==> LoopPanics(s, i)
  {
    ReadKeepsQueues(s, i);
    ReadSound(s, i);
    ReadTakes(s, i);
    var r := ReadBytes(s, i);
    if r.event.WebsocketData? {
      FrameOutcome(PopOutput(r.s).s, r.event.frame, i);
    }
  }

  /**
   * On every run of a client initialised at most once, failures included: the next iteration panics
   * if and only if the list of protocols to offer is empty, the status line of the response is cut
   * short, the parser of frames panics on the storage, a PONG is complete in it, or the callback sends
   * a payload that does not fit.
   */
  lemma NextIterationPanicsIff(acts: seq<Action>, i: StepInput)
    requires SingleInit(FRESH, acts)
    ensures EventLoop(After(FRESH, acts), i).outcome.Panic? <==> LoopPanics(After(FRESH, acts), i)
  {
    RunSound(FRESH, acts);
    var s := After(FRESH, acts);
    if Connected(s.status) {
      EventLoopIsTurn(s, i);
      TurnPanicsIff(s, i);
    } else if s.acceptable.Some? {
      NoProtocols(s.acceptable.value);
    }
  }

  // ---- What a failing iteration loses ----

  /** No data frame is lost: written and queued, they are those ever queued. */
  predicate Kept(s: State) {
    DataOf(s.written) + DataOf(s.outputEvents) == s.enqueued
  }

  predicate IsData(e: Event) {
    e.WebsocketData? && e.frame.DataFrame?
  }

  predicate HoldsData(held: Option<Event>) {
    held.Some? && IsData(held.value)
  }

  /** The frame found in the storage by this iteration. */
  function Found(s: State, i: StepInput): Option<Frame> {
    var b := Stored(s, i).recvStorage;
    if b != [] && Parse(b).Complete? then Some(Parse(b).frame) else None
  }

  /** Once the read has succeeded, the input fails if and only if the frame in the storage is a bad one. */
  lemma InputFailsIff(s: State, i: StepInput)
    requires Healthy(s) && s.status.Open? && ReadBytes(s, i).outcome.Ok?
    ensures !InputHandled(s, i) <==>
              Found(s, i).Some? && (Refused(s, Found(s, i).value) || Aborts(s, Found(s, i).value, i))
  {
    ReadKeepsQueues(s, i);
    ReadSound(s, i);
    ReadTakes(s, i);
    var r := ReadBytes(s, i);
    if r.event.WebsocketData? {
      FrameOutcome(PopOutput(r.s).s, r.event.frame, i);
    }
  }

  /** From s to t, data frames fs were queued and nothing was written. */
  predicate Queued(s: State, fs: seq<Frame>, t: State) {
    && t.written == s.written && t.status == s.status
    && t.outputEvents == s.outputEvents + Events(fs) && t.enqueued == s.enqueued + fs
    && forall k | 0 <= k < |fs| :: OutData(fs[k])
  }

  lemma NothingQueued(s: State, t: State)
    requires t.written == s.written && t.status == s.status
    requires t.outputEvents == s.outputEvents && t.enqueued == s.enqueued
    ensures Queued(s, [], t)
  {
    assert s.outputEvents + Events([]) == s.outputEvents && s.enqueued + [] == s.enqueued;
  }

  /** A failing frame handler has at most queued data frames. */
  lemma FailedFrame(s: State, f: Frame, i: StepInput) returns (fs: seq<Frame>)
    requires s.status.Open? && !HandleFrame(s, f, i).outcome.Ok? && Incoming(f)
    ensures Queued(s, fs, HandleFrame(s, f, i).s)
  {
    var t := s.(dispatched := s.dispatched + [f]);
    if f.Kind().Data? {
      fs := FailedData(t, f, i);
    } else {
      fs := [];
      NothingQueued(s, HandleFrame(s, f, i).s);
    }
  }

  lemma FailedData(s: State, f: Frame, i: StepInput) returns (fs: seq<Frame>)
    requires !HandleData(s, f, i).outcome.Ok?
    ensures Queued(s, fs, HandleData(s, f, i).s)
  {
    var t := if f.header.flag != FIN then s.(recvData := s.recvData + f.data) else s;
    if Undecodable(s, f) {
      fs := [];
      NothingQueued(s, t);
    } else {
      var m := if t.recvData == [] then f.data else t.recvData + f.data;
      var gs, ps := SendAllEffect(t.(callbacks := t.callbacks + [OnText(m)]), i.inputSends);
      fs := gs;
    }
  }

  lemma DataOfHeld(held: Option<Event>, q: seq<Event>)
    ensures |DataOf(OptSeq(held) + q)| == |DataOf(q)| + if HoldsData(held) then 1 else 0
    ensures !HoldsData(held) ==> DataOf(OptSeq(held) + q) == DataOf(q)
  {
    DataOfConcat(OptSeq(held), q);
    if held.Some? {
      assert [held.value][1..] == [];
    }
  }

  /** If the held event is dropped, nothing is lost exactly when it is not a data frame. */
  lemma HeldIsLost(s: State, held: Option<Event>, t: State, fs: seq<Frame>)
    requires DataOf(s.written) + DataOf(Pending(s, held)) == s.enqueued
    requires Queued(s, fs, t)
    ensures Kept(t) <==> !HoldsData(held)
  {
    AppendData(s.outputEvents, fs);
    DataOfHeld(held, s.outputEvents);
    if HoldsData(held) {
      assert |DataOf(t.written) + DataOf(t.outputEvents)| < |t.enqueued|;
    } else {
      Regroup(DataOf(s.written), DataOf(s.outputEvents), fs);
    }
  }

  lemma InputLoses(s: State, i: StepInput)
    requires Orderly(s, None) && s.status.Open? && ReadBytes(s, i).outcome.Ok? && !InputHandled(s, i)
    ensures Turn(s, i).s.status.Open? && (Kept(Turn(s, i).s) <==> !HoldsData(PopOutput(s).event))
  {
    ReadKeepsQueues(s, i);
    ReadSound(s, i);
    var r := ReadBytes(s, i);
    assert Orderly(r.s, None);
    PopOrderly(r.s);
    var out := PopOutput(r.s);
    var fs := FailedFrame(out.s, r.event.frame, i);
    HeldIsLost(out.s, out.event, Turn(s, i).s, fs);
  }

  lemma OutputLoses(s: State, i: StepInput)
    requires Orderly(s, None) && s.status.Open? && InputHandled(s, i) && !Turn(s, i).outcome.Ok?
    ensures var t := Turn(s, i).s;
            if t.status.Open? then Kept(t) <==> !HoldsData(PopOutput(s).event)
            else DataOf(t.written) <= t.enqueued
  {
    ReadKeepsQueues(s, i);
    var h := InputPhase(s, i);
    var held := PopOutput(s).event;
    assert Turn(s, i) == TurnOutput(Result(h, Ok), held, i);
    FailedOutput(h, held.value, i);
  }

  /** The state between the two halves of an iteration. */
  lemma InputPhase(s: State, i: StepInput) returns (h: State)
    requires Orderly(s, None) && s.status.Open? && InputHandled(s, i)
    ensures HandleInput(PopOutput(ReadBytes(s, i).s).s, ReadBytes(s, i).event, i) == Result(h, Ok)
    ensures Orderly(h, PopOutput(s).event) && Framing(h.status) && h.hasStream
  {
    ReadKeepsQueues(s, i);
    ReadSound(s, i);
    var r := ReadBytes(s, i);
    assert Orderly(r.s, None);
    PopOrderly(r.s);
    var out := PopOutput(r.s);
    InputOrderly(out.s, out.event, r.event, i);
    InputSound(out.s, r.event, i);
    h := HandleInput(out.s, r.event, i).s;
    if r.event.WebsocketData? {
      FrameStaysConnected(out.s, r.event.frame, i);
    }
  }

  lemma FailedOutput(s: State, e: Event, i: StepInput)
    requires Orderly(s, Some(e)) && Framing(s.status) && !HandleOutput(s, e, i).outcome.Ok?
    ensures var t := HandleOutput(s, e, i).s;
            if t.status.Open? then Kept(t) <==> !IsData(e) else DataOf(t.written) <= t.enqueued
  {
    OutputNeverPanics(s, e, i);
    if i.write.WriteError? {
      if s.status.Open? {
        NothingQueued(s, s);
        HeldIsLost(s, Some(e), s, []);
      }
    } else {
      FailedShutdown(s, e, i);
    }
  }

  /** The only other failure is that of the shutdown after the reply to a CLOSE. */
  lemma FailedShutdown(s: State, e: Event, i: StepInput)
    requires Orderly(s, Some(e)) && Framing(s.status) && !i.write.WriteError? && HandleOutput(s, e, i).outcome.Err?
    ensures HandleOutput(s, e, i).s.status.Closed? && DataOf(HandleOutput(s, e, i).s.written) == DataOf(s.written)
    ensures HandleOutput(s, e, i).s.enqueued == s.enqueued
  {
    DataOfConcat(s.written, [e]);
    assert [e][1..] == [];
    if s.status.ServerWantsToClose? && e.WebsocketData? && e.frame.ControlFrame? && i.shutdownOk {
      var u := Wrote(s, e, i).(status := Closed, hasStream := false);
      var code := if e.frame.statusCode.Some? then e.frame.statusCode.value else 0;
      ClosedSendsNothing(u.(callbacks := u.callbacks + [OnClose(ServerClose(code))]), i.outputSends);
    }
  }

  /**
   * An iteration fails on an open connection that has only seen successful calls. While the
   * connection stays open, no data frame is lost if and only if the read failed or the head of the
   * queue was not a data frame; otherwise the head is gone. If a CLOSE was handled in the failing
   * iteration, the data written is still a prefix of the data queued.
   */
  lemma LostEventIff(acts: seq<Action>, i: StepInput)
    requires OkRun(FRESH, acts) && After(FRESH, acts).status.Open? && !EventLoop(After(FRESH, acts), i).outcome.Ok?
    ensures var s := After(FRESH, acts);
            var t := EventLoop(s, i).s;
            if t.status.Open? then Kept(t) <==> !ReadBytes(s, i).outcome.Ok? || !HoldsData(PopOutput(s).event)
            else DataOf(t.written) <= t.enqueued
  {
    RunOrderly(FRESH, acts);
    var s := After(FRESH, acts);
    EventLoopIsTurn(s, i);
    if !ReadBytes(s, i).outcome.Ok? {
      ReadKeepsQueues(s, i);
      assert Pending(s, None) == s.outputEvents;
    } else if InputHandled(s, i) {
      OutputLoses(s, i);
    } else {
      InputLoses(s, i);
    }
  }
}
