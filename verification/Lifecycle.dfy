/**
 * What holds after any run of a client that is initialised once: errors, panics and the drop
 * included. Socket presence, order of the states, callback discipline, outgoing frames.
 */
module Lifecycle {
  import opened Frames
  import opened Text
  import opened Session
  import opened Outgoing
  import opened Runs
  import Http
  import Utf8

  function Rank(status: Status): nat {
    match status
    case NotInit => 0
    case StartInit => 1
    case Handshake => 2
    case Open => 3
    case ClientWantsToClose => 4
    case ServerWantsToClose => 4
    case Closed => 5
  }

  /** ON_CONNECT, then texts. */
  predicate Conversation(c: seq<WSEvent>) {
    |c| >= 1 && c[0].OnConnect? && forall k | 0 < k < |c| :: c[k].OnText?
  }

  /** (ON_CONNECT ON_TEXT* ON_CLOSE?)? */
  predicate Language(c: seq<WSEvent>) {
    c == [] || Conversation(c) || (c[|c| - 1].OnClose? && Conversation(c[..|c| - 1]))
  }

  /** Every text reported is a string. */
  predicate TextsAreStrings(c: seq<WSEvent>) {
    forall k | 0 <= k < |c| && c[k].OnText? :: Utf8.Valid(c[k].message)
  }

  predicate CallbacksFit(s: State) {
    && TextsAreStrings(s.callbacks)
    && (!s.hasCallback ==> s.callbacks == [])
    && (Rank(s.status) <= 2 ==> s.callbacks == [])
    && (Framing(s.status) && s.hasCallback ==> Conversation(s.callbacks))
    && Language(s.callbacks)
  }

  predicate StreamFits(s: State) {
    && (Connected(s.status) ==> s.hasStream)
    && (Rank(s.status) <= 1 ==> !s.hasStream)
  }

  predicate AllOut(events: seq<Event>) {
    forall e | e in events :: OutEvent(e)
  }

  predicate Healthy(s: State) {
    && StreamFits(s)
    && CallbacksFit(s)
    && s.inputEvents == []
    && AllOut(s.outputEvents)
    && AllOut(s.written)
    && forall f | f in s.enqueued :: OutData(f)
  }

  /** Not one of the panics that would be a slip in the client's own bookkeeping. */
  predicate NoInternalPanic(o: Outcome) {
    o != Panic(NoStream) && o != Panic(Downcast) && o != Panic(ShortClose) && o != Panic(MissingStatus)
  }

  /** One step from s to r.s. */
  predicate Sound(s: State, r: Result) {
    && Healthy(r.s)
    && NoInternalPanic(r.outcome)
    && Rank(s.status) <= Rank(r.s.status)
    && (s.status.ClientWantsToClose? ==> r.s.hasStream && (r.s.status.ClientWantsToClose? || r.s.status.Closed?))
  }

  lemma SendAllSound(s: State, calls: seq<SendCall>)
    requires Healthy(s)
    ensures Healthy(SendAll(s, calls).s) && NoInternalPanic(SendAll(s, calls).outcome)
    ensures SendAll(s, calls).s.status == s.status && SendAll(s, calls).s.hasStream == s.hasStream
  {
    var fs, ps := SendAllEffect(s, calls);
  }

  lemma ReadSound(s: State, i: StepInput)
    requires Healthy(s) && Connected(s.status)
    ensures Healthy(ReadBytes(s, i).s) && NoInternalPanic(ReadBytes(s, i).outcome)
    ensures ReadBytes(s, i).event.WebsocketData? ==> Incoming(ReadBytes(s, i).event.frame)
  {
    ReadKeepsQueues(s, i);
    ReadOutcome(s, i);
  }

  lemma ReadOutcome(s: State, i: StepInput)
    requires s.hasStream
    ensures NoInternalPanic(ReadBytes(s, i).outcome)
    ensures ReadBytes(s, i).event.WebsocketData? ==> Incoming(ReadBytes(s, i).event.frame)
  {
    var t := if i.read.Received? then Store(s, i.read.bytes) else s;
    TakenIncoming(t);
  }

  lemma TakenIncoming(s: State)
    ensures NoInternalPanic(TakeFrame(s).outcome)
    ensures TakeFrame(s).event.WebsocketData? ==> Incoming(TakeFrame(s).event.frame)
  {
    if Parse(s.recvStorage).Complete? {
      ParsedIncoming(s.recvStorage);
    }
  }

  lemma PopSound(s: State)
    requires Healthy(s)
    ensures Healthy(PopOutput(s).s)
    ensures PopOutput(s).event.Some? ==> OutEvent(PopOutput(s).event.value)
  {
  }

  lemma FireSound(s: State, e: WSEvent, calls: seq<SendCall>)
    requires Healthy(s.(callbacks := s.callbacks + [e]))
    ensures Healthy(Fire(s, e, calls).s) && NoInternalPanic(Fire(s, e, calls).outcome)
    ensures Fire(s, e, calls).s.status == s.status && Fire(s, e, calls).s.hasStream == s.hasStream
  {
    SendAllSound(s.(callbacks := s.callbacks + [e]), calls);
  }

  lemma DataSound(s: State, f: Frame, i: StepInput)
    requires Healthy(s) && Framing(s.status)
    ensures Healthy(HandleData(s, f, i).s) && NoInternalPanic(HandleData(s, f, i).outcome)
    ensures HandleData(s, f, i).s.status == s.status && HandleData(s, f, i).s.hasStream == s.hasStream
  {
    var t := if f.header.flag != FIN then s.(recvData := s.recvData + f.data) else s;
    if s.hasCallback && Utf8.Valid(f.data) {
      if t.recvData == [] {
        FireSound(t, OnText(f.data), i.inputSends);
      } else if Utf8.Valid(t.recvData) {
        Utf8.ValidConcat(t.recvData, f.data);
        FireSound(t, OnText(t.recvData + f.data), i.inputSends);
      }
    }
  }

  lemma CloseSound(s: State, f: Frame, i: StepInput)
    requires Healthy(s) && Framing(s.status) && f.ControlFrame? && Incoming(f) && !DataOpcode(f.header.opcode)
    ensures Sound(s, HandleClose(s, f, i)) && HandleClose(s, f, i).s.hasStream
  {
    CloseIsOut(f, i.mask);
    if s.status.ClientWantsToClose? && s.hasCallback {
      var t := s.(status := Closed);
      var c := s.callbacks + [OnClose(ClientClose(f.statusCode.value))];
      assert c[..|c| - 1] == s.callbacks;
      FireSound(t, OnClose(ClientClose(f.statusCode.value)), i.inputSends);
    }
  }

  lemma FrameSound(s: State, f: Frame, i: StepInput)
    requires Healthy(s) && Framing(s.status) && Incoming(f)
    ensures Sound(s, HandleFrame(s, f, i)) && HandleFrame(s, f, i).s.hasStream
  {
    var t := s.(dispatched := s.dispatched + [f]);
    if f.Kind().Data? {
      DataSound(t, f, i);
    } else if f.Kind().Control? {
      PongIsOut(f, i.mask);
      CloseSound(t, f, i);
    }
  }

  lemma ResponseSound(s: State, r: Http.Response, i: StepInput)
    requires Healthy(s) && s.status.Handshake?
    ensures Sound(s, HandleResponse(s, r, i)) && HandleResponse(s, r, i).s.hasStream
  {
    var t := s.(protocol := r.Header(Literal("Sec-WebSocket-Protocol")), status := Open);
    if s.hasCallback {
      FireSound(t, OnConnect(r.body), i.inputSends);
    }
  }

  lemma InputSound(s: State, e: Event, i: StepInput)
    requires Healthy(s) && Connected(s.status)
    requires e.HttpResponse? ==> s.status.Handshake?
    requires e.WebsocketData? ==> Framing(s.status) && Incoming(e.frame)
    ensures Sound(s, HandleInput(s, e, i)) && HandleInput(s, e, i).s.hasStream
  {
    match e
    case WebsocketData(f) => FrameSound(s, f, i);
    case HttpResponse(r) => ResponseSound(s, r, i);
    case _ =>
  }

  lemma EndSound(s: State, f: Frame, i: StepInput)
    requires Healthy(s) && s.status.ServerWantsToClose? && f.ControlFrame?
    ensures Sound(s, EndByServer(s, f, i))
  {
    if i.shutdownOk && s.hasCallback {
      var e := OnClose(ServerClose(if f.statusCode.Some? then f.statusCode.value else 0));
      var c := s.callbacks + [e];
      assert c[..|c| - 1] == s.callbacks;
      FireSound(s.(status := Closed, hasStream := false), e, i.outputSends);
    }
  }

  lemma OutputSound(s: State, e: Event, i: StepInput)
    requires Healthy(s) && s.hasStream && OutEvent(e)
    ensures Sound(s, HandleOutput(s, e, i))
  {
    if e.WebsocketData? && i.write.Sent? && e.frame.Kind().Control? && s.status.ServerWantsToClose? {
      EndSound(Wrote(s, e, i), e.frame, i);
    }
  }

  lemma TurnSound(s: State, i: StepInput)
    requires Healthy(s) && Connected(s.status)
    ensures Sound(s, Turn(s, i))
  {
    var r := ReadBytes(s, i);
    ReadKeepsQueues(s, i);
    ReadSound(s, i);
    if r.outcome.Ok? {
      var out := PopOutput(r.s);
      PopSound(r.s);
      InputSound(out.s, r.event, i);
      var h := HandleInput(out.s, r.event, i);
      if h.outcome.Ok? && out.event.Some? {
        OutputSound(h.s, out.event.value, i);
      }
    }
  }

  lemma EventLoopSound(s: State, i: StepInput)
    requires Healthy(s)
    ensures Sound(s, EventLoop(s, i))
  {
    if Connected(s.status) {
      EventLoopIsTurn(s, i);
      TurnSound(s, i);
    }
  }

  /** The closing loop keeps the stream, so the unwrap after it cannot fail. */
  lemma {:induction false} DropLoopSound(s: State, inputs: seq<StepInput>)
    requires Healthy(s) && s.hasStream && (s.status.ClientWantsToClose? || s.status.Closed?)
    ensures Healthy(DropLoop(s, inputs).s) && NoInternalPanic(DropLoop(s, inputs).outcome)
    ensures Rank(DropLoop(s, inputs).s.status) >= 4
    decreases |inputs|
  {
    if !s.status.Closed? && inputs != [] {
      EventLoopSound(s, inputs[0]);
      var r := EventLoop(s, inputs[0]);
      if r.outcome.Ok? {
        DropLoopSound(r.s, inputs[1..]);
      }
    }
  }

  lemma ActSound(s: State, a: Action)
    requires Healthy(s) && (a.Initialize? ==> s.status.NotInit?)
    ensures var r := Act(s, a);
            Healthy(r.s) && NoInternalPanic(r.outcome) && Rank(s.status) <= Rank(r.s.status)
  {
    match a
    case SendText(c) => SendAllSound(s, [c]); SendOne(s, c);
    case Iterate(i) => EventLoopSound(s, i);
    case Discard(mask, inputs) =>
      if MustClose(s) {
        DoneIsOut(mask);
        DropLoopSound(BeginDrop(s, mask), inputs);
      }
    case _ =>
  }

  lemma SendOne(s: State, c: SendCall)
    ensures SendAll(s, [c]) == Send(s, c)
  {
    var r := Send(s, c);
    assert [c][1..] == [];
    if r.outcome.Ok? {
      assert SendAll(r.s, []) == r;
    }
  }

  /**
   * On every run of a client initialised at most once, errors, panics and the drop included: the
   * stream is present whenever it is unwrapped, callbacks follow (ON_CONNECT ON_TEXT* ON_CLOSE?)?,
   * the input queue is empty between calls, and every frame queued or written is a legal one.
   */
  lemma {:induction false} RunSound(s: State, acts: seq<Action>)
    requires Healthy(s) && SingleInit(s, acts)
    ensures Healthy(After(s, acts))
    ensures Rank(s.status) <= Rank(After(s, acts).status)
    decreases |acts|
  {
    if acts != [] {
      ActSound(s, acts[0]);
      RunSound(Act(s, acts[0]).s, acts[1..]);
    }
  }

  /** The same from a new client, spelled out. */
  lemma LifecycleTheorem(acts: seq<Action>)
    requires SingleInit(FRESH, acts)
    ensures var s := After(FRESH, acts);
            && Language(s.callbacks) && TextsAreStrings(s.callbacks)
            && (Connected(s.status) ==> s.hasStream)
            && s.inputEvents == []
            && AllOut(s.outputEvents + s.written)
  {
    RunSound(FRESH, acts);
  }

  /** The next call on any reachable client cannot panic on a missing stream, downcast or status code. */
  lemma NextCallNoInternalPanic(acts: seq<Action>, a: Action)
    requires SingleInit(FRESH, acts) && (a.Initialize? ==> After(FRESH, acts).status.NotInit?)
    ensures NoInternalPanic(Act(After(FRESH, acts), a).outcome)
    ensures Rank(After(FRESH, acts).status) <= Rank(Act(After(FRESH, acts), a).s.status)
  {
    RunSound(FRESH, acts);
    ActSound(After(FRESH, acts), a);
  }
}
