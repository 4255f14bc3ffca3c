/**
 * What init, set_message_size and start_init store, and that nothing else changes it: path, callback,
 * protocols, message size and key. So the key that a response is checked against is the one in the
 * request.
 */
module Settings {
  import opened Wrappers
  import opened Frames
  import opened Text
  import opened Session
  import opened Outgoing
  import opened Runs
  import opened Lifecycle
  import opened Output
  import opened Requests
  import Http

  predicate SameSettings(s: State, t: State) {
    && t.path == s.path && t.hasCallback == s.hasCallback && t.acceptable == s.acceptable
    && t.messageSize == s.messageSize && t.key == s.key
  }

  /** An event that is a frame, or comes from s or from what is held. */
  predicate OldRequest(e: Event, s: State, held: Option<Event>) {
    e.HttpRequest? ==> e in s.written || e in s.outputEvents || held == Some(e)
  }

  /** From s to t the settings are kept, and no request comes up that was not there. */
  predicate Keeps(s: State, held: Option<Event>, t: State) {
    && SameSettings(s, t)
    && (forall e | e in t.written :: OldRequest(e, s, held))
    && (forall e | e in t.outputEvents :: OldRequest(e, s, held))
  }

  lemma SendAllKeeps(s: State, calls: seq<SendCall>)
    ensures Keeps(s, None, SendAll(s, calls).s)
  {
    var fs, ps := SendAllEffect(s, calls);
  }

  lemma FireKeeps(s: State, e: WSEvent, calls: seq<SendCall>)
    ensures Keeps(s, None, Fire(s, e, calls).s)
  {
    SendAllKeeps(s.(callbacks := s.callbacks + [e]), calls);
  }

  lemma DataKeeps(s: State, f: Frame, i: StepInput)
    ensures Keeps(s, None, HandleData(s, f, i).s)
  {
    var t := if f.header.flag != FIN then s.(recvData := s.recvData + f.data) else s;
    var m := if t.recvData == [] then f.data else t.recvData + f.data;
    FireKeeps(t, OnText(m), i.inputSends);
  }

  lemma FrameKeeps(s: State, f: Frame, i: StepInput)
    ensures Keeps(s, None, HandleFrame(s, f, i).s)
  {
    var t := s.(dispatched := s.dispatched + [f]);
    if f.Kind().Data? {
      DataKeeps(t, f, i);
    } else if f.ControlFrame? && f.statusCode.Some? {
      FireKeeps(t.(status := Closed), OnClose(ClientClose(f.statusCode.value)), i.inputSends);
    }
  }

  lemma ResponseKeeps(s: State, r: Http.Response, i: StepInput)
    ensures Keeps(s, None, HandleResponse(s, r, i).s)
  {
    var t := s.(protocol := r.Header(Literal("Sec-WebSocket-Protocol")), status := Open);
    FireKeeps(t, OnConnect(r.body), i.inputSends);
  }

  lemma InputKeeps(s: State, e: Event, i: StepInput)
    ensures Keeps(s, None, HandleInput(s, e, i).s)
  {
    match e
    case WebsocketData(f) => FrameKeeps(s, f, i);
    case HttpResponse(r) => ResponseKeeps(s, r, i);
    case _ =>
  }

  lemma OutputKeeps(s: State, e: Event, i: StepInput)
    ensures Keeps(s, Some(e), HandleOutput(s, e, i).s)
  {
    if e.WebsocketData? && e.frame.ControlFrame? && s.hasStream && i.write.Sent? {
      EndKeeps(Wrote(s, e, i), e.frame, i);
    }
  }

  lemma EndKeeps(s: State, f: Frame, i: StepInput)
    requires f.ControlFrame? && s.hasStream
    ensures Keeps(s, None, EndByServer(s, f, i).s)
  {
    var code := if f.statusCode.Some? then f.statusCode.value else 0;
    FireKeeps(s.(status := Closed, hasStream := false), OnClose(ServerClose(code)), i.outputSends);
  }

  lemma TurnKeeps(s: State, i: StepInput)
    ensures Keeps(s, None, Turn(s, i).s)
  {
    ReadKeepsQueues(s, i);
    var r := ReadBytes(s, i);
    if r.outcome.Ok? {
      var out := PopOutput(r.s);
      InputKeeps(out.s, r.event, i);
      var h := HandleInput(out.s, r.event, i);
      if h.outcome.Ok? && out.event.Some? {
        OutputKeeps(h.s, out.event.value, i);
      }
    }
  }

  /** An iteration that connects stores the new key; every other one keeps all settings. */
  lemma IterationKeeps(s: State, i: StepInput)
    requires s.inputEvents == []
    ensures SameSettings(s.(key := EventLoop(s, i).s.key), EventLoop(s, i).s)
    ensures !s.status.StartInit? ==> Keeps(s, None, EventLoop(s, i).s)
  {
    if Connected(s.status) {
      EventLoopIsTurn(s, i);
      TurnKeeps(s, i);
    }
  }

  lemma {:induction false} DropLoopKeeps(s: State, inputs: seq<StepInput>)
    requires Healthy(s) && Rank(s.status) >= 4
    ensures SameSettings(s, DropLoop(s, inputs).s)
    decreases |inputs|
  {
    if !s.status.Closed? && inputs != [] {
      IterationKeeps(s, inputs[0]);
      EventLoopSound(s, inputs[0]);
      if EventLoop(s, inputs[0]).outcome.Ok? {
        DropLoopKeeps(EventLoop(s, inputs[0]).s, inputs[1..]);
      }
    }
  }

  // ---- What the user set ----

  /** The message size after these calls, if it was n before; a new client has 1024. */
  function SizeAfter(n: nat, acts: seq<Action>): nat
    decreases |acts|
  {
    if acts == [] then n
    else SizeAfter(if acts[0].SetMessageSize? then acts[0].size else n, acts[1..])
  }

  /** The last call of init. */
  function LastInit(last: Option<Action>, acts: seq<Action>): Option<Action>
    decreases |acts|
  {
    if acts == [] then last
    else LastInit(if acts[0].Initialize? then Some(acts[0]) else last, acts[1..])
  }

  /** Path, callback and protocols are those of that call. */
  predicate AsInit(s: State, init: Option<Action>) {
    match init
    case None => s.path == [] && !s.hasCallback && s.acceptable == None
    case Some(a) =>
      && a.Initialize? && s.path == a.path
      && (if a.config.Some? then s.hasCallback == a.config.value.callback && s.acceptable == a.config.value.protocols
          else !s.hasCallback && s.acceptable == None)
  }

  lemma ActSettings(s: State, a: Action, init: Option<Action>)
    requires Healthy(s) && (a.Initialize? ==> s.status.NotInit? && init == None) && AsInit(s, init)
    ensures Act(s, a).s.messageSize == if a.SetMessageSize? then a.size else s.messageSize
    ensures AsInit(Act(s, a).s, if a.Initialize? then Some(a) else init)
    ensures Rank(s.status) >= 2 ==> Act(s, a).s.key == s.key
  {
    match a
    case SendText(c) => var fs, ps := SendEffect(s, c);
    case Iterate(i) => IterationKeeps(s, i);
    case Discard(mask, inputs) =>
      if MustClose(s) {
        DoneIsOut(mask);
        DropLoopKeeps(BeginDrop(s, mask), inputs);
      }
    case _ =>
  }

  lemma {:induction false} RunSettings(s: State, acts: seq<Action>, init: Option<Action>)
    requires Healthy(s) && SingleInit(s, acts) && AsInit(s, init) && (s.status.NotInit? ==> init == None)
    ensures After(s, acts).messageSize == SizeAfter(s.messageSize, acts)
    ensures AsInit(After(s, acts), LastInit(init, acts))
    ensures Rank(s.status) >= 2 ==> After(s, acts).key == s.key
    decreases |acts|
  {
    if acts != [] {
      var a := acts[0];
      ActSettings(s, a, init);
      ActSound(s, a);
      RunSettings(Act(s, a).s, acts[1..], if a.Initialize? then Some(a) else init);
    }
  }

  /**
   * On every run of a client initialised at most once, failures and the drop included: the message size
   * is the one set last, at first 1024, and path, callback and protocols are those given to init.
   */
  lemma SettingsTheorem(acts: seq<Action>)
    requires SingleInit(FRESH, acts)
    ensures After(FRESH, acts).messageSize == SizeAfter(1024, acts)
    ensures AsInit(After(FRESH, acts), LastInit(None, acts))
  {
    RunSettings(FRESH, acts, None);
  }

  // ---- The key ----

  /**
   * On every run of a client initialised at most once, the iteration that enters the handshake puts a
   * request in front of the queue that carries the key generated in that iteration, the path and the
   * protocols. The client keeps that key from then on, failures and the drop included.
   */
  lemma KeyTheorem(acts: seq<Action>, i: StepInput, more: seq<Action>)
    requires SingleInit(FRESH, acts) && After(FRESH, acts).status.StartInit?
    requires EventLoop(After(FRESH, acts), i).s.status.Handshake?
    requires SingleInit(EventLoop(After(FRESH, acts), i).s, more)
    ensures var s, t := After(FRESH, acts), EventLoop(After(FRESH, acts), i).s;
            && s.acceptable != Some([])
            && t.outputEvents != [] && t.outputEvents[0].HttpRequest?
            && RequestFor(t.outputEvents[0].request, s.path, i.key, Offer(s.acceptable))
            && After(t, more).key == i.key
  {
    RunSound(FRESH, acts);
    RunSettings(FRESH, acts, None);
    var s := After(FRESH, acts);
    if s.acceptable.Some? {
      NoProtocols(s.acceptable.value);
    }
    ConnectRequests(s, i);
    EventLoopSound(s, i);
    ActSettings(s, Iterate(i), LastInit(None, acts));
    RunSettings(EventLoop(s, i).s, more, LastInit(None, acts));
  }

  // ---- The request on the wire ----

  /** Every request that was queued or written is the one for the settings. */
  predicate OneRequest(s: State) {
    forall e | e in s.written + s.outputEvents :: e.HttpRequest? ==>
      s.acceptable != Some([]) && RequestFor(e.request, s.path, s.key, Offer(s.acceptable))
  }

  lemma KeepsOneRequest(s: State, t: State)
    requires OneRequest(s) && Keeps(s, None, t)
    ensures OneRequest(t)
  {
    forall e | e in t.written + t.outputEvents && e.HttpRequest?
      ensures s.acceptable != Some([]) && RequestFor(e.request, s.path, s.key, Offer(s.acceptable))
    {
      assert OldRequest(e, s, None);
      assert e in s.written + s.outputEvents;
    }
  }

  lemma ConnectOneRequest(s: State, i: StepInput)
    requires Orderly(s, None) && s.status.StartInit? && Connect(s, i).outcome.Ok?
    ensures OneRequest(Connect(s, i).s)
  {
    if s.acceptable.Some? {
      NoProtocols(s.acceptable.value);
    }
    ConnectRequests(s, i);
    var t := Connect(s, i).s;
    assert t.outputEvents == [t.outputEvents[0]] + s.outputEvents;
    assert forall e | e in t.written + t.outputEvents :: e == t.outputEvents[0] || e in s.outputEvents;
  }

  lemma ActOneRequest(s: State, a: Action)
    requires Orderly(s, None) && OneRequest(s) && !a.Discard? && (a.Initialize? ==> s.status.NotInit?)
    requires Act(s, a).outcome.Ok?
    ensures OneRequest(Act(s, a).s)
  {
    match a
    case Initialize(p, c) =>
      assert forall e | e in s.written + s.outputEvents :: !e.HttpRequest?;
    case SetMessageSize(n) =>
    case SendText(c) => SendOne(s, c); SendAllKeeps(s, [c]); KeepsOneRequest(s, Act(s, a).s);
    case Iterate(i) =>
      if s.status.StartInit? {
        ConnectOneRequest(s, i);
      } else {
        IterationKeeps(s, i);
        KeepsOneRequest(s, Act(s, a).s);
      }
  }

  lemma {:induction false} RunOneRequest(s: State, acts: seq<Action>)
    requires Orderly(s, None) && OneRequest(s) && OkRun(s, acts)
    ensures OneRequest(After(s, acts))
    decreases |acts|
  {
    if acts != [] {
      ActOneRequest(s, acts[0]);
      ActOrderly(s, acts[0]);
      RunOneRequest(Act(s, acts[0]).s, acts[1..]);
    }
  }

  /**
   * On every successful run, the request that was written is the one for the path and the protocols
   * given to init and for the key that a response is checked against.
   */
  lemma WrittenRequest(acts: seq<Action>)
    requires OkRun(FRESH, acts) && After(FRESH, acts).written != []
    ensures var s := After(FRESH, acts);
            && s.written[0].HttpRequest? && s.acceptable != Some([])
            && RequestFor(s.written[0].request, s.path, s.key, Offer(s.acceptable))
  {
    RunOneRequest(FRESH, acts);
    HandshakeGoesFirst(acts);
    var s := After(FRESH, acts);
    assert s.written[0] in s.written + s.outputEvents;
  }
}
