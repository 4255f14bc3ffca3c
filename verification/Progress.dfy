/**
 * What is bound to happen while the socket takes what it is given: the queue is written out, the
 * server gets every payload, and a closing handshake ends.
 */
module Progress {
  import opened Bytes
  import opened Wrappers
  import opened Frames
  import opened Text
  import opened Session
  import opened Outgoing
  import opened Runs
  import opened Lifecycle
  import opened Output
  import opened Writes
  import opened Fragmentation
  import opened EndToEnd
  import opened CloseHandshake
  import opened Requests
  import opened Settings
  import Opening
  import Rfc = Rfc6455

  // ---- One iteration ----

  /** A PONG in front and data frames behind are all that handling a frame adds to an open client's queue. */
  lemma FrameQueues(s: State, f: Frame, i: StepInput) returns (pong: Option<Event>, fs: seq<Frame>)
    requires s.status.Open? && Incoming(f) && HandleFrame(s, f, i).outcome.Ok? && HandleFrame(s, f, i).s.status.Open?
    ensures HandleFrame(s, f, i).s.outputEvents == OptSeq(pong) + s.outputEvents + Events(fs)
    ensures HandleFrame(s, f, i).s.enqueued == s.enqueued + fs
    ensures pong.Some? ==> f.header.opcode == PING && IsPong(pong.value)
    ensures forall g | g in fs :: OutData(g)
  {
    var t := s.(dispatched := s.dispatched + [f]);
    pong, fs := None, [];
    assert OptSeq(pong) + s.outputEvents + Events(fs) == s.outputEvents && s.enqueued + fs == s.enqueued;
    if f.Kind().Data? {
      var u := if f.header.flag != FIN then t.(recvData := t.recvData + f.data) else t;
      if s.hasCallback {
        var m := if u.recvData == [] then f.data else u.recvData + f.data;
        var gs, ps := SendAllEffect(u.(callbacks := u.callbacks + [OnText(m)]), i.inputSends);
        fs := gs;
        assert OptSeq(pong) + s.outputEvents == s.outputEvents;
      }
    } else if f.header.opcode == PING {
      PongIsOut(f, i.mask);
      pong := Some(WebsocketData(PongFor(f, i.mask)));
      assert OptSeq(pong) + s.outputEvents + Events(fs) == [pong.value] + s.outputEvents;
    }
  }

  /** This iteration finds a whole PING in the storage. */
  predicate FindsPing(s: State, i: StepInput) {
    ReadBytes(s, i).event.WebsocketData? && ReadBytes(s, i).event.frame.header.opcode == PING
  }

  /**
   * A successful iteration of an open client whose write is taken writes exactly the head of the
   * queue. If it stays open, the rest of the queue stays behind a PONG, if a PING came, and ahead of
   * what the callback sent.
   */
  lemma SentRemovesHead(s: State, i: StepInput) returns (pong: Option<Event>, fs: seq<Frame>)
    requires Healthy(s) && s.status.Open? && s.outputEvents != [] && i.write.Sent? && Turn(s, i).outcome.Ok?
    ensures var t := Turn(s, i).s;
            && t.written == s.written + [s.outputEvents[0]]
            && t.wire == s.wire + EventBytes(s.outputEvents[0], i)
            && (t.status.Open? ==>
                && t.outputEvents == OptSeq(pong) + s.outputEvents[1..] + Events(fs)
                && t.enqueued == s.enqueued + fs
                && (forall f | f in fs :: OutData(f))
                && (pong.Some? ==> IsPong(pong.value) && FindsPing(s, i)))
  {
    TurnWrites(s, i);
    ReadKeepsQueues(s, i);
    ReadSound(s, i);
    var r := ReadBytes(s, i);
    var out := PopOutput(r.s);
    pong, fs := None, [];
    assert OptSeq(pong) + out.s.outputEvents + Events(fs) == out.s.outputEvents && s.enqueued + fs == s.enqueued;
    var h := HandleInput(out.s, r.event, i);
    assert OutEvent(out.event.value);
    HandsOver(h.s, out.event.value, i);
    if r.event.WebsocketData? && h.s.status.Open? {
      pong, fs := FrameQueues(out.s, r.event.frame, i);
    }
  }

  /** Writing an event of an open client changes nothing but the trace. */
  lemma HandsOver(s: State, e: Event, i: StepInput)
    requires OutEvent(e) && i.write.Sent? && s.hasStream
    ensures !s.status.ServerWantsToClose? ==> HandleOutput(s, e, i) == Result(Wrote(s, e, i), Ok)
    ensures s.status.ServerWantsToClose? ==> !HandleOutput(s, e, i).s.status.Open?
  {
    if s.status.ServerWantsToClose? && e.WebsocketData? && e.frame.ControlFrame? {
      var code := if e.frame.statusCode.Some? then e.frame.statusCode.value else 0;
      var u := Wrote(s, e, i).(status := Closed, hasStream := false);
      ClosedSendsNothing(u.(callbacks := u.callbacks + [OnClose(ServerClose(code))]), i.outputSends);
    }
  }

  /** The first unblocked iteration of the handshake writes the request. */
  lemma RequestIsSent(acts: seq<Action>, i: StepInput)
    requires OkRun(FRESH, acts) && After(FRESH, acts).status.Handshake? && After(FRESH, acts).written == []
    requires After(FRESH, acts).recvStorage == [] && Unblocked(i)
    ensures var s, r := After(FRESH, acts), EventLoop(After(FRESH, acts), i);
            && r.outcome.Ok? && |r.s.written| == 1 && r.s.written[0].HttpRequest? && s.acceptable != Some([])
            && RequestFor(r.s.written[0].request, s.path, s.key, Offer(s.acceptable))
  {
    RunOrderly(FRESH, acts);
    RunOneRequest(FRESH, acts);
    FirstIsSent(After(FRESH, acts), i);
  }

  lemma FirstIsSent(s: State, i: StepInput)
    requires Orderly(s, None) && OneRequest(s) && s.status.Handshake? && s.written == []
    requires s.recvStorage == [] && Unblocked(i)
    ensures var r := EventLoop(s, i);
            && r.outcome.Ok? && |r.s.written| == 1 && r.s.written[0].HttpRequest? && s.acceptable != Some([])
            && RequestFor(r.s.written[0].request, s.path, s.key, Offer(s.acceptable))
  {
    assert s.written + Pending(s, None) == s.outputEvents;
    assert s.outputEvents[0] in s.written + s.outputEvents;
    RequestTaken(s, i);
  }

  lemma RequestTaken(s: State, i: StepInput)
    requires s.status.Handshake? && s.hasStream && s.inputEvents == [] && s.recvStorage == [] && Unblocked(i)
    requires s.outputEvents != [] && s.outputEvents[0].HttpRequest?
    ensures EventLoop(s, i).outcome.Ok? && EventLoop(s, i).s.written == s.written + [s.outputEvents[0]]
  {
    EventLoopIsTurn(s, i);
  }

  /** If that write fails, the request is lost: the client stays in the handshake without one. */
  lemma RequestIsLost(acts: seq<Action>, i: StepInput)
    requires OkRun(FRESH, acts) && After(FRESH, acts).status.Handshake? && After(FRESH, acts).written == []
    requires After(FRESH, acts).recvStorage == [] && i.read.NothingYet? && i.write.WriteError?
    ensures var r := EventLoop(After(FRESH, acts), i);
            && r.outcome == Err(IOError) && r.s.status.Handshake? && r.s.written == []
            && After(FRESH, acts).outputEvents != []
            && r.s.outputEvents == After(FRESH, acts).outputEvents[1..]
            && forall k | 0 <= k < |r.s.outputEvents| :: r.s.outputEvents[k].WebsocketData?
  {
    RunOrderly(FRESH, acts);
    FirstIsLost(After(FRESH, acts), i);
  }

  lemma FirstIsLost(s: State, i: StepInput)
    requires Orderly(s, None) && s.status.Handshake? && s.written == [] && s.recvStorage == []
    requires i.read.NothingYet? && i.write.WriteError?
    ensures var r := EventLoop(s, i);
            && s.outputEvents != []
            && r == Result(s.(outputEvents := s.outputEvents[1..]), Err(IOError))
            && forall k | 0 <= k < |r.s.outputEvents| :: r.s.outputEvents[k].WebsocketData?
  {
    assert s.written + Pending(s, None) == s.outputEvents;
    EventLoopIsTurn(s, i);
  }

  // ---- The queue is written out ----

  /** Nothing comes from the server and the socket takes what it is given. */
  predicate Unblocked(i: StepInput) {
    i.read.NothingYet? && i.write.Sent?
  }

  ghost predicate AllUnblocked(acts: seq<Action>) {
    forall k | 0 <= k < |acts| :: acts[k].Iterate? && Unblocked(acts[k].input)
  }

  /** No frame waits in the storage. */
  predicate Idle(s: State) {
    s.recvStorage == [] || Parse(s.recvStorage).NeedMore?
  }

  lemma UnblockedTurn(s: State, i: StepInput)
    requires Healthy(s) && s.status.Open? && Idle(s) && Unblocked(i)
    ensures EventLoop(s, i) ==
            Result(if s.outputEvents == [] then s
                   else Wrote(s.(outputEvents := s.outputEvents[1..]), s.outputEvents[0], i), Ok)
  {
    EventLoopIsTurn(s, i);
    if s.outputEvents != [] {
      assert OutEvent(s.outputEvents[0]);
      HandsOver(s.(outputEvents := s.outputEvents[1..]), s.outputEvents[0], i);
    }
  }

  lemma {:induction false} QueueDrains(s: State, acts: seq<Action>)
    requires Healthy(s) && s.status.Open? && Idle(s) && AllUnblocked(acts)
    ensures var t := After(s, acts);
            && OkRun(s, acts) && t.status.Open? && t.payloads == s.payloads
            && t.outputEvents == Rest(s.outputEvents, |acts|)
    decreases |acts|
  {
    if acts != [] {
      UnblockedStep(s, acts[0]);
      QueueDrains(Act(s, acts[0]).s, acts[1..]);
      RestOfRest(s.outputEvents, |acts|);
    }
  }

  lemma UnblockedStep(s: State, a: Action)
    requires Healthy(s) && s.status.Open? && Idle(s) && a.Iterate? && Unblocked(a.input)
    ensures var r := Act(s, a);
            && r.outcome.Ok? && Healthy(r.s) && r.s.status.Open? && Idle(r.s)
            && r.s.payloads == s.payloads && r.s.outputEvents == Rest(s.outputEvents, 1)
  {
    UnblockedTurn(s, a.input);
    EventLoopSound(s, a.input);
  }

  /** The queue without its first n events. */
  function Rest(q: seq<Event>, n: nat): seq<Event> {
    q[Min(n, |q|)..]
  }

  lemma RestOfRest(q: seq<Event>, n: nat)
    requires n > 0
    ensures Rest(q, n) == Rest(Rest(q, 1), n - 1)
  {
  }

  /**
   * Delivery in silence: a run reaches an open connection with no frame waiting in the storage. After as many
   * unblocked iterations as there are events in the queue, a server that follows RFC 6455 has
   * received every non-empty payload ever given to send, in order, and nothing else.
   */
  lemma QuietDelivery(acts: seq<Action>, more: seq<Action>) returns (head: seq<byte>, tail: seq<byte>)
    requires OkRun(FRESH, acts) && After(FRESH, acts).status.Open? && Idle(After(FRESH, acts))
    requires AllUnblocked(more) && |more| >= |After(FRESH, acts).outputEvents|
    ensures OkRun(FRESH, acts + more) && After(FRESH, acts + more).wire == head + tail
    ensures Rfc.ServerReceives(tail) == Some(Rfc.Received(NonEmpty(After(FRESH, acts).payloads), None))
  {
    EverythingWritten(acts, more);
    head, tail := DrainedMeansReceived(acts + more);
  }

  lemma EverythingWritten(acts: seq<Action>, more: seq<Action>)
    requires OkRun(FRESH, acts) && After(FRESH, acts).status.Open? && Idle(After(FRESH, acts))
    requires AllUnblocked(more) && |more| >= |After(FRESH, acts).outputEvents|
    ensures OkRun(FRESH, acts + more)
    ensures var s, t := After(FRESH, acts), After(FRESH, acts + more);
            t.status.Open? && t.outputEvents == [] && t.payloads == s.payloads
  {
    RunOrderly(FRESH, acts);
    RunConcat(FRESH, acts, more);
    QueueDrains(After(FRESH, acts), more);
  }

  // ---- The same with traffic ----

  ghost predicate WritesTaken(acts: seq<Action>) {
    forall k | 0 <= k < |acts| && acts[k].Iterate? :: acts[k].input.write.Sent?
  }

  function Iterations(acts: seq<Action>): nat {
    if acts == [] then 0 else (if acts[0].Iterate? then 1 else 0) + Iterations(acts[1..])
  }

  /** How many iterations of the run find a PING. */
  function Pings(s: State, acts: seq<Action>): nat
    decreases |acts|
  {
    if acts == [] then 0
    else
      (if acts[0].Iterate? && FindsPing(s, acts[0].input) then 1 else 0) + Pings(Act(s, acts[0]).s, acts[1..])
  }

  /** The data in `goal` is written, or among the events ahead in the queue. */
  predicate Coming(s: State, ahead: seq<Event>, behind: seq<Event>, goal: seq<Frame>) {
    s.outputEvents == ahead + behind && goal <= DataOf(s.written) + DataOf(ahead)
  }

  /** One action brings the events ahead closer by one, unless a PONG gets in front. */
  lemma ComesCloser(s: State, a: Action, ahead: seq<Event>, behind: seq<Event>, goal: seq<Frame>)
      returns (ahead': seq<Event>, behind': seq<Event>)
    requires Healthy(s) && s.status.Open? && Coming(s, ahead, behind, goal) && ahead != []
    requires OkRun(s, [a]) && Act(s, a).s.status.Open? && (a.Iterate? ==> a.input.write.Sent?)
    ensures Coming(Act(s, a).s, ahead', behind', goal)
    ensures |ahead'| + (if a.Iterate? then 1 else 0) <=
            |ahead| + if a.Iterate? && FindsPing(s, a.input) then 1 else 0
  {
    match a
    case SendText(c) =>
      var fs, ps := SendEffect(s, c);
      ahead', behind' := ahead, behind + Events(fs);
      Regroup(ahead, behind, Events(fs));
    case Iterate(i) =>
      EventLoopIsTurn(s, i);
      var pong, fs := SentRemovesHead(s, i);
      ahead', behind' := OptSeq(pong) + ahead[1..], behind + Events(fs);
      assert s.outputEvents[0] == ahead[0] && s.outputEvents[1..] == ahead[1..] + behind;
      Shift(OptSeq(pong), ahead[1..], behind, Events(fs));
      HeadWritten(s.written, ahead, pong);
    case _ =>
      ahead', behind' := ahead, behind;
  }

  lemma Shift(a: seq<Event>, b: seq<Event>, c: seq<Event>, d: seq<Event>)
    ensures a + (b + c) + d == a + b + (c + d)
  {
  }

  lemma HeadWritten(w: seq<Event>, ahead: seq<Event>, pong: Option<Event>)
    requires ahead != [] && (pong.Some? ==> IsPong(pong.value))
    ensures DataOf(w + [ahead[0]]) + DataOf(OptSeq(pong) + ahead[1..]) == DataOf(w) + DataOf(ahead)
  {
    SentData(w, ahead[0], ahead[1..]);
    assert [ahead[0]] + ahead[1..] == ahead;
    PongIsNoData(pong, ahead[1..]);
  }

  lemma PongIsNoData(pong: Option<Event>, q: seq<Event>)
    requires pong.Some? ==> IsPong(pong.value)
    ensures DataOf(OptSeq(pong) + q) == DataOf(q)
  {
    if pong.Some? {
      assert ([pong.value] + q)[0] == pong.value && ([pong.value] + q)[1..] == q;
    } else {
      assert OptSeq(pong) + q == q;
    }
  }

  lemma {:induction false} ArrivesInTime(s: State, acts: seq<Action>, ahead: seq<Event>, behind: seq<Event>,
                                         goal: seq<Frame>)
    requires Healthy(s) && s.status.Open? && Coming(s, ahead, behind, goal)
    requires OkRun(s, acts) && WritesTaken(acts) && After(s, acts).status.Open?
    requires Iterations(acts) >= |ahead| + Pings(s, acts)
    ensures goal <= DataOf(After(s, acts).written)
    decreases |acts|
  {
    if ahead == [] {
      WrittenStays(s, acts);
    } else {
      var a := acts[0];
      FirstOfRun(s, acts);
      var ahead', behind' := ComesCloser(s, a, ahead, behind, goal);
      ArrivesInTime(Act(s, a).s, acts[1..], ahead', behind', goal);
    }
  }

  lemma FirstOfRun(s: State, acts: seq<Action>)
    requires Healthy(s) && s.status.Open? && OkRun(s, acts) && acts != [] && After(s, acts).status.Open?
    ensures OkRun(s, [acts[0]]) && Healthy(Act(s, acts[0]).s) && Act(s, acts[0]).s.status.Open?
  {
    assert [acts[0]][1..] == [];
    ActSound(s, acts[0]);
    OkIsSingle(Act(s, acts[0]).s, acts[1..]);
    RunSound(Act(s, acts[0]).s, acts[1..]);
  }

  lemma WrittenStays(s: State, acts: seq<Action>)
    requires Healthy(s) && OkRun(s, acts)
    ensures DataOf(s.written) <= DataOf(After(s, acts).written)
  {
    OkIsSingle(s, acts);
    var parts, more := RunSpells(s, acts);
    DataOfConcat(s.written, more);
  }

  lemma {:induction false} MessagesGrow(r: Rfc.Received, ws: seq<Rfc.WireFrame>)
    requires Rfc.DeliverAll(r, ws).Some?
    ensures r.messages <= Rfc.DeliverAll(r, ws).value.messages
    decreases |ws|
  {
    if ws != [] {
      MessagesGrow(Rfc.Deliver(r, ws[0]).value, ws[1..]);
    }
  }

  /**
   * Delivery: n events wait in the queue of an open connection. During the rest of the run the socket
   * takes every write, p PINGs come, anything else is received and sent, and the connection stays
   * open. After n + p iterations a server has received every non-empty payload that had been given to
   * send before, in order, ahead of everything else.
   */
  lemma Delivery(acts: seq<Action>, more: seq<Action>) returns (head: seq<byte>, tail: seq<byte>)
    requires OkRun(FRESH, acts + more) && WritesTaken(more)
    requires After(FRESH, acts).status.Open? && After(FRESH, acts + more).status.Open?
    requires Iterations(more) >= |After(FRESH, acts).outputEvents| + Pings(After(FRESH, acts), more)
    ensures After(FRESH, acts + more).wire == head + tail
    ensures var r := Rfc.ServerReceives(tail);
            r.Some? && NonEmpty(After(FRESH, acts).payloads) <= r.value.messages
  {
    DataArrives(acts, more);
    head, tail := EndToEndTheorem(acts + more);
    ServerHas(acts, acts + more, head, tail);
  }

  lemma DataArrives(acts: seq<Action>, more: seq<Action>)
    requires OkRun(FRESH, acts + more) && WritesTaken(more)
    requires After(FRESH, acts).status.Open? && After(FRESH, acts + more).status.Open?
    requires Iterations(more) >= |After(FRESH, acts).outputEvents| + Pings(After(FRESH, acts), more)
    ensures OkRun(FRESH, acts) && After(FRESH, acts).enqueued <= DataOf(After(FRESH, acts + more).written)
  {
    RunConcat(FRESH, acts, more);
    RunOrderly(FRESH, acts);
    OutputConservation(acts);
    var s := After(FRESH, acts);
    assert s.outputEvents + [] == s.outputEvents;
    ArrivesInTime(s, more, s.outputEvents, [], s.enqueued);
  }

  /** If all frames queued by the end of acts are written in the run `all`, a server has their payloads. */
  lemma ServerHas(acts: seq<Action>, all: seq<Action>, head: seq<byte>, tail: seq<byte>)
    requires OkRun(FRESH, acts) && OkRun(FRESH, all)
    requires After(FRESH, acts).enqueued <= DataOf(After(FRESH, all).written)
    requires IsWireOf(head, tail, After(FRESH, all).written) && Rfc.ServerReceives(tail).Some?
    ensures NonEmpty(After(FRESH, acts).payloads) <= Rfc.ServerReceives(tail).value.messages
  {
    var s, t := After(FRESH, acts), After(FRESH, all);
    Reached(acts);
    Reached(all);
    ServerReads(t, head, tail);
    PrefixDelivered(s.enqueued, NonEmpty(s.payloads), DataOf(t.written));
  }

  lemma PrefixDelivered(fs: seq<Frame>, ps: seq<seq<byte>>, gs: seq<Frame>)
    requires Faithful(fs, ps) && fs <= gs && Rfc.DeliverAll(Rfc.NOTHING, Wires(gs)).Some?
    ensures ps <= Rfc.DeliverAll(Rfc.NOTHING, Wires(gs)).value.messages
  {
    var rest := gs[|fs|..];
    assert gs == fs + rest;
    WiresConcat(fs, rest);
    Rfc.DeliverAllConcat(Rfc.NOTHING, Wires(fs), Wires(rest));
    MessagesGrow(Rfc.Received(ps, None), Wires(rest));
  }

  // ---- The closing handshake ends ----

  /** A control frame is among the next two events to be written. */
  predicate Near(q: seq<Event>) {
    (|q| >= 1 && IsControl(q[0])) || (|q| >= 2 && IsControl(q[1]))
  }

  predicate ReplyNear(s: State) {
    s.status.ServerWantsToClose? ==> Near(s.outputEvents)
  }

  lemma SendAllNear(s: State, calls: seq<SendCall>, held: Option<Event>)
    requires Near(Pending(s, held))
    ensures Near(Pending(SendAll(s, calls).s, held)) && SendAll(s, calls).s.status == s.status
  {
    var fs, ps := SendAllEffect(s, calls);
    var q := Pending(s, held);
    assert Pending(SendAll(s, calls).s, held) == q + Events(fs);
    assert forall k | 0 <= k < |q| :: (q + Events(fs))[k] == q[k];
  }

  lemma DataNear(s: State, f: Frame, i: StepInput, held: Option<Event>)
    requires Near(Pending(s, held))
    ensures Near(Pending(HandleData(s, f, i).s, held)) && HandleData(s, f, i).s.status == s.status
  {
    var t := if f.header.flag != FIN then s.(recvData := s.recvData + f.data) else s;
    var m := if t.recvData == [] then f.data else t.recvData + f.data;
    SendAllNear(t.(callbacks := t.callbacks + [OnText(m)]), i.inputSends, held);
  }

  lemma FrameNear(s: State, f: Frame, i: StepInput, held: Option<Event>)
    requires Incoming(f) && HandleFrame(s, f, i).outcome.Ok?
    requires s.status.Open? || (s.status.ServerWantsToClose? && held.Some? && Near(Pending(s, held)))
    ensures var t := HandleFrame(s, f, i).s;
            t.status.ServerWantsToClose? ==> Near(Pending(t, held))
  {
    var t := s.(dispatched := s.dispatched + [f]);
    if f.Kind().Data? {
      if s.status.Open? {
        StaysOpen(t, f, i);
      } else {
        DataNear(t, f, i, held);
      }
    } else if f.header.opcode == PING {
      PongIsOut(f, i.mask);
    } else if s.status.Open? {
      CloseIsOut(f, i.mask);
    }
  }

  lemma StaysOpen(s: State, f: Frame, i: StepInput)
    ensures HandleData(s, f, i).s.status == s.status
  {
    var t := if f.header.flag != FIN then s.(recvData := s.recvData + f.data) else s;
    var m := if t.recvData == [] then f.data else t.recvData + f.data;
    var fs, ps := SendAllEffect(t.(callbacks := t.callbacks + [OnText(m)]), i.inputSends);
  }

  /** Writing a control frame ends the connection; a blocked event goes back to the front. */
  lemma OutputNear(s: State, e: Event, i: StepInput)
    requires OutEvent(e) && s.status.ServerWantsToClose? && s.hasStream && Near(Pending(s, Some(e)))
    requires HandleOutput(s, e, i).outcome.Ok?
    ensures ReplyNear(HandleOutput(s, e, i).s)
    ensures i.write.Sent? && IsControl(e) ==> HandleOutput(s, e, i).s.status.Closed?
    ensures i.write.Sent? && !IsControl(e) ==> HandleOutput(s, e, i).s == Wrote(s, e, i)
  {
    assert Pending(s, Some(e)) == [e] + s.outputEvents;
    if IsControl(e) && i.write.Sent? {
      EndTrack(Wrote(s, e, i), e, i);
    }
  }

  lemma TurnNear(s: State, i: StepInput)
    requires Healthy(s) && (s.status.Open? || s.status.ServerWantsToClose?) && ReplyNear(s) && Turn(s, i).outcome.Ok?
    ensures ReplyNear(Turn(s, i).s)
    ensures s.status.ServerWantsToClose? && i.write.Sent? ==>
              var t := Turn(s, i).s;
              t.status.Closed? || (!IsControl(s.outputEvents[0]) && t.status.ServerWantsToClose? &&
                                   t.outputEvents != [] && IsControl(t.outputEvents[0]))
  {
    var r := ReadBytes(s, i);
    ReadKeepsQueues(s, i);
    ReadSound(s, i);
    PopHeld(r.s);
    PopSound(r.s);
    var out := PopOutput(r.s);
    InputSound(out.s, r.event, i);
    if r.event.WebsocketData? {
      FrameNear(out.s, r.event.frame, i, out.event);
      FrameStaysConnected(out.s, r.event.frame, i);
    }
    WriteNear(HandleInput(out.s, r.event, i).s, out.event, i);
  }

  lemma WriteNear(s: State, held: Option<Event>, i: StepInput)
    requires s.status.Open? || (s.status.ServerWantsToClose? && Near(Pending(s, held)))
    requires s.hasStream && (held.Some? ==> OutEvent(held.value)) && TurnOutput(Result(s, Ok), held, i).outcome.Ok?
    ensures var t := TurnOutput(Result(s, Ok), held, i).s;
            && ReplyNear(t)
            && (s.status.ServerWantsToClose? && i.write.Sent? && held.Some? ==>
                t.status.Closed? || (!IsControl(held.value) && t.status.ServerWantsToClose? &&
                                     t.outputEvents != [] && IsControl(t.outputEvents[0])))
  {
    if held.Some? && s.status.ServerWantsToClose? {
      OutputNear(s, held.value, i);
      assert Pending(s, held) == [held.value] + s.outputEvents;
    }
  }

  lemma ActNear(s: State, a: Action)
    requires Orderly(s, None) && ReplyNear(s) && !a.Discard? && (a.Initialize? ==> s.status.NotInit?)
    requires Act(s, a).outcome.Ok?
    ensures ReplyNear(Act(s, a).s)
  {
    match a
    case SendText(c) =>
      SendOne(s, c);
      if s.status.ServerWantsToClose? {
        SendAllNear(s, [c], None);
      } else {
        var fs, ps := SendEffect(s, c);
      }
    case Iterate(i) =>
      if s.status.Open? || s.status.ServerWantsToClose? {
        EventLoopIsTurn(s, i);
        TurnNear(s, i);
      } else if s.status.Handshake? {
        EventLoopIsTurn(s, i);
        HandshakeTurn(s, i);
      }
    case _ =>
  }

  lemma HandshakeTurn(s: State, i: StepInput)
    requires Healthy(s) && s.status.Handshake?
    ensures !Turn(s, i).s.status.ServerWantsToClose?
  {
    ReadKeepsQueues(s, i);
    ReadSound(s, i);
    var r := ReadBytes(s, i);
    if r.outcome.Ok? {
      var out := PopOutput(r.s);
      HandshakeInput(out.s, r.event, i);
      Opening.RequestOnly(HandleInput(out.s, r.event, i), out.event, i);
    }
  }

  lemma HandshakeInput(s: State, e: Event, i: StepInput)
    requires s.status.Handshake? && !e.WebsocketData?
    ensures !HandleInput(s, e, i).s.status.ServerWantsToClose?
  {
    if e.HttpResponse? {
      var t := s.(protocol := e.response.Header(Literal("Sec-WebSocket-Protocol")), status := Open);
      var fs, ps := SendAllEffect(t.(callbacks := t.callbacks + [OnConnect(e.response.body)]), i.inputSends);
    }
  }

  lemma {:induction false} RunNear(s: State, acts: seq<Action>)
    requires Orderly(s, None) && ReplyNear(s) && OkRun(s, acts)
    ensures ReplyNear(After(s, acts))
    decreases |acts|
  {
    if acts != [] {
      ActNear(s, acts[0]);
      ActOrderly(s, acts[0]);
      RunNear(Act(s, acts[0]).s, acts[1..]);
    }
  }

  /**
   * A successful run has brought the server's CLOSE. If the socket takes what it is given, the first
   * or the second of the next two iterations closes the connection, unless one of them fails.
   */
  lemma ClosesWithinTwo(acts: seq<Action>, i: StepInput, j: StepInput)
    requires OkRun(FRESH, acts) && After(FRESH, acts).status.ServerWantsToClose?
    requires i.write.Sent? && j.write.Sent?
    ensures var r := EventLoop(After(FRESH, acts), i);
            r.outcome.Ok? && !r.s.status.Closed? ==>
              var q := EventLoop(r.s, j);
              q.outcome.Ok? ==> q.s.status.Closed?
  {
    RunOrderly(FRESH, acts);
    RunNear(FRESH, acts);
    var s := After(FRESH, acts);
    EventLoopIsTurn(s, i);
    if Turn(s, i).outcome.Ok? && !Turn(s, i).s.status.Closed? {
      TurnNear(s, i);
      TurnSound(s, i);
      SecondCloses(Turn(s, i).s, j);
    }
  }

  lemma SecondCloses(t: State, j: StepInput)
    requires Healthy(t) && t.status.ServerWantsToClose? && t.outputEvents != [] && IsControl(t.outputEvents[0])
    requires j.write.Sent?
    ensures EventLoop(t, j).outcome.Ok? ==> EventLoop(t, j).s.status.Closed?
  {
    EventLoopIsTurn(t, j);
    if Turn(t, j).outcome.Ok? {
      TurnNear(t, j);
    }
  }
}
