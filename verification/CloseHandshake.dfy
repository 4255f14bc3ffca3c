/**
 * The closing handshake a server starts (section 5.5.1 of RFC 6455): what the client still writes
 * after a CLOSE has arrived, and exactly when its last frame is the reply.
 */
module CloseHandshake {
  import opened Bytes
  import opened Wrappers
  import opened Frames
  import opened Session
  import opened Outgoing
  import opened Runs
  import opened Lifecycle
  import opened Output
  import opened Streaming
  import opened Writes
  import opened Codec
  import Rfc = Rfc6455

  /** The bytes are exactly one final frame with this mask, opcode and payload. */
  predicate IsOneFrame(bytes: seq<byte>, mask: Mask, opcode: nat, payload: seq<byte>) {
    var d := Rfc.Decode(bytes);
    && d.Some? && d.value.1 == |bytes|
    && d.value.0.fin && d.value.0.maskKey == Some(mask) && d.value.0.opcode == opcode && d.value.0.payload == payload
  }

  /** 1000, 1001 and 1004 are echoed; every other status is answered with 1002, a protocol error. */
  function AnsweredStatus(status: nat): nat {
    if status in {1000, 1001, 1004} then status else 1002
  }

  lemma ReplyContents(f: Frame, mask: Mask)
    requires 2 <= |f.data| <= 125
    ensures IsOneFrame(FrameBytes(CloseReply(f, mask)), mask, Rfc.CLOSE,
                       BeBytes(AnsweredStatus(BeValue(f.data[..2])), 2) + f.data[2..])
  {
    CloseIsOut(f, mask);
    var reply := CloseReply(f, mask);
    SerializedFrameDecodes(reply, FrameBytes(reply));
  }

  predicate IsControl(e: Event) {
    e.WebsocketData? && e.frame.Kind().Control?
  }

  predicate IsPong(e: Event) {
    e.WebsocketData? && e.frame.ControlFrame? && e.frame.header.opcode == PONG && e.frame.statusCode.None?
  }

  function FirstControl(q: seq<Event>): Option<Event> {
    if q == [] then None else if IsControl(q[0]) then Some(q[0]) else FirstControl(q[1..])
  }

  lemma {:induction false} FirstControlConcat(a: seq<Event>, b: seq<Event>)
    ensures FirstControl(a + b) == if FirstControl(a).Some? then FirstControl(a) else FirstControl(b)
  {
    if a == [] {
      assert a + b == b;
    } else {
      assert (a + b)[0] == a[0] && (a + b)[1..] == a[1..] + b;
      FirstControlConcat(a[1..], b);
    }
  }

  /** What the client is to have written in all when the connection ends properly. */
  predicate OnTrack(w: seq<Event>, q: seq<Event>, goal: seq<Event>) {
    && |w| < |goal| && goal <= w + q
    && (forall k | |w| <= k < |goal| - 1 :: !IsControl(goal[k]))
    && IsControl(goal[|goal| - 1])
  }

  /** The goal ends with a close reply of this status. */
  predicate Goal(goal: seq<Event>, code: nat) {
    && goal != []
    && IsClose(goal[|goal| - 1])
    && goal[|goal| - 1].frame.ControlFrame?
    && goal[|goal| - 1].frame.statusCode == Some(code)
  }

  predicate ClosedWith(s: State, code: nat) {
    s.hasCallback ==> s.callbacks != [] && s.callbacks[|s.callbacks| - 1] == OnClose(ServerClose(code))
  }

  /** The reply is still to come, or was the last thing written. */
  predicate Replying(s: State, held: Option<Event>, goal: seq<Event>, code: nat) {
    && Goal(goal, code)
    && (s.status.ServerWantsToClose? || s.status.Closed?)
    && (s.status.ServerWantsToClose? ==> OnTrack(s.written, Pending(s, held), goal))
    && (s.status.Closed? ==> s.written == goal && ClosedWith(s, code))
  }

  /** A PONG got ahead of the reply: it ends the connection instead. */
  predicate Poisoned(s: State, held: Option<Event>) {
    && (s.status.ServerWantsToClose? || s.status.Closed?)
    && (s.status.ServerWantsToClose? ==>
        var c := FirstControl(Pending(s, held)); c.Some? && IsPong(c.value))
    && (s.status.Closed? ==> s.written != [] && IsPong(s.written[|s.written| - 1]) && ClosedWith(s, 0))
  }

  // ---- One iteration while the server closes ----

  lemma SendAllTrack(s: State, held: Option<Event>, calls: seq<SendCall>, goal: seq<Event>, code: nat)
    requires s.status.ServerWantsToClose?
    ensures Replying(s, held, goal, code) ==> Replying(SendAll(s, calls).s, held, goal, code)
    ensures Poisoned(s, held) ==> Poisoned(SendAll(s, calls).s, held)
    ensures SendAll(s, calls).s.status == s.status && SendAll(s, calls).s.callbacks == s.callbacks
  {
    var fs, ps := SendAllEffect(s, calls);
    var t := SendAll(s, calls).s;
    assert Pending(t, held) == Pending(s, held) + Events(fs);
    assert s.written + (Pending(s, held) + Events(fs)) == s.written + Pending(s, held) + Events(fs);
    FirstControlConcat(Pending(s, held), Events(fs));
  }

  lemma FireTrack(s: State, held: Option<Event>, e: WSEvent, calls: seq<SendCall>, goal: seq<Event>, code: nat)
    requires s.status.ServerWantsToClose?
    ensures Replying(s, held, goal, code) ==> Replying(Fire(s, e, calls).s, held, goal, code)
    ensures Poisoned(s, held) ==> Poisoned(Fire(s, e, calls).s, held)
    ensures Fire(s, e, calls).s.status == s.status
  {
    SendAllTrack(s.(callbacks := s.callbacks + [e]), held, calls, goal, code);
  }

  lemma DataTrack(s: State, held: Option<Event>, f: Frame, i: StepInput, goal: seq<Event>, code: nat)
    requires s.status.ServerWantsToClose?
    ensures Replying(s, held, goal, code) ==> Replying(HandleData(s, f, i).s, held, goal, code)
    ensures Poisoned(s, held) ==> Poisoned(HandleData(s, f, i).s, held)
    ensures HandleData(s, f, i).s.status == s.status
  {
    var t := if f.header.flag != FIN then s.(recvData := s.recvData + f.data) else s;
    if s.hasCallback {
      var m := if t.recvData == [] then f.data else t.recvData + f.data;
      FireTrack(t, held, OnText(m), i.inputSends, goal, code);
    }
  }

  /** A PING is harmless for the handshake if the frame being written is a control frame already. */
  predicate PingSafe(e: Event, held: Option<Event>) {
    e.WebsocketData? && e.frame.header.opcode == PING ==> held.Some? && IsControl(held.value)
  }

  lemma TrackHead(w: seq<Event>, e: Event, rest: seq<Event>, goal: seq<Event>)
    requires OnTrack(w, [e] + rest, goal)
    ensures goal[|w|] == e
    ensures IsControl(e) <==> w + [e] == goal
    ensures !IsControl(e) ==> OnTrack(w + [e], rest, goal)
  {
    var all := w + ([e] + rest);
    assert all[|w|] == e && all == w + [e] + rest;
    assert goal[|w|] == all[|w|];
    if IsControl(e) {
      assert |goal| == |w| + 1;
      assert goal == all[..|goal|] == w + [e];
    }
  }

  lemma PongTrack(s: State, held: Option<Event>, p: Event, goal: seq<Event>, code: nat)
    requires s.status.ServerWantsToClose? && IsPong(p)
    ensures var t := s.(outputEvents := [p] + s.outputEvents);
            && (Replying(s, held, goal, code) && held.Some? && IsControl(held.value) ==> Replying(t, held, goal, code))
            && (Replying(s, held, goal, code) && (held.None? || !IsControl(held.value)) ==> Poisoned(t, held))
            && (Poisoned(s, held) ==> Poisoned(t, held))
  {
    var t := s.(outputEvents := [p] + s.outputEvents);
    FirstControlConcat(OptSeq(held), [p] + s.outputEvents);
    FirstControlConcat(OptSeq(held), s.outputEvents);
    if Replying(s, held, goal, code) && held.Some? && IsControl(held.value) {
      TrackHead(s.written, held.value, s.outputEvents, goal);
      assert s.written + Pending(t, held) == goal + ([p] + s.outputEvents);
    }
  }

  lemma FrameTrack(s: State, held: Option<Event>, f: Frame, i: StepInput, goal: seq<Event>, code: nat)
    requires s.status.ServerWantsToClose? && Incoming(f) && HandleFrame(s, f, i).outcome.Ok?
    ensures var t := HandleFrame(s, f, i).s;
            && t.status.ServerWantsToClose?
            && (Replying(s, held, goal, code) && PingSafe(WebsocketData(f), held) ==> Replying(t, held, goal, code))
            && (Replying(s, held, goal, code) && !PingSafe(WebsocketData(f), held) ==> Poisoned(t, held))
            && (Poisoned(s, held) ==> Poisoned(t, held))
  {
    var t := s.(dispatched := s.dispatched + [f]);
    if f.Kind().Data? {
      DataTrack(t, held, f, i, goal, code);
    } else if f.header.opcode == PING {
      PongIsOut(f, i.mask);
      PongTrack(t, held, WebsocketData(PongFor(f, i.mask)), goal, code);
    }
  }

  lemma EndTrack(s: State, e: Event, i: StepInput)
    requires s.status.ServerWantsToClose? && s.hasStream && e.WebsocketData? && e.frame.ControlFrame?
    requires EndByServer(s, e.frame, i).outcome.Ok?
    ensures var t := EndByServer(s, e.frame, i).s;
            && t.status.Closed? && t.written == s.written
            && ClosedWith(t, if e.frame.statusCode.Some? then e.frame.statusCode.value else 0)
  {
    var code := if e.frame.statusCode.Some? then e.frame.statusCode.value else 0;
    var u := s.(status := Closed, hasStream := false);
    var fs, ps := SendAllEffect(u.(callbacks := u.callbacks + [OnClose(ServerClose(code))]), i.outputSends);
  }

  lemma OutputReplying(s: State, e: Event, i: StepInput, goal: seq<Event>, code: nat)
    requires Replying(s, Some(e), goal, code) && s.status.ServerWantsToClose? && OutEvent(e)
    requires HandleOutput(s, e, i).outcome.Ok?
    ensures Replying(HandleOutput(s, e, i).s, None, goal, code)
  {
    if i.write.Blocked? {
      assert Pending(s.(outputEvents := [e] + s.outputEvents), None) == Pending(s, Some(e));
    } else {
      SentReplying(s, e, i, goal, code);
      if IsControl(e) {
        EndTrack(Wrote(s, e, i), e, i);
      }
    }
  }

  lemma SentReplying(s: State, e: Event, i: StepInput, goal: seq<Event>, code: nat)
    requires Replying(s, Some(e), goal, code) && s.status.ServerWantsToClose?
    ensures var t := Wrote(s, e, i);
            if IsControl(e) then t.written == goal && e == goal[|goal| - 1]
            else Replying(t, None, goal, code)
  {
    TrackHead(s.written, e, s.outputEvents, goal);
    assert Pending(Wrote(s, e, i), None) == s.outputEvents;
  }

  lemma OutputPoisoned(s: State, e: Event, i: StepInput)
    requires Poisoned(s, Some(e)) && s.status.ServerWantsToClose? && OutEvent(e)
    requires HandleOutput(s, e, i).outcome.Ok?
    ensures Poisoned(HandleOutput(s, e, i).s, None)
  {
    assert Pending(s, Some(e))[1..] == s.outputEvents;
    if i.write.Blocked? {
      assert Pending(s.(outputEvents := [e] + s.outputEvents), None) == Pending(s, Some(e));
    } else {
      var t := Wrote(s, e, i);
      assert Pending(t, None) == s.outputEvents;
      if IsControl(e) {
        EndTrack(t, e, i);
      }
    }
  }

  /** No PING slips in ahead of the reply during this iteration. */
  predicate CleanStep(s: State, i: StepInput) {
    PingSafe(ReadBytes(s, i).event, PopOutput(s).event)
  }

  lemma PopHeld(s: State)
    requires Framing(s.status)
    ensures Pending(PopOutput(s).s, PopOutput(s).event) == Pending(s, None)
    ensures PopOutput(s).event.None? ==> s.outputEvents == []
    ensures PopOutput(s).s == s.(outputEvents := PopOutput(s).s.outputEvents)
  {
  }

  lemma TurnTrack(s: State, i: StepInput, goal: seq<Event>, code: nat)
    requires Healthy(s) && s.status.ServerWantsToClose? && Turn(s, i).outcome.Ok?
    ensures Replying(s, None, goal, code) && CleanStep(s, i) ==> Replying(Turn(s, i).s, None, goal, code)
    ensures Replying(s, None, goal, code) && !CleanStep(s, i) ==> Poisoned(Turn(s, i).s, None)
    ensures Poisoned(s, None) ==> Poisoned(Turn(s, i).s, None)
  {
    var r := ReadBytes(s, i);
    ReadKeepsQueues(s, i);
    ReadSound(s, i);
    PopHeld(r.s);
    PopSound(r.s);
    var out := PopOutput(r.s);
    var held := PopOutput(s).event;
    assert Replying(s, None, goal, code) ==> Replying(out.s, held, goal, code);
    assert Poisoned(s, None) ==> Poisoned(out.s, held);
    if r.event.WebsocketData? {
      FrameTrack(out.s, held, r.event.frame, i, goal, code);
    }
    WriteTrack(HandleInput(out.s, r.event, i), held, i, goal, code);
  }

  lemma WriteTrack(h: Result, held: Option<Event>, i: StepInput, goal: seq<Event>, code: nat)
    requires h.outcome.Ok? && h.s.status.ServerWantsToClose? && (held.Some? ==> OutEvent(held.value))
    requires TurnOutput(h, held, i).outcome.Ok?
    ensures Replying(h.s, held, goal, code) ==> Replying(TurnOutput(h, held, i).s, None, goal, code)
    ensures Poisoned(h.s, held) ==> Poisoned(TurnOutput(h, held, i).s, None)
  {
    if held.Some? {
      if Replying(h.s, held, goal, code) {
        OutputReplying(h.s, held.value, i, goal, code);
      }
      if Poisoned(h.s, held) {
        OutputPoisoned(h.s, held.value, i);
      }
    }
  }

  // ---- The rest of the run ----

  /** No PING gets ahead of the reply during the rest of the run. */
  predicate Clean(s: State, acts: seq<Action>)
    decreases |acts|
  {
    acts == [] || (
      && (acts[0].Iterate? && s.status.ServerWantsToClose? ==> CleanStep(s, acts[0].input))
      && Clean(Act(s, acts[0]).s, acts[1..]))
  }

  lemma ActTrack(s: State, a: Action, goal: seq<Event>, code: nat)
    requires Healthy(s) && !a.Discard? && !a.Initialize? && Act(s, a).outcome.Ok?
    requires s.status.ServerWantsToClose? || s.status.Closed?
    ensures var t := Act(s, a).s;
            var clean := a.Iterate? && s.status.ServerWantsToClose? ==> CleanStep(s, a.input);
            && (Replying(s, None, goal, code) && clean ==> Replying(t, None, goal, code))
            && (Replying(s, None, goal, code) && !clean ==> Poisoned(t, None))
            && (Poisoned(s, None) ==> Poisoned(t, None))
  {
    match a
    case SendText(c) =>
      if s.status.ServerWantsToClose? {
        SendAllTrack(s, None, [c], goal, code);
        SendOne(s, c);
      } else {
        var fs, ps := SendEffect(s, c);
      }
    case Iterate(i) =>
      if s.status.ServerWantsToClose? {
        EventLoopIsTurn(s, i);
        TurnTrack(s, i, goal, code);
      }
    case _ =>
  }

  lemma {:induction false} RunTrack(s: State, acts: seq<Action>, goal: seq<Event>, code: nat)
    requires Healthy(s) && OkRun(s, acts) && (s.status.ServerWantsToClose? || s.status.Closed?)
    ensures Replying(s, None, goal, code) && Clean(s, acts) ==> Replying(After(s, acts), None, goal, code)
    ensures Replying(s, None, goal, code) && !Clean(s, acts) ==> Poisoned(After(s, acts), None)
    ensures Poisoned(s, None) ==> Poisoned(After(s, acts), None)
    decreases |acts|
  {
    if acts != [] {
      ActSound(s, acts[0]);
      ActTrack(s, acts[0], goal, code);
      var t := Act(s, acts[0]).s;
      if t.status.ServerWantsToClose? || t.status.Closed? {
        RunTrack(t, acts[1..], goal, code);
      }
    }
  }

  // ---- The CLOSE arrives ----

  /** The event held when the CLOSE arrives, then the reply. */
  function ReplyGoal(s: State, f: Frame, mask: Mask): seq<Event>
    requires |f.data| >= 2
  {
    s.written + OptSeq(PopOutput(s).event) + [WebsocketData(CloseReply(f, mask))]
  }

  /** The status of the reply, from the first two bytes of the payload. */
  function ReplyCode(f: Frame): nat
    requires |f.data| >= 2
  {
    AnsweredStatus(BeValue(f.data[..2]))
  }

  /** After the input phase of that iteration. */
  lemma ReplyQueued(s: State, held: Option<Event>, f: Frame, mask: Mask)
    requires s.status.ServerWantsToClose? && 2 <= |f.data| <= 125
    requires s.outputEvents == [WebsocketData(CloseReply(f, mask))]
    ensures held.None? || !IsControl(held.value) ==>
              Replying(s, held, s.written + OptSeq(held) + [WebsocketData(CloseReply(f, mask))],
                       ReplyCode(f))
    ensures held.Some? && IsPong(held.value) ==> Poisoned(s, held)
  {
    CloseIsOut(f, mask);
    var reply := WebsocketData(CloseReply(f, mask));
    assert s.written + Pending(s, held) == s.written + OptSeq(held) + [reply];
    FirstControlConcat(OptSeq(held), [reply]);
  }

  lemma CloseHandled(s: State, f: Frame, i: StepInput)
    requires s.status.Open? && Incoming(f) && f.header.opcode == CLOSE
    ensures HandleInput(s, WebsocketData(f), i) ==
            Result(s.(dispatched := s.dispatched + [f], outputEvents := [WebsocketData(CloseReply(f, i.mask))],
                      inputEvents := [], status := ServerWantsToClose), Ok)
  {
  }

  /** A control frame queued by an open client is a PONG. */
  lemma HeldIsPong(s: State)
    requires Orderly(s, None) && s.status.Open? && PopOutput(s).event.Some? && IsControl(PopOutput(s).event.value)
    ensures IsPong(PopOutput(s).event.value)
  {
    var e := PopOutput(s).event.value;
    assert e in s.outputEvents && Pending(s, None) == s.outputEvents;
  }

  predicate HoldsControl(s: State) {
    PopOutput(s).event.Some? && IsControl(PopOutput(s).event.value)
  }

  lemma CloseArrival(s: State, i: StepInput, f: Frame)
    requires Orderly(s, None) && s.status.Open? && f.header.opcode == CLOSE
    requires Turn(s, i).outcome.Ok? && Turn(s, i).s.dispatched == s.dispatched + [f]
    ensures 2 <= |f.data| <= 125 && Healthy(Turn(s, i).s)
    ensures if HoldsControl(s) then Poisoned(Turn(s, i).s, None)
            else Replying(Turn(s, i).s, None, ReplyGoal(s, f, i.mask), ReplyCode(f))
  {
    TurnInput(s, i);
    TurnSound(s, i);
    var r := ReadBytes(s, i);
    assert r.event == WebsocketData(f) by {
      assert (s.dispatched + [f])[|s.dispatched|] == f;
    }
    ReadKeepsQueues(s, i);
    ReadSound(s, i);
    PopHeld(r.s);
    PopSound(r.s);
    var out := PopOutput(r.s);
    CloseHandled(out.s, f, i);
    var h := HandleInput(out.s, r.event, i);
    ReplyQueued(h.s, PopOutput(s).event, f, i.mask);
    if HoldsControl(s) {
      HeldIsPong(s);
    }
    WriteTrack(h, PopOutput(s).event, i, ReplyGoal(s, f, i.mask), ReplyCode(f));
  }

  /** The reply gets out: no PONG is held when the CLOSE arrives, and no PING gets ahead of the reply. */
  predicate Undisturbed(s: State, u: State, acts: seq<Action>) {
    !HoldsControl(s) && Clean(u, acts)
  }

  /** The connection ended with the reply of this status. */
  predicate EndedByReply(t: State, goal: seq<Event>, code: nat) {
    t.written == goal && ClosedWith(t, code)
  }

  /** The connection ended with a PONG. */
  predicate EndedByPong(t: State) {
    t.written != [] && IsPong(t.written[|t.written| - 1]) && ClosedWith(t, 0)
  }

  lemma OneEnding(t: State, goal: seq<Event>, code: nat)
    requires Goal(goal, code) && EndedByPong(t)
    ensures t.written != goal
  {
  }

  lemma HandshakeOutcome(u: State, acts: seq<Action>, goal: seq<Event>, code: nat, held: bool)
    requires Healthy(u) && OkRun(u, acts) && Goal(goal, code)
    requires if held then Poisoned(u, None) else Replying(u, None, goal, code)
    requires After(u, acts).status.Closed?
    ensures if !held && Clean(u, acts) then EndedByReply(After(u, acts), goal, code) else EndedByPong(After(u, acts))
  {
    RunTrack(u, acts, goal, code);
  }

  /** The state when the CLOSE arrives, and the state after the iteration in which it does. */
  lemma ArrivalOnRun(before: seq<Action>, i: StepInput, f: Frame, acts: seq<Action>) returns (s: State, u: State)
    requires OkRun(FRESH, before + [Iterate(i)] + acts)
    requires After(FRESH, before).status.Open? && f.header.opcode == CLOSE
    requires After(FRESH, before + [Iterate(i)]).dispatched == After(FRESH, before).dispatched + [f]
    ensures s == After(FRESH, before) && u == After(FRESH, before + [Iterate(i)])
    ensures OkRun(u, acts) && After(u, acts) == After(FRESH, before + [Iterate(i)] + acts)
    ensures 2 <= |f.data| <= 125 && Healthy(u)
    ensures if HoldsControl(s) then Poisoned(u, None)
            else Replying(u, None, ReplyGoal(s, f, i.mask), ReplyCode(f))
  {
    RunConcat(FRESH, before + [Iterate(i)], acts);
    RunConcat(FRESH, before, [Iterate(i)]);
    RunOrderly(FRESH, before);
    s, u := After(FRESH, before), After(FRESH, before + [Iterate(i)]);
    OneTurn(s, i);
    CloseArrival(s, i, f);
  }

  /**
   * On a successful run a CLOSE frame f arrives while the client is open, and later the connection
   * is closed. Then the client has written the event it held when f arrived, if any, and the reply,
   * and it reports SERVER_CLOSE with the status of the reply, if and only if no PONG was held and no
   * PING got ahead of the reply. Otherwise a PONG was the last frame and SERVER_CLOSE(0) is reported.
   */
  lemma CloseHandshakeTheorem(before: seq<Action>, i: StepInput, f: Frame, acts: seq<Action>)
    requires OkRun(FRESH, before + [Iterate(i)] + acts)
    requires After(FRESH, before).status.Open? && f.header.opcode == CLOSE
    requires After(FRESH, before + [Iterate(i)]).dispatched == After(FRESH, before).dispatched + [f]
    requires After(FRESH, before + [Iterate(i)] + acts).status.Closed?
    ensures |f.data| >= 2
    ensures var s, u := After(FRESH, before), After(FRESH, before + [Iterate(i)]);
            var t := After(FRESH, before + [Iterate(i)] + acts);
            && (Undisturbed(s, u, acts) <==> t.written == ReplyGoal(s, f, i.mask))
            && if Undisturbed(s, u, acts) then EndedByReply(t, ReplyGoal(s, f, i.mask), ReplyCode(f))
               else EndedByPong(t)
  {
    var s, u := ArrivalOnRun(before, i, f, acts);
    CloseIsOut(f, i.mask);
    var goal := ReplyGoal(s, f, i.mask);
    HandshakeOutcome(u, acts, goal, ReplyCode(f), HoldsControl(s));
    if !Undisturbed(s, u, acts) {
      OneEnding(After(u, acts), goal, ReplyCode(f));
    }
  }

  /** At any time after the CLOSE, what an undisturbed client has written is a part of that goal. */
  lemma NothingElseWritten(before: seq<Action>, i: StepInput, f: Frame, acts: seq<Action>)
    requires OkRun(FRESH, before + [Iterate(i)] + acts)
    requires After(FRESH, before).status.Open? && f.header.opcode == CLOSE
    requires After(FRESH, before + [Iterate(i)]).dispatched == After(FRESH, before).dispatched + [f]
    requires Undisturbed(After(FRESH, before), After(FRESH, before + [Iterate(i)]), acts)
    ensures |f.data| >= 2
    ensures After(FRESH, before + [Iterate(i)] + acts).written <= ReplyGoal(After(FRESH, before), f, i.mask)
  {
    var s, u := ArrivalOnRun(before, i, f, acts);
    RunTrack(u, acts, ReplyGoal(s, f, i.mask), ReplyCode(f));
    var t := After(u, acts);
    if t.status.ServerWantsToClose? {
      assert forall k | 0 <= k < |t.written| :: t.written[k] == (t.written + Pending(t, None))[k];
    }
  }

  /**
   * On the wire: what goes to the socket after the CLOSE arrived, when the connection ends properly, is
   * the event that was held, if any, and then one frame, which a receiver reads as a CLOSE with the
   * answered status and the reason received.
   */
  lemma ReplyOnWire(before: seq<Action>, i: StepInput, f: Frame, acts: seq<Action>)
      returns (first: seq<byte>, last: seq<byte>)
    requires OkRun(FRESH, before + [Iterate(i)] + acts)
    requires After(FRESH, before).status.Open? && f.header.opcode == CLOSE
    requires After(FRESH, before + [Iterate(i)]).dispatched == After(FRESH, before).dispatched + [f]
    requires After(FRESH, before + [Iterate(i)] + acts).status.Closed?
    requires Undisturbed(After(FRESH, before), After(FRESH, before + [Iterate(i)]), acts)
    ensures |f.data| >= 2
    ensures var s, t := After(FRESH, before), After(FRESH, before + [Iterate(i)] + acts);
            && t.wire == s.wire + first + last
            && (if PopOutput(s).event.None? then first == [] else IsBytesOf(first, PopOutput(s).event.value))
            && IsOneFrame(last, i.mask, Rfc.CLOSE, BeBytes(ReplyCode(f), 2) + f.data[2..])
  {
    var s, u := ArrivalOnRun(before, i, f, acts);
    CloseHandshakeTheorem(before, i, f, acts);
    var parts, more := RestSpells(before, [Iterate(i)], acts);
    var reply := WebsocketData(CloseReply(f, i.mask));
    Regroup(s.written, OptSeq(PopOutput(s).event), [reply]);
    Cancel(s.written, more, OptSeq(PopOutput(s).event) + [reply]);
    first, last := LastPiece(parts, PopOutput(s).event, reply);
    Regroup(s.wire, first, last);
    ReplyContents(f, i.mask);
  }

  /** The bytes that go to the socket in the rest of a run. */
  lemma RestSpells(before: seq<Action>, one: seq<Action>, acts: seq<Action>)
      returns (parts: seq<seq<byte>>, more: seq<Event>)
    requires OkRun(FRESH, before + one + acts)
    ensures Spelled(After(FRESH, before), parts, more, After(FRESH, before + one + acts))
  {
    Regroup(before, one, acts);
    RunConcat(FRESH, before, one + acts);
    RunOrderly(FRESH, before);
    OkIsSingle(After(FRESH, before), one + acts);
    parts, more := RunSpells(After(FRESH, before), one + acts);
  }

  lemma LastPiece(parts: seq<seq<byte>>, held: Option<Event>, e: Event) returns (first: seq<byte>, last: seq<byte>)
    requires Spells(parts, OptSeq(held) + [e])
    ensures Flatten(parts) == first + last && IsBytesOf(last, e)
    ensures if held.None? then first == [] else IsBytesOf(first, held.value)
  {
    var q, n := OptSeq(held) + [e], |OptSeq(held)|;
    assert IsBytesOf(parts[n], q[n]);
    last := parts[n];
    OnePiece(last);
    if held.Some? {
      assert IsBytesOf(parts[0], q[0]);
      first := parts[0];
      assert parts == [first] + [last];
      FlattenConcat([first], [last]);
      OnePiece(first);
    } else {
      first := [];
      assert parts == [last] && first + last == last;
    }
  }

  // ---- An ordinary input on which the reply is never sent ----

  /** A control frame that arrives in one read on an empty storage is taken off it at once. */
  lemma ReadsControl(s: State, i: StepInput, b: seq<byte>, w: Rfc.WireFrame)
    requires Framing(s.status) && s.hasStream && s.recvStorage == []
    requires ServerWire(b, w) && ControlOpcode(w.opcode) && 2 <= |w.payload| && w.rsv % 2 == 0
    requires i.read.Received? && i.read.bytes == b
    ensures Parse(b).Complete? && Incoming(Parse(b).frame) && Parse(b).frame.header.opcode == w.opcode
    ensures ReadBytes(s, i) == ReadOut(s.(received := s.received + b), Ok, WebsocketData(Parse(b).frame))
  {
    ControlParsed(b, w);
    ParsedIncoming(b);
    ReadsWhole(s, i, b);
  }

  lemma ReadsWhole(s: State, i: StepInput, b: seq<byte>)
    requires Framing(s.status) && s.hasStream && s.recvStorage == []
    requires Parse(b).Complete? && Parse(b).offset == |b| && i.read.Received? && i.read.bytes == b
    ensures ReadBytes(s, i) == ReadOut(s.(received := s.received + b), Ok, WebsocketData(Parse(b).frame))
  {
    assert s.recvStorage + b == b && b[|b|..] == [];
    assert Store(s, b).(recvStorage := []) == s.(received := s.received + b);
  }

  /** The PING is answered by queueing a PONG. */
  lemma PingArrives(s: State, i: StepInput, b: seq<byte>, w: Rfc.WireFrame)
    requires s.status.Open? && s.hasStream && s.outputEvents == [] && s.recvStorage == []
    requires ServerWire(b, w) && w.opcode == PING && 2 <= |w.payload| && w.rsv % 2 == 0
    requires i.read.Received? && i.read.bytes == b
    ensures Parse(b).Complete?
    ensures var pong := WebsocketData(PongFor(Parse(b).frame, i.mask));
            && IsPong(pong)
            && Turn(s, i) == Result(s.(received := s.received + b, dispatched := s.dispatched + [Parse(b).frame],
                                       outputEvents := [pong]), Ok)
  {
    ReadsControl(s, i, b, w);
    PongIsOut(Parse(b).frame, i.mask);
  }

  /** The CLOSE arrives while the PONG is about to be written, and the PONG ends the connection. */
  lemma CloseFindsPong(s: State, pong: Event, j: StepInput, c: seq<byte>, w: Rfc.WireFrame)
    requires s.status.Open? && s.hasStream && s.outputEvents == [pong] && s.recvStorage == [] && IsPong(pong)
    requires ServerWire(c, w) && w.opcode == CLOSE && 2 <= |w.payload| && w.rsv % 2 == 0
    requires j.read.Received? && j.read.bytes == c && j.write.Sent? && j.shutdownOk
    ensures var r := Turn(s, j);
            && r.outcome.Ok? && r.s.status.Closed? && r.s.written == s.written + [pong] && ClosedWith(r.s, 0)
  {
    ReadsControl(s, j, c, w);
    var f := Parse(c).frame;
    var t := s.(received := s.received + c, outputEvents := []);
    assert PopOutput(ReadBytes(s, j).s) == PopOut(t, Some(pong));
    CloseHandled(t, f, j);
    PongEnds(HandleInput(t, WebsocketData(f), j).s, pong, j);
  }

  lemma PongEnds(s: State, pong: Event, j: StepInput)
    requires s.status.ServerWantsToClose? && s.hasStream && IsPong(pong) && j.write.Sent? && j.shutdownOk
    ensures var r := HandleOutput(s, pong, j);
            && r.outcome.Ok? && r.s.status.Closed? && r.s.written == s.written + [pong] && ClosedWith(r.s, 0)
  {
    var u := Wrote(s, pong, j).(status := Closed, hasStream := false);
    ClosedSendsNothing(u.(callbacks := u.callbacks + [OnClose(ServerClose(0))]), j.outputSends);
  }

  /**
   * The handshake does fail on an ordinary input. An open connection has nothing to write; a PING
   * arrives in one iteration and a CLOSE in the next, and no write is blocked. Both iterations
   * succeed, the PONG is the only frame written, and the connection ends with status 0.
   */
  lemma PingBeforeClose(before: seq<Action>, i: StepInput, b: seq<byte>, v: Rfc.WireFrame,
                        j: StepInput, c: seq<byte>, w: Rfc.WireFrame)
    requires OkRun(FRESH, before) && After(FRESH, before).status.Open?
    requires After(FRESH, before).outputEvents == [] && After(FRESH, before).recvStorage == []
    requires ServerWire(b, v) && v.opcode == PING && 2 <= |v.payload| && v.rsv % 2 == 0
    requires ServerWire(c, w) && w.opcode == CLOSE && 2 <= |w.payload| && w.rsv % 2 == 0
    requires i.read.Received? && i.read.bytes == b && j.read.Received? && j.read.bytes == c
    requires j.write.Sent? && j.shutdownOk
    ensures OkRun(FRESH, before + [Iterate(i)] + [Iterate(j)])
    ensures var s, t := After(FRESH, before), After(FRESH, before + [Iterate(i)] + [Iterate(j)]);
            t.status.Closed? && |t.written| == |s.written| + 1 && EndedByPong(t)
  {
    RunOrderly(FRESH, before);
    var s := After(FRESH, before);
    PingArrives(s, i, b, v);
    TurnSound(s, i);
    var t := Turn(s, i).s;
    CloseFindsPong(t, t.outputEvents[0], j, c, w);
    RunConcat(FRESH, before, [Iterate(i)]);
    RunConcat(FRESH, before + [Iterate(i)], [Iterate(j)]);
    OneTurn(s, i);
    OneTurn(t, j);
  }

  lemma OneTurn(s: State, i: StepInput)
    requires Healthy(s) && Connected(s.status)
    ensures After(s, [Iterate(i)]) == Turn(s, i).s && (OkRun(s, [Iterate(i)]) <==> Turn(s, i).outcome.Ok?)
  {
    EventLoopIsTurn(s, i);
    assert [Iterate(i)][1..] == [];
  }
}
