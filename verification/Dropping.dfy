/** The closing handshake the client starts when it is dropped (client.rs, `Drop::drop`). */
module Dropping {
  import opened Bytes
  import opened Wrappers
  import opened Frames
  import opened Session
  import opened Outgoing
  import opened Runs
  import opened Lifecycle
  import opened Output
  import opened Streaming
  import opened CloseHandshake
  import opened Writes
  import Utf8
  import Rfc = Rfc6455

  /** Nothing was written yet and the close frame is next, or it was the first thing written. */
  predicate CloseIsNext(s: State, held: Option<Event>, before: seq<Event>, close: Event) {
    || (s.written == before && Pending(s, held) != [] && Pending(s, held)[0] == close)
    || before + [close] <= s.written
  }

  lemma SendAllNext(s: State, held: Option<Event>, calls: seq<SendCall>, before: seq<Event>, close: Event)
    requires CloseIsNext(s, held, before, close)
    ensures CloseIsNext(SendAll(s, calls).s, held, before, close)
  {
    var fs, ps := SendAllEffect(s, calls);
    assert Pending(SendAll(s, calls).s, held) == Pending(s, held) + Events(fs);
  }

  lemma FireNext(s: State, held: Option<Event>, e: WSEvent, calls: seq<SendCall>, before: seq<Event>, close: Event)
    requires CloseIsNext(s, held, before, close)
    ensures CloseIsNext(Fire(s, e, calls).s, held, before, close)
  {
    SendAllNext(s.(callbacks := s.callbacks + [e]), held, calls, before, close);
  }

  lemma FrameNext(s: State, held: Option<Event>, f: Frame, i: StepInput, before: seq<Event>, close: Event)
    requires CloseIsNext(s, held, before, close) && s.status.ClientWantsToClose?
    requires held.None? ==> s.outputEvents == []
    ensures CloseIsNext(HandleFrame(s, f, i).s, held, before, close)
  {
    var t := s.(dispatched := s.dispatched + [f]);
    if f.Kind().Data? {
      DataNext(t, held, f, i, before, close);
    } else if f.ControlFrame? && f.statusCode.Some? {
      FireNext(t.(status := Closed), held, OnClose(ClientClose(f.statusCode.value)), i.inputSends, before, close);
    }
  }

  lemma DataNext(s: State, held: Option<Event>, f: Frame, i: StepInput, before: seq<Event>, close: Event)
    requires CloseIsNext(s, held, before, close)
    ensures CloseIsNext(HandleData(s, f, i).s, held, before, close)
  {
    var t := if f.header.flag != FIN then s.(recvData := s.recvData + f.data) else s;
    var m := if t.recvData == [] then f.data else t.recvData + f.data;
    FireNext(t, held, OnText(m), i.inputSends, before, close);
  }

  /** What is written is what was written before, or goes on with the close frame. */
  predicate NothingBeforeClose(s: State, before: seq<Event>, close: Event) {
    s.written == before || before + [close] <= s.written
  }

  lemma WrittenGrows(s: State, e: Event, i: StepInput)
    requires !s.status.ServerWantsToClose?
    ensures s.written <= HandleOutput(s, e, i).s.written
  {
  }

  lemma OutputNext(s: State, e: Event, i: StepInput, before: seq<Event>, close: Event)
    requires CloseIsNext(s, Some(e), before, close) && !s.status.ServerWantsToClose? && close.WebsocketData?
    ensures var r := HandleOutput(s, e, i);
            NothingBeforeClose(r.s, before, close) && (r.outcome.Ok? ==> CloseIsNext(r.s, None, before, close))
  {
    if before + [close] <= s.written {
      WrittenGrows(s, e, i);
      assert before + [close] <= HandleOutput(s, e, i).s.written;
    } else {
      assert Pending(s, Some(e))[0] == e && e == close;
    }
  }

  lemma FinishNext(h: Result, held: Option<Event>, i: StepInput, before: seq<Event>, close: Event)
    requires CloseIsNext(h.s, held, before, close) && !h.s.status.ServerWantsToClose? && close.WebsocketData?
    ensures var r := TurnOutput(h, held, i);
            NothingBeforeClose(r.s, before, close) && (r.outcome.Ok? ==> CloseIsNext(r.s, None, before, close))
  {
    if h.outcome.Ok? && held.Some? {
      OutputNext(h.s, held.value, i, before, close);
    }
  }

  lemma PopNext(s: State, before: seq<Event>, close: Event)
    requires CloseIsNext(s, None, before, close) && s.status.ClientWantsToClose?
    ensures var out := PopOutput(s);
            && CloseIsNext(out.s, out.event, before, close) && out.s.status == s.status
            && (out.event.None? ==> out.s.outputEvents == [])
  {
    assert Pending(PopOutput(s).s, PopOutput(s).event) == Pending(s, None);
  }

  lemma TurnNext(s: State, i: StepInput, before: seq<Event>, close: Event)
    requires Healthy(s) && s.status.ClientWantsToClose? && CloseIsNext(s, None, before, close) && close.WebsocketData?
    ensures var r := Turn(s, i);
            NothingBeforeClose(r.s, before, close) && (r.outcome.Ok? ==> CloseIsNext(r.s, None, before, close))
  {
    ReadKeepsQueues(s, i);
    var r := ReadBytes(s, i);
    if r.outcome.Ok? {
      assert CloseIsNext(r.s, None, before, close);
      PopNext(r.s, before, close);
      ReadSound(s, i);
      PopSound(r.s);
      var out := PopOutput(r.s);
      InputSound(out.s, r.event, i);
      if r.event.WebsocketData? {
        FrameNext(out.s, out.event, r.event.frame, i, before, close);
      }
      FinishNext(HandleInput(out.s, r.event, i), out.event, i, before, close);
    }
  }

  lemma {:induction false} DropLoopNext(s: State, inputs: seq<StepInput>, before: seq<Event>, close: Event)
    requires Healthy(s) && (s.status.ClientWantsToClose? || s.status.Closed?) && s.hasStream
    requires CloseIsNext(s, None, before, close) && close.WebsocketData?
    ensures NothingBeforeClose(DropLoop(s, inputs).s, before, close)
    decreases |inputs|
  {
    if !s.status.Closed? && inputs != [] {
      EventLoopIsTurn(s, inputs[0]);
      TurnNext(s, inputs[0], before, close);
      EventLoopSound(s, inputs[0]);
      var r := EventLoop(s, inputs[0]);
      if r.outcome.Ok? {
        DropLoopNext(r.s, inputs[1..], before, close);
      }
    }
  }

  /**
   * Whatever the peer sends and however writes are blocked while the client is dropped, the first
   * thing it still writes, if anything, is its CLOSE frame with status 1000 and reason "Done". Not even
   * the answer to a PING comes before it.
   */
  lemma CloseGoesFirst(s: State, mask: Mask, inputs: seq<StepInput>)
    requires Healthy(s) && Framing(s.status)
    ensures var close := WebsocketData(NewControlFrame(FIN, CLOSE, Some(NORMAL_CLOSURE), DONE, Some(mask)));
            NothingBeforeClose(Drop(s, mask, inputs).s, s.written, close)
  {
    var close := WebsocketData(NewControlFrame(FIN, CLOSE, Some(NORMAL_CLOSURE), DONE, Some(mask)));
    DoneIsOut(mask);
    var t := BeginDrop(s, mask);
    assert Pending(t, None)[0] == close;
    DropLoopNext(t, inputs, s.written, close);
  }

  /**
   * The peer's answer: the wire bytes b are a CLOSE with payload p. Handling it while the client
   * closes ends the connection, and CLIENT_CLOSE is reported once with the first two bytes of p.
   */
  lemma AnswerIsReported(s: State, i: StepInput, b: seq<byte>, w: Rfc.WireFrame)
    requires s.status.ClientWantsToClose? && s.hasStream && i.shutdownOk
    requires ServerWire(b, w) && w.opcode == CLOSE && 2 <= |w.payload| && w.rsv % 2 == 0
    ensures Parse(b).Complete?
    ensures var h := HandleInput(s, WebsocketData(Parse(b).frame), i);
            && h.s.status.Closed? && h.outcome.Ok?
            && h.s.callbacks == s.callbacks +
                 if s.hasCallback then [OnClose(ClientClose(BeValue(w.payload[..2])))] else []
  {
    ControlParsed(b, w);
    ParsedIncoming(b);
    var f := Parse(b).frame;
    assert s.callbacks + [] == s.callbacks;
    var t := s.(dispatched := s.dispatched + [f], status := Closed);
    var e := OnClose(ClientClose(f.statusCode.value));
    var fs, ps := SendAllEffect(t.(callbacks := t.callbacks + [e]), i.inputSends);
    ClosedSendsNothing(t.(callbacks := t.callbacks + [e]), i.inputSends);
  }

  /** On the wire that frame is a CLOSE with status 1000 and the four letters of "Done". */
  lemma CloseOnWire(mask: Mask)
    ensures IsOneFrame(FrameBytes(NewControlFrame(FIN, CLOSE, Some(NORMAL_CLOSURE), DONE, Some(mask))),
                       mask, Rfc.CLOSE, [3, 232, 68, 111, 110, 101])
  {
    DoneIsOut(mask);
    DoneBytes(mask);
    var close := NewControlFrame(FIN, CLOSE, Some(NORMAL_CLOSURE), DONE, Some(mask));
    OnWire(close, FrameBytes(close));
  }

  lemma DoneBytes(mask: Mask)
    ensures NewControlFrame(FIN, CLOSE, Some(NORMAL_CLOSURE), DONE, Some(mask)).data == [3, 232, 68, 111, 110, 101]
  {
    assert BeBytes(3, 1) == [] + [3] && BeBytes(1000, 2) == [3] + [232];
  }

  /** It is written by the first iteration whose input is handled and whose write is taken. */
  lemma CloseIsWritten(s: State, mask: Mask, i: StepInput)
    requires Healthy(s) && Framing(s.status) && i.write.Sent? && InputHandled(BeginDrop(s, mask), i)
    ensures var close := WebsocketData(NewControlFrame(FIN, CLOSE, Some(NORMAL_CLOSURE), DONE, Some(mask)));
            EventLoop(BeginDrop(s, mask), i).s.written == s.written + [close]
  {
    DoneIsOut(mask);
    EventLoopIsTurn(BeginDrop(s, mask), i);
    TurnWrites(BeginDrop(s, mask), i);
  }

  /** A client that is not connected, or still in the handshake, is dropped without more ado. */
  lemma DropElse(s: State, mask: Mask, inputs: seq<StepInput>)
    requires Healthy(s) && !Framing(s.status)
    ensures Drop(s, mask, inputs) == Result(s, Ok)
  {
  }

  function Iterates(inputs: seq<StepInput>): (acts: seq<Action>)
    ensures |acts| == |inputs| && forall k | 0 <= k < |inputs| :: acts[k] == Iterate(inputs[k])
  {
    seq(|inputs|, k requires 0 <= k < |inputs| => Iterate(inputs[k]))
  }

  /** k iterations of the loop: none follows a closed connection or a failure. */
  ghost predicate Loops(s: State, inputs: seq<StepInput>, k: nat)
    requires k <= |inputs|
  {
    forall j | 0 <= j < k ::
      && !After(s, Iterates(inputs[..j])).status.Closed?
      && (j + 1 < k ==> EventLoop(After(s, Iterates(inputs[..j])), inputs[j]).outcome.Ok?)
  }

  /** No more iterations: the time is over, the connection is closed, or the last iteration failed. */
  predicate Over(s: State, inputs: seq<StepInput>, k: nat)
    requires k <= |inputs|
  {
    || k == |inputs|
    || After(s, Iterates(inputs[..k])).status.Closed?
    || (k > 0 && !EventLoop(After(s, Iterates(inputs[..k - 1])), inputs[k - 1]).outcome.Ok?)
  }

  lemma IteratesCons(i: StepInput, rest: seq<StepInput>, s: State)
    ensures After(s, Iterates([i] + rest)) == After(EventLoop(s, i).s, Iterates(rest))
  {
    assert Iterates([i] + rest)[1..] == Iterates(rest);
  }

  /** The closing loop is a run of iterations, as long as possible. */
  lemma {:induction false} DropLoopIsRun(s: State, inputs: seq<StepInput>) returns (k: nat)
    ensures k <= |inputs| && Loops(s, inputs, k) && Over(s, inputs, k)
    ensures DropLoop(s, inputs).s == After(s, Iterates(inputs[..k]))
    decreases |inputs|
  {
    assert Iterates(inputs[..0]) == [];
    if s.status.Closed? || inputs == [] {
      k := 0;
    } else {
      var i, rest := inputs[0], inputs[1..];
      IteratesCons(i, [], s);
      assert inputs[..1] == [i] + [];
      if EventLoop(s, i).outcome.Ok? {
        var n := DropLoopIsRun(EventLoop(s, i).s, rest);
        k := n + 1;
        forall j | 0 <= j <= n
          ensures After(s, Iterates(inputs[..j + 1])) == After(EventLoop(s, i).s, Iterates(rest[..j]))
        {
          assert inputs[..j + 1] == [i] + rest[..j];
          IteratesCons(i, rest[..j], s);
        }
        LoopsCons(s, inputs, n);
      } else {
        k := 1;
      }
    }
  }

  lemma LoopsCons(s: State, inputs: seq<StepInput>, n: nat)
    requires inputs != [] && n < |inputs| && !s.status.Closed? && EventLoop(s, inputs[0]).outcome.Ok?
    requires forall j | 0 <= j <= n ::
               After(s, Iterates(inputs[..j + 1])) == After(EventLoop(s, inputs[0]).s, Iterates(inputs[1..][..j]))
    requires Loops(EventLoop(s, inputs[0]).s, inputs[1..], n) && Over(EventLoop(s, inputs[0]).s, inputs[1..], n)
    ensures Loops(s, inputs, n + 1) && Over(s, inputs, n + 1)
  {
    var t, rest := EventLoop(s, inputs[0]).s, inputs[1..];
    assert Iterates(inputs[..0]) == [] && Iterates(rest[..0]) == [];
    forall j | 0 <= j < n + 1
      ensures !After(s, Iterates(inputs[..j])).status.Closed?
      ensures j + 1 < n + 1 ==> EventLoop(After(s, Iterates(inputs[..j])), inputs[j]).outcome.Ok?
    {
      if j > 0 {
        assert After(s, Iterates(inputs[..j - 1 + 1])) == After(t, Iterates(rest[..j - 1]));
        assert rest[j - 1] == inputs[j];
      }
    }
    if n > 0 {
      assert After(s, Iterates(inputs[..n - 1 + 1])) == After(t, Iterates(rest[..n - 1])) && rest[n - 1] == inputs[n];
    }
  }

  /** Dropping a connected client is sending the CLOSE into the queue and iterating. */
  lemma DropIsRun(s: State, mask: Mask, inputs: seq<StepInput>) returns (k: nat)
    requires Healthy(s) && Framing(s.status)
    ensures k <= |inputs| && Loops(BeginDrop(s, mask), inputs, k) && Over(BeginDrop(s, mask), inputs, k)
    ensures Drop(s, mask, inputs).s == After(BeginDrop(s, mask), Iterates(inputs[..k]))
  {
    k := DropLoopIsRun(BeginDrop(s, mask), inputs);
  }

  // ---- Data frames after the CLOSE ----

  /**
   * Since n data frames had been queued and `base` had been written, the data frames written and
   * pending are those queued since. Without a callback nothing is queued.
   */
  predicate Balanced(s: State, held: Option<Event>, base: seq<Frame>, n: nat) {
    && n <= |s.enqueued| && (!s.hasCallback ==> |s.enqueued| == n)
    && base <= DataOf(s.written)
    && DataOf(s.written) + DataOf(Pending(s, held)) == base + s.enqueued[n..]
  }

  /** What was written since then was queued since then, in that order. */
  predicate Within(s: State, base: seq<Frame>, n: nat) {
    && n <= |s.enqueued| && (!s.hasCallback ==> |s.enqueued| == n)
    && base <= DataOf(s.written) <= base + s.enqueued[n..]
  }

  lemma BalancedWithin(s: State, held: Option<Event>, base: seq<Frame>, n: nat)
    requires Balanced(s, held, base, n)
    ensures Within(s, base, n)
  {
    PrefixLeft(DataOf(s.written), DataOf(Pending(s, held)), base + s.enqueued[n..]);
  }

  lemma SendAllBalanced(s: State, held: Option<Event>, calls: seq<SendCall>, base: seq<Frame>, n: nat)
    requires Balanced(s, held, base, n) && s.hasCallback
    ensures Balanced(SendAll(s, calls).s, held, base, n)
  {
    var fs, ps := SendAllEffect(s, calls);
    var t := SendAll(s, calls).s;
    assert Pending(t, held) == Pending(s, held) + Events(fs);
    AppendData(Pending(s, held), fs);
    assert t.enqueued[n..] == s.enqueued[n..] + fs;
    Regroup(DataOf(s.written), DataOf(Pending(s, held)), fs);
    Regroup(base, s.enqueued[n..], fs);
  }

  lemma FireBalanced(s: State, held: Option<Event>, e: WSEvent, calls: seq<SendCall>, base: seq<Frame>, n: nat)
    requires Balanced(s, held, base, n) && s.hasCallback
    ensures Balanced(Fire(s, e, calls).s, held, base, n)
  {
    SendAllBalanced(s.(callbacks := s.callbacks + [e]), held, calls, base, n);
  }

  lemma DataBalanced(s: State, held: Option<Event>, f: Frame, i: StepInput, base: seq<Frame>, n: nat)
    requires Balanced(s, held, base, n)
    ensures Balanced(HandleData(s, f, i).s, held, base, n)
  {
    var t := if f.header.flag != FIN then s.(recvData := s.recvData + f.data) else s;
    assert Balanced(t, held, base, n);
    if s.hasCallback {
      var m := if t.recvData == [] then f.data else t.recvData + f.data;
      FireBalanced(t, held, OnText(m), i.inputSends, base, n);
    }
  }

  lemma FrameBalanced(s: State, held: Option<Event>, f: Frame, i: StepInput, base: seq<Frame>, n: nat)
    requires Balanced(s, held, base, n) && s.status.ClientWantsToClose?
    ensures Balanced(HandleFrame(s, f, i).s, held, base, n)
  {
    var t := s.(dispatched := s.dispatched + [f]);
    if f.Kind().Data? {
      DataBalanced(t, held, f, i, base, n);
    } else if f.ControlFrame? && f.header.opcode == PING {
      SkipDataless(OptSeq(held), WebsocketData(PongFor(f, i.mask)), s.outputEvents);
    } else if f.ControlFrame? && f.statusCode.Some? && s.hasCallback {
      FireBalanced(t.(status := Closed), held, OnClose(ClientClose(f.statusCode.value)), i.inputSends, base, n);
    }
  }

  lemma OutputBalanced(s: State, e: Event, i: StepInput, base: seq<Frame>, n: nat)
    requires Balanced(s, Some(e), base, n) && !s.status.ServerWantsToClose? && OutEvent(e)
    ensures Within(HandleOutput(s, e, i).s, base, n)
    ensures HandleOutput(s, e, i).outcome.Ok? ==> Balanced(HandleOutput(s, e, i).s, None, base, n)
  {
    if s.hasStream && i.write.Sent? {
      SentBalanced(s, e, i, base, n);
      BalancedWithin(Wrote(s, e, i), None, base, n);
    } else {
      BalancedWithin(s, Some(e), base, n);
      assert Pending(s.(outputEvents := [e] + s.outputEvents), None) == Pending(s, Some(e));
    }
  }

  lemma SentBalanced(s: State, e: Event, i: StepInput, base: seq<Frame>, n: nat)
    requires Balanced(s, Some(e), base, n)
    ensures Balanced(Wrote(s, e, i), None, base, n)
  {
    assert Pending(s, Some(e)) == [e] + s.outputEvents;
    assert Pending(Wrote(s, e, i), None) == s.outputEvents;
    SentData(s.written, e, s.outputEvents);
    DataOfConcat(s.written, [e]);
  }

  lemma FinishBalanced(h: Result, held: Option<Event>, i: StepInput, base: seq<Frame>, n: nat)
    requires Balanced(h.s, held, base, n) && !h.s.status.ServerWantsToClose? && (held.Some? ==> OutEvent(held.value))
    ensures var r := TurnOutput(h, held, i);
            Within(r.s, base, n) && (r.outcome.Ok? ==> Balanced(r.s, None, base, n))
  {
    BalancedWithin(h.s, held, base, n);
    if h.outcome.Ok? && held.Some? {
      OutputBalanced(h.s, held.value, i, base, n);
    }
  }

  lemma TurnBalanced(s: State, i: StepInput, base: seq<Frame>, n: nat)
    requires Healthy(s) && s.status.ClientWantsToClose? && Balanced(s, None, base, n)
    ensures var r := Turn(s, i);
            Within(r.s, base, n) && (r.outcome.Ok? ==> Balanced(r.s, None, base, n))
  {
    ReadKeepsQueues(s, i);
    var r := ReadBytes(s, i);
    assert Balanced(r.s, None, base, n);
    BalancedWithin(r.s, None, base, n);
    if r.outcome.Ok? {
      ReadSound(s, i);
      PopSound(r.s);
      var out := PopOutput(r.s);
      assert Pending(out.s, out.event) == Pending(r.s, None);
      InputSound(out.s, r.event, i);
      if r.event.WebsocketData? {
        FrameBalanced(out.s, out.event, r.event.frame, i, base, n);
      }
      FinishBalanced(HandleInput(out.s, r.event, i), out.event, i, base, n);
    }
  }

  /** Every iteration of the closing loop succeeds, until it ends or the timeout strikes. */
  predicate LoopOk(s: State, inputs: seq<StepInput>)
    decreases |inputs|
  {
    s.status.Closed? || inputs == [] ||
    (EventLoop(s, inputs[0]).outcome.Ok? && LoopOk(EventLoop(s, inputs[0]).s, inputs[1..]))
  }

  lemma {:induction false} DropLoopBalanced(s: State, inputs: seq<StepInput>, base: seq<Frame>, n: nat)
    requires Healthy(s) && (s.status.ClientWantsToClose? || s.status.Closed?) && s.hasStream
    requires Balanced(s, None, base, n)
    ensures var t := DropLoop(s, inputs).s;
            Within(t, base, n) && (LoopOk(s, inputs) ==> Balanced(t, None, base, n))
    decreases |inputs|
  {
    BalancedWithin(s, None, base, n);
    if !s.status.Closed? && inputs != [] {
      EventLoopIsTurn(s, inputs[0]);
      TurnBalanced(s, inputs[0], base, n);
      EventLoopSound(s, inputs[0]);
      var r := EventLoop(s, inputs[0]);
      if r.outcome.Ok? {
        DropLoopBalanced(r.s, inputs[1..], base, n);
      }
    }
  }

  /**
   * Section 5.5.1 of RFC 6455 forbids data frames after a CLOSE. Whatever happens during the drop, the
   * data frames written since it began are the first of those that callbacks queued since it began;
   * so there are none without a callback. If the loop did not fail, there are none if and only if
   * all that callbacks queued is still in the queue.
   */
  lemma NoDataAfterCloseIff(s: State, mask: Mask, inputs: seq<StepInput>)
    requires Healthy(s) && Framing(s.status)
    ensures var t, n := Drop(s, mask, inputs).s, |s.enqueued|;
            && Within(t, DataOf(s.written), n)
            && (!t.hasCallback ==> DataOf(t.written) == DataOf(s.written))
            && (LoopOk(BeginDrop(s, mask), inputs) ==>
                (DataOf(t.written) == DataOf(s.written) <==> DataOf(t.outputEvents) == t.enqueued[n..]))
  {
    DoneIsOut(mask);
    var b, base, n := BeginDrop(s, mask), DataOf(s.written), |s.enqueued|;
    assert Pending(b, None) == b.outputEvents && b.outputEvents[1..] == [];
    assert DataOf(b.outputEvents) == [] && b.enqueued[n..] == [];
    DropLoopBalanced(b, inputs, base, n);
    var t := DropLoop(b, inputs).s;
    if LoopOk(b, inputs) {
      assert Pending(t, None) == t.outputEvents;
      SameRest(base, DataOf(t.written), DataOf(t.outputEvents), t.enqueued[n..]);
    }
  }

  lemma SameRest(base: seq<Frame>, w: seq<Frame>, q: seq<Frame>, all: seq<Frame>)
    requires w + q == base + all && base <= w
    ensures w == base <==> q == all
  {
    if w == base {
      Cancel(base, q, all);
    } else {
      assert |w| + |q| == |base| + |all|;
    }
  }

  /**
   * It does happen: an open client is dropped, a text arrives while the CLOSE is written, and the
   * callback answers it. The first fragment of the answer follows the CLOSE.
   */
  lemma AnswerFollowsClose(s: State, mask: Mask, i: StepInput, j: StepInput, c: SendCall)
    requires Healthy(s) && s.status.Open? && s.hasCallback && s.recvStorage == [] && s.recvData == []
    requires i.read.Received? && Parse(i.read.bytes).Complete? && Parse(i.read.bytes).offset == |i.read.bytes|
    requires var f := Parse(i.read.bytes).frame; f.Kind().Data? && f.header.flag == FIN && Utf8.Valid(f.data)
    requires i.inputSends == [c] && c.payload != [] && s.messageSize > 0 && CutsOk(c.payload, s.messageSize, 0)
    requires i.write.Sent? && j.write.Sent? && j.read.NothingYet?
    ensures var close := WebsocketData(NewControlFrame(FIN, CLOSE, Some(NORMAL_CLOSURE), DONE, Some(mask)));
            Drop(s, mask, [i, j]).s.written ==
            s.written + [close, WebsocketData(Fragment(c.payload, s.messageSize, c.masks, 0))]
  {
    DoneIsOut(mask);
    var b := BeginDrop(s, mask);
    var close := b.outputEvents[0];
    var t := TextAnswered(b, i, c);
    EventLoopIsTurn(b, i);
    var u := QueueHeadSent(t, j);
    TwoIterations(b, i, j, t, u);
  }

  lemma LastIteration(t: State, j: StepInput, u: State)
    requires EventLoop(t, j) == Result(u, Ok) && t.status.ClientWantsToClose?
    ensures DropLoop(t, [j]).s == u
  {
    assert [j][1..] == [];
  }

  lemma TwoIterations(b: State, i: StepInput, j: StepInput, t: State, u: State)
    requires EventLoop(b, i) == Result(t, Ok) && EventLoop(t, j) == Result(u, Ok)
    requires b.status.ClientWantsToClose? && t.status.ClientWantsToClose?
    ensures DropLoop(b, [i, j]).s == u
  {
    LastIteration(t, j, u);
    assert [i, j][1..] == [j];
  }

  lemma TextAnswered(b: State, i: StepInput, c: SendCall) returns (t: State)
    requires b.status.ClientWantsToClose? && b.hasStream && b.hasCallback && b.recvStorage == [] && b.recvData == []
    requires |b.outputEvents| == 1 && b.outputEvents[0].WebsocketData? && b.outputEvents[0].frame.ControlFrame?
    requires i.read.Received? && Parse(i.read.bytes).Complete? && Parse(i.read.bytes).offset == |i.read.bytes|
    requires var f := Parse(i.read.bytes).frame; f.Kind().Data? && f.header.flag == FIN && Utf8.Valid(f.data)
    requires i.inputSends == [c] && c.payload != [] && b.messageSize > 0 && CutsOk(c.payload, b.messageSize, 0)
    requires i.write.Sent?
    ensures Turn(b, i) == Result(t, Ok) && t.status.ClientWantsToClose? && t.hasStream && t.recvStorage == []
    ensures t.written == b.written + [b.outputEvents[0]] && t.inputEvents == b.inputEvents
    ensures t.outputEvents == Events(Fragments(c.payload, b.messageSize, c.masks, 0))
  {
    ReadsWhole(b, i, i.read.bytes);
    var f := Parse(i.read.bytes).frame;
    var r := ReadBytes(b, i);
    var out := PopOutput(r.s);
    assert out.s.outputEvents == [];
    var p := out.s.(dispatched := out.s.dispatched + [f]);
    var q := p.(callbacks := p.callbacks + [OnText(f.data)]);
    SendOne(q, c);
    assert HandleInput(out.s, r.event, i) == Send(q, c);
    t := Wrote(Send(q, c).s, b.outputEvents[0], i);
    assert [] + Events(Fragments(c.payload, b.messageSize, c.masks, 0)) ==
           Events(Fragments(c.payload, b.messageSize, c.masks, 0));
  }

  lemma QueueHeadSent(t: State, j: StepInput) returns (u: State)
    requires t.status.ClientWantsToClose? && t.hasStream && t.recvStorage == [] && t.inputEvents == []
    requires t.outputEvents != [] && t.outputEvents[0].WebsocketData? && t.outputEvents[0].frame.DataFrame?
    requires t.outputEvents[0].frame.Kind().Data? && j.write.Sent? && j.read.NothingYet?
    ensures EventLoop(t, j) == Result(u, Ok) && u.status.ClientWantsToClose? && u.hasStream
    ensures u.written == t.written + [t.outputEvents[0]]
  {
    EventLoopIsTurn(t, j);
    u := Wrote(t.(outputEvents := t.outputEvents[1..]), t.outputEvents[0], j);
  }
}
