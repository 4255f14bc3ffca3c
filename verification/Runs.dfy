/** Runs of a client: what its user may call, in which order, and what one iteration amounts to. */
module Runs {
  import opened Wrappers
  import opened Frames
  import opened Text
  import opened Session
  import opened Outgoing

  datatype Action =
    | Initialize(path: text, config: Option<Config>)
    | SetMessageSize(size: nat)
    | SendText(call: SendCall)
    | Iterate(input: StepInput)
    | Discard(mask: Mask, inputs: seq<StepInput>)   // Drop::drop

  function Act(s: State, a: Action): Result {
    match a
    case Initialize(path, config) => Result(Session.Init(s, path, config), Ok)
    case SetMessageSize(n) => Result(s.(messageSize := n), Ok)
    case SendText(c) => Send(s, c)
    case Iterate(i) => EventLoop(s, i)
    case Discard(mask, inputs) => Drop(s, mask, inputs)
  }

  /** The state after a list of actions, whatever their outcomes. */
  function After(s: State, acts: seq<Action>): State
    decreases |acts|
  {
    if acts == [] then s else After(Act(s, acts[0]).s, acts[1..])
  }

  /** `init` is called at most once, and nothing follows the drop. */
  predicate SingleInit(s: State, acts: seq<Action>)
    decreases |acts|
  {
    acts == [] || (
      && (acts[0].Initialize? ==> s.status.NotInit?)
      && (acts[0].Discard? ==> |acts| == 1)
      && SingleInit(Act(s, acts[0]).s, acts[1..]))
  }

  /** Every action succeeds, and the client is not dropped. */
  predicate OkRun(s: State, acts: seq<Action>)
    decreases |acts|
  {
    acts == [] || (
      && (acts[0].Initialize? ==> s.status.NotInit?)
      && !acts[0].Discard?
      && Act(s, acts[0]).outcome.Ok?
      && OkRun(Act(s, acts[0]).s, acts[1..]))
  }

  lemma {:induction false} RunConcat(s: State, a: seq<Action>, b: seq<Action>)
    ensures After(s, a + b) == After(After(s, a), b)
    ensures OkRun(s, a + b) <==> OkRun(s, a) && OkRun(After(s, a), b)
    decreases |a|
  {
    if a == [] {
      assert a + b == b;
    } else {
      assert (a + b)[0] == a[0] && (a + b)[1..] == a[1..] + b;
      RunConcat(Act(s, a[0]).s, a[1..], b);
    }
  }

  /** The socket is in use. */
  predicate Connected(status: Status) {
    status.Handshake? || Framing(status)
  }

  // ---- One iteration without the input queue ----

  function TurnOutput(r: Result, out: Option<Event>, i: StepInput): Result {
    if !r.outcome.Ok? || out.None? then r else HandleOutput(r.s, out.value, i)
  }

  /** Read, pop an output event, handle what was read, then handle the output event. */
  function Turn(s: State, i: StepInput): Result {
    var r := ReadBytes(s, i);
    if !r.outcome.Ok? then Result(r.s, r.outcome)
    else
      var out := PopOutput(r.s);
      TurnOutput(HandleInput(out.s, r.event, i), out.event, i)
  }

  lemma ReadKeepsQueues(s: State, i: StepInput)
    ensures var r := ReadBytes(s, i);
            && r.s == s.(recvStorage := r.s.recvStorage, received := r.s.received)
            && (r.event.HttpResponse? ==> s.status.Handshake?)
            && (r.event.WebsocketData? ==> Framing(s.status) && r.outcome.Ok?)
            && !r.event.HttpRequest?
  {
  }

  /** The input queue never holds more than the event just read, so an iteration is a Turn. */
  lemma EventLoopIsTurn(s: State, i: StepInput)
    requires Connected(s.status) && s.inputEvents == []
    ensures EventLoop(s, i) == Turn(s, i)
  {
    ReadKeepsQueues(s, i);
    var r := ReadBytes(s, i);
    if r.outcome.Ok? {
      var q := InsertInput(r.s, r.event);
      if r.event.NoData? {
        assert q == r.s;
      } else {
        assert q.inputEvents == [r.event] && [r.event][1..] == [];
        assert q.(inputEvents := []) == r.s;
      }
    }
  }

  // ---- What send and the callback change ----

  /** The frames and payloads that a list of send calls adds. */
  lemma {:induction false} SendAllEffect(s: State, calls: seq<SendCall>) returns (fs: seq<Frame>, ps: seq<text>)
    ensures SendAll(s, calls).s ==
            s.(outputEvents := s.outputEvents + Events(fs), enqueued := s.enqueued + fs, payloads := s.payloads + ps)
    ensures s.status.Closed? ==> fs == [] && ps == []
    ensures forall f | f in fs :: OutData(f)
    ensures SendAll(s, calls).outcome in {Ok, Panic(CharBoundary), Panic(Endless)}
    decreases |calls|
  {
    if calls == [] {
      fs, ps := [], [];
      assert s.outputEvents + Events([]) == s.outputEvents;
      assert s.enqueued + [] == s.enqueued && s.payloads + [] == s.payloads;
    } else {
      var gs, qs := SendEffect(s, calls[0]);
      var r := Send(s, calls[0]);
      if r.outcome.Ok? {
        var hs, rs := SendAllEffect(r.s, calls[1..]);
        fs, ps := gs + hs, qs + rs;
        assert s.outputEvents + Events(gs) + Events(hs) == s.outputEvents + Events(fs);
        assert s.enqueued + gs + hs == s.enqueued + fs;
        assert s.payloads + qs + rs == s.payloads + ps;
      } else {
        fs, ps := gs, qs;
      }
    }
  }

  lemma SendEffect(s: State, c: SendCall) returns (fs: seq<Frame>, ps: seq<text>)
    ensures Send(s, c).s ==
            s.(outputEvents := s.outputEvents + Events(fs), enqueued := s.enqueued + fs, payloads := s.payloads + ps)
    ensures s.status.Closed? ==> fs == [] && ps == []
    ensures forall f | f in fs :: OutData(f)
    ensures !s.status.Closed? && s.messageSize > 0 ==> fs == Fragments(c.payload, s.messageSize, c.masks, 0)
    ensures Send(s, c).outcome.Ok? && !s.status.Closed? ==>
              ps == [c.payload] && (c.payload == [] || (s.messageSize > 0 && CutsOk(c.payload, s.messageSize, 0)))
    ensures Send(s, c).outcome in {Ok, Panic(CharBoundary), Panic(Endless)}
  {
    if s.status.Closed? || s.messageSize == 0 {
      fs, ps := [], if Send(s, c).outcome.Ok? && !s.status.Closed? then [c.payload] else [];
      assert s.outputEvents + Events([]) == s.outputEvents;
      assert s.enqueued + [] == s.enqueued && s.payloads + [] == s.payloads;
    } else {
      fs := Fragments(c.payload, s.messageSize, c.masks, 0);
      FragmentsAreOut(c.payload, s.messageSize, c.masks, 0);
      ps := if Send(s, c).outcome.Ok? then [c.payload] else [];
      assert s.payloads + [] == s.payloads;
    }
  }

  /** A closed client takes no more payloads. */
  lemma {:induction false} ClosedSendsNothing(s: State, calls: seq<SendCall>)
    requires s.status.Closed?
    ensures SendAll(s, calls) == Result(s, Ok)
    decreases |calls|
  {
    if calls != [] {
      ClosedSendsNothing(s, calls[1..]);
    }
  }

  lemma NoProtocols(ps: seq<text>)
    ensures |JoinProtocols(ps)| < 2 <==> ps == []
  {
  }
}
