/**
 * What goes to the socket. The trace `written` lists events and the trace `wire` the bytes passed to
 * the socket; here is what one iteration adds to both, and how they fit on every successful run.
 */
module Writes {
  import opened Bytes
  import opened Wrappers
  import opened Frames
  import opened Text
  import opened Session
  import opened Outgoing
  import opened Runs
  import opened Lifecycle
  import opened Output
  import Http

  predicate SameWritten(s: State, t: State) {
    t.written == s.written && t.wire == s.wire
  }

  lemma FireWrites(s: State, e: WSEvent, calls: seq<SendCall>)
    ensures SameWritten(s, Fire(s, e, calls).s)
  {
    var fs, ps := SendAllEffect(s.(callbacks := s.callbacks + [e]), calls);
  }

  lemma FrameWrites(s: State, f: Frame, i: StepInput)
    ensures SameWritten(s, HandleFrame(s, f, i).s)
  {
    var t := s.(dispatched := s.dispatched + [f]);
    if f.Kind().Data? {
      var u := if f.header.flag != FIN then t.(recvData := t.recvData + f.data) else t;
      FireWrites(u, OnText(f.data), i.inputSends);
      FireWrites(u, OnText(u.recvData + f.data), i.inputSends);
    } else if f.ControlFrame? && f.statusCode.Some? {
      FireWrites(t.(status := Closed), OnClose(ClientClose(f.statusCode.value)), i.inputSends);
    }
  }

  lemma InputWrites(s: State, e: Event, i: StepInput)
    ensures SameWritten(s, HandleInput(s, e, i).s)
  {
    match e
    case WebsocketData(f) => FrameWrites(s, f, i);
    case HttpResponse(r) =>
      var t := s.(protocol := r.Header(Literal("Sec-WebSocket-Protocol")), status := Open);
      FireWrites(t, OnConnect(r.body), i.inputSends);
    case _ =>
  }

  /** After e was written in iteration i. */
  predicate Extends(s: State, e: Option<Event>, i: StepInput, t: State) {
    && t.written == s.written + OptSeq(e)
    && t.wire == s.wire + if e.Some? then EventBytes(e.value, i) else []
  }

  lemma OutputWrites(s: State, e: Event, i: StepInput)
    requires OutEvent(e) && s.hasStream
    ensures Extends(s, if i.write.Sent? then Some(e) else None, i, HandleOutput(s, e, i).s)
  {
    if e.WebsocketData? && e.frame.ControlFrame? {
      var code := if e.frame.statusCode.Some? then e.frame.statusCode.value else 0;
      FireWrites(Wrote(s, e, i).(status := Closed, hasStream := false), OnClose(ServerClose(code)), i.outputSends);
    }
  }

  /** The read succeeds and so does the handling of what was read. */
  predicate InputHandled(s: State, i: StepInput) {
    var r := ReadBytes(s, i);
    r.outcome.Ok? && HandleInput(PopOutput(r.s).s, r.event, i).outcome.Ok?
  }

  /** The event that an iteration passes to the socket: the head of the queue, if it gets that far. */
  function Sends(s: State, i: StepInput): Option<Event> {
    if i.write.Sent? && InputHandled(s, i) then PopOutput(s).event else None
  }

  /** Every iteration, failed or not, writes exactly what Sends says, with its bytes. */
  lemma TurnWrites(s: State, i: StepInput)
    requires Healthy(s) && Connected(s.status)
    ensures Extends(s, Sends(s, i), i, Turn(s, i).s)
  {
    ReadKeepsQueues(s, i);
    var r := ReadBytes(s, i);
    if r.outcome.Ok? {
      ReadSound(s, i);
      PopSound(r.s);
      var out := PopOutput(r.s);
      InputSound(out.s, r.event, i);
      InputWrites(out.s, r.event, i);
      var h := HandleInput(out.s, r.event, i);
      if h.outcome.Ok? && out.event.Some? {
        OutputWrites(h.s, out.event.value, i);
      }
    }
  }

  // ---- The bytes of a run ----

  /** The frames among the events written, and their bytes. */
  function FramesOf(q: seq<Event>): seq<Frame> {
    if q == [] then []
    else (if q[0].WebsocketData? then [q[0].frame] else []) + FramesOf(q[1..])
  }

  function Stream(fs: seq<Frame>): seq<byte> {
    if fs == [] then [] else FrameBytes(fs[0]) + Stream(fs[1..])
  }

  /** The bytes are the serialized request, with its headers in some order of the map. */
  ghost predicate IsRequest(bytes: seq<byte>, r: Http.Request) {
    exists order | Http.IterationOrder(order, r.headers) :: bytes == Http.RequestBytes(r, order)
  }

  /** The bytes are those of the event. */
  ghost predicate IsBytesOf(bytes: seq<byte>, e: Event) {
    match e
    case WebsocketData(f) => bytes == FrameBytes(f)
    case HttpRequest(r) => IsRequest(bytes, r)
    case _ => bytes == []
  }

  /** Piece k holds the bytes of event k. */
  ghost predicate Spells(parts: seq<seq<byte>>, q: seq<Event>) {
    |parts| == |q| && forall k | 0 <= k < |q| :: IsBytesOf(parts[k], q[k])
  }

  lemma {:induction false} SpellsFrames(parts: seq<seq<byte>>, q: seq<Event>)
    requires Spells(parts, q) && forall k | 0 <= k < |q| :: q[k].WebsocketData?
    ensures Flatten(parts) == Stream(FramesOf(q))
    decreases |q|
  {
    if q != [] {
      SpellsFrames(parts[1..], q[1..]);
      FramesOfHead(q);
      assert IsBytesOf(parts[0], q[0]);
    }
  }

  lemma FramesOfHead(q: seq<Event>)
    requires q != [] && q[0].WebsocketData?
    ensures Stream(FramesOf(q)) == FrameBytes(q[0].frame) + Stream(FramesOf(q[1..]))
  {
    assert FramesOf(q)[0] == q[0].frame && FramesOf(q)[1..] == FramesOf(q[1..]);
  }

  /** From s to t, events were written, and the bytes of exactly those went to the socket. */
  ghost predicate Spelled(s: State, parts: seq<seq<byte>>, more: seq<Event>, t: State) {
    t.written == s.written + more && t.wire == s.wire + Flatten(parts) && Spells(parts, more)
  }

  lemma ExtendsSpells(s: State, e: Option<Event>, i: StepInput, t: State) returns (parts: seq<seq<byte>>)
    requires Extends(s, e, i, t)
    ensures Spelled(s, parts, OptSeq(e), t)
  {
    if e.Some? {
      parts := [EventBytes(e.value, i)];
      if e.value.HttpRequest? {
        var h := e.value.request.headers;
        assert Http.IterationOrder(i.order(h), h);
      }
      OnePiece(EventBytes(e.value, i));
    } else {
      parts := [];
    }
  }

  lemma OnePiece(b: seq<byte>)
    ensures Flatten([b]) == b
  {
    assert [b][1..] == [] && b + [] == b;
  }

  lemma NothingSpelled(s: State, t: State)
    requires SameWritten(s, t)
    ensures Spelled(s, [], [], t)
  {
    assert s.written + [] == s.written && s.wire + [] == s.wire;
  }

  lemma SpelledConcat(s: State, a: seq<seq<byte>>, p: seq<Event>, t: State, b: seq<seq<byte>>, q: seq<Event>, u: State)
    requires Spelled(s, a, p, t) && Spelled(t, b, q, u)
    ensures Spelled(s, a + b, p + q, u)
  {
    FlattenConcat(a, b);
    Regroup(s.wire, Flatten(a), Flatten(b));
    Regroup(s.written, p, q);
  }

  lemma IterationSpells(s: State, i: StepInput) returns (parts: seq<seq<byte>>, more: seq<Event>)
    requires Healthy(s)
    ensures Spelled(s, parts, more, EventLoop(s, i).s)
  {
    if Connected(s.status) {
      EventLoopIsTurn(s, i);
      TurnWrites(s, i);
      more := OptSeq(Sends(s, i));
      parts := ExtendsSpells(s, Sends(s, i), i, Turn(s, i).s);
    } else {
      parts, more := [], [];
      NothingSpelled(s, EventLoop(s, i).s);
    }
  }

  lemma {:induction false} DropLoopSpells(s: State, inputs: seq<StepInput>)
      returns (parts: seq<seq<byte>>, more: seq<Event>)
    requires Healthy(s)
    ensures Spelled(s, parts, more, DropLoop(s, inputs).s)
    decreases |inputs|
  {
    if s.status.Closed? || inputs == [] {
      parts, more := [], [];
      NothingSpelled(s, s);
    } else {
      var r := EventLoop(s, inputs[0]);
      parts, more := IterationSpells(s, inputs[0]);
      if r.outcome.Ok? {
        EventLoopSound(s, inputs[0]);
        var b, q := DropLoopSpells(r.s, inputs[1..]);
        SpelledConcat(s, parts, more, r.s, b, q, DropLoop(s, inputs).s);
        parts, more := parts + b, more + q;
      }
    }
  }

  lemma ActSpells(s: State, a: Action) returns (parts: seq<seq<byte>>, more: seq<Event>)
    requires Healthy(s)
    ensures Spelled(s, parts, more, Act(s, a).s)
  {
    parts, more := [], [];
    NothingSpelled(s, s);
    match a
    case SendText(c) => var fs, ps := SendEffect(s, c);
    case Iterate(i) => parts, more := IterationSpells(s, i);
    case Discard(mask, inputs) =>
      if MustClose(s) {
        DoneIsOut(mask);
        parts, more := DropLoopSpells(BeginDrop(s, mask), inputs);
      }
    case _ =>
  }

  /**
   * On every run of a client initialised at most once, failures and the drop included, the bytes that
   * went to the socket are those of the events written, one after the other.
   */
  lemma {:induction false} RunSpells(s: State, acts: seq<Action>) returns (parts: seq<seq<byte>>, more: seq<Event>)
    requires Healthy(s) && SingleInit(s, acts)
    ensures Spelled(s, parts, more, After(s, acts))
    decreases |acts|
  {
    if acts == [] {
      parts, more := [], [];
      NothingSpelled(s, s);
    } else {
      var t := Act(s, acts[0]).s;
      parts, more := ActSpells(s, acts[0]);
      ActSound(s, acts[0]);
      var b, q := RunSpells(t, acts[1..]);
      SpelledConcat(s, parts, more, t, b, q, After(s, acts));
      parts, more := parts + b, more + q;
    }
  }

  lemma {:induction false} OkIsSingle(s: State, acts: seq<Action>)
    requires OkRun(s, acts)
    ensures SingleInit(s, acts)
    decreases |acts|
  {
    if acts != [] {
      OkIsSingle(Act(s, acts[0]).s, acts[1..]);
    }
  }

  lemma WrittenOrderly(s: State)
    requires Orderly(s, None) && s.written != []
    ensures RequestFirst(s.written)
  {
    var all := s.written + Pending(s, None);
    assert Rank(s.status) >= 2;
    if Connected(s.status) {
      assert forall k | 0 <= k < |s.written| :: s.written[k] == all[k];
    }
  }

  /** The bytes are those of the request, then those of the frames. */
  ghost predicate IsWireOf(head: seq<byte>, tail: seq<byte>, written: seq<Event>) {
    if written == [] then head == [] && tail == []
    else written[0].HttpRequest? && IsRequest(head, written[0].request) && tail == Stream(FramesOf(written[1..]))
  }

  lemma SpellsRequestFirst(parts: seq<seq<byte>>, q: seq<Event>) returns (head: seq<byte>, tail: seq<byte>)
    requires Spells(parts, q) && (q != [] ==> RequestFirst(q))
    ensures Flatten(parts) == head + tail && IsWireOf(head, tail, q)
  {
    if q == [] {
      head, tail := [], [];
    } else {
      assert IsBytesOf(parts[0], q[0]);
      head, tail := parts[0], Flatten(parts[1..]);
      SpellsFrames(parts[1..], q[1..]);
    }
  }

  /** On every successful run: one request and the frames, as they went to the socket. */
  lemma WireTheorem(acts: seq<Action>) returns (head: seq<byte>, tail: seq<byte>)
    requires OkRun(FRESH, acts)
    ensures After(FRESH, acts).wire == head + tail && IsWireOf(head, tail, After(FRESH, acts).written)
  {
    var s := After(FRESH, acts);
    OkIsSingle(FRESH, acts);
    var parts, more := RunSpells(FRESH, acts);
    assert s.wire == Flatten(parts) && s.written == more;
    RunOrderly(FRESH, acts);
    if s.written != [] {
      WrittenOrderly(s);
    }
    head, tail := SpellsRequestFirst(parts, more);
  }
}
