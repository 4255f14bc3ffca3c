/**
 * The input side of a successful run: however the server's bytes are cut into reads, the frames
 * handled are the frames sent, in order, and no byte is lost.
 */
module Streaming {
  import opened Bytes
  import opened Wrappers
  import opened Frames
  import opened Text
  import opened Session
  import opened Codec
  import opened Runs
  import opened Lifecycle
  import opened Output
  import Http
  import Rfc = Rfc6455

  /** The bytes b are one whole frame of a server: unmasked, control payloads in the 7-bit form. */
  predicate ServerWire(b: seq<byte>, w: Rfc.WireFrame) {
    && Rfc.Decode(b) == Some((w, |b|))
    && w.maskKey.None?
    && (DataOpcode(w.opcode) || (ControlOpcode(w.opcode) && b[1] < 126))
  }

  /** The frame as the client hands it to its handlers: same flags, opcode and payload. */
  predicate SameFrame(f: Frame, w: Rfc.WireFrame) {
    && f.header.opcode == w.opcode
    && (f.header.flag >= 128 <==> w.fin)
    && f.header.flag / 16 % 8 == w.rsv
    && f.data == w.payload
  }

  lemma MaskBitClear(b: seq<byte>, w: Rfc.WireFrame, n: nat)
    requires Rfc.Decode(b) == Some((w, n))
    ensures |b| >= 2 && (w.maskKey.None? <==> b[1] < 128)
    ensures w.opcode == b[0] % 16 && (w.fin <==> b[0] >= 128) && w.rsv == b[0] / 16 % 8
    ensures w.maskKey.None? && b[1] < 126 ==> n == 2 + b[1] == 2 + |w.payload|
  {
  }

  /** A complete parse of an unmasked frame means that the standard sees a complete frame too. */
  lemma ParseIsDecode(b: seq<byte>)
    requires Parse(b).Complete? && b[1] < 128
    ensures Rfc.Decode(b).Some? && Rfc.Decode(b).value.1 == Parse(b).offset < U64_LIMIT
    ensures DataOpcode(Rfc.Decode(b).value.0.opcode) ==>
              Parse(b).frame == ParsedData(Rfc.Decode(b).value.0, b[0] / 16 * 16)
    ensures KnownOpcode(b[0] % 32)
  {
    ParseUnmasked(b);
  }

  /** The parser on a storage whose contents begin a stream of server frames. */
  lemma ParseHead(storage: seq<byte>, b: seq<byte>, w: Rfc.WireFrame, rest: seq<byte>)
    requires ServerWire(b, w) && storage <= b + rest && Parse(storage).Complete?
    ensures SameFrame(Parse(storage).frame, w) && Parse(storage).offset == |b|
  {
    var more := (b + rest)[|storage|..];
    assert storage + more == b + rest;
    Rfc.DecodeExtend(b, rest);
    MaskBitClear(b, w, |b|);
    assert storage[0] == (b + rest)[0] == b[0] && storage[1] == (b + rest)[1] == b[1];
    ParseIsDecode(storage);
    Rfc.DecodeExtend(storage, more);
    assert Rfc.Decode(storage) == Some((w, |b|));
    if !DataOpcode(w.opcode) {
      ControlHead(storage, w, |b|);
    }
  }

  lemma ControlHead(b: seq<byte>, w: Rfc.WireFrame, n: nat)
    requires Rfc.Decode(b) == Some((w, n)) && w.maskKey.None? && Parse(b).Complete?
    requires ControlOpcode(w.opcode) && b[1] < 126 && KnownOpcode(b[0] % 32)
    ensures SameFrame(Parse(b).frame, w)
  {
    MaskBitClear(b, w, n);
    ParseUnmasked(b);
    ParsedShort(w, b[0] / 16 * 16);
  }

  /** A server's control frame in one piece is parsed if it has two payload bytes and RSV3 is clear. */
  lemma ControlParsed(b: seq<byte>, w: Rfc.WireFrame)
    requires ServerWire(b, w) && ControlOpcode(w.opcode) && 2 <= |w.payload| && w.rsv % 2 == 0
    ensures Parse(b).Complete? && SameFrame(Parse(b).frame, w) && Parse(b).offset == |b|
  {
    MaskBitClear(b, w, |b|);
    LowBits(b[0]);
    ParseUnmasked(b);
    assert Understood(b) == Complete(ParsedControl(w, 0, b[0] / 16 * 16), |b|);
    ParsedShort(w, b[0] / 16 * 16);
  }

  // ---- The handlers leave the input side alone ----

  lemma FireKeepsInput(s: State, e: WSEvent, calls: seq<SendCall>)
    ensures var t := Fire(s, e, calls).s;
            t.recvStorage == s.recvStorage && t.received == s.received && t.dispatched == s.dispatched
  {
    var fs, ps := SendAllEffect(s.(callbacks := s.callbacks + [e]), calls);
  }

  lemma FrameKeepsInput(s: State, f: Frame, i: StepInput)
    ensures var t := HandleFrame(s, f, i).s;
            t.recvStorage == s.recvStorage && t.received == s.received && t.dispatched == s.dispatched + [f]
  {
    var t := s.(dispatched := s.dispatched + [f]);
    if f.Kind().Data? {
      var u := if f.header.flag != FIN then t.(recvData := t.recvData + f.data) else t;
      FireKeepsInput(u, OnText(f.data), i.inputSends);
      FireKeepsInput(u, OnText(u.recvData + f.data), i.inputSends);
    } else if f.ControlFrame? && f.statusCode.Some? {
      FireKeepsInput(t.(status := Closed), OnClose(ClientClose(f.statusCode.value)), i.inputSends);
    }
  }

  lemma ResponseKeepsInput(s: State, r: Http.Response, i: StepInput)
    ensures var t := HandleResponse(s, r, i).s;
            t.recvStorage == s.recvStorage && t.received == s.received && t.dispatched == s.dispatched
  {
    var t := s.(protocol := r.Header(Literal("Sec-WebSocket-Protocol")), status := Open);
    FireKeepsInput(t, OnConnect(r.body), i.inputSends);
  }

  lemma OutputKeepsInput(s: State, e: Event, i: StepInput)
    ensures var t := HandleOutput(s, e, i).s;
            t.recvStorage == s.recvStorage && t.received == s.received && t.dispatched == s.dispatched
  {
    if e.WebsocketData? && e.frame.ControlFrame? && i.write.Sent? {
      var t := Wrote(s, e, i).(status := Closed, hasStream := false);
      var code := if e.frame.statusCode.Some? then e.frame.statusCode.value else 0;
      FireKeepsInput(t, OnClose(ServerClose(code)), i.outputSends);
    }
  }

  /** What one iteration does to the input side. */
  lemma TurnInput(s: State, i: StepInput)
    requires Turn(s, i).outcome.Ok?
    ensures var r, t := ReadBytes(s, i), Turn(s, i).s;
            && t.recvStorage == r.s.recvStorage && t.received == r.s.received
            && t.dispatched == s.dispatched + if r.event.WebsocketData? then [r.event.frame] else []
  {
    ReadKeepsQueues(s, i);
    var r := ReadBytes(s, i);
    var out := PopOutput(r.s);
    assert s.dispatched + [] == s.dispatched;
    match r.event {
      case WebsocketData(f) => FrameKeepsInput(out.s, f, i);
      case HttpResponse(p) => ResponseKeepsInput(out.s, p, i);
      case _ =>
    }
    if out.event.Some? {
      OutputKeepsInput(HandleInput(out.s, r.event, i).s, out.event.value, i);
    }
  }

  // ---- Whole runs ----

  /** The server's stream: wires bs that mean the frames ws. */
  predicate ServerStream(bs: seq<seq<byte>>, ws: seq<Rfc.WireFrame>) {
    |bs| == |ws| && forall k | 0 <= k < |bs| :: ServerWire(bs[k], ws[k])
  }

  /** The first frames of the stream were handled; the bytes of the others are stored as far as they came. */
  predicate InStep(handled: seq<Frame>, storage: seq<byte>, received: seq<byte>,
                  bs: seq<seq<byte>>, ws: seq<Rfc.WireFrame>)
    requires |bs| == |ws|
  {
    && |handled| <= |bs|
    && Flatten(bs[..|handled|]) + storage == received
    && forall k | 0 <= k < |handled| :: SameFrame(handled[k], ws[k])
  }

  predicate Consumed(s: State, bs: seq<seq<byte>>, ws: seq<Rfc.WireFrame>)
    requires |bs| == |ws|
  {
    InStep(s.dispatched, s.recvStorage, s.received, bs, ws)
  }

  predicate Streamed(s: State, bs: seq<seq<byte>>, ws: seq<Rfc.WireFrame>)
    requires |bs| == |ws|
  {
    && (Rank(s.status) <= 1 ==> s.recvStorage == [])
    && (Rank(s.status) <= 2 ==> s.dispatched == [] && s.received == [])
    && (Rank(s.status) >= 3 && s.received <= Flatten(bs) ==> Consumed(s, bs, ws))
  }

  /** The storage is the beginning of what remains of the stream. */
  lemma StorageIsHead(dispatched: nat, storage: seq<byte>, received: seq<byte>, bs: seq<seq<byte>>)
    requires dispatched <= |bs| && Flatten(bs[..dispatched]) + storage == received <= Flatten(bs)
    ensures storage <= Flatten(bs[dispatched..])
    ensures dispatched < |bs| ==> Flatten(bs[dispatched..]) == bs[dispatched] + Flatten(bs[dispatched + 1..])
    ensures dispatched == |bs| ==> storage == []
    ensures dispatched < |bs| ==> Flatten(bs[..dispatched + 1]) == Flatten(bs[..dispatched]) + bs[dispatched]
  {
    var n := dispatched;
    assert bs == bs[..n] + bs[n..];
    FlattenConcat(bs[..n], bs[n..]);
    var front := |Flatten(bs[..n])|;
    assert forall k | 0 <= k < |storage| :: storage[k] == received[front + k] == Flatten(bs)[front + k];
    if n < |bs| {
      assert bs[n..][1..] == bs[n + 1..];
      assert bs[..n + 1] == bs[..n] + [bs[n]];
      FlattenConcat(bs[..n], [bs[n]]);
      assert Flatten([bs[n]]) == bs[n];
    }
  }

  /** A frame taken off the storage is the next one of the stream. */
  lemma TakeStreamed(handled: seq<Frame>, storage: seq<byte>, received: seq<byte>,
                     bs: seq<seq<byte>>, ws: seq<Rfc.WireFrame>, frame: Frame, offset: nat)
    requires ServerStream(bs, ws) && InStep(handled, storage, received, bs, ws) && received <= Flatten(bs)
    requires Parse(storage) == Complete(frame, offset)
    ensures offset <= |storage| && InStep(handled + [frame], storage[offset..], received, bs, ws)
  {
    NextParsed(|handled|, storage, received, bs, ws);
    TakeBytes(|handled|, storage, received, bs);
    assert |handled + [frame]| == |handled| + 1;
  }

  lemma NextParsed(n: nat, storage: seq<byte>, received: seq<byte>, bs: seq<seq<byte>>, ws: seq<Rfc.WireFrame>)
    requires ServerStream(bs, ws) && n <= |bs| && Flatten(bs[..n]) + storage == received <= Flatten(bs)
    requires Parse(storage).Complete?
    ensures n < |bs| && SameFrame(Parse(storage).frame, ws[n]) && Parse(storage).offset == |bs[n]|
  {
    StorageIsHead(n, storage, received, bs);
    ParseHead(storage, bs[n], ws[n], Flatten(bs[n + 1..]));
  }

  lemma TakeBytes(n: nat, storage: seq<byte>, received: seq<byte>, bs: seq<seq<byte>>)
    requires n < |bs| && Flatten(bs[..n]) + storage == received <= Flatten(bs) && |bs[n]| <= |storage|
    ensures Flatten(bs[..n + 1]) + storage[|bs[n]|..] == received
  {
    StorageIsHead(n, storage, received, bs);
    PrefixHead(storage, bs[n], Flatten(bs[n + 1..]));
    Regroup(Flatten(bs[..n]), bs[n], storage[|bs[n]|..]);
  }

  lemma PrefixHead(storage: seq<byte>, b: seq<byte>, rest: seq<byte>)
    requires storage <= b + rest && |b| <= |storage|
    ensures storage == b + storage[|b|..]
  {
    assert storage[..|b|] == (b + rest)[..|b|] == b;
  }

  lemma StoreSplit(s: State, bytes: seq<byte>, bs: seq<seq<byte>>, ws: seq<Rfc.WireFrame>)
    requires ServerStream(bs, ws) && Framing(s.status) && Consumed(s, bs, ws)
    ensures Consumed(Store(s, bytes), bs, ws)
  {
    Regroup(Flatten(bs[..|s.dispatched|]), s.recvStorage, bytes);
  }

  /** The state once the bytes of this read are stored. */
  function Stored(s: State, i: StepInput): State {
    if i.read.Received? then Store(s, i.read.bytes) else s
  }

  lemma StoredConsumed(s: State, i: StepInput, bs: seq<seq<byte>>, ws: seq<Rfc.WireFrame>)
    requires ServerStream(bs, ws) && Streamed(s, bs, ws) && Framing(s.status)
    requires Stored(s, i).received <= Flatten(bs)
    ensures Consumed(Stored(s, i), bs, ws) && Stored(s, i).dispatched == s.dispatched
  {
    assert s.received <= Stored(s, i).received;
    if i.read.Received? {
      StoreSplit(s, i.read.bytes, bs, ws);
    }
  }

  /** A read appends to the storage, then takes one whole frame off it if there is one. */
  lemma ReadTakes(s: State, i: StepInput)
    requires Framing(s.status) && ReadBytes(s, i).outcome.Ok?
    ensures var t, r := Stored(s, i), ReadBytes(s, i);
            && r.s.received == t.received
            && if t.recvStorage != [] && Parse(t.recvStorage).Complete?
               then r.event == WebsocketData(Parse(t.recvStorage).frame) &&
                    r.s.recvStorage == t.recvStorage[Parse(t.recvStorage).offset..]
               else r.event.NoData? && r.s.recvStorage == t.recvStorage &&
                    (t.recvStorage == [] || Parse(t.recvStorage).NeedMore?)
  {
  }

  lemma ReadStreamed(s: State, i: StepInput, bs: seq<seq<byte>>, ws: seq<Rfc.WireFrame>)
    requires ServerStream(bs, ws) && Streamed(s, bs, ws) && Framing(s.status) && ReadBytes(s, i).outcome.Ok?
    requires ReadBytes(s, i).s.received <= Flatten(bs)
    ensures var r := ReadBytes(s, i);
            InStep(s.dispatched + (if r.event.WebsocketData? then [r.event.frame] else []),
                  r.s.recvStorage, r.s.received, bs, ws)
  {
    var t := Stored(s, i);
    ReadTakes(s, i);
    StoredConsumed(s, i, bs, ws);
    if t.recvStorage != [] && Parse(t.recvStorage).Complete? {
      var p := Parse(t.recvStorage);
      TakeStreamed(t.dispatched, t.recvStorage, t.received, bs, ws, p.frame, p.offset);
    } else {
      assert s.dispatched + [] == s.dispatched;
    }
  }

  lemma TurnStreamed(s: State, i: StepInput, bs: seq<seq<byte>>, ws: seq<Rfc.WireFrame>)
    requires ServerStream(bs, ws) && Streamed(s, bs, ws) && Connected(s.status) && Turn(s, i).outcome.Ok?
    requires Orderly(s, None)
    ensures Streamed(Turn(s, i).s, bs, ws)
  {
    TurnSound(s, i);
    if Framing(s.status) {
      TurnIsInputStep(s, i);
      FramingStreamed(s, i, Turn(s, i).s, bs, ws);
    } else {
      HandshakeStreamed(s, i);
    }
  }

  /** What TurnInput says about the state t after the iteration. */
  predicate InputStep(s: State, i: StepInput, t: State) {
    var r := ReadBytes(s, i);
    && r.outcome.Ok?
    && t.recvStorage == r.s.recvStorage && t.received == r.s.received
    && t.dispatched == s.dispatched + if r.event.WebsocketData? then [r.event.frame] else []
  }

  lemma TurnIsInputStep(s: State, i: StepInput)
    requires Turn(s, i).outcome.Ok?
    ensures InputStep(s, i, Turn(s, i).s)
  {
    TurnInput(s, i);
  }

  lemma FramingStreamed(s: State, i: StepInput, t: State, bs: seq<seq<byte>>, ws: seq<Rfc.WireFrame>)
    requires ServerStream(bs, ws) && Streamed(s, bs, ws) && Framing(s.status) && InputStep(s, i, t)
    ensures t.received <= Flatten(bs) ==> Consumed(t, bs, ws)
  {
    if t.received <= Flatten(bs) {
      ReadStreamed(s, i, bs, ws);
    }
  }

  /** The storage is empty when the connection opens. */
  lemma HandshakeStreamed(s: State, i: StepInput)
    requires Orderly(s, None) && s.status.Handshake? && Turn(s, i).outcome.Ok?
    requires s.dispatched == [] && s.received == []
    ensures var t := Turn(s, i).s;
            t.dispatched == [] && t.received == [] && (Rank(t.status) >= 3 ==> t.recvStorage == [])
  {
    TurnInput(s, i);
    ReadKeepsQueues(s, i);
    var r := ReadBytes(s, i);
    assert r.s.received == [] && (r.event.HttpResponse? ==> r.s.recvStorage == []);
    if r.event.NoData? {
      var out := PopOutput(r.s);
      assert Turn(s, i).s.status.Handshake?;
    }
  }

  lemma ActStreamed(s: State, a: Action, bs: seq<seq<byte>>, ws: seq<Rfc.WireFrame>)
    requires ServerStream(bs, ws) && Streamed(s, bs, ws) && Orderly(s, None)
    requires !a.Discard? && (a.Initialize? ==> s.status.NotInit?) && Act(s, a).outcome.Ok?
    ensures Streamed(Act(s, a).s, bs, ws)
  {
    match a
    case SendText(c) => var fs, ps := SendEffect(s, c);
    case Iterate(i) =>
      if Connected(s.status) {
        EventLoopIsTurn(s, i);
        TurnStreamed(s, i, bs, ws);
      }
    case _ =>
  }

  lemma {:induction false} RunStreamed(s: State, acts: seq<Action>, bs: seq<seq<byte>>, ws: seq<Rfc.WireFrame>)
    requires ServerStream(bs, ws) && Streamed(s, bs, ws) && Orderly(s, None) && OkRun(s, acts)
    ensures Streamed(After(s, acts), bs, ws)
    decreases |acts|
  {
    if acts != [] {
      ActStreamed(s, acts[0], bs, ws);
      ActOrderly(s, acts[0]);
      RunStreamed(Act(s, acts[0]).s, acts[1..], bs, ws);
    }
  }

  /**
   * Streaming: if what was read since the connection opened begins a stream of server frames, cut
   * into reads in any way, then the frames handled are the first ones of that stream, in order,
   * and their bytes followed by the storage are the bytes read.
   */
  lemma StreamingTheorem(acts: seq<Action>, bs: seq<seq<byte>>, ws: seq<Rfc.WireFrame>)
    requires OkRun(FRESH, acts) && ServerStream(bs, ws)
    requires Rank(After(FRESH, acts).status) >= 3 && After(FRESH, acts).received <= Flatten(bs)
    ensures Consumed(After(FRESH, acts), bs, ws)
  {
    RunStreamed(FRESH, acts, bs, ws);
  }

  /** Progress: an iteration that finds the next frame complete handles exactly that frame. */
  lemma NextFrameIsHandled(s: State, i: StepInput, bs: seq<seq<byte>>, ws: seq<Rfc.WireFrame>)
    requires ServerStream(bs, ws) && Streamed(s, bs, ws) && Framing(s.status) && Turn(s, i).outcome.Ok?
    requires Turn(s, i).s.received <= Flatten(bs) && |s.dispatched| < |bs|
    requires Flatten(bs[..|s.dispatched| + 1]) <= Turn(s, i).s.received
    ensures |Turn(s, i).s.dispatched| == |s.dispatched| + 1
    ensures SameFrame(Turn(s, i).s.dispatched[|s.dispatched|], ws[|s.dispatched|])
  {
    var t := Turn(s, i).s;
    TurnIsInputStep(s, i);
    NextFrameTaken(s, i, t, bs, ws);
    FramingStreamed(s, i, t, bs, ws);
  }

  lemma NextFrameTaken(s: State, i: StepInput, t: State, bs: seq<seq<byte>>, ws: seq<Rfc.WireFrame>)
    requires ServerStream(bs, ws) && Streamed(s, bs, ws) && Framing(s.status) && InputStep(s, i, t)
    requires t.received <= Flatten(bs) && |s.dispatched| < |bs|
    requires Flatten(bs[..|s.dispatched| + 1]) <= t.received
    ensures |t.dispatched| == |s.dispatched| + 1
  {
    StoredReceived(s, i, t);
    StoredConsumed(s, i, bs, ws);
    NextFrameStored(Stored(s, i), bs, ws);
    TakesWhole(s, i, t);
  }

  lemma StoredReceived(s: State, i: StepInput, t: State)
    requires Framing(s.status) && InputStep(s, i, t)
    ensures t.received == Stored(s, i).received
  {
    ReadTakes(s, i);
  }

  lemma TakesWhole(s: State, i: StepInput, t: State)
    requires Framing(s.status) && InputStep(s, i, t)
    requires Stored(s, i).recvStorage != [] && Parse(Stored(s, i).recvStorage) != NeedMore
    ensures |t.dispatched| == |s.dispatched| + 1
  {
    ReadTakes(s, i);
  }

  lemma NextFrameStored(u: State, bs: seq<seq<byte>>, ws: seq<Rfc.WireFrame>)
    requires ServerStream(bs, ws) && Consumed(u, bs, ws) && u.received <= Flatten(bs)
    requires |u.dispatched| < |bs| && Flatten(bs[..|u.dispatched| + 1]) <= u.received
    ensures u.recvStorage != [] && Parse(u.recvStorage) != NeedMore
  {
    var n := |u.dispatched|;
    HeadFrameStored(n, u.recvStorage, u.received, bs);
    MaskBitClear(bs[n], ws[n], |bs[n]|);
    WholeFrameNotAwaited(bs[n], ws[n], u.recvStorage[|bs[n]|..]);
  }

  lemma HeadFrameStored(n: nat, storage: seq<byte>, received: seq<byte>, bs: seq<seq<byte>>)
    requires n < |bs| && Flatten(bs[..n]) + storage == received <= Flatten(bs)
    requires Flatten(bs[..n + 1]) <= received
    ensures |bs[n]| <= |storage| && storage == bs[n] + storage[|bs[n]|..]
  {
    StorageIsHead(n, storage, received, bs);
    PrefixHead(storage, bs[n], Flatten(bs[n + 1..]));
  }

  /** With a whole server frame in the storage the parser does not ask for more. */
  lemma WholeFrameNotAwaited(b: seq<byte>, w: Rfc.WireFrame, more: seq<byte>)
    requires ServerWire(b, w)
    ensures Parse(b + more) != NeedMore
  {
    Rfc.DecodeExtend(b, more);
    MaskBitClear(b, w, |b|);
    assert (b + more)[1] == b[1];
    ParseUnmasked(b + more);
  }

  /** Every iteration of the list finds nothing new on the socket. */
  ghost predicate Polls(acts: seq<Action>) {
    forall a | a in acts :: a.Iterate? && a.input.read.NothingYet?
  }

  lemma {:induction false} FlattenFront(bs: seq<seq<byte>>, n: nat)
    requires n <= |bs|
    ensures Flatten(bs[..n]) <= Flatten(bs)
  {
    FlattenConcat(bs[..n], bs[n..]);
    assert bs == bs[..n] + bs[n..];
  }

  /** A poll with the whole stream received handles one more frame, as long as there is one. */
  lemma PollHandlesOne(s: State, i: StepInput, bs: seq<seq<byte>>, ws: seq<Rfc.WireFrame>)
    requires ServerStream(bs, ws) && Streamed(s, bs, ws) && Orderly(s, None) && Framing(s.status)
    requires Turn(s, i).outcome.Ok? && i.read.NothingYet? && s.received == Flatten(bs)
    ensures var t := Turn(s, i).s;
            t.received == s.received && |t.dispatched| == Min(|bs|, |s.dispatched| + 1)
  {
    TurnIsInputStep(s, i);
    ReadTakes(s, i);
    FramingStreamed(s, i, Turn(s, i).s, bs, ws);
    if |s.dispatched| < |bs| {
      FlattenFront(bs, |s.dispatched| + 1);
      NextFrameIsHandled(s, i, bs, ws);
    }
  }

  lemma PollsTail(polls: seq<Action>)
    requires Polls(polls) && polls != []
    ensures polls[0].Iterate? && polls[0].input.read.NothingYet? && Polls(polls[1..])
  {
    assert polls[0] in polls;
    assert forall a | a in polls[1..] :: a in polls;
  }

  /** A closed client makes every further iteration fail. */
  lemma StillFraming(t: State, polls: seq<Action>)
    requires Rank(t.status) >= 3 && OkRun(t, polls) && Polls(polls) && Framing(After(t, polls).status)
    ensures Framing(t.status)
  {
    if polls != [] {
      PollsTail(polls);
    }
  }

  lemma {:induction false} PollsHandle(s: State, polls: seq<Action>, bs: seq<seq<byte>>, ws: seq<Rfc.WireFrame>)
    requires ServerStream(bs, ws) && Streamed(s, bs, ws) && Orderly(s, None)
    requires OkRun(s, polls) && Polls(polls) && Framing(s.status) && Framing(After(s, polls).status)
    requires s.received == Flatten(bs)
    ensures var t := After(s, polls);
            t.received == s.received && |t.dispatched| == Min(|bs|, |s.dispatched| + |polls|)
    decreases |polls|
  {
    if polls != [] {
      var a := polls[0];
      PollsTail(polls);
      EventLoopIsTurn(s, a.input);
      PollHandlesOne(s, a.input, bs, ws);
      ActStreamed(s, a, bs, ws);
      ActOrderly(s, a);
      ActSound(s, a);
      StillFraming(Act(s, a).s, polls[1..]);
      PollsHandle(Act(s, a).s, polls[1..], bs, ws);
    } else {
      FramingConsumed(s, bs, ws);
    }
  }

  lemma FramingConsumed(s: State, bs: seq<seq<byte>>, ws: seq<Rfc.WireFrame>)
    requires ServerStream(bs, ws) && Streamed(s, bs, ws) && Framing(s.status) && s.received == Flatten(bs)
    ensures |s.dispatched| <= |bs|
  {
  }

  lemma NothingLeft(t: State, bs: seq<seq<byte>>, ws: seq<Rfc.WireFrame>)
    requires |bs| == |ws| && Consumed(t, bs, ws) && t.received == Flatten(bs) && |t.dispatched| == |bs|
    ensures t.recvStorage == []
  {
    assert bs[..|bs|] == bs;
    assert |Flatten(bs) + t.recvStorage| == |Flatten(bs)| + |t.recvStorage|;
  }

  /** An open connection on which the whole stream has been received. */
  predicate AllReceived(s: State, bs: seq<seq<byte>>, ws: seq<Rfc.WireFrame>) {
    ServerStream(bs, ws) && Streamed(s, bs, ws) && Orderly(s, None) && Framing(s.status) && s.received == Flatten(bs)
  }

  lemma ReceivedOnRun(acts: seq<Action>, bs: seq<seq<byte>>, ws: seq<Rfc.WireFrame>)
    requires ServerStream(bs, ws) && OkRun(FRESH, acts) && Framing(After(FRESH, acts).status)
    requires After(FRESH, acts).received == Flatten(bs)
    ensures AllReceived(After(FRESH, acts), bs, ws)
  {
    RunStreamed(FRESH, acts, bs, ws);
    RunOrderly(FRESH, acts);
  }

  lemma PollsConsume(s: State, polls: seq<Action>, bs: seq<seq<byte>>, ws: seq<Rfc.WireFrame>)
    requires AllReceived(s, bs, ws) && OkRun(s, polls) && Polls(polls) && Framing(After(s, polls).status)
    ensures AllConsumed(s, After(s, polls), |polls|, bs, ws)
  {
    PollsHandle(s, polls, bs, ws);
    RunStreamed(s, polls, bs, ws);
    CountConsumed(s, After(s, polls), |polls|, bs, ws);
  }

  lemma CountConsumed(s: State, t: State, n: nat, bs: seq<seq<byte>>, ws: seq<Rfc.WireFrame>)
    requires ServerStream(bs, ws) && Streamed(t, bs, ws) && Framing(t.status) && t.received == Flatten(bs)
    requires |t.dispatched| == Min(|bs|, |s.dispatched| + n)
    ensures AllConsumed(s, t, n, bs, ws)
  {
    if |s.dispatched| + n >= |bs| {
      NothingLeft(t, bs, ws);
    }
  }

  /** Between s and t, n more frames of the stream were handled, or all that were left. */
  predicate AllConsumed(s: State, t: State, n: nat, bs: seq<seq<byte>>, ws: seq<Rfc.WireFrame>)
    requires |bs| == |ws|
  {
    && Consumed(t, bs, ws)
    && |t.dispatched| == Min(|bs|, |s.dispatched| + n)
    && (|s.dispatched| + n >= |bs| ==> t.recvStorage == [])
  }

  /**
   * Once the whole stream is received, every further iteration handles one frame until none is
   * left: the frames handled are then exactly the frames sent, and the storage is empty.
   */
  lemma EveryFrameHandled(acts: seq<Action>, polls: seq<Action>, bs: seq<seq<byte>>, ws: seq<Rfc.WireFrame>)
    requires ServerStream(bs, ws) && OkRun(FRESH, acts + polls) && Polls(polls)
    requires Framing(After(FRESH, acts).status) && Framing(After(FRESH, acts + polls).status)
    requires After(FRESH, acts).received == Flatten(bs)
    ensures AllConsumed(After(FRESH, acts), After(FRESH, acts + polls), |polls|, bs, ws)
  {
    RunConcat(FRESH, acts, polls);
    ReceivedOnRun(acts, bs, ws);
    PollsConsume(After(FRESH, acts), polls, bs, ws);
  }

  /**
   * When the parser rejects or panics on a storage that begins with (part of) a server frame. It
   * rejects RSV3. It panics while the extended length is incomplete, when the length overflows, and
   * on a whole control frame with fewer than two payload bytes.
   */
  lemma StoragePanicsIff(storage: seq<byte>, b: seq<byte>, w: Rfc.WireFrame, rest: seq<byte>)
    requires ServerWire(b, w) && storage <= b + rest
    ensures Parse(storage) == Invalid <==> |storage| >= 2 && w.rsv % 2 == 1
    ensures Parse(storage) == Panics <==>
              && |storage| >= 2 && w.rsv % 2 == 0
              && (|| |storage| < 2 + Rfc.ExtLen(storage[1])
                  || |b| >= U64_LIMIT
                  || (ControlOpcode(w.opcode) && |w.payload| < 2 && |b| <= |storage|))
  {
    ParseUnmasked(storage[..Min(|storage|, 1)]);
    if |storage| >= 2 {
      var more := (b + rest)[|storage|..];
      assert storage + more == b + rest;
      Rfc.DecodeExtend(b, rest);
      MaskBitClear(b, w, |b|);
      assert storage[0] == (b + rest)[0] == b[0] && storage[1] == (b + rest)[1] == b[1];
      HeadPanicsIff(storage, b, w, more, rest);
    }
  }

  lemma HeadPanicsIff(storage: seq<byte>, b: seq<byte>, w: Rfc.WireFrame, more: seq<byte>, rest: seq<byte>)
    requires ServerWire(b, w) && Rfc.Decode(b + rest) == Rfc.Decode(b)
    requires |storage| >= 2 && storage + more == b + rest
    requires storage[0] == b[0] && storage[1] == b[1] < 128 && w.opcode == b[0] % 16 && w.rsv == b[0] / 16 % 8
    ensures Parse(storage) == Invalid <==> w.rsv % 2 == 1
    ensures Parse(storage) == Panics <==>
              && w.rsv % 2 == 0
              && (|| |storage| < 2 + Rfc.ExtLen(storage[1])
                  || |b| >= U64_LIMIT
                  || (ControlOpcode(w.opcode) && |w.payload| < 2 && |b| <= |storage|))
  {
    ParseUnmasked(storage);
    LowBits(b[0]);
    var start := 2 + Rfc.ExtLen(b[1]);
    if |storage| >= start {
      Rfc.PayloadLenExtend(storage, more);
      Rfc.PayloadLenExtend(b, rest);
      assert start + Rfc.PayloadLen(storage) == |b|;
      if Rfc.Decode(storage).Some? {
        Rfc.DecodeExtend(storage, more);
      }
    }
  }

  /** An empty PING is a legal frame, and the parser panics on it. */
  lemma EmptyPingPanics()
    ensures ServerWire([0x89, 0], Rfc.WireFrame(true, 0, Rfc.PING, None, []))
    ensures Parse([0x89, 0]) == Panics
  {
    var b: seq<byte> := [0x89, 0];
    assert b[2..2] == [];
  }
}
