/**
 * From send to the server: on every successful run, the bytes written after the handshake
 * request are read by an RFC 6455 server as the payloads given to send, in order.
 */
module EndToEnd {
  import opened Bytes
  import opened Wrappers
  import opened Frames
  import opened Text
  import opened Session
  import opened Outgoing
  import opened Codec
  import opened Runs
  import opened Lifecycle
  import opened Output
  import opened Fragmentation
  import opened Writes
  import Http
  import Rfc = Rfc6455

  /** The payloads of which anything is sent at all. */
  function NonEmpty(ps: seq<text>): seq<text> {
    if ps == [] then [] else (if ps[0] == [] then [] else [ps[0]]) + NonEmpty(ps[1..])
  }

  lemma {:induction false} NonEmptyConcat(a: seq<text>, b: seq<text>)
    ensures NonEmpty(a + b) == NonEmpty(a) + NonEmpty(b)
  {
    if a == [] {
      assert a + b == b;
    } else {
      assert (a + b)[0] == a[0] && (a + b)[1..] == a[1..] + b;
      NonEmptyConcat(a[1..], b);
    }
  }

  /** The queued frames carry the payloads taken so far. */
  ghost predicate Carried(s: State) {
    Faithful(s.enqueued, NonEmpty(s.payloads))
  }

  lemma SendCarried(s: State, c: SendCall)
    requires Carried(s) && Send(s, c).outcome.Ok?
    ensures Carried(Send(s, c).s)
  {
    if !s.status.Closed? {
      NonEmptyConcat(s.payloads, [c.payload]);
      if c.payload == [] {
        assert NonEmpty([c.payload]) == [];
        assert s.enqueued + [] == s.enqueued && NonEmpty(s.payloads) + [] == NonEmpty(s.payloads);
      } else {
        assert NonEmpty([c.payload]) == [c.payload];
        FaithfulAppend(s.enqueued, NonEmpty(s.payloads), c.payload, s.messageSize, c.masks);
      }
    }
  }

  lemma {:induction false} SendAllCarried(s: State, calls: seq<SendCall>)
    requires Carried(s) && SendAll(s, calls).outcome.Ok?
    ensures Carried(SendAll(s, calls).s)
    decreases |calls|
  {
    if calls != [] {
      SendCarried(s, calls[0]);
      SendAllCarried(Send(s, calls[0]).s, calls[1..]);
    }
  }

  lemma FrameCarried(s: State, f: Frame, i: StepInput)
    requires Carried(s) && HandleFrame(s, f, i).outcome.Ok?
    ensures Carried(HandleFrame(s, f, i).s)
  {
    var t := s.(dispatched := s.dispatched + [f]);
    if f.Kind().Data? {
      DataCarried(t, f, i);
    } else if f.header.opcode == CLOSE && t.status.ClientWantsToClose? && t.hasCallback {
      FireCarried(t.(status := Closed), OnClose(ClientClose(f.statusCode.value)), i.inputSends);
    }
  }

  lemma FireCarried(s: State, e: WSEvent, calls: seq<SendCall>)
    requires Carried(s) && Fire(s, e, calls).outcome.Ok?
    ensures Carried(Fire(s, e, calls).s)
  {
    SendAllCarried(s.(callbacks := s.callbacks + [e]), calls);
  }

  lemma DataCarried(s: State, f: Frame, i: StepInput)
    requires Carried(s) && HandleData(s, f, i).outcome.Ok?
    ensures Carried(HandleData(s, f, i).s)
  {
    var t := if f.header.flag != FIN then s.(recvData := s.recvData + f.data) else s;
    if s.hasCallback {
      var m := if t.recvData == [] then f.data else t.recvData + f.data;
      FireCarried(t, OnText(m), i.inputSends);
    }
  }

  lemma ResponseCarried(s: State, r: Http.Response, i: StepInput)
    requires Carried(s) && HandleResponse(s, r, i).outcome.Ok?
    ensures Carried(HandleResponse(s, r, i).s)
  {
    var t := s.(protocol := r.Header(Literal("Sec-WebSocket-Protocol")), status := Open);
    if s.status.Handshake? && s.hasCallback {
      FireCarried(t, OnConnect(r.body), i.inputSends);
    }
  }

  lemma OutputCarried(s: State, e: Event, i: StepInput)
    requires Carried(s) && HandleOutput(s, e, i).outcome.Ok?
    ensures Carried(HandleOutput(s, e, i).s)
  {
    if e.WebsocketData? && i.write.Sent? && e.frame.Kind().Control? && s.status.ServerWantsToClose? && s.hasCallback {
      var t := Wrote(s, e, i).(status := Closed, hasStream := false);
      var code := if e.frame.statusCode.Some? then e.frame.statusCode.value else 0;
      FireCarried(t, OnClose(ServerClose(code)), i.outputSends);
    }
  }

  lemma TurnCarried(s: State, i: StepInput)
    requires Carried(s) && Turn(s, i).outcome.Ok?
    ensures Carried(Turn(s, i).s)
  {
    ReadKeepsQueues(s, i);
    var r := ReadBytes(s, i);
    var out := PopOutput(r.s);
    match r.event {
      case WebsocketData(f) => FrameCarried(out.s, f, i);
      case HttpResponse(p) => ResponseCarried(out.s, p, i);
      case _ =>
    }
    if out.event.Some? {
      OutputCarried(HandleInput(out.s, r.event, i).s, out.event.value, i);
    }
  }

  lemma {:induction false} RunCarried(s: State, acts: seq<Action>)
    requires Carried(s) && Healthy(s) && OkRun(s, acts)
    ensures Carried(After(s, acts))
    decreases |acts|
  {
    if acts != [] {
      var a := acts[0];
      ActSound(s, a);
      match a {
        case SendText(c) => SendCarried(s, c);
        case Iterate(i) =>
          if Connected(s.status) {
            EventLoopIsTurn(s, i);
            TurnCarried(s, i);
          }
        case _ =>
      }
      RunCarried(Act(s, a).s, acts[1..]);
    }
  }

  // ---- The byte stream ----

  lemma DecodeOneMore(b: seq<byte>, rest: seq<byte>, w: Rfc.WireFrame, ws: seq<Rfc.WireFrame>)
    requires Rfc.Decode(b + rest) == Some((w, |b|)) && Rfc.DecodeAll(rest) == Some(ws)
    ensures Rfc.DecodeAll(b + rest) == Some([w] + ws)
  {
    assert (b + rest)[|b|..] == rest;
  }

  lemma DecodeFrameThen(f: Frame, rest: seq<byte>, ws: seq<Rfc.WireFrame>)
    requires LengthMatches(f) && Rfc.DecodeAll(rest) == Some(ws)
    ensures Rfc.DecodeAll(FrameBytes(f) + rest) == Some([ToWire(f)] + ws)
  {
    SerializedFrameDecodes(f, FrameBytes(f) + rest);
    DecodeOneMore(FrameBytes(f), rest, ToWire(f), ws);
  }

  lemma {:induction false} StreamDecodes(fs: seq<Frame>)
    requires forall f | f in fs :: LengthMatches(f)
    ensures Rfc.DecodeAll(Stream(fs)) == Some(Wires(fs))
  {
    if fs != [] {
      StreamDecodes(fs[1..]);
      DecodeFrameThen(fs[0], Stream(fs[1..]), Wires(fs[1..]));
      WiresCons(fs);
    }
  }

  lemma WiresCons(fs: seq<Frame>)
    requires fs != []
    ensures Wires(fs) == [ToWire(fs[0])] + Wires(fs[1..])
  {
  }

  /** A length encoding does not depend on what follows. */
  lemma MinimalWithRest(f: Frame, rest: seq<byte>)
    requires LengthMatches(f)
    ensures Rfc.Decode(FrameBytes(f) + rest).Some? && Rfc.Decode(FrameBytes(f) + rest).value.1 == |FrameBytes(f)|
    ensures Rfc.MinimalLength(FrameBytes(f) + rest) <==> |f.data| != 125
  {
    var b := FrameBytes(f);
    SerializedFrameDecodes(f, b + rest);
    MinimalEncodingUnless125(f);
    Rfc.PayloadLenExtend(b, rest);
  }

  predicate No125(fs: seq<Frame>) {
    forall k | 0 <= k < |fs| :: |fs[k].data| != 125
  }

  lemma {:induction false} StreamMinimalIff(fs: seq<Frame>)
    requires forall f | f in fs :: LengthMatches(f)
    ensures Rfc.AllMinimal(Stream(fs)) <==> No125(fs)
  {
    if fs != [] {
      StreamMinimalIff(fs[1..]);
      MinimalHead(fs[0], FrameBytes(fs[0]), Stream(fs[1..]));
      assert No125(fs) <==> |fs[0].data| != 125 && No125(fs[1..]) by {
        assert forall k | 0 < k < |fs| :: fs[k] == fs[1..][k - 1];
      }
    }
  }

  lemma MinimalHead(f: Frame, b: seq<byte>, rest: seq<byte>)
    requires LengthMatches(f) && b == FrameBytes(f)
    ensures Rfc.AllMinimal(b + rest) <==> |f.data| != 125 && Rfc.AllMinimal(rest)
  {
    MinimalWithRest(f, rest);
    assert (b + rest)[|b|..] == rest;
  }

  predicate OutFrame(f: Frame) {
    OutData(f) || OutControl(f)
  }

  /** Control frames in between do not disturb the messages. */
  lemma {:induction false} SkipControls(r: Rfc.Received, fs: seq<Frame>)
    requires forall f | f in fs :: OutFrame(f)
    ensures Rfc.DeliverAll(r, Wires(fs)) == Rfc.DeliverAll(r, Wires(DataFramesOf(fs)))
    decreases |fs|
  {
    if fs != [] {
      var f := fs[0];
      assert f in fs;
      OutContents(f);
      assert Wires(fs)[0] == ToWire(f) && Wires(fs)[1..] == Wires(fs[1..]);
      if f.DataFrame? {
        var ds := DataFramesOf(fs);
        assert Wires(ds)[0] == ToWire(f) && Wires(ds)[1..] == Wires(DataFramesOf(fs[1..]));
        if Rfc.Deliver(r, ToWire(f)).Some? {
          SkipControls(Rfc.Deliver(r, ToWire(f)).value, fs[1..]);
        }
      } else {
        assert DataFramesOf(fs) == DataFramesOf(fs[1..]);
        SkipControls(r, fs[1..]);
      }
    }
  }

  lemma {:induction false} FramesOfOut(q: seq<Event>)
    requires AllOut(q)
    ensures forall f | f in FramesOf(q) :: OutFrame(f)
    ensures DataFramesOf(FramesOf(q)) == DataOf(q)
  {
    if q != [] {
      assert q[0] in q;
      FramesOfOut(q[1..]);
      if q[0].WebsocketData? {
        assert FramesOf(q)[1..] == FramesOf(q[1..]);
      } else {
        assert FramesOf(q) == FramesOf(q[1..]);
      }
    }
  }

  lemma DecodeAndSkip(fs: seq<Frame>)
    requires forall f | f in fs :: OutFrame(f)
    ensures Rfc.ServerReceives(Stream(fs)) == Rfc.DeliverAll(Rfc.NOTHING, Wires(DataFramesOf(fs)))
  {
    StreamDecodes(fs);
    SkipControls(Rfc.NOTHING, fs);
  }

  lemma ServerReads(s: State, head: seq<byte>, tail: seq<byte>)
    requires Healthy(s) && IsWireOf(head, tail, s.written)
    ensures Rfc.ServerReceives(tail) == Rfc.DeliverAll(Rfc.NOTHING, Wires(DataOf(s.written)))
    ensures Rfc.AllMinimal(tail) <==> s.written == [] || No125(FramesOf(s.written[1..]))
  {
    if s.written != [] {
      var q := s.written[1..];
      assert forall e | e in q :: e in s.written;
      FramesOfOut(q);
      DecodeAndSkip(FramesOf(q));
      StreamMinimalIff(FramesOf(q));
      assert DataOf(s.written) == DataOf(q);
    }
  }

  /**
   * End to end: on every run whose calls all succeed, with any blocked writes, incoming frames and
   * sends from the callback, the bytes on the wire are the request and then bytes that a server reads,
   * by sections 5.2, 5.3 and 5.4 of RFC 6455, as text messages that are a prefix of the non-empty
   * payloads given to send, in order, and at most one unfinished message, which is a proper part of
   * the next payload. All length encodings are the shortest, as section 5.2 demands of a sender, if
   * and only if no frame written has 125 payload bytes.
   */
  lemma EndToEndTheorem(acts: seq<Action>) returns (head: seq<byte>, tail: seq<byte>)
    requires OkRun(FRESH, acts)
    ensures var s := After(FRESH, acts);
            && s.wire == head + tail
            && IsWireOf(head, tail, s.written)
            && Partway(Rfc.ServerReceives(tail), NonEmpty(s.payloads))
            && (Rfc.AllMinimal(tail) <==> s.written == [] || No125(FramesOf(s.written[1..])))
  {
    var s := After(FRESH, acts);
    head, tail := WireTheorem(acts);
    Reached(acts);
    ServerReads(s, head, tail);
    var k := |DataOf(s.written)|;
    assert DataOf(s.written) == s.enqueued[..k];
  }

  /** Once the queue of an open connection is empty, the server has received every payload. */
  lemma DrainedMeansReceived(acts: seq<Action>) returns (head: seq<byte>, tail: seq<byte>)
    requires OkRun(FRESH, acts)
    requires Rank(After(FRESH, acts).status) <= 3 && DataOf(After(FRESH, acts).outputEvents) == []
    ensures var s := After(FRESH, acts);
            && s.wire == head + tail
            && IsWireOf(head, tail, s.written)
            && Rfc.ServerReceives(tail) == Some(Rfc.Received(NonEmpty(s.payloads), None))
  {
    var s := After(FRESH, acts);
    head, tail := WireTheorem(acts);
    Reached(acts);
    OutputConservation(acts);
    ServerReads(s, head, tail);
    assert DataOf(s.written) + [] == DataOf(s.written);
  }

  lemma Reached(acts: seq<Action>)
    requires OkRun(FRESH, acts)
    ensures Healthy(After(FRESH, acts)) && Carried(After(FRESH, acts))
    ensures DataOf(After(FRESH, acts).written) <= After(FRESH, acts).enqueued
  {
    RunOrderly(FRESH, acts);
    OutputConservation(acts);
    assert Carried(FRESH);
    RunCarried(FRESH, acts);
  }
}
