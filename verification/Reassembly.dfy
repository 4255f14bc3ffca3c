/**
 * Incoming text messages (client.rs, `handle_recv_frame`): what is reported for which frames, and
 * for which frames that is the reassembly of section 5.4 of RFC 6455.
 */
module Reassembly {
  import opened Bytes
  import opened Wrappers
  import opened Frames
  import opened Text
  import opened Session
  import opened Outgoing
  import opened Runs
  import opened Lifecycle
  import opened Streaming
  import Rfc = Rfc6455
  import Http
  import Utf8

  /** The messages among the callbacks. */
  function Texts(c: seq<WSEvent>): seq<text> {
    if c == [] then [] else (if c[0].OnText? then [c[0].message] else []) + Texts(c[1..])
  }

  lemma {:induction false} TextsConcat(a: seq<WSEvent>, b: seq<WSEvent>)
    ensures Texts(a + b) == Texts(a) + Texts(b)
  {
    if a == [] {
      assert a + b == b;
    } else {
      assert (a + b)[0] == a[0] && (a + b)[1..] == a[1..] + b;
      TextsConcat(a[1..], b);
    }
  }

  lemma {:induction false} DataFramesConcat(a: seq<Frame>, b: seq<Frame>)
    ensures DataFramesOf(a + b) == DataFramesOf(a) + DataFramesOf(b)
  {
    if a == [] {
      assert a + b == b;
    } else {
      assert (a + b)[0] == a[0] && (a + b)[1..] == a[1..] + b;
      DataFramesConcat(a[1..], b);
      Regroup(if a[0].Kind().Data? then [a[0]] else [], DataFramesOf(a[1..]), DataFramesOf(b));
    }
  }

  /** What the client reports for one data frame: a fragment that is not final is reported doubled. */
  function Report(f: Frame): text {
    if f.header.flag == FIN then f.data else f.data + f.data
  }

  function Reports(fs: seq<Frame>): (r: seq<text>)
    ensures |r| == |fs|
  {
    seq(|fs|, k requires 0 <= k < |fs| => Report(fs[k]))
  }

  lemma ReportsSnoc(fs: seq<Frame>, f: Frame)
    ensures Reports(fs + [f]) == Reports(fs) + [Report(f)]
  {
  }

  // ---- Every successful run ----

  predicate Reported(s: State) {
    && (Rank(s.status) <= 2 ==> s.dispatched == [] && s.recvData == [])
    && (s.hasCallback ==> s.recvData == [] && Texts(s.callbacks) == Reports(DataFramesOf(s.dispatched)))
  }

  lemma FireReported(s: State, e: WSEvent, calls: seq<SendCall>)
    ensures var t := Fire(s, e, calls).s;
            && t.callbacks == s.callbacks + [e] && t.dispatched == s.dispatched && t.recvData == s.recvData
            && t.hasCallback == s.hasCallback && t.status == s.status
    ensures Texts(Fire(s, e, calls).s.callbacks) == Texts(s.callbacks) + if e.OnText? then [e.message] else []
  {
    var fs, ps := SendAllEffect(s.(callbacks := s.callbacks + [e]), calls);
    TextsConcat(s.callbacks, [e]);
  }

  /** One data frame is reported once, and leaves nothing behind. */
  lemma DataReported(s: State, f: Frame, i: StepInput)
    requires s.hasCallback && s.recvData == [] && HandleData(s, f, i).outcome.Ok?
    ensures var t := HandleData(s, f, i).s;
            && t.recvData == [] && t.dispatched == s.dispatched && t.hasCallback && t.status == s.status
            && Texts(t.callbacks) == Texts(s.callbacks) + [Report(f)]
  {
    var t := if f.header.flag != FIN then s.(recvData := s.recvData + f.data) else s;
    var m := if t.recvData == [] then f.data else t.recvData + f.data;
    FireReported(t, OnText(m), i.inputSends);
    assert m == Report(f);
  }

  /** Handlers other than that of data frames report no text. */
  predicate SameTexts(s: State, t: State) {
    && t.recvData == s.recvData && t.dispatched == s.dispatched && t.hasCallback == s.hasCallback
    && Texts(t.callbacks) == Texts(s.callbacks) && Rank(t.status) >= Rank(s.status)
  }

  lemma ControlReported(s: State, f: Frame, i: StepInput)
    requires f.ControlFrame? && Framing(s.status)
    ensures SameTexts(s, HandleControl(s, f, i).s)
  {
    if f.header.opcode == CLOSE && s.status.ClientWantsToClose? && f.statusCode.Some? {
      FireReported(s.(status := Closed), OnClose(ClientClose(f.statusCode.value)), i.inputSends);
    }
  }

  lemma FrameReported(s: State, f: Frame, i: StepInput)
    requires Reported(s) && Framing(s.status) && HandleFrame(s, f, i).outcome.Ok?
    ensures Reported(HandleFrame(s, f, i).s)
  {
    var t := s.(dispatched := s.dispatched + [f]);
    DataFramesConcat(s.dispatched, [f]);
    if f.Kind().Data? {
      assert DataFramesOf([f]) == [f];
      ReportsSnoc(DataFramesOf(s.dispatched), f);
      if s.hasCallback {
        DataReported(t, f, i);
      }
    } else {
      assert DataFramesOf(s.dispatched) + DataFramesOf([f]) == DataFramesOf(s.dispatched);
      ControlReported(t, f, i);
    }
  }

  lemma ResponseReported(s: State, r: Http.Response, i: StepInput)
    requires Reported(s) && s.status.Handshake?
    ensures Reported(HandleResponse(s, r, i).s)
  {
    var t := s.(protocol := r.Header(Literal("Sec-WebSocket-Protocol")), status := Open);
    FireReported(t, OnConnect(r.body), i.inputSends);
  }

  lemma EndReported(s: State, f: Frame, i: StepInput)
    requires f.ControlFrame? && s.hasStream
    ensures SameTexts(s, EndByServer(s, f, i).s)
  {
    var code := if f.statusCode.Some? then f.statusCode.value else 0;
    FireReported(s.(status := Closed, hasStream := false), OnClose(ServerClose(code)), i.outputSends);
  }

  lemma OutputReported(s: State, e: Event, i: StepInput)
    ensures SameTexts(s, HandleOutput(s, e, i).s)
  {
    if e.WebsocketData? && e.frame.ControlFrame? && s.hasStream && i.write.Sent? {
      EndReported(Wrote(s, e, i), e.frame, i);
    }
  }

  lemma TurnReported(s: State, i: StepInput)
    requires Reported(s) && Connected(s.status) && Turn(s, i).outcome.Ok?
    ensures Reported(Turn(s, i).s)
  {
    ReadKeepsQueues(s, i);
    var r := ReadBytes(s, i);
    var out := PopOutput(r.s);
    match r.event {
      case WebsocketData(f) => FrameReported(out.s, f, i);
      case HttpResponse(p) => ResponseReported(out.s, p, i);
      case _ =>
    }
    if out.event.Some? {
      OutputReported(HandleInput(out.s, r.event, i).s, out.event.value, i);
    }
  }

  lemma {:induction false} RunReported(s: State, acts: seq<Action>)
    requires Reported(s) && Healthy(s) && OkRun(s, acts)
    ensures Reported(After(s, acts))
    decreases |acts|
  {
    if acts != [] {
      var a := acts[0];
      ActSound(s, a);
      match a {
        case SendText(c) => var fs, ps := SendEffect(s, c);
        case Iterate(i) =>
          if Connected(s.status) {
            EventLoopIsTurn(s, i);
            TurnReported(s, i);
          }
        case _ =>
      }
      RunReported(Act(s, a).s, acts[1..]);
    }
  }

  /** On every successful run with a callback, each data frame handled was reported once, as Report says. */
  lemma ReportsTheorem(acts: seq<Action>)
    requires OkRun(FRESH, acts) && After(FRESH, acts).hasCallback
    ensures var s := After(FRESH, acts);
            Texts(s.callbacks) == Reports(DataFramesOf(s.dispatched)) && s.recvData == []
  {
    RunReported(FRESH, acts);
  }

  // ---- The standard ----

  predicate Final(f: Frame) {
    f.header.flag >= 128
  }

  /** Section 5.4: one message per final frame, made of the payloads since the previous final frame. */
  function Messages(fs: seq<Frame>, partial: text): seq<text> {
    if fs == [] then []
    else if Final(fs[0]) then [partial + fs[0].data] + Messages(fs[1..], [])
    else Messages(fs[1..], partial + fs[0].data)
  }

  lemma {:induction false} MessageCount(fs: seq<Frame>, partial: text)
    ensures |Messages(fs, partial)| <= |fs|
    ensures |Messages(fs, partial)| == |fs| <==> forall f | f in fs :: Final(f)
  {
    if fs != [] {
      MessageCount(fs[1..], if Final(fs[0]) then [] else partial + fs[0].data);
      assert fs == [fs[0]] + fs[1..];
    }
  }

  lemma {:induction false} AllFinal(fs: seq<Frame>)
    requires forall f | f in fs :: Final(f)
    ensures |Messages(fs, [])| == |fs| && forall k | 0 <= k < |fs| :: Messages(fs, [])[k] == fs[k].data
  {
    if fs != [] {
      AllFinal(fs[1..]);
      assert [] + fs[0].data == fs[0].data;
    }
  }

  /** A frame that arrives whole in the sense of the code: its flags are exactly FIN, or it is empty. */
  predicate Whole(f: Frame) {
    Final(f) && (f.header.flag == FIN || f.data == [])
  }

  predicate AllWhole(fs: seq<Frame>) {
    forall f | f in fs :: Whole(f)
  }

  /** The reports are the reassembled messages exactly when every data frame is a whole message. */
  lemma ReassemblyIff(fs: seq<Frame>)
    ensures Reports(fs) == Messages(fs, []) <==> AllWhole(fs)
  {
    MessageCount(fs, []);
    if forall f | f in fs :: Final(f) {
      AllFinal(fs);
      if Reports(fs) == Messages(fs, []) {
        forall f | f in fs ensures Whole(f) {
          var k :| 0 <= k < |fs| && fs[k] == f;
          assert Reports(fs)[k] == Report(f) && Messages(fs, [])[k] == f.data;
          assert |f.data + f.data| == 2 * |f.data|;
        }
      }
      if AllWhole(fs) {
        forall k | 0 <= k < |fs| ensures Reports(fs)[k] == Messages(fs, [])[k] {
          assert fs[k] in fs;
        }
        assert Reports(fs) == Messages(fs, []);
      }
    }
  }

  /**
   * On every successful run with a callback, the texts reported are the messages in the frames
   * handled if and only if every data frame among them was a whole message.
   */
  lemma ReassemblyTheorem(acts: seq<Action>)
    requires OkRun(FRESH, acts) && After(FRESH, acts).hasCallback
    ensures var s := After(FRESH, acts);
            var fs := DataFramesOf(s.dispatched);
            Texts(s.callbacks) == Messages(fs, []) <==> AllWhole(fs)
  {
    ReportsTheorem(acts);
    ReassemblyIff(DataFramesOf(After(FRESH, acts).dispatched));
  }

  // ---- What the server sent ----

  /** Section 5.4 on the server's frames: control frames may come in between. */
  function SentMessages(ws: seq<Rfc.WireFrame>, partial: text): seq<text> {
    if ws == [] then []
    else if Rfc.IsControl(ws[0]) then SentMessages(ws[1..], partial)
    else if ws[0].fin then [partial + ws[0].payload] + SentMessages(ws[1..], [])
    else SentMessages(ws[1..], partial + ws[0].payload)
  }

  /** A control frame, or a message in a single frame without reserved bits, or an empty final frame. */
  predicate SentWhole(w: Rfc.WireFrame) {
    Rfc.IsControl(w) || (w.fin && (w.rsv == 0 || w.payload == []))
  }

  predicate AllSentWhole(ws: seq<Rfc.WireFrame>) {
    forall k | 0 <= k < |ws| :: SentWhole(ws[k])
  }

  lemma OneFrame(f: Frame, w: Rfc.WireFrame)
    requires SameFrame(f, w) && (DataOpcode(w.opcode) || ControlOpcode(w.opcode))
    ensures f.Kind().Data? <==> !Rfc.IsControl(w)
    ensures Final(f) <==> w.fin
    ensures SentWhole(w) <==> (f.Kind().Data? ==> Whole(f))
  {
    assert f.header.flag == f.header.flag / 16 * 16;
  }

  lemma {:induction false} SameMessages(fs: seq<Frame>, ws: seq<Rfc.WireFrame>, partial: text)
    requires |fs| == |ws| && forall k | 0 <= k < |fs| :: SameFrame(fs[k], ws[k])
    requires forall k | 0 <= k < |ws| :: DataOpcode(ws[k].opcode) || ControlOpcode(ws[k].opcode)
    ensures Messages(DataFramesOf(fs), partial) == SentMessages(ws, partial)
    ensures AllWhole(DataFramesOf(fs)) <==> AllSentWhole(ws)
    decreases |fs|
  {
    if fs != [] {
      var f, w, rest := fs[0], ws[0], DataFramesOf(fs[1..]);
      OneFrame(f, w);
      var next := if !f.Kind().Data? then partial else if Final(f) then [] else partial + f.data;
      SameMessages(fs[1..], ws[1..], next);
      assert DataFramesOf(fs) == if f.Kind().Data? then [f] + rest else rest;
      assert f.Kind().Data? ==> ([f] + rest)[0] == f && ([f] + rest)[1..] == rest;
      assert forall k | 0 < k < |ws| :: ws[k] == ws[1..][k - 1];
      assert forall k | 0 <= k < |ws| - 1 :: ws[1..][k] == ws[k + 1];
    }
  }

  /**
   * End to end from the server: its whole stream was received, cut into reads in any way, and enough
   * iterations followed. The texts reported are then the messages it sent if and only if it sent
   * every message in a single frame without reserved bits, or with an empty final frame.
   */
  lemma SentMessagesReported(acts: seq<Action>, polls: seq<Action>, bs: seq<seq<byte>>, ws: seq<Rfc.WireFrame>)
    requires ServerStream(bs, ws) && OkRun(FRESH, acts + polls) && Polls(polls)
    requires Framing(After(FRESH, acts).status) && Framing(After(FRESH, acts + polls).status)
    requires After(FRESH, acts).received == Flatten(bs)
    requires |After(FRESH, acts).dispatched| + |polls| >= |bs| && After(FRESH, acts + polls).hasCallback
    ensures Texts(After(FRESH, acts + polls).callbacks) == SentMessages(ws, []) <==>
            AllSentWhole(ws)
  {
    EveryFrameHandled(acts, polls, bs, ws);
    ReassemblyTheorem(acts + polls);
    ConsumedMessages(After(FRESH, acts), After(FRESH, acts + polls), |polls|, bs, ws);
  }

  lemma ConsumedMessages(s: State, t: State, n: nat, bs: seq<seq<byte>>, ws: seq<Rfc.WireFrame>)
    requires ServerStream(bs, ws) && AllConsumed(s, t, n, bs, ws) && |s.dispatched| + n >= |bs|
    ensures Messages(DataFramesOf(t.dispatched), []) == SentMessages(ws, [])
    ensures AllWhole(DataFramesOf(t.dispatched)) <==> AllSentWhole(ws)
  {
    HandledMessages(t.dispatched, bs, ws);
  }

  lemma HandledMessages(fs: seq<Frame>, bs: seq<seq<byte>>, ws: seq<Rfc.WireFrame>)
    requires ServerStream(bs, ws) && |fs| == |bs| && forall k | 0 <= k < |fs| :: SameFrame(fs[k], ws[k])
    ensures Messages(DataFramesOf(fs), []) == SentMessages(ws, [])
    ensures AllWhole(DataFramesOf(fs)) <==> AllSentWhole(ws)
  {
    assert forall k | 0 <= k < |bs| :: ServerWire(bs[k], ws[k]);
    SameMessages(fs, ws, []);
  }

  /** A non-empty fragment p without FIN is reported at once as p + p; no message is finished. */
  lemma FragmentDoubled(s: State, f: Frame, i: StepInput)
    requires s.hasCallback && s.recvData == [] && HandleData(s, f, i).outcome.Ok?
    requires !Final(f) && f.data != []
    ensures Texts(HandleData(s, f, i).s.callbacks) == Texts(s.callbacks) + [f.data + f.data]
    ensures HandleData(s, f, i).s.recvData == [] && Messages([f], []) == []
  {
    DataReported(s, f, i);
  }

  /**
   * What is remembered of a data frame: nothing once it is reported; otherwise, so without a callback
   * or when the frame is refused, a frame that is not flagged exactly FIN is added to what is there.
   */
  lemma Remembered(s: State, f: Frame, i: StepInput)
    ensures var r := HandleData(s, f, i);
            r.s.recvData ==
            if s.hasCallback && r.outcome.Ok? then []
            else s.recvData + if f.header.flag != FIN then f.data else []
  {
    assert s.recvData + [] == s.recvData;
    var t := if f.header.flag != FIN then s.(recvData := s.recvData + f.data) else s;
    var m := if t.recvData == [] then f.data else t.recvData + f.data;
    var fs, ps := SendAllEffect(t.(callbacks := t.callbacks + [OnText(m)]), i.inputSends);
  }

  /**
   * So a character cut by fragmentation, which section 5.4 of RFC 6455 allows, blocks the texts after
   * it: once such a frame is refused, every frame flagged FIN is refused too and changes nothing.
   */
  lemma CutCharacterBlocks(s: State, f: Frame, i: StepInput, g: Frame, j: StepInput)
    requires s.hasCallback && s.recvData == [] && f.header.flag != FIN && !Utf8.Valid(f.data) && g.header.flag == FIN
    ensures var t := HandleData(s, f, i).s;
            && HandleData(s, f, i).outcome == Err(DecodingFromUtf8) && t.recvData == f.data
            && HandleData(t, g, j).outcome == Err(DecodingFromUtf8) && HandleData(t, g, j).s == t
  {
    assert s.recvData + f.data == f.data;
  }

  /** A frame is refused for its contents exactly when they are not UTF-8. */
  lemma DecodingErrorIff(s: State, f: Frame, i: StepInput)
    requires s.hasCallback && s.recvData == []
    ensures HandleData(s, f, i).outcome == Err(DecodingFromUtf8) <==> !Utf8.Valid(f.data)
  {
    assert s.recvData + f.data == f.data;
    var t := if f.header.flag != FIN then s.(recvData := f.data) else s;
    var m := if t.recvData == [] then f.data else t.recvData + f.data;
    var fs, ps := SendAllEffect(t.(callbacks := t.callbacks + [OnText(m)]), i.inputSends);
  }
}
