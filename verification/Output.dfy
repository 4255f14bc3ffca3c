/**
 * The output side of a successful run: the handshake request goes first, and no data frame is
 * lost, duplicated or reordered. The event taken from the queue but not yet handled is `held`;
 * `held` followed by the queue is what the client still has to write.
 */
module Output {
  import opened Wrappers
  import opened Frames
  import opened Text
  import opened Session
  import opened Outgoing
  import opened Runs
  import opened Lifecycle
  import Http

  function Pending(s: State, held: Option<Event>): seq<Event> {
    OptSeq(held) + s.outputEvents
  }

  predicate IsClose(e: Event) {
    e.WebsocketData? && e.frame.header.opcode == CLOSE
  }

  predicate HasClose(q: seq<Event>) {
    exists e :: e in q && IsClose(e)
  }

  /** The events ahead of the first CLOSE frame. */
  function BeforeClose(q: seq<Event>): (r: seq<Event>)
    ensures r <= q
  {
    if q == [] || IsClose(q[0]) then [] else [q[0]] + BeforeClose(q[1..])
  }

  lemma {:induction false} BeforeCloseConcat(a: seq<Event>, b: seq<Event>)
    ensures BeforeClose(a + b) == if HasClose(a) then BeforeClose(a) else a + BeforeClose(b)
    ensures !HasClose(a) ==> BeforeClose(a) == a
  {
    if a == [] {
      assert a + b == b;
    } else {
      assert (a + b)[0] == a[0] && (a + b)[1..] == a[1..] + b;
      assert a[0] in a;
      if !IsClose(a[0]) {
        BeforeCloseConcat(a[1..], b);
        assert HasClose(a) <==> HasClose(a[1..]) by {
          assert a == [a[0]] + a[1..];
        }
      }
    }
  }

  /** The data frames among a list of events. */
  function DataOf(q: seq<Event>): seq<Frame> {
    if q == [] then []
    else (if q[0].WebsocketData? && q[0].frame.DataFrame? then [q[0].frame] else []) + DataOf(q[1..])
  }

  lemma {:induction false} DataOfConcat(a: seq<Event>, b: seq<Event>)
    ensures DataOf(a + b) == DataOf(a) + DataOf(b)
  {
    if a == [] {
      assert a + b == b;
    } else {
      assert (a + b)[0] == a[0] && (a + b)[1..] == a[1..] + b;
      DataOfConcat(a[1..], b);
    }
  }

  lemma {:induction false} DataOfEvents(fs: seq<Frame>)
    requires forall f | f in fs :: OutData(f)
    ensures DataOf(Events(fs)) == fs
    ensures !HasClose(Events(fs))
  {
    forall e | e in Events(fs) ensures !IsClose(e) {
      var i :| 0 <= i < |fs| && Events(fs)[i] == e;
      assert fs[i] in fs;
    }
    if fs != [] {
      DataOfEvents(fs[1..]);
      assert Events(fs)[1..] == Events(fs[1..]);
      assert Events(fs)[0].frame in fs;
    }
  }

  predicate Dataless(e: Event) {
    e.HttpRequest? || (e.WebsocketData? && e.frame.ControlFrame?)
  }

  /** Queueing data frames behind q. */
  lemma AppendData(q: seq<Event>, fs: seq<Frame>)
    requires forall f | f in fs :: OutData(f)
    ensures DataOf(q + Events(fs)) == DataOf(q) + fs
    ensures HasClose(q + Events(fs)) <==> HasClose(q)
    ensures HasClose(q) ==> BeforeClose(q + Events(fs)) == BeforeClose(q)
  {
    DataOfEvents(fs);
    DataOfConcat(q, Events(fs));
    BeforeCloseConcat(q, Events(fs));
    if HasClose(q) {
      var e :| e in q && IsClose(e);
      assert e in q + Events(fs);
    }
  }

  /** A PONG slipped in between what is held and the queue. */
  lemma InsertControl(h: seq<Event>, e: Event, rest: seq<Event>)
    requires Dataless(e) && !IsClose(e)
    ensures DataOf(h + ([e] + rest)) == DataOf(h + rest)
    ensures HasClose(h + ([e] + rest)) <==> HasClose(h + rest)
    ensures DataOf(BeforeClose(h + ([e] + rest))) == DataOf(BeforeClose(h + rest))
  {
    SkipDataless(h, e, rest);
    InsertHasClose(h, e, rest);
    InsertBeforeClose(h, e, rest);
  }

  lemma SkipDataless(h: seq<Event>, e: Event, rest: seq<Event>)
    requires Dataless(e)
    ensures DataOf(h + ([e] + rest)) == DataOf(h + rest)
  {
    DataOfConcat(h, [e] + rest);
    DataOfConcat([e], rest);
    DataOfConcat(h, rest);
  }

  lemma InsertHasClose(h: seq<Event>, e: Event, rest: seq<Event>)
    requires !IsClose(e)
    ensures HasClose(h + ([e] + rest)) <==> HasClose(h + rest)
  {
    assert forall x :: x in h + ([e] + rest) <==> x == e || x in h + rest;
  }

  lemma InsertBeforeClose(h: seq<Event>, e: Event, rest: seq<Event>)
    requires Dataless(e) && !IsClose(e)
    ensures DataOf(BeforeClose(h + ([e] + rest))) == DataOf(BeforeClose(h + rest))
  {
    BeforeCloseConcat(h, [e] + rest);
    BeforeCloseConcat(h, rest);
    assert ([e] + rest)[1..] == rest;
    SkipDataless(h, e, BeforeClose(rest));
  }

  /** A CLOSE replaces the queue behind what is held. */
  lemma ReplaceByClose(h: seq<Event>, rest: seq<Event>, e: Event)
    requires !HasClose(h + rest) && IsClose(e)
    ensures HasClose(h + [e]) && BeforeClose(h + [e]) == h && DataOf(h) <= DataOf(h + rest)
  {
    assert forall x :: x in h ==> x in h + rest;
    assert e in h + [e];
    BeforeCloseConcat(h, [e]);
    DataOfConcat(h, rest);
  }

  // ---- Conservation ----

  /** Every data frame ever queued is written or still pending, in order; after a CLOSE, a prefix. */
  predicate Conserved(s: State, held: Option<Event>) {
    var q := Pending(s, held);
    && !s.status.ClientWantsToClose?
    && (Rank(s.status) <= 3 ==> !HasClose(q) && DataOf(s.written) + DataOf(q) == s.enqueued)
    && (s.status.ServerWantsToClose? ==>
        HasClose(q) && DataOf(s.written) + DataOf(BeforeClose(q)) <= s.enqueued)
    && DataOf(s.written) <= s.enqueued
  }

  /** The request is the first event of all, and every other one is a frame. */
  predicate RequestFirst(all: seq<Event>) {
    all != [] && all[0].HttpRequest? && forall k | 0 < k < |all| :: all[k].WebsocketData?
  }

  predicate HandshakeFirst(s: State, held: Option<Event>) {
    && (Rank(s.status) <= 1 ==> s.written == [] && held.None? && forall e | e in s.outputEvents :: e.WebsocketData?)
    && (Connected(s.status) ==> RequestFirst(s.written + Pending(s, held)))
    && (s.status.Closed? ==> RequestFirst(s.written))
  }

  lemma QueuedConserved(s: State, held: Option<Event>, fs: seq<Frame>)
    requires Conserved(s, held) && forall f | f in fs :: OutData(f)
    requires s.status.Closed? ==> fs == []
    ensures Conserved(s.(outputEvents := s.outputEvents + Events(fs), enqueued := s.enqueued + fs), held)
  {
    var t := s.(outputEvents := s.outputEvents + Events(fs), enqueued := s.enqueued + fs);
    assert Pending(t, held) == Pending(s, held) + Events(fs);
    AppendData(Pending(s, held), fs);
    var w, q := DataOf(s.written), Pending(s, held);
    PrefixExtend(w, s.enqueued, fs);
    if s.status.ServerWantsToClose? {
      PrefixExtend(w + DataOf(BeforeClose(q)), s.enqueued, fs);
    } else {
      Regroup(w, DataOf(q), fs);
    }
  }

  lemma PrefixExtend(a: seq<Frame>, b: seq<Frame>, c: seq<Frame>)
    requires a <= b
    ensures a <= b + c
  {
  }

  lemma QueuedFirst(s: State, held: Option<Event>, fs: seq<Frame>)
    requires HandshakeFirst(s, held)
    ensures HandshakeFirst(s.(outputEvents := s.outputEvents + Events(fs)), held)
  {
    var t := s.(outputEvents := s.outputEvents + Events(fs));
    assert s.written + Pending(t, held) == s.written + Pending(s, held) + Events(fs);
  }

  lemma SendAllConserved(s: State, held: Option<Event>, calls: seq<SendCall>)
    requires Conserved(s, held) && HandshakeFirst(s, held)
    ensures Conserved(SendAll(s, calls).s, held) && HandshakeFirst(SendAll(s, calls).s, held)
  {
    var fs, ps := SendAllEffect(s, calls);
    QueuedConserved(s, held, fs);
    QueuedFirst(s, held, fs);
  }

  /** A PONG goes to the front of the queue, which is behind the event that is held. */
  lemma PongConserved(s: State, held: Option<Event>, f: Frame)
    requires Conserved(s, held) && Framing(s.status) && f.ControlFrame? && f.header.opcode == PONG
    ensures Conserved(s.(outputEvents := [WebsocketData(f)] + s.outputEvents), held)
  {
    InsertControl(OptSeq(held), WebsocketData(f), s.outputEvents);
  }

  lemma FirstSplit(front: seq<Event>, rest: seq<Event>, e: Event)
    requires RequestFirst(front + rest) && front != [] && e.WebsocketData?
    ensures RequestFirst(front) && RequestFirst(front + [e] + rest) && RequestFirst(front + [e])
  {
    var all := front + rest;
    assert forall k | 0 <= k < |front| :: front[k] == all[k];
    var more := front + [e] + rest;
    forall k | 0 < k < |more| ensures more[k].WebsocketData? {
      assert more[k] == if k < |front| then all[k] else if k == |front| then e else all[k - 1];
    }
  }

  lemma PongFirst(s: State, held: Option<Event>, f: Frame)
    requires HandshakeFirst(s, held) && Framing(s.status)
    requires held.None? ==> s.outputEvents == []
    ensures HandshakeFirst(s.(outputEvents := [WebsocketData(f)] + s.outputEvents), held)
  {
    var t := s.(outputEvents := [WebsocketData(f)] + s.outputEvents);
    var front := s.written + OptSeq(held);
    assert s.written + Pending(s, held) == front + s.outputEvents;
    assert s.written + Pending(t, held) == front + [WebsocketData(f)] + s.outputEvents;
    FirstSplit(front, s.outputEvents, WebsocketData(f));
  }

  /** The close reply replaces the queue, not the event that is held. */
  lemma ReplyConserved(s: State, held: Option<Event>, f: Frame)
    requires Conserved(s, held) && s.status.Open? && f.ControlFrame? && f.header.opcode == CLOSE
    ensures Conserved(s.(outputEvents := [WebsocketData(f)], inputEvents := [], status := ServerWantsToClose), held)
  {
    ReplaceByClose(OptSeq(held), s.outputEvents, WebsocketData(f));
  }

  lemma ReplyFirst(s: State, held: Option<Event>, f: Frame)
    requires HandshakeFirst(s, held) && s.status.Open?
    requires held.None? ==> s.outputEvents == []
    ensures var t := s.(outputEvents := [WebsocketData(f)], inputEvents := [], status := ServerWantsToClose);
            HandshakeFirst(t, held)
  {
    var front := s.written + OptSeq(held);
    assert s.written + Pending(s, held) == front + s.outputEvents;
    assert s.written + (OptSeq(held) + [WebsocketData(f)]) == front + [WebsocketData(f)];
    FirstSplit(front, s.outputEvents, WebsocketData(f));
  }

  // ---- One iteration ----

  predicate Orderly(s: State, held: Option<Event>) {
    Healthy(s) && Conserved(s, held) && HandshakeFirst(s, held) && (held.Some? ==> OutEvent(held.value))
  }

  lemma PopOrderly(s: State)
    requires Orderly(s, None) && Connected(s.status)
    ensures var out := PopOutput(s);
            && Orderly(out.s, out.event)
            && (Framing(s.status) && out.event.None? ==> out.s.outputEvents == [])
            && (out.event.Some? ==> out.event.value in s.outputEvents)
  {
    var out := PopOutput(s);
    PopSound(s);
    if out.event.Some? {
      assert s.outputEvents == [out.event.value] + out.s.outputEvents;
      assert Pending(s, None) == Pending(out.s, out.event);
    } else {
      assert out.s == s;
    }
  }

  lemma FireOrderly(s: State, held: Option<Event>, e: WSEvent, calls: seq<SendCall>)
    requires Conserved(s, held) && HandshakeFirst(s, held)
    ensures Conserved(Fire(s, e, calls).s, held) && HandshakeFirst(Fire(s, e, calls).s, held)
  {
    SendAllConserved(s.(callbacks := s.callbacks + [e]), held, calls);
  }

  lemma DataOrderly(s: State, held: Option<Event>, f: Frame, i: StepInput)
    requires Conserved(s, held) && HandshakeFirst(s, held)
    ensures Conserved(HandleData(s, f, i).s, held) && HandshakeFirst(HandleData(s, f, i).s, held)
  {
    var t := if f.header.flag != FIN then s.(recvData := s.recvData + f.data) else s;
    assert Conserved(t, held) && HandshakeFirst(t, held);
    FireOrderly(t, held, OnText(f.data), i.inputSends);
    var u := Fire(t, OnText(t.recvData + f.data), i.inputSends).s;
    FireOrderly(t, held, OnText(t.recvData + f.data), i.inputSends);
    assert Conserved(u.(recvData := []), held) && HandshakeFirst(u.(recvData := []), held);
  }

  lemma FrameOrderly(s: State, held: Option<Event>, f: Frame, i: StepInput)
    requires Orderly(s, held) && Framing(s.status) && Incoming(f)
    requires held.None? ==> s.outputEvents == []
    requires HandleFrame(s, f, i).outcome.Ok?
    ensures Orderly(HandleFrame(s, f, i).s, held)
  {
    var t := s.(dispatched := s.dispatched + [f]);
    FrameSound(s, f, i);
    if f.Kind().Data? {
      DataOrderly(t, held, f, i);
    } else {
      PongIsOut(f, i.mask);
      PongConserved(t, held, PongFor(f, i.mask));
      PongFirst(t, held, PongFor(f, i.mask));
      CloseIsOut(f, i.mask);
      if s.status.Open? {
        ReplyConserved(t, held, CloseReply(f, i.mask));
        ReplyFirst(t, held, CloseReply(f, i.mask));
      }
    }
  }

  lemma ResponseOrderly(s: State, held: Option<Event>, r: Http.Response, i: StepInput)
    requires Orderly(s, held) && s.status.Handshake?
    ensures Orderly(HandleResponse(s, r, i).s, held)
  {
    ResponseSound(s, r, i);
    var t := s.(protocol := r.Header(Literal("Sec-WebSocket-Protocol")), status := Open);
    assert Pending(t, held) == Pending(s, held);
    assert Conserved(t, held) && HandshakeFirst(t, held);
    FireOrderly(t, held, OnConnect(r.body), i.inputSends);
    assert HandleResponse(s, r, i).s in {s, t, Fire(t, OnConnect(r.body), i.inputSends).s};
  }

  lemma BlockedOrderly(s: State, e: Event)
    requires Orderly(s, Some(e))
    ensures Orderly(s.(outputEvents := [e] + s.outputEvents), None)
  {
    var t := s.(outputEvents := [e] + s.outputEvents);
    assert Pending(t, None) == Pending(s, Some(e));
  }

  lemma SentData(w: seq<Event>, e: Event, q: seq<Event>)
    ensures DataOf(w + [e]) + DataOf(q) == DataOf(w) + DataOf([e] + q)
    ensures HasClose([e] + q) <==> IsClose(e) || HasClose(q)
    ensures !IsClose(e) ==> DataOf(w + [e]) + DataOf(BeforeClose(q)) == DataOf(w) + DataOf(BeforeClose([e] + q))
  {
    DataOfConcat(w, [e]);
    DataOfConcat([e], q);
    DataOfConcat([e], BeforeClose(q));
    Regroup(DataOf(w), DataOf([e]), DataOf(q));
    Regroup(DataOf(w), DataOf([e]), DataOf(BeforeClose(q)));
    assert ([e] + q)[1..] == q && ([e] + q)[0] == e;
    assert forall x :: x in [e] + q <==> x == e || x in q;
  }

  lemma PrefixLeft(a: seq<Frame>, b: seq<Frame>, c: seq<Frame>)
    requires a + b <= c
    ensures a <= c
  {
  }

  lemma SentConserved(s: State, e: Event, i: StepInput)
    requires Conserved(s, Some(e)) && Connected(s.status) && (s.status.ServerWantsToClose? ==> !IsClose(e))
    ensures Conserved(Wrote(s, e, i), None)
  {
    SentData(s.written, e, s.outputEvents);
    var t := Wrote(s, e, i);
    assert Pending(s, Some(e)) == [e] + s.outputEvents && Pending(t, None) == s.outputEvents;
    if s.status.ServerWantsToClose? {
      PrefixLeft(DataOf(t.written), DataOf(BeforeClose(s.outputEvents)), s.enqueued);
    } else {
      PrefixLeft(DataOf(t.written), DataOf(s.outputEvents), s.enqueued);
    }
  }

  lemma SentFirst(s: State, e: Event, i: StepInput)
    requires HandshakeFirst(s, Some(e)) && Connected(s.status)
    ensures HandshakeFirst(Wrote(s, e, i), None)
    ensures RequestFirst(s.written + [e])
  {
    var front := s.written + [e];
    var all := s.written + Pending(s, Some(e));
    assert all == front + s.outputEvents;
    var t := Wrote(s, e, i);
    assert t.written + Pending(t, None) == all;
    forall k | 0 < k < |front| ensures front[k].WebsocketData? {
      assert front[k] == all[k];
    }
    assert front[0] == all[0];
  }

  /** The reply that ends the connection carries no data. */
  lemma EndOrderly(s: State, e: Event, i: StepInput)
    requires Orderly(s, Some(e)) && s.status.ServerWantsToClose? && e.WebsocketData? && e.frame.ControlFrame?
    requires EndByServer(Wrote(s, e, i), e.frame, i).outcome.Ok?
    ensures Orderly(EndByServer(Wrote(s, e, i), e.frame, i).s, None)
  {
    var t := Wrote(s, e, i);
    EndSound(t, e.frame, i);
    SentFirst(s, e, i);
    DataOfConcat(s.written, [e]);
    ClosedOrderly(t.(status := Closed, hasStream := false), e.frame, i);
  }

  /** Once closed, only what was written matters. */
  lemma ClosedOrderly(s: State, f: Frame, i: StepInput)
    requires s.status.Closed? && DataOf(s.written) <= s.enqueued && RequestFirst(s.written) && f.ControlFrame?
    ensures var c := OnClose(ServerClose(if f.statusCode.Some? then f.statusCode.value else 0));
            Conserved(Fire(s, c, i.outputSends).s, None) && HandshakeFirst(Fire(s, c, i.outputSends).s, None)
    ensures Conserved(s, None) && HandshakeFirst(s, None)
  {
    var c := OnClose(ServerClose(if f.statusCode.Some? then f.statusCode.value else 0));
    FireOrderly(s, None, c, i.outputSends);
  }

  lemma OutputOrderly(s: State, e: Event, i: StepInput)
    requires Orderly(s, Some(e)) && Connected(s.status)
    requires HandleOutput(s, e, i).outcome.Ok?
    ensures Orderly(HandleOutput(s, e, i).s, None)
  {
    OutputSound(s, e, i);
    if i.write.Blocked? {
      BlockedOrderly(s, e);
    } else if e.WebsocketData? && e.frame.Kind().Control? && s.status.ServerWantsToClose? {
      EndOrderly(s, e, i);
    } else {
      SentConserved(s, e, i);
      SentFirst(s, e, i);
    }
  }

  lemma InputOrderly(s: State, held: Option<Event>, e: Event, i: StepInput)
    requires Orderly(s, held) && Connected(s.status)
    requires e.HttpResponse? ==> s.status.Handshake?
    requires e.WebsocketData? ==> Framing(s.status) && Incoming(e.frame) && (held.None? ==> s.outputEvents == [])
    requires HandleInput(s, e, i).outcome.Ok?
    ensures Orderly(HandleInput(s, e, i).s, held) && Connected(HandleInput(s, e, i).s.status)
  {
    InputSound(s, e, i);
    match e
    case WebsocketData(f) => FrameOrderly(s, held, f, i); FrameStaysConnected(s, f, i);
    case HttpResponse(r) => ResponseOrderly(s, held, r, i); ResponseOpens(s, r, i);
    case _ =>
  }

  /** Only a client that is itself closing is closed by an incoming frame. */
  lemma FrameStaysConnected(s: State, f: Frame, i: StepInput)
    requires Framing(s.status) && !s.status.ClientWantsToClose?
    ensures Framing(HandleFrame(s, f, i).s.status) && !HandleFrame(s, f, i).s.status.ClientWantsToClose?
  {
    var t := s.(dispatched := s.dispatched + [f]);
    if f.Kind().Data? {
      var u := if f.header.flag != FIN then t.(recvData := t.recvData + f.data) else t;
      var fs, ps := SendAllEffect(u.(callbacks := u.callbacks + [OnText(f.data)]), i.inputSends);
      var gs, qs := SendAllEffect(u.(callbacks := u.callbacks + [OnText(u.recvData + f.data)]), i.inputSends);
    }
  }

  lemma ResponseOpens(s: State, r: Http.Response, i: StepInput)
    requires s.status.Handshake? && HandleResponse(s, r, i).outcome.Ok?
    ensures HandleResponse(s, r, i).s.status.Open?
  {
    var t := s.(protocol := r.Header(Literal("Sec-WebSocket-Protocol")), status := Open);
    var fs, ps := SendAllEffect(t.(callbacks := t.callbacks + [OnConnect(r.body)]), i.inputSends);
  }

  lemma TurnOrderly(s: State, i: StepInput)
    requires Orderly(s, None) && Connected(s.status) && Turn(s, i).outcome.Ok?
    ensures Orderly(Turn(s, i).s, None)
  {
    var r := ReadBytes(s, i);
    ReadKeepsQueues(s, i);
    ReadSound(s, i);
    assert Orderly(r.s, None);
    PopOrderly(r.s);
    var out := PopOutput(r.s);
    InputOrderly(out.s, out.event, r.event, i);
    if out.event.Some? {
      OutputOrderly(HandleInput(out.s, r.event, i).s, out.event.value, i);
    }
  }

  /** start_init puts the request in front of whatever was sent before. */
  lemma ConnectOrderly(s: State, i: StepInput)
    requires Orderly(s, None) && s.status.StartInit? && Connect(s, i).outcome.Ok?
    ensures Orderly(Connect(s, i).s, None)
  {
    var t := Connect(s, i).s;
    EventLoopSound(s, i);
    var e := t.outputEvents[0];
    assert t.outputEvents == [e] + s.outputEvents;
    SkipDataless([], e, s.outputEvents);
    InsertHasClose([], e, s.outputEvents);
    assert [] + ([e] + s.outputEvents) == Pending(t, None) && [] + s.outputEvents == Pending(s, None);
    assert t.written + Pending(t, None) == [e] + s.outputEvents;
  }

  lemma ActOrderly(s: State, a: Action)
    requires Orderly(s, None) && !a.Discard? && (a.Initialize? ==> s.status.NotInit?)
    requires Act(s, a).outcome.Ok?
    ensures Orderly(Act(s, a).s, None)
  {
    ActSound(s, a);
    match a
    case SendText(c) => SendAllConserved(s, None, [c]); SendOne(s, c);
    case Iterate(i) =>
      if Connected(s.status) {
        EventLoopIsTurn(s, i);
        TurnOrderly(s, i);
      } else if s.status.StartInit? {
        ConnectOrderly(s, i);
      }
    case _ =>
  }

  lemma {:induction false} RunOrderly(s: State, acts: seq<Action>)
    requires Orderly(s, None) && OkRun(s, acts)
    ensures Orderly(After(s, acts), None)
    decreases |acts|
  {
    if acts != [] {
      ActOrderly(s, acts[0]);
      RunOrderly(Act(s, acts[0]).s, acts[1..]);
    }
  }

  /**
   * Output conservation: until a server's CLOSE, the data frames written followed by those still
   * queued are exactly those ever queued; from then on the written ones are still a prefix.
   */
  lemma OutputConservation(acts: seq<Action>)
    requires OkRun(FRESH, acts)
    ensures var s := After(FRESH, acts);
            && (Rank(s.status) <= 3 ==> DataOf(s.written) + DataOf(s.outputEvents) == s.enqueued)
            && DataOf(s.written) <= s.enqueued
  {
    RunOrderly(FRESH, acts);
    var s := After(FRESH, acts);
    assert Pending(s, None) == s.outputEvents;
  }

  /** Handshake first: nothing is written before the request, and only frames after it. */
  lemma HandshakeGoesFirst(acts: seq<Action>)
    requires OkRun(FRESH, acts)
    ensures var w := After(FRESH, acts).written;
            w != [] ==> w[0].HttpRequest? && forall k | 0 < k < |w| :: w[k].WebsocketData?
  {
    RunOrderly(FRESH, acts);
    var s := After(FRESH, acts);
    var all := s.written + Pending(s, None);
    assert forall k | 0 <= k < |s.written| :: s.written[k] == all[k];
  }
}
