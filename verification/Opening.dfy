/** The opening handshake: which response opens the connection, and what is reported of it. */
module Opening {
  import opened Wrappers
  import opened Text
  import opened Session
  import opened Runs
  import opened Lifecycle
  import opened Streaming
  import opened Http
  import opened HttpRoundTrip
  import opened Output
  import opened Settings
  import opened Strings
  import Utf8

  /** A printed ASCII response with any one-line status line. */
  ghost predicate WellFormed(line: text, order: seq<text>, headers: Headers, body: text) {
    && OneLine(line) && GoodHeaders(headers) && IterationOrder(order, headers)
    && Utf8.Ascii(Printed(line, order, headers, body))
  }

  /** Status 101, and a Sec-WebSocket-Accept header, in any case, that fits the key sent. */
  ghost predicate Accepts(key: text, i: StepInput, code: nat, headers: Headers) {
    && code == 101
    && exists k :: k in headers && SameName(Literal("Sec-WebSocket-Accept"), k) && i.verify(key, headers[k])
  }

  /** The protocol that the headers name, if they name one. */
  ghost predicate ProtocolOf(protocol: Option<text>, headers: Headers) {
    var name := Literal("Sec-WebSocket-Protocol");
    && (forall k | k in headers && SameName(name, k) :: protocol == Some(headers[k]))
    && ((forall k | k in headers :: !SameName(name, k)) ==> protocol == None)
  }

  /** The same of a response that was parsed. */
  predicate Accepted(s: State, r: Response, i: StepInput) {
    var accept := r.Header(Literal("Sec-WebSocket-Accept"));
    accept.Some? && i.verify(s.key, accept.value) && r.statusCode == SWITCHING_PROTOCOLS
  }

  lemma AcceptHeader(s: State, i: StepInput, code: nat, headers: Headers, r: Response)
    requires GoodHeaders(headers) && SameHeaders(r, headers) && r.statusCode == code
    ensures Accepts(s.key, i, code, headers) <==> Accepted(s, r, i)
  {
    var name := Literal("Sec-WebSocket-Accept");
    if exists k :: k in headers && SameName(name, k) {
      var k :| k in headers && SameName(name, k);
      assert r.Header(name) == Some(headers[k]);
      forall j | j in headers && SameName(name, j) ensures j == k {
        LowerIff(name, j);
        LowerIff(name, k);
        LowerIff(j, k);
      }
    } else {
      assert r.Header(name) == None;
    }
  }

  /** What the parser of responses makes of the whole storage. */
  lemma ResponseParsed(line: text, order: seq<text>, headers: Headers, body: text)
    requires WellFormed(line, order, headers, body)
    ensures var p := ParseResponse(Printed(line, order, headers, body));
            && (p.Panics? <==> CutShort(line))
            && (p.ParseError? <==> |Words(line)| >= 2 && Code(line).None?)
            && (p.Parsed? ==>
                && Code(line) == Some(p.response.statusCode) && p.response.body == NonEmptyText(body)
                && SameHeaders(p.response, headers))
  {
    Utf8.LossyAscii(Printed(line, order, headers, body));
    StatusLineDecides(line, headers, order, body);
    if |Words(line)| >= 3 && Code(line).Some? {
      HeaderRoundTrip(line, Code(line).value, headers, order, body);
    }
  }

  /** A response is taken off the storage as a whole. */
  lemma ResponseIsRead(s: State, i: StepInput, line: text, order: seq<text>, headers: Headers, body: text)
    requires s.status.Handshake? && s.hasStream && (i.read.Received? || i.read.NothingYet?)
    requires WellFormed(line, order, headers, body)
    requires Stored(s, i).recvStorage == Printed(line, order, headers, body)
    ensures var r := ReadBytes(s, i);
            if CutShort(line) then r.outcome == Panic(StatusLine)
            else if Code(line).None? then r == ReadOut(Stored(s, i), Ok, NoData)
            else
              && r.outcome.Ok? && r.event.HttpResponse? && r.s.recvStorage == []
              && Code(line) == Some(r.event.response.statusCode) && r.event.response.body == NonEmptyText(body)
              && SameHeaders(r.event.response, headers)
  {
    ResponseParsed(line, order, headers, body);
    assert |Printed(line, order, headers, body)| > 0;
  }

  /** What is to happen on a response with this status line to a request with this key. */
  ghost predicate Answered(s: State, key: text, i: StepInput, line: text, headers: Headers, body: text, r: Result) {
    if CutShort(line) then r.outcome == Panic(StatusLine)
    else if Code(line).None? then
      r.s.status.Handshake? && r.s.callbacks == s.callbacks && r.s.recvStorage == Stored(s, i).recvStorage
    else if Accepts(key, i, Code(line).value, headers) then
      && r.s.status.Open? && ProtocolOf(r.s.protocol, headers)
      && r.s.callbacks == s.callbacks + if s.hasCallback then [OnConnect(NonEmptyText(body))] else []
    else
      r.outcome == Err(HandShake) && r.s.status.Handshake? && r.s.callbacks == s.callbacks
  }

  /**
   * A response of the server is complete in the storage. If its status line is cut short, the client
   * panics; if its code is not a number, the client waits for ever, for the response stays in the
   * storage. Otherwise the response opens the connection if and only if it has status 101 and accepts
   * the key: then ON_CONNECT is reported once, with the body, and if not the iteration fails with
   * HandShake and the client stays in the handshake, with nothing reported.
   */
  lemma OpeningTheorem(s: State, i: StepInput, line: text, order: seq<text>, headers: Headers, body: text)
    requires Healthy(s) && s.status.Handshake? && (i.read.Received? || i.read.NothingYet?)
    requires WellFormed(line, order, headers, body)
    requires Stored(s, i).recvStorage == Printed(line, order, headers, body)
    ensures Answered(s, s.key, i, line, headers, body, Turn(s, i))
  {
    ResponseIsRead(s, i, line, order, headers, body);
    ReadKeepsQueues(s, i);
    var r := ReadBytes(s, i);
    if r.outcome.Ok? {
      var out := PopOutput(r.s);
      assert out.s.status == s.status && out.s.key == s.key && out.s.callbacks == s.callbacks;
      if r.event.HttpResponse? {
        AcceptHeader(s, i, Code(line).value, headers, r.event.response);
        ResponseAnswered(out.s, r.event.response, i);
      }
      RequestOnly(HandleInput(out.s, r.event, i), out.event, i);
    }
  }

  function ProtocolIn(r: Response): Option<text> {
    r.Header(Literal("Sec-WebSocket-Protocol"))
  }

  lemma ResponseAnswered(s: State, r: Response, i: StepInput)
    requires s.status.Handshake?
    ensures var h := HandleResponse(s, r, i);
            if Accepted(s, r, i) then
              && h.s.status.Open? && h.s.protocol == ProtocolIn(r)
              && h.s.callbacks == s.callbacks + if s.hasCallback then [OnConnect(r.body)] else []
            else
              h == Result(s, Err(HandShake))
  {
    var t := s.(protocol := r.Header(Literal("Sec-WebSocket-Protocol")), status := Open);
    var fs, ps := SendAllEffect(t.(callbacks := t.callbacks + [OnConnect(r.body)]), i.inputSends);
    assert s.callbacks + [] == s.callbacks;
  }

  /** An event held during the handshake is not a frame, so writing it changes only the queue and the trace. */
  lemma RequestOnly(h: Result, held: Option<Event>, i: StepInput)
    requires held.None? || !held.value.WebsocketData?
    ensures var r := TurnOutput(h, held, i);
            && r.s.status == h.s.status && r.s.callbacks == h.s.callbacks && r.s.recvStorage == h.s.recvStorage
            && r.s.protocol == h.s.protocol
            && (!h.outcome.Ok? ==> r == h)
  {
  }

  // ---- On whole runs ----

  /** The key that a request carries. */
  function KeyIn(r: Request): Option<text> {
    var name := Literal("Sec-WebSocket-Key");
    if name in r.headers then Some(r.headers[name]) else None
  }

  /** On every successful run, the response is judged against the key in the request that was written. */
  lemma OpeningOnRun(acts: seq<Action>, j: StepInput, line: text, order: seq<text>, headers: Headers, body: text)
    requires OkRun(FRESH, acts) && After(FRESH, acts).status.Handshake? && After(FRESH, acts).written != []
    requires (j.read.Received? || j.read.NothingYet?) && WellFormed(line, order, headers, body)
    requires Stored(After(FRESH, acts), j).recvStorage == Printed(line, order, headers, body)
    ensures var s := After(FRESH, acts);
            && s.written[0].HttpRequest? && KeyIn(s.written[0].request).Some?
            && Answered(s, KeyIn(s.written[0].request).value, j, line, headers, body, EventLoop(s, j))
  {
    WrittenRequest(acts);
    RunOrderly(FRESH, acts);
    var s := After(FRESH, acts);
    EventLoopIsTurn(s, j);
    OpeningTheorem(s, j, line, order, headers, body);
  }

  /**
   * The same on every run of a client initialised at most once, failures included: the response is
   * judged against the key generated by the iteration that entered the handshake.
   */
  lemma OpeningForKey(acts: seq<Action>, i: StepInput, more: seq<Action>, j: StepInput,
                      line: text, order: seq<text>, headers: Headers, body: text)
    requires SingleInit(FRESH, acts) && After(FRESH, acts).status.StartInit?
    requires EventLoop(After(FRESH, acts), i).s.status.Handshake?
    requires SingleInit(EventLoop(After(FRESH, acts), i).s, more)
    requires After(EventLoop(After(FRESH, acts), i).s, more).status.Handshake?
    requires (j.read.Received? || j.read.NothingYet?) && WellFormed(line, order, headers, body)
    requires Stored(After(EventLoop(After(FRESH, acts), i).s, more), j).recvStorage ==
             Printed(line, order, headers, body)
    ensures var u := After(EventLoop(After(FRESH, acts), i).s, more);
            Answered(u, i.key, j, line, headers, body, EventLoop(u, j))
  {
    RunSound(FRESH, acts);
    KeyTheorem(acts, i, more);
    var t := EventLoop(After(FRESH, acts), i).s;
    EventLoopSound(After(FRESH, acts), i);
    RunSound(t, more);
    EventLoopIsTurn(After(t, more), j);
    OpeningTheorem(After(t, more), j, line, order, headers, body);
  }
}
