/** Single iterations of interest: the answers to PING and CLOSE, and frames with reserved opcodes. */
module Replies {
  import opened Bytes
  import opened Wrappers
  import opened Frames
  import opened Session
  import opened Outgoing
  import opened Codec
  import opened Runs
  import opened Streaming
  import opened CloseHandshake
  import Rfc = Rfc6455

  /**
   * Section 5.5.3 of RFC 6455: the wire bytes b are a PING with payload p. The frame parsed from
   * them is answered by one frame at the front of the queue, which a receiver reads as a PONG with
   * payload p.
   */
  lemma PingIsEchoed(s: State, i: StepInput, b: seq<byte>, w: Rfc.WireFrame)
    requires ServerWire(b, w) && w.opcode == PING && 2 <= |w.payload| && w.rsv % 2 == 0
    ensures Parse(b).Complete?
    ensures var h := HandleInput(s, WebsocketData(Parse(b).frame), i);
            && h.outcome.Ok?
            && |h.s.outputEvents| == |s.outputEvents| + 1 && h.s.outputEvents[1..] == s.outputEvents
            && h.s.outputEvents[0].WebsocketData?
            && IsOneFrame(FrameBytes(h.s.outputEvents[0].frame), i.mask, Rfc.PONG, w.payload)
  {
    var f := Parse(b).frame;
    ControlParsed(b, w);
    ParsedIncoming(b);
    PongIsOut(f, i.mask);
    var pong := PongFor(f, i.mask);
    SerializedFrameDecodes(pong, FrameBytes(pong));
    var h := HandleInput(s, WebsocketData(f), i);
    assert h.s.outputEvents == [WebsocketData(pong)] + s.outputEvents;
  }

  /**
   * Section 5.5.1 of RFC 6455: the wire bytes b are a CLOSE with payload p, and the client is open.
   * All that it still has to write becomes one frame, which a receiver reads as a CLOSE with the
   * answered status and the reason of p.
   */
  lemma CloseIsEchoed(s: State, i: StepInput, b: seq<byte>, w: Rfc.WireFrame)
    requires s.status.Open? && ServerWire(b, w) && w.opcode == CLOSE && 2 <= |w.payload| && w.rsv % 2 == 0
    ensures Parse(b).Complete?
    ensures var h := HandleInput(s, WebsocketData(Parse(b).frame), i);
            var status := BeValue(w.payload[..2]);
            && h.outcome.Ok? && h.s.status.ServerWantsToClose?
            && |h.s.outputEvents| == 1 && h.s.outputEvents[0].WebsocketData?
            && IsOneFrame(FrameBytes(h.s.outputEvents[0].frame), i.mask, Rfc.CLOSE,
                          BeBytes(AnsweredStatus(status), 2) + w.payload[2..])
  {
    var f := Parse(b).frame;
    ControlParsed(b, w);
    ParsedIncoming(b);
    CloseHandled(s, f, i);
    ReplyContents(f, i.mask);
  }

  /** Opcodes that section 5.2 of RFC 6455 reserves. */
  predicate Reserved(opcode: nat) {
    3 <= opcode <= 7 || 11 <= opcode <= 15
  }

  /** Nothing observable has happened. */
  predicate Silent(s: State, t: State) {
    t.callbacks == s.callbacks && t.written == s.written && t.status == s.status && t.enqueued == s.enqueued
  }

  /** The opcodes 4-7 and 12-15 are refused by the parser as soon as two bytes are there; the queue is kept. */
  lemma RefusedByParser(s: State, i: StepInput)
    requires Framing(s.status) && s.hasStream && (i.read.Received? || i.read.NothingYet?)
    requires |Stored(s, i).recvStorage| >= 2
    requires Reserved(Stored(s, i).recvStorage[0] % 16)
    requires Stored(s, i).recvStorage[0] % 16 != 3 && Stored(s, i).recvStorage[0] % 16 != 11
    ensures var r := Turn(s, i);
            r.outcome == Err(InvalidFrame) && Silent(s, r.s) && r.s.outputEvents == s.outputEvents
  {
    assert !KnownOpcode(Stored(s, i).recvStorage[0] % 32);
  }

  /** Where a reserved opcode gets past the parser: 3 and 11 without RSV3, on a payload long enough. */
  predicate PastParser(b: seq<byte>, w: Rfc.WireFrame)
    requires |b| >= 2
  {
    KnownOpcode(w.opcode) && w.rsv % 2 == 0 && |w.payload| >= 2 + Rfc.ExtLen(b[1])
  }

  /**
   * A complete frame with a reserved opcode, of any length, masked or not. It is never reported or
   * answered. The step ends in InvalidFrame, except that opcodes 3 and 11 make the parser panic if
   * the payload is shorter than what precedes it. If the frame gets past the parser it is refused by
   * the frame handler; by then the output event has left the queue, and it is lost.
   */
  lemma ReservedOpcodes(s: State, i: StepInput, w: Rfc.WireFrame, n: nat)
    requires Framing(s.status) && s.hasStream && (i.read.Received? || i.read.NothingYet?)
    requires Rfc.Decode(Stored(s, i).recvStorage) == Some((w, n)) && n < U64_LIMIT && Reserved(w.opcode)
    ensures var r, b := Turn(s, i), Stored(s, i).recvStorage;
            && Silent(s, r.s)
            && (r.outcome == Panic(FrameSlice) <==>
                KnownOpcode(w.opcode) && w.rsv % 2 == 0 && |w.payload| < 2 + Rfc.ExtLen(b[1]))
            && (r.outcome != Panic(FrameSlice) ==> r.outcome == Err(InvalidFrame))
            && r.s.outputEvents ==
               if PastParser(b, w) && s.outputEvents != [] then s.outputEvents[1..] else s.outputEvents
  {
    var b := Stored(s, i).recvStorage;
    UndefinedFrame(b, w, n);
    if PastParser(b, w) {
      ReadsUndefined(s, i);
      RefusedTurn(s, i);
    }
  }

  lemma UndefinedFrame(b: seq<byte>, w: Rfc.WireFrame, n: nat)
    requires Rfc.Decode(b) == Some((w, n)) && n < U64_LIMIT && Reserved(w.opcode)
    ensures if PastParser(b, w) then Parse(b).Complete? && Parse(b).frame.Kind().NotDefine?
            else if KnownOpcode(w.opcode) && w.rsv % 2 == 0 then Parse(b) == Panics
            else Parse(b) == Invalid
  {
    LowBits(b[0]);
    assert w.opcode == b[0] % 16 && w.rsv == b[0] / 16 % 8;
    if KnownOpcode(b[0] % 32) {
      assert Parse(b) == ParseBody(b, 2 + Rfc.ExtLen(b[1]), |w.payload|, b[0] / 16 * 16, w.opcode);
    }
  }

  lemma ReadsUndefined(s: State, i: StepInput)
    requires Framing(s.status) && s.hasStream && (i.read.Received? || i.read.NothingYet?)
    requires Stored(s, i).recvStorage != [] && Parse(Stored(s, i).recvStorage).Complete?
    requires Parse(Stored(s, i).recvStorage).frame.Kind().NotDefine?
    ensures var r := ReadBytes(s, i);
            r.outcome.Ok? && r.event.WebsocketData? && r.event.frame.Kind().NotDefine?
  {
  }

  lemma RefusedTurn(s: State, i: StepInput)
    requires Framing(s.status) && ReadBytes(s, i).outcome.Ok?
    requires ReadBytes(s, i).event.WebsocketData? && ReadBytes(s, i).event.frame.Kind().NotDefine?
    ensures var r := Turn(s, i);
            && r.outcome == Err(InvalidFrame) && Silent(s, r.s)
            && r.s.outputEvents == if s.outputEvents == [] then [] else s.outputEvents[1..]
  {
    ReadKeepsQueues(s, i);
  }
}
