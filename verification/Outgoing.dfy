/** The shape of every frame that enters or leaves the client. */
module Outgoing {
  import opened Bytes
  import opened Wrappers
  import opened Frames
  import opened Session
  import opened Codec
  import Rfc = Rfc6455

  /** A fragment of a text message. */
  predicate OutData(f: Frame) {
    && f.DataFrame? && f.header.mask.Some? && LengthMatches(f)
    && (f.header.opcode == TEXT || f.header.opcode == CONTINUATION)
    && (f.header.flag == FIN || f.header.flag == NOFLAG)
    && 1 <= |f.data| < ISIZE_LIMIT
  }

  /** A reply; its payload was never cut by the constructor. */
  predicate OutControl(f: Frame) {
    && f.ControlFrame? && f.header.mask.Some? && LengthMatches(f)
    && (f.header.opcode == PONG || f.header.opcode == CLOSE)
    && (f.header.opcode == PONG <==> f.statusCode.None?)
    && f.header.flag == FIN
    && |f.data| <= 125
  }

  predicate OutEvent(e: Event) {
    e.HttpRequest? || (e.WebsocketData? && (OutData(e.frame) || OutControl(e.frame)))
  }

  /** What the parser guarantees about a frame. */
  predicate Incoming(f: Frame) {
    && (DataOpcode(f.header.opcode) ==> f.DataFrame?)
    && (!DataOpcode(f.header.opcode) ==>
        f.ControlFrame? && 2 <= |f.data| <= 125 && f.statusCode == BytesToU16(f.data[..2]))
  }

  lemma ParsedIncoming(b: seq<byte>)
    requires Parse(b).Complete?
    ensures Incoming(Parse(b).frame)
  {
    var f := Parse(b).frame;
    if f.ControlFrame? {
      var start := 2 + Rfc.ExtLen(b[1]);
      var n := Rfc.PayloadLen(b);
      var status := BytesToU16(b[start..start + 2]);
      ControlFrameShape(b[0] / 16 * 16, b[0] % 32, status, b[start + 2..n + 2], None);
      assert f.data[..2] == BeBytes(status.value, 2) == b[start..start + 2];
    }
  }

  /** The data frames of a list. */
  function DataFramesOf(fs: seq<Frame>): seq<Frame> {
    if fs == [] then [] else (if fs[0].Kind().Data? then [fs[0]] else []) + DataFramesOf(fs[1..])
  }

  lemma PongIsOut(f: Frame, mask: Mask)
    requires |f.data| <= 125
    ensures OutControl(PongFor(f, mask)) && PongFor(f, mask).data == f.data
    ensures PongFor(f, mask).header.opcode == PONG && PongFor(f, mask).statusCode.None?
  {
  }

  lemma CloseIsOut(f: Frame, mask: Mask)
    requires 2 <= |f.data| <= 125
    ensures var c := ReplyStatus(BytesToU16(f.data[..2]).value);
            && OutControl(CloseReply(f, mask)) && CloseReply(f, mask).header.opcode == CLOSE
            && CloseReply(f, mask).data == BeBytes(c, 2) + f.data[2..]
            && CloseReply(f, mask).statusCode == Some(c)
  {
  }

  lemma DoneIsOut(mask: Mask)
    ensures OutControl(NewControlFrame(FIN, CLOSE, Some(NORMAL_CLOSURE), DONE, Some(mask)))
  {
  }

  lemma {:induction false} FragmentsAreOut(payload: Slice, size: Positive, masks: nat -> Mask, sent: nat)
    ensures forall f | f in Fragments(payload, size, masks, sent) :: OutData(f)
    decreases |payload| - sent
  {
    if sent < |payload| && CutOk(payload, size, sent) {
      FragmentsAreOut(payload, size, masks, sent + size);
    }
  }

  lemma OutContents(f: Frame)
    requires OutData(f) || OutControl(f)
    ensures Rfc.ClientFrameOk(ToWire(f))
    ensures Rfc.IsControl(ToWire(f)) <==> f.Kind().Control?
    ensures f.Kind().Data? <==> OutData(f)
  {
  }

  /**
   * A frame the client queues satisfies every demand RFC 6455 makes of a client's frame, except that
   * its length encoding is the shortest if and only if the payload is not 125 bytes.
   */
  lemma OutFrameIsLegal(f: Frame)
    requires OutData(f) || OutControl(f)
    ensures var d := Rfc.Decode(FrameBytes(f));
            d.Some? && Rfc.ClientFrameOk(d.value.0) && d.value.1 == |FrameBytes(f)|
    ensures Rfc.MinimalLength(FrameBytes(f)) <==> |f.data| != 125
  {
    OutContents(f);
    OnWire(f, FrameBytes(f));
  }

  lemma OnWire(f: Frame, b: seq<byte>)
    requires LengthMatches(f) && b == FrameBytes(f)
    ensures Rfc.Decode(b) == Some((ToWire(f), |b|))
    ensures Rfc.MinimalLength(b) <==> |f.data| != 125
  {
    SerializedFrameDecodes(f, b);
    MinimalEncodingUnless125(f);
  }
}
