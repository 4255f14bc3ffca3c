/**
 * The receiving side of the wire format, written from RFC 6455 alone: the base framing
 * protocol (section 5.2), masking (section 5.3) and fragmentation (section 5.4). Nothing here
 * comes from the client's code; the client's serializer, parser and queues are proved against it.
 */
module Rfc6455 {
  import opened Bits
  import opened Bytes
  import opened Wrappers

  type MaskKey = m: seq<byte> | |m| == 4 witness [0, 0, 0, 0]

  const CONTINUATION: byte := 0x0
  const TEXT: byte := 0x1
  const BINARY: byte := 0x2
  const CLOSE: byte := 0x8
  const PING: byte := 0x9
  const PONG: byte := 0xA

  datatype WireFrame = WireFrame(fin: bool, rsv: byte, opcode: byte, maskKey: Option<MaskKey>, payload: seq<byte>)

  function XorByte(a: byte, b: byte): byte {
    Powers(); XorBound(8, a, b);
    Xor(a, b)
  }

  /** Section 5.3: octet i of the result is octet i of the input XOR octet (i mod 4) of the key. */
  function ApplyMask(key: MaskKey, data: seq<byte>): (r: seq<byte>)
    ensures |r| == |data|
  {
    seq(|data|, i requires 0 <= i < |data| => XorByte(data[i], key[i % 4]))
  }

  lemma MaskInvolution(key: MaskKey, data: seq<byte>)
    ensures ApplyMask(key, ApplyMask(key, data)) == data
  {
    var once := ApplyMask(key, data);
    forall i | 0 <= i < |data| ensures ApplyMask(key, once)[i] == data[i] {
      XorInvolution(data[i], key[i % 4]);
    }
  }

  /** Octets of extended payload length that follow the 7-bit length field. */
  function ExtLen(b1: byte): nat {
    if b1 % 128 == 126 then 2 else if b1 % 128 == 127 then 8 else 0
  }

  function KeyLen(b1: byte): nat {
    if b1 >= 128 then 4 else 0
  }

  /** The payload length; it is known once the length field is complete. */
  function PayloadLen(b: seq<byte>): (n: nat)
    requires |b| >= 2 && |b| >= 2 + ExtLen(b[1])
    ensures n < U64_LIMIT
  {
    var ext := ExtLen(b[1]);
    if ext == 0 then b[1] % 128
    else
      BeValueBound(b[2..2 + ext]); Widths();
      BeValue(b[2..2 + ext])
  }

  /** Section 5.2: the frame at the head of b and its total length; None while it is incomplete. */
  function Decode(b: seq<byte>): (r: Option<(WireFrame, nat)>)
    ensures r.Some? ==>
              && 2 <= |b| && 2 + ExtLen(b[1]) <= r.value.1 <= |b|
              && |r.value.0.payload| == PayloadLen(b) == r.value.1 - 2 - ExtLen(b[1]) - KeyLen(b[1])
  {
    if |b| < 2 || |b| < 2 + ExtLen(b[1]) then None
    else
      var start := 2 + ExtLen(b[1]) + KeyLen(b[1]);
      var end := start + PayloadLen(b);
      if |b| < end then None else Some((FrameAt(b, start, end), end))
  }

  /** The frame whose payload is b[start..end]. */
  function FrameAt(b: seq<byte>, start: nat, end: nat): WireFrame
    requires |b| >= 2 && 2 + KeyLen(b[1]) <= start <= end <= |b|
  {
    var key := if KeyLen(b[1]) == 4 then Some(b[start - 4..start]) else None;
    var payload := if key.Some? then ApplyMask(key.value, b[start..end]) else b[start..end];
    WireFrame(b[0] >= 128, b[0] / 16 % 8, b[0] % 16, key, payload)
  }

  /** A decoded frame does not depend on the bytes that follow it. */
  lemma DecodeExtend(b: seq<byte>, rest: seq<byte>)
    requires Decode(b).Some?
    ensures Decode(b + rest) == Decode(b)
  {
    var start := 2 + ExtLen(b[1]) + KeyLen(b[1]);
    PayloadLenExtend(b, rest);
    FrameAtExtend(b, rest, start, start + PayloadLen(b));
  }

  lemma PayloadLenExtend(b: seq<byte>, rest: seq<byte>)
    requires |b| >= 2 && |b| >= 2 + ExtLen(b[1])
    ensures (b + rest)[1] == b[1] && PayloadLen(b + rest) == PayloadLen(b)
  {
    assert (b + rest)[1] == b[1];
    SliceExtend(b, rest, 2, 2 + ExtLen(b[1]));
  }

  lemma FrameAtExtend(b: seq<byte>, rest: seq<byte>, start: nat, end: nat)
    requires |b| >= 2 && 2 + KeyLen(b[1]) <= start <= end <= |b|
    ensures FrameAt(b + rest, start, end) == FrameAt(b, start, end)
  {
    assert (b + rest)[0] == b[0] && (b + rest)[1] == b[1];
    SliceExtend(b, rest, start, end);
    if KeyLen(b[1]) == 4 {
      SliceExtend(b, rest, start - 4, start);
    }
  }

  lemma SliceExtend(b: seq<byte>, rest: seq<byte>, i: nat, j: nat)
    requires i <= j <= |b|
    ensures (b + rest)[i..j] == b[i..j]
  {
  }

  /** Section 5.2: the payload length must use the shortest of the three encodings. */
  predicate MinimalLength(b: seq<byte>)
    requires |b| >= 2 && |b| >= 2 + ExtLen(b[1])
  {
    var n := PayloadLen(b);
    ExtLen(b[1]) == if n <= 125 then 0 else if n < U16_LIMIT then 2 else 8
  }

  /** A whole byte stream read as consecutive frames; None if the last frame is cut short. */
  function DecodeAll(b: seq<byte>): Option<seq<WireFrame>> {
    if b == [] then Some([])
    else
      match Decode(b)
      case None => None
      case Some((w, n)) =>
        match DecodeAll(b[n..])
        case None => None
        case Some(ws) => Some([w] + ws)
  }

  /** Every frame of the stream has the shortest length encoding. */
  predicate AllMinimal(b: seq<byte>) {
    b == [] || (Decode(b).Some? && MinimalLength(b) && AllMinimal(b[Decode(b).value.1..]))
  }

  predicate IsControl(w: WireFrame) {
    w.opcode >= 8
  }

  /**
   * What section 5 demands of the contents of every frame that a client sends without an extension.
   * What it demands of the length encoding is MinimalLength.
   */
  predicate ClientFrameOk(w: WireFrame) {
    && w.maskKey.Some?
    && w.rsv == 0
    && w.opcode in {CONTINUATION, TEXT, BINARY, CLOSE, PING, PONG}
    && (IsControl(w) ==> w.fin && |w.payload| <= 125)
  }

  /** The receiver: the messages finished so far and the unfinished one, if any. */
  datatype Received = Received(messages: seq<seq<byte>>, partial: Option<seq<byte>>)

  /** Section 5.4: fragments of a message arrive in order, control frames may come in between. */
  function Deliver(r: Received, w: WireFrame): Option<Received> {
    if !ClientFrameOk(w) then None
    else if IsControl(w) then Some(r)
    else if (w.opcode == CONTINUATION) != r.partial.Some? then None
    else
      var data := if r.partial.Some? then r.partial.value + w.payload else w.payload;
      Some(if w.fin then Received(r.messages + [data], None) else Received(r.messages, Some(data)))
  }

  function DeliverAll(r: Received, ws: seq<WireFrame>): Option<Received>
    decreases |ws|
  {
    if ws == [] then Some(r)
    else
      match Deliver(r, ws[0])
      case None => None
      case Some(r') => DeliverAll(r', ws[1..])
  }

  const NOTHING: Received := Received([], None)

  /**
   * Everything a server makes of the bytes a client wrote; None means a violation of the framing, other
   * than a length that could have been encoded in fewer bytes, which a receiver can read all the same.
   */
  function ServerReceives(b: seq<byte>): Option<Received> {
    match DecodeAll(b)
    case None => None
    case Some(ws) => DeliverAll(NOTHING, ws)
  }

  lemma {:induction false} DeliverAllConcat(r: Received, a: seq<WireFrame>, b: seq<WireFrame>)
    ensures DeliverAll(r, a + b) ==
            match DeliverAll(r, a) case None => None case Some(m) => DeliverAll(m, b)
    decreases |a|
  {
    if a == [] {
      assert a + b == b;
    } else {
      assert (a + b)[0] == a[0] && (a + b)[1..] == a[1..] + b;
      if Deliver(r, a[0]).Some? {
        DeliverAllConcat(Deliver(r, a[0]).value, a[1..], b);
      }
    }
  }
}
