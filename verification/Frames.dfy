/**
 * Frames and headers: websocket/src/ws_basic/header.rs, frame.rs and status_code.rs.
 * Bit sets are bytes restricted to the bits their `bitflags!` declaration names.
 */
module Frames {
  import opened Bits
  import opened Bytes
  import opened Wrappers
  import Rfc = Rfc6455

  type Mask = Rfc.MaskKey

  type u64 = n: nat | n < U64_LIMIT

  const FLAG_BITS: byte := 0xF0
  const OPCODE_BITS: byte := 0x0B

  type Flag = f: byte | f % 16 == 0
  type Opcode = o: byte | KnownOpcode(o)

  /** The bytes without a bit outside OPCODE_BITS: 3 and 11 pass although no opcode has that value. */
  predicate KnownOpcode(o: nat) {
    o < 4 || 8 <= o < 12
  }

  predicate DataOpcode(o: nat) {
    o == TEXT || o == BINARY || o == CONTINUATION
  }

  predicate ControlOpcode(o: nat) {
    o == CLOSE || o == PING || o == PONG
  }

  const FIN: Flag := 0x80
  const NOFLAG: Flag := 0x00

  const CONTINUATION: Opcode := 0x0
  const TEXT: Opcode := 0x1
  const BINARY: Opcode := 0x2
  const CLOSE: Opcode := 0x8
  const PING: Opcode := 0x9
  const PONG: Opcode := 0xA

  /** `from_bits` of a bit set is defined when every bit is a declared one. */
  method FlagFromBits(b: byte) returns (r: Option<Flag>)
    ensures r == if b % 16 == 0 then Some(b) else None
  {
    KnownFlags(b);
    r := if And(b, FLAG_BITS) == b then Some(b) else None;
  }

  method OpcodeFromBits(b: byte) returns (r: Option<Opcode>)
    ensures r == if KnownOpcode(b) then Some(b) else None
  {
    KnownOpcodes(b);
    r := if And(b, OPCODE_BITS) == b then Some(b) else None;
  }

  /** The flag bits are the high nibble. */
  lemma KnownFlags(b: byte)
    ensures And(FLAG_BITS, b) == b / 16 * 16 == And(b, FLAG_BITS)
    ensures And(b, FLAG_BITS) == b <==> b % 16 == 0
  {
    Powers();
    AndHigh(15, 4, b / 16, b % 16);
    AndLow(4, 0, b / 16);
    AndCommutes(FLAG_BITS, b);
  }

  lemma AndCommutes(a: nat, b: nat)
    ensures And(a, b) == And(b, a)
  {
  }

  lemma KnownOpcodes(b: byte)
    ensures And(b, OPCODE_BITS) == b <==> KnownOpcode(b)
  {
    assert And(b / 8, 1) == b / 8 % 2;
    assert And(b / 4, 2) == 2 * And(b / 8, 1);
    assert And(b / 2, 5) == 2 * And(b / 4, 2) + b / 2 % 2;
    assert And(b, 11) == 2 * And(b / 2, 5) + b % 2;
  }

  datatype Header = Header(flag: Flag, opcode: Opcode, mask: Option<Mask>, payloadLen: u64)

  datatype FrameKind = Data | Control | NotDefine

  datatype Frame =
    | DataFrame(header: Header, data: seq<byte>)
    | ControlFrame(header: Header, data: seq<byte>, statusCode: Option<nat>)
  {
    function Kind(): FrameKind {
      if ControlOpcode(header.opcode) then Control
      else if DataOpcode(header.opcode) then Data
      else NotDefine
    }
  }

  function NewDataFrame(flag: Flag, opcode: Opcode, data: Slice, mask: Option<Mask>): Frame {
    DataFrame(Header(flag, opcode, mask, |data|), data)
  }

  /** `ControlFrame::new`: an over-long payload is cut to 124 bytes but announced as 125. */
  function NewControlFrame(flag: Flag, opcode: Opcode, status: Option<nat>, data: seq<byte>,
                           mask: Option<Mask>): (f: Frame)
    requires status.Some? ==> status.value < U16_LIMIT
    ensures f.ControlFrame?
  {
    var prefix := if status.Some? then BeBytes(status.value, 2) else [];
    if |data| + |prefix| > 125 then
      ControlFrame(Header(flag, opcode, mask, 125), prefix + data[..124 - |prefix|], status)
    else
      ControlFrame(Header(flag, opcode, mask, |data| + |prefix|), prefix + data, status)
  }

  /** Mask bit and length: the 7-bit form below 125, the 16-bit form up to 65535, else 64 bits. */
  function LengthField(maskBit: nat, n: u64): (s: seq<byte>)
    requires maskBit in {0, 128}
    ensures |s| in {1, 3, 9}
  {
    if n < 125 then [maskBit + n]
    else if n <= 65535 then [maskBit + 126] + BeBytes(n, 2)
    else [maskBit + 127] + BeBytes(n, 8)
  }

  function HeaderBytes(h: Header): seq<byte> {
    [h.flag + h.opcode]
    + LengthField(if h.mask.Some? then 128 else 0, h.payloadLen)
    + (if h.mask.Some? then h.mask.value else [])
  }

  /** The payload as it travels. */
  function Body(f: Frame): (s: seq<byte>)
    ensures |s| == |f.data|
  {
    if f.header.mask.Some? then Rfc.ApplyMask(f.header.mask.value, f.data) else f.data
  }

  function FrameBytes(f: Frame): seq<byte> {
    HeaderBytes(f.header) + Body(f)
  }

  /** The code merges bits with OR; they never overlap, so the bytes are those of HeaderBytes. */
  method SerializeHeader(h: Header) returns (buffer: seq<byte>)
    ensures buffer == HeaderBytes(h)
  {
    buffer := [];
    var header1: byte := h.flag;
    header1 := MergeOpcode(header1, h.opcode);
    buffer := buffer + [header1];
    var header2: byte := if h.mask.Some? then 128 else 0;
    if h.payloadLen < 125 {
      header2 := MergeLength(header2, h.payloadLen);
      buffer := buffer + [header2];
    } else if h.payloadLen <= 65535 {
      header2 := MergeLength(header2, 126);
      buffer := buffer + [header2];
      buffer := buffer + BeBytes(h.payloadLen, 2);
    } else {
      header2 := MergeLength(header2, 127);
      buffer := buffer + [header2];
      buffer := buffer + BeBytes(h.payloadLen, 8);
    }
    if h.mask.Some? {
      buffer := buffer + h.mask.value;
    }
  }

  lemma OrNibble(q: nat, b: nat)
    requires b < 16
    ensures Or(q * 16, b) == q * 16 + b
  {
    Powers();
    OrDisjoint(q, 4, b);
  }

  /** `header1 |= opcode`: the opcode fills the low nibble. */
  method MergeOpcode(flag: Flag, opcode: Opcode) returns (r: byte)
    ensures r == flag + opcode
  {
    assert KnownOpcode(opcode);
    OrNibble(flag / 16, opcode);
    r := Or(flag, opcode);
  }

  /** `header2 |= n`: the length fills the bits below the mask bit. */
  method MergeLength(maskBit: byte, n: nat) returns (r: byte)
    requires maskBit in {0, 128} && n < 128
    ensures r == maskBit + n
  {
    Powers();
    OrDisjoint(maskBit / 128, 7, n);
    r := Or(maskBit, n);
  }

  /** The masking loop keeps a counter that wraps at four; the standard indexes modulo four. */
  method Serialize(f: Frame) returns (bytes: seq<byte>)
    ensures bytes == FrameBytes(f)
  {
    bytes := SerializeHeader(f.header);
    match f.header.mask
    case None => bytes := bytes + f.data;
    case Some(mask) =>
      ghost var head := bytes;
      var i := 0;
      for k := 0 to |f.data|
        invariant i == k % 4
        invariant bytes == head + Rfc.ApplyMask(mask, f.data)[..k]
      {
        bytes := bytes + [Rfc.XorByte(f.data[k], mask[i])];
        i := i + 1;
        if i >= |mask| { i := 0; }
      }
  }

  const NORMAL_CLOSURE: nat := 1000
  const GOING_AWAY: nat := 1001
  const PROTOCOL_ERROR: nat := 1002
  const RESERVED_1004: nat := 1004

  /** Returns whether the status is an error and whether the connection should be closed. */
  function EvaluateStatusCode(status: nat): (bool, bool) {
    if status == NORMAL_CLOSURE || status == GOING_AWAY then (false, true)
    else if status == RESERVED_1004 then (false, false)
    else (true, true)
  }

  /** `WSStatus::from_bits`: the declared codes 1000 to 1015 cover all ten low bits. */
  function StatusFromBits(code: nat): Option<nat> {
    if code < 1024 then Some(code) else None
  }

  datatype ParseResult =
    | NeedMore
    | Complete(frame: Frame, offset: nat)
    | Invalid
    | Panics

  /**
   * What `bytes_to_frame` returns. It panics while the extended length is only partly buffered,
   * when the length overflows 64 bits, and on a control frame shorter than its own length field.
   */
  function Parse(b: seq<byte>): (r: ParseResult)
    ensures r.Complete? ==> 2 <= r.offset <= |b|
  {
    if |b| < 2 then NeedMore
    else if !KnownOpcode(b[0] % 32) then Invalid
    else if |b| < 2 + Rfc.ExtLen(b[1]) then Panics
    else
      ParseBody(b, 2 + Rfc.ExtLen(b[1]), Rfc.PayloadLen(b), b[0] / 16 * 16, b[0] % 32)
  }

  /** The part after the length field, which ends at `start` and announces n bytes. */
  function ParseBody(b: seq<byte>, start: nat, n: u64, flag: Flag, opcode: Opcode): (r: ParseResult)
    requires 2 <= start <= |b|
    ensures r.Complete? ==> 2 <= r.offset <= |b|
  {
    if start + n >= U64_LIMIT then Panics
    else if start + n > |b| then NeedMore
    else if DataOpcode(opcode) then
      Complete(DataFrame(Header(flag, opcode, None, n), b[start..start + n]), start + n)
    else if n < start then Panics
    else
      var status := BytesToU16(b[start..start + 2]);
      Complete(NewControlFrame(flag, opcode, status, b[start + 2..n + 2], None), start + n)
  }

  /**
   * `bytes_to_frame`, statement by statement. The test of the mask bit compares `0b10000000 & byte`
   * with 1, so the branch that reads a mask key is never taken (see MaskTestIsFalse) and is not
   * written out.
   */
  method BytesToFrame(bytes: seq<byte>) returns (r: ParseResult)
    ensures r == Parse(bytes)
  {
    if |bytes| < 2 { return NeedMore; }
    var flagByte, codeByte, length := SplitHeader(bytes[0], bytes[1]);
    var flag := FlagFromBits(flagByte);
    if flag.None? { return Invalid; }
    var code := OpcodeFromBits(codeByte);
    if code.None? { return Invalid; }

    var payloadLen: nat := length;
    var i := 2;
    if payloadLen == 126 {
      i := 4;
      if |bytes| < 4 { return Panics; }
      payloadLen := BytesToU16(bytes[2..4]).value;
    } else if payloadLen == 127 {
      i := 10;
      if |bytes| < 10 { return Panics; }
      payloadLen := BytesToU64(bytes[2..10]).value;
    }
    assert i == 2 + Rfc.ExtLen(bytes[1]) && payloadLen == Rfc.PayloadLen(bytes);
    r := BytesToBody(bytes, i, payloadLen, flag.value, code.value);
  }

  /** The rest of it, once the length is known: the frame begins at i. */
  method BytesToBody(bytes: seq<byte>, i: nat, payloadLen: u64, flag: Flag, code: Opcode) returns (r: ParseResult)
    requires 2 <= i <= |bytes|
    ensures r == ParseBody(bytes, i, payloadLen, flag, code)
  {
    if payloadLen + i >= U64_LIMIT { return Panics; }
    if payloadLen + i > |bytes| { return NeedMore; }

    var offset := i + payloadLen;
    if code == TEXT || code == BINARY || code == CONTINUATION {
      var data := bytes[i..offset];
      r := Complete(DataFrame(Header(flag, code, None, payloadLen), data), offset);
    } else {
      if |bytes| < i + 2 || payloadLen + 2 < i + 2 { return Panics; }
      var status := BytesToU16(bytes[i..i + 2]).value;
      var data := bytes[i + 2..payloadLen + 2];
      r := Complete(NewControlFrame(flag, code, Some(status), data, None), offset);
    }
  }

  /** The three fields the parser masks out of the first two bytes: `& 0xF0`, `& 0x1F` and `& 0x7F`. */
  method SplitHeader(b0: byte, b1: byte) returns (flag: byte, code: byte, length: byte)
    ensures flag == b0 / 16 * 16 && code == b0 % 32 && length == b1 % 128
  {
    KnownFlags(b0);
    OpcodeTest(b0);
    LengthTest(b1);
    flag, code, length := And(b0, 0xF0), And(b0, 0x1F), And(0x7F, b1);
  }

  lemma OpcodeTest(b: byte)
    ensures And(b, 0x1F) == b % 32
  {
    Powers();
    AndLow(5, b / 32, b % 32);
    AndCommutes(b, 0x1F);
  }

  lemma LengthTest(b: byte)
    ensures And(0x7F, b) == b % 128
  {
    Powers();
    AndLow(7, b / 128, b % 128);
  }

  /** frame.rs tests the mask bit by comparing with 1; no byte passes that test. */
  lemma MaskTestIsFalse(b: byte)
    ensures And(0x80, b) != 1
  {
    assert And(0x80, b) % 2 == 0;
  }
}
