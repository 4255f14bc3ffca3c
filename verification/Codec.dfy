/** The serializer and the parser of frame.rs against the wire format of RFC 6455. */
module Codec {
  import Bits
  import opened Bytes
  import opened Wrappers
  import opened Frames
  import Rfc = Rfc6455

  /** The frame a receiver is meant to see. */
  function ToWire(f: Frame): Rfc.WireFrame {
    Rfc.WireFrame(f.header.flag >= 128, f.header.flag / 16 % 8, f.header.opcode, f.header.mask, f.data)
  }

  /** The header announces the length of the data that follows. */
  predicate LengthMatches(f: Frame) {
    f.header.payloadLen == |f.data|
  }

  lemma ExtendedLength(b0: byte, b1: byte, width: nat, n: nat, tail: seq<byte>)
    requires width > 0 && width == Rfc.ExtLen(b1) && n < Pow256(width)
    ensures Rfc.PayloadLen([b0, b1] + BeBytes(n, width) + tail) == n
  {
    var b := [b0, b1] + BeBytes(n, width) + tail;
    assert b[2..2 + width] == BeBytes(n, width);
    BeRoundTrip(n, width);
  }

  lemma LengthFieldLayout(b0: byte, maskBit: nat, n: u64, tail: seq<byte>)
    requires maskBit in {0, 128}
    ensures var field := LengthField(maskBit, n);
            && |field| == 1 + Rfc.ExtLen(field[0])
            && Rfc.KeyLen(field[0]) == (if maskBit == 128 then 4 else 0)
            && Rfc.PayloadLen([b0] + field + tail) == n
  {
    if n < 125 {
      assert LengthField(maskBit, n) == [maskBit + n];
    } else {
      ExtendedLayout(b0, maskBit, n, tail);
    }
  }

  lemma ExtendedLayout(b0: byte, maskBit: nat, n: u64, tail: seq<byte>)
    requires maskBit in {0, 128} && n >= 125
    ensures var field := LengthField(maskBit, n);
            && |field| == 1 + Rfc.ExtLen(field[0])
            && Rfc.KeyLen(field[0]) == (if maskBit == 128 then 4 else 0)
            && Rfc.PayloadLen([b0] + field + tail) == n
  {
    Widths();
    var width := if n <= 65535 then 2 else 8;
    var b1: byte := if n <= 65535 then maskBit + 126 else maskBit + 127;
    assert LengthField(maskBit, n) == [b1] + BeBytes(n, width);
    ExtendedLength(b0, b1, width, n, tail);
    assert [b0] + ([b1] + BeBytes(n, width)) + tail == [b0, b1] + BeBytes(n, width) + tail;
  }

  /** b starts with header h, which ends at `start`. */
  predicate Layout(h: Header, b: seq<byte>, start: nat) {
    && 2 <= start <= |b|
    && b[0] == h.flag + h.opcode
    && start == 2 + Rfc.ExtLen(b[1]) + Rfc.KeyLen(b[1])
    && Rfc.KeyLen(b[1]) == (if h.mask.Some? then 4 else 0)
    && Rfc.PayloadLen(b) == h.payloadLen
    && (h.mask.Some? ==> b[start - 4..start] == h.mask.value)
  }

  lemma HeaderLayout(h: Header, tail: seq<byte>)
    ensures Layout(h, HeaderBytes(h) + tail, |HeaderBytes(h)|)
  {
    var maskBit := if h.mask.Some? then 128 else 0;
    var key := if h.mask.Some? then h.mask.value else [];
    var field := LengthField(maskBit, h.payloadLen);
    LengthFieldLayout(h.flag + h.opcode, maskBit, h.payloadLen, key + tail);
    assert HeaderBytes(h) + tail == [h.flag + h.opcode] + field + (key + tail);
  }

  lemma FrameLayout(f: Frame, rest: seq<byte>) returns (b: seq<byte>, start: nat)
    ensures b == FrameBytes(f) + rest && start + |f.data| == |FrameBytes(f)|
    ensures Layout(f.header, b, start) && b[start..start + |f.data|] == Body(f)
  {
    b, start := FrameBytes(f) + rest, |HeaderBytes(f.header)|;
    HeaderLayout(f.header, Body(f) + rest);
    Associate(HeaderBytes(f.header), Body(f), rest);
  }

  lemma Associate(a: seq<byte>, b: seq<byte>, c: seq<byte>)
    ensures a + b + c == a + (b + c)
    ensures (a + b + c)[|a|..|a| + |b|] == b
  {
  }

  lemma DecodeLayout(f: Frame, b: seq<byte>, start: nat)
    requires Layout(f.header, b, start) && f.header.payloadLen == |f.data|
    requires start + |f.data| <= |b| && b[start..start + |f.data|] == Body(f)
    ensures Rfc.Decode(b) == Some((ToWire(f), start + |f.data|))
  {
    FirstByte(f.header.flag, f.header.opcode);
    if f.header.mask.Some? {
      Rfc.MaskInvolution(f.header.mask.value, f.data);
    }
  }

  lemma FirstByte(flag: Flag, opcode: Opcode)
    ensures var b := flag + opcode;
            (b >= 128 <==> flag >= 128) && b / 16 % 8 == flag / 16 % 8 && b % 16 == opcode
  {
    assert KnownOpcode(opcode);
  }

  /** Sections 5.2 and 5.3: a receiver recovers flags, opcode, mask and payload, whatever follows. */
  lemma SerializedFrameDecodes(f: Frame, b: seq<byte>)
    requires LengthMatches(f) && FrameBytes(f) <= b
    ensures Rfc.Decode(b) == Some((ToWire(f), |FrameBytes(f)|))
  {
    var c, start := FrameLayout(f, b[|FrameBytes(f)|..]);
    assert c == b;
    DecodeLayout(f, b, start);
  }

  /**
   * Section 5.3, bit by bit: octet j of the payload travels with a one exactly where the octet and
   * octet j mod 4 of the mask differ.
   */
  lemma MaskedBits(f: Frame, j: nat, k: nat)
    requires f.header.mask.Some? && j < |f.data|
    ensures |FrameBytes(f)| == |HeaderBytes(f.header)| + |f.data|
    ensures Bits.Bit(FrameBytes(f)[|HeaderBytes(f.header)| + j], k) ==
            (Bits.Bit(f.data[j], k) + Bits.Bit(f.header.mask.value[j % 4], k)) % 2
  {
    Bits.XorBits(f.data[j], f.header.mask.value[j % 4], k);
  }

  /** Section 5.2 asks for the shortest length encoding; only a 125-byte payload does not get it. */
  lemma MinimalEncodingUnless125(f: Frame)
    ensures |FrameBytes(f)| >= 2 + Rfc.ExtLen(FrameBytes(f)[1])
    ensures Rfc.MinimalLength(FrameBytes(f)) <==> f.header.payloadLen != 125
  {
    HeaderLayout(f.header, Body(f));
    var maskBit := if f.header.mask.Some? then 128 else 0;
    assert FrameBytes(f)[1] == LengthField(maskBit, f.header.payloadLen)[0];
  }

  lemma ControlFrameShape(flag: Flag, opcode: Opcode, status: Option<nat>, data: seq<byte>, mask: Option<Mask>)
    requires status.Some? ==> status.value < U16_LIMIT
    ensures var f := NewControlFrame(flag, opcode, status, data, mask);
            var n := |data| + 2 * |OptSeq(status)|;
            && f.header == Header(flag, opcode, mask, if n > 125 then 125 else n)
            && |f.data| == if n > 125 then 124 else n
  {
  }

  lemma ShortBodyIncomplete(f: Frame)
    requires f.header.payloadLen > |f.data|
    ensures Rfc.Decode(FrameBytes(f)).None?
  {
    HeaderLayout(f.header, Body(f));
  }

  /** A control frame is complete on the wire exactly when the constructor did not cut its payload. */
  lemma ControlFrameCompleteIff(flag: Flag, opcode: Opcode, status: Option<nat>, data: seq<byte>, mask: Option<Mask>)
    requires status.Some? ==> status.value < U16_LIMIT
    ensures var f := NewControlFrame(flag, opcode, status, data, mask);
            Rfc.Decode(FrameBytes(f)).Some? <==> |data| + 2 * |OptSeq(status)| <= 125
  {
    ControlFrameShape(flag, opcode, status, data, mask);
    var f := NewControlFrame(flag, opcode, status, data, mask);
    if LengthMatches(f) {
      SerializedFrameDecodes(f, FrameBytes(f));
    } else {
      ShortBodyIncomplete(f);
    }
  }

  // ---- The parser ----

  /** The frame the parser builds out of a received data frame. */
  function ParsedData(w: Rfc.WireFrame, flag: Flag): Frame
    requires DataOpcode(w.opcode) && |w.payload| < U64_LIMIT
  {
    DataFrame(Header(flag, w.opcode, None, |w.payload|), w.payload)
  }

  /**
   * The frame the parser builds out of a received frame that is not a data frame: `ext` bytes of
   * extended length cost it as many bytes at the end of the payload.
   */
  function ParsedControl(w: Rfc.WireFrame, ext: nat, flag: Flag): Frame
    requires KnownOpcode(w.opcode) && |w.payload| >= 2 + ext
  {
    NewControlFrame(flag, w.opcode, BytesToU16(w.payload[..2]), w.payload[2..|w.payload| - ext], None)
  }

  /** In the 7-bit form the payload comes out whole; the status is its first two bytes. */
  lemma ParsedShort(w: Rfc.WireFrame, flag: Flag)
    requires KnownOpcode(w.opcode) && 2 <= |w.payload| <= 125
    ensures ParsedControl(w, 0, flag) ==
            ControlFrame(Header(flag, w.opcode, None, |w.payload|), w.payload, BytesToU16(w.payload[..2]))
  {
    ControlFrameShape(flag, w.opcode, BytesToU16(w.payload[..2]), w.payload[2..], None);
    assert w.payload == w.payload[..2] + w.payload[2..];
  }

  /** How many payload bytes come out: the constructor cuts what is still longer than 125. */
  lemma ParsedControlLength(w: Rfc.WireFrame, ext: nat, flag: Flag)
    requires KnownOpcode(w.opcode) && |w.payload| >= 2 + ext
    ensures var n := |w.payload| - ext;
            && |ParsedControl(w, ext, flag).data| == (if n > 125 then 124 else n)
            && ParsedControl(w, ext, flag).data == w.payload[..if n > 125 then 124 else n]
  {
    var status, data := BytesToU16(w.payload[..2]), w.payload[2..|w.payload| - ext];
    ControlFrameShape(flag, w.opcode, status, data, None);
    assert w.payload[..2] + data == w.payload[..|w.payload| - ext];
    assert |data| > 122 ==> w.payload[..2] + data[..122] == w.payload[..124];
  }

  /** The five low bits of the first byte: RSV3 and the opcode. */
  lemma LowBits(b0: byte)
    ensures KnownOpcode(b0 % 32) <==> KnownOpcode(b0 % 16) && b0 / 16 % 2 == 0
    ensures b0 / 16 % 2 == 0 <==> b0 / 16 % 8 % 2 == 0
    ensures b0 / 16 % 2 == 0 ==> b0 % 32 == b0 % 16
  {
    var high, odd, low := b0 / 32, b0 / 16 % 2, b0 % 16;
    assert b0 == 32 * high + 16 * odd + low;
    assert b0 % 32 == 16 * odd + low;
  }

  /**
   * What the parser makes of a frame that is not masked, said in terms of the standard. It agrees
   * with the standard on data frames; it rejects RSV3 and opcodes 4-7 and 12-15; it panics on a
   * partly buffered length field, on a length that overflows, and on a control frame whose payload
   * is shorter than what precedes it.
   */
  function Understood(b: seq<byte>): ParseResult
    requires |b| >= 2 ==> b[1] < 128
  {
    if |b| < 2 then NeedMore
    else if !KnownOpcode(b[0] % 32) then Invalid
    else if |b| < 2 + Rfc.ExtLen(b[1]) || 2 + Rfc.ExtLen(b[1]) + Rfc.PayloadLen(b) >= U64_LIMIT then Panics
    else if Rfc.Decode(b).None? then NeedMore
    else
      LowBits(b[0]);
      var (w, n) := Rfc.Decode(b).value;
      if DataOpcode(w.opcode) then Complete(ParsedData(w, b[0] / 16 * 16), n)
      else if |w.payload| < 2 + Rfc.ExtLen(b[1]) then Panics
      else Complete(ParsedControl(w, Rfc.ExtLen(b[1]), b[0] / 16 * 16), n)
  }

  /** The payload of an unmasked frame, and what the parser reads of it. */
  lemma PlainPayload(b: seq<byte>, w: Rfc.WireFrame, n: nat)
    requires Rfc.Decode(b) == Some((w, n)) && b[1] < 128
    ensures var start := 2 + Rfc.ExtLen(b[1]);
            && w.opcode == b[0] % 16
            && n == start + |w.payload| && |w.payload| == Rfc.PayloadLen(b) && w.payload == b[start..n]
            && (|w.payload| >= start ==>
                && b[start..start + 2] == w.payload[..2]
                && b[start + 2..|w.payload| + 2] == w.payload[2..|w.payload| + 2 - start])
  {
    var start := 2 + Rfc.ExtLen(b[1]);
    assert w == Rfc.FrameAt(b, start, n);
    if |w.payload| >= start {
      SliceOfSlice(b, start, n, 0, 2);
      SliceOfSlice(b, start, n, 2, |w.payload| + 2 - start);
    }
  }

  lemma SliceOfSlice(b: seq<byte>, i: nat, j: nat, k: nat, l: nat)
    requires i <= j <= |b| && k <= l <= j - i
    ensures b[i..j][k..l] == b[i + k..i + l]
  {
    forall x | 0 <= x < l - k ensures b[i..j][k..l][x] == b[i + k..i + l][x] {
      assert b[i..j][k + x] == b[i + (k + x)];
    }
  }

  /** The parser on every input with the mask bit clear. */
  lemma ParseUnmasked(b: seq<byte>)
    requires |b| >= 2 ==> b[1] < 128
    ensures Parse(b) == Understood(b)
  {
    if |b| >= 2 && Rfc.Decode(b).Some? {
      var (w, n) := Rfc.Decode(b).value;
      LowBits(b[0]);
      PlainPayload(b, w, n);
      var start := 2 + Rfc.ExtLen(b[1]);
      if KnownOpcode(b[0] % 32) {
        assert Parse(b) == ParseBody(b, start, |w.payload|, b[0] / 16 * 16, w.opcode);
      }
      if |w.payload| >= start {
        assert |w.payload| + 2 - start == |w.payload| - Rfc.ExtLen(b[1]);
      }
    }
  }

  /** An unmasked data frame without RSV3, as DataFrame::new builds it. */
  predicate PlainData(f: Frame) {
    f.DataFrame? && DataOpcode(f.header.opcode) && f.header.mask.None? && f.header.flag % 32 == 0
  }

  /** The parser is the inverse of the serializer, whatever bytes follow. */
  lemma DataRoundTrip(f: Frame, rest: seq<byte>)
    requires PlainData(f) && LengthMatches(f) && |FrameBytes(f)| < U64_LIMIT
    ensures Parse(FrameBytes(f) + rest) == Complete(f, |FrameBytes(f)|)
  {
    var b := FrameBytes(f) + rest;
    FirstTwo(f, rest);
    SerializedFrameDecodes(f, b);
    ParseUnmasked(b);
    assert b[0] / 16 * 16 == f.header.flag && b[0] % 32 == f.header.opcode;
  }

  lemma FirstTwo(f: Frame, rest: seq<byte>)
    ensures var b := FrameBytes(f) + rest;
            |b| >= 2 && b[0] == f.header.flag + f.header.opcode && (b[1] < 128 <==> f.header.mask.None?)
  {
    var b, start := FrameLayout(f, rest);
  }

  /**
   * Reading a frame piecemeal: on every strict prefix the parser waits for more, except that it
   * panics on the prefixes that end inside the extended length.
   */
  lemma StrictPrefix(f: Frame, k: nat)
    requires PlainData(f) && LengthMatches(f) && |FrameBytes(f)| < U64_LIMIT
    requires k < |FrameBytes(f)|
    ensures Parse(FrameBytes(f)[..k]) ==
            if 2 <= k < 2 + Rfc.ExtLen(FrameBytes(f)[1]) then Panics else NeedMore
  {
    var b := FrameBytes(f);
    SerializedFrameDecodes(f, b);
    assert b + [] == b;
    FirstTwo(f, []);
    PrefixDecode(b, k);
    ParseUnmasked(b[..k]);
  }

  /** A strict prefix of a frame is incomplete; once its length field is whole, it says the same length. */
  lemma PrefixDecode(b: seq<byte>, k: nat)
    requires Rfc.Decode(b).Some? && Rfc.Decode(b).value.1 == |b| && k < |b|
    ensures Rfc.Decode(b[..k]).None?
    ensures k >= 2 && k >= 2 + Rfc.ExtLen(b[1]) ==> Rfc.PayloadLen(b[..k]) == Rfc.PayloadLen(b)
  {
    var p := b[..k];
    assert p + b[k..] == b;
    if Rfc.Decode(p).Some? {
      Rfc.DecodeExtend(p, b[k..]);
    }
    if k >= 2 && k >= 2 + Rfc.ExtLen(b[1]) {
      Rfc.SliceExtend(p, b[k..], 2, 2 + Rfc.ExtLen(b[1]));
    }
  }

  /**
   * A control frame that the constructor did not cut comes back with its payload, and with its first
   * two bytes as the status, if and only if it has 2 to 124 bytes: below that the parser panics, and
   * 125 bytes travel in the 16-bit form, which costs the last two of them.
   */
  lemma ControlRoundTrip(flag: Flag, opcode: Opcode, status: Option<nat>, data: seq<byte>, rest: seq<byte>)
    requires flag % 32 == 0 && ControlOpcode(opcode)
    requires status.Some? ==> status.value < U16_LIMIT
    requires |data| + 2 * |OptSeq(status)| <= 125
    ensures var f := NewControlFrame(flag, opcode, status, data, None);
            var p := Parse(FrameBytes(f) + rest);
            var n := |f.data|;
            && (n < 2 ==> p == Panics)
            && (2 <= n <= 124 ==> p == Complete(f.(statusCode := BytesToU16(f.data[..2])), |FrameBytes(f)|))
            && (n == 125 ==>
                p == Complete(ControlFrame(Header(flag, opcode, None, 123), f.data[..123], BytesToU16(f.data[..2])),
                              |FrameBytes(f)|))
            && (p.Complete? && p.frame.data == f.data <==> 2 <= n <= 124)
            && (status.Some? ==> BytesToU16(f.data[..2]) == status)
  {
    var f := NewControlFrame(flag, opcode, status, data, None);
    ControlFrameShape(flag, opcode, status, data, None);
    ReadBack(f, rest);
    if status.Some? {
      assert f.data[..2] == BeBytes(status.value, 2);
      Widths();
      BeRoundTrip(status.value, 2);
    }
    if |f.data| == 125 {
      ParsedCut(ToWire(f), flag);
    } else if |f.data| >= 2 {
      ParsedShort(ToWire(f), flag);
    }
  }

  /** What the parser makes of an unmasked control frame without RSV3. */
  lemma ReadBack(f: Frame, rest: seq<byte>)
    requires f.ControlFrame? && LengthMatches(f) && f.header.mask.None? && |f.data| <= 125
    requires f.header.flag % 32 == 0 && ControlOpcode(f.header.opcode)
    ensures var ext := if |f.data| == 125 then 2 else 0;
            Parse(FrameBytes(f) + rest) ==
            if |f.data| < 2 then Panics else Complete(ParsedControl(ToWire(f), ext, f.header.flag), |FrameBytes(f)|)
  {
    var b := FrameBytes(f) + rest;
    FirstTwo(f, rest);
    SerializedFrameDecodes(f, b);
    assert b[1] == LengthField(0, |f.data|)[0];
    assert Rfc.ExtLen(b[1]) == if |f.data| == 125 then 2 else 0;
    SmallTotal(f);
    UnderstoodControl(b, ToWire(f), |FrameBytes(f)|);
    assert b[0] / 16 * 16 == f.header.flag;
  }

  lemma SmallTotal(f: Frame)
    requires LengthMatches(f) && |f.data| <= 125
    ensures |FrameBytes(f)| <= 133
  {
  }

  lemma UnderstoodControl(b: seq<byte>, w: Rfc.WireFrame, n: nat)
    requires Rfc.Decode(b) == Some((w, n)) && b[1] < 128 && n < U64_LIMIT
    requires ControlOpcode(w.opcode) && w.rsv % 2 == 0
    ensures Parse(b) == if |w.payload| < 2 + Rfc.ExtLen(b[1]) then Panics
                        else Complete(ParsedControl(w, Rfc.ExtLen(b[1]), b[0] / 16 * 16), n)
  {
    ParseUnmasked(b);
    LowBits(b[0]);
  }

  /** 125 bytes in the 16-bit form. */
  lemma ParsedCut(w: Rfc.WireFrame, flag: Flag)
    requires KnownOpcode(w.opcode) && |w.payload| == 125
    ensures ParsedControl(w, 2, flag) ==
            ControlFrame(Header(flag, w.opcode, None, 123), w.payload[..123], BytesToU16(w.payload[..2]))
  {
    ControlFrameShape(flag, w.opcode, BytesToU16(w.payload[..2]), w.payload[2..123], None);
    assert w.payload[..123] == w.payload[..2] + w.payload[2..123];
  }

  /**
   * The mask bit is ignored, so on a data frame the parser finds the end of the frame exactly when
   * the frame is not masked; on a masked one it stops four bytes early and takes the key for data.
   */
  lemma OffsetRightIffUnmasked(b: seq<byte>, w: Rfc.WireFrame, n: nat)
    requires Rfc.Decode(b) == Some((w, n)) && n < U64_LIMIT && b[0] % 32 < 3
    ensures Parse(b).Complete? && Parse(b).frame.DataFrame?
    ensures Parse(b).offset == n <==> w.maskKey.None?
    ensures w.maskKey.Some? ==>
              Parse(b).offset + 4 == n && (|w.payload| >= 4 ==> Parse(b).frame.data[..4] == w.maskKey.value)
  {
    if w.maskKey.None? {
      ParseUnmasked(b);
    } else {
      var start := 2 + Rfc.ExtLen(b[1]);
      assert w.maskKey.value == b[start..start + 4];
      if |w.payload| >= 4 {
        assert b[start..start + |w.payload|][..4] == b[start..start + 4];
      }
    }
  }
}
