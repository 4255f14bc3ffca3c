/** UTF-8 from the other side: the encoding table of RFC 3629, section 3, against the checks of Utf8. */
module Unicode {
  import opened Wrappers
  import opened Bytes
  import opened Utf8

  /** A Unicode scalar value. */
  predicate Scalar(c: nat) {
    c < 0xD800 || 0xE000 <= c < 0x11_0000
  }

  /** The table: the bits of c in groups of six behind the marks of the first byte. */
  function Encode(c: nat): (s: seq<byte>)
    requires Scalar(c)
    ensures 1 <= |s| <= 4
  {
    if c < 0x80 then [c]
    else if c < 0x800 then [0xC0 + c / 64, 0x80 + c % 64]
    else if c < 0x1_0000 then [0xE0 + c / 4096, 0x80 + c / 64 % 64, 0x80 + c % 64]
    else [0xF0 + c / 262144, 0x80 + c / 4096 % 64, 0x80 + c / 64 % 64, 0x80 + c % 64]
  }

  predicate AllScalar(cs: seq<nat>) {
    forall k | 0 <= k < |cs| :: Scalar(cs[k])
  }

  function EncodeAll(cs: seq<nat>): seq<byte>
    requires AllScalar(cs)
  {
    if cs == [] then [] else Encode(cs[0]) + EncodeAll(cs[1..])
  }

  // ---- One character ----

  lemma EncodeIsHead(c: nat, rest: seq<byte>)
    requires Scalar(c)
    ensures CharLen(Encode(c) + rest) == |Encode(c)|
  {
    var s := Encode(c) + rest;
    if c >= 0x1_0000 {
      FourBytes(c);
      assert s[0] == 0xF0 + c / 262144 && s[1] == 0x80 + c / 4096 % 64;
    } else if c >= 0x800 {
      ThreeBytes(c);
      assert s[0] == 0xE0 + c / 4096 && s[1] == 0x80 + c / 64 % 64;
    }
  }

  lemma ThreeBytes(c: nat)
    requires Scalar(c) && 0x800 <= c < 0x1_0000
    ensures ThreeByteHead(0xE0 + c / 4096, 0x80 + c / 64 % 64)
  {
    assert c / 64 == 64 * (c / 4096) + c / 64 % 64;
  }

  lemma FourBytes(c: nat)
    requires 0x1_0000 <= c < 0x11_0000
    ensures FourByteHead(0xF0 + c / 262144, 0x80 + c / 4096 % 64)
  {
    assert c / 4096 == 64 * (c / 262144) + c / 4096 % 64;
  }

  /** The scalar value that the character at the head of s encodes. */
  lemma HeadIsEncode(s: seq<byte>) returns (c: nat)
    requires CharLen(s) > 0
    ensures Scalar(c) && Encode(c) == s[..CharLen(s)]
  {
    var n := CharLen(s);
    if n == 1 {
      c := s[0];
    } else if n == 2 {
      c := TwoByteValue(s[0], s[1]);
    } else if n == 3 {
      c := ThreeByteValue(s[0], s[1], s[2]);
    } else {
      c := FourByteValue(s[0], s[1], s[2], s[3]);
    }
    assert s[..n] == Encode(c);
  }

  lemma TwoByteValue(x: nat, y: nat) returns (c: nat)
    requires 0xC2 <= x <= 0xDF && 0x80 <= y <= 0xBF
    ensures Scalar(c) && Encode(c) == [x, y]
  {
    c := 64 * (x - 0xC0) + (y - 0x80);
    assert c / 64 == x - 0xC0;
  }

  lemma ThreeByteValue(x: byte, y: byte, z: byte) returns (c: nat)
    requires ThreeByteHead(x, y) && Continuation(z)
    ensures Scalar(c) && Encode(c) == [x, y, z]
  {
    c := 4096 * (x - 0xE0) + 64 * (y - 0x80) + (z - 0x80);
    assert c / 64 == 64 * (x - 0xE0) + (y - 0x80);
    assert c / 4096 == x - 0xE0;
  }

  lemma FourByteValue(w: byte, x: byte, y: byte, z: byte) returns (c: nat)
    requires FourByteHead(w, x) && Continuation(y) && Continuation(z)
    ensures Scalar(c) && Encode(c) == [w, x, y, z]
  {
    c := 262144 * (w - 0xF0) + 4096 * (x - 0x80) + 64 * (y - 0x80) + (z - 0x80);
    assert c / 64 == 4096 * (w - 0xF0) + 64 * (x - 0x80) + (y - 0x80);
    assert c / 4096 == 64 * (w - 0xF0) + (x - 0x80);
    assert c / 262144 == w - 0xF0;
  }

  // ---- Whole strings ----

  lemma {:induction false} EncodedIsValid(cs: seq<nat>)
    requires AllScalar(cs)
    ensures Valid(EncodeAll(cs))
  {
    if cs != [] {
      var s := EncodeAll(cs);
      EncodeIsHead(cs[0], EncodeAll(cs[1..]));
      EncodedIsValid(cs[1..]);
      assert s[|Encode(cs[0])|..] == EncodeAll(cs[1..]);
    }
  }

  lemma {:induction false} ValidIsEncoded(s: seq<byte>) returns (cs: seq<nat>)
    requires Valid(s)
    ensures AllScalar(cs) && EncodeAll(cs) == s
  {
    if s == [] {
      cs := [];
    } else {
      var c := HeadIsEncode(s);
      var rest := ValidIsEncoded(s[CharLen(s)..]);
      cs := [c] + rest;
      assert cs[1..] == rest && s == s[..CharLen(s)] + s[CharLen(s)..];
    }
  }

  /** The bytes that `String::from_utf8` accepts are exactly the encodings of scalar values. */
  lemma ValidIff(s: seq<byte>)
    ensures Valid(s) <==> exists cs :: AllScalar(cs) && EncodeAll(cs) == s
  {
    if Valid(s) {
      var cs := ValidIsEncoded(s);
    }
    if exists cs :: AllScalar(cs) && EncodeAll(cs) == s {
      var cs :| AllScalar(cs) && EncodeAll(cs) == s;
      EncodedIsValid(cs);
    }
  }

  // ---- Boundaries ----

  lemma CharLenPrefix(s: seq<byte>, i: nat)
    requires CharLen(s) > 0 && i <= |s|
    ensures CharLen(s[..i]) == if i < CharLen(s) then 0 else CharLen(s)
    ensures 0 < i < CharLen(s) ==> Continuation(s[i])
    ensures !Continuation(s[0])
  {
  }

  /** On a string, a boundary is where it can be cut into two strings. */
  lemma {:induction false} BoundaryIff(s: seq<byte>, i: nat)
    requires Valid(s) && i <= |s|
    ensures CharBoundary(s, i) <==> Valid(s[..i]) && Valid(s[i..])
  {
    if s != [] && i > 0 {
      var n := CharLen(s);
      CharLenPrefix(s, i);
      if i >= n {
        BoundaryIff(s[n..], i - n);
        assert s[..i][n..] == s[n..][..i - n] && s[n..][i - n..] == s[i..];
        if i == n && n < |s| {
          CharLenPrefix(s[n..], 0);
        }
      }
    } else {
      assert s[0..] == s;
    }
  }

  // ---- Lossy decoding ----

  const REPLACEMENT_CHARACTER: nat := 0xFFFD

  function Without(cs: seq<nat>): (r: seq<nat>)
    requires AllScalar(cs)
    ensures AllScalar(r)
  {
    if cs == [] then []
    else if cs[0] == REPLACEMENT_CHARACTER then Without(cs[1..])
    else [cs[0]] + Without(cs[1..])
  }

  /** Of a string, the lossy decoding drops the replacement characters and nothing else. */
  lemma {:induction false} LossyOfString(cs: seq<nat>)
    requires AllScalar(cs)
    ensures Lossy(EncodeAll(cs)) == EncodeAll(Without(cs))
  {
    if cs != [] {
      var c, rest := cs[0], EncodeAll(cs[1..]);
      var s := Encode(c) + rest;
      EncodeIsHead(c, rest);
      LossyOfString(cs[1..]);
      assert s[..|Encode(c)|] == Encode(c) && s[|Encode(c)|..] == rest;
      OnlyReplacement(c);
      if c != REPLACEMENT_CHARACTER {
        assert ([c] + Without(cs[1..]))[1..] == Without(cs[1..]);
      }
    }
  }

  lemma OnlyReplacement(c: nat)
    requires Scalar(c)
    ensures Encode(c) == REPLACEMENT <==> c == REPLACEMENT_CHARACTER
  {
    if 0x800 <= c < 0x1_0000 {
      var high, middle, low := c / 4096, c / 64 % 64, c % 64;
      assert c / 64 == 64 * high + middle && c == 64 * (c / 64) + low;
      assert Encode(c) == [0xE0 + high, 0x80 + middle, 0x80 + low];
    } else if c < 0x800 {
      assert |Encode(c)| < 3;
    } else {
      assert |Encode(c)| == 4;
    }
  }

  /** A string in front is decoded by itself. */
  lemma {:induction false} LossyConcat(s: seq<byte>, more: seq<byte>)
    requires Valid(s)
    ensures Lossy(s + more) == Lossy(s) + Lossy(more)
    decreases |s|
  {
    if s == [] {
      assert s + more == more;
    } else {
      var n := CharLen(s);
      var head := if s[..n] == REPLACEMENT then [] else s[..n];
      LossyHead(s, more);
      LossyHead(s, []);
      assert s + [] == s && s[n..] + [] == s[n..];
      LossyConcat(s[n..], more);
      Regroup(head, Lossy(s[n..]), Lossy(more));
    }
  }

  /** A byte that no character begins with is dropped. */
  lemma LossySkips(s: seq<byte>, b: byte, rest: seq<byte>)
    requires Valid(s) && CharLen([b] + rest) == 0
    ensures Lossy(s + ([b] + rest)) == Lossy(s) + Lossy(rest)
  {
    LossyConcat(s, [b] + rest);
    assert ([b] + rest)[1..] == rest;
  }

  lemma LossyHead(s: seq<byte>, more: seq<byte>)
    requires CharLen(s) > 0
    ensures var n := CharLen(s);
            Lossy(s + more) == (if s[..n] == REPLACEMENT then [] else s[..n]) + Lossy(s[n..] + more)
  {
    var n := CharLen(s);
    CharLenConcat(s, more);
    assert (s + more)[n..] == s[n..] + more && (s + more)[..n] == s[..n];
  }
}
