/** UTF-8 as Rust's `String::from_utf8`, `from_utf8_lossy` and `is_char_boundary` read it. */
module Utf8 {
  import opened Bytes

  predicate Continuation(b: byte) {
    0x80 <= b <= 0xBF
  }

  /** The length of the well-formed character at the head of s, 0 if there is none (RFC 3629, section 4). */
  function CharLen(s: seq<byte>): (n: nat)
    ensures n <= |s|
  {
    if |s| >= 1 && s[0] <= 0x7F then 1
    else if |s| >= 2 && 0xC2 <= s[0] <= 0xDF && Continuation(s[1]) then 2
    else if |s| >= 3 && ThreeByteHead(s[0], s[1]) && Continuation(s[2]) then 3
    else if |s| >= 4 && FourByteHead(s[0], s[1]) && Continuation(s[2]) && Continuation(s[3]) then 4
    else 0
  }

  predicate ThreeByteHead(a: byte, b: byte) {
    || (a == 0xE0 && 0xA0 <= b <= 0xBF)
    || (0xE1 <= a <= 0xEC && Continuation(b))
    || (a == 0xED && 0x80 <= b <= 0x9F)
    || (0xEE <= a <= 0xEF && Continuation(b))
  }

  predicate FourByteHead(a: byte, b: byte) {
    || (a == 0xF0 && 0x90 <= b <= 0xBF)
    || (0xF1 <= a <= 0xF3 && Continuation(b))
    || (a == 0xF4 && 0x80 <= b <= 0x8F)
  }

  /** `String::from_utf8(s).is_ok()`. */
  predicate Valid(s: seq<byte>) {
    s == [] || (CharLen(s) > 0 && Valid(s[CharLen(s)..]))
  }

  lemma CharLenConcat(a: seq<byte>, b: seq<byte>)
    requires CharLen(a) > 0
    ensures CharLen(a + b) == CharLen(a)
  {
  }

  lemma {:induction false} ValidConcat(a: seq<byte>, b: seq<byte>)
    requires Valid(a) && Valid(b)
    ensures Valid(a + b)
  {
    if a == [] {
      assert a + b == b;
    } else {
      var n := CharLen(a);
      CharLenConcat(a, b);
      ValidConcat(a[n..], b);
      assert (a + b)[n..] == a[n..] + b;
    }
  }

  /** `s.is_char_boundary(i)`: slicing a string anywhere else panics. */
  predicate CharBoundary(s: seq<byte>, i: nat) {
    i == 0 || i == |s| || (i < |s| && !Continuation(s[i]))
  }

  const REPLACEMENT: seq<byte> := [0xEF, 0xBF, 0xBD]

  /**
   * `String::from_utf8_lossy(s).replace("\u{FFFD}", "")`. The replacement character stands for a
   * maximal ill-formed run; since it is removed again, dropping the run byte by byte is the same.
   */
  function Lossy(s: seq<byte>): seq<byte> {
    if s == [] then []
    else
      var n := CharLen(s);
      if n == 0 then Lossy(s[1..])
      else if s[..n] == REPLACEMENT then Lossy(s[n..])
      else s[..n] + Lossy(s[n..])
  }

  lemma {:induction false} LossyIsValid(s: seq<byte>)
    ensures Valid(Lossy(s))
  {
    if s != [] {
      var n := CharLen(s);
      if n == 0 {
        LossyIsValid(s[1..]);
      } else {
        LossyIsValid(s[n..]);
        assert CharLen(s[..n]) == n && s[..n][n..] == [];
        assert Valid(s[..n]);
        ValidConcat(s[..n], Lossy(s[n..]));
      }
    }
  }

  predicate Ascii(s: seq<byte>) {
    forall i | 0 <= i < |s| :: s[i] <= 0x7F
  }

  lemma {:induction false} LossyAscii(s: seq<byte>)
    requires Ascii(s)
    ensures Lossy(s) == s
  {
    if s != [] {
      LossyAscii(s[1..]);
      assert s[..1] != REPLACEMENT && s == s[..1] + s[1..];
    }
  }
}
