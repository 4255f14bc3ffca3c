/**
 * The string operations the HTTP layer uses, on the bytes of a string. Searching and splitting
 * are exact on UTF-8; white space and letter case are those of ASCII.
 */
module Text {
  import opened Bytes
  import opened Wrappers

  type text = seq<byte>

  const CR: byte := 13
  const LF: byte := 10
  const SPACE: byte := 32
  const COLON: byte := 58
  const END_LINE: text := [CR, LF]

  /** The bytes of an ASCII string literal. */
  function Literal(s: string): (r: text)
    requires forall i | 0 <= i < |s| :: s[i] < 128 as char
    ensures |r| == |s| && forall i | 0 <= i < |s| :: r[i] as char == s[i]
  {
    seq(|s|, i requires 0 <= i < |s| => s[i] as int)
  }

  predicate StartsWith(s: text, p: text) {
    |p| <= |s| && s[..|p|] == p
  }

  /** `s.find(p)`: the first position at which p occurs. */
  function Find(s: text, p: text): (r: Option<nat>)
    ensures r.Some? ==> r.value + |p| <= |s|
  {
    if StartsWith(s, p) then Some(0)
    else if s == [] then None
    else
      match Find(s[1..], p)
      case None => None
      case Some(i) => Some(i + 1)
  }

  /** `s.split(sep)` for a non-empty separator: never empty, and [s] when sep does not occur. */
  function Split(s: text, sep: text): (r: seq<text>)
    requires sep != []
    ensures |r| >= 1
  {
    match Find(s, sep)
    case None => [s]
    case Some(i) => [s[..i]] + Split(s[i + |sep|..], sep)
  }

  predicate White(b: byte) {
    9 <= b <= 13 || b == SPACE
  }

  function TrimStart(s: text): text {
    if s != [] && White(s[0]) then TrimStart(s[1..]) else s
  }

  function TrimEnd(s: text): text {
    if s != [] && White(s[|s| - 1]) then TrimEnd(s[..|s| - 1]) else s
  }

  /** `s.trim()`. */
  function Trim(s: text): text {
    TrimEnd(TrimStart(s))
  }

  function LowerByte(b: byte): byte {
    if 65 <= b <= 90 then b + 32 else b
  }

  /** `s.to_lowercase()`. */
  function Lower(s: text): (r: text)
    ensures |r| == |s|
  {
    seq(|s|, i requires 0 <= i < |s| => LowerByte(s[i]))
  }

  /** The same letter, or the capital and the small one. */
  predicate SameLetter(a: byte, b: byte) {
    a == b || (65 <= a <= 90 && b == a + 32) || (65 <= b <= 90 && a == b + 32)
  }

  /** The same name, whatever the case of its letters. */
  predicate SameName(x: text, y: text) {
    |x| == |y| && forall k | 0 <= k < |x| :: SameLetter(x[k], y[k])
  }

  /** The digits of `s.parse::<u16>()`, most significant first; None on anything else or on overflow. */
  function Digits(s: text, value: nat): Option<nat> {
    if s == [] then Some(value)
    else if !(48 <= s[0] <= 57) || 10 * value + (s[0] - 48) >= U16_LIMIT then None
    else Digits(s[1..], 10 * value + (s[0] - 48))
  }

  /** `s.parse::<u16>()`: an optional plus sign and at least one digit. */
  function ParseU16(s: text): Option<nat> {
    var digits := if s != [] && s[0] == 43 then s[1..] else s;
    if digits == [] then None else Digits(digits, 0)
  }
}
