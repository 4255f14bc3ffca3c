/** Bytes, byte order and the two conversions of websocket/src/core/binary.rs. */
module Bytes {
  import opened Wrappers

  type byte = n: nat | n < 256

  const U16_LIMIT: nat := 0x1_0000
  const U64_LIMIT: nat := 0x1_0000_0000_0000_0000
  const ISIZE_LIMIT: nat := 0x8000_0000_0000_0000

  /** A Rust slice or string never holds more than isize::MAX bytes. */
  type Slice = s: seq<byte> | |s| < ISIZE_LIMIT

  function Pow256(width: nat): (p: nat)
    ensures p > 0
  {
    if width == 0 then 1 else 256 * Pow256(width - 1)
  }

  lemma Widths()
    ensures Pow256(2) == U16_LIMIT
    ensures Pow256(8) == U64_LIMIT
  {
    assert Pow256(4) == 0x1_0000_0000 by {
      assert Pow256(2) == 0x1_0000;
    }
    assert Pow256(6) == 0x1_0000_0000_0000;
  }

  /** The number a big-endian byte string denotes: from_be_bytes. */
  function BeValue(s: seq<byte>): nat {
    if s == [] then 0 else 256 * BeValue(s[..|s| - 1]) + s[|s| - 1]
  }

  /** The `width` low-order bytes of n, most significant first: to_be_bytes. */
  function BeBytes(n: nat, width: nat): (s: seq<byte>)
    ensures |s| == width
  {
    if width == 0 then [] else BeBytes(n / 256, width - 1) + [n % 256]
  }

  lemma {:induction false} BeRoundTrip(n: nat, width: nat)
    requires n < Pow256(width)
    ensures BeValue(BeBytes(n, width)) == n
  {
    if width > 0 {
      BeRoundTrip(n / 256, width - 1);
      var s := BeBytes(n, width);
      assert s[..|s| - 1] == BeBytes(n / 256, width - 1);
    }
  }

  lemma {:induction false} BeValueBound(s: seq<byte>)
    ensures BeValue(s) < Pow256(|s|)
    ensures BeBytes(BeValue(s), |s|) == s
  {
    if s != [] {
      var front, last := s[..|s| - 1], s[|s| - 1];
      BeValueBound(front);
      assert BeValue(s) / 256 == BeValue(front) && BeValue(s) % 256 == last;
      assert s == front + [last];
    }
  }

  /** Position by position: the first byte weighs most. */
  lemma {:induction false} BeValueFront(b: byte, rest: seq<byte>)
    ensures BeValue([b] + rest) == b * Pow256(|rest|) + BeValue(rest)
  {
    var s := [b] + rest;
    if rest == [] {
      assert s[..0] == [];
    } else {
      var front := rest[..|rest| - 1];
      BeValueFront(b, front);
      assert s[..|s| - 1] == [b] + front;
      Weigh(b, Pow256(|front|));
    }
  }

  lemma Weigh(b: nat, p: nat)
    ensures 256 * (b * p) == b * (256 * p)
  {
  }

  lemma BeValueOfTwo(a: byte, b: byte)
    ensures BeValue([a, b]) == 256 * a + b
  {
    assert [a, b][..1] == [a] && [a][..0] == [];
    assert BeValue([a]) == 256 * BeValue([]) + a;
  }

  lemma BeValueOfEight(a: byte, b: byte, c: byte, d: byte, e: byte, f: byte, g: byte, h: byte)
    ensures BeValue([a, b, c, d, e, f, g, h]) ==
            0x100_0000_0000_0000 * a + 0x1_0000_0000_0000 * b + 0x100_0000_0000 * c + 0x1_0000_0000 * d
            + 0x100_0000 * e + 0x1_0000 * f + 256 * g + h
  {
    BeValueOfTwo(a, b);
    assert [a, b, c, d][..3] == [a, b, c] && [a, b, c][..2] == [a, b];
    assert BeValue([a, b, c, d]) == 256 * BeValue([a, b, c]) + d;
    assert [a, b, c, d, e, f][..5] == [a, b, c, d, e] && [a, b, c, d, e][..4] == [a, b, c, d];
    assert BeValue([a, b, c, d, e, f]) == 256 * BeValue([a, b, c, d, e]) + f;
    var s := [a, b, c, d, e, f, g, h];
    assert s[..7] == [a, b, c, d, e, f, g] && s[..7][..6] == [a, b, c, d, e, f];
    assert BeValue(s) == 256 * BeValue(s[..7]) + h;
  }

  /** `bytes_to_u16`: an error unless there are exactly two bytes. */
  function BytesToU16(s: seq<byte>): (r: Option<nat>)
    ensures r.Some? <==> |s| == 2
    ensures r.Some? ==> r.value < U16_LIMIT && r.value == BeValue(s) && BeBytes(r.value, 2) == s
  {
    if |s| != 2 then None
    else
      BeValueBound(s); Widths();
      Some(BeValue(s))
  }

  /** `bytes_to_u64`: an error unless there are exactly eight bytes. */
  function BytesToU64(s: seq<byte>): (r: Option<nat>)
    ensures r.Some? <==> |s| == 8
    ensures r.Some? ==> r.value < U64_LIMIT && r.value == BeValue(s) && BeBytes(r.value, 8) == s
  {
    if |s| != 8 then None
    else
      BeValueBound(s); Widths();
      Some(BeValue(s))
  }

  /** Pieces one after the other. */
  function Flatten(ws: seq<seq<byte>>): seq<byte> {
    if ws == [] then [] else ws[0] + Flatten(ws[1..])
  }

  lemma {:induction false} FlattenConcat(a: seq<seq<byte>>, b: seq<seq<byte>>)
    ensures Flatten(a + b) == Flatten(a) + Flatten(b)
  {
    if a == [] {
      assert a + b == b;
    } else {
      assert (a + b)[0] == a[0] && (a + b)[1..] == a[1..] + b;
      FlattenConcat(a[1..], b);
    }
  }
}
