/** Bitwise operators on natural numbers, digit by digit, and the arithmetic they amount to here. */
module Bits {

  function And(a: nat, b: nat): (r: nat)
    ensures r <= a && r <= b
  {
    if a == 0 || b == 0 then 0
    else 2 * And(a / 2, b / 2) + if a % 2 == 1 && b % 2 == 1 then 1 else 0
  }

  function Or(a: nat, b: nat): nat {
    if a == 0 then b
    else if b == 0 then a
    else 2 * Or(a / 2, b / 2) + if a % 2 == 1 || b % 2 == 1 then 1 else 0
  }

  function Xor(a: nat, b: nat): nat {
    if a == 0 then b
    else if b == 0 then a
    else 2 * Xor(a / 2, b / 2) + if a % 2 != b % 2 then 1 else 0
  }

  function Pow2(k: nat): (p: nat)
    ensures p > 0
  {
    if k == 0 then 1 else 2 * Pow2(k - 1)
  }

  lemma AndStep(a: nat, c: nat, b: nat, d: nat)
    requires c < 2 && d < 2
    ensures And(2 * a + c, 2 * b + d) == 2 * And(a, b) + if c == 1 && d == 1 then 1 else 0
  {
    assert (2 * a + c) / 2 == a && (2 * b + d) / 2 == b;
  }

  /** Masking with k low ones keeps the k low digits. */
  lemma {:induction false} AndLow(k: nat, q: nat, r: nat)
    requires r < Pow2(k)
    ensures And(Pow2(k) - 1, q * Pow2(k) + r) == r
  {
    if k > 0 {
      var p := Pow2(k - 1);
      AndLow(k - 1, q, r / 2);
      var n := q * p + r / 2;
      AndStep(p - 1, 1, n, r % 2);
      Double(q, p);
      assert q * Pow2(k) + r == 2 * n + r % 2;
    }
  }

  /** Masking with ones above the k low digits only looks at the digits above. */
  lemma {:induction false} AndHigh(x: nat, k: nat, q: nat, r: nat)
    requires r < Pow2(k)
    ensures And(x * Pow2(k), q * Pow2(k) + r) == And(x, q) * Pow2(k)
  {
    if k > 0 {
      var p := Pow2(k - 1);
      AndHigh(x, k - 1, q, r / 2);
      AndStep(x * p, 0, q * p + r / 2, r % 2);
      Double(x, p); Double(q, p); Double(And(x, q), p);
    }
  }

  lemma Double(x: nat, p: nat)
    ensures x * (2 * p) == 2 * (x * p)
  {
  }

  lemma OrStep(a: nat, b: nat, d: nat)
    requires d < 2
    ensures Or(2 * a, 2 * b + d) == 2 * Or(a, b) + d
  {
    assert (2 * a) / 2 == a && (2 * b + d) / 2 == b;
  }

  /** Digits that do not overlap are merged by adding. */
  lemma {:induction false} OrDisjoint(q: nat, k: nat, b: nat)
    requires b < Pow2(k)
    ensures Or(q * Pow2(k), b) == q * Pow2(k) + b
  {
    if k > 0 {
      OrDisjoint(q, k - 1, b / 2);
      OrStep(q * Pow2(k - 1), b / 2, b % 2);
      Double(q, Pow2(k - 1));
    }
  }

  lemma {:induction false} XorBound(k: nat, a: nat, b: nat)
    requires a < Pow2(k) && b < Pow2(k)
    ensures Xor(a, b) < Pow2(k)
  {
    if a > 0 && b > 0 {
      XorBound(k - 1, a / 2, b / 2);
    }
  }

  lemma {:induction false} XorInvolution(a: nat, b: nat)
    ensures Xor(Xor(a, b), b) == a
  {
    if a == 0 {
      XorSelf(b);
    } else if b > 0 {
      XorInvolution(a / 2, b / 2);
      var x := Xor(a, b);
      assert x / 2 == Xor(a / 2, b / 2);
      if x == 0 {
        assert Xor(a / 2, b / 2) == 0 && a % 2 == b % 2;
        assert Xor(0, b / 2) == b / 2;
      }
    }
  }

  lemma {:induction false} XorSelf(b: nat)
    ensures Xor(b, b) == 0
  {
    if b > 0 { XorSelf(b / 2); }
  }

  lemma Powers()
    ensures Pow2(1) == 2 && Pow2(4) == 16 && Pow2(5) == 32 && Pow2(7) == 128 && Pow2(8) == 256
  {
    assert Pow2(4) == 16 by { assert Pow2(2) == 4; }
    assert Pow2(6) == 64;
  }

  // ---- The operators, bit by bit ----

  lemma DivUnique(n: int, d: int, q: int, r: int)
    requires n == q * d + r && 0 <= r < d
    ensures n / d == q && n % d == r
  {
    var x := n / d - q;
    assert x * d == r - n % d by {
      assert n == n / d * d + n % d;
      Distribute(n / d, q, d);
    }
    if x != 0 {
      NonZeroMultiple(x, d);
    }
  }

  lemma Distribute(a: int, b: int, d: int)
    ensures (a - b) * d == a * d - b * d
  {
  }

  lemma NonZeroMultiple(x: int, d: int)
    requires d > 0 && x != 0
    ensures x * d >= d || x * d <= -d
  {
    if x >= 1 {
      assert (x - 1) * d >= 0;
    } else {
      assert (-x - 1) * d >= 0;
    }
  }

  lemma HalveQuotient(n: nat, p: nat)
    requires p > 0
    ensures n / (2 * p) == n / 2 / p
  {
    var q, r := n / 2 / p, n / 2 % p;
    assert n / 2 == q * p + r;
    Double(q, p);
    DivUnique(n, 2 * p, q, 2 * r + n % 2);
  }

  /** Bit k of n, bit 0 being the lowest. */
  function Bit(n: nat, k: nat): nat {
    n / Pow2(k) % 2
  }

  lemma BitStep(n: nat, k: nat)
    ensures Bit(n, k) == if k == 0 then n % 2 else Bit(n / 2, k - 1)
  {
    if k > 0 {
      HalveQuotient(n, Pow2(k - 1));
    }
  }

  lemma HalfOfDouble(h: nat, d: nat)
    requires d < 2
    ensures (2 * h + d) / 2 == h && (2 * h + d) % 2 == d
  {
  }

  lemma AndHalf(a: nat, b: nat)
    ensures And(a, b) / 2 == And(a / 2, b / 2) && And(a, b) % 2 == if a % 2 + b % 2 == 2 then 1 else 0
  {
    if a > 0 && b > 0 {
      HalfOfDouble(And(a / 2, b / 2), if a % 2 == 1 && b % 2 == 1 then 1 else 0);
    }
  }

  lemma OrHalf(a: nat, b: nat)
    ensures Or(a, b) / 2 == Or(a / 2, b / 2) && Or(a, b) % 2 == if a % 2 + b % 2 == 0 then 0 else 1
  {
    if a > 0 && b > 0 {
      HalfOfDouble(Or(a / 2, b / 2), if a % 2 == 1 || b % 2 == 1 then 1 else 0);
    }
  }

  lemma XorHalf(a: nat, b: nat)
    ensures Xor(a, b) / 2 == Xor(a / 2, b / 2) && Xor(a, b) % 2 == (a % 2 + b % 2) % 2
  {
    if a > 0 && b > 0 {
      HalfOfDouble(Xor(a / 2, b / 2), if a % 2 != b % 2 then 1 else 0);
    }
  }

  /** AND of a and b has a one exactly where both have. */
  lemma {:induction false} AndBits(a: nat, b: nat, k: nat)
    ensures Bit(And(a, b), k) == if Bit(a, k) + Bit(b, k) == 2 then 1 else 0
    decreases k
  {
    AndHalf(a, b);
    BitStep(a, k); BitStep(b, k); BitStep(And(a, b), k);
    if k > 0 { AndBits(a / 2, b / 2, k - 1); }
  }

  /** OR has a one exactly where either has. */
  lemma {:induction false} OrBits(a: nat, b: nat, k: nat)
    ensures Bit(Or(a, b), k) == if Bit(a, k) + Bit(b, k) == 0 then 0 else 1
    decreases k
  {
    OrHalf(a, b);
    BitStep(a, k); BitStep(b, k); BitStep(Or(a, b), k);
    if k > 0 { OrBits(a / 2, b / 2, k - 1); }
  }

  lemma XorBitStep(a: nat, b: nat, x: nat, k: nat)
    requires x % 2 == (a % 2 + b % 2) % 2
    requires k > 0 ==> Bit(x / 2, k - 1) == (Bit(a / 2, k - 1) + Bit(b / 2, k - 1)) % 2
    ensures Bit(x, k) == (Bit(a, k) + Bit(b, k)) % 2
  {
    BitStep(a, k); BitStep(b, k); BitStep(x, k);
  }

  /** XOR has a one exactly where one of them has and the other has not. */
  lemma {:induction false} XorBits(a: nat, b: nat, k: nat)
    ensures Bit(Xor(a, b), k) == (Bit(a, k) + Bit(b, k)) % 2
    decreases k
  {
    XorHalf(a, b);
    if k > 0 { XorBits(a / 2, b / 2, k - 1); }
    XorBitStep(a, b, Xor(a, b), k);
  }
}
