/** What the string operations of Text mean, said without them. */
module Strings {
  import opened Wrappers
  import opened Bytes
  import opened Text

  // ---- Letter case ----

  lemma SameLetterIff(a: byte, b: byte)
    ensures LowerByte(a) == LowerByte(b) <==> SameLetter(a, b)
  {
  }

  /** Lower-casing identifies exactly the names that differ in nothing but case. */
  lemma LowerIff(x: text, y: text)
    ensures Lower(x) == Lower(y) <==> SameName(x, y)
  {
    if Lower(x) == Lower(y) {
      forall k | 0 <= k < |x| ensures SameLetter(x[k], y[k]) {
        assert Lower(x)[k] == Lower(y)[k];
        SameLetterIff(x[k], y[k]);
      }
    }
    if SameName(x, y) {
      forall k | 0 <= k < |x| ensures Lower(x)[k] == Lower(y)[k] {
        SameLetterIff(x[k], y[k]);
      }
    }
  }

  /** What it returns is the same name, without capitals. */
  lemma LowerMeaning(x: text)
    ensures SameName(Lower(x), x)
    ensures forall k | 0 <= k < |x| :: !(65 <= Lower(x)[k] <= 90)
  {
  }

  // ---- Searching and splitting ----

  /** p stands at position i of s. */
  predicate At(s: text, p: text, i: nat) {
    i + |p| <= |s| && s[i..i + |p|] == p
  }

  /** The first position, if there is one. */
  lemma {:induction false} FindMeaning(s: text, p: text)
    ensures match Find(s, p)
            case Some(i) => At(s, p, i) && forall j | 0 <= j < i :: !At(s, p, j)
            case None => forall j: nat :: !At(s, p, j)
  {
    assert StartsWith(s, p) <==> At(s, p, 0);
    if !StartsWith(s, p) && s != [] {
      FindMeaning(s[1..], p);
      forall j: nat | j > 0 ensures At(s, p, j) <==> At(s[1..], p, j - 1) {
        if j + |p| <= |s| {
          assert s[1..][j - 1..j - 1 + |p|] == s[j..j + |p|];
        }
      }
    }
  }

  function JoinWith(pieces: seq<text>, sep: text): text
    requires pieces != []
  {
    if |pieces| == 1 then pieces[0] else pieces[0] + sep + JoinWith(pieces[1..], sep)
  }

  lemma NoSep(l: text, sep: text)
    requires sep != [] && sep[0] !in l
    ensures Find(l, sep).None?
  {
    FindMeaning(l, sep);
    forall j: nat ensures !At(l, sep, j) {
      if j + |sep| <= |l| {
        assert l[j..j + |sep|][0] == l[j];
      }
    }
  }

  lemma FindSep(l: text, sep: text, rest: text)
    requires sep != [] && sep[0] !in l
    ensures Find(l + sep + rest, sep) == Some(|l|)
  {
    var s := l + sep + rest;
    FindMeaning(s, sep);
    assert At(s, sep, |l|);
    forall j | 0 <= j < |l| ensures !At(s, sep, j) {
      if j + |sep| <= |s| {
        assert s[j..j + |sep|][0] == l[j];
      }
    }
  }

  /** Joined pieces are recovered by splitting, if the first byte of the separator is in none of them. */
  lemma {:induction false} SplitJoined(pieces: seq<text>, sep: text)
    requires pieces != [] && sep != [] && forall p | p in pieces :: sep[0] !in p
    ensures Split(JoinWith(pieces, sep), sep) == pieces
  {
    var p := pieces[0];
    if |pieces| == 1 {
      NoSep(p, sep);
    } else {
      var rest := JoinWith(pieces[1..], sep);
      FindSep(p, sep, rest);
      assert (p + sep + rest)[..|p|] == p && (p + sep + rest)[|p| + |sep|..] == rest;
      SplitJoined(pieces[1..], sep);
    }
  }

  predicate Without(piece: text, sep: text) {
    forall j: nat | j <= |piece| :: !At(piece, sep, j)
  }

  /** The pieces make up the text again, and the separator is in none of them. */
  lemma {:induction false} SplitMeaning(s: text, sep: text)
    requires sep != []
    ensures JoinWith(Split(s, sep), sep) == s
    ensures forall k | 0 <= k < |Split(s, sep)| :: Without(Split(s, sep)[k], sep)
  {
    FindMeaning(s, sep);
    var r := Split(s, sep);
    match Find(s, sep)
    case None =>
    case Some(i) =>
      var rest := s[i + |sep|..];
      SplitMeaning(rest, sep);
      FirstPiece(s, sep, i);
      assert r == [s[..i]] + Split(rest, sep) && r[1..] == Split(rest, sep);
      assert forall k | 1 <= k < |r| :: r[k] == Split(rest, sep)[k - 1];
  }

  lemma FirstPiece(s: text, sep: text, i: nat)
    requires sep != [] && At(s, sep, i) && forall j | 0 <= j < i :: !At(s, sep, j)
    ensures Without(s[..i], sep) && s == s[..i] + sep + s[i + |sep|..]
  {
    forall j: nat | j <= i ensures !At(s[..i], sep, j) {
      if j + |sep| <= i {
        assert s[..i][j..j + |sep|] == s[j..j + |sep|];
        assert !At(s, sep, j);
      }
    }
  }

  // ---- Blanks ----

  /** Tab, line feed, vertical tab, form feed, carriage return, space. */
  predicate Blank(s: text) {
    forall k | 0 <= k < |s| :: s[k] in {9, 10, 11, 12, 13, 32}
  }

  /** Neither end is a blank. */
  predicate Tight(s: text) {
    s != [] ==> s[0] !in {9, 10, 11, 12, 13, 32} && s[|s| - 1] !in {9, 10, 11, 12, 13, 32}
  }

  lemma {:induction false} TrimStartBlanks(a: text, s: text)
    requires Blank(a) && (s != [] ==> !White(s[0]))
    ensures TrimStart(a + s) == s
  {
    if a == [] {
      assert a + s == s;
    } else {
      assert (a + s)[0] == a[0] && (a + s)[1..] == a[1..] + s;
      TrimStartBlanks(a[1..], s);
    }
  }

  lemma {:induction false} TrimEndBlanks(s: text, b: text)
    requires Blank(b) && (s != [] ==> !White(s[|s| - 1]))
    ensures TrimEnd(s + b) == s
  {
    if b == [] {
      assert s + b == s;
    } else {
      var n := |b| - 1;
      assert (s + b)[|s + b| - 1] == b[n] && (s + b)[..|s + b| - 1] == s + b[..n];
      TrimEndBlanks(s, b[..n]);
    }
  }

  /** Whatever blanks stand around a text that has none at its ends, trimming gives that text. */
  lemma TrimMeaning(a: text, s: text, b: text)
    requires Blank(a) && Blank(b) && Tight(s)
    ensures Trim(a + s + b) == s
  {
    if s == [] {
      assert a + s + b == a + b + [] && Blank(a + b);
      TrimStartBlanks(a + b, []);
    } else {
      assert a + s + b == a + (s + b);
      TrimStartBlanks(a, s + b);
      TrimEndBlanks(s, b);
    }
  }

  /** A text that trimming leaves alone is one without blanks at its ends. */
  lemma TrimFixed(s: text)
    ensures Trim(s) == s <==> Tight(s)
  {
    if Tight(s) {
      TrimMeaning([], s, []);
      assert [] + s + [] == s;
    } else {
      TrimShorter(s);
    }
  }

  lemma {:induction false} TrimStartShort(s: text)
    ensures |TrimStart(s)| <= |s|
  {
    if s != [] { TrimStartShort(s[1..]); }
  }

  lemma {:induction false} TrimEndShort(s: text)
    ensures |TrimEnd(s)| <= |s|
  {
    if s != [] { TrimEndShort(s[..|s| - 1]); }
  }

  lemma TrimShorter(s: text)
    requires !Tight(s)
    ensures |Trim(s)| < |s|
  {
    if White(s[0]) {
      TrimStartShort(s[1..]);
      TrimEndShort(TrimStart(s));
    } else {
      TrimEndShort(s[..|s| - 1]);
    }
  }

  // ---- Numbers ----

  predicate AllDigits(s: text) {
    forall k | 0 <= k < |s| :: 48 <= s[k] <= 57
  }

  /** The number that decimal digits denote; the last one counts ones. */
  function Decimal(s: text): nat
    requires AllDigits(s)
  {
    if s == [] then 0 else 10 * Decimal(s[..|s| - 1]) + (s[|s| - 1] - 48)
  }

  function Pow10(k: nat): (p: nat)
    ensures p > 0
  {
    if k == 0 then 1 else 10 * Pow10(k - 1)
  }

  lemma {:induction false} DecimalFront(s: text)
    requires AllDigits(s) && s != []
    ensures Decimal(s) == (s[0] - 48) * Pow10(|s| - 1) + Decimal(s[1..])
  {
    if |s| == 1 {
      assert s[..0] == [] && s[1..] == [];
    } else {
      var front := s[..|s| - 1];
      DecimalFront(front);
      assert front[1..] == s[1..][..|s| - 2];
      Tenfold(s[0] - 48, Pow10(|s| - 2));
    }
  }

  lemma Tenfold(b: nat, p: nat)
    ensures 10 * (b * p) == b * (10 * p)
  {
  }

  lemma {:induction false} DigitsMeaning(s: text, value: nat)
    requires value < U16_LIMIT
    ensures Digits(s, value) ==
            if AllDigits(s) && value * Pow10(|s|) + Decimal(s) < U16_LIMIT
            then Some(value * Pow10(|s|) + Decimal(s)) else None
  {
    if s == [] {
    } else if 48 <= s[0] <= 57 {
      var next := 10 * value + (s[0] - 48);
      if AllDigits(s) {
        DecimalFront(s);
        Collect(value, s[0] - 48, Pow10(|s| - 1));
      }
      assert AllDigits(s) <==> AllDigits(s[1..]) by {
        assert forall k | 1 <= k < |s| :: s[k] == s[1..][k - 1];
      }
      if next < U16_LIMIT {
        DigitsMeaning(s[1..], next);
      } else {
        Grows(next, Pow10(|s| - 1));
      }
    }
  }

  lemma Collect(v: nat, d: nat, p: nat)
    ensures v * (10 * p) + d * p == (10 * v + d) * p
  {
  }

  lemma Grows(v: nat, p: nat)
    requires p > 0
    ensures v * p >= v
  {
  }

  /** A 16-bit number: at least one digit, after a plus sign or not, and the value fits. */
  lemma ParseU16Meaning(s: text)
    ensures var d := if s != [] && s[0] == 43 then s[1..] else s;
            ParseU16(s) == if d != [] && AllDigits(d) && Decimal(d) < 65536 then Some(Decimal(d)) else None
  {
    var d := if s != [] && s[0] == 43 then s[1..] else s;
    DigitsMeaning(d, 0);
  }
}
