/** Numbers written with a fixed number of digits, and the order of such texts. */
module Digits {
  function Power(base: nat, n: nat): nat {
    if n == 0 then 1 else Power(base, n - 1) * base
  }

  function Quotient(base: nat, u: nat): (q: nat)
    requires 2 <= base
    ensures q * base <= u < q * base + base
  {
    u / base
  }

  function Remainder(base: nat, u: nat): (r: nat)
    requires 2 <= base
    ensures r < base && u == Quotient(base, u) * base + r
  {
    u % base
  }

  /** The last n digits of a number, most significant first. */
  function Digits(base: nat, n: nat, u: nat): (ds: seq<nat>)
    requires 2 <= base
    ensures |ds| == n
    ensures forall i :: 0 <= i < n ==> ds[i] < base
  {
    if n == 0 then [] else Digits(base, n - 1, Quotient(base, u)) + [Remainder(base, u)]
  }

  function Value(base: nat, ds: seq<nat>): nat {
    if ds == [] then 0 else Value(base, ds[..|ds| - 1]) * base + ds[|ds| - 1]
  }

  lemma QuotientIsSmaller(base: nat, n: nat, u: nat)
    requires 2 <= base && 1 <= n && u < Power(base, n)
    ensures Quotient(base, u) < Power(base, n - 1)
  {
    hide Quotient;
    var p, q := Power(base, n - 1), Quotient(base, u);
    if p <= q {
      MulGrows(p, q, base);
    }
  }

  lemma MulGrows(p: nat, q: nat, base: nat)
    requires p <= q
    ensures p * base <= q * base
  {}

  /** Reading the digits gives the number back. */
  lemma {:induction false} ValueOfDigits(base: nat, n: nat, u: nat)
    requires 2 <= base && u < Power(base, n)
    ensures Value(base, Digits(base, n, u)) == u
  {
    hide Quotient, Remainder;
    if n != 0 {
      QuotientIsSmaller(base, n, u);
      ValueOfDigits(base, n - 1, Quotient(base, u));
      assert Digits(base, n, u)[..n - 1] == Digits(base, n - 1, Quotient(base, u));
    }
  }

  /** The order in which stores list keys: byte by byte, a proper prefix first. */
  predicate LexLess(a: seq<nat>, b: seq<nat>) {
    b != [] && (a == [] || a[0] < b[0] || (a[0] == b[0] && LexLess(a[1..], b[1..])))
  }

  lemma {:induction false} LexLessSnoc(a: seq<nat>, b: seq<nat>, x: nat, y: nat)
    requires |a| == |b|
    ensures LexLess(a + [x], b + [y]) <==> LexLess(a, b) || (a == b && x < y)
  {
    if a == [] {
      assert !LexLess([], []) && LexLess([x], [y]) == (x < y || (x == y && LexLess([x][1..], [y][1..])));
    } else {
      LexLessSnoc(a[1..], b[1..], x, y);
      assert (a + [x])[1..] == a[1..] + [x] && (b + [y])[1..] == b[1..] + [y];
      assert a == b <==> a[0] == b[0] && a[1..] == b[1..] by {
        assert a == [a[0]] + a[1..] && b == [b[0]] + b[1..];
      }
    }
  }

  /** A common prefix does not change the order. */
  lemma {:induction false} LexLessAfterPrefix(p: seq<nat>, a: seq<nat>, b: seq<nat>)
    ensures LexLess(p + a, p + b) <==> LexLess(a, b)
  {
    if p == [] {
      assert p + a == a && p + b == b;
    } else {
      LexLessAfterPrefix(p[1..], a, b);
      assert (p + a)[1..] == p[1..] + a && (p + b)[1..] == p[1..] + b;
    }
  }

  /** What follows parts of equal length matters only when those parts are equal. */
  lemma {:induction false} LexLessByParts(a: seq<nat>, b: seq<nat>, x: seq<nat>, y: seq<nat>)
    requires |a| == |b|
    ensures LexLess(a + x, b + y) ==> LexLess(a, b) || a == b
  {
    if a == [] {
      assert b == [];
    } else {
      LexLessByParts(a[1..], b[1..], x, y);
      assert (a + x)[1..] == a[1..] + x && (b + y)[1..] == b[1..] + y;
      if a[0] == b[0] && a[1..] == b[1..] {
        assert a == [a[0]] + a[1..] && b == [b[0]] + b[1..];
      }
    }
  }

  lemma {:induction false} LexLessIrreflexive(a: seq<nat>)
    ensures !LexLess(a, a)
  {
    if a != [] {
      LexLessIrreflexive(a[1..]);
    }
  }

  /** Fixed-width numbers are ordered as their texts are. */
  lemma {:induction false} DigitsInOrder(base: nat, n: nat, u: nat, v: nat)
    requires 2 <= base && u < Power(base, n) && v < Power(base, n)
    ensures LexLess(Digits(base, n, u), Digits(base, n, v)) <==> u < v
  {
    hide Quotient, Remainder, Value, LexLess;
    if n == 0 {
      LexLessIrreflexive([]);
    } else {
      var q, p := Quotient(base, u), Quotient(base, v);
      QuotientIsSmaller(base, n, u);
      QuotientIsSmaller(base, n, v);
      DigitsInOrder(base, n - 1, q, p);
      LexLessSnoc(Digits(base, n - 1, q), Digits(base, n - 1, p), Remainder(base, u), Remainder(base, v));
      ValueOfDigits(base, n - 1, q);
      ValueOfDigits(base, n - 1, p);
      QuotientOrder(base, u, v);
    }
  }

  lemma QuotientOrder(base: nat, u: nat, v: nat)
    requires 2 <= base
    ensures u < v <==>
      Quotient(base, u) < Quotient(base, v)
      || (Quotient(base, u) == Quotient(base, v) && Remainder(base, u) < Remainder(base, v))
  {
    hide Quotient, Remainder;
    var q, p := Quotient(base, u), Quotient(base, v);
    if q < p {
      MulGrows(q + 1, p, base);
    } else if p < q {
      MulGrows(p + 1, q, base);
    }
  }

  // ---------- Decimal text ----------

  function DigitChar(d: nat): (c: char)
    requires d < 10
    ensures c as int == 48 + d
  {
    (48 + d) as char
  }

  /** A number with n decimal digits, padded with zeros. */
  function Decimal(n: nat, u: nat): (s: string)
    ensures |s| == n
    ensures forall i :: 0 <= i < n ==> '0' <= s[i] <= '9'
  {
    var ds := Digits(10, n, u);
    seq(n, i requires 0 <= i < n => DigitChar(ds[i]))
  }

  predicate AllDigits(s: string) {
    forall i :: 0 <= i < |s| ==> '0' <= s[i] <= '9'
  }

  function ParseDecimal(s: string): nat
    requires AllDigits(s)
  {
    Value(10, seq(|s|, i requires 0 <= i < |s| => s[i] as int - 48))
  }

  /** Reading a padded number gives it back. */
  lemma DecimalRoundTrip(n: nat, u: nat)
    requires u < Power(10, n)
    ensures AllDigits(Decimal(n, u)) && ParseDecimal(Decimal(n, u)) == u
  {
    ValueOfDigits(10, n, u);
    var s := Decimal(n, u);
    assert seq(|s|, i requires 0 <= i < |s| => s[i] as int - 48) == Digits(10, n, u);
  }

  function AsciiBytes(s: string): (bytes: seq<nat>)
    ensures |bytes| == |s|
    ensures forall i :: 0 <= i < |s| ==> bytes[i] == s[i] as int
  {
    seq(|s|, i requires 0 <= i < |s| => s[i] as int)
  }

  lemma AsciiBytesConcat(s: string, t: string)
    ensures AsciiBytes(s + t) == AsciiBytes(s) + AsciiBytes(t)
  {}

  lemma AsciiBytesInjective(s: string, t: string)
    requires AsciiBytes(s) == AsciiBytes(t)
    ensures s == t
  {
    forall i | 0 <= i < |s|
      ensures s[i] == t[i]
    {
      assert AsciiBytes(s)[i] == AsciiBytes(t)[i];
    }
  }

  lemma {:induction false} ShiftKeepsOrder(a: seq<nat>, b: seq<nat>, s: seq<nat>, t: seq<nat>)
    requires |s| == |a| && |t| == |b|
    requires forall i :: 0 <= i < |a| ==> s[i] == a[i] + 48
    requires forall i :: 0 <= i < |b| ==> t[i] == b[i] + 48
    ensures LexLess(s, t) <==> LexLess(a, b)
  {
    if a != [] && b != [] {
      ShiftKeepsOrder(a[1..], b[1..], s[1..], t[1..]);
    }
  }

  // ---------- Block heights in keys ----------

  /** Twenty digits hold every 64-bit height. */
  function PadHeight(height: nat): (s: string)
    ensures |s| == 20
  {
    Decimal(20, height)
  }

  /** Heights that fit in 64 bits have different keys, sorted as the heights are. */
  lemma PaddedHeightsInOrder(h: nat, k: nat)
    requires h < 0x1_0000_0000_0000_0000 && k < 0x1_0000_0000_0000_0000
    ensures PadHeight(h) == PadHeight(k) <==> h == k
    ensures LexLess(AsciiBytes(PadHeight(h)), AsciiBytes(PadHeight(k))) <==> h < k
  {
    TwentyDigits();
    DecimalRoundTrip(20, h);
    DecimalRoundTrip(20, k);
    DigitsInOrder(10, 20, h, k);
    ShiftKeepsOrder(Digits(10, 20, h), Digits(10, 20, k), AsciiBytes(PadHeight(h)), AsciiBytes(PadHeight(k)));
  }

  lemma TwentyDigits()
    ensures 0x1_0000_0000_0000_0000 <= Power(10, 20)
  {
    assert Power(10, 4) == 10_000 by { assert Power(10, 2) == 100; }
    assert Power(10, 8) == 100_000_000 by { assert Power(10, 6) == 1_000_000; }
    assert Power(10, 12) == 1_000_000_000_000 by { assert Power(10, 10) == 10_000_000_000; }
    assert Power(10, 16) == 10_000_000_000_000_000 by { assert Power(10, 14) == 100_000_000_000_000; }
    assert Power(10, 20) == 100_000_000_000_000_000_000 by { assert Power(10, 18) == 1_000_000_000_000_000_000; }
  }
}
