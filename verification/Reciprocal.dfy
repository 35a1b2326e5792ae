/**
  Division by a precomputed reciprocal (`net/include/bitops.h`, `net/include/nccl_device/utility.h`).
  Everything is stated for an n-bit word; the source uses n = 32 and n = 64. Word arithmetic
  wraps and every wrap is written out.
 */
module Reciprocal {
  import opened Bits

  /** A value of an n-bit word. */
  predicate Word(x: int, n: nat) { 0 <= x < Pow2(n) }

  /** The low n bits of a result. */
  function Wrap(x: int, n: nat): (r: nat)
    ensures Word(r, n)
  {
    x % Pow2(n)
  }

  /** `idivRcp32` of bitops.h: the word range divided by x, wrapped to 0 for x = 1. */
  function Rcp(x: nat, n: nat): nat
    requires x >= 1
  {
    Wrap(Pow2(n) / x, n)
  }

  /** The other definition: `uint(-1) / x + isPow2(x)`, with the bit test for powers of two. */
  function RcpByPow2Test(x: nat, n: nat): nat
    requires x >= 1
  {
    Wrap((Pow2(n) - 1) / x + (if BitAnd(x, x - 1) == 0 then 1 else 0), n)
  }

  /** High word of a product. */
  function MulHi(a: nat, b: nat, n: nat): int { a * b / Pow2(n) }

  // ----------------------------------------------------------- arithmetic facts

  /** Cancel a positive factor. */
  lemma Cancel(w: int, d: int, m: int)
    requires w >= 1 && w * d < w * m
    ensures d < m
  {
    if d >= m { MulMono(m, d, w); }
  }

  /** `x / y` and `x % y` in the form the proofs use. */
  lemma DivMod(x: nat, y: nat) returns (q: nat, r: nat)
    requires y >= 1
    ensures x == y * q + r && r < y && q == x / y && r == x % y
  {
    q, r := x / y, x % y;
  }

  lemma QuotientOf(x: nat, y: nat, q: nat)
    requires y >= 1 && y * q <= x < y * q + y
    ensures x / y == q && x % y == x - y * q
  {
    ModOf(x, y, q, x - y * q);
  }

  lemma Products(a: nat, b: nat)
    ensures a * b >= 0 && a * b == b * a
  {}

  lemma QuotientIdentity(w: nat, x: nat, y: nat, rcp: nat, s: nat, q: nat, t: nat)
    requires w == y * rcp + s && x * rcp == w * q + t
    ensures w * (x - y * q) == x * s + y * t
  {
    calc {
      w * (x - y * q);
    == x * w - y * (w * q);
    == x * (y * rcp + s) - y * (x * rcp - t);
    == { assert x * (y * rcp) == y * (x * rcp); }
      x * s + y * t;
    }
  }

  lemma MulMono2(a: nat, b: nat, c: nat, d: nat)
    requires a <= b && c <= d
    ensures a * c <= b * d
  {
    MulMono(a, b, c);
    MulMono(c, d, b);
    Products(b, c);
    Products(b, d);
  }

  lemma QuotientBound(w: nat, x: nat, y: nat, s: nat, t: nat)
    requires s < y && t < w && x < w
    ensures x * s + y * t < w * (2 * y)
  {
    MulMono2(x, w, s, y - 1);
    MulMono2(y, y, t, w);
    var c := w * y;
    Products(w, y);
    assert w * (y - 1) == c - w && w * (2 * y) == 2 * c;
  }

  /** The estimated quotient is too small by at most one. */
  lemma EstimateQuotient(w: nat, x: nat, y: nat, rcp: nat, s: nat, q: nat, t: nat)
    requires w == y * rcp + s && s < y && x * rcp == w * q + t && t < w && x < w
    ensures y * q <= x < y * q + 2 * y
  {
    var d := x - y * q;
    QuotientIdentity(w, x, y, rcp, s, q, t);
    QuotientBound(w, x, y, s, t);
    Products(x, s);
    Products(y, t);
    Cancel(w, d, 2 * y);
    Cancel(w, -1, d);
  }

  lemma ProductIdentity(w: nat, x: nat, a: nat, s: nat, y: nat, b: nat, u: nat, p: nat, q: nat, t: nat)
    requires w == x * a + s && w == y * b + u && p == x * y && a * b == w * q + t
    ensures w * (w - p * q) == p * t + w * (s + u) - s * u
  {
    calc {
      w * (w - p * q);
    == w * w - p * (w * q);
    == w * w - p * (a * b - t);
    == { assert p * (a * b) == (x * a) * (y * b); }
      w * w - (x * a) * (y * b) + p * t;
    == { assert x * a == w - s && y * b == w - u; }
      w * w - (w - s) * (w - u) + p * t;
    == w * (s + u) - s * u + p * t;
    }
  }

  lemma ProductBound(w: nat, s: nat, u: nat, p: nat, t: nat)
    requires u <= w && t < w && p >= 1
    ensures 0 <= p * t + w * (s + u) - s * u < w * (p + s + u)
  {
    var v := w * (s + u);
    assert s * u <= v by {
      MulMono(u, w, s);
      Products(u, s);
      Products(w, u);
      assert v == w * s + w * u;
    }
    assert p * t <= w * p - p by { MulMono(t, w - 1, p); Products(t, p); assert (w - 1) * p == w * p - p; }
    Products(p, t);
    Products(s, u);
    assert w * (p + s + u) == w * p + v;
  }

  /** The product of two reciprocals estimates the reciprocal of the product, short by at most one. */
  lemma EstimateProduct(w: nat, x: nat, a: nat, s: nat, y: nat, b: nat, u: nat, p: nat, q: nat, t: nat)
    requires w == x * a + s && s < x && w == y * b + u && u < y && x <= w && y <= w
    requires p == x * y && a * b == w * q + t && t < w
    ensures p * q <= w < p * q + 2 * p
  {
    var d := w - p * q;
    ProductIdentity(w, x, a, s, y, b, u, p, q, t);
    assert (x - 1) * (y - 1) == p - x - y + 1;
    Products(x - 1, y - 1);
    ProductBound(w, s, u, p, t);
    Cancel(w, d, p + s + u);
    Cancel(w, -1, d);
  }

  // --------------------------------------------------------------- reciprocals

  /** The divisors of the word range are the powers of two. */
  lemma DividesWordRange(x: nat, n: nat, q: nat, r: nat)
    requires 1 <= x < Pow2(n) && Pow2(n) == x * q + r && r < x
    ensures r == 0 <==> IsPow2(x)
  {
    if r == 0 {
      DivisorOfPow2(x, q, n);
    } else if IsPow2(x) {
      var k: nat :| x == Pow2(k);
      if k > n { Pow2Mono(n, k); }
      Pow2Add(k, n - k);
      Products(x, q);
      Products(x, Pow2(n - k));
      ModOf(Pow2(n), x, Pow2(n - k), 0);
      ModOf(Pow2(n), x, q, r);
    }
  }

  lemma QuotientBelow(w: nat, x: nat, q: nat, r: nat)
    requires x >= 1 && w >= 1 && w == x * q + r && r < x
    ensures (w - 1) / x == if r == 0 then q - 1 else q
  {
    if r == 0 {
      assert q == 0 ==> x * q == 0;
      assert x * (q - 1) == x * q - x;
      QuotientOf(w - 1, x, q - 1);
    } else {
      QuotientOf(w - 1, x, q);
    }
  }

  /** Both definitions of the reciprocal are the wrapped quotient 2^n / x. */
  lemma RcpFormsAgree(x: nat, n: nat)
    requires 1 <= x < Pow2(n)
    ensures RcpByPow2Test(x, n) == Rcp(x, n)
  {
    var q, r := DivMod(Pow2(n), x);
    Pow2Test(x);
    DividesWordRange(x, n, q, r);
    QuotientBelow(Pow2(n), x, q, r);
  }

  /** For x >= 2 the quotient already fits the word. */
  lemma RcpOfLarge(x: nat, n: nat)
    requires 2 <= x < Pow2(n)
    ensures Rcp(x, n) == Pow2(n) / x >= 1
  {
    var w := Pow2(n);
    var q, r := DivMod(w, x);
    assert q == 0 ==> x * q == 0;
    assert 2 * q <= x * q by { MulMono(2, x, q); }
    ModOf(q, w, 0, q);
  }

  lemma RcpOfOne(n: nat)
    ensures Rcp(1, n) == 0
  {
    ModOf(Pow2(n), Pow2(n), 1, 0);
  }

  // ------------------------------------------------------------- fast division

  lemma WrapOfWord(x: nat, n: nat)
    requires Word(x, n)
    ensures Wrap(x, n) == x
  {
    ModOf(x, Pow2(n), 0, x);
  }

  /** The high word of x times the reciprocal of y is x / y or one less, and nothing wraps. */
  lemma FastEstimate(x: nat, y: nat, n: nat) returns (q: nat)
    requires Word(x, n) && 2 <= y < Pow2(n)
    ensures q == MulHi(x, Rcp(y, n), n) && y * q <= x < y * q + 2 * y
    ensures Wrap(y * q, n) == y * q && Wrap(x - y * q, n) == x - y * q
    ensures Wrap(q, n) == q && (y * q + y <= x ==> Wrap(q + 1, n) == q + 1)
  {
    var w := Pow2(n);
    RcpOfLarge(y, n);
    var rcp, s := DivMod(w, y);
    Products(x, rcp);
    var t;
    q, t := DivMod(x * rcp, w);
    EstimateQuotient(w, x, y, rcp, s, q, t);
    MulMono(2, y, q);
    Products(y, q);
    WrapOfWord(y * q, n);
    WrapOfWord(x - y * q, n);
    WrapOfWord(q, n);
    if y * q + y <= x { WrapOfWord(q + 1, n); }
  }

  /** Correcting an estimate that is short by at most one gives quotient and remainder. */
  lemma Corrected(x: nat, y: nat, q: nat)
    requires y >= 1 && y * q <= x < y * q + 2 * y
    ensures x - y * q < y ==> x / y == q && x % y == x - y * q
    ensures x - y * q >= y ==> x / y == q + 1 && x % y == x - y * q - y
  {
    assert y * (q + 1) == y * q + y;
    if x - y * q < y { QuotientOf(x, y, q); } else { QuotientOf(x, y, q + 1); }
  }

  lemma DivideByOne(x: nat, n: nat)
    requires Word(x, n)
    ensures x / 1 == x && x % 1 == 0 && Wrap(x - Wrap(1 * x, n), n) == 0
  {
    WrapOfWord(x, n);
    WrapOfWord(0, n);
  }

  /** `idivmodFast32/64` of bitops.h. */
  method IDivModFast(x: nat, y: nat, yrcp: nat, n: nat) returns (quo: nat, rem: nat)
    requires Word(x, n) && 1 <= y < Pow2(n) && yrcp == Rcp(y, n)
    ensures quo == x / y && rem == x % y
  {
    quo, rem := x, 0;
    if y == 1 { RcpOfOne(n); DivideByOne(x, n); } else { RcpOfLarge(y, n); }
    if yrcp != 0 {
      ghost var q := FastEstimate(x, y, n);
      Corrected(x, y, q);
      quo := MulHi(x, yrcp, n);
      rem := Wrap(x - Wrap(y * quo, n), n);
      if rem >= y {
        quo := Wrap(quo + 1, n);
        rem := rem - y;
      }
    }
  }

  /** `idivmodFast32/64` of nccl_device/utility.h, with the reciprocal that header computes. */
  method IDivModFastDevice(x: nat, y: nat, yrcp: nat, n: nat) returns (quo: nat, rem: nat)
    requires Word(x, n) && 1 <= y < Pow2(n) && yrcp == RcpByPow2Test(y, n)
    ensures quo == x / y && rem == x % y
  {
    RcpFormsAgree(y, n);
    if y == 1 {
      RcpOfOne(n);
      DivideByOne(x, n);
    } else {
      RcpOfLarge(y, n);
      ghost var q := FastEstimate(x, y, n);
      Corrected(x, y, q);
    }
    quo := if yrcp == 0 then x else MulHi(x, yrcp, n);
    rem := Wrap(x - Wrap(y * quo, n), n);
    if rem >= y {
      quo := Wrap(quo + 1, n);
      rem := rem - y;
    }
  }

  // ------------------------------------------------------- composed reciprocals

  /** What the high word of two reciprocals says about the reciprocal of the product. */
  lemma ProductEstimate(x: nat, y: nat, p: nat, n: nat) returns (q: nat)
    requires x >= 2 && y >= 2 && p == x * y < Pow2(n)
    ensures x < Pow2(n) && y < Pow2(n) && p >= 4
    ensures q == MulHi(Rcp(x, n), Rcp(y, n), n) && p * q <= Pow2(n) < p * q + 2 * p
    ensures Wrap(q, n) == q < Pow2(n) - 1
  {
    var w := Pow2(n);
    assert p >= 2 * y by { MulMono(2, x, y); }
    assert p >= 2 * x by { MulMono(2, y, x); Products(x, y); }
    RcpOfLarge(x, n);
    RcpOfLarge(y, n);
    var a, s := DivMod(w, x);
    var b, u := DivMod(w, y);
    Products(a, b);
    var t;
    q, t := DivMod(a * b, w);
    EstimateProduct(w, x, a, s, y, b, u, p, q, t);
    MulMono(4, p, q);
    WrapOfWord(q, n);
  }

  /** The wrapped remainder `0 - x * y * rcp` tells whether the estimate is short by one. */
  lemma ProductRemainder(p: nat, q: nat, n: nat)
    requires 2 <= p < Pow2(n) && q >= 1 && p * q <= Pow2(n) < p * q + 2 * p
    ensures Rcp(p, n) == if p <= Wrap(0 - Wrap(p * q, n), n) then q + 1 else q
  {
    var w := Pow2(n);
    RcpOfLarge(p, n);
    Products(p, q);
    assert p * q >= p by { MulMono(1, q, p); Products(p, q); }
    if p * q == w {
      ModOf(w, w, 1, 0);
      WrapOfWord(0, n);
      QuotientOf(w, p, q);
    } else {
      WrapOfWord(p * q, n);
      ModOf(0 - p * q, w, -1, w - p * q);
      Corrected(w, p, q);
    }
  }

  /**
    `imulRcp32/64`: the reciprocal of x * y from those of x and y. Exact for every product up to
    half the word range; beyond that, exact if and only if the product of the two reciprocals
    reaches the next word.
   */
  method IMulRcp(x: nat, xrcp: nat, y: nat, yrcp: nat, n: nat) returns (rcp: nat)
    requires x >= 1 && y >= 1 && x * y < Pow2(n)
    requires x < Pow2(n) && xrcp == Rcp(x, n) && y < Pow2(n) && yrcp == Rcp(y, n)
    ensures x * y >= 1
    ensures 2 * (x * y) <= Pow2(n) ==> rcp == Rcp(x * y, n)
    ensures rcp == Rcp(x * y, n) <==> x == 1 || y == 1 || MulHi(xrcp, yrcp, n) >= 1
  {
    assert x * y >= 1 by { MulMono(1, x, y); }
    if x == 1 { RcpOfOne(n); } else { RcpOfLarge(x, n); }
    if y == 1 { RcpOfOne(n); } else { RcpOfLarge(y, n); }
    if xrcp == 0 { return yrcp; }
    if yrcp == 0 { return xrcp; }
    var p := Wrap(x * y, n);
    WrapOfWord(x * y, n);
    ghost var q := ProductEstimate(x, y, p, n);
    rcp := MulHi(xrcp, yrcp, n);
    var rem := Wrap(0 - Wrap(p * rcp, n), n);
    RcpOfLarge(p, n);
    if q >= 1 {
      ProductRemainder(p, q, n);
      WrapOfWord(q + 1, n);
    } else {
      assert p * q == 0;
      WrapOfWord(0, n);
    }
    if p <= rem { rcp := Wrap(rcp + 1, n); }
  }

  lemma Pow2Of32()
    ensures Pow2(32) == 0x1_0000_0000
  {
    assert Pow2(8) == 256;
    Pow2Add(8, 8);
    Pow2Add(16, 16);
  }

  /** 3 * 1431655765 = 2^32 - 1, above half the range. */
  lemma HighProductCanBeZero()
    ensures 3 * 1431655765 < Pow2(32) && MulHi(Rcp(3, 32), Rcp(1431655765, 32), 32) == 0
  {
    Pow2Of32();
    assert Rcp(3, 32) == 1431655765 && Rcp(1431655765, 32) == 3;
  }

  /** So above half the range composition can fail. */
  method ComposedReciprocalCanFail() returns (rcp: nat)
    ensures rcp != Rcp(3 * 1431655765, 32)
  {
    HighProductCanBeZero();
    Pow2Of32();
    rcp := IMulRcp(3, Rcp(3, 32), 1431655765, Rcp(1431655765, 32), 32);
  }
}
