/** Powers of two and bit masks over unbounded naturals, as `net/include/bitops.h` uses them. */
module Bits {
  function Pow2(n: nat): (p: nat)
    ensures p >= 1
  {
    if n == 0 then 1 else 2 * Pow2(n - 1)
  }

  lemma {:induction false} Pow2Add(a: nat, b: nat)
    ensures Pow2(a + b) == Pow2(a) * Pow2(b)
  {
    if a > 0 { Pow2Add(a - 1, b); }
  }

  lemma {:induction false} Pow2Mono(a: nat, b: nat)
    requires a <= b
    ensures Pow2(a) <= Pow2(b)
    ensures a < b ==> 2 * Pow2(a) <= Pow2(b)
  {
    if a < b { Pow2Mono(a, b - 1); }
  }

  /** Index of the highest set bit. */
  function Log2(x: nat): (l: nat)
    requires x >= 1
    ensures Pow2(l) <= x < 2 * Pow2(l)
  {
    if x == 1 then 0 else 1 + Log2(x / 2)
  }

  lemma {:induction false} Log2Unique(x: nat, l: nat)
    requires Pow2(l) <= x < 2 * Pow2(l)
    ensures Log2(x) == l
  {
    if Log2(x) < l { Pow2Mono(Log2(x), l); }
    if l < Log2(x) { Pow2Mono(l, Log2(x)); }
  }

  /** Bitwise and. */
  function BitAnd(x: nat, y: nat): nat
    decreases x
  {
    if x == 0 then 0 else 2 * BitAnd(x / 2, y / 2) + (if x % 2 == 1 && y % 2 == 1 then 1 else 0)
  }

  lemma {:induction false} AndSelf(x: nat)
    ensures BitAnd(x, x) == x
  {
    if x > 0 { AndSelf(x / 2); }
  }

  lemma {:induction false} AndZero(x: nat)
    ensures BitAnd(x, 0) == 0
  {
    if x > 0 { AndZero(x / 2); }
  }

  lemma AndOdd(x: nat, m: nat)
    ensures BitAnd(x, 2 * m + 1) == 2 * BitAnd(x / 2, m) + x % 2
  {
    assert (2 * m + 1) / 2 == m;
  }

  /** The mask keeps what lies below 2^k and strips a single leading bit 2^k. */
  lemma {:induction false} MaskTop(x: nat, k: nat)
    requires x < 2 * Pow2(k)
    ensures BitAnd(x, Pow2(k) - 1) == if x < Pow2(k) then x else x - Pow2(k)
  {
    if k == 0 {
      AndZero(x);
    } else {
      MaskTop(x / 2, k - 1);
      AndOdd(x, Pow2(k - 1) - 1);
    }
  }

  /** `x << n`. */
  function ShiftLeft(x: nat, n: nat): nat {
    if n == 0 then x else 2 * ShiftLeft(x, n - 1)
  }

  lemma {:induction false} ShiftLeftIsMul(x: nat, n: nat)
    ensures ShiftLeft(x, n) == x * Pow2(n)
  {
    if n > 0 {
      ShiftLeftIsMul(x, n - 1);
      var p := Pow2(n - 1);
      assert 2 * (x * p) == x * (2 * p);
    }
  }

  /** `x >> n`. */
  function ShiftRight(x: nat, n: nat): nat {
    if n == 0 then x else ShiftRight(x / 2, n - 1)
  }

  lemma {:induction false} ShiftRightBounds(x: nat, n: nat)
    ensures ShiftLeft(ShiftRight(x, n), n) <= x < ShiftLeft(ShiftRight(x, n), n) + Pow2(n)
  {
    if n > 0 { ShiftRightBounds(x / 2, n - 1); }
  }

  lemma {:induction false} ShiftRightMono(x: nat, y: nat, n: nat)
    requires x <= y
    ensures ShiftRight(x, n) <= ShiftRight(y, n)
  {
    if n > 0 { ShiftRightMono(x / 2, y / 2, n - 1); }
  }

  /** Shifting the top bit down to position `k` leaves a value between 2^k and 2^(k+1). */
  lemma {:induction false} ShiftRightTop(x: nat, n: nat, k: nat)
    requires Pow2(n + k) <= x < 2 * Pow2(n + k)
    ensures Pow2(k) <= ShiftRight(x, n) < 2 * Pow2(k)
  {
    if n > 0 { ShiftRightTop(x / 2, n - 1, k); }
  }

  lemma {:induction false} ShiftRightBelow(x: nat, n: nat, k: nat)
    requires x < Pow2(n + k)
    ensures ShiftRight(x, n) < Pow2(k)
  {
    if n > 0 { ShiftRightBelow(x / 2, n - 1, k); }
  }

  lemma {:induction false} ShiftRightLeft(m: nat, n: nat)
    ensures ShiftRight(ShiftLeft(m, n), n) == m
  {
    if n > 0 { ShiftRightLeft(m, n - 1); }
  }

  lemma MulMono(a: int, b: int, c: int)
    requires a <= b && c >= 0
    ensures a * c <= b * c
  {}

  /** Quotient and remainder are determined by their defining equation. */
  lemma ModOf(x: int, m: int, q: int, r: int)
    requires x == q * m + r && 0 <= r < m
    ensures x % m == r && x / m == q
  {
    var e := x / m;
    assert x == m * e + x % m;
    assert e - q >= 1 ==> (e - q) * m >= m by { if e - q >= 1 { MulMono(1, e - q, m); } }
    assert e - q <= -1 ==> (e - q) * m <= -m by { if e - q <= -1 { MulMono(e - q, -1, m); } }
    assert (e - q) * m == e * m - q * m;
  }

  lemma ModOfMultiple(x: int, n: int, m: int)
    requires n >= 1 && m >= 1
    ensures n * m >= 1 && x % (n * m) % n == x % n
  {
    MulMono(1, m, n);
    var q := x / (n * m);
    var r := x % (n * m);
    assert x == q * (n * m) + r;
    var q', r' := r / n, r % n;
    assert q * (n * m) == (q * m) * n;
    assert x == (q * m + q') * n + r';
    ModOf(x, n, q * m + q', r');
  }

  lemma ModShift(n: int, base: int, part: int)
    requires n >= 1 && 0 <= part < n
    ensures ((base + part) % n - base) % n == part
  {
    var q := (base + part) / n;
    var r := (base + part) % n;
    assert base + part == q * n + r;
    assert r - base == -q * n + part;
    ModOf(r - base, n, -q, part);
  }

  lemma ModUnshift(n: int, base: int, channel: int)
    requires n >= 1 && 0 <= channel < n
    ensures (base + (channel - base) % n) % n == channel
  {
    var q := (channel - base) / n;
    var t := (channel - base) % n;
    assert channel - base == q * n + t;
    assert base + t == -q * n + channel;
    ModOf(base + t, n, -q, channel);
  }

  /** A mask of `k` low bits and its complement in an n-bit word split a word in two. */
  lemma {:induction false} MaskSplit(x: nat, k: nat)
    ensures BitAnd(x, Pow2(k) - 1) < Pow2(k)
    ensures ShiftLeft(ShiftRight(x, k), k) + BitAnd(x, Pow2(k) - 1) == x
  {
    if k == 0 {
      AndZero(x);
    } else {
      MaskSplit(x / 2, k - 1);
      AndOdd(x, Pow2(k - 1) - 1);
    }
  }

  /** Masking with 2^k - 1 is reduction modulo 2^k. */
  lemma LowMask(x: nat, k: nat)
    ensures BitAnd(x, Pow2(k) - 1) == x % Pow2(k)
  {
    MaskSplit(x, k);
    ShiftLeftIsMul(ShiftRight(x, k), k);
    ModOf(x, Pow2(k), ShiftRight(x, k), BitAnd(x, Pow2(k) - 1));
  }

  lemma AndEven(x: nat, m: nat)
    ensures BitAnd(x, 2 * m) == 2 * BitAnd(x / 2, m)
  {
    assert 2 * m / 2 == m;
  }

  lemma {:induction false} HighMaskShift(x: nat, k: nat, n: nat)
    requires k <= n && x < Pow2(n)
    ensures Pow2(k) <= Pow2(n)
    ensures BitAnd(x, Pow2(n) - Pow2(k)) == ShiftLeft(ShiftRight(x, k), k)
  {
    Pow2Mono(k, n);
    if k == 0 {
      MaskTop(x, n);
    } else {
      HighMaskShift(x / 2, k - 1, n - 1);
      AndEven(x, Pow2(n - 1) - Pow2(k - 1));
    }
  }

  /** Masking with the complement of 2^k - 1 in an n-bit word clears the low k bits. */
  lemma HighMask(x: nat, k: nat, n: nat)
    requires k <= n && x < Pow2(n)
    ensures Pow2(k) <= Pow2(n)
    ensures BitAnd(x, Pow2(n) - Pow2(k)) == x - x % Pow2(k)
  {
    HighMaskShift(x, k, n);
    LowMask(x, k);
    MaskSplit(x, k);
  }

  ghost predicate IsPow2(x: nat) { exists k: nat :: x == Pow2(k) }

  /** The `(x & (x - 1)) == 0` test recognises exactly the powers of two. */
  lemma {:induction false} Pow2Test(x: nat)
    requires x >= 1
    ensures BitAnd(x, x - 1) == 0 <==> IsPow2(x)
  {
    if x % 2 == 1 {
      AndSelf(x / 2);
      assert (x - 1) / 2 == x / 2;
      if x == 1 {
        assert x == Pow2(0);
      } else {
        forall k: nat ensures x != Pow2(k) { assert k > 0 ==> Pow2(k) == 2 * Pow2(k - 1); }
      }
    } else {
      Pow2Test(x / 2);
      assert (x - 1) / 2 == x / 2 - 1;
      if IsPow2(x / 2) {
        var k: nat :| x / 2 == Pow2(k);
        assert x == Pow2(k + 1);
      }
      if IsPow2(x) {
        var k: nat :| x == Pow2(k);
        assert k > 0 && x / 2 == Pow2(k - 1);
      }
    }
  }

  lemma HalfProduct(x: nat, y: nat, m: nat)
    requires x * y == 2 * m && x % 2 == 0
    ensures x / 2 * y == m
  {
    var h := x / 2;
    assert x == 2 * h;
    assert 2 * (h * y) == x * y;
  }

  lemma OddProduct(x: nat, y: nat)
    requires x % 2 == 1 && y % 2 == 1
    ensures x * y % 2 == 1
  {
    var a, b := x / 2, y / 2;
    var m := 2 * (a * b) + a + b;
    assert x == 2 * a + 1 && y == 2 * b + 1;
    assert x * y == 2 * m + 1;
  }

  /** A divisor of a power of two is a power of two. */
  lemma {:induction false} DivisorOfPow2(x: nat, y: nat, n: nat)
    requires x * y == Pow2(n)
    ensures IsPow2(x)
    decreases n
  {
    if n == 0 {
      assert x == 1 by { assert x > 1 && y > 0 ==> x * y > 1; }
      assert x == Pow2(0);
    } else if x % 2 == 0 {
      HalfProduct(x, y, Pow2(n - 1));
      DivisorOfPow2(x / 2, y, n - 1);
      var k: nat :| x / 2 == Pow2(k);
      assert x == Pow2(k + 1);
    } else {
      if y % 2 == 1 { OddProduct(x, y); }
      HalfProduct(y, x, Pow2(n - 1));
      assert y / 2 * x == x * (y / 2);
      DivisorOfPow2(x, y / 2, n - 1);
    }
  }

  /** x ^ y */
  function BitXor(x: nat, y: nat): nat
    decreases x + y
  {
    if x == 0 && y == 0 then 0 else 2 * BitXor(x / 2, y / 2) + (x % 2 + y % 2) % 2
  }

  lemma {:induction false} XorZero(x: nat)
    ensures BitXor(x, 0) == x
  {
    if x > 0 { XorZero(x / 2); }
  }

  lemma {:induction false} XorTwice(x: nat, y: nat)
    ensures BitXor(BitXor(x, y), y) == x
    decreases x + y
  {
    if x + y > 0 {
      XorTwice(x / 2, y / 2);
      var z := BitXor(x, y);
      XorParts(x, y);
      XorParts(z, y);
      BitTwice(x % 2, y % 2);
      assert BitXor(z, y) == 2 * (BitXor(z, y) / 2) + BitXor(z, y) % 2;
    }
  }

  lemma BitTwice(a: nat, b: nat)
    requires a < 2 && b < 2
    ensures ((a + b) % 2 + b) % 2 == a
  {}

  /** Folding the upper half of a word onto the lower one can be undone by doing it again. */
  lemma FoldTwice(k: nat, n: nat)
    requires k < Pow2(n + n)
    ensures var f := BitXor(k, ShiftRight(k, n)); f < Pow2(n + n) && BitXor(f, ShiftRight(f, n)) == k
  {
    var s := ShiftRight(k, n);
    ShiftRightBelow(k, n, n);
    Pow2Mono(n, n + n);
    XorBelow(k, s, n + n);
    XorShift(k, s, n);
    ShiftRightBelow(s, n, 0);
    XorZero(s);
    XorTwice(k, s);
  }

  lemma XorParts(x: nat, y: nat)
    ensures BitXor(x, y) / 2 == BitXor(x / 2, y / 2) && BitXor(x, y) % 2 == (x % 2 + y % 2) % 2
  {}

  lemma {:induction false} XorShift(x: nat, y: nat, n: nat)
    ensures ShiftRight(BitXor(x, y), n) == BitXor(ShiftRight(x, n), ShiftRight(y, n))
  {
    if n > 0 {
      XorParts(x, y);
      XorShift(x / 2, y / 2, n - 1);
    }
  }

  lemma {:induction false} XorBelow(x: nat, y: nat, n: nat)
    requires x < Pow2(n) && y < Pow2(n)
    ensures BitXor(x, y) < Pow2(n)
  {
    if n > 0 { XorBelow(x / 2, y / 2, n - 1); }
  }

  /** `(x + a - 1) & -a` for a power of two `a`: the next multiple of `a`. */
  function AlignUp(x: nat, a: nat): (r: nat)
    requires a >= 1
    ensures x <= r < x + a && r % a == 0
  {
    var y := x + a - 1;
    assert y == y / a * a + y % a;
    ModOf(y - y % a, a, y / a, 0);
    y - y % a
  }

  /** AlignUp is what the mask computes in an n-bit word. */
  lemma AlignUpIsMask(x: nat, k: nat, n: nat)
    requires k <= n && x + Pow2(k) - 1 < Pow2(n)
    ensures Pow2(k) <= Pow2(n)
    ensures AlignUp(x, Pow2(k)) == BitAnd(x + Pow2(k) - 1, Pow2(n) - Pow2(k))
  {
    HighMask(x + Pow2(k) - 1, k, n);
  }
}
