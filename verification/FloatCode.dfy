/** The small floating-point code for sizes in `net/include/bitops.h` (u32fpEncode, u32fpDecode). */
module FloatCode {
  import opened Bits

  /** `31 - clz(x | 1)`. */
  function TopBit(x: nat): nat { if x == 0 then 0 else Log2(x) }

  function Octave(x: nat, bits: nat): nat { if TopBit(x) >= bits then TopBit(x) - bits else 0 }

  /** `bits` mantissa bits below the leading one; values under 2^bits are stored as they are. */
  function Encode(x: nat, bits: nat): nat {
    var mantissa := BitAnd(ShiftRight(x, Octave(x, bits)), Pow2(bits) - 1);
    var exponent := if TopBit(x) >= bits then TopBit(x) - bits + 1 else 0;
    ShiftLeft(exponent, bits) + mantissa
  }

  /** u32fpDecode for three mantissa bits, the width its constant 0x8 is written for. */
  function Decode8(code: nat): nat {
    var exponent := code / 8;
    var mantissa := code % 8 + (if exponent != 0 then 8 else 0);
    ShiftLeft(mantissa, if exponent != 0 then exponent - 1 else 0)
  }

  /** The value shifted into the bottom octave, the step of its code inside the octave. */
  function Step(x: nat, bits: nat): nat { ShiftRight(x, Octave(x, bits)) }

  lemma StepRange(x: nat, bits: nat)
    requires bits >= 1
    ensures Step(x, bits) < 2 * Pow2(bits)
    ensures TopBit(x) >= bits <==> Pow2(bits) <= Step(x, bits)
    ensures TopBit(x) < bits ==> Step(x, bits) == x
  {
    if TopBit(x) >= bits {
      ShiftRightTop(x, Octave(x, bits), bits);
    } else {
      Pow2Mono(TopBit(x), bits);
    }
  }

  lemma {:induction false} ShiftLeftAdd(a: nat, b: nat, n: nat)
    ensures ShiftLeft(a + b, n) == ShiftLeft(a, n) + ShiftLeft(b, n)
  {
    if n > 0 { ShiftLeftAdd(a, b, n - 1); }
  }

  lemma {:induction false} ShiftLeftMono(a: nat, b: nat, n: nat)
    requires a <= b
    ensures ShiftLeft(a, n) <= ShiftLeft(b, n)
  {
    if n > 0 { ShiftLeftMono(a, b, n - 1); }
  }

  lemma {:induction false} ShiftLeftUnits(n: nat)
    ensures ShiftLeft(0, n) == 0 && ShiftLeft(1, n) == Pow2(n)
  {
    if n > 0 { ShiftLeftUnits(n - 1); }
  }

  /** The code in one formula: full octaves first, then the step inside the octave. */
  lemma EncodeForm(x: nat, bits: nat)
    requires bits >= 1
    ensures Encode(x, bits) == ShiftLeft(Octave(x, bits), bits) + Step(x, bits)
  {
    StepRange(x, bits);
    MaskTop(Step(x, bits), bits);
    ShiftLeftUnits(bits);
    ShiftLeftAdd(Octave(x, bits), 1, bits);
  }

  lemma TopBitMono(x: nat, y: nat)
    requires x <= y
    ensures TopBit(x) <= TopBit(y)
  {
    if x > 0 && TopBit(y) < TopBit(x) { Pow2Mono(TopBit(y), TopBit(x)); }
  }

  /** Two values in different octaves have different codes. */
  lemma EncodeAcrossOctaves(x: nat, y: nat, bits: nat)
    requires bits >= 1 && Octave(x, bits) < Octave(y, bits)
    ensures Encode(x, bits) < Encode(y, bits)
  {
    EncodeForm(x, bits);
    EncodeForm(y, bits);
    StepRange(x, bits);
    StepRange(y, bits);
    ShiftLeftAdd(Octave(x, bits), 1, bits);
    ShiftLeftUnits(bits);
    ShiftLeftMono(Octave(x, bits) + 1, Octave(y, bits), bits);
  }

  /** The code respects the order of the values. */
  lemma EncodeMonotone(x: nat, y: nat, bits: nat)
    requires bits >= 1 && x <= y
    ensures Encode(x, bits) <= Encode(y, bits)
  {
    TopBitMono(x, y);
    if Octave(x, bits) < Octave(y, bits) {
      EncodeAcrossOctaves(x, y, bits);
    } else {
      EncodeForm(x, bits);
      EncodeForm(y, bits);
      ShiftRightMono(x, y, Octave(x, bits));
    }
  }

  /** Equal codes mean the same octave and the same step in it. */
  lemma SameCodeSameStep(x: nat, y: nat, bits: nat)
    requires bits >= 1 && x < y && Encode(x, bits) == Encode(y, bits)
    ensures Octave(x, bits) == Octave(y, bits) > 0 && Step(x, bits) == Step(y, bits)
  {
    TopBitMono(x, y);
    if Octave(x, bits) < Octave(y, bits) { EncodeAcrossOctaves(x, y, bits); }
    EncodeForm(x, bits);
    EncodeForm(y, bits);
  }

  lemma CloseValues(x: nat, y: nat, p: nat, b: nat)
    requires x < y < x + p && p * b <= x && b >= 1
    ensures b * y < (b + 1) * x
  {
    MulMono(y - x, p - 1, b);
    assert (p - 1) * b == p * b - b && (y - x) * b == b * y - b * x && (b + 1) * x == b * x + x;
  }

  /** Values sharing a code differ by less than one part in 2^bits of the smaller. */
  lemma SameCodeIsClose(x: nat, y: nat, bits: nat)
    requires bits >= 1 && x < y && Encode(x, bits) == Encode(y, bits)
    ensures Pow2(bits) * y < (Pow2(bits) + 1) * x
  {
    SameCodeSameStep(x, y, bits);
    var n := Octave(x, bits);
    ShiftRightBounds(x, n);
    ShiftRightBounds(y, n);
    Pow2Add(n, bits);
    CloseValues(x, y, Pow2(n), Pow2(bits));
  }

  /** Every code of a value with at most `top` bits. */
  lemma EncodeBelow(x: nat, bits: nat, top: nat)
    requires 1 <= bits <= top && x < Pow2(top)
    ensures Encode(x, bits) < ShiftLeft(top - bits + 1, bits)
  {
    if x > 0 && TopBit(x) >= top { Pow2Mono(top, TopBit(x)); }
    EncodeForm(x, bits);
    StepRange(x, bits);
    ShiftLeftUnits(bits);
    ShiftLeftAdd(Octave(x, bits), 1, bits);
    ShiftLeftAdd(Octave(x, bits) + 1, 1, bits);
    if TopBit(x) >= bits { ShiftLeftMono(Octave(x, bits) + 2, top - bits + 1, bits); }
    else { ShiftLeftMono(1, top - bits + 1, bits); }
  }

  /** A code with a non-zero exponent decodes to its shifted mantissa. */
  lemma DecodeStep(octave: nat, step: nat)
    requires 8 <= step < 16
    ensures Decode8(octave * 8 + step) == ShiftLeft(step, octave)
  {}

  lemma {:induction false} EightTimes(n: nat)
    ensures ShiftLeft(n, 3) == 8 * n && Pow2(n + 3) == 8 * Pow2(n) && Pow2(3) == 8
  {
    Pow2Add(n, 3);
    assert ShiftLeft(n, 1) == 2 * n && ShiftLeft(n, 2) == 4 * n;
    assert Pow2(1) == 2 && Pow2(2) == 4;
  }

  /** Decoding a code gives the value with all but its top four bits cleared. */
  lemma DecodeEncode(x: nat)
    ensures Decode8(Encode(x, 3)) <= x
    ensures 8 * (x - Decode8(Encode(x, 3))) <= x
    ensures x < 16 ==> Decode8(Encode(x, 3)) == x
  {
    var n := Octave(x, 3);
    EncodeForm(x, 3);
    StepRange(x, 3);
    EightTimes(n);
    if TopBit(x) >= 3 {
      DecodeStep(n, Step(x, 3));
      ShiftRightBounds(x, n);
      Pow2Mono(0, n);
      if n > 0 { Pow2Mono(1, n); }
    }
  }

  lemma Pow2Of28()
    ensures Pow2(28) == 0x1000_0000
  {
    assert Pow2(7) == 128;
    Pow2Add(7, 7);
    Pow2Add(14, 14);
  }

  /** The values of octave `n` have their top bit at `n + 3`. */
  lemma OctaveValue(step: nat, n: nat)
    requires 8 <= step < 16 && n <= 28
    ensures var d := ShiftLeft(step, n); 0 < d <= 0xf000_0000 && TopBit(d) == n + 3
  {
    EightTimes(n);
    ShiftLeftMono(8, step, n);
    ShiftLeftMono(step, 15, n);
    ShiftLeftIsMul(8, n);
    ShiftLeftIsMul(15, n);
    Log2Unique(ShiftLeft(step, n), n + 3);
    Pow2Mono(n, 28);
    Pow2Of28();
  }

  /** Every code below 240 is the code of the value it decodes to, and that value fits 32 bits. */
  lemma EncodeDecode(code: nat)
    requires code < 240
    ensures Decode8(code) <= 0xf000_0000 && Encode(Decode8(code), 3) == code
  {
    var d := Decode8(code);
    EncodeForm(d, 3);
    EightTimes(Octave(d, 3));
    if code < 8 {
      if d > 0 && TopBit(d) >= 3 { Pow2Mono(3, TopBit(d)); }
    } else {
      var n, step := code / 8 - 1, code % 8 + 8;
      OctaveValue(step, n);
      ShiftRightLeft(step, n);
    }
  }
}
