/**
  PCI bus ids as text, `net/misc/utils.cc`: printing as domain:bus:device.function and parsing back.
 */
module BusId {
  import opened Common
  import opened Bits

  const MAX_DIGITS := 16

  /** 16^n */
  function Pow16(n: nat): (p: nat)
    ensures p >= 1
  {
    if n == 0 then 1 else 16 * Pow16(n - 1)
  }

  const INT64_MAX: int := 0x7fff_ffff_ffff_ffff

  type Int64 = x: int | -0x8000_0000_0000_0000 <= x <= INT64_MAX

  predicate IsHex(c: char) { '0' <= c <= '9' || 'A' <= c <= 'F' || 'a' <= c <= 'f' }

  function DigitValue(c: char): (v: nat)
    requires IsHex(c)
    ensures v < 16
  {
    if c <= '9' then c as nat - '0' as nat
    else if c <= 'F' then c as nat - 'A' as nat + 10
    else c as nat - 'a' as nat + 10
  }

  function Digit(v: nat): (c: char)
    requires v < 16
    ensures IsHex(c) && DigitValue(c) == v
  {
    if v < 10 then (v + '0' as nat) as char else (v - 10 + 'a' as nat) as char
  }

  predicate AllHex(s: string) { forall i :: 0 <= i < |s| ==> IsHex(s[i]) }

  /** What strtol reads in base 16, before saturation. */
  function Value(s: string): nat
    requires AllHex(s)
  {
    if s == [] then 0 else 16 * Value(s[..|s| - 1]) + DigitValue(s[|s| - 1])
  }

  function StrToL(s: string): Int64
    requires AllHex(s)
  {
    Min(Value(s), INT64_MAX)
  }

  /** %0*lx: lower-case, at least `width` digits. */
  function PrintHex(x: nat, width: nat): (s: string)
    ensures AllHex(s) && Value(s) == x && |s| >= width
    decreases x, width
  {
    if x == 0 && width == 0 then []
    else
      var s := PrintHex(x / 16, if width == 0 then 0 else width - 1);
      s + [Digit(x % 16)]
  }

  /** A number of n hex digits or fewer is printed in the width asked for or in n digits. */
  lemma {:induction false} PrintedLength(x: nat, width: nat, n: nat)
    requires x < Pow16(n)
    ensures |PrintHex(x, width)| <= Max(width, n)
    decreases x, width
  {
    if x != 0 || width != 0 {
      if n == 0 { PrintedLength(x / 16, if width == 0 then 0 else width - 1, 0); }
      else { PrintedLength(x / 16, if width == 0 then 0 else width - 1, n - 1); }
    }
  }

  /** A number with more than n - 1 digits is printed in at least n. */
  lemma {:induction false} PrintedAtLeast(x: nat, width: nat, n: nat)
    requires n == 0 || x >= Pow16(n - 1)
    ensures |PrintHex(x, width)| >= n
    decreases n
  {
    if n > 1 { PrintedAtLeast(x / 16, if width == 0 then 0 else width - 1, n - 1); }
  }

  function Text(dom: string, bus: string, dev: string, fn: string): string {
    dom + ([':'] + (bus + ([':'] + (dev + (['.'] + fn)))))
  }

  /** int64ToBusId; shifts and masks are those of a two's complement word. */
  function Int64ToBusId(id: Int64): string {
    var domain := (id / 0x10_0000) % 0x1_0000_0000_0000_0000;
    Text(PrintHex(domain, 4), PrintHex(id / 0x1000 % 0x100, 2), PrintHex(id / 0x10 % 0x100, 2), PrintHex(id % 0x10, 1))
  }

  predicate Separator(c: char) { c == '.' || c == ':' }

  /** The digits the parser collects: up to `room` of them, separators skipped, to the first other character. */
  function Digits(s: string, room: nat): (d: string)
    ensures AllHex(d) && |d| <= room
  {
    if s == [] || room == 0 then []
    else if Separator(s[0]) then Digits(s[1..], room)
    else if IsHex(s[0]) then [s[0]] + Digits(s[1..], room - 1)
    else []
  }

  /** busIdToInt64 */
  method BusIdToInt64(busId: string) returns (id: Int64)
    ensures id == StrToL(Digits(busId, MAX_DIGITS))
  {
    var hexStr := new char[MAX_DIGITS + 1];
    var hexOffset, i := 0, 0;
    while hexOffset < MAX_DIGITS && i < |busId|
      invariant 0 <= hexOffset <= MAX_DIGITS && 0 <= i <= |busId|
      invariant hexStr[..hexOffset] + Digits(busId[i..], MAX_DIGITS - hexOffset) == Digits(busId, MAX_DIGITS)
      decreases |busId| - i
    {
      var c := busId[i];
      assert busId[i..][0] == c && busId[i..][1..] == busId[i + 1..];
      if !Separator(c) {
        if IsHex(c) {
          ghost var before := hexStr[..hexOffset];
          hexStr[hexOffset] := c;
          hexOffset := hexOffset + 1;
          assert hexStr[..hexOffset] == before + [c];
        } else {
          break;
        }
      }
      i := i + 1;
    }
    assert Digits(busId[i..], MAX_DIGITS - hexOffset) == [];
    assert hexStr[..hexOffset] == Digits(busId, MAX_DIGITS);
    id := StrToL(hexStr[..hexOffset]);
  }

  // ------------------------------------------------------------------- round trip

  lemma {:induction false} DigitsOfHex(a: string, b: string, room: nat)
    requires AllHex(a) && |a| <= room
    ensures Digits(a + b, room) == a + Digits(b, room - |a|)
  {
    if a == [] {
      assert a + b == b;
    } else {
      DigitsOfHex(a[1..], b, room - 1);
      assert (a + b)[1..] == a[1..] + b && a == [a[0]] + a[1..];
    }
  }

  /** v followed by n hex digits of zero */
  function Shifted(v: nat, n: nat): nat { if n == 0 then v else 16 * Shifted(v, n - 1) }

  lemma {:induction false} ValueOfConcat(a: string, b: string)
    requires AllHex(a) && AllHex(b)
    ensures Value(a + b) == Shifted(Value(a), |b|) + Value(b)
  {
    if b == [] {
      assert a + b == a;
    } else {
      ValueOfConcat(a, b[..|b| - 1]);
      assert (a + b)[..|a + b| - 1] == a + b[..|b| - 1];
    }
  }

  /** A field, a separator and the rest. */
  lemma FieldThen(a: string, c: char, b: string, room: nat)
    requires AllHex(a) && |a| <= room && Separator(c)
    ensures Digits(a + ([c] + b), room) == a + Digits(b, room - |a|)
  {
    DigitsOfHex(a, [c] + b, room);
    assert ([c] + b)[1..] == b;
  }

  /** The digits of the four fields follow one another. */
  lemma DigitsOfFields(dom: string, bus: string, dev: string, fn: string, room: nat)
    requires AllHex(dom) && AllHex(bus) && AllHex(dev) && AllHex(fn) && |dom| + |bus| + |dev| + |fn| <= room
    ensures Digits(Text(dom, bus, dev, fn), room) == dom + (bus + (dev + fn))
  {
    FieldThen(dom, ':', bus + ([':'] + (dev + (['.'] + fn))), room);
    FieldThen(bus, ':', dev + (['.'] + fn), room - |dom|);
    FieldThen(dev, '.', fn, room - |dom| - |bus|);
    DigitsOfHex(fn, [], room - |dom| - |bus| - |dev|);
    assert fn + [] == fn;
  }

  lemma ValueOfFields(dom: string, bus: string, dev: string, fn: string)
    requires AllHex(dom) && AllHex(bus) && AllHex(dev) && AllHex(fn) && |bus| == 2 && |dev| == 2 && |fn| == 1
    ensures Value(dom + (bus + (dev + fn)))
        == Value(dom) * 0x10_0000 + Value(bus) * 0x1000 + Value(dev) * 0x10 + Value(fn)
  {
    ValueOfConcat(dev, fn);
    ValueOfConcat(bus, dev + fn);
    ValueOfConcat(dom, bus + (dev + fn));
    assert Shifted(Value(dev), 1) == 16 * Value(dev);
    ShiftedBy3(Value(bus));
    ShiftedBy5(Value(dom));
  }

  lemma ShiftedBy3(v: nat) ensures Shifted(v, 3) == 0x1000 * v {
    assert Shifted(v, 1) == 16 * v;
    assert Shifted(v, 2) == 256 * v;
  }

  lemma ShiftedBy5(v: nat) ensures Shifted(v, 5) == 0x10_0000 * v {
    ShiftedBy3(v);
    assert Shifted(v, 4) == 0x1_0000 * v;
  }

  lemma Pow16s()
    ensures Pow16(1) == 0x10 && Pow16(2) == 0x100 && Pow16(4) == 0x1_0000
    ensures Pow16(11) == 0x1000_0000_0000 && Pow16(15) == 0x1000_0000_0000_0000 && Pow16(16) == 0x1_0000_0000_0000_0000
  {
    assert Pow16(2) == 0x100;
    assert Pow16(4) == 0x1_0000;
    assert Pow16(8) == 0x1_0000_0000;
    assert Pow16(11) == 0x1000_0000_0000;
    assert Pow16(15) == 0x1000_0000_0000_0000;
  }

  lemma Fields(a: nat, b: nat, c: nat, d: nat)
    requires a < 0x1000_0000_0000 && b < 0x100 && c < 0x100 && d < 0x10
    ensures |PrintHex(a, 4)| <= 11 && |PrintHex(b, 2)| == 2 && |PrintHex(c, 2)| == 2 && |PrintHex(d, 1)| == 1
  {
    Pow16s();
    PrintedLength(a, 4, 11);
    PrintedLength(b, 2, 2);
    PrintedLength(c, 2, 2);
    PrintedLength(d, 1, 1);
  }

  lemma FieldsGiveBack(id: Int64, dom: string, bus: string, dev: string, fn: string, room: nat)
    requires AllHex(dom) && AllHex(bus) && AllHex(dev) && AllHex(fn)
    requires id == Value(dom) * 0x10_0000 + Value(bus) * 0x1000 + Value(dev) * 0x10 + Value(fn)
    requires |bus| == 2 && |dev| == 2 && |fn| == 1 && |dom| + 5 <= room
    ensures StrToL(Digits(Text(dom, bus, dev, fn), room)) == id
  {
    DigitsOfFields(dom, bus, dev, fn, room);
    ValueOfFields(dom, bus, dev, fn);
  }

  /** Parsing what was printed gives the id back, for every id that is not negative. */
  lemma RoundTrip(id: Int64)
    requires id >= 0
    ensures StrToL(Digits(Int64ToBusId(id), MAX_DIGITS)) == id
  {
    var a, b, c, d := id / 0x10_0000 % 0x1_0000_0000_0000_0000, id / 0x1000 % 0x100, id / 0x10 % 0x100, id % 0x10;
    Recompose(id);
    Fields(a, b, c, d);
    FieldsGiveBack(id, PrintHex(a, 4), PrintHex(b, 2), PrintHex(c, 2), PrintHex(d, 1), MAX_DIGITS);
  }

  lemma Recompose(id: Int64)
    requires id >= 0
    ensures var a := id / 0x10_0000 % 0x1_0000_0000_0000_0000;
      && a < 0x1000_0000_0000
      && id == a * 0x10_0000 + id / 0x1000 % 0x100 * 0x1000 + id / 0x10 % 0x100 * 0x10 + id % 0x10
  {
    var x := id / 0x10;
    var y := x / 0x100;
    var z := y / 0x100;
    ModOf(id, 0x1000, y, x % 0x100 * 0x10 + id % 0x10);
    ModOf(id, 0x10_0000, z, y % 0x100 * 0x1000 + x % 0x100 * 0x10 + id % 0x10);
  }

  /** A first field that fills the parser's buffer is all it sees. */
  lemma FullFirstField(dom: string, bus: string, dev: string, fn: string)
    requires AllHex(dom)
    ensures Digits(Text(dom, bus, dev, fn), |dom|) == dom
  {
    DigitsOfHex(dom, [':'] + (bus + ([':'] + (dev + (['.'] + fn)))), |dom|);
    assert dom + [] == dom;
  }

  /** A negative id fills all 16 digits with its domain and comes back as the largest number. */
  lemma NegativeIsLost(id: Int64)
    requires id < 0
    ensures StrToL(Digits(Int64ToBusId(id), MAX_DIGITS)) == INT64_MAX
  {
    var domain := (id / 0x10_0000) % 0x1_0000_0000_0000_0000;
    assert domain >= 0xffff_f800_0000_0000;
    HugeDomain(domain);
    FullFirstField(PrintHex(domain, 4), PrintHex(id / 0x1000 % 0x100, 2), PrintHex(id / 0x10 % 0x100, 2),
                   PrintHex(id % 0x10, 1));
  }

  lemma HugeDomain(domain: nat)
    requires 0xffff_f800_0000_0000 <= domain < 0x1_0000_0000_0000_0000
    ensures |PrintHex(domain, 4)| == MAX_DIGITS
  {
    Pow16s();
    PrintedLength(domain, 4, 16);
    PrintedAtLeast(domain, 4, 16);
  }

  /** Printing and parsing undo each other exactly for the ids that are not negative. */
  lemma RoundTripIff(id: Int64)
    ensures StrToL(Digits(Int64ToBusId(id), MAX_DIGITS)) == id <==> id >= 0
  {
    if id >= 0 { RoundTrip(id); } else { NegativeIsLost(id); }
  }
}
