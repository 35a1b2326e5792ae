/**
  How `net/include/device.h` divides work among channels: equal aligned parts for a point-to-point
  transfer, and a low, a high and equal middle channels for a collective.
 */
module Partition {
  import opened Common
  import opened Bits

  const PAGE := 0x1000   // 4 << 10
  const INT_BITS := 32

  /** The i-th of `m` consecutive ranges is [bound(i), bound(i + 1)). */
  ghost predicate Rising(bound: nat -> nat, m: nat) {
    forall i: nat, j: nat :: i <= j <= m ==> bound(i) <= bound(j)
  }

  ghost predicate In(bound: nat -> nat, i: nat, e: nat) { bound(i) <= e < bound(i + 1) }

  /** Rising bounds tile: every element is in exactly one range. */
  lemma {:induction false} Locate(bound: nat -> nat, m: nat, e: nat) returns (i: nat)
    requires Rising(bound, m) && bound(0) <= e < bound(m)
    ensures i < m && In(bound, i, e)
    ensures forall j: nat :: j < m && In(bound, j, e) ==> j == i
    decreases m
  {
    if bound(m - 1) <= e {
      i := m - 1;
      forall j: nat | j < i ensures !In(bound, j, e) { assert bound(j + 1) <= bound(i); }
    } else {
      i := Locate(bound, m - 1, e);
    }
  }

  // ------------------------------------------------------------------- point-to-point

  function DivUp(x: nat, y: nat): (r: nat)
    requires y >= 1
    ensures r * y >= x
  {
    var q := (x + y - 1) / y;
    assert x + y - 1 == q * y + (x + y - 1) % y;
    q
  }

  function PartBytes(nParts: nat, bytes: nat): (r: nat)
    requires nParts >= 1
    ensures r % PAGE == 0
  {
    AlignUp(DivUp(bytes, nParts), PAGE)
  }

  function PartBound(nParts: nat, part: nat, bytes: nat): nat
    requires nParts >= 1
  {
    Min(part * PartBytes(nParts, bytes), bytes)
  }

  /** ncclP2pPartBounds */
  method P2pPartBounds(nParts: nat, part: nat, bytes: nat) returns (partBeg: nat, partEnd: nat)
    requires nParts >= 1
    ensures partBeg == PartBound(nParts, part, bytes) && partEnd == PartBound(nParts, part + 1, bytes)
    ensures partBeg <= partEnd <= bytes
    ensures partBeg < partEnd ==> partBeg % PAGE == 0
  {
    var partBytes := AlignUp(DivUp(bytes, nParts), PAGE);
    partBeg := Min((part + 0) * partBytes, bytes);
    partEnd := Min((part + 1) * partBytes, bytes);
    MulMono(part, part + 1, partBytes);
    if partBeg < partEnd { MultipleOf(part, partBytes); }
  }

  lemma MultipleOf(k: nat, n: nat)
    requires n % PAGE == 0
    ensures k * n % PAGE == 0
  {
    var q := n / PAGE;
    assert k * n == k * q * PAGE;
    ModOf(k * n, PAGE, k * q, 0);
  }

  lemma PartsRise(nParts: nat, bytes: nat)
    requires nParts >= 1
    ensures Rising((i: nat) => PartBound(nParts, i, bytes), nParts)
    ensures PartBound(nParts, 0, bytes) == 0 && PartBound(nParts, nParts, bytes) == bytes
  {
    var b := PartBytes(nParts, bytes);
    forall i: nat, j: nat | i <= j <= nParts ensures PartBound(nParts, i, bytes) <= PartBound(nParts, j, bytes) {
      MulMono(i, j, b);
    }
    MulMono(DivUp(bytes, nParts), b, nParts);
  }

  /** No smaller multiple of the page size would do: the parts are as even as alignment allows. */
  lemma PartIsLeast(nParts: nat, bytes: nat, size: nat)
    requires nParts >= 1
    ensures PartBytes(nParts, bytes) * nParts >= bytes
    ensures size % PAGE == 0 && size * nParts >= bytes ==> size >= PartBytes(nParts, bytes)
  {
    var even, r := DivUp(bytes, nParts), PartBytes(nParts, bytes);
    MulMono(even, r, nParts);
    if size % PAGE == 0 && size * nParts >= bytes {
      DivUpIsLeast(bytes, nParts, size);
      if size < r { LessByAPage(size, r); }
    }
  }

  lemma DivUpIsLeast(x: nat, y: nat, z: nat)
    requires y >= 1 && z * y >= x
    ensures z >= DivUp(x, y)
  {
    var q := DivUp(x, y);
    assert q * y <= x + y - 1;
    assert (z + 1) * y == z * y + y;
    if z < q { MulMono(z + 1, q, y); }
  }

  lemma LessByAPage(a: nat, b: nat)
    requires a % PAGE == 0 && b % PAGE == 0 && a < b
    ensures a + PAGE <= b
  {}

  /** Every part is full but the last with any bytes, and none is larger. */
  lemma PartSize(nParts: nat, part: nat, bytes: nat)
    requires nParts >= 1
    ensures var size := PartBound(nParts, part + 1, bytes) - PartBound(nParts, part, bytes);
      && 0 <= size <= PartBytes(nParts, bytes)
      && (PartBound(nParts, part + 1, bytes) < bytes ==> size == PartBytes(nParts, bytes))
  {
    var b := PartBytes(nParts, bytes);
    assert (part + 1) * b == part * b + b;
  }

  /** (base + part) & (nP2pChannels - 1) */
  function ChannelForPart(nP2pChannels: nat, base: nat, part: nat): nat
    requires nP2pChannels >= 1
  {
    BitAnd(base + part, nP2pChannels - 1)
  }

  /** (channel - base) & (nP2pChannels - 1), the difference in two's complement. */
  function ChannelToPart(nP2pChannels: nat, base: nat, channel: nat): nat
    requires nP2pChannels >= 1
  {
    BitAnd((channel - base) % Pow2(INT_BITS), nP2pChannels - 1)
  }

  lemma ForPartIsMod(k: nat, n: nat, base: nat, part: nat)
    requires n == Pow2(k)
    ensures ChannelForPart(n, base, part) == (base + part) % n
  {
    LowMask(base + part, k);
  }

  lemma ToPartIsMod(k: nat, n: nat, base: nat, channel: nat)
    requires n == Pow2(k) && k <= INT_BITS
    ensures ChannelToPart(n, base, channel) == (channel - base) % n
  {
    WrappedMask(channel - base, k, INT_BITS);
  }

  /** Masking a two's complement word is reduction modulo 2^k, of negative numbers too. */
  lemma WrappedMask(x: int, k: nat, bits: nat)
    requires k <= bits
    ensures BitAnd(x % Pow2(bits), Pow2(k) - 1) == x % Pow2(k)
  {
    LowMask(x % Pow2(bits), k);
    Pow2Add(k, bits - k);
    ModOfMultiple(x, Pow2(k), Pow2(bits - k));
  }

  lemma ChannelInRange(k: nat, n: nat, base: nat, part: nat)
    requires n == Pow2(k)
    ensures ChannelForPart(n, base, part) < n
  {
    ForPartIsMod(k, n, base, part);
  }

  /** The part of a part's channel is that part. */
  lemma PartOfItsChannel(k: nat, n: nat, base: nat, part: nat)
    requires n == Pow2(k) && k <= INT_BITS && part < n
    ensures ChannelToPart(n, base, ChannelForPart(n, base, part)) == part
  {
    var c := ChannelForPart(n, base, part);
    assert c == (base + part) % n by { ForPartIsMod(k, n, base, part); }
    assert ChannelToPart(n, base, c) == (c - base) % n by { ToPartIsMod(k, n, base, c); }
    ModShift(n, base, part);
  }

  /** The channel of a channel's part is that channel. */
  lemma ChannelOfItsPart(k: nat, n: nat, base: nat, channel: nat)
    requires n == Pow2(k) && k <= INT_BITS && channel < n
    ensures ChannelForPart(n, base, ChannelToPart(n, base, channel)) == channel
  {
    var part := ChannelToPart(n, base, channel);
    assert part == (channel - base) % n by { ToPartIsMod(k, n, base, channel); }
    assert ChannelForPart(n, base, part) == (base + part) % n by { ForPartIsMod(k, n, base, part); }
    ModUnshift(n, base, channel);
  }

  /** Channel `c` moves byte `e`. */
  ghost predicate Moves(nP2pChannels: nat, base: nat, nParts: nat, bytes: nat, c: nat, e: nat)
    requires nP2pChannels >= 1 && nParts >= 1
  {
    var part := ChannelToPart(nP2pChannels, base, c);
    part < nParts && PartBound(nParts, part, bytes) <= e < PartBound(nParts, part + 1, bytes)
  }

  /** Every byte of a transfer is moved by exactly one of the 2^k channels. */
  lemma EveryByteMovesOnce(k: nat, n: nat, base: nat, nParts: nat, bytes: nat, e: nat) returns (c: nat)
    requires n == Pow2(k) && k <= INT_BITS && 1 <= nParts <= n && e < bytes
    ensures c < n && Moves(n, base, nParts, bytes, c, e)
    ensures forall d: nat :: d < n && Moves(n, base, nParts, bytes, d, e) ==> d == c
  {
    var bound := (i: nat) => PartBound(nParts, i, bytes);
    PartsRise(nParts, bytes);
    var part := Locate(bound, nParts, e);
    c := ChannelForPart(n, base, part);
    ChannelInRange(k, n, base, part);
    PartOfItsChannel(k, n, base, part);
    forall d: nat | d < n && Moves(n, base, nParts, bytes, d, e) ensures d == c {
      ChannelOfItsPart(k, n, base, d);
      assert In(bound, ChannelToPart(n, base, d), e);
    }
  }

  // ------------------------------------------------------------------- collectives

  datatype Cbd = Cbd(channelLo: nat, channelHi: nat, countLo: nat, countMid: nat, countHi: nat,
                     chunkGrainsLo: nat, chunkGrainsMid: nat, chunkGrainsHi: nat)

  function NumMid(w: Cbd): int { w.channelHi - w.channelLo - 1 }

  function CbdCount(w: Cbd): int { w.countLo + w.countMid * NumMid(w) + w.countHi }

  /** Where the part of channel `c` begins, and for channelHi + 1 where the last one ends. */
  function CbdBound(w: Cbd, c: int): int {
    if c <= w.channelLo then 0
    else if c > w.channelHi then w.countLo + NumMid(w) * w.countMid + w.countHi
    else w.countLo + (c - w.channelLo - 1) * w.countMid
  }

  /** ncclCollCbdPart; the part of a channel ends where the next one begins. */
  method CollCbdPart(w: Cbd, channelId: nat, eltPerGrain: nat)
    returns (count: int, partOffset: int, partCount: int, chunkCount: int)
    requires w.channelLo <= channelId <= w.channelHi
    ensures count == CbdCount(w)
    ensures partOffset == CbdBound(w, channelId) && partCount >= 0
    ensures forall e :: Covers(w, channelId, e) <==> partOffset <= e < partOffset + partCount
    ensures partCount ==
      if channelId == w.channelLo then w.countLo else if channelId == w.channelHi then w.countHi else w.countMid
    ensures chunkCount == eltPerGrain *
      if channelId == w.channelLo then w.chunkGrainsLo
      else if channelId == w.channelHi then w.chunkGrainsHi
      else w.chunkGrainsMid
  {
    var nMidChannels := w.channelHi - w.channelLo - 1;
    count := w.countLo + w.countMid * nMidChannels + w.countHi;
    if channelId == w.channelLo {
      partOffset, partCount, chunkCount := 0, w.countLo, w.chunkGrainsLo * eltPerGrain;
    } else if channelId == w.channelHi {
      partOffset, partCount := w.countLo + nMidChannels * w.countMid, w.countHi;
      chunkCount := w.chunkGrainsHi * eltPerGrain;
    } else {
      var mid := channelId - w.channelLo - 1;
      partOffset, partCount, chunkCount := w.countLo + mid * w.countMid, w.countMid, w.chunkGrainsMid * eltPerGrain;
      assert (mid + 1) * w.countMid == mid * w.countMid + w.countMid;
    }
  }

  /** Element `e` is in the part of channel `c`. */
  ghost predicate Covers(w: Cbd, c: int, e: int) {
    && w.channelLo <= c <= w.channelHi
    && CbdBound(w, c) <= e < if w.channelLo == w.channelHi then w.countLo else CbdBound(w, c + 1)
  }

  ghost predicate ExactlyOne(w: Cbd, e: int) {
    exists c :: Covers(w, c, e) && forall d :: Covers(w, d, e) ==> d == c
  }

  /** Bounds counted from the low channel. */
  function CbdBoundAt(w: Cbd, i: nat): nat { Max(0, CbdBound(w, w.channelLo + i)) }

  lemma CbdStep(w: Cbd, i: nat, j: nat)
    requires w.channelLo < w.channelHi && i <= j <= NumMid(w) + 2
    ensures 0 <= CbdBound(w, w.channelLo + i) <= CbdBound(w, w.channelLo + j)
  {
    var m := NumMid(w);
    assert m * w.countMid >= 0 by { MulMono(0, m, w.countMid); }
    if 1 <= i { MulMono(0, i - 1, w.countMid); }
    if 1 <= j { MulMono(0, j - 1, w.countMid); }
    if 1 <= i { MulMono(i - 1, j - 1, w.countMid); }
    if 1 <= i <= m + 1 { MulMono(i - 1, m, w.countMid); }
  }

  /** The parts of channelLo..channelHi cover the count, each element exactly once, and nothing else. */
  ghost predicate Tiles(w: Cbd) {
    && (forall e :: 0 <= e < CbdCount(w) ==> ExactlyOne(w, e))
    && (forall c, e :: Covers(w, c, e) ==> 0 <= e < CbdCount(w))
  }

  lemma CbdRises(w: Cbd, bound: nat -> nat)
    requires w.channelLo < w.channelHi && forall i: nat :: bound(i) == CbdBoundAt(w, i)
    ensures Rising(bound, NumMid(w) + 2) && bound(0) == 0 && bound(NumMid(w) + 2) == CbdCount(w)
  {
    var m := NumMid(w) + 2;
    forall i: nat, j: nat | i <= j <= m ensures bound(i) <= bound(j) { CbdStep(w, i, j); }
    CbdStep(w, m, m);
    assert w.countMid * NumMid(w) == NumMid(w) * w.countMid;
  }

  lemma CbdTilesOne(w: Cbd, e: int)
    requires w.channelLo < w.channelHi && 0 <= e < CbdCount(w)
    ensures ExactlyOne(w, e)
  {
    var lo, m := w.channelLo, NumMid(w) + 2;
    var bound := (i: nat) => CbdBoundAt(w, i);
    CbdRises(w, bound);
    var i := Locate(bound, m, e);
    CoversIsIn(w, bound, i, e);
    forall d | Covers(w, d, e) ensures d == lo + i { CoversIsIn(w, bound, d - lo, e); }
  }

  lemma CoversIsIn(w: Cbd, bound: nat -> nat, i: nat, e: int)
    requires w.channelLo < w.channelHi && i <= NumMid(w) + 1 && e >= 0
    requires bound(i) == CbdBoundAt(w, i) && bound(i + 1) == CbdBoundAt(w, i + 1)
    ensures Covers(w, w.channelLo + i, e) <==> In(bound, i, e)
  {
    CbdStep(w, i, i + 1);
  }

  /**
    Under the source's assumption that absent middle channels have count 0, the parts tile the
    collective exactly if there are two channels or more, or the one there is has all the work.
   */
  lemma CbdTiles(w: Cbd)
    requires w.channelLo <= w.channelHi && (NumMid(w) < 0 ==> w.countMid == 0)
    ensures Tiles(w) <==> w.channelLo < w.channelHi || w.countHi == 0
  {
    if w.channelLo < w.channelHi {
      forall e | 0 <= e < CbdCount(w) ensures ExactlyOne(w, e) { CbdTilesOne(w, e); }
      forall c, e | Covers(w, c, e) ensures 0 <= e < CbdCount(w) {
        CbdStep(w, c - w.channelLo, c - w.channelLo + 1);
        CbdStep(w, c - w.channelLo + 1, NumMid(w) + 2);
        assert w.countMid * NumMid(w) == NumMid(w) * w.countMid;
      }
    } else {
      assert CbdCount(w) == w.countLo + w.countHi;
      forall e ensures ExactlyOne(w, e) <==> 0 <= e < w.countLo { LoneChannel(w, e); }
      assert !ExactlyOne(w, w.countLo);
    }
  }

  lemma LoneChannel(w: Cbd, e: int)
    requires w.channelLo == w.channelHi
    ensures ExactlyOne(w, e) <==> 0 <= e < w.countLo
  {
    if 0 <= e < w.countLo {
      assert Covers(w, w.channelLo, e);
      forall d | Covers(w, d, e) ensures d == w.channelLo {}
    }
  }

  /** One channel with a count for an absent high one: an element nobody has. */
  lemma LoneChannelCanMiss()
    ensures var w := Cbd(0, 0, 1, 0, 1, 1, 1, 1); CbdCount(w) == 2 && !ExactlyOne(w, 1) && !Tiles(w)
  {
    LoneChannel(Cbd(0, 0, 1, 0, 1, 1, 1, 1), 1);
    CbdTiles(Cbd(0, 0, 1, 0, 1, 1, 1, 1));
  }
}
