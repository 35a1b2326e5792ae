/**
  How `net/transport/net_ib/common.h` spreads requests over queue pairs and devices.
 */
module QpStriping {
  import opened Common
  import opened Bits

  const WORD := 0x1_0000_0000_0000_0000

  datatype Code = Success | InternalError

  /** The fields of ncclIbNetCommBase used here; -1 is "not initialised", a missing QP is None. */
  datatype Comm<Qp> = Comm(nqps: int, nDataQps: int, splitDataOnQps: bool, ndevs: nat, activeQps: seq<Option<Qp>>)

  predicate WellFormed<Qp>(c: Comm<Qp>) {
    && (c.nqps == -1 || 1 <= c.nqps == |c.activeQps|)
    && (c.nDataQps == -1 || 1 <= c.nDataQps)
  }

  /** QPs used by one request. */
  function QpsPerRequest<Qp>(c: Comm<Qp>): int { if c.splitDataOnQps then c.nqps else c.nDataQps }

  /** The QP picked for the given index of a request, in 64-bit arithmetic. */
  function Pick(id: nat, qpIndex: nat, nQps: nat, nqps: nat): (k: nat)
    requires nqps >= 1
    ensures k < nqps
  {
    (id * nQps + qpIndex) % WORD % nqps
  }

  /** ncclIbCommBaseGetNqpsPerRequest */
  method GetNqpsPerRequest<Qp>(c: Comm<Qp>) returns (code: Code, nQps: int)
    requires WellFormed(c)
    ensures code == InternalError <==> c.nDataQps == -1 || c.nqps == -1
    ensures code == Success ==> nQps == QpsPerRequest(c) >= 1
  {
    nQps := 0;
    if c.nDataQps == -1 || c.nqps == -1 {
      return InternalError, nQps;
    }
    return Success, if c.splitDataOnQps then c.nqps else c.nDataQps;
  }

  /** ncclIbCommBaseGetQpForRequest */
  method GetQpForRequest<Qp>(c: Comm<Qp>, id: nat, qpIndex: nat) returns (code: Code, qp: Option<Qp>, index: nat)
    requires WellFormed(c)
    ensures c.nDataQps == -1 || c.nqps == -1 ==> code == InternalError
    ensures c.nDataQps != -1 && c.nqps != -1 ==>
      && index == Pick(id, qpIndex, QpsPerRequest(c), c.nqps) && qp == c.activeQps[index]
      && (code == Success <==> qp.Some?)
  {
    var nQps;
    qp, index := None, 0;
    code, nQps := GetNqpsPerRequest(c);
    if code != Success {
      return;
    }
    index := Pick(id, qpIndex, nQps, c.nqps);
    qp := c.activeQps[index];
    if qp.None? {
      code := InternalError;
    }
  }

  // ------------------------------------------------------------------- fairness

  /** The picks of a request do not wrap around 2^64. */
  predicate NoWrap(id: nat, nQps: nat) { (id + 1) * nQps <= WORD }

  lemma PickIsPlain(id: nat, q: nat, nQps: nat, nqps: nat)
    requires nqps >= 1 && q < nQps && NoWrap(id, nQps)
    ensures Pick(id, q, nQps, nqps) == (id * nQps + q) % nqps
  {
    assert (id + 1) * nQps == id * nQps + nQps;
  }

  lemma CloseResidues(x: int, y: int, n: int)
    requires n >= 1 && x < y < x + n
    ensures x % n != y % n
  {
    if x % n == y % n {
      var qx, qy := x / n, y / n;
      assert x == qx * n + x % n && y == qy * n + y % n;
      assert y - x == (qy - qx) * n;
      if qy - qx >= 1 { MulMono(1, qy - qx, n); } else { MulMono(qy - qx, 0, n); }
    }
  }

  /** The QPs of one request are pairwise different. */
  lemma PicksAreDistinct(id: nat, q: nat, r: nat, nQps: nat, nqps: nat)
    requires 1 <= nQps <= nqps && q < r < nQps && NoWrap(id, nQps)
    ensures Pick(id, q, nQps, nqps) != Pick(id, r, nQps, nqps)
  {
    PickIsPlain(id, q, nQps, nqps);
    PickIsPlain(id, r, nQps, nqps);
    CloseResidues(id * nQps + q, id * nQps + r, nqps);
  }

  /** How many of the first `m` picks of a request are QP `k`. */
  function Uses(id: nat, m: nat, nQps: nat, nqps: nat, k: nat): nat
    requires nqps >= 1
  {
    if m == 0 then 0 else Uses(id, m - 1, nQps, nqps, k) + if Pick(id, m - 1, nQps, nqps) == k then 1 else 0
  }

  /** How often `ids` requests from `first` on pick QP `k`. */
  function TotalUses(first: nat, ids: nat, nQps: nat, nqps: nat, k: nat): nat
    requires nqps >= 1
  {
    if ids == 0 then 0 else TotalUses(first, ids - 1, nQps, nqps, k) + Uses(first + ids - 1, nQps, nQps, nqps, k)
  }

  /** How many of x, x + 1, ..., x + m - 1 have residue k. */
  function Residues(x: nat, m: nat, n: nat, k: nat): nat
    requires n >= 1
  {
    if m == 0 then 0 else Residues(x, m - 1, n, k) + if (x + m - 1) % n == k then 1 else 0
  }

  lemma {:induction false} UsesAreResidues(id: nat, m: nat, nQps: nat, nqps: nat, k: nat)
    requires nqps >= 1 && m <= nQps && NoWrap(id, nQps)
    ensures Uses(id, m, nQps, nqps, k) == Residues(id * nQps, m, nqps, k)
  {
    if m > 0 {
      UsesAreResidues(id, m - 1, nQps, nqps, k);
      PickIsPlain(id, m - 1, nQps, nqps);
    }
  }

  lemma {:induction false} ResiduesSplit(x: nat, a: nat, b: nat, n: nat, k: nat)
    requires n >= 1
    ensures Residues(x, a + b, n, k) == Residues(x, a, n, k) + Residues(x + a, b, n, k)
  {
    if b > 0 {
      ResiduesSplit(x, a, b - 1, n, k);
      assert Residues(x, a + b, n, k) == Residues(x, a + b - 1, n, k) + if (x + (a + b) - 1) % n == k then 1 else 0;
    }
  }

  lemma Distribute(a: int, b: int, c: int)
    ensures (a + b) * c == a * c + b * c
  {}

  /** Consecutive requests pick consecutive numbers. */
  lemma {:induction false} TotalIsResidues(first: nat, ids: nat, nQps: nat, nqps: nat, k: nat, x: nat, len: nat)
    requires nqps >= 1 && x == first * nQps && len == ids * nQps && x + len <= WORD
    ensures TotalUses(first, ids, nQps, nqps, k) == Residues(x, len, nqps, k)
  {
    if ids > 0 {
      Distribute(ids - 1, 1, nQps);
      Distribute(first, ids - 1, nQps);
      Distribute(first + ids - 1, 1, nQps);
      MulMono(0, ids - 1, nQps);
      TotalIsResidues(first, ids - 1, nQps, nqps, k, x, len - nQps);
      UsesAreResidues(first + ids - 1, nQps, nQps, nqps, k);
      ResiduesSplit(x, len - nQps, nQps, nqps, k);
    }
  }

  /** Among n consecutive numbers, the one at offset (k - x) % n has residue k and no other does. */
  lemma {:induction false} OnePeriod(x: nat, m: nat, n: nat, k: nat)
    requires m <= n && k < n
    ensures Residues(x, m, n, k) == if (k - x) % n < m then 1 else 0
  {
    if m > 0 {
      OnePeriod(x, m - 1, n, k);
      var i := (k - x) % n;
      ModUnshift(n, x, k);
      if i < m - 1 { CloseResidues(x + i, x + m - 1, n); }
      if i > m - 1 { CloseResidues(x + m - 1, x + i, n); }
    }
  }

  lemma {:induction false} ManyPeriods(x: nat, periods: nat, n: nat, k: nat, len: nat)
    requires k < n && len == periods * n
    ensures Residues(x, len, n, k) == periods
  {
    if periods > 0 {
      Distribute(periods - 1, 1, n);
      MulMono(0, periods - 1, n);
      ManyPeriods(x, periods - 1, n, k, len - n);
      ResiduesSplit(x, len - n, n, n, k);
      OnePeriod(x + len - n, n, n, k);
    }
  }

  /** Any nqps consecutive requests use every QP exactly nQps times. */
  lemma StripingIsFair(first: nat, nQps: nat, nqps: nat, k: nat)
    requires k < nqps && (first + nqps) * nQps <= WORD
    ensures TotalUses(first, nqps, nQps, nqps, k) == nQps
  {
    Distribute(first, nqps, nQps);
    TotalIsResidues(first, nqps, nQps, nqps, k, first * nQps, nqps * nQps);
    ManyPeriods(first * nQps, nQps, nqps, k, nqps * nQps);
  }

  /** The QPs the first `m` picks of a request fall on. */
  ghost function Picked(id: nat, m: nat, nQps: nat, nqps: nat): set<nat>
    requires nqps >= 1
  {
    set q: nat | q < m :: Pick(id, q, nQps, nqps)
  }

  lemma {:induction false} PickedCount(id: nat, m: nat, nQps: nat, nqps: nat)
    requires 1 <= nQps <= nqps && m <= nQps && NoWrap(id, nQps)
    ensures |Picked(id, m, nQps, nqps)| == m
  {
    if m > 0 {
      PickedCount(id, m - 1, nQps, nqps);
      forall q: nat | q < m - 1 ensures Pick(id, q, nQps, nqps) != Pick(id, m - 1, nQps, nqps) {
        PicksAreDistinct(id, q, m - 1, nQps, nqps);
      }
      assert Picked(id, m, nQps, nqps) == Picked(id, m - 1, nQps, nqps) + {Pick(id, m - 1, nQps, nqps)};
    }
  }

  /** A request whose data is split goes over every QP of the connection once, any other over nDataQps of them. */
  lemma RequestCovers<Qp>(c: Comm<Qp>, id: nat)
    requires 1 <= c.nDataQps <= c.nqps && NoWrap(id, QpsPerRequest(c))
    ensures var nQps := QpsPerRequest(c);
      && |Picked(id, nQps, nQps, c.nqps)| == nQps
      && (c.splitDataOnQps ==> forall k: nat :: k < c.nqps ==> Uses(id, nQps, nQps, c.nqps, k) == 1)
      && (!c.splitDataOnQps ==> nQps == c.nDataQps)
  {
    var nQps := QpsPerRequest(c);
    PickedCount(id, nQps, nQps, c.nqps);
    if c.splitDataOnQps {
      forall k: nat | k < c.nqps ensures Uses(id, nQps, nQps, c.nqps, k) == 1 { UsedOnce(id, c.nqps, k); }
    }
  }

  lemma UsedOnce(id: nat, nqps: nat, k: nat)
    requires k < nqps && NoWrap(id, nqps)
    ensures Uses(id, nqps, nqps, nqps, k) == 1
  {
    UsesAreResidues(id, nqps, nqps, nqps, k);
    OnePeriod(id * nqps, nqps, nqps, k);
  }

  /** With the QPs dealt to the devices in turn, every request reaches every device. */
  lemma EveryDeviceIsReached(id: nat, nQps: nat, nqps: nat, ndevs: nat, perDev: nat, d: nat) returns (q: nat)
    requires d < ndevs <= nQps && perDev >= 1 && nqps == ndevs * perDev && NoWrap(id, nQps)
    ensures q < nQps && nqps >= 1 && Pick(id, q, nQps, nqps) % ndevs == d
  {
    var x := id * nQps;
    q := (d - x) % ndevs;
    ModOfMultiple(x + q, ndevs, perDev);
    PickIsPlain(id, q, nQps, nqps);
    ModUnshift(ndevs, x, d);
  }

  // ------------------------------------------------------------------- load-balancing weights

  const FULL := 100

  function Sum(s: seq<nat>): nat { if s == [] then 0 else Sum(s[..|s| - 1]) + s[|s| - 1] }

  /** A device's share before the remainder is handed out. */
  function Share(speeds: seq<nat>, total: nat, eventBased: bool, d: nat): nat
    requires d < |speeds| && total > 0
  {
    if eventBased then speeds[d] * FULL / total else FULL / |speeds|
  }

  /** The first `d` shares together are at most their part of 100. */
  lemma {:induction false} SharesFit(speeds: seq<nat>, total: nat, eventBased: bool, weights: seq<nat>)
    requires total > 0 && |weights| <= |speeds| && speeds != []
    requires forall d :: 0 <= d < |weights| ==> weights[d] == Share(speeds, total, eventBased, d)
    ensures eventBased ==> Sum(weights) * total <= Sum(speeds[..|weights|]) * FULL
    ensures !eventBased ==> Sum(weights) == |weights| * (FULL / |speeds|)
  {
    if weights != [] {
      var n := |weights| - 1;
      SharesFit(speeds, total, eventBased, weights[..n]);
      assert speeds[..n + 1][..n] == speeds[..n];
      if eventBased {
        var w, v := weights[n], speeds[n] * FULL;
        assert v / total * total <= v;
        Distribute(Sum(weights[..n]), w, total);
        Distribute(Sum(speeds[..n]), speeds[n], FULL);
      } else {
        Distribute(n, 1, FULL / |speeds|);
      }
    }
  }

  lemma {:induction false} SumPrefix(s: seq<nat>, n: nat)
    requires n <= |s|
    ensures Sum(s[..n]) <= Sum(s)
  {
    if n < |s| {
      SumPrefix(s[..|s| - 1], n);
      assert s[..|s| - 1][..n] == s[..n];
    } else {
      assert s[..n] == s;
    }
  }

  lemma CancelFactor(a: nat, b: nat, c: nat)
    requires c > 0 && a * c <= b * c
    ensures a <= b
  {
    if a > b { MulMono(b + 1, a, c); Distribute(b, 1, c); }
  }

  /** No prefix of the shares exceeds 100. */
  lemma SharesAtMostFull(speeds: seq<nat>, total: nat, eventBased: bool, weights: seq<nat>)
    requires total == Sum(speeds) > 0 && |weights| <= |speeds| && speeds != []
    requires forall d :: 0 <= d < |weights| ==> weights[d] == Share(speeds, total, eventBased, d)
    ensures Sum(weights) <= FULL
  {
    SharesFit(speeds, total, eventBased, weights);
    if eventBased {
      SumPrefix(speeds, |weights|);
      MulMono(Sum(speeds[..|weights|]), total, FULL);
      CancelFactor(Sum(weights), FULL, total);
    } else {
      EvenShares(|weights|, |speeds|);
    }
  }

  lemma EvenShares(m: nat, n: nat)
    requires m <= n && n > 0
    ensures m * (FULL / n) <= FULL
  {
    MulMono(m, n, FULL / n);
  }

  /** A share as uint8: it fits, together with those before it. */
  method ShareByte(speeds: seq<nat>, total: nat, eventBased: bool, d: nat, ghost before: seq<nat>) returns (share: nat)
    requires d < |speeds| && total == Sum(speeds) > 0 && |before| == d
    requires forall i :: 0 <= i < d ==> before[i] == Share(speeds, total, eventBased, i)
    ensures share == Share(speeds, total, eventBased, d)
    ensures Sum(before + [share]) == Sum(before) + share <= FULL
  {
    share := Share(speeds, total, eventBased, d);
    SharesAtMostFull(speeds, total, eventBased, before + [share]);
    assert (before + [share])[..d] == before;
    share := share % 256;
  }

  /** The loop: every device gets its share, and the uint8 total does not wrap. */
  method FillShares(weights: array<nat>, speeds: seq<nat>, total: nat, eventBased: bool) returns (totalWeight: nat)
    requires 1 <= |speeds| <= weights.Length && total == Sum(speeds) > 0
    modifies weights
    ensures totalWeight == Sum(weights[..|speeds|]) <= FULL
    ensures forall d :: 0 <= d < |speeds| ==> weights[d] == Share(speeds, total, eventBased, d)
  {
    totalWeight := 0;
    var d := 0;
    while d < |speeds|
      invariant 0 <= d <= |speeds| && totalWeight == Sum(weights[..d]) <= FULL
      invariant forall i :: 0 <= i < d ==> weights[i] == Share(speeds, total, eventBased, i)
    {
      ghost var before := weights[..d];
      var share := ShareByte(speeds, total, eventBased, d, before);
      weights[d] := share;
      totalWeight := (totalWeight + share) % 256;
      d := d + 1;
      assert weights[..d] == before + [share];
    }
  }

  lemma SumOfLast(s: seq<nat>, v: nat)
    requires s != []
    ensures Sum(s[|s| - 1 := v]) == Sum(s) - s[|s| - 1] + v && s[|s| - 1] <= Sum(s)
  {
    assert s[|s| - 1 := v][..|s| - 1] == s[..|s| - 1];
  }

  lemma ShareIsZero(speeds: seq<nat>, total: nat, eventBased: bool, d: nat)
    requires d < |speeds| && total > 0
    ensures Share(speeds, total, eventBased, d) == 0
      <==> if eventBased then speeds[d] * FULL < total else |speeds| > FULL
  {
    var v := if eventBased then speeds[d] * FULL else FULL;
    var n := if eventBased then total else |speeds|;
    assert v == n * (v / n) + v % n;
    if v / n >= 1 { MulMono(1, v / n, n); }
  }

  /**
    When device `d` ends up with weight 0. All but the last: when it has less than a hundredth of the
    total speed, or there are more than a hundred devices to share evenly. The last one also gets
    what rounding left over, so it must have no speed at all and nothing may be left over.
   */
  predicate ZeroWeight(speeds: seq<nat>, total: nat, eventBased: bool, d: nat)
    requires d < |speeds| && total > 0
  {
    if d < |speeds| - 1 then if eventBased then speeds[d] * FULL < total else |speeds| > FULL
    else eventBased && speeds[d] == 0 && forall i :: 0 <= i < |speeds| ==> Remainder(speeds, total, i) == 0
  }

  function Remainder(speeds: seq<nat>, total: nat, d: nat): nat
    requires d < |speeds| && total > 0
  {
    speeds[d] * FULL % total
  }

  /** Shares and remainders together are the speeds in hundredths. */
  lemma {:induction false} SharesAndRemainders(speeds: seq<nat>, total: nat, weights: seq<nat>, rems: seq<nat>)
    requires total > 0 && |weights| == |rems| <= |speeds|
    requires forall d :: 0 <= d < |weights| ==> weights[d] == Share(speeds, total, true, d)
    requires forall d :: 0 <= d < |rems| ==> rems[d] == Remainder(speeds, total, d)
    ensures Sum(weights) * total + Sum(rems) == Sum(speeds[..|weights|]) * FULL
  {
    if weights != [] {
      var n := |weights| - 1;
      SharesAndRemainders(speeds, total, weights[..n], rems[..n]);
      assert speeds[..n + 1][..n] == speeds[..n];
      ShareAndRemainder(speeds[n] * FULL, total);
      Distribute(Sum(weights[..n]), weights[n], total);
      Distribute(Sum(speeds[..n]), speeds[n], FULL);
    }
  }

  lemma ShareAndRemainder(v: nat, total: nat)
    requires total > 0
    ensures v / total * total + v % total == v
  {}

  lemma {:induction false} ZeroSum(s: seq<nat>)
    ensures Sum(s) == 0 <==> forall i :: 0 <= i < |s| ==> s[i] == 0
  {
    if s != [] {
      ZeroSum(s[..|s| - 1]);
    }
  }

  /** Nothing is left over exactly if every speed is a whole number of hundredths of the total. */
  lemma NothingLeftOver(speeds: seq<nat>, total: nat, weights: seq<nat>)
    requires total == Sum(speeds) > 0 && |weights| == |speeds|
    requires forall d :: 0 <= d < |weights| ==> weights[d] == Share(speeds, total, true, d)
    ensures Sum(weights) == FULL <==> forall i :: 0 <= i < |speeds| ==> Remainder(speeds, total, i) == 0
  {
    var rems := seq(|speeds|, i requires 0 <= i < |speeds| => Remainder(speeds, total, i));
    SharesAndRemainders(speeds, total, weights, rems);
    assert speeds[..|weights|] == speeds;
    ZeroSum(rems);
    if Sum(rems) == 0 {
      CancelFactor(Sum(weights), FULL, total);
      CancelFactor(FULL, Sum(weights), total);
    }
    assert forall i :: 0 <= i < |speeds| ==> rems[i] == Remainder(speeds, total, i);
  }

  lemma LastShareIsZero(v: nat, total: nat)
    requires total > 0
    ensures v / total == 0 && v % total == 0 <==> v == 0
  {
    ShareAndRemainder(v, total);
  }

  /** The last device ends up with its share and what is left over. */
  lemma LastIsZero(speeds: seq<nat>, total: nat, eventBased: bool, weights: seq<nat>)
    requires total == Sum(speeds) > 0 && |weights| == |speeds| > 0
    requires forall d :: 0 <= d < |weights| ==> weights[d] == Share(speeds, total, eventBased, d)
    ensures weights[|speeds| - 1] == 0 && Sum(weights) == FULL <==> ZeroWeight(speeds, total, eventBased, |speeds| - 1)
  {
    var last := |speeds| - 1;
    if eventBased {
      NothingLeftOver(speeds, total, weights);
      LastShareIsZero(speeds[last] * FULL, total);
      if ZeroWeight(speeds, total, true, last) { assert Remainder(speeds, total, last) == 0; }
      if Sum(weights) == FULL { assert Remainder(speeds, total, last) == 0; }
    } else {
      SharesFit(speeds, total, false, weights);
      ShareIsZero(speeds, total, false, last);
    }
  }

  /** ncclIbComputeLbWeights: the weights are uint8, and add up to 100. */
  method ComputeLbWeights(weights: array<nat>, speeds: seq<nat>, total: nat, eventBased: bool)
    requires 1 <= |speeds| <= weights.Length && total == Sum(speeds) > 0
    modifies weights
    ensures Sum(weights[..|speeds|]) == FULL
    ensures forall d :: 0 <= d < |speeds| - 1 ==> weights[d] == Share(speeds, total, eventBased, d)
    ensures weights[|speeds| - 1] >= Share(speeds, total, eventBased, |speeds| - 1)
    ensures forall d :: 0 <= d < |speeds| ==> (weights[d] == 0 <==> ZeroWeight(speeds, total, eventBased, d))
  {
    var ndevs := |speeds|;
    var totalWeight := FillShares(weights, speeds, total, eventBased);
    LastIsZero(speeds, total, eventBased, weights[..ndevs]);
    forall d | 0 <= d < ndevs - 1 ensures weights[d] == 0 <==> ZeroWeight(speeds, total, eventBased, d) {
      ShareIsZero(speeds, total, eventBased, d);
    }
    if totalWeight < FULL {
      ghost var before := weights[..ndevs];
      var last := weights[ndevs - 1] + (FULL - totalWeight);
      SumOfLast(before, last);
      weights[ndevs - 1] := last % 256;
      assert weights[..ndevs] == before[ndevs - 1 := last];
    }
  }

  /** A weight is 0 although its device is counted in: two devices, one 200 times as fast as the other. */
  method WeightCanBeZero() returns (w: array<nat>)
    ensures w.Length == 2 && w[0] == 0 && w[1] == FULL
  {
    w := new nat[2];
    assert [1, 200][..1] == [1] && [1][..0] == [];
    assert Sum([1]) == 1;
    assert Sum([1, 200]) == 201;
    ComputeLbWeights(w, [1, 200], 201, true);
    assert ZeroWeight([1, 200], 201, true, 0);
    assert w[..2][..1] == [w[0]] && [w[0]][..0] == [];
    assert Sum([w[0]]) == w[0];
  }
}
