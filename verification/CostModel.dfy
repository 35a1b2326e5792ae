/**
  The analytical cost model of `tuner/plugin.c`: the time in microseconds it predicts for one
  collective with one algorithm and protocol. `double` is modelled by `real`.
 */
module CostModel {
  import opened Common
  import opened Bits

  const TREE := 0
  const RING := 1
  const NVLS := 4
  const NVLS_TREE := 5
  const PAT := 6
  const NUM_ALGORITHMS := 7

  const LL := 0
  const LL128 := 1
  const SIMPLE := 2
  const NUM_PROTOCOLS := 3

  const NVLINK := 0
  const NET := 2

  type Algo = a: int | 0 <= a < NUM_ALGORITHMS
  type Proto = p: int | 0 <= p < NUM_PROTOCOLS

  datatype Coll = Broadcast | Reduce | AllGather | ReduceScatter | AllReduce

  datatype Params = Params(
    nChannels: int,
    bwIntra: real,
    bwInter: real,
    nvlsEfficiency: real,
    graphLatencyInter: real,
    baseLatencies: (Algo, Proto) -> real,
    hwLatencies: (int, Algo, Proto) -> real,
    llMaxBw: int -> real,
    perChMaxRingLL128Bw: int -> real,
    perChMaxTreeBw: int -> real,
    perChMaxTreeLL128Bw: int -> real,
    perChMaxNVLSTreeBw: int -> real,
    ringBwCapInter: real,
    ringBwCapIntra: real,
    patBwEff: real,
    patLatPerRank: real,
    arRegLatScale: (Algo, Proto) -> real,
    agRegLatScale: (Algo, Proto) -> real,
    disableUnmodeledCells: bool)

  /** The communicator: at least one node. */
  datatype Topo = Topo(nRanks: int, nNodes: int)

  function MinR(a: real, b: real): real { if a < b then a else b }

  /** floor(log2 n), 0 for n <= 1. */
  function CostLog2(n: int): nat { if n > 1 then Log2(n) else 0 }

  /** costLog2i */
  method CostLog2i(n: int) returns (r: nat)
    ensures r == CostLog2(n) && (n >= 1 ==> Pow2(r) <= n < 2 * Pow2(r))
  {
    r := 0;
    var m := n;
    while m > 1
      invariant r + CostLog2(m) == CostLog2(n)
    {
      m := m / 2;
      r := r + 1;
    }
  }

  function Scale(nNodes: int): int { if nNodes <= 1 then 0 else if nNodes <= 2 then 1 else 2 }

  function PerChannelBw(P: Params, algo: Algo, proto: Proto, scale: int, nNodes: int, nvlsPipelineFactor: real): real {
    var bw := if nNodes < 2 then P.bwIntra else P.bwInter;
    var capped := algo == RING && nNodes >= 2 && P.ringBwCapInter > 0.0 && bw > P.ringBwCapInter;
    var bw1 := if capped then P.ringBwCapInter else bw;
    if algo == NVLS || algo == NVLS_TREE then
      if proto != SIMPLE then -1.0
      else if P.nChannels < 2 then -1.0
      else
        var share := (P.nChannels - 1) as real / P.nChannels as real;
        var intraBw := P.bwIntra * P.nvlsEfficiency * share * nvlsPipelineFactor;
        var interBw := P.bwInter * (if nNodes <= 2 && algo == NVLS_TREE then 2.0 else 1.0);
        var nvlsCap := if algo == NVLS_TREE then P.perChMaxNVLSTreeBw(scale) else 1.0e30;
        MinR(nvlsCap, MinR(interBw, intraBw))
    else bw1
  }

  /** All channels together. */
  function Together(P: Params, perChannel: real): real { P.nChannels as real * perChannel }

  function ApplyProtocolCap(busBw: real, algo: Algo, proto: Proto, P: Params, scale: int, nNodes: int): real {
    if algo == RING && proto == LL then MinR(P.llMaxBw(scale), busBw * 0.5)
    else if algo == RING && proto == LL128 then MinR(Together(P, P.perChMaxRingLL128Bw(scale)), busBw * 0.78)
    else if algo == TREE then
      var bw := MinR(Together(P, P.perChMaxTreeBw(scale)), busBw * 0.92);
      if proto == LL then MinR(P.llMaxBw(scale), bw / 3.8)
      else if proto == LL128 then
        MinR(Together(P, P.perChMaxTreeLL128Bw(scale)), bw * (if nNodes == 1 then 7.0 / 9.0 else 120.0 / 128.0))
      else bw
    else busBw
  }

  function BusBwToAlgoBw(busBw: real, algo: Algo, coll: Coll, nRanks: int): real {
    if nRanks <= 1 then busBw
    else if coll == AllReduce then
      if algo == RING || algo == NVLS || algo == NVLS_TREE then busBw * (nRanks as real / (2 * (nRanks - 1)) as real)
      else if algo == TREE then busBw * 0.5
      else -1.0
    else if coll == AllGather || coll == ReduceScatter then
      if algo == RING || algo == NVLS then busBw * (nRanks as real / (nRanks - 1) as real) else -1.0
    else -1.0
  }

  function Times(n: int, lat: real): real { n as real * lat }

  function RingHops(nSteps: int, nInter: int, intraLat: real, interLat: real): real {
    Times(nSteps - nInter, intraLat) + Times(nInter, interLat)
  }

  function TreeHops(ppn: int, depth: int, intraLat: real, interLat: real): real {
    2.0 * (Times(ppn - 1, intraLat) + Times(depth, interLat))
  }

  function InterLatency(P: Params, algo: Algo, proto: Proto, ppn: int): real {
    var algoForNet: Algo := if ppn == 1 then TREE else algo;
    P.hwLatencies(NET, algoForNet, proto) + P.graphLatencyInter + (if proto == SIMPLE then P.graphLatencyInter else 0.0)
  }

  function AlgoLatency(P: Params, algo: Algo, proto: Proto, coll: Coll, nRanks: int, nNodes: int, ppn: int): real {
    var intraLat := P.hwLatencies(NVLINK, algo, proto);
    var interLat := InterLatency(P, algo, proto, ppn);
    if coll == Broadcast || coll == Reduce then -1.0
    else
      var rounds := if coll == AllReduce then 2 else 1;
      var nsteps := rounds * (nRanks - 1);
      var nInter := if nNodes == 1 then 0 else rounds * (nNodes - 1);
      var base := P.baseLatencies(algo, proto);
      if algo == RING then base + RingHops(nsteps, nInter, intraLat, interLat)
      else if algo == TREE && coll == AllReduce then base + TreeHops(ppn, CostLog2(nNodes), intraLat, interLat)
      else if algo == NVLS then intraLat + (if nNodes > 1 then interLat else 0.0)
      else if algo == NVLS_TREE && coll == AllReduce then
        base + intraLat + 2.0 * Times(CostLog2(nNodes), interLat)
      else -1.0
  }

  function RegLatScale(P: Params, coll: Coll, algo: Algo, proto: Proto, regBuff: int): (s: real)
    ensures s > 0.0
  {
    var s := if coll == AllReduce then P.arRegLatScale(algo, proto)
             else if coll == AllGather then P.agRegLatScale(algo, proto) else 1.0;
    if regBuff == 0 || s <= 0.0 then 1.0 else s
  }

  function LatCount(algo: Algo, numPipeOps: int): (n: int)
    ensures n >= 1
  {
    Max(1, if algo == RING then numPipeOps else (numPipeOps + 3) / 4)
  }

  /** The data-transfer law all prices follow. */
  function TimeUs(lat: real, latCount: int, nBytes: nat, algoBw: real): real
    requires algoBw > 0.0
  {
    lat * latCount as real + nBytes as real / (1000.0 * algoBw)
  }

  /** Step 5, the latency scaled for registered buffers. */
  function ScaledTime(algoBw: real, lat: real, scale: real, latCount: int, nBytes: nat): real
    requires algoBw > 0.0
  {
    TimeUs(lat * scale, latCount, nBytes, algoBw)
  }

  /** Steps 4 and 5: no price without bandwidth or with a negative latency. */
  function Combine(algoBw: real, lat: real, scale: real, latCount: int, nBytes: nat): real {
    if algoBw <= 0.0 then -1.0 else if lat < 0.0 then -1.0 else ScaledTime(algoBw, lat, scale, latCount, nBytes)
  }

  /** Step 1: the bandwidth of a channel. AllReduce pipelines two NVLS phases; its ring may be capped on one node. */
  function ChannelBw(P: Params, t: Topo, coll: Coll, algo: Algo, proto: Proto): real {
    var bw := PerChannelBw(P, algo, proto, Scale(t.nNodes), t.nNodes, if coll == AllReduce then 2.0 else 1.0);
    if coll == AllReduce && algo == RING && proto == SIMPLE && t.nNodes == 1
       && P.ringBwCapIntra > 0.0 && bw > P.ringBwCapIntra
    then P.ringBwCapIntra else bw
  }

  /** Step 2. */
  function BusBw(P: Params, t: Topo, coll: Coll, algo: Algo, proto: Proto): real {
    var sum := Together(P, ChannelBw(P, t, coll, algo, proto));
    ApplyProtocolCap(sum, algo, proto, P, Scale(t.nNodes), t.nNodes)
  }

  /** Step 3. */
  function AlgoBw(P: Params, t: Topo, coll: Coll, algo: Algo, proto: Proto): real {
    if ChannelBw(P, t, coll, algo, proto) < 0.0 then -1.0
    else BusBwToAlgoBw(BusBw(P, t, coll, algo, proto), algo, coll, t.nRanks)
  }

  /** computeAllReduceTime */
  function AllReduceTime(P: Params, t: Topo, algo: Algo, proto: Proto, nBytes: nat, numPipeOps: int, regBuff: int): real
    requires t.nNodes >= 1
  {
    if t.nRanks <= 1 then 0.0
    else if algo == NVLS && t.nNodes > 1 then -1.0
    else
      Combine(AlgoBw(P, t, AllReduce, algo, proto),
              AlgoLatency(P, algo, proto, AllReduce, t.nRanks, t.nNodes, t.nRanks / t.nNodes),
              RegLatScale(P, AllReduce, algo, proto, regBuff), LatCount(algo, numPipeOps), nBytes)
  }

  function PatBw(P: Params, t: Topo): real {
    Together(P, if t.nNodes < 2 then P.bwIntra else P.bwInter) * P.patBwEff
  }

  function PatLatency(P: Params, t: Topo, proto: Proto): real {
    P.baseLatencies(PAT, proto)
    + Times(CostLog2(t.nNodes), P.hwLatencies(NET, PAT, proto) + 2.0 * P.graphLatencyInter)
    + Times(t.nRanks, P.patLatPerRank)
  }

  /** PAT is modelled: a profile with an efficiency, SIMPLE, one rank to a node. */
  predicate PatModelled(P: Params, t: Topo, proto: Proto) {
    P.patBwEff > 0.0 && proto == SIMPLE && t.nNodes == t.nRanks && PatBw(P, t) > 0.0
  }

  /** computeAllGatherOrRSTime; unlike the others, the PAT branch does not look at the sign of the latency. */
  function GatherTime(P: Params, t: Topo, coll: Coll, algo: Algo, proto: Proto, nBytes: nat, numPipeOps: int,
                      regBuff: int): real
    requires t.nNodes >= 1
  {
    if t.nRanks <= 1 then 0.0
    else if algo == PAT then
      if !PatModelled(P, t, proto) then -1.0
      else
        var scale := RegLatScale(P, coll, algo, proto, regBuff);
        ScaledTime(PatBw(P, t), PatLatency(P, t, proto), scale, LatCount(algo, numPipeOps), nBytes)
    else if algo == NVLS && t.nNodes > 1 then -1.0
    else if algo == TREE || algo == NVLS_TREE then -1.0
    else
      Combine(AlgoBw(P, t, coll, algo, proto),
              AlgoLatency(P, algo, proto, coll, t.nRanks, t.nNodes, t.nRanks / t.nNodes),
              RegLatScale(P, coll, algo, proto, regBuff), LatCount(algo, numPipeOps), nBytes)
  }

  predicate Modelled(coll: Coll) { coll == AllReduce || coll == AllGather || coll == ReduceScatter }

  /** The model's price for a cell; negative if it has none. */
  function Time(P: Params, t: Topo, coll: Coll, algo: Algo, proto: Proto, nBytes: nat, numPipeOps: int,
                regBuff: int): real
    requires t.nNodes >= 1 && Modelled(coll)
  {
    if coll == AllReduce then AllReduceTime(P, t, algo, proto, nBytes, numPipeOps, regBuff)
    else GatherTime(P, t, coll, algo, proto, nBytes, numPipeOps, regBuff)
  }

  // ------------------------------------------------------------------- shape of the prices

  /** A price without the size: none, or a fixed part and a positive time per byte. */
  datatype Quote = NoQuote | Free | Quote(fixed: real, slope: real)

  function FixedOf(q: Quote): real { if q.Quote? then q.fixed else if q.Free? then 0.0 else -1.0 }

  function SlopeOf(q: Quote): real { if q.Quote? then q.slope else 0.0 }

  function At(q: Quote, nBytes: nat): real { FixedOf(q) + SlopeOf(q) * nBytes as real }

  function PerByte(algoBw: real): (slope: real)
    requires algoBw > 0.0
    ensures slope > 0.0
  {
    1.0 / (1000.0 * algoBw)
  }

  function QuoteOf(algoBw: real, lat: real, scale: real, latCount: int): (q: Quote)
    ensures q.Quote? ==> q.slope > 0.0
  {
    if algoBw <= 0.0 || lat < 0.0 then NoQuote else LineQuote(algoBw, lat, scale, latCount)
  }

  function LineQuote(algoBw: real, lat: real, scale: real, latCount: int): (q: Quote)
    requires algoBw > 0.0
    ensures q.Quote? && q.slope > 0.0
  {
    Quote(lat * scale * latCount as real, PerByte(algoBw))
  }

  lemma TimeUsIsAffine(algoBw: real, lat: real, scale: real, latCount: int, nBytes: nat)
    requires algoBw > 0.0
    ensures ScaledTime(algoBw, lat, scale, latCount, nBytes) == At(LineQuote(algoBw, lat, scale, latCount), nBytes)
  {
    var n, d := nBytes as real, 1000.0 * algoBw;
    assert n / d == 1.0 / d * n;
  }

  lemma CombineIsAffine(algoBw: real, lat: real, scale: real, latCount: int, nBytes: nat)
    ensures Combine(algoBw, lat, scale, latCount, nBytes) == At(QuoteOf(algoBw, lat, scale, latCount), nBytes)
  {
    if algoBw > 0.0 { TimeUsIsAffine(algoBw, lat, scale, latCount, nBytes); }
  }

  /** What a cell's price is made of, apart from the size. */
  function QuoteFor(P: Params, t: Topo, coll: Coll, algo: Algo, proto: Proto, numPipeOps: int, regBuff: int): (q: Quote)
    requires t.nNodes >= 1 && Modelled(coll)
    ensures q.Quote? ==> q.slope > 0.0
  {
    var scale, count := RegLatScale(P, coll, algo, proto, regBuff), LatCount(algo, numPipeOps);
    if t.nRanks <= 1 then Free
    else if algo == PAT && coll != AllReduce then
      if PatModelled(P, t, proto) then LineQuote(PatBw(P, t), PatLatency(P, t, proto), scale, count) else NoQuote
    else if algo == NVLS && t.nNodes > 1 then NoQuote
    else if coll != AllReduce && (algo == TREE || algo == NVLS_TREE) then NoQuote
    else
      var algoBw := AlgoBw(P, t, coll, algo, proto);
      QuoteOf(algoBw, AlgoLatency(P, algo, proto, coll, t.nRanks, t.nNodes, t.nRanks / t.nNodes), scale, count)
  }

  /** Every price is affine in the size, and what it is made of does not depend on the size. */
  lemma PriceIsAffine(P: Params, t: Topo, coll: Coll, algo: Algo, proto: Proto, nBytes: nat, numPipeOps: int,
                      regBuff: int)
    requires t.nNodes >= 1 && Modelled(coll)
    ensures Time(P, t, coll, algo, proto, nBytes, numPipeOps, regBuff)
         == At(QuoteFor(P, t, coll, algo, proto, numPipeOps, regBuff), nBytes)
  {
    if coll == AllReduce {
      AllReduceIsAffine(P, t, algo, proto, nBytes, numPipeOps, regBuff);
    } else {
      GatherIsAffine(P, t, coll, algo, proto, nBytes, numPipeOps, regBuff);
    }
  }

  lemma AllReduceIsAffine(P: Params, t: Topo, algo: Algo, proto: Proto, nBytes: nat, numPipeOps: int, regBuff: int)
    requires t.nNodes >= 1
    ensures AllReduceTime(P, t, algo, proto, nBytes, numPipeOps, regBuff)
         == At(QuoteFor(P, t, AllReduce, algo, proto, numPipeOps, regBuff), nBytes)
  {
    CombineIsAffine(AlgoBw(P, t, AllReduce, algo, proto),
                    AlgoLatency(P, algo, proto, AllReduce, t.nRanks, t.nNodes, t.nRanks / t.nNodes),
                    RegLatScale(P, AllReduce, algo, proto, regBuff), LatCount(algo, numPipeOps), nBytes);
  }

  lemma GatherIsAffine(P: Params, t: Topo, coll: Coll, algo: Algo, proto: Proto, nBytes: nat, numPipeOps: int,
                       regBuff: int)
    requires t.nNodes >= 1 && Modelled(coll) && coll != AllReduce
    ensures GatherTime(P, t, coll, algo, proto, nBytes, numPipeOps, regBuff)
         == At(QuoteFor(P, t, coll, algo, proto, numPipeOps, regBuff), nBytes)
  {
    if algo == PAT {
      PatIsAffine(P, t, coll, proto, nBytes, numPipeOps, regBuff);
    } else {
      CombineIsAffine(AlgoBw(P, t, coll, algo, proto),
                      AlgoLatency(P, algo, proto, coll, t.nRanks, t.nNodes, t.nRanks / t.nNodes),
                      RegLatScale(P, coll, algo, proto, regBuff), LatCount(algo, numPipeOps), nBytes);
    }
  }

  lemma PatIsAffine(P: Params, t: Topo, coll: Coll, proto: Proto, nBytes: nat, numPipeOps: int, regBuff: int)
    requires t.nNodes >= 1 && Modelled(coll) && coll != AllReduce
    ensures GatherTime(P, t, coll, PAT, proto, nBytes, numPipeOps, regBuff)
         == At(QuoteFor(P, t, coll, PAT, proto, numPipeOps, regBuff), nBytes)
  {
    var scale, count := RegLatScale(P, coll, PAT, proto, regBuff), LatCount(PAT, numPipeOps);
    if PatModelled(P, t, proto) { TimeUsIsAffine(PatBw(P, t), PatLatency(P, t, proto), scale, count, nBytes); }
  }

  /** The one family of cells whose price may start below zero. */
  predicate NegativePat(P: Params, t: Topo, coll: Coll, algo: Algo, proto: Proto) {
    coll != AllReduce && algo == PAT && t.nRanks > 1 && PatModelled(P, t, proto) && PatLatency(P, t, proto) < 0.0
  }

  lemma ScaledSign(lat: real, scale: real, count: int)
    requires scale > 0.0 && count >= 1
    ensures lat * scale * count as real < 0.0 <==> lat < 0.0
  {
    var c := count as real;
    assert lat * scale * c == lat * (scale * c);
    assert scale * c > 0.0;
    if lat >= 0.0 { assert lat * (scale * c) >= 0.0; }
  }

  lemma FixedSign(P: Params, t: Topo, coll: Coll, algo: Algo, proto: Proto, numPipeOps: int, regBuff: int)
    requires t.nNodes >= 1 && Modelled(coll)
    ensures var q := QuoteFor(P, t, coll, algo, proto, numPipeOps, regBuff);
      q.Quote? && q.fixed < 0.0 <==> NegativePat(P, t, coll, algo, proto)
  {
    var scale, count := RegLatScale(P, coll, algo, proto, regBuff), LatCount(algo, numPipeOps);
    var algoBw := AlgoBw(P, t, coll, algo, proto);
    QuoteOfSign(algoBw, AlgoLatency(P, algo, proto, coll, t.nRanks, t.nNodes, t.nRanks / t.nNodes), scale, count);
    if PatModelled(P, t, proto) { LineQuoteSign(PatBw(P, t), PatLatency(P, t, proto), scale, count); }
  }

  lemma LineQuoteSign(algoBw: real, lat: real, scale: real, latCount: int)
    requires algoBw > 0.0 && scale > 0.0 && latCount >= 1
    ensures LineQuote(algoBw, lat, scale, latCount).fixed < 0.0 <==> lat < 0.0
  {
    ScaledSign(lat, scale, latCount);
  }

  lemma QuoteOfSign(algoBw: real, lat: real, scale: real, latCount: int)
    requires scale > 0.0 && latCount >= 1
    ensures var q := QuoteOf(algoBw, lat, scale, latCount); q.Quote? ==> q.fixed >= 0.0
  {
    if algoBw > 0.0 { LineQuoteSign(algoBw, lat, scale, latCount); }
  }

  lemma SlopeMono(slope: real, n: nat, m: nat)
    requires slope > 0.0 && n <= m
    ensures 0.0 <= slope * n as real <= slope * m as real && (n < m ==> slope * n as real < slope * m as real)
  {}

  /** A size at which `fixed` is outweighed. */
  lemma LargeEnough(fixed: real, slope: real) returns (n: nat)
    requires fixed < 0.0 && slope > 0.0
    ensures fixed + slope * n as real >= 0.0
  {
    var x := -fixed / slope;
    assert x >= 0.0;
    n := x.Floor + 1;
    assert slope * n as real >= slope * x == -fixed;
  }

  /**
    Whether a cell is priced does not depend on the message size, except in the cells that
    NegativePat names, and there it does.
   */
  lemma PricingIgnoresSize(P: Params, t: Topo, coll: Coll, algo: Algo, proto: Proto, numPipeOps: int, regBuff: int)
    requires t.nNodes >= 1 && Modelled(coll)
    ensures (forall n: nat, m: nat ::
        Time(P, t, coll, algo, proto, n, numPipeOps, regBuff) < 0.0
        <==> Time(P, t, coll, algo, proto, m, numPipeOps, regBuff) < 0.0)
      <==> !NegativePat(P, t, coll, algo, proto)
  {
    if NegativePat(P, t, coll, algo, proto) {
      var n := PatComesIntoPrice(P, t, coll, algo, proto, numPipeOps, regBuff);
    } else {
      forall n: nat ensures Time(P, t, coll, algo, proto, n, numPipeOps, regBuff) < 0.0
          <==> QuoteFor(P, t, coll, algo, proto, numPipeOps, regBuff) == NoQuote {
        PricedIfQuoted(P, t, coll, algo, proto, n, numPipeOps, regBuff);
      }
    }
  }

  lemma PatComesIntoPrice(P: Params, t: Topo, coll: Coll, algo: Algo, proto: Proto, numPipeOps: int, regBuff: int)
    returns (n: nat)
    requires t.nNodes >= 1 && Modelled(coll) && NegativePat(P, t, coll, algo, proto)
    ensures Time(P, t, coll, algo, proto, 0, numPipeOps, regBuff) < 0.0
    ensures Time(P, t, coll, algo, proto, n, numPipeOps, regBuff) >= 0.0
  {
    var q := QuoteFor(P, t, coll, algo, proto, numPipeOps, regBuff);
    FixedSign(P, t, coll, algo, proto, numPipeOps, regBuff);
    n := LargeEnough(q.fixed, q.slope);
    PriceIsAffine(P, t, coll, algo, proto, 0, numPipeOps, regBuff);
    PriceIsAffine(P, t, coll, algo, proto, n, numPipeOps, regBuff);
  }

  lemma PricedIfQuoted(P: Params, t: Topo, coll: Coll, algo: Algo, proto: Proto, n: nat, numPipeOps: int, regBuff: int)
    requires t.nNodes >= 1 && Modelled(coll) && !NegativePat(P, t, coll, algo, proto)
    ensures Time(P, t, coll, algo, proto, n, numPipeOps, regBuff) < 0.0
      <==> QuoteFor(P, t, coll, algo, proto, numPipeOps, regBuff) == NoQuote
  {
    var q := QuoteFor(P, t, coll, algo, proto, numPipeOps, regBuff);
    FixedSign(P, t, coll, algo, proto, numPipeOps, regBuff);
    PriceIsAffine(P, t, coll, algo, proto, n, numPipeOps, regBuff);
    if q.Quote? { SlopeMono(q.slope, 0, n); }
  }

  /** A priced cell of a communicator with peers costs strictly more for more bytes. */
  lemma PriceGrows(P: Params, t: Topo, coll: Coll, algo: Algo, proto: Proto, n: nat, m: nat, numPipeOps: int,
                   regBuff: int)
    requires t.nNodes >= 1 && t.nRanks > 1 && Modelled(coll) && n < m
    requires Time(P, t, coll, algo, proto, n, numPipeOps, regBuff) >= 0.0
    ensures Time(P, t, coll, algo, proto, n, numPipeOps, regBuff)
          < Time(P, t, coll, algo, proto, m, numPipeOps, regBuff)
  {
    var q := QuoteFor(P, t, coll, algo, proto, numPipeOps, regBuff);
    PriceIsAffine(P, t, coll, algo, proto, n, numPipeOps, regBuff);
    PriceIsAffine(P, t, coll, algo, proto, m, numPipeOps, regBuff);
    NotFree(P, t, coll, algo, proto, numPipeOps, regBuff);
    AtGrows(q, n, m);
  }

  /** Never less for more bytes. */
  lemma PriceMono(P: Params, t: Topo, coll: Coll, algo: Algo, proto: Proto, n: nat, m: nat, numPipeOps: int,
                  regBuff: int)
    requires t.nNodes >= 1 && Modelled(coll) && n <= m
    ensures Time(P, t, coll, algo, proto, n, numPipeOps, regBuff)
         <= Time(P, t, coll, algo, proto, m, numPipeOps, regBuff)
  {
    var q := QuoteFor(P, t, coll, algo, proto, numPipeOps, regBuff);
    PriceIsAffine(P, t, coll, algo, proto, n, numPipeOps, regBuff);
    PriceIsAffine(P, t, coll, algo, proto, m, numPipeOps, regBuff);
    if q.Quote? && n < m { AtGrows(q, n, m); }
  }

  lemma AtGrows(q: Quote, n: nat, m: nat)
    requires q.Quote? && q.slope > 0.0 && n < m
    ensures At(q, n) < At(q, m)
  {
    SlopeMono(q.slope, n, m);
  }

  lemma NotFree(P: Params, t: Topo, coll: Coll, algo: Algo, proto: Proto, numPipeOps: int, regBuff: int)
    requires t.nNodes >= 1 && t.nRanks > 1 && Modelled(coll)
    ensures !QuoteFor(P, t, coll, algo, proto, numPipeOps, regBuff).Free?
  {}

  /** Among the usable cells, (algo, proto) is priced and no other priced one is cheaper. */
  ghost predicate Cheapest(P: Params, t: Topo, coll: Coll, usable: (Algo, Proto) -> bool, algo: Algo, proto: Proto,
                           nBytes: nat, numPipeOps: int, regBuff: int)
    requires t.nNodes >= 1 && Modelled(coll)
  {
    var price := Time(P, t, coll, algo, proto, nBytes, numPipeOps, regBuff);
    && usable(algo, proto) && price >= 0.0
    && forall a: Algo, p: Proto :: usable(a, p) ==>
         NotCheaper(P, t, coll, a, p, nBytes, numPipeOps, regBuff, price)
  }

  ghost predicate NotCheaper(P: Params, t: Topo, coll: Coll, a: Algo, p: Proto, nBytes: nat, numPipeOps: int,
                             regBuff: int, price: real)
    requires t.nNodes >= 1 && Modelled(coll)
  {
    var other := Time(P, t, coll, a, p, nBytes, numPipeOps, regBuff);
    other < 0.0 || price <= other
  }

  /** Between two sizes at which one affine price is at most another, it is so throughout. */
  lemma AffineBetween(q: Quote, r: Quote, lo: nat, n: nat, hi: nat)
    requires (q.Quote? ==> q.slope > 0.0) && (r.Quote? ==> r.slope > 0.0)
    requires lo <= n <= hi && At(q, lo) <= At(r, lo) && At(q, hi) <= At(r, hi)
    ensures At(q, n) <= At(r, n)
  {
    LinesBetween(FixedOf(q), SlopeOf(q), FixedOf(r), SlopeOf(r), lo as real, n as real, hi as real);
  }

  lemma LinesBetween(a: real, k: real, b: real, l: real, lo: real, n: real, hi: real)
    requires lo <= n <= hi && a + k * lo <= b + l * lo && a + k * hi <= b + l * hi
    ensures a + k * n <= b + l * n
  {
    var d := k - l;
    assert k * lo - l * lo == d * lo && k * n - l * n == d * n && k * hi - l * hi == d * hi;
    if d >= 0.0 { Scaled(d, n, hi); } else { Scaled(-d, lo, n); }
  }

  lemma Scaled(d: real, x: real, y: real)
    requires d >= 0.0 && x <= y
    ensures d * x <= d * y
  {}

  /** A PAT cell with negative latency that has no price at `lo` and undercuts `price` at `n`. */
  ghost predicate Undercuts(P: Params, t: Topo, coll: Coll, a: Algo, p: Proto, lo: nat, n: nat, numPipeOps: int,
                            regBuff: int, price: real)
    requires t.nNodes >= 1 && Modelled(coll)
  {
    && NegativePat(P, t, coll, a, p) && Time(P, t, coll, a, p, lo, numPipeOps, regBuff) < 0.0
    && 0.0 <= Time(P, t, coll, a, p, n, numPipeOps, regBuff) < price
  }

  /** A cell not cheaper at two sizes is not cheaper in between, unless it is such a PAT cell. */
  lemma NotCheaperBetween(P: Params, t: Topo, coll: Coll, algo: Algo, proto: Proto, a: Algo, p: Proto,
                          lo: nat, n: nat, hi: nat, numPipeOps: int, regBuff: int)
    requires t.nNodes >= 1 && Modelled(coll) && lo <= n <= hi
    requires Time(P, t, coll, algo, proto, lo, numPipeOps, regBuff) >= 0.0
    requires NotCheaper(P, t, coll, a, p, lo, numPipeOps, regBuff,
                        Time(P, t, coll, algo, proto, lo, numPipeOps, regBuff))
    requires NotCheaper(P, t, coll, a, p, hi, numPipeOps, regBuff,
                        Time(P, t, coll, algo, proto, hi, numPipeOps, regBuff))
    ensures var price := Time(P, t, coll, algo, proto, n, numPipeOps, regBuff);
      NotCheaper(P, t, coll, a, p, n, numPipeOps, regBuff, price)
      <==> !Undercuts(P, t, coll, a, p, lo, n, numPipeOps, regBuff, price)
  {
    var q := QuoteFor(P, t, coll, algo, proto, numPipeOps, regBuff);
    var r := QuoteFor(P, t, coll, a, p, numPipeOps, regBuff);
    PriceIsAffine(P, t, coll, algo, proto, lo, numPipeOps, regBuff);
    PriceIsAffine(P, t, coll, algo, proto, n, numPipeOps, regBuff);
    PriceIsAffine(P, t, coll, algo, proto, hi, numPipeOps, regBuff);
    PriceIsAffine(P, t, coll, a, p, lo, numPipeOps, regBuff);
    PriceIsAffine(P, t, coll, a, p, n, numPipeOps, regBuff);
    PriceIsAffine(P, t, coll, a, p, hi, numPipeOps, regBuff);
    PriceMono(P, t, coll, a, p, n, hi, numPipeOps, regBuff);
    if At(r, lo) >= 0.0 {
      PriceMono(P, t, coll, a, p, lo, n, numPipeOps, regBuff);
      AffineBetween(q, r, lo, n, hi);
    } else {
      PricingIgnoresSize(P, t, coll, a, p, numPipeOps, regBuff);
    }
  }

  /**
    Where a cell is the cheapest at two sizes, it is so at a size in between exactly if no usable PAT
    cell with negative latency has come into its price meanwhile and undercuts it.
   */
  lemma CheapestBetween(P: Params, t: Topo, coll: Coll, usable: (Algo, Proto) -> bool, algo: Algo, proto: Proto,
                        lo: nat, n: nat, hi: nat, numPipeOps: int, regBuff: int)
    requires t.nNodes >= 1 && Modelled(coll) && lo <= n <= hi
    requires Cheapest(P, t, coll, usable, algo, proto, lo, numPipeOps, regBuff)
    requires Cheapest(P, t, coll, usable, algo, proto, hi, numPipeOps, regBuff)
    ensures Cheapest(P, t, coll, usable, algo, proto, n, numPipeOps, regBuff) <==>
      forall a: Algo, p: Proto :: usable(a, p) ==>
        !Undercuts(P, t, coll, a, p, lo, n, numPipeOps, regBuff, Time(P, t, coll, algo, proto, n, numPipeOps, regBuff))
  {
    var price := Time(P, t, coll, algo, proto, n, numPipeOps, regBuff);
    PriceMono(P, t, coll, algo, proto, lo, n, numPipeOps, regBuff);
    forall a: Algo, p: Proto | usable(a, p)
      ensures NotCheaper(P, t, coll, a, p, n, numPipeOps, regBuff, price)
        <==> !Undercuts(P, t, coll, a, p, lo, n, numPipeOps, regBuff, price)
    {
      NotCheaperBetween(P, t, coll, algo, proto, a, p, lo, n, hi, numPipeOps, regBuff);
    }
  }

  /**
    The sizes at which a cell is the cheapest form an interval, if no other usable cell is a PAT cell
    with negative latency.
   */
  lemma CheapestIsInterval(P: Params, t: Topo, coll: Coll, usable: (Algo, Proto) -> bool, algo: Algo, proto: Proto,
                           lo: nat, n: nat, hi: nat, numPipeOps: int, regBuff: int)
    requires t.nNodes >= 1 && Modelled(coll) && lo <= n <= hi
    requires forall a: Algo, p: Proto :: usable(a, p) && (a, p) != (algo, proto) ==> !NegativePat(P, t, coll, a, p)
    requires Cheapest(P, t, coll, usable, algo, proto, lo, numPipeOps, regBuff)
    requires Cheapest(P, t, coll, usable, algo, proto, hi, numPipeOps, regBuff)
    ensures Cheapest(P, t, coll, usable, algo, proto, n, numPipeOps, regBuff)
  {
    CheapestBetween(P, t, coll, usable, algo, proto, lo, n, hi, numPipeOps, regBuff);
  }

  // ------------------------------------------------------------------- a profile with a negative latency

  /** Entry (a, p) of a table of constants. */
  function Entry(rows: seq<seq<real>>, a: Algo, p: Proto): real {
    if a < |rows| && p < |rows[a]| then rows[a][p] else 0.0
  }

  function RailBaseLatencies(): seq<seq<real>> {
    [[20.6679, 26.3192, 25.6124], [0.00000000191189, 0.0000000205101, 0.000000000109204],
     [0.0, 0.0, 0.0], [0.0, 0.0, 0.0], [0.0, 0.0, 0.0], [0.0, 0.0, 0.0], [8.0, 8.0, 32.5934]]
  }

  function RailNvlinkLatencies(): seq<seq<real>> {
    [[5.0, 8.5, 14.0], [2.7, 4.0, 14.0], [0.0, 0.0, 0.0], [0.0, 0.0, 0.0],
     [0.0, 0.0, 25.0], [0.0, 0.0, 25.0], [0.0, 0.0, 4.0]]
  }

  function RailNetLatencies(): seq<seq<real>> {
    [[10.1576, 10.7845, 17.4627], [2.7, 4.0, 14.0], [0.0, 0.0, 31.0], [0.0, 0.0, 30.0],
     [0.0, 0.0, 18.0], [0.0, 0.0, 20.9], [0.0, 0.0, 6.64092]]
  }

  function RailHwLatency(hw: int, a: Algo, p: Proto): real {
    Entry(if hw == NET then RailNetLatencies() else RailNvlinkLatencies(), a, p)
  }

  /** A cap by tuning scale. */
  function ByScale(one: real, two: real, more: real): int -> real {
    s => if s == 0 then one else if s == 1 then two else more
  }

  /** The rail_nop2p profile with the graph latency overridden from the environment. */
  function Rail(graphLatency: real): Params {
    Params(32, 4.29211, 4.29211, 0.4674, graphLatency,
           (a: Algo, p: Proto) => Entry(RailBaseLatencies(), a, p),
           RailHwLatency,
           ByScale(282.0, 90.0, 4.99782), ByScale(40.0, 40.0, 5.8313), ByScale(70.0, 42.8, 2.1473),
           ByScale(55.6, 31.67, 0.890063), ByScale(55.62, 145.7, 137.3), 0.0, 0.0, 0.468895, 1.13602,
           (a: Algo, p: Proto) => 1.0, (a: Algo, p: Proto) => if a == RING && p == SIMPLE then 2.0 else 1.0, true)
  }

  /** At -10 us, with 16 ranks on a node each, PAT starts below zero and RING with LL128 does not. */
  lemma RailPatQuote()
    ensures var P, t := Rail(-10.0), Topo(16, 16);
      && NegativePat(P, t, AllGather, PAT, SIMPLE)
      && QuoteFor(P, t, AllGather, PAT, SIMPLE, 1, 0) == Quote(-2.6666, PerByte(64.4015653904))
  {
    var P, t := Rail(-10.0), Topo(16, 16);
    assert CostLog2(2) == 1 && CostLog2(4) == 2 && CostLog2(8) == 3 && CostLog2(16) == 4;
    assert RailNetLatencies()[PAT][SIMPLE] == 6.64092;
    assert P.baseLatencies(PAT, SIMPLE) == 32.5934 && P.hwLatencies(NET, PAT, SIMPLE) == 6.64092;
    assert PatLatency(P, t, SIMPLE) == -2.6666 && PatBw(P, t) == 64.4015653904;
    assert LatCount(PAT, 1) == 1 && RegLatScale(P, AllGather, PAT, SIMPLE, 0) == 1.0;
  }

  lemma RailRingQuote()
    ensures var P, t := Rail(-10.0), Topo(16, 16);
      QuoteFor(P, t, AllGather, RING, LL128, 1, 0) == Quote(11.7675000205101, PerByte(114.27313664))
  {
    var P, t := Rail(-10.0), Topo(16, 16);
    assert RailNetLatencies()[TREE][LL128] == 10.7845;
    assert P.baseLatencies(RING, LL128) == 0.0000000205101 && P.hwLatencies(NET, TREE, LL128) == 10.7845;
    assert AlgoLatency(P, RING, LL128, AllGather, 16, 16, 1) == 11.7675000205101;
    assert PerChannelBw(P, RING, LL128, 2, 16, 1.0) == 4.29211 && P.perChMaxRingLL128Bw(2) == 5.8313;
    assert ApplyProtocolCap(137.34752, RING, LL128, P, 2, 16) == 107.1310656;
    assert AlgoBw(P, t, AllGather, RING, LL128) == 114.27313664;
    assert LatCount(RING, 1) == 1 && RegLatScale(P, AllGather, RING, LL128, 0) == 1.0;
  }

  /** So PAT is priced for 200000 bytes and not for 0. */
  lemma PatCanDependOnSize()
    ensures var P, t := Rail(-10.0), Topo(16, 16);
      && Time(P, t, AllGather, PAT, SIMPLE, 0, 1, 0) < 0.0
      && 0.0 <= Time(P, t, AllGather, PAT, SIMPLE, 200000, 1, 0) < 1.0
  {
    RailPatQuote();
    PriceIsAffine(Rail(-10.0), Topo(16, 16), AllGather, PAT, SIMPLE, 0, 1, 0);
    PriceIsAffine(Rail(-10.0), Topo(16, 16), AllGather, PAT, SIMPLE, 200000, 1, 0);
  }

  predicate RingOrPat(a: Algo, p: Proto) { (a == RING && p == LL128) || (a == PAT && p == SIMPLE) }

  /** And of these two cells RING is the cheapest for nothing and for 10 MB, but not for 200 kB. */
  lemma RingLosesInBetween()
    ensures var P, t := Rail(-10.0), Topo(16, 16);
      && Cheapest(P, t, AllGather, RingOrPat, RING, LL128, 0, 1, 0)
      && !Cheapest(P, t, AllGather, RingOrPat, RING, LL128, 200000, 1, 0)
      && Cheapest(P, t, AllGather, RingOrPat, RING, LL128, 10000000, 1, 0)
  {
    var P, t := Rail(-10.0), Topo(16, 16);
    PatCanDependOnSize();
    RailPatQuote();
    RailRingQuote();
    PriceIsAffine(P, t, AllGather, RING, LL128, 0, 1, 0);
    PriceIsAffine(P, t, AllGather, RING, LL128, 200000, 1, 0);
    PriceIsAffine(P, t, AllGather, RING, LL128, 10000000, 1, 0);
    PriceIsAffine(P, t, AllGather, PAT, SIMPLE, 10000000, 1, 0);
    assert !NotCheaper(P, t, AllGather, PAT, SIMPLE, 200000, 1, 0, Time(P, t, AllGather, RING, LL128, 200000, 1, 0));
  }
}
