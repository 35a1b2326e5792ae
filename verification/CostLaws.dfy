/**
  What the prices of the cost model mean: the hops and the traffic of the schedule each algorithm
  runs, and the least of the bandwidth limits that apply to it.
 */
module CostLaws {
  import opened Common
  import opened Bits
  import opened CostModel

  // ------------------------------------------------------------------- schedules

  /** One reduce-scatter and one all-gather for AllReduce, one of them for the others. */
  function Rounds(coll: Coll): nat { if coll == AllReduce then 2 else 1 }

  /** The node of each rank in ring order: the nodes one after the other, each with at least a rank. */
  ghost predicate Layout(nodes: seq<nat>, t: Topo) {
    && |nodes| == t.nRanks >= 1 && nodes[0] == 0 && nodes[|nodes| - 1] == t.nNodes - 1
    && forall q :: 0 <= q < |nodes| - 1 ==> NextTo(nodes, q)
  }

  ghost predicate NextTo(nodes: seq<nat>, q: int) {
    0 <= q < |nodes| - 1 && nodes[q] <= nodes[q + 1] <= nodes[q] + 1
  }

  /** The time a piece takes from rank 0 to rank `m`, from one rank of the ring to the next. */
  function Walk(nodes: seq<nat>, m: nat, intra: real, inter: real): real
    requires m < |nodes|
  {
    if m == 0 then 0.0
    else Walk(nodes, m - 1, intra, inter) + if nodes[m - 1] == nodes[m] then intra else inter
  }

  /** The time from leaf `k` to the root of a binary tree of nodes, in which k / 2 is the parent of k. */
  function Climb(k: int, hop: real): real
    decreases k
  {
    if k <= 1 then 0.0 else hop + Climb(k / 2, hop)
  }

  /** `m` hops one after the other. */
  function Hops(m: nat, hop: real): real { if m == 0 then 0.0 else Hops(m - 1, hop) + hop }

  /** The time for `m` steps that each move `piece` bytes, in microseconds at `bw` gigabytes per second. */
  function Transfer(m: nat, piece: real, bw: real): real
    requires bw > 0.0
  {
    if m == 0 then 0.0 else Transfer(m - 1, piece, bw) + piece / bw / 1000.0
  }

  lemma {:induction false} WalkCounts(nodes: seq<nat>, m: nat, intra: real, inter: real)
    requires m < |nodes| && nodes[0] == 0 && forall q :: 0 <= q < |nodes| - 1 ==> NextTo(nodes, q)
    ensures nodes[m] <= m
    ensures Walk(nodes, m, intra, inter) == Times(m - nodes[m], intra) + Times(nodes[m], inter)
  {
    if m > 0 {
      WalkCounts(nodes, m - 1, intra, inter);
      assert NextTo(nodes, m - 1);
    }
  }

  lemma {:induction false} ClimbCounts(k: int, hop: real)
    ensures Climb(k, hop) == Times(CostLog2(k), hop)
  {
    if k > 1 {
      ClimbCounts(k / 2, hop);
      assert CostLog2(k) == CostLog2(k / 2) + 1;
      TimesNext(CostLog2(k / 2), hop);
    }
  }

  lemma TimesNext(k: int, x: real)
    ensures Times(k + 1, x) == x + Times(k, x)
  {}

  /** The way from the last node is the longest. */
  lemma {:induction false} LastIsDeepest(j: int, k: int, hop: real)
    requires j <= k && hop >= 0.0
    ensures Climb(j, hop) <= Climb(k, hop)
    decreases k
  {
    if k > 1 {
      ClimbCounts(k / 2, hop);
      if j > 1 { LastIsDeepest(j / 2, k / 2, hop); }
    }
  }

  lemma {:induction false} HopsCount(m: nat, hop: real)
    ensures Hops(m, hop) == Times(m, hop)
  {
    if m > 0 { HopsCount(m - 1, hop); }
  }

  lemma {:induction false} TransferCounts(m: nat, piece: real, bw: real)
    requires bw > 0.0
    ensures Transfer(m, piece, bw) == m as real * (piece / bw / 1000.0)
  {
    if m > 0 { TransferCounts(m - 1, piece, bw); }
  }

  // ------------------------------------------------------------------- latencies

  function RanksPerNode(t: Topo): int
    requires t.nNodes >= 1
  { t.nRanks / t.nNodes }

  /** A hop over the network: a tree's if each node has one rank; SIMPLE crosses the graph twice. */
  function NetHop(P: Params, t: Topo, algo: Algo, proto: Proto): real
    requires t.nNodes >= 1
  {
    var hop := if RanksPerNode(t) == 1 then P.hwLatencies(NET, TREE, proto) else P.hwLatencies(NET, algo, proto);
    hop + Hops(if proto == SIMPLE then 2 else 1, P.graphLatencyInter)
  }

  function LinkHop(P: Params, algo: Algo, proto: Proto): real { P.hwLatencies(NVLINK, algo, proto) }

  function Latency(P: Params, t: Topo, coll: Coll, algo: Algo, proto: Proto): real
    requires t.nNodes >= 1
  {
    AlgoLatency(P, algo, proto, coll, t.nRanks, t.nNodes, RanksPerNode(t))
  }

  lemma NetHopIs(P: Params, t: Topo, algo: Algo, proto: Proto)
    requires t.nNodes >= 1
    ensures NetHop(P, t, algo, proto) == InterLatency(P, algo, proto, RanksPerNode(t))
  {
    HopsTwice(P.graphLatencyInter);
  }

  /** RING: a piece walks once round all ranks, for AllReduce twice, whatever number of ranks each node has. */
  lemma RingLatency(P: Params, t: Topo, nodes: seq<nat>, coll: Coll, proto: Proto)
    requires t.nNodes >= 1 && Modelled(coll) && Layout(nodes, t)
    ensures var walk := Walk(nodes, t.nRanks - 1, LinkHop(P, RING, proto), NetHop(P, t, RING, proto));
      Latency(P, t, coll, RING, proto) == P.baseLatencies(RING, proto) + Hops(Rounds(coll), walk)
  {
    NetHopIs(P, t, RING, proto);
    RingHopsAre(nodes, LinkHop(P, RING, proto), NetHop(P, t, RING, proto), Rounds(coll));
    RingLatencyIs(P, t, coll, proto);
  }

  lemma RingLatencyIs(P: Params, t: Topo, coll: Coll, proto: Proto)
    requires t.nNodes >= 1 && Modelled(coll)
    ensures Latency(P, t, coll, RING, proto) == P.baseLatencies(RING, proto)
      + RingHops(Rounds(coll) * (t.nRanks - 1), Rounds(coll) * (t.nNodes - 1), LinkHop(P, RING, proto),
                 InterLatency(P, RING, proto, RanksPerNode(t)))
  {}

  lemma RingHopsAre(nodes: seq<nat>, intra: real, inter: real, c: nat)
    requires nodes != [] && nodes[0] == 0 && forall q :: 0 <= q < |nodes| - 1 ==> NextTo(nodes, q)
    requires c == 1 || c == 2
    ensures RingHops(c * (|nodes| - 1), c * nodes[|nodes| - 1], intra, inter)
      == Hops(c, Walk(nodes, |nodes| - 1, intra, inter))
  {
    var m := |nodes| - 1;
    WalkCounts(nodes, m, intra, inter);
    HopsTwice(Walk(nodes, m, intra, inter));
    var u, v := (m - nodes[m]) as real, nodes[m] as real;
    if c == 2 { assert (u + u) * intra == u * intra + u * intra && (v + v) * inter == v * inter + v * inter; }
  }

  /**
    TREE: up the chain of a node's ranks and up the tree of nodes from the node farthest from the
    root, and down again.
   */
  lemma TreeLatency(P: Params, t: Topo, proto: Proto)
    requires t.nNodes >= 1 && RanksPerNode(t) >= 1
    ensures var up := Hops(RanksPerNode(t) - 1, LinkHop(P, TREE, proto))
                    + Climb(t.nNodes, NetHop(P, t, TREE, proto));
      Latency(P, t, AllReduce, TREE, proto) == P.baseLatencies(TREE, proto) + Hops(2, up)
  {
    var x, y := LinkHop(P, TREE, proto), NetHop(P, t, TREE, proto);
    NetHopIs(P, t, TREE, proto);
    TreeLatencyIs(P, t, proto, x, y);
    TreeHopsAre(RanksPerNode(t), t.nNodes, x, y);
  }

  lemma TreeLatencyIs(P: Params, t: Topo, proto: Proto, intra: real, inter: real)
    requires t.nNodes >= 1 && intra == LinkHop(P, TREE, proto)
    requires inter == InterLatency(P, TREE, proto, RanksPerNode(t))
    ensures Latency(P, t, AllReduce, TREE, proto)
      == P.baseLatencies(TREE, proto) + TreeHops(RanksPerNode(t), CostLog2(t.nNodes), intra, inter)
  {}

  lemma TreeHopsAre(ppn: int, nNodes: int, intra: real, inter: real)
    requires ppn >= 1
    ensures TreeHops(ppn, CostLog2(nNodes), intra, inter) == Hops(2, Hops(ppn - 1, intra) + Climb(nNodes, inter))
  {
    HopsCount(ppn - 1, intra);
    ClimbCounts(nNodes, inter);
    HopsTwice(Hops(ppn - 1, intra) + Climb(nNodes, inter));
  }

  lemma HopsTwice(hop: real)
    ensures Hops(1, hop) == hop && Hops(2, hop) == hop + hop == 2.0 * hop
  {
    assert Hops(0, hop) == 0.0;
  }

  /** NVLS: one hop to the switch, and one over the network if there is one. */
  lemma NvlsLatency(P: Params, t: Topo, coll: Coll, proto: Proto)
    requires t.nNodes >= 1 && Modelled(coll)
    ensures Latency(P, t, coll, NVLS, proto)
      == LinkHop(P, NVLS, proto) + (if t.nNodes > 1 then NetHop(P, t, NVLS, proto) else 0.0)
  {
    NetHopIs(P, t, NVLS, proto);
  }

  /** NVLS_TREE: one hop to the switch, and up and down the tree of nodes. */
  lemma NvlsTreeLatency(P: Params, t: Topo, proto: Proto)
    requires t.nNodes >= 1
    ensures Latency(P, t, AllReduce, NVLS_TREE, proto)
      == P.baseLatencies(NVLS_TREE, proto) + LinkHop(P, NVLS_TREE, proto)
       + Hops(2, Climb(t.nNodes, NetHop(P, t, NVLS_TREE, proto)))
  {
    NetHopIs(P, t, NVLS_TREE, proto);
    ClimbCounts(t.nNodes, NetHop(P, t, NVLS_TREE, proto));
    HopsTwice(Climb(t.nNodes, NetHop(P, t, NVLS_TREE, proto)));
    NvlsTreeLatencyIs(P, t, proto);
  }

  lemma NvlsTreeLatencyIs(P: Params, t: Topo, proto: Proto)
    requires t.nNodes >= 1
    ensures Latency(P, t, AllReduce, NVLS_TREE, proto)
      == P.baseLatencies(NVLS_TREE, proto) + LinkHop(P, NVLS_TREE, proto)
       + 2.0 * Times(CostLog2(t.nNodes), InterLatency(P, NVLS_TREE, proto, RanksPerNode(t)))
  {}

  /** PAT: up a tree of nodes over hops that cross the graph twice, and some work for every rank. */
  lemma PatLatencyLaw(P: Params, t: Topo)
    requires t.nRanks >= 0
    ensures PatLatency(P, t, SIMPLE) == P.baseLatencies(PAT, SIMPLE)
      + Climb(t.nNodes, P.hwLatencies(NET, PAT, SIMPLE) + Hops(2, P.graphLatencyInter))
      + Hops(t.nRanks, P.patLatPerRank)
  {
    var g, hop := P.graphLatencyInter, P.hwLatencies(NET, PAT, SIMPLE) + 2.0 * P.graphLatencyInter;
    HopsTwice(g);
    ClimbCounts(t.nNodes, hop);
    HopsCount(t.nRanks, P.patLatPerRank);
    PatLatencyIs(P, t, hop);
  }

  lemma PatLatencyIs(P: Params, t: Topo, hop: real)
    requires hop == P.hwLatencies(NET, PAT, SIMPLE) + 2.0 * P.graphLatencyInter
    ensures PatLatency(P, t, SIMPLE)
      == P.baseLatencies(PAT, SIMPLE) + Times(CostLog2(t.nNodes), hop) + Times(t.nRanks, P.patLatPerRank)
  {}

  /** The latency counts once for each of the operations a ring pipelines, and for every four of another algorithm. */
  lemma LatCountLaw(algo: Algo, numPipeOps: int)
    ensures var c := LatCount(algo, numPipeOps);
      && c >= 1 && (algo == RING ==> c >= numPipeOps && (c == 1 || c == numPipeOps))
      && (algo != RING ==> 4 * c >= numPipeOps && (c == 1 || 4 * (c - 1) < numPipeOps))
  {}

  // ------------------------------------------------------------------- traffic

  /** The steps of the schedule in which data moves, and how much each moves. */
  function DataSteps(coll: Coll, algo: Algo, nRanks: int): (m: nat)
    requires nRanks >= 2
  {
    if algo == TREE then 2 else Rounds(coll) * (nRanks - 1)
  }

  function Piece(algo: Algo, nRanks: int, nBytes: nat): real
    requires nRanks >= 2
  {
    if algo == TREE then nBytes as real else nBytes as real / nRanks as real
  }

  /** The cells that have a bandwidth. */
  predicate HasSchedule(coll: Coll, algo: Algo) {
    if coll == AllReduce then algo in {TREE, RING, NVLS, NVLS_TREE}
    else coll in {AllGather, ReduceScatter} && algo in {RING, NVLS}
  }

  /**
    The transfer term is the traffic of the schedule over the bus bandwidth: n - 1 steps of a nth of
    the data for each round of a ring, all of it up and all of it down a tree.
   */
  lemma TrafficLaw(busBw: real, coll: Coll, algo: Algo, nRanks: int, nBytes: nat)
    requires nRanks >= 2 && busBw > 0.0 && HasSchedule(coll, algo)
    ensures var algoBw := BusBwToAlgoBw(busBw, algo, coll, nRanks);
      algoBw > 0.0 &&
      nBytes as real / (1000.0 * algoBw) == Transfer(DataSteps(coll, algo, nRanks), Piece(algo, nRanks, nBytes), busBw)
  {
    var x, n, m := nBytes as real, nRanks as real, DataSteps(coll, algo, nRanks);
    TransferCounts(m, Piece(algo, nRanks, nBytes), busBw);
    if algo == TREE {
      HalfRate(x, busBw);
    } else {
      RingRate(x, busBw, n, m as real);
      assert BusBwToAlgoBw(busBw, algo, coll, nRanks) == busBw * (n / m as real);
    }
  }

  lemma HalfRate(x: real, bw: real)
    requires bw > 0.0
    ensures x / (1000.0 * (bw * 0.5)) == 2.0 * (x / bw / 1000.0)
  {
    Quotient(x, bw, 500.0);
    assert x / bw / 500.0 == 2.0 * (x / bw / 1000.0);
    assert 1000.0 * (bw * 0.5) == bw * 500.0;
  }

  lemma Quotient(x: real, a: real, b: real)
    requires a > 0.0 && b > 0.0
    ensures x / (a * b) == x / a / b
  {
    var q := x / a / b;
    assert q * b == x / a;
    assert q * (a * b) == (q * b) * a == x;
  }

  lemma RingRate(x: real, bw: real, n: real, m: real)
    requires bw > 0.0 && n > 0.0 && m > 0.0
    ensures bw * (n / m) > 0.0
    ensures x / (1000.0 * (bw * (n / m))) == m * (x / n / bw / 1000.0)
  {
    var r := n / m;
    assert r > 0.0 && r * m == n;
    var q := x / n / bw / 1000.0;
    assert q * 1000.0 == x / n / bw;
    assert q * 1000.0 * bw == x / n;
    assert q * 1000.0 * bw * n == x;
    var d := 1000.0 * (bw * r);
    assert bw * r > 0.0;
    assert (m * q) * d == (q * 1000.0 * bw) * (r * m);
    assert (m * q) * d == x;
  }

  // ------------------------------------------------------------------- bandwidth limits

  /** The entry of a cap table for one, two or more nodes. */
  function ByNodes(table: int -> real, t: Topo): real {
    table(if t.nNodes >= 3 then 2 else if t.nNodes == 2 then 1 else 0)
  }

  ghost predicate IsLeast(x: real, limits: seq<real>) {
    x in limits && forall i :: 0 <= i < |limits| ==> x <= limits[i]
  }

  /** What a channel can carry: its link, and the caps of the profile that apply. */
  function ChannelLimits(P: Params, t: Topo, coll: Coll, algo: Algo): seq<real>
    requires P.nChannels >= 2 || algo !in {NVLS, NVLS_TREE}
  {
    if algo == NVLS || algo == NVLS_TREE then
      var phases := if coll == AllReduce then 2.0 else 1.0;
      var intra := P.bwIntra * P.nvlsEfficiency * ((P.nChannels - 1) as real / P.nChannels as real) * phases;
      if algo == NVLS then [intra, P.bwInter, 1.0e30]
      else [intra, if t.nNodes <= 2 then P.bwInter * 2.0 else P.bwInter, ByNodes(P.perChMaxNVLSTreeBw, t)]
    else if t.nNodes >= 2 then
      [P.bwInter] + if algo == RING && P.ringBwCapInter > 0.0 then [P.ringBwCapInter] else []
    else [P.bwIntra]
  }

  /** The ring of an AllReduce on one node, with SIMPLE, has a cap of its own. */
  predicate OneNodeRing(P: Params, t: Topo, coll: Coll, algo: Algo, proto: Proto) {
    coll == AllReduce && algo == RING && proto == SIMPLE && t.nNodes == 1 && P.ringBwCapIntra > 0.0
  }

  /** A channel's bandwidth is the least of its limits; NVLS has none but with SIMPLE and two channels. */
  lemma ChannelIsLeast(P: Params, t: Topo, coll: Coll, algo: Algo, proto: Proto)
    requires t.nNodes >= 1
    ensures algo in {NVLS, NVLS_TREE} && (proto != SIMPLE || P.nChannels < 2) ==>
      ChannelBw(P, t, coll, algo, proto) == -1.0
    ensures !(algo in {NVLS, NVLS_TREE} && (proto != SIMPLE || P.nChannels < 2)) ==>
      IsLeast(ChannelBw(P, t, coll, algo, proto),
        ChannelLimits(P, t, coll, algo) + if OneNodeRing(P, t, coll, algo, proto) then [P.ringBwCapIntra] else [])
  {
    if !(algo in {NVLS, NVLS_TREE} && (proto != SIMPLE || P.nChannels < 2)) {
      var bw := ChannelBw(P, t, coll, algo, proto);
      var limits := ChannelLimits(P, t, coll, algo);
      var own := if OneNodeRing(P, t, coll, algo, proto) then [P.ringBwCapIntra] else [];
      assert limits[0] in limits + own && (|limits| > 1 ==> limits[1] in limits + own);
      assert |limits| > 2 ==> limits[2] in limits + own;
    }
  }

  /** What all channels with a protocol can carry, given what they carry without it. */
  function BusLimits(P: Params, t: Topo, algo: Algo, proto: Proto, raw: real): seq<real> {
    if algo == RING then
      if proto == LL then [ByNodes(P.llMaxBw, t), raw * 0.5]
      else if proto == LL128 then [Together(P, ByNodes(P.perChMaxRingLL128Bw, t)), raw * 0.78]
      else [raw]
    else if algo == TREE then
      var tree := [Together(P, ByNodes(P.perChMaxTreeBw, t)), raw * 0.92];
      if proto == LL then [ByNodes(P.llMaxBw, t), tree[0] / 3.8, tree[1] / 3.8]
      else if proto == LL128 then
        var share := if t.nNodes == 1 then 7.0 / 9.0 else 120.0 / 128.0;
        [Together(P, ByNodes(P.perChMaxTreeLL128Bw, t)), tree[0] * share, tree[1] * share]
      else tree
    else [raw]
  }

  /** The bus bandwidth is the least of them: no cell exceeds its protocol's or its algorithm's cap. */
  lemma BusIsLeast(P: Params, t: Topo, coll: Coll, algo: Algo, proto: Proto, raw: real)
    requires raw == Together(P, ChannelBw(P, t, coll, algo, proto))
    ensures IsLeast(BusBw(P, t, coll, algo, proto), BusLimits(P, t, algo, proto, raw))
  {
    BusBwIs(P, t, coll, algo, proto, raw);
    CapIsLeast(P, t, algo, proto, raw);
  }

  lemma BusBwIs(P: Params, t: Topo, coll: Coll, algo: Algo, proto: Proto, raw: real)
    requires raw == Together(P, ChannelBw(P, t, coll, algo, proto))
    ensures BusBw(P, t, coll, algo, proto) == ApplyProtocolCap(raw, algo, proto, P, Scale(t.nNodes), t.nNodes)
  {}

  lemma CapIsLeast(P: Params, t: Topo, algo: Algo, proto: Proto, raw: real)
    ensures IsLeast(ApplyProtocolCap(raw, algo, proto, P, Scale(t.nNodes), t.nNodes), BusLimits(P, t, algo, proto, raw))
  {
    if algo == RING {
      LeastOfTwo(ByNodes(P.llMaxBw, t), raw * 0.5);
      LeastOfTwo(Together(P, ByNodes(P.perChMaxRingLL128Bw, t)), raw * 0.78);
      assert IsLeast(raw, [raw]) by { assert [raw][0] == raw; }
    } else if algo == TREE {
      TreeCapIsLeast(P, t, proto, raw, Together(P, ByNodes(P.perChMaxTreeBw, t)), raw * 0.92);
    } else {
      assert [raw][0] == raw;
    }
  }

  lemma TreeCapIsLeast(P: Params, t: Topo, proto: Proto, raw: real, a: real, b: real)
    requires a == Together(P, ByNodes(P.perChMaxTreeBw, t)) && b == raw * 0.92
    ensures IsLeast(ApplyProtocolCap(raw, TREE, proto, P, Scale(t.nNodes), t.nNodes), BusLimits(P, t, TREE, proto, raw))
  {
    var share := if t.nNodes == 1 then 7.0 / 9.0 else 120.0 / 128.0;
    if proto == LL {
      LeastOfThree(ByNodes(P.llMaxBw, t), a / 3.8, b / 3.8);
      assert MinR(a, b) / 3.8 == MinR(a / 3.8, b / 3.8);
    } else if proto == LL128 {
      LeastOfThree(Together(P, ByNodes(P.perChMaxTreeLL128Bw, t)), a * share, b * share);
      MinTimes(a, b, share);
    } else {
      LeastOfTwo(a, b);
    }
  }

  lemma MinTimes(a: real, b: real, k: real)
    requires k > 0.0
    ensures MinR(a, b) * k == MinR(a * k, b * k)
  {
    if a < b { assert a * k < b * k; } else { assert b * k <= a * k; }
  }

  lemma LeastOfTwo(a: real, b: real)
    ensures IsLeast(MinR(a, b), [a, b])
  {
    assert [a, b][0] == a && [a, b][1] == b;
  }

  lemma LeastOfThree(a: real, b: real, c: real)
    ensures IsLeast(MinR(a, MinR(b, c)), [a, b, c])
  {
    assert [a, b, c][0] == a && [a, b, c][1] == b && [a, b, c][2] == c;
  }

  /** The link every channel of a ring or tree crosses. */
  function Link(P: Params, t: Topo): real { if t.nNodes >= 2 then P.bwInter else P.bwIntra }

  /** Nor does any cell exceed what its links carry together. */
  lemma WithinTheLinks(P: Params, t: Topo, coll: Coll, algo: Algo, proto: Proto)
    requires t.nNodes >= 1 && P.nChannels >= 0 && algo !in {NVLS, NVLS_TREE}
    requires P.bwIntra >= 0.0 && P.bwInter >= 0.0
    ensures BusBw(P, t, coll, algo, proto) <= Hops(P.nChannels, Link(P, t))
  {
    BusBwIs(P, t, coll, algo, proto, Together(P, ChannelBw(P, t, coll, algo, proto)));
    ChannelWithinLink(P, t, coll, algo, proto);
    CapWithinLinks(P, t, algo, proto, ChannelBw(P, t, coll, algo, proto));
  }

  lemma CapWithinLinks(P: Params, t: Topo, algo: Algo, proto: Proto, bw: real)
    requires P.nChannels >= 0 && 0.0 <= bw <= Link(P, t)
    ensures ApplyProtocolCap(Together(P, bw), algo, proto, P, Scale(t.nNodes), t.nNodes)
         <= Hops(P.nChannels, Link(P, t))
  {
    TogetherMono(P, bw, Link(P, t));
    BusWithinRaw(P, t, algo, proto, Together(P, bw));
    TogetherIsSum(P, Link(P, t));
  }

  lemma TogetherIsSum(P: Params, bw: real)
    requires P.nChannels >= 0
    ensures Together(P, bw) == Hops(P.nChannels, bw)
  {
    HopsCount(P.nChannels, bw);
  }

  lemma ChannelWithinLink(P: Params, t: Topo, coll: Coll, algo: Algo, proto: Proto)
    requires t.nNodes >= 1 && algo !in {NVLS, NVLS_TREE} && P.bwIntra >= 0.0 && P.bwInter >= 0.0
    ensures 0.0 <= ChannelBw(P, t, coll, algo, proto) <= Link(P, t)
  {}

  lemma TogetherMono(P: Params, a: real, b: real)
    requires P.nChannels >= 0 && 0.0 <= a <= b
    ensures 0.0 <= Together(P, a) <= Together(P, b)
  {}

  lemma BusWithinRaw(P: Params, t: Topo, algo: Algo, proto: Proto, raw: real)
    requires raw >= 0.0
    ensures ApplyProtocolCap(raw, algo, proto, P, Scale(t.nNodes), t.nNodes) <= raw
  {
    CapIsLeast(P, t, algo, proto, raw);
    var limits := BusLimits(P, t, algo, proto, raw);
    assert limits[|limits| - 1] <= raw;
  }

  // ------------------------------------------------------------------- prices

  /** A cell's price, if it has one: the scaled latency as often as it counts, and the traffic of its schedule. */
  lemma PriceOfSchedule(P: Params, t: Topo, coll: Coll, algo: Algo, proto: Proto, nBytes: nat, numPipeOps: int,
                        regBuff: int)
    requires t.nNodes >= 1 && t.nRanks >= 2 && Modelled(coll) && HasSchedule(coll, algo)
    requires algo == NVLS ==> t.nNodes == 1
    ensures Time(P, t, coll, algo, proto, nBytes, numPipeOps, regBuff)
      == SchedulePrice(ChannelBw(P, t, coll, algo, proto), BusBw(P, t, coll, algo, proto), coll, algo, t.nRanks, nBytes,
                       Latency(P, t, coll, algo, proto), RegLatScale(P, coll, algo, proto, regBuff),
                       LatCount(algo, numPipeOps))
  {
    TimeIsCombined(P, t, coll, algo, proto, nBytes, numPipeOps, regBuff);
    CombinedIsSchedule(ChannelBw(P, t, coll, algo, proto), BusBw(P, t, coll, algo, proto), coll, algo, t.nRanks, nBytes,
                       Latency(P, t, coll, algo, proto), RegLatScale(P, coll, algo, proto, regBuff),
                       LatCount(algo, numPipeOps));
  }

  /** No price without bandwidth or with a negative latency. */
  function SchedulePrice(channelBw: real, busBw: real, coll: Coll, algo: Algo, nRanks: int, nBytes: nat, lat: real,
                         scale: real, count: int): real
    requires nRanks >= 2
  {
    if channelBw < 0.0 || busBw <= 0.0 || lat < 0.0 then -1.0
    else lat * scale * count as real + Transfer(DataSteps(coll, algo, nRanks), Piece(algo, nRanks, nBytes), busBw)
  }

  lemma CombinedIsSchedule(channelBw: real, busBw: real, coll: Coll, algo: Algo, nRanks: int, nBytes: nat, lat: real,
                           scale: real, count: int)
    requires nRanks >= 2 && HasSchedule(coll, algo)
    ensures var algoBw := if channelBw < 0.0 then -1.0 else BusBwToAlgoBw(busBw, algo, coll, nRanks);
      Combine(algoBw, lat, scale, count, nBytes)
        == SchedulePrice(channelBw, busBw, coll, algo, nRanks, nBytes, lat, scale, count)
  {
    if busBw > 0.0 { TrafficLaw(busBw, coll, algo, nRanks, nBytes); } else { NoRate(busBw, coll, algo, nRanks); }
  }

  lemma TimeIsCombined(P: Params, t: Topo, coll: Coll, algo: Algo, proto: Proto, nBytes: nat, numPipeOps: int,
                       regBuff: int)
    requires t.nNodes >= 1 && t.nRanks >= 2 && Modelled(coll) && HasSchedule(coll, algo)
    requires algo == NVLS ==> t.nNodes == 1
    ensures var algoBw := if ChannelBw(P, t, coll, algo, proto) < 0.0 then -1.0
                          else BusBwToAlgoBw(BusBw(P, t, coll, algo, proto), algo, coll, t.nRanks);
      Time(P, t, coll, algo, proto, nBytes, numPipeOps, regBuff)
        == Combine(algoBw, Latency(P, t, coll, algo, proto), RegLatScale(P, coll, algo, proto, regBuff),
                   LatCount(algo, numPipeOps), nBytes)
  {}

  /**
    PAT: modelled with an efficiency, SIMPLE and one rank to a node; the data crosses the links of all
    channels once, at that efficiency `bw`. The latency can have any sign.
   */
  lemma PatPrice(P: Params, t: Topo, coll: Coll, proto: Proto, nBytes: nat, numPipeOps: int, regBuff: int, bw: real)
    requires t.nNodes >= 1 && t.nRanks >= 2 && (coll == AllGather || coll == ReduceScatter)
    requires P.nChannels >= 0 && bw == Hops(P.nChannels, Link(P, t)) * P.patBwEff
    ensures if P.patBwEff > 0.0 && proto == SIMPLE && t.nNodes == t.nRanks && bw > 0.0 then
        var lat := PatLatency(P, t, proto) * RegLatScale(P, coll, PAT, proto, regBuff);
        Time(P, t, coll, PAT, proto, nBytes, numPipeOps, regBuff)
          == lat * LatCount(PAT, numPipeOps) as real + Transfer(1, nBytes as real, bw)
      else
        Time(P, t, coll, PAT, proto, nBytes, numPipeOps, regBuff) == -1.0
  {
    PatBwIs(P, t);
    PatPriceIs(P, t, coll, proto, nBytes, numPipeOps, regBuff, bw);
  }

  lemma PatBwIs(P: Params, t: Topo)
    requires P.nChannels >= 0
    ensures PatBw(P, t) == Hops(P.nChannels, Link(P, t)) * P.patBwEff
  {
    TogetherIsSum(P, Link(P, t));
  }

  lemma PatPriceIs(P: Params, t: Topo, coll: Coll, proto: Proto, nBytes: nat, numPipeOps: int, regBuff: int, bw: real)
    requires t.nNodes >= 1 && t.nRanks >= 2 && (coll == AllGather || coll == ReduceScatter) && bw == PatBw(P, t)
    ensures if P.patBwEff > 0.0 && proto == SIMPLE && t.nNodes == t.nRanks && bw > 0.0 then
        var lat := PatLatency(P, t, proto) * RegLatScale(P, coll, PAT, proto, regBuff);
        Time(P, t, coll, PAT, proto, nBytes, numPipeOps, regBuff)
          == lat * LatCount(PAT, numPipeOps) as real + Transfer(1, nBytes as real, bw)
      else
        Time(P, t, coll, PAT, proto, nBytes, numPipeOps, regBuff) == -1.0
  {
    if bw > 0.0 { OneTransfer(nBytes as real, bw); }
  }

  lemma OneTransfer(x: real, bw: real)
    requires bw > 0.0
    ensures x / (1000.0 * bw) == Transfer(1, x, bw)
  {
    Quotient(x, bw, 1000.0);
    assert 1000.0 * bw == bw * 1000.0;
    assert Transfer(0, x, bw) == 0.0;
  }

  /** The other cells have no price, and a single rank has nothing to pay. */
  lemma OtherCells(P: Params, t: Topo, coll: Coll, algo: Algo, proto: Proto, nBytes: nat, numPipeOps: int, regBuff: int)
    requires t.nNodes >= 1 && Modelled(coll)
    ensures t.nRanks <= 1 ==> Time(P, t, coll, algo, proto, nBytes, numPipeOps, regBuff) == 0.0
    ensures t.nRanks >= 2 && !HasSchedule(coll, algo) && (algo != PAT || coll == AllReduce) ==>
      Time(P, t, coll, algo, proto, nBytes, numPipeOps, regBuff) == -1.0
    ensures t.nRanks >= 2 && algo == NVLS && t.nNodes >= 2 ==>
      Time(P, t, coll, algo, proto, nBytes, numPipeOps, regBuff) == -1.0
  {}

  /** The scale of the latency with registered buffers: the profile's, where it has one for the collective. */
  function RegisteredScale(P: Params, coll: Coll, algo: Algo, proto: Proto): real {
    var s := match coll
      case AllReduce => P.arRegLatScale(algo, proto)
      case AllGather => P.agRegLatScale(algo, proto)
      case _ => 1.0;
    if s > 0.0 then s else 1.0
  }

  /** Registered buffers scale what is paid for latency and nothing else. */
  lemma RegisteredBuffers(P: Params, t: Topo, coll: Coll, algo: Algo, proto: Proto, nBytes: nat, numPipeOps: int,
                          regBuff: int, plain: real, registered: real, transfer: real, scale: real)
    requires t.nNodes >= 1 && t.nRanks >= 2 && Modelled(coll) && HasSchedule(coll, algo)
    requires (algo == NVLS ==> t.nNodes == 1) && regBuff != 0 && BusBw(P, t, coll, algo, proto) > 0.0
    requires plain == Time(P, t, coll, algo, proto, nBytes, numPipeOps, 0) >= 0.0
    requires registered == Time(P, t, coll, algo, proto, nBytes, numPipeOps, regBuff)
    requires transfer
      == Transfer(DataSteps(coll, algo, t.nRanks), Piece(algo, t.nRanks, nBytes), BusBw(P, t, coll, algo, proto))
    requires scale == RegisteredScale(P, coll, algo, proto)
    ensures registered - transfer == scale * (plain - transfer)
  {
    PricedAs(P, t, coll, algo, proto, nBytes, numPipeOps, regBuff, registered, scale);
    PricedAs(P, t, coll, algo, proto, nBytes, numPipeOps, 0, plain, 1.0);
    ScaledSchedule(ChannelBw(P, t, coll, algo, proto), BusBw(P, t, coll, algo, proto), coll, algo, t.nRanks, nBytes,
                   Latency(P, t, coll, algo, proto), scale, LatCount(algo, numPipeOps), plain, registered, transfer);
  }

  lemma PricedAs(P: Params, t: Topo, coll: Coll, algo: Algo, proto: Proto, nBytes: nat, numPipeOps: int, regBuff: int,
                 price: real, scale: real)
    requires t.nNodes >= 1 && t.nRanks >= 2 && Modelled(coll) && HasSchedule(coll, algo)
    requires (algo == NVLS ==> t.nNodes == 1) && price == Time(P, t, coll, algo, proto, nBytes, numPipeOps, regBuff)
    requires scale == if regBuff == 0 then 1.0 else RegisteredScale(P, coll, algo, proto)
    ensures price
      == SchedulePrice(ChannelBw(P, t, coll, algo, proto), BusBw(P, t, coll, algo, proto), coll, algo, t.nRanks, nBytes,
                       Latency(P, t, coll, algo, proto), scale, LatCount(algo, numPipeOps))
  {
    PriceOfSchedule(P, t, coll, algo, proto, nBytes, numPipeOps, regBuff);
    if regBuff != 0 { RegisteredScaleIs(P, coll, algo, proto, regBuff); }
  }

  lemma RegisteredScaleIs(P: Params, coll: Coll, algo: Algo, proto: Proto, regBuff: int)
    requires regBuff != 0
    ensures RegLatScale(P, coll, algo, proto, 0) == 1.0
    ensures RegLatScale(P, coll, algo, proto, regBuff) == RegisteredScale(P, coll, algo, proto)
  {}

  lemma ScaledSchedule(channelBw: real, busBw: real, coll: Coll, algo: Algo, nRanks: int, nBytes: nat, lat: real,
                       scale: real, count: int, plain: real, registered: real, transfer: real)
    requires nRanks >= 2 && busBw > 0.0 && plain >= 0.0
    requires plain == SchedulePrice(channelBw, busBw, coll, algo, nRanks, nBytes, lat, 1.0, count)
    requires registered == SchedulePrice(channelBw, busBw, coll, algo, nRanks, nBytes, lat, scale, count)
    requires transfer == Transfer(DataSteps(coll, algo, nRanks), Piece(algo, nRanks, nBytes), busBw)
    ensures registered - transfer == scale * (plain - transfer)
  {
    ScaledBy(lat, scale, count as real);
  }

  lemma ScaledBy(lat: real, s: real, c: real)
    ensures lat * s * c == s * (lat * 1.0 * c)
  {}

  lemma NoRate(busBw: real, coll: Coll, algo: Algo, nRanks: int)
    requires nRanks >= 2 && busBw <= 0.0
    ensures BusBwToAlgoBw(busBw, algo, coll, nRanks) <= 0.0
  {
    var r := nRanks as real / (2 * (nRanks - 1)) as real;
    var q := nRanks as real / (nRanks - 1) as real;
    assert r > 0.0 && q > 0.0;
    assert busBw * r <= 0.0 && busBw * q <= 0.0;
  }

  /** Unless the ring of AllReduce has a cap of its own, its ring has the bandwidth of the others. */
  lemma SameBus(P: Params, t: Topo, proto: Proto, coll: Coll)
    requires Modelled(coll) && !OneNodeRing(P, t, AllReduce, RING, proto)
    ensures ChannelBw(P, t, AllReduce, RING, proto) == ChannelBw(P, t, coll, RING, proto)
    ensures BusBw(P, t, AllReduce, RING, proto) == BusBw(P, t, coll, RING, proto)
  {}

  /**
    An AllReduce on the ring costs what a ReduceScatter and an AllGather of the same data cost, but
    that it pays the base latency once. All the bytes of both phases are paid for.
   */
  lemma AllReduceIsBothPhases(P: Params, t: Topo, proto: Proto, nBytes: nat, numPipeOps: int)
    requires t.nNodes >= 1 && t.nRanks >= 2 && !OneNodeRing(P, t, AllReduce, RING, proto)
    requires Time(P, t, AllReduce, RING, proto, nBytes, numPipeOps, 0) >= 0.0
    requires Time(P, t, ReduceScatter, RING, proto, nBytes, numPipeOps, 0) >= 0.0
    ensures Time(P, t, AllReduce, RING, proto, nBytes, numPipeOps, 0)
          + Times(LatCount(RING, numPipeOps), P.baseLatencies(RING, proto))
      == Time(P, t, ReduceScatter, RING, proto, nBytes, numPipeOps, 0)
       + Time(P, t, AllGather, RING, proto, nBytes, numPipeOps, 0)
  {
    var bw, channel := BusBw(P, t, AllReduce, RING, proto), ChannelBw(P, t, AllReduce, RING, proto);
    var a := RingPrice(P, t, AllReduce, proto, nBytes, numPipeOps, channel, bw);
    var b := RingPrice(P, t, ReduceScatter, proto, nBytes, numPipeOps, channel, bw);
    var c := RingPrice(P, t, AllGather, proto, nBytes, numPipeOps, channel, bw);
    BothPhases(channel, bw, t.nRanks, nBytes, P.baseLatencies(RING, proto), t.nNodes,
               LinkHop(P, RING, proto), InterLatency(P, RING, proto, RanksPerNode(t)), LatCount(RING, numPipeOps),
               a, b, c);
  }

  /** The price of a ring cell in terms of the ring of AllReduce. */
  function RingSchedule(channel: real, bw: real, coll: Coll, nRanks: int, nBytes: nat, base: real, nNodes: int,
                        intra: real, inter: real, count: int): real
    requires nRanks >= 2
  {
    var c := Rounds(coll);
    var lat := base + RingHops(c * (nRanks - 1), c * (nNodes - 1), intra, inter);
    SchedulePrice(channel, bw, coll, RING, nRanks, nBytes, lat, 1.0, count)
  }

  lemma RingPrice(P: Params, t: Topo, coll: Coll, proto: Proto, nBytes: nat, numPipeOps: int, channel: real, bw: real)
      returns (price: real)
    requires t.nNodes >= 1 && t.nRanks >= 2 && Modelled(coll) && !OneNodeRing(P, t, AllReduce, RING, proto)
    requires channel == ChannelBw(P, t, AllReduce, RING, proto) && bw == BusBw(P, t, AllReduce, RING, proto)
    ensures price == Time(P, t, coll, RING, proto, nBytes, numPipeOps, 0)
    ensures price == RingSchedule(channel, bw, coll, t.nRanks, nBytes, P.baseLatencies(RING, proto), t.nNodes,
                                  LinkHop(P, RING, proto), InterLatency(P, RING, proto, RanksPerNode(t)),
                                  LatCount(RING, numPipeOps))
  {
    price := Time(P, t, coll, RING, proto, nBytes, numPipeOps, 0);
    SameBus(P, t, proto, coll);
    PriceOfSchedule(P, t, coll, RING, proto, nBytes, numPipeOps, 0);
    RingLatencyIs(P, t, coll, proto);
  }

  lemma BothPhases(channel: real, bw: real, nRanks: int, nBytes: nat, base: real, nNodes: int, intra: real, inter: real,
                   count: int, both: real, first: real, second: real)
    requires nRanks >= 2 && both >= 0.0 && first >= 0.0
    requires both == RingSchedule(channel, bw, AllReduce, nRanks, nBytes, base, nNodes, intra, inter, count)
    requires first == RingSchedule(channel, bw, ReduceScatter, nRanks, nBytes, base, nNodes, intra, inter, count)
    requires second == RingSchedule(channel, bw, AllGather, nRanks, nBytes, base, nNodes, intra, inter, count)
    ensures both + Times(count, base) == first + second
  {
    var a, b, x := nRanks - 1, nNodes - 1, Piece(RING, nRanks, nBytes);
    TransferTwice(a, x, bw);
    TwiceTheHops(a, b, intra, inter);
    Distribute(base, RingHops(a, b, intra, inter), count as real);
  }

  lemma TransferTwice(m: nat, piece: real, bw: real)
    requires bw > 0.0
    ensures Transfer(2 * m, piece, bw) == Transfer(m, piece, bw) + Transfer(m, piece, bw)
  {
    TransferCounts(2 * m, piece, bw);
    TransferCounts(m, piece, bw);
    var step := piece / bw / 1000.0;
    assert (2 * m) as real * step == m as real * step + m as real * step;
  }

  lemma TwiceTheHops(a: int, b: int, intra: real, inter: real)
    ensures RingHops(2 * a, 2 * b, intra, inter) == RingHops(a, b, intra, inter) + RingHops(a, b, intra, inter)
  {
    var u, v := (a - b) as real, b as real;
    assert (2 * a - 2 * b) as real == u + u && (2 * b) as real == v + v;
    assert (u + u) * intra == u * intra + u * intra && (v + v) * inter == v * inter + v * inter;
  }

  lemma Distribute(base: real, h: real, c: real)
    ensures (base + (h + h)) * 1.0 * c + c * base == (base + h) * 1.0 * c + (base + h) * 1.0 * c
  {}
}
