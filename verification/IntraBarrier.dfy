/**
  The intra-process sum barrier of `net/include/comm.h`: every rank alternates In(x) and Out().
  Counter and running sum share one 64-bit word; the gate carries the sum and a phase bit.

  Ranks interleave freely, one shared access per step. `round`, `calls` and `outs` are
  bookkeeping: rounds released so far, the values each rank passed to In, and those its Outs
  returned.
 */
module IntraBarrier {
  import opened Bits

  const WORD := 0x1_0000_0000
  const WORD64 := 0x1_0000_0000_0000_0000

  type uint32 = x: int | 0 <= x < WORD

  datatype Pc =
    | Idle                      // next call is In
    | Resetting(count: nat)     // last arrival, about to zero the counter
    | Releasing(count: nat)     // about to open the gate
    | Entered                   // In returned, next call is Out
    | Spinning                  // inside Out

  datatype Rank = Rank(phase: nat, pc: Pc, calls: seq<uint32>, outs: seq<nat>)

  datatype State = State(ranks: seq<Rank>, counter: nat, gate: nat, round: nat)

  datatype Step = In(r: nat, x: uint32) | Reset(r: nat) | Release(r: nat) | OutBegin(r: nat) | OutLoad(r: nat)

  function Init(n: nat): State {
    State(seq(n, _ => Rank(0, Idle, [], [])), 0, 0, 0)
  }

  // ---------------------------------------------------------------- transitions

  function Flip(phase: nat): nat { if phase == 0 then 1 else 0 }

  /** `count >> 32 << 32 | phase` for a one-bit phase. */
  function GateWord(count: nat, phase: nat): nat { count / WORD * WORD + phase }

  function WithRank(s: State, r: nat, k: Rank): State
    requires r < |s.ranks|
  { s.(ranks := s.ranks[r := k]) }

  predicate Enabled(s: State, step: Step) {
    && step.r < |s.ranks|
    && match step
       case In(r, _) => s.ranks[r].pc.Idle?
       case Reset(r) => s.ranks[r].pc.Resetting?
       case Release(r) => s.ranks[r].pc.Releasing?
       case OutBegin(r) => s.ranks[r].pc.Entered?
       case OutLoad(r) => s.ranks[r].pc.Spinning?
  }

  function Enter(s: State, r: nat, x: uint32): State
    requires r < |s.ranks|
  {
    var k := s.ranks[r].(calls := s.ranks[r].calls + [x]);
    if |s.ranks| == 1 then
      WithRank(s, r, k.(pc := Entered)).(gate := x * WORD + Flip(k.phase), round := s.round + 1)
    else
      var count := (s.counter + (x * WORD + 1)) % WORD64;
      WithRank(s, r, k.(pc := if count % WORD == |s.ranks| then Resetting(count) else Entered)).(counter := count)
  }

  function Open(s: State, r: nat): State
    requires r < |s.ranks| && s.ranks[r].pc.Releasing?
  {
    var k := s.ranks[r];
    WithRank(s, r, k.(pc := Entered)).(gate := GateWord(k.pc.count, Flip(k.phase)), round := s.round + 1)
  }

  function Leave(s: State, r: nat): State
    requires r < |s.ranks|
  {
    var k := s.ranks[r];
    if s.gate % 2 == k.phase then WithRank(s, r, k.(pc := Idle, outs := k.outs + [s.gate / WORD])) else s
  }

  function Apply(s: State, step: Step): State
    requires Enabled(s, step)
  {
    var k := s.ranks[step.r];
    match step
    case In(r, x) => Enter(s, r, x)
    case Reset(r) => WithRank(s, r, k.(pc := Releasing(k.pc.count))).(counter := 0)
    case Release(r) => Open(s, r)
    case OutBegin(r) => WithRank(s, r, k.(pc := Spinning, phase := Flip(k.phase)))
    case OutLoad(r) => Leave(s, r)
  }

  predicate CanRun(s: State, steps: seq<Step>)
    decreases |steps|
  {
    steps == [] || (Enabled(s, steps[0]) && CanRun(Apply(s, steps[0]), steps[1..]))
  }

  function Run(s: State, steps: seq<Step>): State
    requires CanRun(s, steps)
    decreases |steps|
  {
    if steps == [] then s else Run(Apply(s, steps[0]), steps[1..])
  }

  // ------------------------------------------------------------------ round sums

  /** Sum of what the first `m` ranks passed to In for round `k`. */
  function SumOf(ranks: seq<Rank>, k: nat, m: nat): nat
    requires m <= |ranks|
  {
    if m == 0 then 0
    else SumOf(ranks, k, m - 1) + (if k < |ranks[m - 1].calls| then ranks[m - 1].calls[k] else 0)
  }

  /** How many of the first `m` ranks have entered round `k`. */
  function CountOf(ranks: seq<Rank>, k: nat, m: nat): (c: nat)
    requires m <= |ranks|
    ensures c <= m
  {
    if m == 0 then 0 else CountOf(ranks, k, m - 1) + (if k < |ranks[m - 1].calls| then 1 else 0)
  }

  lemma {:induction false} SameCalls(a: seq<Rank>, b: seq<Rank>, k: nat, m: nat)
    requires |a| == |b| && m <= |a|
    requires forall r :: 0 <= r < m ==> (k < |a[r].calls| <==> k < |b[r].calls|)
    requires forall r :: 0 <= r < m && k < |a[r].calls| ==> a[r].calls[k] == b[r].calls[k]
    ensures SumOf(a, k, m) == SumOf(b, k, m) && CountOf(a, k, m) == CountOf(b, k, m)
  {
    if m > 0 { SameCalls(a, b, k, m - 1); }
  }

  lemma {:induction false} OneMoreCall(a: seq<Rank>, b: seq<Rank>, r: nat, k: nat, m: nat)
    requires r < m <= |a| == |b|
    requires |a[r].calls| == k < |b[r].calls|
    requires forall q :: 0 <= q < m && q != r ==> a[q].calls == b[q].calls
    ensures SumOf(b, k, m) == SumOf(a, k, m) + b[r].calls[k]
    ensures CountOf(b, k, m) == CountOf(a, k, m) + 1
  {
    if m == r + 1 { SameCalls(a, b, k, m - 1); } else { OneMoreCall(a, b, r, k, m - 1); }
  }

  lemma {:induction false} AllEntered(ranks: seq<Rank>, k: nat, m: nat)
    requires m <= |ranks|
    ensures CountOf(ranks, k, m) == m <==> forall r :: 0 <= r < m ==> k < |ranks[r].calls|
  {
    if m > 0 { AllEntered(ranks, k, m - 1); }
  }

  lemma {:induction false} NoneEntered(ranks: seq<Rank>, k: nat, m: nat)
    requires m <= |ranks| && forall r :: 0 <= r < m ==> |ranks[r].calls| <= k
    ensures CountOf(ranks, k, m) == 0 && SumOf(ranks, k, m) == 0
  {
    if m > 0 { NoneEntered(ranks, k, m - 1); }
  }

  function Sum(s: State, k: nat): nat { SumOf(s.ranks, k, |s.ranks|) }

  function Count(s: State, k: nat): (c: nat)
    ensures c <= |s.ranks|
  { CountOf(s.ranks, k, |s.ranks|) }

  /** The counter word: sum in the high half, arrivals in the low half. */
  function Packed(sum: nat, count: nat): nat { sum % WORD * WORD + count }

  lemma PackedAdd(sum: nat, count: nat, x: uint32)
    requires count + 1 < WORD
    ensures (Packed(sum, count) + (x * WORD + 1)) % WORD64 == Packed(sum + x, count + 1)
    ensures Packed(sum + x, count + 1) % WORD == count + 1
  {
    var hi := sum % WORD + x;
    var carried := if hi < WORD then hi else hi - WORD;
    assert (sum + x) % WORD == carried;
    assert Packed(sum, count) + (x * WORD + 1) == hi * WORD + (count + 1);
  }

  lemma PackedParts(sum: nat, bit: nat)
    requires bit < 2
    ensures Packed(sum, bit) % 2 == bit && Packed(sum, bit) / WORD == sum % WORD
  {
    WordParts(sum % WORD, bit);
  }

  lemma WordParts(hi: nat, bit: nat)
    requires bit < 2
    ensures (hi * WORD + bit) % 2 == bit && (hi * WORD + bit) / WORD == hi
  {
    ModOf(hi * WORD + bit, WORD, hi, bit);
    ModOf(hi * WORD + bit, 2, hi * 0x8000_0000, bit);
  }

  // ------------------------------------------------------------------- invariant

  ghost predicate Last(k: Rank) { k.pc.Resetting? || k.pc.Releasing? }

  ghost predicate RankInv(s: State, r: nat)
    requires r < |s.ranks|
  {
    var k := s.ranks[r];
    && s.round <= |k.calls| <= s.round + 1
    && |k.calls| == |k.outs| + (if k.pc.Idle? then 0 else 1)
    && |k.outs| <= s.round
    && k.phase == (|k.outs| + (if k.pc.Spinning? then 1 else 0)) % 2
    && (Last(k) ==> |k.calls| == s.round + 1 && k.pc.count == Packed(Sum(s, s.round), |s.ranks|))
    && (k.pc.Releasing? ==> s.counter == 0)
  }

  /** The last arrival and the ranks it has yet to release. */
  ghost predicate Arrivals(s: State) {
    && (forall r :: 0 <= r < |s.ranks| && Last(s.ranks[r]) ==> Count(s, s.round) == |s.ranks|)
    && (forall r, q :: 0 <= r < |s.ranks| && 0 <= q < |s.ranks| && Last(s.ranks[r]) && Last(s.ranks[q]) ==> r == q)
    && (Count(s, s.round) == |s.ranks| ==> exists r :: 0 <= r < |s.ranks| && Last(s.ranks[r]))
    && ((forall r :: 0 <= r < |s.ranks| ==> !s.ranks[r].pc.Releasing?) ==>
          s.counter == Packed(Sum(s, s.round), Count(s, s.round)))
  }

  ghost predicate Gate(s: State) {
    s.gate == if s.round == 0 then 0 else Packed(Sum(s, s.round - 1), s.round % 2)
  }

  ghost predicate OutIsSum(s: State, r: int, k: nat) {
    0 <= r < |s.ranks| && k < |s.ranks[r].outs| ==> s.ranks[r].outs[k] == Sum(s, k) % WORD
  }

  ghost predicate OutsInv(s: State) { forall r, k: nat :: OutIsSum(s, r, k) }

  ghost predicate Inv(s: State) {
    && 1 <= |s.ranks| < WORD / 2
    && (forall r :: 0 <= r < |s.ranks| ==> RankInv(s, r))
    && Arrivals(s) && Gate(s) && OutsInv(s)
  }

  // ---------------------------------------------------------------- preservation

  /** A step that adds no In keeps every round's sum and count. */
  lemma SumsKept(s: State, t: State)
    requires |t.ranks| == |s.ranks| && forall r :: 0 <= r < |s.ranks| ==> t.ranks[r].calls == s.ranks[r].calls
    ensures forall k: nat :: Sum(t, k) == Sum(s, k) && Count(t, k) == Count(s, k)
  {
    forall k: nat ensures Sum(t, k) == Sum(s, k) && Count(t, k) == Count(s, k) {
      SameCalls(s.ranks, t.ranks, k, |s.ranks|);
    }
  }

  /** An idle rank is in step with the released rounds, and its round is still open. */
  lemma IdleRank(s: State, r: nat)
    requires Inv(s) && r < |s.ranks| && s.ranks[r].pc.Idle?
    ensures |s.ranks[r].calls| == |s.ranks[r].outs| == s.round
    ensures Count(s, s.round) < |s.ranks|
    ensures forall q :: 0 <= q < |s.ranks| ==> !Last(s.ranks[q])
    ensures s.counter == Packed(Sum(s, s.round), Count(s, s.round))
  {
    assert RankInv(s, r);
    AllEntered(s.ranks, s.round, |s.ranks|);
  }

  /** In by rank `r` adds its value to the open round and leaves the finished ones alone. */
  lemma EnterSums(s: State, r: nat, x: uint32)
    requires Inv(s) && r < |s.ranks| && s.ranks[r].pc.Idle?
    ensures var t := Enter(s, r, x);
      && Sum(t, s.round) == Sum(s, s.round) + x && Count(t, s.round) == Count(s, s.round) + 1
      && forall k: nat :: k < s.round ==> Sum(t, k) == Sum(s, k)
  {
    var t := Enter(s, r, x);
    IdleRank(s, r);
    OneMoreCall(s.ranks, t.ranks, r, s.round, |s.ranks|);
    forall k: nat | k < s.round ensures Sum(t, k) == Sum(s, k) {
      forall q | 0 <= q < |s.ranks| ensures k < |s.ranks[q].calls| { assert RankInv(s, q); }
      SameCalls(s.ranks, t.ranks, k, |s.ranks|);
    }
  }

  lemma EnterManyKeepsInv(s: State, r: nat, x: uint32)
    requires Inv(s) && r < |s.ranks| && s.ranks[r].pc.Idle? && |s.ranks| > 1
    ensures Inv(Enter(s, r, x))
  {
    var t := Enter(s, r, x);
    IdleRank(s, r);
    EnterSums(s, r, x);
    PackedAdd(Sum(s, s.round), Count(s, s.round), x);
    forall q | 0 <= q < |t.ranks| ensures RankInv(t, q) { assert RankInv(s, q); }
    forall q, k: nat ensures OutIsSum(t, q, k) { assert OutIsSum(s, q, k) && (0 <= q < |s.ranks| ==> RankInv(s, q)); }
    if Count(t, t.round) == |t.ranks| { assert Last(t.ranks[r]); }
  }

  lemma EnterAloneKeepsInv(s: State, r: nat, x: uint32)
    requires Inv(s) && r < |s.ranks| && s.ranks[r].pc.Idle? && |s.ranks| == 1
    ensures Inv(Enter(s, r, x))
  {
    var t := Enter(s, r, x);
    IdleRank(s, r);
    EnterSums(s, r, x);
    NoneEntered(s.ranks, s.round, 1);
    NoneEntered(t.ranks, t.round, 1);
    assert RankInv(s, 0) && RankInv(t, 0);
    forall q, k: nat ensures OutIsSum(t, q, k) { assert OutIsSum(s, q, k); }
  }

  lemma ResetKeepsInv(s: State, r: nat)
    requires Inv(s) && Enabled(s, Reset(r))
    ensures Inv(Apply(s, Reset(r)))
  {
    var t := Apply(s, Reset(r));
    SumsKept(s, t);
    forall q, k: nat ensures OutIsSum(t, q, k) { assert OutIsSum(s, q, k); }
    forall q | 0 <= q < |t.ranks| ensures RankInv(t, q) {
      assert RankInv(s, q);
      assert q != r ==> !Last(s.ranks[q]);
    }
    assert t.ranks[r].pc.Releasing? && Last(t.ranks[r]) && Last(s.ranks[r]);
  }

  lemma OpenKeepsInv(s: State, r: nat)
    requires Inv(s) && Enabled(s, Release(r))
    ensures Inv(Open(s, r))
  {
    var t := Open(s, r);
    assert Last(s.ranks[r]) && RankInv(s, r);
    SumsKept(s, t);
    forall q, k: nat ensures OutIsSum(t, q, k) { assert OutIsSum(s, q, k); }
    AllEntered(s.ranks, s.round, |s.ranks|);
    forall q | 0 <= q < |t.ranks| ensures RankInv(t, q) && |t.ranks[q].calls| <= t.round && !Last(t.ranks[q]) {
      assert RankInv(s, q);
      assert q != r ==> !Last(s.ranks[q]);
    }
    NoneEntered(t.ranks, t.round, |t.ranks|);
    OpenedGate(Sum(s, s.round), |s.ranks|, s.round);
  }

  /** The gate word made of a full counter, with the phase of the rank that opens it flipped. */
  lemma OpenedGate(sum: nat, count: nat, round: nat)
    requires count < WORD
    ensures GateWord(Packed(sum, count), Flip(round % 2)) == Packed(sum, (round + 1) % 2)
  {
    ModOf(Packed(sum, count), WORD, sum % WORD, count);
  }

  lemma ArrivalsKept(s: State, t: State)
    requires Arrivals(s) && |t.ranks| == |s.ranks| && t.round == s.round && t.counter == s.counter
    requires Sum(t, t.round) == Sum(s, s.round) && Count(t, t.round) == Count(s, s.round)
    requires forall q :: 0 <= q < |t.ranks| ==> Last(t.ranks[q]) == Last(s.ranks[q])
    requires forall q :: 0 <= q < |t.ranks| ==> t.ranks[q].pc.Releasing? == s.ranks[q].pc.Releasing?
    ensures Arrivals(t)
  {}

  lemma OutBeginKeepsInv(s: State, r: nat)
    requires Inv(s) && Enabled(s, OutBegin(r))
    ensures Inv(Apply(s, OutBegin(r)))
  {
    var t := Apply(s, OutBegin(r));
    SumsKept(s, t);
    forall q, k: nat ensures OutIsSum(t, q, k) { assert OutIsSum(s, q, k); }
    forall q | 0 <= q < |t.ranks| ensures RankInv(t, q) { assert RankInv(s, q); }
    ArrivalsKept(s, t);
  }

  /** The gate shows a spinning rank's phase exactly when its own round has been released. */
  lemma GateMatches(s: State, r: nat)
    requires Inv(s) && r < |s.ranks| && s.ranks[r].pc.Spinning?
    ensures s.gate % 2 == s.ranks[r].phase <==> |s.ranks[r].calls| == s.round
    ensures s.gate % 2 == s.ranks[r].phase ==> s.gate / WORD == Sum(s, |s.ranks[r].outs|) % WORD
  {
    assert RankInv(s, r);
    if s.round > 0 { PackedParts(Sum(s, s.round - 1), s.round % 2); }
  }

  lemma LeaveKeepsInv(s: State, r: nat)
    requires Inv(s) && Enabled(s, OutLoad(r))
    ensures Inv(Leave(s, r))
  {
    var t := Leave(s, r);
    GateMatches(s, r);
    if t != s {
      SumsKept(s, t);
      forall q | 0 <= q < |t.ranks| ensures RankInv(t, q) { assert RankInv(s, q); }
      forall q, k: nat ensures OutIsSum(t, q, k) { assert OutIsSum(s, q, k); }
      forall q | 0 <= q < |t.ranks|
        ensures Last(t.ranks[q]) == Last(s.ranks[q]) && t.ranks[q].pc.Releasing? == s.ranks[q].pc.Releasing?
      {}
      assert Arrivals(t) by { ArrivalsKept(s, t); }
    }
  }

  lemma StepKeepsInv(s: State, step: Step)
    requires Inv(s) && Enabled(s, step)
    ensures Inv(Apply(s, step))
  {
    match step
    case In(r, x) => if |s.ranks| == 1 { EnterAloneKeepsInv(s, r, x); } else { EnterManyKeepsInv(s, r, x); }
    case Reset(r) => ResetKeepsInv(s, r);
    case Release(r) => OpenKeepsInv(s, r);
    case OutBegin(r) => OutBeginKeepsInv(s, r);
    case OutLoad(r) => LeaveKeepsInv(s, r);
  }

  lemma InitInv(n: nat)
    requires 1 <= n < WORD / 2
    ensures Inv(Init(n))
  {
    NoneEntered(Init(n).ranks, 0, n);
  }

  lemma {:induction false} RunKeepsInv(s: State, steps: seq<Step>)
    requires Inv(s) && CanRun(s, steps)
    ensures Inv(Run(s, steps)) && |Run(s, steps).ranks| == |s.ranks|
    decreases |steps|
  {
    if steps != [] {
      StepKeepsInv(s, steps[0]);
      RunKeepsInv(Apply(s, steps[0]), steps[1..]);
    }
  }

  // ---------------------------------------------------------------- main results

  /**
    In every run each Out returns, modulo 2^32, the sum of what all ranks passed to In for that
    same round, and it returns only after all of them entered that round.
   */
  lemma {:induction false} OutReturnsRoundSum(n: nat, steps: seq<Step>, r: nat, k: nat)
    requires 1 <= n < WORD / 2 && CanRun(Init(n), steps)
    requires r < |Run(Init(n), steps).ranks| && k < |Run(Init(n), steps).ranks[r].outs|
    ensures var s := Run(Init(n), steps);
      && |s.ranks| == n
      && (forall q :: 0 <= q < n ==> k < |s.ranks[q].calls|)
      && s.ranks[r].outs[k] == SumOf(s.ranks, k, n) % WORD
  {
    InitInv(n);
    RunKeepsInv(Init(n), steps);
    var s := Run(Init(n), steps);
    assert RankInv(s, r) && OutIsSum(s, r, k);
    forall q | 0 <= q < n ensures k < |s.ranks[q].calls| { assert RankInv(s, q); }
  }

  /** No rank gets a full round ahead of another, counted in Ins or in Outs. */
  lemma {:induction false} RanksStayTogether(n: nat, steps: seq<Step>, p: nat, q: nat)
    requires 1 <= n < WORD / 2 && CanRun(Init(n), steps) && p < n && q < n
    ensures var s := Run(Init(n), steps);
      && |s.ranks| == n
      && |s.ranks[p].calls| <= |s.ranks[q].calls| + 1
      && |s.ranks[p].outs| <= |s.ranks[q].outs| + 1
      && |s.ranks[p].outs| <= |s.ranks[q].calls|
  {
    InitInv(n);
    RunKeepsInv(Init(n), steps);
    var s := Run(Init(n), steps);
    assert RankInv(s, p) && RankInv(s, q);
  }

  /** A load of the gate ends Out, with the sum of its round, exactly when that round was released. */
  lemma OutReturns(s: State, r: nat)
    requires Inv(s) && r < |s.ranks| && s.ranks[r].pc.Spinning?
    ensures var t, k := Apply(s, OutLoad(r)), |s.ranks[r].outs|;
      && Inv(t)
      && t == if |s.ranks[r].calls| != s.round then s
              else WithRank(s, r, s.ranks[r].(pc := Idle, outs := s.ranks[r].outs + [Sum(s, k) % WORD]))
  {
    GateMatches(s, r);
    LeaveKeepsInv(s, r);
  }

  /** The steps a rank is away from the end of round `k`, its In included. */
  function Ahead(a: Rank, k: nat): nat {
    (if |a.calls| < k then 10 else 0)
    + match a.pc
      case Idle => 0
      case Spinning => 1
      case Entered => 2
      case Releasing(_) => 3
      case Resetting(_) => 4
  }

  function AheadOf(ranks: seq<Rank>, k: nat, m: nat): nat
    requires m <= |ranks|
  {
    if m == 0 then 0 else AheadOf(ranks, k, m - 1) + Ahead(ranks[m - 1], k)
  }

  lemma {:induction false} AheadFalls(a: seq<Rank>, b: seq<Rank>, r: nat, k: nat, m: nat)
    requires |a| == |b| && r < |a| && m <= |a| && Ahead(b[r], k) < Ahead(a[r], k)
    requires forall q :: 0 <= q < |a| && q != r ==> a[q] == b[q]
    ensures if r < m then AheadOf(b, k, m) < AheadOf(a, k, m) else AheadOf(b, k, m) == AheadOf(a, k, m)
  {
    if m > 0 { AheadFalls(a, b, r, k, m - 1); }
  }

  /** What rank `r` does next, passing `x` to In. */
  function NextStep(s: State, r: nat, x: uint32): Step
    requires r < |s.ranks|
  {
    match s.ranks[r].pc
    case Idle => In(r, x)
    case Resetting(_) => Reset(r)
    case Releasing(_) => Release(r)
    case Entered => OutBegin(r)
    case Spinning => OutLoad(r)
  }

  /** Round `k` is the one under way or the one just released, and nobody is beyond it. */
  ghost predicate InRound(s: State, k: nat) {
    s.round <= k <= s.round + 1 && forall r :: 0 <= r < |s.ranks| ==> |s.ranks[r].calls| <= k
  }

  ghost predicate Done(s: State, k: nat) {
    forall r :: 0 <= r < |s.ranks| ==> s.ranks[r].pc.Idle? && |s.ranks[r].calls| == |s.ranks[r].outs| == k
  }

  /** Unless all have left round `k`, some rank has a step to go that it can take. */
  lemma SomeoneCanGo(s: State, k: nat) returns (r: nat)
    requires Inv(s) && InRound(s, k) && !Done(s, k)
    ensures r < |s.ranks| && Ahead(s.ranks[r], k) > 0
    ensures s.ranks[r].pc.Spinning? ==> |s.ranks[r].calls| == s.round
    ensures s.ranks[r].pc.Idle? ==> |s.ranks[r].calls| < k
  {
    if q :| 0 <= q < |s.ranks| && Last(s.ranks[q]) {
      r := q;
    } else if q :| 0 <= q < |s.ranks| && |s.ranks[q].calls| < k {
      r := q;
      assert RankInv(s, r);
    } else {
      AllEntered(s.ranks, s.round, |s.ranks|);
      r :| 0 <= r < |s.ranks| && !(s.ranks[r].pc.Idle? && |s.ranks[r].calls| == |s.ranks[r].outs| == k);
      assert RankInv(s, r);
    }
  }

  /** Any step of rank `r` that finds its gate open brings it nearer, and moves nobody else. */
  lemma StepMoves(s: State, k: nat, r: nat, x: uint32)
    requires r < |s.ranks| && s.round <= k && Ahead(s.ranks[r], k) > 0
    requires s.ranks[r].pc.Spinning? ==> s.gate % 2 == s.ranks[r].phase
    requires s.ranks[r].pc.Idle? ==> |s.ranks[r].calls| + 1 == k
    ensures Enabled(s, NextStep(s, r, x))
    ensures var t := Apply(s, NextStep(s, r, x));
      && |t.ranks| == |s.ranks| && Ahead(t.ranks[r], k) < Ahead(s.ranks[r], k)
      && (forall q :: 0 <= q < |s.ranks| && q != r ==> t.ranks[q] == s.ranks[q])
      && (if s.ranks[r].pc.Idle? then t.ranks[r].calls == s.ranks[r].calls + [x]
          else t.ranks[r].calls == s.ranks[r].calls)
  {}

  lemma StepNears(s: State, k: nat, r: nat, x: uint32)
    requires Inv(s) && InRound(s, k) && r < |s.ranks| && Ahead(s.ranks[r], k) > 0
    requires s.ranks[r].pc.Spinning? ==> |s.ranks[r].calls| == s.round
    requires s.ranks[r].pc.Idle? ==> |s.ranks[r].calls| < k
    ensures var t := Apply(s, NextStep(s, r, x));
      && Enabled(s, NextStep(s, r, x)) && Inv(t) && InRound(t, k) && |t.ranks| == |s.ranks|
      && AheadOf(t.ranks, k, |t.ranks|) < AheadOf(s.ranks, k, |s.ranks|)
      && (forall q :: 0 <= q < |s.ranks| && |s.ranks[q].calls| == k ==> t.ranks[q].calls == s.ranks[q].calls)
  {
    assert RankInv(s, r);
    if s.ranks[r].pc.Spinning? { GateMatches(s, r); }
    StepMoves(s, k, r, x);
    var t := Apply(s, NextStep(s, r, x));
    StepKeepsInv(s, NextStep(s, r, x));
    AheadFalls(s.ranks, t.ranks, r, k, |s.ranks|);
    assert RankInv(t, r);
  }

  /**
    From every reachable state the round under way can be completed: some run lets every rank that
    has not entered it enter, passing `x`, and every Out of it return. If all have entered no further
    In is needed.
   */
  lemma {:induction false} RoundCompletes(s: State, k: nat, x: uint32) returns (steps: seq<Step>)
    requires Inv(s) && InRound(s, k)
    ensures CanRun(s, steps) && Inv(Run(s, steps)) && |Run(s, steps).ranks| == |s.ranks| && Done(Run(s, steps), k)
    ensures forall r :: 0 <= r < |s.ranks| && |s.ranks[r].calls| == k ==>
      Run(s, steps).ranks[r].calls == s.ranks[r].calls
    ensures forall i :: 0 <= i < |steps| && steps[i].In? ==>
      steps[i].x == x && steps[i].r < |s.ranks| && |s.ranks[steps[i].r].calls| < k
    decreases AheadOf(s.ranks, k, |s.ranks|)
  {
    steps := [];
    if !Done(s, k) {
      var r := SomeoneCanGo(s, k);
      StepNears(s, k, r, x);
      var step := NextStep(s, r, x);
      var rest := RoundCompletes(Apply(s, step), k, x);
      steps := [step] + rest;
      assert steps[1..] == rest;
      forall i | 0 <= i < |steps| && steps[i].In?
        ensures steps[i].x == x && steps[i].r < |s.ranks| && |s.ranks[steps[i].r].calls| < k
      {
        if i > 0 { assert steps[i] == rest[i - 1]; }
      }
    }
  }

  /** In every reachable state some step can be taken that gets further: no state is stuck. */
  lemma {:induction false} NeverStuck(n: nat, steps: seq<Step>)
    requires 1 <= n < WORD / 2 && CanRun(Init(n), steps)
    ensures var s := Run(Init(n), steps); exists step :: Enabled(s, step) && Apply(s, step) != s
  {
    InitInv(n);
    RunKeepsInv(Init(n), steps);
    var s := Run(Init(n), steps);
    assert RankInv(s, 0);
    forall r | 0 <= r < |s.ranks| ensures |s.ranks[r].calls| <= s.round + 1 { assert RankInv(s, r); }
    var k := s.round + 1;
    assert |s.ranks[0].outs| != k;
    var r := SomeoneCanGo(s, k);
    StepNears(s, k, r, 0);
  }
}
