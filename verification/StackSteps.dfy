/** The allocator's steps on StackState, each of which keeps the invariant. */
module StackSteps {
  import opened Common
  import opened StackState

  // ------------------------------------------------------------------- allocation steps

  /** Take [a, a + n) from the free space of the current hunk. */
  function Bump(s: S, a: nat, n: nat): S
    requires s.depth > 0
  {
    s.(top := s.top.(bumper := a + n), blocks := s.blocks + [Block(s.depth - 1, a, n, Object)])
  }

  lemma BumpKeepsBlocks(s: S, a: nat, n: nat)
    requires Hunks(s) && Blocks(s) && Current(s) && s.depth > 0 && s.top.bumper <= a && a + n <= s.top.end
    ensures Blocks(Bump(s, a, n))
    ensures var t := Bump(s, a, n); forall i: nat :: i < |t.blocks| ==> Under(t, t.top, t.depth, i)
  {
    var t := Bump(s, a, n);
    assert HunkOk(s, s.depth - 1);
    forall i: nat | i < |t.blocks| ensures BlockOk(t, i) && Under(t, t.top, t.depth, i) {
      assert i < |s.blocks| ==> BlockOk(s, i) && Under(s, s.top, s.depth, i);
    }
    forall i: nat, j: nat | i < j < |t.blocks| ensures InOrder(t, i, j) {
      assert j < |s.blocks| ==> InOrder(s, i, j);
      assert Under(s, s.top, s.depth, i);
    }
  }

  lemma BumpKeepsInv(s: S, a: nat, n: nat)
    requires Inv(s) && s.depth > 0 && s.top.bumper <= a && a + n <= s.top.end
    ensures Inv(Bump(s, a, n))
    ensures FrameAt(Bump(s, a, n), Here(s), OutStart(s, |s.saved|))
  {
    var t := Bump(s, a, n);
    assert Carries(s, t);
    HunksKept(s, t);
    BumpKeepsBlocks(s, a, n);
    CarryOuts(s, t);
    AccountedKept(s, t);
    CarryLevels(s, t);
    CarryFrame(s, t, Here(s), OutStart(s, |s.saved|));
    CarryCurrent(s, t);
  }

  /** Move on to the empty hunk above the current one. */
  function Enter(s: S): S
    requires s.depth < |s.chain|
  {
    var base := s.chain[s.depth];
    s.(top := s.top.(hunk := At(base), bumper := base + HUNK_HEADER, end := base + RegionSize(s, base)),
       depth := s.depth + 1)
  }

  lemma EnterCarries(s: S)
    requires Hunks(s) && Current(s) && s.depth < |s.chain|
    ensures var t := Enter(s);
      Carries(s, t) && FrameOk(t, t.top, t.depth) && forall i: nat :: i < |t.blocks| ==> Under(t, t.top, t.depth, i)
  {
    var t := Enter(s);
    assert HunkOk(s, s.depth);
    forall i: nat | i < |s.blocks| ensures Under(t, t.top, t.depth, i) { assert Under(s, s.top, s.depth, i); }
  }

  lemma EnterKeepsInv(s: S)
    requires Inv(s) && s.depth < |s.chain|
    ensures Inv(Enter(s))
    ensures FrameAt(Enter(s), Here(s), OutStart(s, |s.saved|))
  {
    var t := Enter(s);
    EnterCarries(s);
    HunksKept(s, t);
    CarryBlocks(s, t);
    CarryOuts(s, t);
    AccountedKept(s, t);
    CarryLevels(s, t);
    CarryFrame(s, t, Here(s), OutStart(s, |s.saved|));
    CarryCurrent(s, t);
  }

  /**
    Link the new hunk `p` of `n` bytes, whose header is already written, above the current hunk.
    Hunks that were waiting there drop out of the chain.
   */
  function Grow(s: S, p: nat, n: nat): S
    requires s.depth <= |s.chain|
  {
    s.(cells := if s.depth == 0 then s.cells
                else Store(s.cells, s.chain[s.depth - 1], Header(Some(p), RegionSize(s, s.chain[s.depth - 1]))),
       stub := if s.depth == 0 then Some(p) else s.stub,
       regions := s.regions[p := n],
       chain := s.chain[..s.depth] + [p],
       leaked := s.leaked + set a | a in s.chain[s.depth..])
  }

  /** Linking in a new hunk touches no block, proxy or snapshot. */
  lemma GrowWritesHeader(s: S, p: nat, n: nat)
    requires Inv(s) && Unmapped(s.regions, p, n)
    ensures HoldsAll(s, Grow(s, p, n).cells)
  {
    var t := Grow(s, p, n);
    if s.depth > 0 {
      var h := s.chain[s.depth - 1];
      forall w | Live(s, w) ensures Holds(s, w, t.cells) {
        match w {
          case InHunk(i) => BlockApartFromHeader(s, i, s.depth - 1);
          case OutOfHunk(i) => HeaderApartFromOut(s, s.depth - 1, i);
        }
        WriteElsewhere(s, w, t.cells, h, HUNK_HEADER);
      }
    }
  }

  lemma GrowKeepsHunk(s: S, p: nat, n: nat, i: nat)
    requires Hunks(s) && Unmapped(s.regions, p, n)
    requires n == (s.depth + 1) * HUNK_STEP && Get(s.cells, p) == Some(Header(None, n))
    requires i <= s.depth
    ensures HunkOk(Grow(s, p, n), i)
  {
    var d := s.depth;
    assert i < d ==> HunkOk(s, i);
    if d > 0 {
      assert HunkOk(s, d - 1);
      if i < d - 1 {
        assert Distinct(s.chain, i, d - 1) && Separate(s, s.chain[i], s.chain[d - 1]);
      }
    }
  }

  lemma GrowKeepsHunks(s: S, p: nat, n: nat)
    requires Hunks(s) && Unmapped(s.regions, p, n)
    requires n == (s.depth + 1) * HUNK_STEP && Get(s.cells, p) == Some(Header(None, n))
    ensures Hunks(Grow(s, p, n))
  {
    var t := Grow(s, p, n);
    var d := s.depth;
    forall i: nat | i < |t.chain| ensures HunkOk(t, i) { GrowKeepsHunk(s, p, n, i); }
    forall i: nat, j: nat | i < |t.chain| && j < |t.chain| && i != j ensures Distinct(t.chain, i, j) {
      assert i < d ==> HunkOk(s, i);
      assert j < d ==> HunkOk(s, j);
      assert i < d && j < d ==> Distinct(s.chain, i, j);
    }
    forall a: nat, b: nat | a in t.regions && b in t.regions && a != b ensures Separate(t, a, b) {
      assert a != p && b != p ==> Separate(s, a, b);
    }
  }

  lemma DroppedHunksAreNew(s: S, p: nat, n: nat, i: nat)
    requires Hunks(s) && Accounted(s) && Unmapped(s.regions, p, n) && i <= s.depth
    ensures Grow(s, p, n).chain[i] !in Grow(s, p, n).leaked
  {
    var t := Grow(s, p, n);
    assert i < s.depth ==> HunkOk(s, i);
    forall j: nat | s.depth <= j < |s.chain| ensures s.chain[j] != t.chain[i] {
      assert HunkOk(s, j);
      assert i < s.depth ==> Distinct(s.chain, i, j);
    }
  }

  lemma GrowKeepsAccounts(s: S, p: nat, n: nat)
    requires Hunks(s) && Outs(s) && Accounted(s) && Unmapped(s.regions, p, n)
    ensures Accounted(Grow(s, p, n))
  {
    var t := Grow(s, p, n);
    var d := s.depth;
    assert s.chain == s.chain[..d] + s.chain[d..];
    forall i: nat | i < |s.outs| ensures t.outs[i].addr !in t.chain { assert OutOk(s, i); }
    forall i: nat | i < |t.chain| ensures t.chain[i] !in t.leaked { DroppedHunksAreNew(s, p, n, i); }
    forall a ensures a in t.regions <==> a in t.chain || a in t.leaked || exists i: nat :: IsOut(t, i, a) {
      assert a in s.regions <==> a in s.chain || a in s.leaked || exists i: nat :: IsOut(s, i, a);
      forall i: nat ensures IsOut(t, i, a) == IsOut(s, i, a) {}
    }
  }

  lemma GrowKeepsInv(s: S, p: nat, n: nat)
    requires Inv(s) && Unmapped(s.regions, p, n)
    requires n == (s.depth + 1) * HUNK_STEP && Get(s.cells, p) == Some(Header(None, n))
    ensures Inv(Grow(s, p, n))
    ensures FrameAt(Grow(s, p, n), Here(s), OutStart(s, |s.saved|))
    ensures HoldsAll(s, Grow(s, p, n).cells)
  {
    var t := Grow(s, p, n);
    GrowKeepsHunks(s, p, n);
    GrowKeepsAccounts(s, p, n);
    GrowWritesHeader(s, p, n);
    GrowCarries(s, p, n);
    CarryBlocks(s, t);
    CarryOuts(s, t);
    CarryLevels(s, t);
    CarryFrame(s, t, Here(s), OutStart(s, |s.saved|));
  }

  lemma GrowCarries(s: S, p: nat, n: nat)
    requires Inv(s) && Unmapped(s.regions, p, n) && HoldsAll(s, Grow(s, p, n).cells)
    ensures Carries(s, Grow(s, p, n))
  {
    var t := Grow(s, p, n);
    forall i: nat | i < s.depth ensures SameHunk(s, t, i) { assert HunkOk(s, i); }
    forall i: nat | i < |s.blocks| ensures Holds(s, InHunk(i), t.cells) { assert Live(s, InHunk(i)); }
  }

  /** Block `i` is given its use. */
  function Mark(blocks: seq<Block>, kind: Kind): seq<Block>
    requires blocks != []
  {
    blocks[|blocks| - 1 := blocks[|blocks| - 1].(kind := kind)]
  }

  lemma MarkKeepsBlocks(s: S, t: S, kind: Kind)
    requires Blocks(s) && s.blocks != [] && t.blocks == Mark(s.blocks, kind)
    requires t.chain == s.chain && forall a :: a in s.regions ==> RegionSize(t, a) == RegionSize(s, a)
    requires Hunks(s)
    ensures Blocks(t)
  {
    forall i: nat | i < |s.blocks| ensures BlockOk(t, i) {
      assert BlockOk(s, i) && HunkOk(s, s.blocks[i].hunk);
      assert RegionSize(t, s.chain[s.blocks[i].hunk]) == RegionSize(s, s.chain[s.blocks[i].hunk]);
    }
    forall i: nat, j: nat | i < j < |s.blocks| ensures InOrder(t, i, j) { assert InOrder(s, i, j); }
  }

  /** Register `obj`, whose proxy is in the newest block, with the current frame. */
  function AddOut(s: S, obj: nat, n: nat): S
    requires s.blocks != []
  {
    var b := |s.blocks| - 1;
    s.(regions := s.regions[obj := n],
       blocks := Mark(s.blocks, ForProxy),
       outs := s.outs + [Out(obj, n, s.blocks[b].addr, b, s.top.unhunks)],
       top := s.top.(unhunks := Some(s.blocks[b].addr)))
  }

  ghost predicate ProxyReady(s: S, obj: nat, n: nat) {
    && s.blocks != [] && Unmapped(s.regions, obj, n)
    && var b := s.blocks[|s.blocks| - 1];
       b.kind == Object && b.size == PROXY_SIZE && Get(s.cells, b.addr) == Some(Proxy(s.top.unhunks, obj))
  }

  lemma AddOutCarries(s: S, obj: nat, n: nat)
    requires Hunks(s) && Outs(s) && ProxyReady(s, obj, n)
    ensures Carries(s, AddOut(s, obj, n))
  {
    var t := AddOut(s, obj, n);
    forall i: nat | i < s.depth ensures SameHunk(s, t, i) { assert HunkOk(s, i); }
    forall i: nat | i < |s.outs| ensures SameOut(s, t, i) { assert OutOk(s, i); }
  }

  lemma AddOutKeepsOuts(s: S, obj: nat, n: nat)
    requires Hunks(s) && Outs(s) && ProxyReady(s, obj, n)
    ensures Outs(AddOut(s, obj, n))
  {
    var t := AddOut(s, obj, n);
    AddOutCarries(s, obj, n);
    forall i: nat | i < |t.outs| ensures OutOk(t, i) {
      if i < |s.outs| { assert OutOk(s, i); CarryOut(s, t, i); }
    }
    forall i: nat, j: nat | i < |t.outs| && j < |t.outs| && i != j ensures OutsApart(t, i, j) {
      assert i < |s.outs| ==> OutOk(s, i);
      assert j < |s.outs| ==> OutOk(s, j);
      assert i < |s.outs| && j < |s.outs| ==> OutsApart(s, i, j);
    }
  }

  lemma AddOutKeepsAccounts(s: S, obj: nat, n: nat)
    requires Accounted(s) && ProxyReady(s, obj, n)
    ensures Accounted(AddOut(s, obj, n))
  {
    var t := AddOut(s, obj, n);
    forall a ensures a in t.regions <==> a in t.chain || a in t.leaked || exists i: nat :: IsOut(t, i, a) {
      assert a in s.regions <==> a in s.chain || a in s.leaked || exists i: nat :: IsOut(s, i, a);
      forall i: nat | i < |s.outs| ensures IsOut(t, i, a) == IsOut(s, i, a) {}
      assert IsOut(t, |s.outs|, a) <==> a == obj;
    }
  }

  lemma AddOutKeepsHunks(s: S, obj: nat, n: nat)
    requires Hunks(s) && ProxyReady(s, obj, n)
    ensures Hunks(AddOut(s, obj, n))
  {
    var t := AddOut(s, obj, n);
    forall i: nat | i < |t.chain| ensures HunkOk(t, i) { assert HunkOk(s, i); }
    forall a: nat, b: nat | a in t.regions && b in t.regions && a != b ensures Separate(t, a, b) {
      assert a != obj && b != obj ==> Separate(s, a, b);
    }
  }

  lemma AddOutKeepsInv(s: S, obj: nat, n: nat)
    requires Inv(s) && ProxyReady(s, obj, n)
    ensures Inv(AddOut(s, obj, n)) && Carries(s, AddOut(s, obj, n))
  {
    var t := AddOut(s, obj, n);
    AddOutKeepsHunks(s, obj, n);
    AddOutCarries(s, obj, n);
    AddOutKeepsOuts(s, obj, n);
    AddOutKeepsAccounts(s, obj, n);
    MarkKeepsBlocks(s, t, ForProxy);
    CarryLevels(s, t);
    AddOutIsCurrent(s, obj, n);
  }

  lemma AddOutIsCurrent(s: S, obj: nat, n: nat)
    requires Hunks(s) && Current(s) && Outs(s) && ProxyReady(s, obj, n)
    ensures Current(AddOut(s, obj, n))
  {
    var t := AddOut(s, obj, n);
    assert s.depth > 0 ==> HunkOk(s, s.depth - 1);
    forall i: nat | i < |t.blocks| ensures Under(t, t.top, t.depth, i) { assert Under(s, s.top, s.depth, i); }
    forall i: nat | i < |t.outs| ensures OutBefore(t, i, |t.blocks|) { assert i < |s.outs| ==> OutOk(s, i); }
    var from := OutStart(s, |s.saved|);
    forall i: nat | from <= i < |t.outs| ensures Linked(t, i, from) { assert i < |s.outs| ==> Linked(s, i, from); }
  }

  // ------------------------------------------------------------------- push and pop

  /** Make the newest block, already holding the frame of `l`, the snapshot a new frame stands on. */
  function PushFrame(s: S, l: Level): S
    requires s.blocks != []
  {
    s.(blocks := Mark(s.blocks, ForSnapshot),
       saved := s.saved + [l],
       top := s.top.(unhunks := None, below := Some(s.blocks[|s.blocks| - 1].addr)))
  }

  /** `s` is `s0` after the snapshot was allocated and written. */
  ghost predicate SnapshotReady(s0: S, s: S) {
    && |s.blocks| == |s0.blocks| + 1 && s.outs == s0.outs && s.saved == s0.saved && s.top.below == s0.top.below
    && FrameAt(s, Here(s0), OutStart(s, |s.saved|))
    && var b := s.blocks[|s0.blocks|];
       b.kind == Object && b.size == SNAPSHOT_SIZE && Get(s.cells, b.addr) == Some(Snapshot(s0.top))
  }

  lemma PushKeepsLevels(s0: S, s: S)
    requires Levels(s0) && Levels(s) && s.depth <= |s.chain| && SnapshotReady(s0, s)
    ensures Levels(PushFrame(s, Here(s0)))
  {
    var t := PushFrame(s, Here(s0));
    assert Carries(s, t);
    forall k: nat | k < |t.saved| ensures LevelOk(t, k) {
      if k < |s.saved| {
        assert LevelOk(s, k);
        CarryLevel(s, t, k);
      } else {
        CarryFrame(s, t, Here(s0), OutStart(s, |s.saved|));
      }
    }
    forall j: nat, k: nat | j < k < |t.saved| ensures Nested(t, j, k) {
      assert k < |s.saved| ==> Nested(s, j, k);
      assert LevelOk(s0, j);
    }
  }

  lemma PushKeepsInv(s0: S, s: S)
    requires Inv(s0) && Inv(s) && SnapshotReady(s0, s)
    ensures Inv(PushFrame(s, Here(s0)))
  {
    var t := PushFrame(s, Here(s0));
    assert Carries(s, t);
    HunksKept(s, t);
    MarkKeepsBlocks(s, t, ForSnapshot);
    CarryOuts(s, t);
    AccountedKept(s, t);
    PushKeepsLevels(s0, s);
    PushIsCurrent(s0, s);
  }

  lemma PushIsCurrent(s0: S, s: S)
    requires Current(s) && SnapshotReady(s0, s)
    ensures Current(PushFrame(s, Here(s0)))
  {
    var t := PushFrame(s, Here(s0));
    forall i: nat | i < |t.blocks| ensures Under(t, t.top, t.depth, i) { assert Under(s, s.top, s.depth, i); }
    forall i: nat | i < |t.outs| ensures OutBefore(t, i, |t.blocks|) { assert OutBefore(s, i, |s.blocks|); }
  }

  /** The addresses of the objects in outs[from..]. */
  function Addresses(outs: seq<Out>, from: nat): set<nat> {
    set i | from <= i < |outs| :: outs[i].addr
  }

  /** Only cells inside the out-of-hunk objects from `from` on differ. */
  ghost predicate SameOutsideOuts(s: S, c: map<nat, Cell>, from: nat) {
    forall x: nat :: x in s.cells && ClearOfOuts(s, x, CellSize(s.cells[x]), from) ==> Get(c, x) == Some(s.cells[x])
  }

  ghost predicate ClearOfOuts(s: S, a: nat, n: nat, from: nat) {
    forall i: nat :: from <= i < |s.outs| ==> Apart(a, n, s.outs[i].addr, s.outs[i].size)
  }

  /** Back to the newest saved frame, its successors' out-of-hunk objects freed; `c` is the memory after that. */
  function PopFrame(s: S, c: map<nat, Cell>): S
    requires s.saved != []
  {
    var l := s.saved[|s.saved| - 1];
    s.(cells := c, regions := s.regions - Addresses(s.outs, l.outs), top := l.frame, depth := l.depth,
       blocks := if l.blocks <= |s.blocks| then s.blocks[..l.blocks] else s.blocks,
       outs := if l.outs <= |s.outs| then s.outs[..l.outs] else s.outs,
       saved := s.saved[..|s.saved| - 1])
  }

  /** Freeing out-of-hunk objects leaves every block, header and earlier object as it was. */
  lemma FreeHolds(s: S, c: map<nat, Cell>, from: nat)
    requires Inv(s) && SameOutsideOuts(s, c, from)
    ensures forall i: nat :: i < |s.blocks| ==> Holds(s, InHunk(i), c)
    ensures forall i: nat :: i < from ==> Holds(s, OutOfHunk(i), c)
    ensures forall i: nat :: i < |s.chain| ==> Get(c, s.chain[i]) == Get(s.cells, s.chain[i])
  {
    forall i: nat, x: nat | i < |s.blocks| && x in s.cells && s.blocks[i].addr <= x
        && x + CellSize(s.cells[x]) <= s.blocks[i].addr + s.blocks[i].size
      ensures Get(c, x) == Some(s.cells[x])
    {
      forall j: nat | from <= j < |s.outs|
        ensures Apart(x, CellSize(s.cells[x]), s.outs[j].addr, s.outs[j].size)
      { BlockApartFromOut(s, i, j); }
      assert ClearOfOuts(s, x, CellSize(s.cells[x]), from);
    }
    forall i: nat, x: nat | i < from && i < |s.outs| && x in s.cells && s.outs[i].addr <= x
        && x + CellSize(s.cells[x]) <= s.outs[i].addr + s.outs[i].size
      ensures Get(c, x) == Some(s.cells[x])
    {
      forall j: nat | from <= j < |s.outs|
        ensures Apart(x, CellSize(s.cells[x]), s.outs[j].addr, s.outs[j].size)
      { OutsAreApart(s, i, j); }
      assert ClearOfOuts(s, x, CellSize(s.cells[x]), from);
    }
    forall i: nat | i < |s.chain| ensures Get(c, s.chain[i]) == Get(s.cells, s.chain[i]) {
      assert HunkOk(s, i);
      forall j: nat | from <= j < |s.outs|
        ensures Apart(s.chain[i], HUNK_HEADER, s.outs[j].addr, s.outs[j].size)
      { HeaderApartFromOut(s, i, j); }
      assert ClearOfOuts(s, s.chain[i], HUNK_HEADER, from);
    }
  }

  lemma OutsAreApart(s: S, i: nat, j: nat)
    requires Hunks(s) && Outs(s) && i < |s.outs| && j < |s.outs| && i != j
    ensures Apart(s.outs[i].addr, s.outs[i].size, s.outs[j].addr, s.outs[j].size)
  {
    assert OutsApart(s, i, j) && OutOk(s, i) && OutOk(s, j) && Separate(s, s.outs[i].addr, s.outs[j].addr);
  }

  lemma PopKeepsHunks(s: S, c: map<nat, Cell>)
    requires Hunks(s) && Accounted(s) && Levels(s) && s.saved != []
    requires forall i: nat :: i < |s.chain| ==> Get(c, s.chain[i]) == Get(s.cells, s.chain[i])
    ensures Hunks(PopFrame(s, c))
  {
    var t := PopFrame(s, c);
    assert LevelOk(s, |s.saved| - 1);
    forall i: nat | i < |t.chain| ensures HunkOk(t, i) {
      assert HunkOk(s, i) && s.chain[i] in s.chain;
    }
    forall a: nat, b: nat | a in t.regions && b in t.regions && a != b
      ensures Separate(t, a, b)
    { assert Separate(s, a, b); }
  }

  lemma PopKeepsRegions(s: S, c: map<nat, Cell>, l: Level)
    requires Hunks(s) && Outs(s) && Accounted(s) && s.saved != [] && l == s.saved[|s.saved| - 1] && l.outs <= |s.outs|
    ensures var t := PopFrame(s, c);
      && (forall i: nat :: i < |s.chain| ==> SameHunk(s, t, i))
      && (forall i: nat :: i < l.outs ==> SameOut(s, t, i))
  {
    var t := PopFrame(s, c);
    forall i: nat | i < |s.chain| ensures SameHunk(s, t, i) { assert HunkOk(s, i) && s.chain[i] in s.chain; }
    forall i: nat | i < l.outs ensures SameOut(s, t, i) {
      assert OutOk(s, i);
      forall j: nat | l.outs <= j < |s.outs| ensures s.outs[j].addr != s.outs[i].addr { assert OutsApart(s, i, j); }
    }
  }

  lemma PopKeepsAccounts(s: S, c: map<nat, Cell>)
    requires Outs(s) && Accounted(s) && s.saved != [] && s.saved[|s.saved| - 1].outs <= |s.outs|
    ensures Accounted(PopFrame(s, c))
  {
    var t, n := PopFrame(s, c), s.saved[|s.saved| - 1].outs;
    forall a ensures a in t.regions <==> a in t.chain || a in t.leaked || exists i: nat :: IsOut(t, i, a) {
      PopKeepsAccount(s, n, a);
      assert (exists i: nat :: IsOut(t, i, a)) <==> exists i: nat :: IsOut(s, i, a) && i < n by {
        forall i: nat ensures IsOut(t, i, a) <==> IsOut(s, i, a) && i < n {}
      }
    }
  }

  /** An address is freed exactly if it is that of an object from `n` on. */
  lemma PopKeepsAccount(s: S, n: nat, a: nat)
    requires Outs(s) && Accounted(s) && n <= |s.outs|
    ensures a in s.regions - Addresses(s.outs, n)
      <==> a in s.chain || a in s.leaked || exists i: nat :: IsOut(s, i, a) && i < n
  {
    assert a in s.regions <==> a in s.chain || a in s.leaked || exists i: nat :: IsOut(s, i, a);
    if i: nat :| IsOut(s, i, a) {
      assert a == s.outs[i].addr && a !in s.chain && a !in s.leaked;
      forall j: nat | IsOut(s, j, a) ensures j == i { assert j != i ==> OutsApart(s, i, j); }
      if a in Addresses(s.outs, n) {
        var j: nat :| n <= j < |s.outs| && s.outs[j].addr == a;
        assert IsOut(s, j, a);
      }
    } else {
      forall j: nat | j < |s.outs| ensures s.outs[j].addr != a { assert !IsOut(s, j, a); }
    }
  }

  lemma PopKeepsInv(s: S, c: map<nat, Cell>)
    requires Inv(s) && s.saved != [] && SameOutsideOuts(s, c, s.saved[|s.saved| - 1].outs)
    ensures Inv(PopFrame(s, c))
  {
    var t, n := PopFrame(s, c), |s.saved| - 1;
    var l := s.saved[n];
    assert LevelOk(s, n);
    FreeHolds(s, c, l.outs);
    PopKeepsHunks(s, c);
    PopKeepsAccounts(s, c);
    PopKeepsRegions(s, c, l);
    PopAgrees(s, c, l);
    FrameKept(s, t, l, OutStart(s, n));
    PopKeepsBlocks(s, c, l);
    PopKeepsOuts(s, c, l);
    PopKeepsLevels(s, c, l);
  }

  lemma PopAgrees(s: S, c: map<nat, Cell>, l: Level)
    requires s.saved != [] && l == s.saved[|s.saved| - 1] && FrameAt(s, l, OutStart(s, |s.saved| - 1))
    requires s.depth <= |s.chain|
    requires forall i: nat :: i < |s.chain| ==> SameHunk(s, PopFrame(s, c), i)
    requires forall i: nat :: i < l.outs ==> SameOut(s, PopFrame(s, c), i)
    ensures Agree(s, PopFrame(s, c), l)
  {}

  lemma PopKeepsBlocks(s: S, c: map<nat, Cell>, l: Level)
    requires Blocks(s) && s.saved != [] && l == s.saved[|s.saved| - 1] && l.blocks <= |s.blocks|
    requires forall i: nat :: i < |s.chain| ==> SameHunk(s, PopFrame(s, c), i)
    ensures Blocks(PopFrame(s, c))
  {
    var t := PopFrame(s, c);
    forall i: nat | i < l.blocks ensures BlockOk(t, i) { assert BlockOk(s, i) && SameHunk(s, t, s.blocks[i].hunk); }
    forall i: nat, j: nat | i < j < l.blocks ensures InOrder(t, i, j) { assert InOrder(s, i, j); }
  }

  lemma PopKeepsOuts(s: S, c: map<nat, Cell>, l: Level)
    requires Outs(s) && s.saved != [] && l == s.saved[|s.saved| - 1] && FrameAt(s, l, OutStart(s, |s.saved| - 1))
    requires forall i: nat :: i < l.outs ==> SameOut(s, PopFrame(s, c), i)
    requires forall i: nat :: i < |s.blocks| ==> Holds(s, InHunk(i), c)
    ensures Outs(PopFrame(s, c))
  {
    var t := PopFrame(s, c);
    forall i: nat | i < l.outs ensures OutOk(t, i) {
      assert OutOk(s, i) && OutBefore(s, i, l.blocks) && SameOut(s, t, i) && Holds(s, InHunk(s.outs[i].block), c);
    }
    forall i: nat, j: nat | i < l.outs && j < l.outs && i != j ensures OutsApart(t, i, j) { assert OutsApart(s, i, j); }
  }

  lemma PopKeepsLevel(s: S, c: map<nat, Cell>, l: Level, k: nat)
    requires Levels(s) && s.saved != [] && l == s.saved[|s.saved| - 1] && Agree(s, PopFrame(s, c), l)
    requires forall i: nat :: i < |s.blocks| ==> Holds(s, InHunk(i), c)
    requires k < |s.saved| - 1
    ensures LevelOk(PopFrame(s, c), k)
  {
    var t := PopFrame(s, c);
    assert LevelOk(s, k) && Nested(s, k, |s.saved| - 1);
    assert Agree(s, t, s.saved[k]);
    FrameKept(s, t, s.saved[k], OutStart(s, k));
    assert Holds(s, InHunk(s.saved[k].blocks), c);
    assert Above(s, k) == Above(t, k);
    assert t.blocks == s.blocks[..l.blocks];
  }

  lemma PopKeepsLevels(s: S, c: map<nat, Cell>, l: Level)
    requires Levels(s) && s.saved != [] && l == s.saved[|s.saved| - 1] && Agree(s, PopFrame(s, c), l)
    requires forall i: nat :: i < |s.blocks| ==> Holds(s, InHunk(i), c)
    ensures Levels(PopFrame(s, c))
  {
    var t := PopFrame(s, c);
    forall k: nat | k < |t.saved| ensures LevelOk(t, k) { PopKeepsLevel(s, c, l, k); }
    forall j: nat, k: nat | j < k < |t.saved| ensures Nested(t, j, k) { assert Nested(s, j, k); }
    assert LevelOk(s, |s.saved| - 1);
  }
}
