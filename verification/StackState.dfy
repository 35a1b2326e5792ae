/**
  The memory stack of `net/include/utils.h` and `net/misc/utils.cc`: a bump allocator over a
  growing chain of hunks. Frame snapshots and the proxies of out-of-hunk objects live in the
  allocator's own memory.

  Addresses are unbounded naturals and malloc always succeeds. `cells` is what memory holds at
  the addresses of headers, snapshots and proxies; writing a range destroys every cell it
  overlaps, so that a stray write would show.
 */
module StackState {
  import opened Common

  const HUNK_HEADER := 16
  const SNAPSHOT_SIZE := 40
  const PROXY_SIZE := 16
  const POINTER_ALIGN := 8
  const HUNK_STEP := 0x1_0000   // 64 << 10
  const ROOMY := 0x2000         // 8 << 10
  const MAX_ALIGN := 64

  datatype HunkRef = Stub | At(base: nat)

  datatype Frame = Frame(hunk: HunkRef, bumper: nat, end: nat, unhunks: Option<nat>, below: Option<nat>)

  datatype Cell =
    | Header(above: Option<nat>, size: nat)
    | Snapshot(frame: Frame)
    | Proxy(next: Option<nat>, obj: nat)
    | Byte(value: nat)   // what an object's owner stored

  function CellSize(c: Cell): nat {
    match c
    case Header(_, _) => HUNK_HEADER
    case Snapshot(_) => SNAPSHOT_SIZE
    case Proxy(_, _) => PROXY_SIZE
    case Byte(_) => 1
  }

  predicate Apart(a: int, n: int, b: int, m: int) { a + n <= b || b + m <= a }

  /** Memory after bytes [a, a + n) were overwritten. */
  function Erase(cells: map<nat, Cell>, a: nat, n: nat): map<nat, Cell> {
    map x | x in cells && Apart(x, CellSize(cells[x]), a, n) :: cells[x]
  }

  function Store(cells: map<nat, Cell>, a: nat, c: Cell): map<nat, Cell> {
    Erase(cells, a, CellSize(c))[a := c]
  }

  // ------------------------------------------------------------- abstract state

  datatype Kind = Object | ForSnapshot | ForProxy

  /** A live in-hunk allocation: which hunk of the chain, where, and what for. */
  datatype Block = Block(hunk: nat, addr: nat, size: nat, kind: Kind)

  /** A live out-of-hunk object: its proxy, the block that holds the proxy, and the proxy's link. */
  datatype Out = Out(addr: nat, size: nat, proxy: nat, block: nat, next: Option<nat>)

  /** A frame saved by Push, with the numbers of chain hunks, blocks and outs it covers. */
  datatype Level = Level(frame: Frame, depth: nat, blocks: nat, outs: nat)

  /**
    `chain` are the hunks reachable from the stub; the first `depth` of them are in use.
    `leaked` are hunks whose predecessor's `above` was overwritten.
   */
  datatype S = S(
    cells: map<nat, Cell>,
    regions: map<nat, nat>,      // malloc'ed blocks: address to size
    stub: Option<nat>,           // stub.above
    top: Frame,
    chain: seq<nat>,
    depth: nat,
    blocks: seq<Block>,
    outs: seq<Out>,
    saved: seq<Level>,
    leaked: set<nat>)

  function Get(cells: map<nat, Cell>, a: nat): Option<Cell> { if a in cells then Some(cells[a]) else None }

  function RegionSize(s: S, a: nat): nat { if a in s.regions then s.regions[a] else 0 }

  function Item<T>(xs: seq<T>, i: int): Option<T> { if 0 <= i < |xs| then Some(xs[i]) else None }

  ghost predicate Separate(s: S, a: nat, b: nat) {
    a in s.regions && b in s.regions && Apart(a, s.regions[a], b, s.regions[b])
  }

  ghost predicate HunkOk(s: S, i: nat) {
    && i < |s.chain|
    && s.chain[i] in s.regions
    && s.regions[s.chain[i]] == (i + 1) * HUNK_STEP
    && s.chain[i] > 0
    && Get(s.cells, s.chain[i]) == Some(Header(Item(s.chain, i + 1), s.regions[s.chain[i]]))
  }

  ghost predicate Hunks(s: S) {
    && s.depth <= |s.chain|
    && s.stub == Item(s.chain, 0)
    && (forall i: nat :: i < |s.chain| ==> HunkOk(s, i))
    && (forall i: nat, j: nat :: i < |s.chain| && j < |s.chain| && i != j ==> Distinct(s.chain, i, j))
    && (forall a: nat, b: nat :: a in s.regions && b in s.regions && a != b ==> Separate(s, a, b))
  }

  ghost predicate Distinct(xs: seq<nat>, i: nat, j: nat) { i < |xs| && j < |xs| && xs[i] != xs[j] }

  /** The frame's hunk fields describe the last of the first `d` hunks of the chain. */
  ghost predicate FrameOk(s: S, f: Frame, d: nat) {
    if d == 0 then f.hunk == Stub && f.bumper == 0 && f.end == 0
    else
      && d <= |s.chain| && f.hunk == At(s.chain[d - 1])
      && f.end == s.chain[d - 1] + RegionSize(s, s.chain[d - 1])
      && s.chain[d - 1] + HUNK_HEADER <= f.bumper <= f.end
  }

  /** Block `i` lies in the memory used by a frame of `d` hunks. */
  ghost predicate Under(s: S, f: Frame, d: nat, i: nat) {
    i < |s.blocks| ==>
      s.blocks[i].hunk < d && (s.blocks[i].hunk + 1 == d ==> s.blocks[i].addr + s.blocks[i].size <= f.bumper)
  }

  ghost predicate BlockOk(s: S, i: nat) {
    && i < |s.blocks| && s.blocks[i].hunk < |s.chain|
    && var b := s.blocks[i]; var base := s.chain[b.hunk];
       && base + HUNK_HEADER <= b.addr
       && b.addr + b.size <= base + RegionSize(s, base)
  }

  /** Within one hunk, allocation order is address order. */
  ghost predicate InOrder(s: S, i: nat, j: nat) {
    && i < j < |s.blocks|
    && (s.blocks[i].hunk == s.blocks[j].hunk ==> s.blocks[i].addr + s.blocks[i].size <= s.blocks[j].addr)
  }

  ghost predicate Blocks(s: S) {
    && (forall i: nat :: i < |s.blocks| ==> BlockOk(s, i))
    && (forall i: nat, j: nat :: i < j < |s.blocks| ==> InOrder(s, i, j))
  }

  /** The frame's unhunk list is outs[a..b], newest first. */
  ghost predicate UnhunkList(s: S, head: Option<nat>, a: nat, b: nat) {
    && a <= b <= |s.outs|
    && head == (if a < b then Some(s.outs[b - 1].proxy) else None)
    && (forall i: nat :: a <= i < b ==> Linked(s, i, a))
  }

  ghost predicate Linked(s: S, i: nat, a: nat) {
    a <= i < |s.outs| && s.outs[i].next == if i == a then None else Some(s.outs[i - 1].proxy)
  }

  ghost predicate OutOk(s: S, i: nat) {
    && i < |s.outs|
    && var o := s.outs[i];
       && o.addr in s.regions && s.regions[o.addr] == o.size
       && o.block < |s.blocks|
       && s.blocks[o.block].kind == ForProxy && s.blocks[o.block].addr == o.proxy
       && s.blocks[o.block].size == PROXY_SIZE
       && Get(s.cells, o.proxy) == Some(Proxy(o.next, o.addr))
  }

  ghost predicate OutsApart(s: S, i: nat, j: nat) {
    i < |s.outs| && j < |s.outs| && s.outs[i].addr != s.outs[j].addr
  }

  /** Every malloc'ed block is a hunk of the chain, a leaked hunk or an out-of-hunk object. */
  ghost predicate Accounted(s: S) {
    && (forall a :: a in s.regions <==> a in s.chain || a in s.leaked || exists i: nat :: IsOut(s, i, a))
    && (forall i: nat :: i < |s.outs| ==> s.outs[i].addr !in s.chain && s.outs[i].addr !in s.leaked)
    && (forall i: nat :: i < |s.chain| ==> s.chain[i] !in s.leaked)
  }

  ghost predicate IsOut(s: S, i: nat, a: nat) { i < |s.outs| && s.outs[i].addr == a }

  ghost predicate Outs(s: S) {
    && (forall i: nat :: i < |s.outs| ==> OutOk(s, i))
    && (forall i: nat, j: nat :: i < |s.outs| && j < |s.outs| && i != j ==> OutsApart(s, i, j))
  }

  function OutStart(s: S, k: nat): nat { if 0 < k <= |s.saved| then s.saved[k - 1].outs else 0 }

  /** The frame above level `k`: the next saved one, or the current. */
  function Above(s: S, k: nat): Frame { if k + 1 < |s.saved| then s.saved[k + 1].frame else s.top }

  /** The current frame as a level. */
  function Here(s: S): Level { Level(s.top, s.depth, |s.blocks|, |s.outs|) }

  ghost predicate OutBefore(s: S, i: nat, n: nat) { i < |s.outs| && s.outs[i].block < n }

  /** Restoring the frame of `l` would be sound; its own out-of-hunk objects start at `from`. */
  ghost predicate FrameAt(s: S, l: Level, from: nat) {
    && FrameOk(s, l.frame, l.depth) && l.depth <= s.depth
    && l.blocks <= |s.blocks| && l.outs <= |s.outs|
    && (forall i: nat :: i < l.blocks ==> Under(s, l.frame, l.depth, i))
    && (forall i: nat :: i < l.outs ==> OutBefore(s, i, l.blocks))
    && UnhunkList(s, l.frame.unhunks, from, l.outs)
  }

  /** The frame above level `k` points to an intact snapshot of level `k`, in a block of its own. */
  ghost predicate SnapshotOk(s: S, k: nat) {
    && k < |s.saved| && s.saved[k].blocks < |s.blocks|
    && var b := s.blocks[s.saved[k].blocks];
       && b.kind == ForSnapshot && b.size == SNAPSHOT_SIZE
       && Above(s, k).below == Some(b.addr)
       && Get(s.cells, b.addr) == Some(Snapshot(s.saved[k].frame))
  }

  ghost predicate LevelOk(s: S, k: nat) {
    && k < |s.saved|
    && FrameAt(s, s.saved[k], OutStart(s, k))
    && (k == 0 ==> s.saved[k].frame.below == None)
    && SnapshotOk(s, k)
  }

  /** Levels grow from the bottom up. */
  ghost predicate Nested(s: S, j: nat, k: nat) {
    && j < k < |s.saved|
    && s.saved[j].depth <= s.saved[k].depth && s.saved[j].blocks < s.saved[k].blocks
    && s.saved[j].outs <= s.saved[k].outs
  }

  ghost predicate Levels(s: S) {
    && (forall k: nat :: k < |s.saved| ==> LevelOk(s, k))
    && (forall j: nat, k: nat :: j < k < |s.saved| ==> Nested(s, j, k))
    && (s.saved == [] ==> s.top.below == None)
  }

  ghost predicate Current(s: S) { FrameAt(s, Here(s), OutStart(s, |s.saved|)) }

  ghost predicate Inv(s: S) {
    Hunks(s) && Blocks(s) && Outs(s) && Accounted(s) && Levels(s) && Current(s)
  }

  // ------------------------------------------------------------------- disjointness

  /** Blocks of different hunks lie in different malloc'ed regions. */
  lemma BlocksApart(s: S, i: nat, j: nat)
    requires Hunks(s) && Blocks(s) && i < j < |s.blocks|
    ensures Apart(s.blocks[i].addr, s.blocks[i].size, s.blocks[j].addr, s.blocks[j].size)
  {
    assert BlockOk(s, i) && BlockOk(s, j) && InOrder(s, i, j);
    var g, h := s.blocks[i].hunk, s.blocks[j].hunk;
    assert HunkOk(s, g) && HunkOk(s, h);
    if g != h {
      assert Distinct(s.chain, g, h);
      assert Separate(s, s.chain[g], s.chain[h]);
    }
  }

  lemma BlockApartFromOut(s: S, i: nat, j: nat)
    requires Inv(s) && i < |s.blocks| && j < |s.outs|
    ensures Apart(s.blocks[i].addr, s.blocks[i].size, s.outs[j].addr, s.outs[j].size)
  {
    assert BlockOk(s, i) && OutOk(s, j);
    var h := s.blocks[i].hunk;
    assert HunkOk(s, h);
    assert s.chain[h] in s.chain;
    assert Separate(s, s.chain[h], s.outs[j].addr);
  }

  lemma BlockApartFromHeader(s: S, i: nat, j: nat)
    requires Hunks(s) && Blocks(s) && i < |s.blocks| && j < |s.chain|
    ensures Apart(s.blocks[i].addr, s.blocks[i].size, s.chain[j], HUNK_HEADER)
  {
    assert BlockOk(s, i);
    var h := s.blocks[i].hunk;
    assert HunkOk(s, h) && HunkOk(s, j);
    if h != j {
      assert Distinct(s.chain, h, j);
      assert Separate(s, s.chain[h], s.chain[j]);
    }
  }

  lemma HeaderApartFromOut(s: S, i: nat, j: nat)
    requires Hunks(s) && Outs(s) && Accounted(s) && i < |s.chain| && j < |s.outs|
    ensures Apart(s.chain[i], HUNK_HEADER, s.outs[j].addr, s.outs[j].size)
  {
    assert HunkOk(s, i) && OutOk(s, j) && s.chain[i] in s.chain && Separate(s, s.chain[i], s.outs[j].addr);
  }

  lemma HeadersApart(s: S, i: nat, j: nat)
    requires Hunks(s) && i < j < |s.chain|
    ensures Apart(s.chain[i], HUNK_HEADER, s.chain[j], HUNK_HEADER)
  {
    assert HunkOk(s, i) && HunkOk(s, j) && Distinct(s.chain, i, j) && Separate(s, s.chain[i], s.chain[j]);
  }

  /** All live objects, snapshots, proxies and hunk headers occupy pairwise disjoint memory. */
  lemma AllDisjoint(s: S)
    requires Inv(s)
    ensures forall i, j :: 0 <= i < j < |s.blocks| ==>
      Apart(s.blocks[i].addr, s.blocks[i].size, s.blocks[j].addr, s.blocks[j].size)
    ensures forall i, j :: 0 <= i < |s.blocks| && 0 <= j < |s.outs| ==>
      Apart(s.blocks[i].addr, s.blocks[i].size, s.outs[j].addr, s.outs[j].size)
    ensures forall i, j :: 0 <= i < j < |s.outs| ==>
      Apart(s.outs[i].addr, s.outs[i].size, s.outs[j].addr, s.outs[j].size)
    ensures forall i, j :: 0 <= i < |s.blocks| && 0 <= j < |s.chain| ==>
      Apart(s.blocks[i].addr, s.blocks[i].size, s.chain[j], HUNK_HEADER)
    ensures forall i, j :: 0 <= i < |s.chain| && 0 <= j < |s.outs| ==>
      Apart(s.chain[i], HUNK_HEADER, s.outs[j].addr, s.outs[j].size)
    ensures forall i, j :: 0 <= i < j < |s.chain| ==> Apart(s.chain[i], HUNK_HEADER, s.chain[j], HUNK_HEADER)
  {
    forall i, j | 0 <= i < j < |s.blocks|
      ensures Apart(s.blocks[i].addr, s.blocks[i].size, s.blocks[j].addr, s.blocks[j].size)
    { BlocksApart(s, i, j); }
    forall i, j | 0 <= i < |s.blocks| && 0 <= j < |s.outs|
      ensures Apart(s.blocks[i].addr, s.blocks[i].size, s.outs[j].addr, s.outs[j].size)
    { BlockApartFromOut(s, i, j); }
    forall i, j | 0 <= i < j < |s.outs|
      ensures Apart(s.outs[i].addr, s.outs[i].size, s.outs[j].addr, s.outs[j].size)
    { assert OutsApart(s, i, j) && OutOk(s, i) && OutOk(s, j) && Separate(s, s.outs[i].addr, s.outs[j].addr); }
    forall i, j | 0 <= i < |s.blocks| && 0 <= j < |s.chain|
      ensures Apart(s.blocks[i].addr, s.blocks[i].size, s.chain[j], HUNK_HEADER)
    { BlockApartFromHeader(s, i, j); }
    forall i, j | 0 <= i < |s.chain| && 0 <= j < |s.outs|
      ensures Apart(s.chain[i], HUNK_HEADER, s.outs[j].addr, s.outs[j].size)
    { HeaderApartFromOut(s, i, j); }
    forall i, j | 0 <= i < j < |s.chain| ensures Apart(s.chain[i], HUNK_HEADER, s.chain[j], HUNK_HEADER) {
      HeadersApart(s, i, j);
    }
  }

  // ------------------------------------------------------------- what allocations hold

  /** A live allocation: a block, or an out-of-hunk object. */
  datatype Where = InHunk(i: nat) | OutOfHunk(i: nat)

  predicate Live(s: S, w: Where) {
    match w
    case InHunk(i) => i < |s.blocks|
    case OutOfHunk(i) => i < |s.outs|
  }

  function AddrOf(s: S, w: Where): nat requires Live(s, w) {
    match w
    case InHunk(i) => s.blocks[i].addr
    case OutOfHunk(i) => s.outs[i].addr
  }

  function SizeOf(s: S, w: Where): nat requires Live(s, w) {
    match w
    case InHunk(i) => s.blocks[i].size
    case OutOfHunk(i) => s.outs[i].size
  }

  /** Everything stored inside allocation `w` of `s` is still there in `c`. */
  ghost predicate Holds(s: S, w: Where, c: map<nat, Cell>) {
    Live(s, w) ==>
      forall x: nat :: x in s.cells && AddrOf(s, w) <= x && x + CellSize(s.cells[x]) <= AddrOf(s, w) + SizeOf(s, w) ==>
        Get(c, x) == Some(s.cells[x])
  }

  ghost predicate HoldsAll(s: S, c: map<nat, Cell>) { forall w :: Live(s, w) ==> Holds(s, w, c) }

  // -------------------------------------------------------------- what a frame depends on

  ghost predicate SameHunk(s: S, t: S, i: nat) {
    i < |s.chain| && i < |t.chain| && t.chain[i] == s.chain[i] && RegionSize(t, t.chain[i]) == RegionSize(s, s.chain[i])
  }

  ghost predicate SameOut(s: S, t: S, i: nat) {
    && i < |s.outs| && i < |t.outs| && t.outs[i] == s.outs[i]
    && (s.outs[i].addr in s.regions ==>
          s.outs[i].addr in t.regions && t.regions[s.outs[i].addr] == s.regions[s.outs[i].addr])
  }

  /** An object's block may still become that of a snapshot or a proxy. */
  ghost predicate SameBlock(s: S, t: S, i: nat) {
    && i < |s.blocks| && i < |t.blocks|
    && (t.blocks[i] == s.blocks[i]
        || (s.blocks[i].kind == Object && t.blocks[i] == s.blocks[i].(kind := t.blocks[i].kind)))
  }

  /** `t` agrees with `s` on everything level `l` covers. */
  ghost predicate Agree(s: S, t: S, l: Level) {
    && l.depth <= t.depth <= |t.chain| && l.blocks <= |t.blocks| && l.outs <= |t.outs|
    && (forall i: nat :: i < l.depth ==> SameHunk(s, t, i))
    && (forall i: nat :: i < l.blocks ==> SameBlock(s, t, i))
    && (forall i: nat :: i < l.outs ==> SameOut(s, t, i))
  }

  lemma FrameKept(s: S, t: S, l: Level, from: nat)
    requires FrameAt(s, l, from) && Agree(s, t, l)
    ensures FrameAt(t, l, from)
  {
    assert l.depth > 0 ==> SameHunk(s, t, l.depth - 1);
    forall i: nat | i < l.blocks ensures Under(t, l.frame, l.depth, i) {
      assert Under(s, l.frame, l.depth, i) && SameBlock(s, t, i);
    }
    forall i: nat | i < l.outs
      ensures OutBefore(t, i, l.blocks)
    { assert OutBefore(s, i, l.blocks) && SameOut(s, t, i); }
    assert from < l.outs ==> SameOut(s, t, l.outs - 1);
    forall i: nat | from <= i < l.outs ensures Linked(t, i, from) {
      assert Linked(s, i, from) && SameOut(s, t, i);
      assert i > from ==> SameOut(s, t, i - 1);
    }
  }

  lemma HunksKept(s: S, t: S)
    requires Hunks(s) && t.stub == s.stub && t.chain == s.chain && t.depth <= |t.chain|
    requires t.regions == s.regions
    requires forall i: nat :: i < |s.chain| ==> Get(t.cells, s.chain[i]) == Get(s.cells, s.chain[i])
    ensures Hunks(t)
  {
    forall i: nat | i < |s.chain| ensures HunkOk(t, i) { assert HunkOk(s, i); }
    forall a': nat, b: nat | a' in t.regions && b in t.regions && a' != b ensures Separate(t, a', b) {
      assert Separate(s, a', b);
    }
  }

  /** `t` continues from `s`: the hunks in use, the blocks, the outs and what the allocator stored are still there. */
  ghost predicate Carries(s: S, t: S) {
    && s.depth <= t.depth <= |t.chain| && |s.blocks| <= |t.blocks| && |s.outs| <= |t.outs|
    && (forall i: nat :: i < s.depth ==> SameHunk(s, t, i))
    && (forall i: nat :: i < |s.blocks| ==> SameBlock(s, t, i))
    && (forall i: nat :: i < |s.outs| ==> SameOut(s, t, i))
    && (forall i: nat :: i < |s.blocks| && s.blocks[i].kind != Object ==> Holds(s, InHunk(i), t.cells))
  }

  lemma CarryFrame(s: S, t: S, l: Level, from: nat)
    requires FrameAt(s, l, from) && Carries(s, t)
    ensures FrameAt(t, l, from)
  {
    FrameKept(s, t, l, from);
  }

  lemma CarryLevel(s: S, t: S, k: nat)
    requires LevelOk(s, k) && Carries(s, t)
    requires k < |t.saved| && t.saved[k] == s.saved[k] && OutStart(s, k) == OutStart(t, k)
    requires Above(s, k).below == Above(t, k).below
    ensures LevelOk(t, k)
  {
    CarryFrame(s, t, s.saved[k], OutStart(s, k));
    var i := s.saved[k].blocks;
    assert SameBlock(s, t, i) && Holds(s, InHunk(i), t.cells);
  }

  lemma CarryLevels(s: S, t: S)
    requires Levels(s) && Carries(s, t) && t.saved == s.saved && t.top.below == s.top.below
    ensures Levels(t)
  {
    forall k: nat | k < |s.saved| ensures LevelOk(t, k) { CarryLevel(s, t, k); }
    forall j: nat, k: nat | j < k < |s.saved| ensures Nested(t, j, k) { assert Nested(s, j, k); }
  }

  lemma CarryOut(s: S, t: S, i: nat)
    requires OutOk(s, i) && Carries(s, t)
    ensures OutOk(t, i)
  {
    assert SameOut(s, t, i) && SameBlock(s, t, s.outs[i].block) && Holds(s, InHunk(s.outs[i].block), t.cells);
  }

  lemma CarryOuts(s: S, t: S)
    requires Outs(s) && Carries(s, t) && t.outs == s.outs
    ensures Outs(t)
  {
    forall i: nat | i < |s.outs| ensures OutOk(t, i) { assert OutOk(s, i); CarryOut(s, t, i); }
    forall i: nat, j: nat | i < |s.outs| && j < |s.outs| && i != j
      ensures OutsApart(t, i, j)
    { assert OutsApart(s, i, j); }
  }

  lemma CarryBlock(s: S, t: S, i: nat)
    requires Carries(s, t) && BlockOk(s, i) && Under(s, s.top, s.depth, i)
    ensures BlockOk(t, i)
  {
    assert SameBlock(s, t, i) && SameHunk(s, t, s.blocks[i].hunk);
  }

  lemma CarryBlocks(s: S, t: S)
    requires Blocks(s) && Current(s) && Carries(s, t) && t.blocks == s.blocks
    ensures Blocks(t)
  {
    forall i: nat | i < |s.blocks| ensures BlockOk(t, i) { CarryBlock(s, t, i); }
    forall i: nat, j: nat | i < j < |s.blocks| ensures InOrder(t, i, j) { assert InOrder(s, i, j); }
  }

  lemma AccountedKept(s: S, t: S)
    requires Accounted(s) && t.outs == s.outs && t.chain == s.chain && t.leaked == s.leaked && t.regions == s.regions
    ensures Accounted(t)
  {
    forall i: nat, a' ensures IsOut(t, i, a') == IsOut(s, i, a') {}
  }

  /** The unhunk list of the current frame, carried over to a later frame. */
  lemma CarryCurrent(s: S, t: S)
    requires Outs(t) && Current(s)
    requires t.outs == s.outs && t.saved == s.saved && t.top.unhunks == s.top.unhunks
    requires FrameOk(t, t.top, t.depth)
    requires forall i: nat :: i < |t.blocks| ==> Under(t, t.top, t.depth, i)
    ensures Current(t)
  {
    forall i: nat | i < |t.outs| ensures OutBefore(t, i, |t.blocks|) { assert OutOk(t, i); }
    forall i: nat | OutStart(s, |s.saved|) <= i < |t.outs| ensures Linked(t, i, OutStart(t, |t.saved|)) {
      assert Linked(s, i, OutStart(s, |s.saved|));
    }
  }

  // -------------------------------------------------------------- writes to memory

  /** Cells clear of [a, a + n) are the same in both memories. */
  ghost predicate SameOutside(c: map<nat, Cell>, c': map<nat, Cell>, a: nat, n: nat) {
    forall x: nat :: x in c && Apart(x, CellSize(c[x]), a, n) ==> Get(c', x) == Some(c[x])
  }

  /** [a, a + n) is clear of everything the allocator keeps for itself. */
  ghost predicate Harmless(s: S, a: nat, n: nat) {
    && (forall i: nat :: i < |s.chain| ==> Apart(s.chain[i], HUNK_HEADER, a, n))
    && (forall i: nat :: i < |s.blocks| && s.blocks[i].kind != Object ==>
          Apart(s.blocks[i].addr, s.blocks[i].size, a, n))
  }

  /** Only cells and client data may differ. */
  lemma WriteKeepsInv(s: S, c: map<nat, Cell>, a: nat, n: nat)
    requires Inv(s) && Harmless(s, a, n) && SameOutside(s.cells, c, a, n)
    ensures Inv(s.(cells := c))
  {
    var t := s.(cells := c);
    HunksKept(s, t) by {
      forall i: nat | i < |s.chain|
        ensures Get(t.cells, s.chain[i]) == Get(s.cells, s.chain[i])
      { assert HunkOk(s, i); }
    }
    WriteCarries(s, c, a, n);
    CarryBlocks(s, t);
    CarryOuts(s, t);
    AccountedKept(s, t);
    CarryLevels(s, t);
    CarryFrame(s, t, Here(s), OutStart(s, |s.saved|));
  }

  lemma WriteCarries(s: S, c: map<nat, Cell>, a: nat, n: nat)
    requires s.depth <= |s.chain| && Harmless(s, a, n) && SameOutside(s.cells, c, a, n)
    ensures Carries(s, s.(cells := c))
  {
    forall i: nat | i < |s.blocks| && s.blocks[i].kind != Object ensures Holds(s, InHunk(i), c) {
      WriteElsewhere(s, InHunk(i), c, a, n);
    }
  }

  /** Free space of the current hunk is clear of everything in use. */
  lemma FreeSpaceIsClear(s: S, a: nat, n: nat)
    requires Inv(s) && s.depth > 0 && s.top.bumper <= a && a + n <= s.top.end
    ensures Clear(s, a, n)
  {
    var h := s.depth - 1;
    assert HunkOk(s, h);
    forall i: nat | i < |s.chain| ensures Apart(s.chain[i], HUNK_HEADER, a, n) {
      assert HunkOk(s, i);
      if i != h { assert Distinct(s.chain, i, h); assert Separate(s, s.chain[i], s.chain[h]); }
    }
    forall i: nat | i < |s.blocks| ensures Apart(s.blocks[i].addr, s.blocks[i].size, a, n) {
      assert BlockOk(s, i) && Under(s, s.top, s.depth, i);
      var g := s.blocks[i].hunk;
      assert HunkOk(s, g);
      if g != h { assert Distinct(s.chain, g, h); assert Separate(s, s.chain[g], s.chain[h]); }
    }
    forall i: nat | i < |s.outs| ensures Apart(s.outs[i].addr, s.outs[i].size, a, n) {
      assert OutOk(s, i) && s.chain[h] in s.chain && Separate(s, s.chain[h], s.outs[i].addr);
    }
  }

  /** [a, a + n) is clear of everything in use. */
  ghost predicate Clear(s: S, a: nat, n: nat) {
    && (forall i: nat :: i < |s.chain| ==> Apart(s.chain[i], HUNK_HEADER, a, n))
    && (forall i: nat :: i < |s.blocks| ==> Apart(s.blocks[i].addr, s.blocks[i].size, a, n))
    && (forall i: nat :: i < |s.outs| ==> Apart(s.outs[i].addr, s.outs[i].size, a, n))
  }

  /** malloc can return [a, a + n). */
  predicate Unmapped(regions: map<nat, nat>, a: nat, n: nat) {
    a > 0 && a !in regions && (forall b: nat :: b in regions ==> Apart(b, regions[b], a, n))
  }

  lemma FreshIsClear(s: S, a: nat, n: nat)
    requires Inv(s) && Unmapped(s.regions, a, n)
    ensures Clear(s, a, n)
  {
    forall i: nat | i < |s.chain| ensures Apart(s.chain[i], HUNK_HEADER, a, n) { assert HunkOk(s, i); }
    forall i: nat | i < |s.blocks| ensures Apart(s.blocks[i].addr, s.blocks[i].size, a, n) {
      assert BlockOk(s, i) && HunkOk(s, s.blocks[i].hunk);
    }
    forall i: nat | i < |s.outs| ensures Apart(s.outs[i].addr, s.outs[i].size, a, n) { assert OutOk(s, i); }
  }

  lemma WriteElsewhere(s: S, w: Where, c: map<nat, Cell>, a: nat, n: nat)
    requires Live(s, w) && Apart(AddrOf(s, w), SizeOf(s, w), a, n) && SameOutside(s.cells, c, a, n)
    ensures Holds(s, w, c)
  {}

  lemma ClearWriteHolds(s: S, c: map<nat, Cell>, a: nat, n: nat)
    requires Clear(s, a, n) && SameOutside(s.cells, c, a, n)
    ensures HoldsAll(s, c)
  {
    forall w | Live(s, w) ensures Holds(s, w, c) { WriteElsewhere(s, w, c, a, n); }
  }
}
