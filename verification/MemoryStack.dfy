/**
  `struct ncclMemoryStack` and its operations, proved against the state of StackState,
  the steps of StackSteps and the relations of StackRuns.
 */
module MemoryStack {
  import opened Common
  import opened Bits
  import opened StackState
  import opened StackSteps
  import opened StackRuns

  /** Some address is past every malloc'ed block. */
  lemma {:induction false} PastRegions(regions: map<nat, nat>, keys: set<nat>) returns (p: nat)
    requires keys <= regions.Keys
    ensures p > 0 && forall b: nat :: b in keys ==> b + regions[b] <= p && b < p
    decreases |keys|
  {
    if keys == {} {
      p := 1;
    } else {
      var b :| b in keys;
      p := PastRegions(regions, keys - {b});
      p := Max(p, b + regions[b] + 1);
    }
  }

  class Stack {
    var cells: map<nat, Cell>        // memory
    var regions: map<nat, nat>       // what malloc handed out and was not freed
    var stubAbove: Option<nat>       // stub.above; stub.size is 0
    var topFrame: Frame
    ghost var state: S               // the same, with what the memory is used for

    ghost predicate Matches(s: S)
      reads this
    {
      s.cells == cells && s.regions == regions && s.stub == stubAbove && s.top == topFrame
    }

    ghost predicate Valid()
      reads this
    {
      Matches(state) && Inv(state)
    }

    /** ncclMemoryStackConstruct */
    constructor ()
      ensures Valid() && state.blocks == [] && state.outs == [] && state.saved == [] && state.regions == map[]
    {
      cells, regions, stubAbove := map[], map[], None;
      topFrame := Frame(Stub, 0, 0, None, None);
      state := S(map[], map[], None, Frame(Stub, 0, 0, None, None), [], 0, [], [], [], {});
    }

    method Malloc(n: nat) returns (p: nat)
      modifies this`regions, this`cells
      ensures Unmapped(old(regions), p, n) && regions == old(regions)[p := n]
      ensures cells == Erase(old(cells), p, n)
    {
      ghost var q := PastRegions(regions, regions.Keys);
      assert Unmapped(regions, q, n);
      p :| Unmapped(regions, p, n);
      regions := regions[p := n];
      cells := Erase(cells, p, n);
    }

    /** The block must not have been freed before. */
    method Free(p: nat)
      requires p in regions
      modifies this`regions, this`cells
      ensures regions == old(regions) - {p} && cells == Erase(old(cells), p, old(regions)[p])
    {
      cells := Erase(cells, p, regions[p]);
      regions := regions - {p};
    }

    /** `top->above` and `top->size` of the current hunk. */
    method ReadTop() returns (above: Option<nat>, size: nat)
      requires Valid()
      ensures above == Item(state.chain, state.depth)
      ensures size == state.depth * HUNK_STEP
    {
      match topFrame.hunk {
        case Stub => above, size := stubAbove, 0;
        case At(base) =>
          assert HunkOk(state, state.depth - 1);
          above, size := cells[base].above, cells[base].size;
      }
    }

    /** The object at `a` in the current hunk, after a possible move from `s`. */
    method Take(a: nat, size: nat, ghost s: S, ghost align: nat)
      requires Valid() && (state == s || Moved(s, state))
      requires topFrame.bumper <= a && a + size <= topFrame.end && state.depth > 0 && align > 0 && a % align == 0
      modifies this`topFrame, this`state
      ensures Valid() && Allocated(s, state, a, size, align) && InBand(s, state, a, size, align)
      ensures state.leaked == old(state).leaked
    {
      BumpAllocates(s, state, a, size, align);
      topFrame := topFrame.(bumper := a + size);
      state := Bump(state, a, size);
    }

    /** Put the proxy of `obj` at `uproxy`, in front of the frame's list. */
    method LinkProxy(uproxy: nat, obj: nat, size: nat, ghost s: S)
      requires s.depth > 0 && regions == s.regions[obj := size] && stubAbove == s.stub && topFrame == s.top
      requires cells == Erase(s.cells, obj, size)
      modifies this`cells, this`topFrame
      ensures Matches(Unhunked(s, uproxy, obj, size))
    {
      cells := Store(cells, uproxy, Proxy(topFrame.unhunks, obj));
      topFrame := topFrame.(bumper := uproxy + PROXY_SIZE, unhunks := Some(uproxy));
    }

    /** An object of its own, with a proxy in the current hunk. */
    method AllocateUnhunked(size: nat, ghost s: S, ghost align: nat) returns (obj: nat)
      requires Valid() && (state == s || Moved(s, state))
      requires AlignUp(topFrame.bumper, POINTER_ALIGN) + PROXY_SIZE <= topFrame.end
      modifies this
      ensures Valid() && Allocated(s, state, obj, size, align) && OutOfBand(s, state, obj, size)
      ensures state.leaked == old(state).leaked
    {
      var uproxy := AlignUp(topFrame.bumper, POINTER_ALIGN);
      obj := Malloc(size);
      UnhunkedStep(s, state, uproxy, obj, size, align);
      LinkProxy(uproxy, obj, size, state);
      state := Unhunked(state, uproxy, obj, size);
    }

    /** Write the header of the new hunk `top1` and make it the one above `s`'s current hunk. */
    method LinkHunk(top1: nat, nextSize: nat, ghost s: S)
      requires regions == s.regions[top1 := nextSize] && stubAbove == s.stub && topFrame == s.top
      requires cells == Erase(s.cells, top1, nextSize) && TopReadable(s, top1, nextSize)
      modifies this`cells, this`stubAbove, this`topFrame
      ensures s.depth <= |s.chain| && Matches(NewHunk(s, top1, nextSize))
    {
      cells := Store(cells, top1, Header(None, nextSize));
      match topFrame.hunk {
        case Stub => stubAbove := Some(top1);
        case At(base) => cells := Store(cells, base, cells[base].(above := Some(top1)));
      }
      topFrame := topFrame.(hunk := At(top1), bumper := top1 + HUNK_HEADER, end := top1 + nextSize);
    }

    /** A new hunk becomes the current one; hunks waiting above the old one are forgotten. */
    method AddHunk(nextSize: nat)
      requires Valid() && nextSize == (state.depth + 1) * HUNK_STEP
      modifies this
      ensures Valid() && Moved(old(state), state)
      ensures state.depth == old(state).depth + 1
      ensures state.leaked == old(state).leaked + Waiting(old(state))
      ensures topFrame.end == topFrame.bumper - HUNK_HEADER + nextSize
    {
      var top1 := Malloc(nextSize);
      TopSurvives(state, top1, nextSize);
      LinkHunk(top1, nextSize, state);
      NewHunkMoves(state, top1, nextSize);
      state := NewHunk(state, top1, nextSize);
    }

    /**
      ncclMemoryStack::allocateSpilled, for an object that does not fit in the current hunk. Small
      objects are always allocated in a hunk.
     */
    method AllocateSpilled(size: nat, align: nat) returns (obj: nat)
      requires Valid() && size > 0 && IsPow2(align)
      requires AlignUp(topFrame.bumper, align) + size > topFrame.end
      modifies this
      ensures Valid() && Allocated(old(state), state, obj, size, align)
      ensures size + align <= ROOMY ==> InBand(old(state), state, obj, size, align)
      ensures Dropped(old(state), state, size, align)
    {
      ghost var s := state;
      if topFrame.end - topFrame.bumper >= ROOMY {
        RoomyDropsNothing(s, size, align);
        obj := AllocateUnhunked(size, s, align);
        return;
      }
      var above, topSize := ReadTop();
      if above.Some? {
        var top1 := above.value;
        var top1Size := HunkSize(top1);
        var uobj := AlignUp(top1 + HUNK_HEADER, align);
        if uobj + size <= top1 + top1Size {
          EnterAbove(top1, top1Size);
          Take(uobj, size, s, align);
          return uobj;
        }
      }
      obj := AllocatePastWaiting(topSize + HUNK_STEP, size, align);
    }

    /** The rest, for an object that does not fit in a waiting hunk either. */
    method AllocatePastWaiting(nextSize: nat, size: nat, align: nat) returns (obj: nat)
      requires Valid() && align > 0 && nextSize == (state.depth + 1) * HUNK_STEP && PastWaiting(state, size, align)
      modifies this
      ensures Valid() && Allocated(old(state), state, obj, size, align)
      ensures size + align <= ROOMY ==> InBand(old(state), state, obj, size, align)
      ensures Dropped(old(state), state, size, align)
    {
      if nextSize < HUNK_HEADER + MAX_ALIGN + size
          && AlignUp(topFrame.bumper, POINTER_ALIGN) + PROXY_SIZE <= topFrame.end {
        obj := AllocateUnhunked(size, state, align);
      } else {
        NewHunkDrops(state, size, align);
        obj := AllocateInNewHunk(nextSize, size, align);
      }
    }

    /** The object, or at least its proxy, goes into a new hunk. */
    method AllocateInNewHunk(nextSize: nat, size: nat, align: nat) returns (obj: nat)
      requires Valid() && nextSize == (state.depth + 1) * HUNK_STEP && align > 0
      modifies this
      ensures Valid() && Allocated(old(state), state, obj, size, align)
      ensures size + align <= ROOMY ==> InBand(old(state), state, obj, size, align)
      ensures state.leaked == old(state).leaked + Waiting(old(state))
    {
      ghost var s := state;
      AddHunk(nextSize);
      var uobj := AlignUp(topFrame.bumper, align);
      if uobj + size <= topFrame.end {
        Take(uobj, size, s, align);
        obj := uobj;
      } else {
        obj := AllocateUnhunked(size, s, align);
      }
    }

    /** The empty hunk above becomes the current one. */
    method EnterAbove(top1: nat, size: nat)
      requires Valid() && Item(state.chain, state.depth) == Some(top1) && size == RegionSize(state, top1)
      modifies this`topFrame, this`state
      ensures Valid() && Moved(old(state), state) && state.depth > 0 && state.leaked == old(state).leaked
      ensures topFrame.bumper == top1 + HUNK_HEADER && topFrame.end == top1 + size
    {
      EnterMoves(state);
      topFrame := topFrame.(hunk := At(top1), bumper := top1 + HUNK_HEADER, end := top1 + size);
      state := Enter(state);
    }

    method HunkSize(base: nat) returns (size: nat)
      requires Valid() && Item(state.chain, state.depth) == Some(base)
      ensures size == RegionSize(state, base) == (state.depth + 1) * HUNK_STEP
    {
      assert HunkOk(state, state.depth);
      size := cells[base].size;
    }

    /** ncclMemoryStack::allocate */
    method Allocate(size: nat, align: nat) returns (obj: nat)
      requires Valid() && size > 0 && IsPow2(align)
      modifies this
      ensures Valid() && Allocated(old(state), state, obj, size, align)
      ensures size + align <= ROOMY ==> InBand(old(state), state, obj, size, align)
      ensures Dropped(old(state), state, size, align)
      ensures state.leaked != old(state).leaked <==> Drops(old(state), size, align)
    {
      var o := AlignUp(topFrame.bumper, align);
      if o + size <= topFrame.end {
        Take(o, size, state, align);
        obj := o;
      } else {
        obj := AllocateSpilled(size, align);
      }
      DroppedExactly(old(state), state, size, align);
    }

    /** ncclMemoryStackAlloc: the object is zeroed. */
    method Alloc(size: nat, align: nat) returns (obj: nat)
      requires Valid() && size > 0 && IsPow2(align)
      modifies this
      ensures Valid() && Allocated(old(state), state, obj, size, align)
      ensures size + align <= ROOMY ==> InBand(old(state), state, obj, size, align)
      ensures Dropped(old(state), state, size, align)
      ensures forall x :: obj <= x < obj + size ==> Get(cells, x) == Some(Byte(0))
    {
      ghost var s := state;
      obj := Allocate(size, align);
      FillNew(s, state, obj, size, align);
      FillZeroes(cells, obj, size);
      cells := Fill(cells, obj, size);
      state := state.(cells := cells);
    }

    /** The owner of object `w` stores a byte in it. */
    method Write(ghost w: Where, x: nat, value: nat)
      requires Valid() && Live(state, w) && (w.InHunk? ==> state.blocks[w.i].kind == Object)
      requires AddrOf(state, w) <= x < AddrOf(state, w) + SizeOf(state, w)
      modifies this`cells, this`state
      ensures Valid() && Wrote(old(state), state, w) && Get(cells, x) == Some(Byte(value))
    {
      cells := Store(cells, x, Byte(value));
      WroteKeepsInv(state, state.(cells := cells), w);
      state := state.(cells := cells);
    }

    /** ncclMemoryStackPush: the snapshot is always in a hunk, so that clearing `unhunks` drops nothing. */
    method Push()
      requires Valid()
      modifies this
      ensures Valid() && Pushed(old(state), state)
    {
      ghost var s := state;
      var tmp := topFrame;
      assert IsPow2(POINTER_ALIGN) by { assert POINTER_ALIGN == Pow2(3); }
      SnapshotDropsNothing(s);
      var snapshot := Allocate(SNAPSHOT_SIZE, POINTER_ALIGN);
      PushStep(s, state, snapshot);
      SaveFrame(snapshot, tmp, state, Here(s));
      state := PushFrame(state.(cells := Store(state.cells, snapshot, Snapshot(s.top))), Here(s));
    }

    /** Write the snapshot and start a new frame on it. */
    method SaveFrame(snapshot: nat, tmp: Frame, ghost m: S, ghost l: Level)
      requires Matches(m) && m.blocks != [] && m.blocks[|m.blocks| - 1].addr == snapshot
      modifies this`cells, this`topFrame
      ensures Matches(PushFrame(m.(cells := Store(m.cells, snapshot, Snapshot(tmp))), l))
    {
      cells := Store(cells, snapshot, Snapshot(tmp));
      topFrame := topFrame.(unhunks := None, below := Some(snapshot));
    }

    /** Free the objects outs[from..to] of a frame, newest first, those from `to` on being freed already. */
    method FreeList(list: Option<nat>, ghost from: nat, ghost to: nat)
      requires Inv(state) && UnhunkList(state, list, from, to) && Freed(state, regions, cells, to)
      modifies this`regions, this`cells
      ensures Freed(state, regions, cells, from)
    {
      var un := list;
      ghost var i := to;
      while un.Some?
        invariant from <= i <= to
        invariant un == ListHead(state, from, i)
        invariant Freed(state, regions, cells, i)
        decreases i
      {
        un := FreeNewest(un.value, list, from, to, i);
        i := i - 1;
      }
    }

    /** Free the object of the proxy at `un` and read the next proxy. */
    method FreeNewest(un: nat, ghost list: Option<nat>, ghost from: nat, ghost to: nat, ghost i: nat)
      returns (next: Option<nat>)
      requires Inv(state) && UnhunkList(state, list, from, to) && from < i <= to && Freed(state, regions, cells, i)
      requires Some(un) == ListHead(state, from, i)
      modifies this`regions, this`cells
      ensures Freed(state, regions, cells, i - 1) && next == ListHead(state, from, i - 1)
    {
      FreeOne(state, regions, cells, from, to, i, list);
      Free(cells[un].obj);
      next := cells[un].next;
    }

    /** ncclMemoryStackPop */
    method Pop()
      requires Valid() && state.saved != []
      modifies this
      ensures Valid() && Popped(old(state), state)
    {
      ghost var l := state.saved[|state.saved| - 1];
      NothingFreed(state);
      FreeList(topFrame.unhunks, l.outs, |state.outs|);
      PopStep(state, regions, cells);
      topFrame := cells[topFrame.below.value].frame;
      state := PopFrame(state, cells);
    }

    /**
      ncclMemoryStackDestruct: every out-of-hunk object and every hunk of the chain is freed exactly
      once; what stays allocated are the hunks that had dropped out of the chain.
     */
    method Destruct()
      requires Valid()
      modifies this`regions, this`cells
      ensures regions.Keys == old(state).leaked
    {
      FreeAllLists();
      FreeChain();
    }

    /** The frames from the top down, each with its list. */
    method FreeAllLists()
      requires Valid()
      modifies this`regions, this`cells
      ensures Freed(state, regions, cells, 0)
    {
      ghost var k: nat := |state.saved|;
      NothingFreed(state);
      FreeList(topFrame.unhunks, OutStart(state, k), |state.outs|);
      var f := topFrame;
      while f.below.Some?
        invariant k <= |state.saved| && f == FrameOf(state, k)
        invariant Freed(state, regions, cells, OutStart(state, k))
        decreases k
      {
        BottomFrame(state, k);
        SnapshotReadable(state, regions, cells, k, OutStart(state, k));
        f := cells[f.below.value].frame;
        k := k - 1;
        FreeList(f.unhunks, OutStart(state, k), OutStart(state, k + 1));
      }
      BottomFrame(state, k);
    }

    method FreeChain()
      requires Inv(state) && stubAbove == state.stub && Freed(state, regions, cells, 0)
      modifies this`regions, this`cells
      ensures regions.Keys == state.leaked
    {
      ghost var j: nat := 0;
      var h := stubAbove;
      ChainIntact(state, regions, cells);
      while h.Some?
        invariant j <= |state.chain| && h == Item(state.chain, j)
        invariant Remaining(state, regions, cells, j)
        decreases |state.chain| - j
      {
        FreeHunk(state, regions, cells, j);
        var h1 := cells[h.value].above;
        Free(h.value);
        h := h1;
        j := j + 1;
      }
      OnlyLeakedRemain(state, regions, cells);
    }
  }

  /** Frame `k` from the bottom. */
  function FrameOf(s: S, k: nat): Frame { if k < |s.saved| then s.saved[k].frame else s.top }

  /** A frame without one below it is the bottom one. */
  lemma BottomFrame(s: S, k: nat)
    requires Levels(s) && k <= |s.saved|
    ensures FrameOf(s, k).below.None? <==> k == 0
  {
    if k == 0 {
      assert s.saved != [] ==> LevelOk(s, 0);
    } else {
      assert LevelOk(s, k - 1);
    }
  }

  function Firsts(chain: seq<nat>, j: nat): set<nat> { set i | 0 <= i < j && i < |chain| :: chain[i] }

  /** The headers from hunk `j` on can be read. */
  ghost predicate Intact(s: S, c: map<nat, Cell>, j: nat) {
    forall i: nat :: j <= i < |s.chain| ==> Get(c, s.chain[i]) == Get(s.cells, s.chain[i])
  }

  /** Of the chain, the hunks from `j` on are still allocated, with their headers; the outs are not. */
  ghost predicate Remaining(s: S, r: map<nat, nat>, c: map<nat, Cell>, j: nat) {
    r == s.regions - Addresses(s.outs, 0) - Firsts(s.chain, j) && Intact(s, c, j)
  }

  lemma ChainIntact(s: S, r: map<nat, nat>, c: map<nat, Cell>)
    requires Inv(s) && Freed(s, r, c, 0)
    ensures Remaining(s, r, c, 0)
  {
    FreeHolds(s, c, 0);
    assert Firsts(s.chain, 0) == {};
  }

  lemma FreeHunk(s: S, r: map<nat, nat>, c: map<nat, Cell>, j: nat)
    requires Inv(s) && Remaining(s, r, c, j) && j < |s.chain|
    ensures var a := s.chain[j];
      && a in r && Get(c, a) == Some(Header(Item(s.chain, j + 1), r[a]))
      && Remaining(s, r - {a}, Erase(c, a, r[a]), j + 1)
  {
    var a := s.chain[j];
    assert HunkOk(s, j) && a in s.chain;
    assert a !in Firsts(s.chain, j) by {
      forall i: nat | i < j ensures s.chain[i] != a { assert Distinct(s.chain, i, j); }
    }
    assert Firsts(s.chain, j + 1) == Firsts(s.chain, j) + {a};
    forall i: nat | j + 1 <= i < |s.chain|
      ensures Get(Erase(c, a, r[a]), s.chain[i]) == Get(s.cells, s.chain[i])
    {
      assert HunkOk(s, i) && Distinct(s.chain, i, j) && Separate(s, s.chain[i], a);
    }
  }

  lemma OnlyLeakedRemain(s: S, r: map<nat, nat>, c: map<nat, Cell>)
    requires Inv(s) && Remaining(s, r, c, |s.chain|)
    ensures r.Keys == s.leaked
  {
    forall a ensures a in r <==> a in s.leaked {
      PopKeepsAccount(s, 0, a);
      if a in s.chain { var i: nat :| i < |s.chain| && s.chain[i] == a; }
      if a in Firsts(s.chain, |s.chain|) {
        var i: nat :| i < |s.chain| && s.chain[i] == a;
        assert s.chain[i] !in s.leaked;
      }
    }
  }

  /** The guards on the way to a new hunk, before the last. */
  ghost predicate PastWaiting(s: S, size: nat, align: nat)
    requires align > 0
  {
    && AlignUp(s.top.bumper, align) + size > s.top.end && s.top.end - s.top.bumper < ROOMY
    && (s.depth < |s.chain| ==>
          AlignUp(s.chain[s.depth] + HUNK_HEADER, align) + size > s.chain[s.depth] + (s.depth + 1) * HUNK_STEP)
  }

  /** An object too large for plenty of space is large, and drops nothing. */
  lemma RoomyDropsNothing(s: S, size: nat, align: nat)
    requires align > 0 && AlignUp(s.top.bumper, align) + size > s.top.end && s.top.end - s.top.bumper >= ROOMY
    ensures size + align > ROOMY && !Drops(s, size, align)
  {}

  /** Past the last guard, what drops out are the waiting hunks, if there are any. */
  lemma NewHunkDrops(s: S, size: nat, align: nat)
    requires align > 0 && PastWaiting(s, size, align) && s.depth <= |s.chain|
    requires (s.depth + 1) * HUNK_STEP < HUNK_HEADER + MAX_ALIGN + size ==>
      AlignUp(s.top.bumper, POINTER_ALIGN) + PROXY_SIZE > s.top.end
    ensures s.leaked + Waiting(s) == if Drops(s, size, align) then s.leaked + Waiting(s) else s.leaked
  {
    if s.depth == |s.chain| { assert Waiting(s) == {}; }
  }

  lemma EnterMoves(s: S)
    requires Inv(s) && s.depth < |s.chain|
    ensures Inv(Enter(s)) && Moved(s, Enter(s))
  {
    EnterKeepsInv(s);
  }

  /** The header of the current hunk of `s` can be read after the header of `p` was written. */
  ghost predicate TopReadable(s: S, p: nat, n: nat) {
    var c := Store(Erase(s.cells, p, n), p, Header(None, n));
    if s.depth == 0 then s.top.hunk == Stub
    else
      && s.depth <= |s.chain| && s.top.hunk == At(s.chain[s.depth - 1])
      && match Get(c, s.chain[s.depth - 1])
         case Some(Header(_, size)) => size == RegionSize(s, s.chain[s.depth - 1])
         case _ => false
  }

  lemma TopSurvives(s: S, p: nat, n: nat)
    requires Inv(s) && Unmapped(s.regions, p, n) && n >= HUNK_HEADER
    ensures TopReadable(s, p, n)
  {
    assert s.depth > 0 ==> HunkOk(s, s.depth - 1);
  }

  lemma UnhunkedStep(s: S, m: S, a: nat, obj: nat, n: nat, align: nat)
    requires Inv(m) && (m == s || Moved(s, m))
    requires m.top.bumper <= a && a + PROXY_SIZE <= m.top.end && Unmapped(m.regions, obj, n)
    ensures m.depth > 0
    ensures var t := Unhunked(m, a, obj, n); Inv(t) && Allocated(s, t, obj, n, align) && OutOfBand(s, t, obj, n)
  {
    if m == s { UnhunkedAllocates(s, a, obj, n, align); } else { MovedThenUnhunked(s, m, a, obj, n, align); }
  }

  /** memset(obj, 0, n) */
  function Fill(c: map<nat, Cell>, a: nat, n: nat): map<nat, Cell> {
    if n == 0 then c else Store(Fill(c, a, n - 1), a + n - 1, Byte(0))
  }

  lemma {:induction false} FillZeroes(c: map<nat, Cell>, a: nat, n: nat)
    ensures SameOutside(c, Fill(c, a, n), a, n)
    ensures forall x :: a <= x < a + n ==> Get(Fill(c, a, n), x) == Some(Byte(0))
  {
    if n > 0 {
      FillZeroes(c, a, n - 1);
      StoredOutside(Fill(c, a, n - 1), a + n - 1, Byte(0));
      forall x | a <= x < a + n ensures Get(Fill(c, a, n), x) == Some(Byte(0)) {
        assert x < a + n - 1 ==> Get(Fill(c, a, n - 1), x) == Some(Byte(0));
      }
    }
  }

  lemma FillNew(s: S, m: S, obj: nat, n: nat, align: nat)
    requires Inv(m) && Allocated(s, m, obj, n, align)
    ensures var t := m.(cells := Fill(m.cells, obj, n)); Inv(t) && Allocated(s, t, obj, n, align)
    ensures InBand(s, m, obj, n, align) ==> InBand(s, m.(cells := Fill(m.cells, obj, n)), obj, n, align)
  {
    FillZeroes(m.cells, obj, n);
    var t := m.(cells := Fill(m.cells, obj, n));
    var w := if InBand(s, m, obj, n, align) then InHunk(|s.blocks|) else OutOfHunk(|s.outs|);
    assert Wrote(m, t, w);
    WroteKeepsInv(m, t, w);
    WriteNewHolds(s, m, t, w);
    FrameIgnoresCells(m, t, Here(s), OutStart(s, |s.saved|));
  }

  lemma SameInPrefix(s: S, m: S, v: Where)
    requires Live(s, v) && |s.blocks| <= |m.blocks| && m.blocks[..|s.blocks|] == s.blocks
    requires |s.outs| <= |m.outs| && m.outs[..|s.outs|] == s.outs
    ensures Live(m, v) && AddrOf(m, v) == AddrOf(s, v) && SizeOf(m, v) == SizeOf(s, v)
  {
    match v {
      case InHunk(i) => assert m.blocks[i] == m.blocks[..|s.blocks|][i];
      case OutOfHunk(i) => assert m.outs[i] == m.outs[..|s.outs|][i];
    }
  }

  lemma FrameIgnoresCells(m: S, t: S, l: Level, from: nat)
    requires FrameAt(m, l, from) && t == m.(cells := t.cells) && m.depth <= |m.chain|
    ensures FrameAt(t, l, from)
  {
    FrameKept(m, t, l, from);
  }

  lemma PushStep(s: S, m: S, a: nat)
    requires Inv(s) && Inv(m) && m.leaked == s.leaked
    requires Allocated(s, m, a, SNAPSHOT_SIZE, POINTER_ALIGN) && InBand(s, m, a, SNAPSHOT_SIZE, POINTER_ALIGN)
    ensures m.blocks != []
    ensures var t := PushFrame(m.(cells := Store(m.cells, a, Snapshot(s.top))), Here(s)); Inv(t) && Pushed(s, t)
  {
    var c := Store(m.cells, a, Snapshot(s.top));
    var m' := m.(cells := c);
    var w := InHunk(|s.blocks|);
    assert Wrote(m, m', w);
    WroteKeepsInv(m, m', w);
    FrameIgnoresCells(m, m', Here(s), OutStart(s, |s.saved|));
    PushKeepsInv(s, m');
    WriteNewHolds(s, m, m', w);
  }

  /** Writing into an allocation that is new since `s` leaves what those of `s` hold. */
  lemma WriteNewHolds(s: S, m: S, t: S, w: Where)
    requires |s.blocks| <= |m.blocks| && m.blocks[..|s.blocks|] == s.blocks
    requires |s.outs| <= |m.outs| && m.outs[..|s.outs|] == s.outs
    requires HoldsAll(s, m.cells) && !Live(s, w)
    requires forall v :: Live(m, v) && v != w ==> Holds(m, v, t.cells)
    ensures HoldsAll(s, t.cells)
  {
    forall v | Live(s, v) ensures Holds(s, v, t.cells) {
      SameInPrefix(s, m, v);
      assert Holds(s, v, m.cells) && Holds(m, v, t.cells);
    }
  }

  /** A snapshot fits in any waiting hunk. */
  lemma SnapshotDropsNothing(s: S)
    ensures !Drops(s, SNAPSHOT_SIZE, POINTER_ALIGN)
  {}

  /** The out-of-hunk objects from `i` on have been freed, and nothing else. */
  ghost predicate Freed(s: S, r: map<nat, nat>, c: map<nat, Cell>, i: nat) {
    r == s.regions - Addresses(s.outs, i) && SameOutsideOuts(s, c, i)
  }

  lemma NothingFreed(s: S)
    requires Levels(s) && Current(s)
    ensures Freed(s, s.regions, s.cells, |s.outs|)
    ensures s.saved != [] ==> OutStart(s, |s.saved|) == s.saved[|s.saved| - 1].outs
  {
    assert Addresses(s.outs, |s.outs|) == {};
  }

  /** The link to the newest of outs[from..i]. */
  function ListHead(s: S, from: nat, i: nat): Option<nat> {
    if from < i <= |s.outs| then Some(s.outs[i - 1].proxy) else None
  }

  /** A proxy is readable before and after its object is freed. */
  lemma ProxyReadable(s: S, c: map<nat, Cell>, i: nat)
    requires Inv(s) && 0 < i <= |s.outs| && SameOutsideOuts(s, c, i)
    ensures var o := s.outs[i - 1];
      && Get(c, o.proxy) == Some(Proxy(o.next, o.addr))
      && Get(Erase(c, o.addr, o.size), o.proxy) == Some(Proxy(o.next, o.addr))
  {
    var o := s.outs[i - 1];
    assert OutOk(s, i - 1);
    FreeHolds(s, c, i);
    assert Holds(s, InHunk(o.block), c);
    BlockApartFromOut(s, o.block, i - 1);
  }

  /** One step of a list walk: the object is allocated, and it is freed alone. */
  lemma FreeOne(s: S, r: map<nat, nat>, c: map<nat, Cell>, from: nat, to: nat, i: nat, list: Option<nat>)
    requires Inv(s) && UnhunkList(s, list, from, to) && from < i <= to && Freed(s, r, c, i)
    ensures var o := s.outs[i - 1];
      && o.addr in r && Get(c, o.proxy) == Some(Proxy(o.next, o.addr))
      && Get(Erase(c, o.addr, r[o.addr]), o.proxy) == Some(Proxy(o.next, o.addr))
      && Freed(s, r - {o.addr}, Erase(c, o.addr, r[o.addr]), i - 1)
      && o.next == ListHead(s, from, i - 1)
  {
    var o := s.outs[i - 1];
    ProxyReadable(s, c, i);
    assert OutOk(s, i - 1) && Linked(s, i - 1, from);
    OneLess(s, i);
    forall x: nat | x in s.cells && ClearOfOuts(s, x, CellSize(s.cells[x]), i - 1)
      ensures Get(Erase(c, o.addr, o.size), x) == Some(s.cells[x])
    {
      assert ClearOfOuts(s, x, CellSize(s.cells[x]), i);
    }
  }

  lemma OneLess(s: S, i: nat)
    requires Outs(s) && 0 < i <= |s.outs|
    ensures s.outs[i - 1].addr !in Addresses(s.outs, i)
    ensures Addresses(s.outs, i - 1) == Addresses(s.outs, i) + {s.outs[i - 1].addr}
  {
    forall j: nat | i <= j < |s.outs| ensures s.outs[j].addr != s.outs[i - 1].addr { assert OutsApart(s, i - 1, j); }
  }

  /** The snapshot below frame `k` is readable while outs from `from` on are freed, and its list comes next. */
  lemma SnapshotReadable(s: S, r: map<nat, nat>, c: map<nat, Cell>, k: nat, from: nat)
    requires Inv(s) && Freed(s, r, c, from) && 0 < k <= |s.saved|
    ensures var b := FrameOf(s, k).below; b.Some? && Get(c, b.value) == Some(Snapshot(FrameOf(s, k - 1)))
    ensures UnhunkList(s, FrameOf(s, k - 1).unhunks, OutStart(s, k - 1), OutStart(s, k))
  {
    assert LevelOk(s, k - 1);
    FreeHolds(s, c, from);
    assert Holds(s, InHunk(s.saved[k - 1].blocks), c);
    assert Above(s, k - 1) == FrameOf(s, k);
  }

  lemma PopStep(s: S, r: map<nat, nat>, c: map<nat, Cell>)
    requires Inv(s) && s.saved != [] && Freed(s, r, c, s.saved[|s.saved| - 1].outs)
    ensures var t := PopFrame(s, c);
      && Inv(t) && Popped(s, t) && t.regions == r
      && s.top.below.Some? && Get(c, s.top.below.value) == Some(Snapshot(t.top))
  {
    SnapshotReadable(s, r, c, |s.saved|, s.saved[|s.saved| - 1].outs);
    PopKeepsInv(s, c);
  }

  /** A stack with a saved frame has a hunk, since the snapshot is in one. */
  lemma SavedMeansHunk(s: S)
    requires Inv(s) && s.saved != []
    ensures s.chain != []
  {
    assert LevelOk(s, 0);
    assert BlockOk(s, s.saved[0].blocks);
  }

  /** Back at the bottom with a hunk waiting, an object of that hunk's size drops it. */
  lemma FullSizeDrops(s: S)
    requires s.depth == 0 && s.chain != [] && s.top.bumper == 0 && s.top.end == 0
    ensures Drops(s, HUNK_STEP, POINTER_ALIGN)
  {}

  /** Push and Pop on a new stack leave its first hunk waiting. */
  method HunkWaiting() returns (stack: Stack)
    ensures fresh(stack) && stack.Valid() && Drops(stack.state, HUNK_STEP, POINTER_ALIGN)
  {
    stack := new Stack();
    stack.Push();
    SavedMeansHunk(stack.state);
    stack.Pop();
    FullSizeDrops(stack.state);
  }

  /** A hunk that no one frees: a waiting one that an object of its whole size makes the allocator replace. */
  method LosesAHunk() returns (stack: Stack)
    ensures stack.regions.Keys != {}
  {
    stack := HunkWaiting();
    assert IsPow2(POINTER_ALIGN) by { assert POINTER_ALIGN == Pow2(3); }
    WaitingIsNew(stack.state);
    var obj := stack.Allocate(HUNK_STEP, POINTER_ALIGN);
    stack.Destruct();
  }
}
