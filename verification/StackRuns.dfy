/** What the operations of the memory stack do, and what holds over whole runs of them. */
module StackRuns {
  import opened Common
  import opened Bits
  import opened StackState
  import opened StackSteps

  // ------------------------------------------------------------------- what the operations do

  /** `t` is `s` moved to another hunk: nothing allocated, nothing lost. */
  ghost predicate Moved(s: S, t: S) {
    && t.blocks == s.blocks && t.outs == s.outs && t.saved == s.saved
    && t.top.unhunks == s.top.unhunks && t.top.below == s.top.below
    && s.regions.Keys <= t.regions.Keys
    && HoldsAll(s, t.cells)
    && FrameAt(t, Here(s), OutStart(s, |s.saved|))
  }

  /** One more block, whose address is `obj`. */
  ghost predicate NewBlock(s: S, t: S, obj: nat, size: nat, kind: Kind) {
    && |t.blocks| == |s.blocks| + 1 && t.blocks[..|s.blocks|] == s.blocks
    && var b := t.blocks[|s.blocks|];
       b == Block(b.hunk, obj, size, kind)
  }

  /** The object is in a hunk and aligned. */
  ghost predicate InBand(s: S, t: S, obj: nat, size: nat, align: nat) {
    && t.outs == s.outs && NewBlock(s, t, obj, size, Object)
    && align > 0 && obj % align == 0
    && t.top.unhunks == s.top.unhunks
  }

  /** The object is a malloc'ed region of its own with a proxy in the current hunk. */
  ghost predicate OutOfBand(s: S, t: S, obj: nat, size: nat) {
    && |t.outs| == |s.outs| + 1 && t.outs[..|s.outs|] == s.outs
    && var o := t.outs[|s.outs|];
       && o == Out(obj, size, o.proxy, |s.blocks|, s.top.unhunks)
       && NewBlock(s, t, o.proxy, PROXY_SIZE, ForProxy)
       && obj !in s.regions
  }

  /** An object of `size` bytes was allocated at `obj`; every other allocation keeps its place and its contents. */
  ghost predicate Allocated(s: S, t: S, obj: nat, size: nat, align: nat) {
    && t.saved == s.saved && t.top.below == s.top.below
    && HoldsAll(s, t.cells)
    && FrameAt(t, Here(s), OutStart(s, |s.saved|))
    && (InBand(s, t, obj, size, align) || OutOfBand(s, t, obj, size))
  }

  /** The hunks waiting above the current one. */
  function Waiting(s: S): set<nat> { if s.depth <= |s.chain| then set a | a in s.chain[s.depth..] else {} }

  /**
    An allocation overwrites the link to the waiting hunks: the object fits neither in the little
    space left nor in the next waiting hunk, and it is not allocated out of band at once.
   */
  predicate Drops(s: S, size: nat, align: nat)
    requires align > 0
  {
    && AlignUp(s.top.bumper, align) + size > s.top.end
    && s.top.end - s.top.bumper < ROOMY
    && s.depth < |s.chain|
    && AlignUp(s.chain[s.depth] + HUNK_HEADER, align) + size > s.chain[s.depth] + (s.depth + 1) * HUNK_STEP
    && ((s.depth + 1) * HUNK_STEP < HUNK_HEADER + MAX_ALIGN + size ==>
          AlignUp(s.top.bumper, POINTER_ALIGN) + PROXY_SIZE > s.top.end)
  }

  /** What an allocation does to the hunks no chain leads to any more. */
  ghost predicate Dropped(s: S, t: S, size: nat, align: nat) {
    align > 0 && t.leaked == if Drops(s, size, align) then s.leaked + Waiting(s) else s.leaked
  }

  lemma WaitingIsNew(s: S)
    requires Inv(s) && s.depth < |s.chain|
    ensures s.chain[s.depth] in Waiting(s) && s.chain[s.depth] !in s.leaked
  {
    assert s.chain[s.depth] == s.chain[s.depth..][0];
  }

  /** So an allocation loses a hunk exactly if it drops the waiting ones. */
  lemma DroppedExactly(s: S, t: S, size: nat, align: nat)
    requires Inv(s) && Dropped(s, t, size, align)
    ensures t.leaked != s.leaked <==> Drops(s, size, align)
  {
    if Drops(s, size, align) { WaitingIsNew(s); }
  }

  /** A frame was saved. */
  ghost predicate Pushed(s: S, t: S) {
    && t.saved == s.saved + [Here(s)] && t.outs == s.outs && t.leaked == s.leaked
    && |t.blocks| == |s.blocks| + 1 && t.blocks[..|s.blocks|] == s.blocks && t.blocks[|s.blocks|].kind == ForSnapshot
    && HoldsAll(s, t.cells)
  }

  /** The newest saved frame is current again, and exactly the objects of the frame above it were freed. */
  ghost predicate Popped(s: S, t: S) {
    && s.saved != [] && t == PopFrame(s, t.cells)
    && SameOutsideOuts(s, t.cells, s.saved[|s.saved| - 1].outs)
  }

  /** The owner of `w` wrote into it. */
  ghost predicate Wrote(s: S, t: S, w: Where) {
    && Live(s, w) && (w.InHunk? ==> s.blocks[w.i].kind == Object)
    && t == s.(cells := t.cells) && SameOutside(s.cells, t.cells, AddrOf(s, w), SizeOf(s, w))
  }

  lemma WheresApart(s: S, v: Where, w: Where)
    requires Inv(s) && Live(s, v) && Live(s, w) && v != w
    ensures Apart(AddrOf(s, v), SizeOf(s, v), AddrOf(s, w), SizeOf(s, w))
  {
    AllDisjoint(s);
  }

  lemma WroteKeepsInv(s: S, t: S, w: Where)
    requires Inv(s) && Wrote(s, t, w)
    ensures Inv(t)
    ensures forall v :: Live(s, v) && v != w ==> Holds(s, v, t.cells)
  {
    var a, n := AddrOf(s, w), SizeOf(s, w);
    forall v | Live(s, v) && v != w ensures Holds(s, v, t.cells) {
      WheresApart(s, v, w);
      WriteElsewhere(s, v, t.cells, a, n);
    }
    forall i: nat | i < |s.blocks| && s.blocks[i].kind != Object
      ensures Apart(s.blocks[i].addr, s.blocks[i].size, a, n)
    {
      WheresApart(s, InHunk(i), w);
    }
    forall i: nat | i < |s.chain| ensures Apart(s.chain[i], HUNK_HEADER, a, n) {
      match w {
        case InHunk(j) => BlockApartFromHeader(s, j, i);
        case OutOfHunk(j) => HeaderApartFromOut(s, i, j);
      }
    }
    WriteKeepsInv(s, t.cells, a, n);
  }

  // ------------------------------------------------------------------- whole runs

  datatype Event = AllocateEvent(obj: nat, size: nat, align: nat) | PushEvent | PopEvent | WriteEvent(w: Where)

  ghost predicate Step(s: S, e: Event, t: S) {
    && Inv(s) && Inv(t)
    && match e
       case AllocateEvent(obj, size, align) => Allocated(s, t, obj, size, align) && Dropped(s, t, size, align)
       case PushEvent => Pushed(s, t)
       case PopEvent => Popped(s, t)
       case WriteEvent(w) => Wrote(s, t, w)
  }

  ghost predicate Run(ss: seq<S>, es: seq<Event>) {
    |ss| == |es| + 1 && forall i :: 0 <= i < |es| ==> Step(ss[i], es[i], ss[i + 1])
  }

  /** `x` stands above the frame saved at `s`: everything of `s` is still in its place. */
  ghost predicate StandsOn(s: S, x: S) {
    && |s.saved| < |x.saved| && x.saved[..|s.saved| + 1] == s.saved + [Here(s)]
    && |s.blocks| <= |x.blocks| && x.blocks[..|s.blocks|] == s.blocks
    && |s.outs| <= |x.outs| && x.outs[..|s.outs|] == s.outs
  }

  lemma PrefixOf<T>(a: seq<T>, b: seq<T>, p: seq<T>)
    requires |p| <= |a| <= |b| && a[..|p|] == p && b[..|a|] == a
    ensures b[..|p|] == p
  {
    assert b[..|p|] == b[..|a|][..|p|];
  }

  lemma StepStands(s: S, x: S, e: Event, y: S)
    requires Step(x, e, y) && StandsOn(s, x) && |s.saved| < |y.saved|
    ensures StandsOn(s, y)
  {
    match e {
      case AllocateEvent(_, _, _) =>
        PrefixOf(x.blocks, y.blocks, s.blocks);
        PrefixOf(x.outs, y.outs, s.outs);
      case PushEvent =>
        PrefixOf(x.blocks, y.blocks, s.blocks);
        PrefixOf(x.saved, y.saved, s.saved + [Here(s)]);
      case PopEvent => PopStands(s, x, y);
      case WriteEvent(_) =>
    }
  }

  lemma PopStands(s: S, x: S, y: S)
    requires Levels(x) && Popped(x, y) && StandsOn(s, x) && |s.saved| < |y.saved|
    ensures StandsOn(s, y)
  {
    var n := |s.saved|;
    LaterLevel(s, x);
    assert y.blocks[..|s.blocks|] == x.blocks[..|s.blocks|];
    assert y.outs[..|s.outs|] == x.outs[..|s.outs|];
    assert y.saved[..n + 1] == x.saved[..n + 1];
  }

  /** The newest level, if saved after `s`, covers everything of `s`. */
  lemma LaterLevel(s: S, x: S)
    requires Levels(x) && StandsOn(s, x) && |s.saved| < |x.saved| - 1
    ensures var l := x.saved[|x.saved| - 1]; |s.blocks| <= l.blocks <= |x.blocks| && |s.outs| <= l.outs <= |x.outs|
  {
    var n, m := |s.saved|, |x.saved| - 1;
    assert Nested(x, n, m) && x.saved[n] == x.saved[..n + 1][n] == Here(s);
    assert LevelOk(x, m);
  }

  lemma {:induction false} RunStands(s: S, ss: seq<S>, es: seq<Event>)
    requires Run(ss, es) && Pushed(s, ss[0])
    requires forall i :: 0 <= i < |ss| ==> |ss[i].saved| > |s.saved|
    ensures StandsOn(s, ss[|es|])
    decreases |es|
  {
    if es != [] {
      var n := |es| - 1;
      RunStands(s, ss[..n + 1], es[..n]);
      StepStands(s, ss[n], es[n], ss[n + 1]);
    }
  }

  lemma SameAllocation(s: S, x: S, w: Where)
    requires StandsOn(s, x) && Live(s, w)
    ensures Live(x, w) && AddrOf(x, w) == AddrOf(s, w) && SizeOf(x, w) == SizeOf(s, w)
  {
    match w {
      case InHunk(i) => assert x.blocks[i] == x.blocks[..|s.blocks|][i];
      case OutOfHunk(i) => assert x.outs[i] == x.outs[..|s.outs|][i];
    }
  }

  lemma HoldsOn(s: S, x: S, w: Where, c: map<nat, Cell>)
    requires StandsOn(s, x) && Live(s, w) && Holds(s, w, x.cells) && Holds(x, w, c)
    ensures Holds(s, w, c)
  {
    SameAllocation(s, x, w);
  }

  lemma StepHolds(s: S, x: S, e: Event, y: S, w: Where)
    requires Step(x, e, y) && StandsOn(s, x) && |s.saved| < |y.saved|
    requires Live(s, w) && Holds(s, w, x.cells) && e != WriteEvent(w)
    ensures Holds(s, w, y.cells)
  {
    SameAllocation(s, x, w);
    match e {
      case AllocateEvent(_, _, _) =>
      case PushEvent =>
      case PopEvent =>
        LaterLevel(s, x);
        PopHolds(x, y, w);
      case WriteEvent(v) => WroteKeepsInv(x, y, v);
    }
    HoldsOn(s, x, w, y.cells);
  }

  lemma PopHolds(x: S, y: S, w: Where)
    requires Inv(x) && Popped(x, y) && Live(x, w) && (w.OutOfHunk? ==> w.i < x.saved[|x.saved| - 1].outs)
    ensures Holds(x, w, y.cells)
  {
    FreeHolds(x, y.cells, x.saved[|x.saved| - 1].outs);
  }

  lemma {:induction false} RunHolds(s: S, ss: seq<S>, es: seq<Event>, w: Where)
    requires Run(ss, es) && Pushed(s, ss[0]) && Live(s, w) && WriteEvent(w) !in es
    requires forall i :: 0 <= i < |ss| ==> |ss[i].saved| > |s.saved|
    ensures Holds(s, w, ss[|es|].cells)
    decreases |es|
  {
    if es == [] {
      assert Holds(s, w, ss[0].cells);
    } else {
      var n := |es| - 1;
      RunHolds(s, ss[..n + 1], es[..n], w);
      RunStands(s, ss[..n + 1], es[..n]);
      StepHolds(s, ss[n], es[n], ss[n + 1], w);
    }
  }

  /** The Pop that comes back to the frame saved at `s`. */
  lemma PopReturns(s: S, x: S, u: S)
    requires Inv(x) && StandsOn(s, x) && |x.saved| == |s.saved| + 1 && Popped(x, u)
    ensures u.top == s.top && u.depth == s.depth && u.saved == s.saved
    ensures u.blocks == s.blocks && u.outs == s.outs
    ensures forall w :: Live(s, w) && Holds(s, w, x.cells) ==> Holds(s, w, u.cells)
  {
    var n := |s.saved|;
    assert x.saved == x.saved[..n + 1];
    assert LevelOk(x, n);
    forall w | Live(s, w) && Holds(s, w, x.cells) ensures Holds(s, w, u.cells) {
      SameAllocation(s, x, w);
      PopHolds(x, u, w);
      HoldsOn(s, x, w, u.cells);
    }
  }

  /**
    Whatever is allocated, pushed, popped and written in between, a Pop undoes its matching Push:
    the allocator is back in the state it was in, and every allocation made before the Push that its
    owner did not write to holds exactly what it held.
   */
  lemma PopUndoesPush(s: S, ss: seq<S>, es: seq<Event>, u: S)
    requires Inv(s) && Run(ss, es) && Pushed(s, ss[0])
    requires forall i :: 0 <= i < |ss| ==> |ss[i].saved| > |s.saved|
    requires |ss[|es|].saved| == |s.saved| + 1 && Step(ss[|es|], PopEvent, u)
    ensures u.top == s.top && u.depth == s.depth && u.saved == s.saved
    ensures u.blocks == s.blocks && u.outs == s.outs
    ensures forall w :: Live(s, w) && WriteEvent(w) !in es ==> Holds(s, w, u.cells)
  {
    RunStands(s, ss, es);
    PopReturns(s, ss[|es|], u);
    forall w | Live(s, w) && WriteEvent(w) !in es ensures Holds(s, w, u.cells) { RunHolds(s, ss, es, w); }
  }

  /** Event `e` in state `s` is an allocation that drops waiting hunks. */
  predicate DropsAt(s: S, e: Event) { e.AllocateEvent? && e.align > 0 && Drops(s, e.size, e.align) }

  lemma StepLoses(s: S, e: Event, t: S)
    requires Step(s, e, t)
    ensures s.leaked <= t.leaked && (t.leaked != s.leaked <==> DropsAt(s, e))
  {
    if e.AllocateEvent? { DroppedExactly(s, t, e.size, e.align); }
  }

  /** Sets that only grow end up different exactly if one step grew them. */
  lemma {:induction false} GrowingSets(sets: seq<set<nat>>, grows: seq<bool>)
    requires |sets| == |grows| + 1
    requires forall i :: 0 <= i < |grows| ==> sets[i] <= sets[i + 1] && (sets[i + 1] != sets[i] <==> grows[i])
    ensures sets[0] <= sets[|grows|] && (sets[|grows|] != sets[0] <==> exists i :: 0 <= i < |grows| && grows[i])
    decreases |grows|
  {
    if grows != [] {
      var n := |grows| - 1;
      GrowingSets(sets[..n + 1], grows[..n]);
      assert forall i :: 0 <= i < n ==> grows[..n][i] == grows[i];
    }
  }

  /** Over a whole run, hunks are lost exactly if some allocation in it drops waiting hunks. */
  lemma RunLoses(ss: seq<S>, es: seq<Event>)
    requires Run(ss, es)
    ensures ss[0].leaked <= ss[|es|].leaked
    ensures ss[|es|].leaked != ss[0].leaked <==> exists i :: 0 <= i < |es| && DropsAt(ss[i], es[i])
  {
    var sets := seq(|ss|, i requires 0 <= i < |ss| => ss[i].leaked);
    var grows := seq(|es|, i requires 0 <= i < |es| && |ss| == |es| + 1 => DropsAt(ss[i], es[i]));
    forall i | 0 <= i < |es|
      ensures sets[i] <= sets[i + 1] && (sets[i + 1] != sets[i] <==> grows[i])
    {
      StepLoses(ss[i], es[i], ss[i + 1]);
    }
    GrowingSets(sets, grows);
    assert forall i :: 0 <= i < |es| ==> grows[i] == DropsAt(ss[i], es[i]);
  }

  // ------------------------------------------------------------------- composed steps

  lemma ErasedOutside(c: map<nat, Cell>, a: nat, n: nat)
    ensures SameOutside(c, Erase(c, a, n), a, n)
  {}

  lemma StoredOutside(c: map<nat, Cell>, a: nat, cell: Cell)
    ensures SameOutside(c, Store(c, a, cell), a, CellSize(cell))
  {}

  lemma HoldsAllTrans(s: S, c: map<nat, Cell>, c': map<nat, Cell>)
    requires HoldsAll(s, c) && HoldsAll(s.(cells := c), c')
    ensures HoldsAll(s, c')
  {
    forall w | Live(s, w) ensures Holds(s, w, c') { assert Holds(s, w, c) && Holds(s.(cells := c), w, c'); }
  }

  lemma ClearIsHarmless(s: S, a: nat, n: nat)
    requires Clear(s, a, n)
    ensures Harmless(s, a, n)
  {}

  lemma ClearWrite(s: S, c: map<nat, Cell>, a: nat, n: nat)
    requires Inv(s) && Clear(s, a, n) && SameOutside(s.cells, c, a, n)
    ensures Inv(s.(cells := c)) && HoldsAll(s, c)
  {
    ClearIsHarmless(s, a, n);
    WriteKeepsInv(s, c, a, n);
    ClearWriteHolds(s, c, a, n);
  }

  /** A malloc'ed hunk with its header written, linked in and made current. */
  function NewHunk(s: S, p: nat, n: nat): S
    requires s.depth <= |s.chain|
  {
    Enter(Grow(s.(cells := Store(Erase(s.cells, p, n), p, Header(None, n))), p, n))
  }

  lemma NewHunkMoves(s: S, p: nat, n: nat)
    requires Inv(s) && Unmapped(s.regions, p, n) && n == (s.depth + 1) * HUNK_STEP
    ensures Inv(NewHunk(s, p, n)) && Moved(s, NewHunk(s, p, n))
  {
    var c := Store(Erase(s.cells, p, n), p, Header(None, n));
    var m := s.(cells := c);
    HeaderWritten(s, p, n);
    GrowKeepsInv(m, p, n);
    var g := Grow(m, p, n);
    HoldsAllTrans(s, c, g.cells);
    EnterKeepsInv(g);
    EnterCarries(g);
    CarryFrame(g, Enter(g), Here(s), OutStart(s, |s.saved|));
  }

  lemma HeaderWritten(s: S, p: nat, n: nat)
    requires Inv(s) && Unmapped(s.regions, p, n) && n >= HUNK_HEADER
    ensures var c := Store(Erase(s.cells, p, n), p, Header(None, n)); Inv(s.(cells := c)) && HoldsAll(s, c)
  {
    FreshIsClear(s, p, n);
    ClearWrite(s, Store(Erase(s.cells, p, n), p, Header(None, n)), p, n);
  }

  /** The state after an out-of-band allocation with its proxy at `a`. */
  function Unhunked(s: S, a: nat, obj: nat, n: nat): S
    requires s.depth > 0
  {
    AddOut(Bump(s.(cells := Store(Erase(s.cells, obj, n), a, Proxy(s.top.unhunks, obj))), a, PROXY_SIZE), obj, n)
  }

  lemma ProxyWritten(s: S, a: nat, obj: nat, n: nat)
    requires Inv(s) && s.depth > 0 && s.top.bumper <= a && a + PROXY_SIZE <= s.top.end && Unmapped(s.regions, obj, n)
    ensures var c := Store(Erase(s.cells, obj, n), a, Proxy(s.top.unhunks, obj)); Inv(s.(cells := c)) && HoldsAll(s, c)
  {
    var c1 := Erase(s.cells, obj, n);
    var m := s.(cells := c1);
    FreshIsClear(s, obj, n);
    ErasedOutside(s.cells, obj, n);
    ClearWrite(s, c1, obj, n);
    FreeSpaceIsClear(m, a, PROXY_SIZE);
    StoredOutside(c1, a, Proxy(s.top.unhunks, obj));
    ClearWrite(m, Store(c1, a, Proxy(s.top.unhunks, obj)), a, PROXY_SIZE);
    HoldsAllTrans(s, c1, Store(c1, a, Proxy(s.top.unhunks, obj)));
  }

  lemma UnhunkedAllocates(s: S, a: nat, obj: nat, n: nat, align: nat)
    requires Inv(s) && s.depth > 0 && s.top.bumper <= a && a + PROXY_SIZE <= s.top.end && Unmapped(s.regions, obj, n)
    ensures Inv(Unhunked(s, a, obj, n)) && Allocated(s, Unhunked(s, a, obj, n), obj, n, align)
    ensures OutOfBand(s, Unhunked(s, a, obj, n), obj, n)
  {
    var m := s.(cells := Store(Erase(s.cells, obj, n), a, Proxy(s.top.unhunks, obj)));
    ProxyWritten(s, a, obj, n);
    BumpKeepsInv(m, a, PROXY_SIZE);
    var m3 := Bump(m, a, PROXY_SIZE);
    AddOutKeepsInv(m3, obj, n);
    CarryFrame(m3, AddOut(m3, obj, n), Here(s), OutStart(s, |s.saved|));
  }

  /** Bumping after a move is an in-band allocation. */
  lemma BumpAllocates(s: S, m: S, a: nat, n: nat, align: nat)
    requires Inv(m) && (m == s || Moved(s, m)) && m.depth > 0 && m.top.bumper <= a && a + n <= m.top.end
    requires align > 0 && a % align == 0
    ensures Inv(Bump(m, a, n)) && Allocated(s, Bump(m, a, n), a, n, align) && InBand(s, Bump(m, a, n), a, n, align)
  {
    var t := Bump(m, a, n);
    BumpKeepsInv(m, a, n);
    if m != s {
      assert Carries(m, t);
      CarryFrame(m, t, Here(s), OutStart(s, |s.saved|));
    }
  }

  lemma MovedThenUnhunked(s: S, m: S, a: nat, obj: nat, n: nat, align: nat)
    requires Inv(m) && Moved(s, m)
    requires m.depth > 0 && m.top.bumper <= a && a + PROXY_SIZE <= m.top.end && Unmapped(m.regions, obj, n)
    ensures var t := Unhunked(m, a, obj, n); Inv(t) && Allocated(s, t, obj, n, align) && OutOfBand(s, t, obj, n)
  {
    var t := Unhunked(m, a, obj, n);
    UnhunkedAllocates(m, a, obj, n, align);
    forall w | Live(s, w) ensures Holds(s, w, t.cells) {
      assert Live(m, w) && Holds(s, w, m.cells) && Holds(m, w, t.cells);
    }
    UnhunkedAgrees(m, a, obj, n);
    FrameKept(m, t, Here(s), OutStart(s, |s.saved|));
  }

  lemma UnhunkedAgrees(m: S, a: nat, obj: nat, n: nat)
    requires Hunks(m) && Outs(m) && m.depth > 0 && Unmapped(m.regions, obj, n)
    ensures Agree(m, Unhunked(m, a, obj, n), Here(m))
  {
    var t := Unhunked(m, a, obj, n);
    forall i: nat | i < m.depth ensures SameHunk(m, t, i) { assert HunkOk(m, i); }
    forall i: nat | i < |m.outs| ensures SameOut(m, t, i) { assert OutOk(m, i); }
  }
}
