/**
  The task sorter of `net/include/comm.h`: a singly linked list of tasks, roughly descending
  by size, indexed by one pointer-to-link per size bin.
 */
module TaskSorter {
  import opened Common
  import opened Bits
  import opened FloatCode

  const UNIT_LOG2 := 10
  const MAX_LOG2 := 30
  const BITS_PER_POW2 := 2
  const UNIT := 0x400            // 1 << UNIT_LOG2 bytes
  const MAX_SIZE := 0x4000_0000  // 1 << MAX_LOG2 bytes
  const BIN_COUNT := 81  // 1 + (MAX_LOG2 - UNIT_LOG2) * 4

  /** Size in 1 KiB units, capped at 1 GiB. */
  function Units(size: nat): nat {
    ShiftRight(if size < Pow2(MAX_LOG2) then size else Pow2(MAX_LOG2), UNIT_LOG2)
  }

  function Bin(size: nat): int { BIN_COUNT - 1 - Encode(Units(size), BITS_PER_POW2) }

  lemma UnitsBound(size: nat)
    ensures Units(size) <= Pow2(MAX_LOG2 - UNIT_LOG2)
  {
    ShiftRightMono(if size < Pow2(MAX_LOG2) then size else Pow2(MAX_LOG2), Pow2(MAX_LOG2), UNIT_LOG2);
    Pow2ShiftRight(MAX_LOG2 - UNIT_LOG2, UNIT_LOG2);
  }

  lemma Pow2ShiftRight(a: nat, b: nat)
    ensures ShiftRight(Pow2(a + b), b) == Pow2(a)
  {
    Pow2Add(a, b);
    ShiftLeftIsMul(Pow2(a), b);
    ShiftRightLeft(Pow2(a), b);
  }

  /** Every computed bin lies inside the array. */
  lemma BinInRange(size: nat)
    ensures 0 <= Bin(size) < BIN_COUNT
  {
    UnitsBound(size);
    Pow2Mono(20, 21);
    EncodeBelow(Units(size), 2, 21);
    assert ShiftLeft(20, 1) == 40 && ShiftLeft(20, 2) == 80;
  }

  // -------------------------------------------------------------- specification

  class Task {
    var next: Task?
    constructor ()
      ensures next == null
    { next := null; }
  }

  /** A task, the size it was inserted with and the bin that size falls into. */
  datatype Item = Item(task: Task, size: nat, bin: int)

  ghost predicate Labelled(items: seq<Item>, i: int) {
    0 <= i < |items| ==> items[i].bin == Bin(items[i].size)
  }

  ghost predicate Binned(items: seq<Item>) { forall i :: Labelled(items, i) }

  ghost predicate BinSorted(items: seq<Item>) {
    forall i, j :: 0 <= i < j < |items| ==> items[i].bin <= items[j].bin
  }

  /** The number of leading items in bins before `b`. */
  ghost function Before(items: seq<Item>, b: int): (p: nat)
    ensures p <= |items|
    ensures forall i :: 0 <= i < p ==> items[i].bin < b
    ensures p < |items| ==> items[p].bin >= b
  {
    if items == [] || items[0].bin >= b then 0 else 1 + Before(items[1..], b)
  }

  /** `x` becomes the first item of its bin. */
  ghost function Placed(items: seq<Item>, x: Item): seq<Item> {
    var p := Before(items, x.bin);
    items[..p] + [x] + items[p..]
  }

  /** The list after inserting `xs` one by one into an empty sorter. */
  ghost function InsertAll(xs: seq<Item>): seq<Item> {
    if xs == [] then [] else Placed(InsertAll(xs[..|xs| - 1]), xs[|xs| - 1])
  }

  ghost function InBin(items: seq<Item>, b: int): seq<Item> {
    if items == [] then []
    else (if items[0].bin == b then [items[0]] else []) + InBin(items[1..], b)
  }

  lemma PlacedKeepsSorted(items: seq<Item>, x: Item)
    requires BinSorted(items)
    ensures BinSorted(Placed(items, x))
  {
    var p := Before(items, x.bin);
    var r := Placed(items, x);
    forall i, j | 0 <= i < j < |r| ensures r[i].bin <= r[j].bin {
      var i', j' := if i < p then i else i - 1, if j < p then j else j - 1;
      if i == p {
        assert r[j] == items[j'] && (p < j' ==> items[p].bin <= items[j'].bin);
      } else if j == p {
        assert r[i] == items[i'];
      } else {
        assert r[i] == items[i'] && r[j] == items[j'] && items[i'].bin <= items[j'].bin;
      }
    }
  }

  lemma PlacedKeepsItems(items: seq<Item>, x: Item)
    ensures multiset(Placed(items, x)) == multiset(items) + multiset{x}
  {
    var p := Before(items, x.bin);
    assert items == items[..p] + items[p..];
  }

  /** Any sequence of inserts yields a permutation of the inserted tasks, ordered by bin. */
  lemma {:induction false} InsertAllSorts(xs: seq<Item>)
    ensures BinSorted(InsertAll(xs))
    ensures multiset(InsertAll(xs)) == multiset(xs)
  {
    if xs != [] {
      var front, last := xs[..|xs| - 1], xs[|xs| - 1];
      InsertAllSorts(front);
      PlacedKeepsSorted(InsertAll(front), last);
      PlacedKeepsItems(InsertAll(front), last);
      assert xs == front + [last];
    }
  }

  lemma {:induction false} InBinConcat(a: seq<Item>, c: seq<Item>, b: int)
    ensures InBin(a + c, b) == InBin(a, b) + InBin(c, b)
  {
    if a == [] {
      assert a + c == c;
    } else {
      InBinConcat(a[1..], c, b);
      assert (a + c)[0] == a[0] && (a + c)[1..] == a[1..] + c;
      var first := if a[0].bin == b then [a[0]] else [];
      assert first + (InBin(a[1..], b) + InBin(c, b)) == first + InBin(a[1..], b) + InBin(c, b);
    }
  }

  lemma {:induction false} InBinEmpty(a: seq<Item>, b: int)
    requires forall i :: 0 <= i < |a| ==> a[i].bin != b
    ensures InBin(a, b) == []
  {
    if a != [] { InBinEmpty(a[1..], b); }
  }

  /** Placing a task puts it in front of its own bin and leaves the other bins alone. */
  lemma PlacedInBin(items: seq<Item>, x: Item, b: int)
    ensures InBin(Placed(items, x), b) == (if x.bin == b then [x] else []) + InBin(items, b)
  {
    var p := Before(items, x.bin);
    var front, back := items[..p], items[p..];
    assert items == front + back;
    InBinConcat(front, back, b);
    InBinConcat(front + [x], back, b);
    InBinConcat(front, [x], b);
    if x.bin == b { InBinEmpty(front, b); }
  }

  /** The step: a list that has the tasks of `front` in reverse in bin `b`, after one more insert. */
  lemma PlacedReversed(items: seq<Item>, front: seq<Item>, last: Item, b: int)
    requires InBin(items, b) == Reverse(InBin(front, b))
    ensures InBin(Placed(items, last), b) == Reverse(InBin(front + [last], b))
  {
    PlacedInBin(items, last, b);
    ReverseInBin(front, last, b);
  }

  /** Within a bin the most recently inserted task comes first. */
  lemma {:induction false} BinIsLastInFirstOut(xs: seq<Item>, b: int)
    ensures InBin(InsertAll(xs), b) == Reverse(InBin(xs, b))
  {
    if xs != [] {
      var front, last := xs[..|xs| - 1], xs[|xs| - 1];
      BinIsLastInFirstOut(front, b);
      PlacedReversed(InsertAll(front), front, last, b);
      assert xs == front + [last];
    }
  }

  /** Everything about the order in which a sorter holds what was inserted. */
  lemma InsertAllOrders(xs: seq<Item>)
    ensures BinSorted(InsertAll(xs)) && multiset(InsertAll(xs)) == multiset(xs)
    ensures forall b :: InBin(InsertAll(xs), b) == Reverse(InBin(xs, b))
  {
    InsertAllSorts(xs);
    forall b ensures InBin(InsertAll(xs), b) == Reverse(InBin(xs, b)) { BinIsLastInFirstOut(xs, b); }
  }

  lemma ReverseInBin(front: seq<Item>, last: Item, b: int)
    ensures Reverse(InBin(front + [last], b)) == (if last.bin == b then [last] else []) + Reverse(InBin(front, b))
  {
    InBinConcat(front, [last], b);
    if last.bin == b {
      assert InBin([last], b) == [last];
      ReverseAppend(InBin(front, b), last);
    } else {
      assert InBin([last], b) == [];
      assert InBin(front, b) + [] == InBin(front, b);
    }
  }

  /**
    How far out of order the list can be: if a task precedes a larger one, the larger is less
    than a quarter larger, in capped size units.
   */
  lemma NearlyDescending(items: seq<Item>, i: nat, j: nat)
    requires Binned(items) && BinSorted(items) && i < j < |items|
    requires Units(items[i].size) < Units(items[j].size)
    ensures 4 * Units(items[j].size) < 5 * Units(items[i].size)
  {
    var u, v := Units(items[i].size), Units(items[j].size);
    assert Encode(u, 2) == Encode(v, 2) by {
      assert Labelled(items, i) && Labelled(items, j);
      EncodeMonotone(u, v, 2);
    }
    assert Pow2(1) == 2 && Pow2(2) == 4;
    SameCodeIsClose(u, v, 2);
  }

  /** A size as far as the order of the list can tell sizes apart. */
  function Capped(size: nat): nat { Min(size, MAX_SIZE) }

  /** The list may have a task of `a` bytes before one of `b` bytes. */
  predicate MayPrecede(a: nat, b: nat) { 4 * Capped(b) < 5 * Capped(a) + 4 * UNIT }

  lemma UnitsOf(size: nat)
    ensures UNIT * Units(size) <= Capped(size) < UNIT * Units(size) + UNIT
  {
    Pow2Sizes();
    ShiftRightBounds(Capped(size), UNIT_LOG2);
    ShiftLeftIsMul(Units(size), UNIT_LOG2);
  }

  lemma Pow2Sizes()
    ensures Pow2(UNIT_LOG2) == UNIT && Pow2(MAX_LOG2) == MAX_SIZE
  {
    assert Pow2(5) == 32;
    Pow2Add(5, 5);
    Pow2Add(10, 10);
    Pow2Add(20, 10);
  }

  /**
    The order of the list in bytes: up to 1 GiB a task precedes another only if that is less than a
    quarter larger, give or take the unit of 1 KiB.
   */
  lemma DescendingInBytes(items: seq<Item>, i: nat, j: nat)
    requires Binned(items) && BinSorted(items) && i < j < |items|
    ensures MayPrecede(items[i].size, items[j].size)
  {
    var a, b := items[i].size, items[j].size;
    UnitsOf(a);
    UnitsOf(b);
    if Units(a) < Units(b) { NearlyDescending(items, i, j); }
  }

  lemma BeforeUnique(items: seq<Item>, b: int, k: nat)
    requires k <= |items| && (forall i :: 0 <= i < k ==> items[i].bin < b) && (k < |items| ==> items[k].bin >= b)
    ensures Before(items, b) == k
  {}

  // --------------------------------------------------------------------- sorter

  /** The address of a link: `&head` or `&task->next`. */
  datatype Link = HeadLink | NextLink(task: Task)

  ghost function Inserted(items: seq<Item>, x: Item, p: nat): (r: seq<Item>)
    requires p <= |items|
    ensures |r| == |items| + 1
    ensures forall i :: 0 <= i < |r| ==> r[i] == if i < p then items[i] else if i == p then x else items[i - 1]
  {
    items[..p] + [x] + items[p..]
  }

  ghost predicate Ascends(start: seq<nat>, a: int, b: int) {
    0 <= a <= b < |start| && start[a] <= start[b]
  }

  /** Bin b occupies the positions from start[b] up to start[b + 1]. */
  ghost predicate Starts(items: seq<Item>, start: seq<nat>) {
    && |start| == BIN_COUNT + 1 && start[0] == 0 && start[BIN_COUNT] == |items|
    && (forall a, b :: 0 <= a <= b <= BIN_COUNT ==> Ascends(start, a, b))
    && (forall i :: 0 <= i < |items| ==> InItsBin(items, start, i))
  }

  ghost predicate InItsBin(items: seq<Item>, start: seq<nat>, i: int)
    requires |start| == BIN_COUNT + 1
  {
    0 <= i < |items| && 0 <= items[i].bin < BIN_COUNT && start[items[i].bin] <= i < start[items[i].bin + 1]
  }

  /** Positions and bins compare the same way. */
  lemma BinAgainstStart(items: seq<Item>, start: seq<nat>, i: nat, b: int)
    requires Starts(items, start) && i < |items| && 0 <= b < BIN_COUNT
    ensures 0 <= items[i].bin < BIN_COUNT
    ensures i < start[b] <==> items[i].bin < b
    ensures start[b] <= i < start[b + 1] <==> items[i].bin == b
  {
    var c := items[i].bin;
    assert InItsBin(items, start, i);
    if c < b { assert Ascends(start, c + 1, b); } else { assert Ascends(start, b, c); }
    if b < c { assert Ascends(start, b + 1, c); }
  }

  lemma StartIsBefore(items: seq<Item>, start: seq<nat>, b: int)
    requires Starts(items, start) && 0 <= b < BIN_COUNT
    ensures start[b] == Before(items, b) <= |items|
  {
    assert Ascends(start, b, BIN_COUNT);
    forall i | 0 <= i < |items| ensures i < start[b] <==> items[i].bin < b {
      BinAgainstStart(items, start, i, b);
    }
    BeforeUnique(items, b, start[b]);
  }

  lemma InsertedIsPlaced(items: seq<Item>, start: seq<nat>, x: Item)
    requires Starts(items, start) && 0 <= x.bin < BIN_COUNT
    ensures start[x.bin] <= |items| && Inserted(items, x, start[x.bin]) == Placed(items, x)
  {
    StartIsBefore(items, start, x.bin);
  }

  lemma DistinctInserted(items: seq<Item>, x: Item, p: nat)
    requires p <= |items|
    requires forall i, j :: 0 <= i < j < |items| ==> items[i].task != items[j].task
    requires forall i :: 0 <= i < |items| ==> items[i].task != x.task
    ensures var r := Inserted(items, x, p); forall i, j :: 0 <= i < j < |r| ==> r[i].task != r[j].task
  {
    var r := Inserted(items, x, p);
    forall i, j | 0 <= i < j < |r| ensures r[i].task != r[j].task {
      var i', j' := if i < p then i else i - 1, if j < p then j else j - 1;
      assert i != p ==> r[i] == items[i'];
      assert j != p ==> r[j] == items[j'];
    }
  }

  lemma BinnedInserted(items: seq<Item>, x: Item, p: nat)
    requires Binned(items) && p <= |items| && x.bin == Bin(x.size)
    ensures Binned(Inserted(items, x, p))
  {
    var r := Inserted(items, x, p);
    forall i ensures Labelled(r, i) {
      assert Labelled(items, i) && Labelled(items, i - 1);
    }
  }

  /** Inserting at the start of a bin shifts the later bins by one. */
  ghost function Shifted(start: seq<nat>, bin: int): (r: seq<nat>)
    ensures |r| == |start|
    ensures forall b :: 0 <= b < |r| ==> r[b] == if b <= bin then start[b] else start[b] + 1
  {
    seq(|start|, b requires 0 <= b < |start| => if b <= bin then start[b] else start[b] + 1)
  }

  lemma StartsInserted(items: seq<Item>, start: seq<nat>, x: Item)
    requires Starts(items, start) && 0 <= x.bin < BIN_COUNT
    ensures start[x.bin] <= |items| && Starts(Inserted(items, x, start[x.bin]), Shifted(start, x.bin))
  {
    assert Ascends(start, x.bin, BIN_COUNT);
    var p := start[x.bin];
    var r, s := Inserted(items, x, p), Shifted(start, x.bin);
    forall a, b | 0 <= a <= b <= BIN_COUNT ensures Ascends(s, a, b) { assert Ascends(start, a, b); }
    forall i | 0 <= i < |r| ensures InItsBin(r, s, i) {
      if i < p {
        assert InItsBin(items, start, i);
        BinAgainstStart(items, start, i, x.bin);
      } else if i > p {
        assert InItsBin(items, start, i - 1);
        BinAgainstStart(items, start, i - 1, x.bin);
      } else {
        assert Ascends(start, x.bin, x.bin + 1);
      }
    }
  }

  /** The node at a position, null past either end. */
  ghost function NodeAt(items: seq<Item>, i: int): Task? {
    if 0 <= i < |items| then items[i].task else null
  }

  /** The link that holds the node at position `i`, or would hold it if the list ended there. */
  ghost function LinkTo(items: seq<Item>, i: nat): Link
    requires i <= |items|
  {
    if i == 0 then HeadLink else NextLink(items[i - 1].task)
  }

  /** A bin's entry is the link to its first node, or null for an empty bin. */
  ghost predicate BinEntry(items: seq<Item>, start: seq<nat>, b: int, entry: Option<Link>) {
    0 <= b < |start| - 1 && start[b] <= |items| &&
    entry == if start[b] < start[b + 1] then Some(LinkTo(items, start[b])) else None
  }

  /** The entry of bin `b` once bin `bin` is open to receive `x` as its first node. */
  ghost function Opened(items: seq<Item>, start: seq<nat>, bin: int, x: Task, b: int, entry: Option<Link>): Option<Link>
    requires 0 <= bin < |start| - 1 && 0 <= b < |start| - 1 && start[bin] <= |items|
  {
    if b == bin then Some(LinkTo(items, start[bin]))
    else if start[bin] == start[bin + 1] == start[b] < start[b + 1] then Some(NextLink(x))
    else entry
  }

  /** After the insertion those are the right entries. */
  lemma OpenedIsEntry(items: seq<Item>, start: seq<nat>, x: Item, b: int, entry: Option<Link>)
    requires Starts(items, start) && 0 <= x.bin < BIN_COUNT && 0 <= b < BIN_COUNT && BinEntry(items, start, b, entry)
    ensures start[x.bin] <= |items|
    ensures BinEntry(Inserted(items, x, start[x.bin]), Shifted(start, x.bin), b,
      Opened(items, start, x.bin, x.task, b, entry))
  {
    assert Ascends(start, x.bin, BIN_COUNT) && Ascends(start, b, BIN_COUNT);
    if b < x.bin { assert Ascends(start, b, x.bin) && Ascends(start, b + 1, x.bin); }
    else if b == x.bin { assert Ascends(start, b, b + 1); }
    else { assert Ascends(start, x.bin + 1, b) && Ascends(start, x.bin, x.bin + 1); }
  }

  class Sorter {
    var head: Task?
    var tail: Task?
    var binEdge: int
    const bins: array<Option<Link>>
    ghost var items: seq<Item>
    ghost var start: seq<nat>
    ghost var history: seq<Item>     // what was inserted since the sorter was empty, in this order

    ghost function Tasks(): set<Task>
      reads this
    {
      set i | 0 <= i < |items| :: items[i].task
    }

    /** The nodes are distinct and linked in order, starting at head. */
    ghost predicate Linked()
      reads this, Tasks()
    {
      && (forall i, j :: 0 <= i < j < |items| ==> items[i].task != items[j].task)
      && head == NodeAt(items, 0)
      && (forall i {:trigger items[i].task.next} :: 0 <= i < |items| ==> items[i].task.next == NodeAt(items, i + 1))
    }

    ghost predicate Chained()
      reads this, Tasks()
    {
      Linked() && tail == NodeAt(items, |items| - 1)
    }

    ghost predicate Indexed()
      reads this, bins
    {
      && bins.Length == BIN_COUNT && Starts(items, start)
      && (forall b :: 0 <= b < BIN_COUNT ==> BinEntry(items, start, b, bins[b]))
      && binEdge == (if items == [] then 0 else items[|items| - 1].bin + 1)
    }

    ghost predicate Valid()
      reads this, bins, Tasks()
    {
      Chained() && Indexed() && Binned(items) && items == InsertAll(history)
    }

    constructor ()
      ensures Valid() && items == [] && history == [] && fresh(bins)
    {
      head, tail, binEdge, items, history := null, null, 0, [], [];
      start := seq(BIN_COUNT + 1, _ => 0);
      bins := new Option<Link>[BIN_COUNT](_ => None);
    }

    /** No node lies in bin `bin` or after exactly when `bin` is at or past the edge. */
    lemma EdgeOf(bin: int)
      requires Indexed() && 0 <= bin < BIN_COUNT
      ensures start[bin] <= start[bin + 1] <= |items|
      ensures start[bin] == |items| <==> binEdge <= bin
    {
      assert Ascends(start, bin, bin + 1) && Ascends(start, bin + 1, BIN_COUNT);
      if items != [] { BinAgainstStart(items, start, |items| - 1, bin); }
    }

    /** The first non-empty bin after the empty bin `bin`; the scan stays inside the array. */
    method Successor(bin: int) returns (succ: int)
      requires Indexed() && 0 <= bin < binEdge && bin < BIN_COUNT && bins[bin].None?
      ensures bin < succ < BIN_COUNT && bins[succ].Some?
      ensures |start| == BIN_COUNT + 1 && start[bin] == start[bin + 1] == start[succ] < start[succ + 1]
    {
      EdgeOf(bin);
      assert BinEntry(items, start, bin, bins[bin]);
      succ := bin + 1;
      while bins[succ].None?
        invariant bin < succ < BIN_COUNT
        invariant start[succ] == start[bin] < |items|
        decreases BIN_COUNT - succ
      {
        assert BinEntry(items, start, succ, bins[succ]);
        assert Ascends(start, succ, succ + 1);
        succ := succ + 1;
      }
      assert BinEntry(items, start, succ, bins[succ]);
    }

    /** The successor is the only bin whose entry has to move. */
    lemma OnlySuccessorMoves(bin: int, succ: int, b: int)
      requires Starts(items, start) && 0 <= bin < succ < BIN_COUNT && 0 <= b < BIN_COUNT
      requires start[bin] == start[bin + 1] == start[succ] < start[succ + 1]
      ensures start[bin] == start[b] < start[b + 1] <==> b == succ
    {
      if b < succ { assert Ascends(start, b + 1, succ); } else if b > succ { assert Ascends(start, succ + 1, b); }
    }

    /** Makes bins[bin] the link in which the new first node of `bin` goes. */
    method OpenBin(x: Task, bin: int)
      requires Chained() && Indexed() && 0 <= bin < BIN_COUNT
      modifies this`binEdge, this`tail, bins
      ensures |start| == BIN_COUNT + 1 && start[bin] <= |items|
      ensures forall b :: 0 <= b < BIN_COUNT ==> bins[b] == Opened(items, start, bin, x, b, old(bins[b]))
      ensures tail == if start[bin] == |items| then x else old(tail)
      ensures binEdge == if start[bin] == |items| then bin + 1 else old(binEdge)
    {
      EdgeOf(bin);
      assert BinEntry(items, start, bin, bins[bin]);
      if bins[bin].None? {
        if binEdge <= bin {
          binEdge := bin + 1;
          bins[bin] := Some(if tail != null then NextLink(tail) else HeadLink);
          tail := x;
          forall b | 0 <= b < BIN_COUNT ensures !(start[bin] == start[b] < start[b + 1]) {
            assert Ascends(start, b + 1, BIN_COUNT);
          }
        } else {
          var succ := Successor(bin);
          assert BinEntry(items, start, succ, bins[succ]);
          forall b | 0 <= b < BIN_COUNT ensures start[bin] == start[b] < start[b + 1] <==> b == succ {
            OnlySuccessorMoves(bin, succ, b);
          }
          bins[bin] := bins[succ];
          bins[succ] := Some(NextLink(x));
        }
      }
    }

    /** Stores `x` through the link of position `p` and makes it point to what the link held. */
    method Push(link: Link, x: Task, ghost p: nat)
      requires Linked() && x !in Tasks() && p <= |items| && link == LinkTo(items, p)
      modifies this`head, Tasks(), x
      ensures head == if p == 0 then x else old(head)
      ensures x.next == NodeAt(items, p)
      ensures forall i {:trigger items[i].task.next} :: 0 <= i < |items| ==>
        items[i].task.next == if i + 1 == p then x else NodeAt(items, i + 1)
    {
      assert forall i :: 0 <= i < |items| ==> items[i].task in Tasks();
      if link.HeadLink? {
        x.next := head;
        head := x;
      } else {
        assert link.task == items[p - 1].task && link.task.next == NodeAt(items, p - 1 + 1);
        x.next := link.task.next;
        link.task.next := x;
      }
      forall i | 0 <= i < |items|
        ensures items[i].task.next == if i + 1 == p then x else NodeAt(items, i + 1)
      {
        assert i + 1 != p ==> items[i].task.next == old(items[i].task.next);
      }
    }

    /** `x` was linked in at position `p` of the chain `was`. */
    lemma ChainInserted(was: seq<Item>, x: Item, p: nat)
      requires p <= |was| && items == Inserted(was, x, p)
      requires forall i, j :: 0 <= i < j < |was| ==> was[i].task != was[j].task
      requires forall i :: 0 <= i < |was| ==> was[i].task != x.task
      requires head == (if p == 0 then x.task else NodeAt(was, 0))
      requires tail == (if p == |was| then x.task else NodeAt(was, |was| - 1))
      requires x.task.next == NodeAt(was, p)
      requires forall i {:trigger was[i].task.next} :: 0 <= i < |was| ==>
        was[i].task.next == if i + 1 == p then x.task else NodeAt(was, i + 1)
      ensures Chained()
    {
      forall i | 0 <= i < |items| ensures items[i].task.next == NodeAt(items, i + 1) {
        if i < p { assert items[i] == was[i] && was[i].task.next == NodeAt(items, i + 1); }
        else if i == p { assert items[i] == x && NodeAt(items, i + 1) == NodeAt(was, p); }
        else {
          var k := i - 1;
          assert items[i] == was[k] && was[k].task.next == NodeAt(was, k + 1) == NodeAt(items, i + 1);
        }
      }
      DistinctInserted(was, x, p);
    }

    /** The entries OpenBin left index the list with `x` inserted. */
    lemma IndexInserted(was: seq<Item>, from: seq<nat>, x: Item, entries: seq<Option<Link>>)
      requires Starts(was, from) && 0 <= x.bin < BIN_COUNT && from[x.bin] <= |was|
      requires items == Inserted(was, x, from[x.bin]) && start == Shifted(from, x.bin)
      requires |entries| == bins.Length == BIN_COUNT
      requires forall b :: 0 <= b < BIN_COUNT ==> BinEntry(was, from, b, entries[b])
      requires forall b :: 0 <= b < BIN_COUNT ==> bins[b] == Opened(was, from, x.bin, x.task, b, entries[b])
      requires binEdge == if from[x.bin] == |was| then x.bin + 1 else was[|was| - 1].bin + 1
      ensures Indexed()
    {
      StartsInserted(was, from, x);
      forall b | 0 <= b < BIN_COUNT ensures BinEntry(items, start, b, bins[b]) {
        OpenedIsEntry(was, from, x, b, entries[b]);
      }
    }

    /** The effect of an insertion on the fields and links, in terms of the list before it. */
    method LinkIn(x: Task, bin: int, ghost p: nat)
      requires Chained() && Indexed() && x !in Tasks() && 0 <= bin < BIN_COUNT && p == start[bin]
      modifies this`head, this`tail, this`binEdge, bins, Tasks(), x
      ensures |start| == BIN_COUNT + 1 && p <= |items|
      ensures forall b :: 0 <= b < BIN_COUNT ==> bins[b] == Opened(items, start, bin, x, b, old(bins[b]))
      ensures head == (if p == 0 then x else NodeAt(items, 0))
      ensures tail == (if p == |items| then x else NodeAt(items, |items| - 1))
      ensures binEdge == if p == |items| then bin + 1 else old(binEdge)
      ensures x.next == NodeAt(items, p)
      ensures forall i {:trigger items[i].task.next} :: 0 <= i < |items| ==>
        items[i].task.next == if i + 1 == p then x else NodeAt(items, i + 1)
    {
      OpenBin(x, bin);
      Push(bins[bin].value, x, p);
    }

    method InsertInBin(x: Task, bin: int, ghost size: nat)
      requires Chained() && Indexed() && x !in Tasks() && 0 <= bin < BIN_COUNT
      modifies this`head, this`tail, this`binEdge, this`items, this`start, bins, Tasks(), x
      ensures Chained() && Indexed()
      ensures items == Placed(old(items), Item(x, size, bin))
    {
      ghost var was, from, item := items, start, Item(x, size, bin);
      ghost var p, entries := start[bin], bins[..];
      assert forall i :: 0 <= i < |was| ==> was[i].task in Tasks();
      LinkIn(x, bin, p);
      items, start := Inserted(was, item, p), Shifted(from, bin);
      assert Chained() by { ChainInserted(was, item, p); }
      assert Indexed() by { IndexInserted(was, from, item, entries); }
      InsertedIsPlaced(was, from, item);
    }

    method Insert(x: Task, size: nat)
      requires Valid() && x !in Tasks()
      modifies this, bins, Tasks(), x
      ensures Valid()
      ensures items == Placed(old(items), Item(x, size, Bin(size)))
      ensures history == old(history) + [Item(x, size, Bin(size))]
    {
      var bin := Bin(size);
      BinInRange(size);
      InsertInBin(x, bin, size);
      BinnedInserted(old(items), Item(x, size, bin), Before(old(items), bin));
      history := history + [Item(x, size, bin)];
      assert history[..|history| - 1] == old(history);
    }

    /**
      Returns the list, a permutation of everything inserted, ordered by bin and in each bin the last
      inserted first; the sorter is empty afterwards.
     */
    method DequeueAll() returns (list: Task?)
      requires Valid()
      modifies this, bins
      ensures Valid() && items == [] && history == [] && BinSorted(old(items))
      ensures forall i, j :: 0 <= i < j < |old(items)| ==> MayPrecede(old(items)[i].size, old(items)[j].size)
      ensures multiset(old(items)) == multiset(old(history))
      ensures forall b :: InBin(old(items), b) == Reverse(InBin(old(history), b))
      ensures list == NodeAt(old(items), 0)
      ensures forall i :: 0 <= i < |old(items)| ==> old(items)[i].task.next == NodeAt(old(items), i + 1)
    {
      InsertAllOrders(history);
      forall i, j | 0 <= i < j < |items| ensures MayPrecede(items[i].size, items[j].size) {
        DescendingInBytes(items, i, j);
      }
      list := head;
      if list != null {
        Clear();
      }
      history := [];
    }

    /** memset(me, 0, sizeof(*me)) */
    method Clear()
      requires bins.Length == BIN_COUNT
      modifies this, bins
      ensures Chained() && Indexed() && items == []
    {
      head, tail, binEdge, items := null, null, 0, [];
      start := seq(BIN_COUNT + 1, _ => 0);
      forall b | 0 <= b < bins.Length { bins[b] := None; }
    }
  }
}
