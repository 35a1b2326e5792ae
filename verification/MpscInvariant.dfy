/** The invariant of the queue, and that every step keeps it. */
module MpscInvariant {
  import opened Common
  import opened MpscQueue

  // ------------------------------------------------------------------ invariant

  /** The consumer has read a non-null head and not yet exchanged the tail. */
  ghost predicate Holding(c: Consumer) { c.Take? || c.Detach? }

  /** Position `i` of `order` still waits for its producer's link store. */
  ghost predicate Unlinked(s: State, i: int) {
    0 <= i < |s.order| && IsAt(s, s.order[i].op, Swapped) && s.ops[s.order[i].op].pos == i
  }

  ghost predicate Differ(s: State, i: int, j: int) {
    0 <= i < |s.order| && 0 <= j < |s.order| && s.order[i].x != s.order[j].x
  }

  ghost predicate Shape(s: State) {
    && s.taken <= s.cut <= |s.order|
    && (forall i, j :: s.taken <= i < |s.order| && s.taken <= j < |s.order| && i != j ==> Differ(s, i, j))
  }

  ghost predicate LinkAt(s: State, i: int) {
    0 < i < |s.order| &&
    NextOf(s.next, s.order[i - 1].x) == if Unlinked(s, i) then None else Some(s.order[i].x)
  }

  /** Each queued node points to its successor, or to nothing while that link is pending. */
  ghost predicate Links(s: State) {
    && (forall i :: s.taken < i < |s.order| && i != s.cut ==> LinkAt(s, i))
    && (s.taken < s.cut <= |s.order| ==> NextOf(s.next, s.order[s.cut - 1].x) == None)
    && (s.taken < |s.order| ==> NextOf(s.next, s.order[|s.order| - 1].x) == None)
  }

  ghost predicate Ends(s: State) {
    && (s.cut == |s.order| ==> s.head.None? && !s.tail.At?)
    && (s.cut < |s.order| ==>
          && s.tail == Tail.At(s.order[|s.order| - 1].x)
          && s.head == (if s.con.Detach? || Unlinked(s, s.cut) then None else Some(s.order[s.cut].x)))
  }

  ghost predicate Outside(s: State, p: OpId, i: int) {
    p in s.ops && 0 <= i < |s.order| && s.order[i].x != s.ops[p].x
  }

  ghost predicate Apart(s: State, p: OpId, q: OpId) {
    p in s.ops && q in s.ops && s.ops[p].x != s.ops[q].x
  }

  /** Nodes being enqueued are neither queued nor shared between two calls. */
  ghost predicate Fresh(s: State) {
    && (forall p :: IsAt(s, p, Cleared) ==> NextOf(s.next, s.ops[p].x) == None)
    && (forall p, i :: IsAt(s, p, Cleared) && s.taken <= i < |s.order| ==> Outside(s, p, i))
    && (forall p, q :: IsAt(s, p, Cleared) && IsAt(s, q, Cleared) && p != q ==> Apart(s, p, q))
  }

  /** A producer past its tail exchange knows its place in the order. */
  ghost predicate Placed(s: State, p: OpId) {
    p in s.ops && s.ops[p].pc != Cleared ==>
      var o := s.ops[p];
      o.pos < |s.order| && s.order[o.pos].op == p && s.order[o.pos].accepted == !o.prev.Abandoned?
  }

  /** A producer whose link is pending will store it where the list has a hole. */
  ghost predicate LinkTarget(s: State, p: OpId) {
    IsAt(s, p, Swapped) ==>
      var o := s.ops[p];
      && s.taken <= o.pos < |s.order| && s.order[o.pos].x == o.x
      && (o.pos == s.cut ==> !o.prev.At? && !Holding(s.con))
      && (o.pos != s.cut ==> s.taken < o.pos && o.prev == Tail.At(s.order[o.pos - 1].x))
  }

  ghost predicate Signalling(s: State, p: OpId) {
    p in s.ops ==>
      var o := s.ops[p];
      && o.pc != Faulted
      && (o.pc in {Linked, Locking, Unlocking, Notifying} ==> o.prev.Asleep?)
      && (o.pc == Unlocking ==> s.mutex == ByProducer(p))
      && (o.pc != Cleared && o.prev.Asleep? ==> s.waiting)
  }

  ghost predicate Slept(c: Consumer) {
    c.Enter? || c.Blocked? || c.Relock?
    || ((c.Spin? || c.Lock? || c.Publish? || c.Cas? || c.Unlock? || c.Reload?) && c.sleeping)
  }

  ghost predicate Consuming(s: State) {
    && (s.con.Walk? ==>
          && s.taken <= s.con.k < s.cut <= |s.order|
          && s.con.h == s.order[s.taken].x && s.con.x == s.order[s.con.k].x
          && s.con.last == Some(s.order[s.cut - 1].x)
          && forall i :: s.taken < i <= s.con.k ==> !Unlinked(s, i))
    && (!s.con.Walk? ==> s.taken == s.cut)
    && (Holding(s.con) ==> s.cut < |s.order| && s.con.h == s.order[s.cut].x)
    && (s.tail.Asleep? ==> s.waiting && Slept(s.con))
    && (s.con.Cas? ==> s.waiting)
  }

  ghost predicate Mutex(s: State) {
    && (s.mutex == ByConsumer <==> s.con.Publish? || s.con.Cas? || s.con.Enter? || s.con.Unlock?)
    && (s.mutex.ByProducer? ==> IsAt(s, s.mutex.op, Unlocking))
  }

  /** A producer that replaced the Asleep sentinel and has yet to lock the waiter's mutex. */
  ghost predicate OwesLock(s: State, op: OpId) {
    op in s.ops && s.ops[op].prev.Asleep? && s.ops[op].pc in {Swapped, Linked, Locking}
  }

  ghost predicate OwesNotify(s: State, op: OpId) {
    OwesLock(s, op) || IsAt(s, op, Unlocking) || IsAt(s, op, Notifying)
  }

  ghost predicate Wakeup(s: State) {
    && (s.con.Enter? && !s.tail.Asleep? ==> OwesLock(s, s.waker))
    && (s.con.Blocked? && !s.tail.Asleep? ==> OwesNotify(s, s.waker))
  }

  function Elements(entries: seq<Entry>): (xs: seq<Node>)
    ensures |xs| == |entries|
    ensures forall i :: 0 <= i < |xs| ==> xs[i] == entries[i].x
  {
    seq(|entries|, i requires 0 <= i < |entries| => entries[i].x)
  }

  /** Everything handed to callers so far, in the order it was handed out. */
  function Handed(ds: seq<Delivery>): seq<Node> {
    if ds == [] then [] else Handed(ds[..|ds| - 1]) + ds[|ds| - 1].list
  }

  ghost predicate Delivered(s: State) {
    && s.taken <= |s.order|
    && Handed(s.returned) == Elements(s.order[..s.taken])
    && forall d :: d in s.returned ==> d.nullEnded
  }

  ghost predicate List(s: State) { Shape(s) && Links(s) && Ends(s) && Fresh(s) }

  ghost predicate Producers(s: State) {
    forall p :: p in s.ops ==> Placed(s, p) && LinkTarget(s, p) && Signalling(s, p)
  }

  ghost predicate Inv(s: State) {
    List(s) && Producers(s) && Consuming(s) && Mutex(s) && Wakeup(s) && Delivered(s)
  }

  // ------------------------------------------------------------- preservation

  /** The two states hold the same nodes and links; calls may differ only after their link store. */
  ghost predicate SameNodes(s: State, t: State) {
    && t.next == s.next && t.order == s.order && t.ops.Keys == s.ops.Keys
    && (forall p :: p in s.ops ==>
          || t.ops[p] == s.ops[p]
          || (t.ops[p].pc !in {Cleared, Swapped} && s.ops[p].pc !in {Cleared, Swapped}))
  }

  /** And the same queue. */
  ghost predicate SameQueue(s: State, t: State) {
    && SameNodes(s, t) && t.head == s.head && t.tail == s.tail && t.taken == s.taken && t.cut == s.cut
    && t.con.Detach? == s.con.Detach?
  }

  /** With the same nodes, only the ends of the list need a second look when it is detached or handed out. */
  lemma FrameNodes(s: State, t: State)
    requires Shape(s) && Links(s) && Fresh(s) && SameNodes(s, t)
    requires s.taken <= t.taken <= t.cut <= |t.order| && (t.cut == s.cut || t.taken == s.cut)
    ensures Shape(t) && Fresh(t)
    ensures forall i :: Unlinked(t, i) == Unlinked(s, i)
    ensures forall i :: t.taken < i < |t.order| && i != t.cut ==> LinkAt(t, i)
  {
    forall i ensures Unlinked(t, i) == Unlinked(s, i) {}
    forall i, j | t.taken <= i < |t.order| && t.taken <= j < |t.order| && i != j ensures Differ(t, i, j) {
      assert Differ(s, i, j);
    }
    forall i | t.taken < i < |t.order| && i != t.cut ensures LinkAt(t, i) { assert LinkAt(s, i); }
    forall p, i | IsAt(t, p, Cleared) && t.taken <= i < |t.order| ensures Outside(t, p, i) {
      assert IsAt(s, p, Cleared) && Outside(s, p, i);
    }
    forall p, q | IsAt(t, p, Cleared) && IsAt(t, q, Cleared) && p != q ensures Apart(t, p, q) {
      assert IsAt(s, p, Cleared) && IsAt(s, q, Cleared) && Apart(s, p, q);
    }
    forall p | IsAt(t, p, Cleared) ensures NextOf(t.next, t.ops[p].x) == None { assert IsAt(s, p, Cleared); }
  }

  lemma FrameList(s: State, t: State)
    requires List(s) && SameQueue(s, t)
    ensures List(t)
    ensures forall i :: Unlinked(t, i) == Unlinked(s, i)
  {
    FrameNodes(s, t);
  }

  ghost predicate Sound(s: State, p: OpId) { Placed(s, p) && LinkTarget(s, p) && Signalling(s, p) }

  /** Only call `op` moved, and it is sound: then so are all calls. */
  lemma FrameProducers(s: State, t: State, op: OpId)
    requires Producers(s) && Sound(t, op) && t.ops.Keys <= s.ops.Keys + {op}
    requires forall p :: p in t.ops && p != op ==> p in s.ops && t.ops[p] == s.ops[p]
    requires s.order <= t.order && t.taken == s.taken && t.cut == s.cut && (s.waiting ==> t.waiting)
    requires t.mutex == s.mutex || s.mutex == Free || s.mutex == ByProducer(op)
    requires Holding(t.con) ==> Holding(s.con)
    ensures Producers(t)
  {
    forall p | p in t.ops ensures Sound(t, p) {
      if p != op { assert Sound(s, p); }
    }
  }

  lemma FrameConsuming(s: State, t: State)
    requires Consuming(s) && t.con == (if t.con.Relock? && s.con.Blocked? then Relock else s.con)
    requires s.order <= t.order && t.taken == s.taken && t.cut == s.cut && t.waiting == s.waiting
    requires t.tail == s.tail || t.tail.At?
    requires forall i :: s.taken < i < s.cut && Unlinked(t, i) ==> Unlinked(s, i)
    ensures Consuming(t)
  {}

  lemma SignalKeepsInv(s: State, op: OpId)
    requires Inv(s) && IsAt(s, op, Linked)
    ensures Inv(Signal(s, op))
  {
    var t := Signal(s, op);
    assert Sound(s, op);
    FrameList(s, t);
    FrameProducers(s, t, op);
    FrameConsuming(s, t);
    SignalKeepsWakeup(s, op);
  }

  lemma SignalKeepsWakeup(s: State, op: OpId)
    requires Mutex(s) && Wakeup(s) && Delivered(s) && IsAt(s, op, Linked) && Sound(s, op)
    ensures var t := Signal(s, op); Mutex(t) && Wakeup(t) && Delivered(t)
  {}

  lemma LockKeepsInv(s: State, op: OpId)
    requires Inv(s) && IsAt(s, op, Locking) && s.mutex == Free
    ensures Inv(Acquire(s, op))
  {
    var t := Acquire(s, op);
    assert Sound(s, op);
    FrameList(s, t);
    FrameProducers(s, t, op);
    FrameConsuming(s, t);
    LockKeepsWakeup(s, op);
  }

  lemma LockKeepsWakeup(s: State, op: OpId)
    requires Mutex(s) && Wakeup(s) && Delivered(s) && IsAt(s, op, Locking) && Sound(s, op) && s.mutex == Free
    ensures var t := Acquire(s, op); Mutex(t) && Wakeup(t) && Delivered(t)
  {}

  lemma UnlockKeepsInv(s: State, op: OpId)
    requires Inv(s) && IsAt(s, op, Unlocking)
    ensures Inv(Release(s, op))
  {
    var t := Release(s, op);
    assert Sound(s, op);
    FrameList(s, t);
    FrameProducers(s, t, op);
    FrameConsuming(s, t);
    UnlockKeepsWakeup(s, op);
  }

  lemma UnlockKeepsWakeup(s: State, op: OpId)
    requires Mutex(s) && Wakeup(s) && Delivered(s) && IsAt(s, op, Unlocking) && Sound(s, op)
    ensures var t := Release(s, op); Mutex(t) && Wakeup(t) && Delivered(t)
  {}

  lemma NotifyKeepsInv(s: State, op: OpId)
    requires Inv(s) && IsAt(s, op, Notifying)
    ensures Inv(Notify(s, op))
  {
    var t := Notify(s, op);
    assert Sound(s, op);
    FrameList(s, t);
    FrameProducers(s, t, op);
    FrameConsuming(s, t);
    NotifyKeepsWakeup(s, op);
  }

  lemma NotifyKeepsWakeup(s: State, op: OpId)
    requires Mutex(s) && Wakeup(s) && Delivered(s) && IsAt(s, op, Notifying) && Sound(s, op)
    ensures var t := Notify(s, op); Mutex(t) && Wakeup(t) && Delivered(t)
  {}

  lemma StartKeepsList(s: State, op: OpId, x: Node)
    requires List(s) && op !in s.ops && Owned(s, x)
    requires forall i :: 0 <= i < |s.order| && s.order[i].op == op ==> !Unlinked(s, i)
    ensures List(Start(s, op, x))
    ensures forall i :: Unlinked(Start(s, op, x), i) == Unlinked(s, i)
  {
    var t := Start(s, op, x);
    forall i ensures Unlinked(t, i) == Unlinked(s, i) {}
    forall i, j | t.taken <= i < |t.order| && t.taken <= j < |t.order| && i != j ensures Differ(t, i, j) {
      assert Differ(s, i, j);
    }
    forall i | t.taken < i < |t.order| && i != t.cut ensures LinkAt(t, i) { assert LinkAt(s, i); }
    forall p, i | IsAt(t, p, Cleared) && t.taken <= i < |t.order| ensures Outside(t, p, i) {
      assert p != op ==> IsAt(s, p, Cleared) && Outside(s, p, i);
    }
    forall p, q | IsAt(t, p, Cleared) && IsAt(t, q, Cleared) && p != q ensures Apart(t, p, q) {
      assert p != op && q != op ==> IsAt(s, p, Cleared) && IsAt(s, q, Cleared) && Apart(s, p, q);
    }
    forall p | IsAt(t, p, Cleared) ensures NextOf(t.next, t.ops[p].x) == None {
      assert p != op ==> IsAt(s, p, Cleared);
    }
  }

  lemma StartKeepsInv(s: State, op: OpId, x: Node)
    requires Inv(s) && op !in s.ops && Owned(s, x)
    ensures Inv(Start(s, op, x))
  {
    var t := Start(s, op, x);
    StartKeepsList(s, op, x);
    FrameProducers(s, t, op);
    FrameConsuming(s, t);
    StartKeepsWakeup(s, op, x);
  }

  lemma StartKeepsWakeup(s: State, op: OpId, x: Node)
    requires Mutex(s) && Wakeup(s) && Delivered(s) && op !in s.ops
    ensures var t := Start(s, op, x); Mutex(t) && Wakeup(t) && Delivered(t)
  {}

  lemma SwapKeepsList(s: State, op: OpId)
    requires List(s) && IsAt(s, op, Cleared)
    requires !Holding(s.con) || s.cut < |s.order|
    ensures List(Swap(s, op))
    ensures forall i :: i != |s.order| ==> Unlinked(Swap(s, op), i) == Unlinked(s, i)
    ensures Unlinked(Swap(s, op), |s.order|)
  {
    var t := Swap(s, op);
    var n := |s.order|;
    forall i | i != n ensures Unlinked(t, i) == Unlinked(s, i) {}
    forall i, j | t.taken <= i < |t.order| && t.taken <= j < |t.order| && i != j ensures Differ(t, i, j) {
      if i < n && j < n { assert Differ(s, i, j); }
      else { assert Outside(s, op, if i == n then j else i); }
    }
    forall i | t.taken < i < |t.order| && i != t.cut ensures LinkAt(t, i) {
      if i < n { assert LinkAt(s, i); }
    }
    forall p, i | IsAt(t, p, Cleared) && t.taken <= i < |t.order| ensures Outside(t, p, i) {
      assert IsAt(s, p, Cleared);
      if i < n { assert Outside(s, p, i); } else { assert Apart(s, p, op); }
    }
    forall p, q | IsAt(t, p, Cleared) && IsAt(t, q, Cleared) && p != q ensures Apart(t, p, q) {
      assert IsAt(s, p, Cleared) && IsAt(s, q, Cleared) && Apart(s, p, q);
    }
    forall p | IsAt(t, p, Cleared) ensures NextOf(t.next, t.ops[p].x) == None { assert IsAt(s, p, Cleared); }
  }

  lemma SwapKeepsInv(s: State, op: OpId)
    requires Inv(s) && IsAt(s, op, Cleared)
    ensures Inv(Swap(s, op))
  {
    var t := Swap(s, op);
    SwapKeepsList(s, op);
    FrameProducers(s, t, op);
    FrameConsuming(s, t);
    SwapKeepsWakeup(s, op);
  }

  lemma SwapKeepsWakeup(s: State, op: OpId)
    requires Mutex(s) && Wakeup(s) && Delivered(s) && IsAt(s, op, Cleared)
    ensures var t := Swap(s, op); Mutex(t) && Wakeup(t) && Delivered(t)
  {
    var t := Swap(s, op);
    assert t.order[..t.taken] == s.order[..s.taken];
  }

  lemma LinkKeepsList(s: State, op: OpId)
    requires List(s) && IsAt(s, op, Swapped) && Placed(s, op) && LinkTarget(s, op)
    ensures List(Link(s, op))
    ensures forall i :: i != s.ops[op].pos ==> Unlinked(Link(s, op), i) == Unlinked(s, i)
    ensures Unlinked(s, s.ops[op].pos) && !Unlinked(Link(s, op), s.ops[op].pos)
  {
    var t := Link(s, op);
    forall i | i != s.ops[op].pos ensures Unlinked(t, i) == Unlinked(s, i) {}
    forall i, j | t.taken <= i < |t.order| && t.taken <= j < |t.order| && i != j ensures Differ(t, i, j) {
      assert Differ(s, i, j);
    }
    LinkKeepsLinks(s, op);
    LinkKeepsFresh(s, op);
  }

  lemma LinkKeepsLinks(s: State, op: OpId)
    requires Shape(s) && Links(s) && IsAt(s, op, Swapped) && Placed(s, op) && LinkTarget(s, op)
    ensures Links(Link(s, op))
  {
    var t, pos := Link(s, op), s.ops[op].pos;
    forall i | i != pos ensures Unlinked(t, i) == Unlinked(s, i) {}
    forall i | t.taken < i < |t.order| && i != t.cut ensures LinkAt(t, i) {
      assert LinkAt(s, i);
      if i != pos && pos != s.cut { assert Differ(s, i - 1, pos - 1); }
    }
    if pos != s.cut && s.taken < s.cut { assert Differ(s, s.cut - 1, pos - 1); }
    if pos != s.cut { assert Differ(s, |s.order| - 1, pos - 1); }
  }

  lemma LinkKeepsFresh(s: State, op: OpId)
    requires Fresh(s) && IsAt(s, op, Swapped) && LinkTarget(s, op)
    ensures Fresh(Link(s, op))
  {
    var t, pos := Link(s, op), s.ops[op].pos;
    forall p, i | IsAt(t, p, Cleared) && t.taken <= i < |t.order| ensures Outside(t, p, i) {
      assert IsAt(s, p, Cleared) && Outside(s, p, i);
    }
    forall p, q | IsAt(t, p, Cleared) && IsAt(t, q, Cleared) && p != q ensures Apart(t, p, q) {
      assert IsAt(s, p, Cleared) && IsAt(s, q, Cleared) && Apart(s, p, q);
    }
    forall p | IsAt(t, p, Cleared) ensures NextOf(t.next, t.ops[p].x) == None {
      assert IsAt(s, p, Cleared);
      if pos != s.cut { assert Outside(s, p, pos - 1); }
    }
  }

  lemma LinkKeepsInv(s: State, op: OpId)
    requires Inv(s) && IsAt(s, op, Swapped)
    ensures Inv(Link(s, op))
  {
    var t := Link(s, op);
    assert Sound(s, op);
    LinkKeepsList(s, op);
    LinkIsSound(s, op);
    FrameProducers(s, t, op);
    FrameConsuming(s, t);
    LinkKeepsWakeup(s, op);
  }

  lemma LinkIsSound(s: State, op: OpId)
    requires IsAt(s, op, Swapped) && Sound(s, op)
    ensures Sound(Link(s, op), op)
  {}

  lemma LinkKeepsWakeup(s: State, op: OpId)
    requires Mutex(s) && Wakeup(s) && Delivered(s) && IsAt(s, op, Swapped) && Sound(s, op)
    ensures Mutex(Link(s, op)) && Wakeup(Link(s, op)) && Delivered(Link(s, op))
  {}

  /** No producer can still owe the head link once the consumer sees a head. */
  lemma HeadIsLinked(s: State, p: OpId)
    requires Inv(s) && s.head.Some? && IsAt(s, p, Swapped)
    ensures s.cut < |s.order| && s.ops[p].pos != s.cut && s.head == Some(s.order[s.cut].x)
  {
    assert Placed(s, p);
  }

  /** A step of the consumer that only moves its program counter, the mutex or `waiting`. */
  ghost predicate OnlyMoves(s: State, t: State) {
    && t.(con := s.con, mutex := s.mutex, waiting := s.waiting) == s
    && !s.con.Detach? && !t.con.Detach? && !s.con.Walk? && !t.con.Walk?
    && (s.waiting ==> t.waiting)
    && (t.con.Take? ==> s.con.Take? || (s.head.Some? && t.con.h == s.head.value))
    && (s.con.Take? ==> t.con == s.con)
    && (t.tail.Asleep? ==> t.waiting && Slept(t.con))
    && (t.con.Cas? ==> t.waiting)
    && (t.mutex.ByProducer? ==> t.mutex == s.mutex)
    && (s.mutex.ByProducer? ==> t.mutex == s.mutex)
    && (t.mutex == ByConsumer <==> t.con.Publish? || t.con.Cas? || t.con.Enter? || t.con.Unlock?)
    && Wakeup(t)
  }

  lemma ConsumerKeepsInv(s: State, t: State)
    requires Inv(s) && OnlyMoves(s, t)
    ensures Inv(t)
  {
    FrameList(s, t);
    forall p | p in t.ops ensures Placed(t, p) && LinkTarget(t, p) && Signalling(t, p) {
      assert Placed(s, p) && LinkTarget(s, p) && Signalling(s, p);
      if s.head.Some? && IsAt(s, p, Swapped) { HeadIsLinked(s, p); }
    }
  }

  lemma CasKeepsInv(s: State, spurious: bool)
    requires Inv(s) && s.con.Cas?
    ensures Inv(CompareExchange(s, spurious))
  {
    var t := CompareExchange(s, spurious);
    if t.con.Enter? {
      assert s.cut == |s.order|;
      FrameList(s.(tail := s.tail), t.(tail := s.tail));
      assert List(t) by { FrameTail(t.(tail := s.tail), t); }
      forall p | p in t.ops ensures Placed(t, p) && LinkTarget(t, p) && Signalling(t, p) {
        assert Placed(s, p) && LinkTarget(s, p) && Signalling(s, p);
      }
    } else {
      ConsumerKeepsInv(s, t);
    }
  }

  /** On an empty queue one sentinel is as good as another. */
  lemma FrameTail(s: State, t: State)
    requires List(s) && t.(tail := s.tail) == s && s.cut == |s.order| && !t.tail.At?
    ensures List(t)
  {
    FrameNodes(s, t);
  }

  // ---------------------------------------------- taking, detaching and walking

  lemma TakeKeepsInv(s: State)
    requires Inv(s) && s.con.Take?
    ensures Inv(TakeHead(s))
  {
    var t := TakeHead(s);
    FrameList(s, s);
    assert t.(head := s.head, con := s.con) == s;
    forall i ensures Unlinked(t, i) == Unlinked(s, i) {}
    assert List(t) by { FrameHead(s, t); }
    forall p | p in t.ops ensures Sound(t, p) {
      assert Sound(s, p);
    }
  }

  lemma FrameHead(s: State, t: State)
    requires List(s) && t.(head := s.head, con := s.con) == s && s.cut < |s.order|
    requires t.con.Detach? && t.head.None?
    ensures List(t)
  {
    FrameNodes(s, t);
  }

  lemma DetachKeepsList(s: State)
    requires List(s) && s.con.Detach? && s.cut == s.taken && s.cut < |s.order|
    ensures List(DetachAll(s))
    ensures forall i :: Unlinked(DetachAll(s), i) == Unlinked(s, i)
  {
    FrameNodes(s, DetachAll(s));
  }

  lemma DetachKeepsInv(s: State)
    requires Inv(s) && s.con.Detach?
    ensures Inv(DetachAll(s))
  {
    var t := DetachAll(s);
    DetachKeepsList(s);
    forall p | p in t.ops ensures Sound(t, p) {
      assert Sound(s, p);
    }
  }

  lemma {:induction false} FollowSegment(next: map<Node, Option<Node>>, order: seq<Entry>, a: nat, b: nat, fuel: nat)
    requires a < b <= |order| && b - a <= fuel
    requires forall i :: a < i < b ==> NextOf(next, order[i - 1].x) == Some(order[i].x)
    requires NextOf(next, order[b - 1].x) == None
    ensures Follow(next, Some(order[a].x), fuel) == Elements(order[a..b])
    decreases b - a
  {
    var rest := Follow(next, NextOf(next, order[a].x), fuel - 1);
    if a + 1 == b {
      assert rest == [];
    } else {
      assert NextOf(next, order[a + 1 - 1].x) == Some(order[a + 1].x);
      FollowSegment(next, order, a + 1, b, fuel - 1);
    }
    assert rest == Elements(order[a + 1..b]);
    assert Elements(order[a..b]) == [order[a].x] + rest;
  }

  /** When the walk reaches the detached tail, every link of the detached list is in place. */
  lemma WalkedList(s: State)
    requires Inv(s) && s.con.Walk? && Some(s.con.x) == s.con.last
    ensures s.con.k == s.cut - 1
    ensures forall i :: s.taken < i < s.cut ==> !Unlinked(s, i)
    ensures Follow(s.next, Some(s.con.h), |s.order|) == Elements(s.order[s.taken..s.cut])
    ensures NextOf(s.next, s.order[s.cut - 1].x) == None
  {
    assert s.con.k != s.cut - 1 ==> Differ(s, s.con.k, s.cut - 1);
    forall i | s.taken < i < s.cut ensures NextOf(s.next, s.order[i - 1].x) == Some(s.order[i].x) {
      assert LinkAt(s, i);
    }
    FollowSegment(s.next, s.order, s.taken, s.cut, |s.order|);
  }

  lemma ReturnKeepsList(s: State, t: State)
    requires List(s) && s.con.Walk? && t.(con := s.con, taken := s.taken, returned := s.returned) == s
    requires t.taken == s.cut && !t.con.Detach?
    ensures List(t)
    ensures forall i :: Unlinked(t, i) == Unlinked(s, i)
  {
    FrameNodes(s, t);
  }

  lemma HandedAppend(ds: seq<Delivery>, d: Delivery)
    ensures Handed(ds + [d]) == Handed(ds) + d.list
  {
    assert (ds + [d])[..|ds|] == ds;
  }

  /** What a return does when following `next` gives exactly the detached part of the order. */
  lemma ReturnState(s: State, h: Node)
    requires s.taken < s.cut <= |s.order| && Follow(s.next, Some(h), |s.order|) == Elements(s.order[s.taken..s.cut])
    requires NextOf(s.next, s.order[s.cut - 1].x) == None
    ensures Return(s, Some(h)) == s.(con := Idle, taken := s.cut,
      returned := s.returned + [Delivery(Elements(s.order[s.taken..s.cut]), true)])
  {
    ElementsSplit(s.order, s.taken, s.cut);
  }

  lemma ReturnedList(s: State)
    requires Inv(s) && s.con.Walk? && Some(s.con.x) == s.con.last
    ensures Delivered(Return(s, Some(s.con.h)))
    ensures Return(s, Some(s.con.h)) == s.(con := Idle, taken := s.cut,
      returned := s.returned + [Delivery(Elements(s.order[s.taken..s.cut]), true)])
  {
    WalkedList(s);
    ReturnState(s, s.con.h);
    DeliveredMore(s, Return(s, Some(s.con.h)));
  }

  lemma DeliveredMore(s: State, t: State)
    requires Delivered(s) && s.taken < s.cut <= |s.order| && t.order == s.order && t.taken == s.cut
    requires t.returned == s.returned + [Delivery(Elements(s.order[s.taken..s.cut]), true)]
    ensures Delivered(t)
  {
    HandedAppend(s.returned, Delivery(Elements(s.order[s.taken..s.cut]), true));
    ElementsSplit(s.order, s.taken, s.cut);
  }

  lemma ElementsSplit(order: seq<Entry>, a: nat, b: nat)
    requires a < b <= |order|
    ensures Elements(order[..a]) + Elements(order[a..b]) == Elements(order[..b])
    ensures Elements(order[a..b])[b - a - 1] == order[b - 1].x
  {}

  lemma ReturnKeepsProducers(s: State, t: State)
    requires Inv(s) && s.con.Walk? && Some(s.con.x) == s.con.last
    requires t.(con := s.con, taken := s.taken, returned := s.returned) == s && t.taken == s.cut && t.con.Idle?
    ensures Producers(t)
  {
    WalkedList(s);
    forall p | p in t.ops ensures Sound(t, p) {
      assert Sound(s, p);
      if IsAt(s, p, Swapped) { assert Unlinked(s, s.ops[p].pos); }
    }
  }

  lemma ReturnListKeepsInv(s: State)
    requires Inv(s) && s.con.Walk? && Some(s.con.x) == s.con.last
    ensures Inv(Return(s, Some(s.con.h)))
  {
    var t := Return(s, Some(s.con.h));
    ReturnedList(s);
    ReturnKeepsList(s, t);
    ReturnKeepsProducers(s, t);
  }

  lemma AdvanceKeepsInv(s: State)
    requires Inv(s) && s.con.Walk? && Some(s.con.x) != s.con.last && NextOf(s.next, s.con.x).Some?
    ensures Inv(WalkOne(s))
  {
    var t := WalkOne(s);
    AdvanceKeepsConsuming(s);
    FrameList(s, t);
    FrameProducers(s, t, 0) by { assert 0 in s.ops ==> Sound(s, 0); }
  }

  lemma AdvanceKeepsConsuming(s: State)
    requires List(s) && Consuming(s) && s.con.Walk? && Some(s.con.x) != s.con.last && NextOf(s.next, s.con.x).Some?
    ensures Consuming(WalkOne(s))
  {
    forall i ensures Unlinked(WalkOne(s), i) == Unlinked(s, i) {}
    assert s.con.k + 1 < s.cut;
    assert LinkAt(s, s.con.k + 1);
  }

  lemma WalkKeepsInv(s: State)
    requires Inv(s) && s.con.Walk?
    ensures Inv(WalkOne(s))
  {
    if Some(s.con.x) == s.con.last {
      ReturnListKeepsInv(s);
    } else if NextOf(s.next, s.con.x).Some? {
      AdvanceKeepsInv(s);
    }
  }

  lemma ReturnedNothing(s: State)
    requires Delivered(s)
    ensures Return(s, None) == s.(con := Idle, returned := s.returned + [Delivery([], true)])
    ensures Delivered(Return(s, None))
  {
    HandedAppend(s.returned, Delivery([], true));
  }

  /** An empty-handed return: the queue was seen empty. */
  lemma ReturnNullKeepsInv(s: State)
    requires Inv(s) && (s.con.Peek? || s.con.TryAbandon?)
    ensures Inv(Return(s, None))
  {
    ReturnedNothing(s);
    var t := s.(con := Idle, returned := s.returned + [Delivery([], true)]);
    FrameList(s, t);
    FrameProducers(s, t, 0) by { assert 0 in s.ops ==> Sound(s, 0); }
  }

  /** Writing the Abandoned sentinel over the Empty one. */
  lemma AbandonEmptyKeepsInv(s: State)
    requires Inv(s) && s.con.Idle? && s.tail.Empty?
    ensures Inv(s.(tail := Tail.Abandoned))
  {
    var t := s.(tail := Tail.Abandoned);
    FrameTail(s, t);
    FrameProducers(s, t, 0) by { assert 0 in s.ops ==> Sound(s, 0); }
  }

  // ------------------------------------------------------------- all steps

  lemma ProducerStepKeepsInv(s: State, step: Step)
    requires Inv(s) && Enabled(s, step)
    requires ByCaller(step)
    ensures Inv(Apply(s, step))
  {
    match step
    case PStart(op, x) => StartKeepsInv(s, op, x);
    case PSwap(op) => SwapKeepsInv(s, op);
    case PLink(op) => LinkKeepsInv(s, op);
    case PSignal(op) => SignalKeepsInv(s, op);
    case PLock(op) => LockKeepsInv(s, op);
    case PUnlock(op) => UnlockKeepsInv(s, op);
    case PNotify(op) => NotifyKeepsInv(s, op);
  }

  lemma WaitStepKeepsInv(s: State, step: Step)
    requires Inv(s) && Enabled(s, step)
    requires step.CSpin? || step.CLock? || step.CPublish? || step.CEnter? || step.CSpurious? || step.CRelock?
          || step.CUnlock? || step.CReload? || step.CAwaitHead? || step.CCall?
    ensures Inv(Apply(s, step))
  {
    if step.CCall? || step.CReload? || step.CAwaitHead? || step.CSpin? {
      LookingOnlyMoves(s, step);
    } else {
      SleepingOnlyMoves(s, step);
    }
    ConsumerKeepsInv(s, Apply(s, step));
  }

  lemma LookingOnlyMoves(s: State, step: Step)
    requires Shape(s) && Ends(s) && Consuming(s) && Mutex(s) && Wakeup(s) && Enabled(s, step)
    requires step.CCall? || step.CReload? || step.CAwaitHead? || step.CSpin?
    ensures OnlyMoves(s, Apply(s, step))
  {}

  lemma SleepingOnlyMoves(s: State, step: Step)
    requires Consuming(s) && Mutex(s) && Wakeup(s) && Enabled(s, step)
    requires step.CLock? || step.CPublish? || step.CEnter? || step.CSpurious? || step.CRelock? || step.CUnlock?
    ensures OnlyMoves(s, Apply(s, step))
  {}

  lemma PeekKeepsInv(s: State)
    requires Inv(s) && s.con.Peek?
    ensures Inv(Apply(s, CPeek))
  {
    if s.head.None? && !s.con.waitSome { ReturnNullKeepsInv(s); }
    else { ConsumerKeepsInv(s, Apply(s, CPeek)); }
  }

  lemma TryAbandonKeepsInv(s: State, spurious: bool)
    requires Inv(s) && s.con.TryAbandon?
    ensures Inv(Apply(s, CTryAbandon(spurious)))
  {
    if !spurious && s.tail.Empty? { ReturnNullKeepsInv(s); AbandonEmptyKeepsInv(Return(s, None)); }
    else { ConsumerKeepsInv(s, Apply(s, CTryAbandon(spurious))); }
  }

  predicate ByCaller(step: Step) {
    step.PStart? || step.PSwap? || step.PLink? || step.PSignal? || step.PLock? || step.PUnlock? || step.PNotify?
  }

  lemma StepKeepsInv(s: State, step: Step)
    requires Inv(s) && Enabled(s, step)
    ensures Inv(Apply(s, step))
  {
    if ByCaller(step) { ProducerStepKeepsInv(s, step); }
    else if step.CPeek? { PeekKeepsInv(s); }
    else if step.CTryAbandon? { TryAbandonKeepsInv(s, step.spurious); }
    else if step.CCas? { CasKeepsInv(s, step.spurious); }
    else if step.CTake? { TakeKeepsInv(s); }
    else if step.CDetach? { DetachKeepsInv(s); }
    else if step.CWalk? { WalkKeepsInv(s); }
    else { WaitStepKeepsInv(s, step); }
  }

  lemma {:induction false} RunKeepsInv(s: State, steps: seq<Step>)
    requires Inv(s) && CanRun(s, steps)
    ensures Inv(Run(s, steps))
    decreases |steps|
  {
    if steps != [] {
      StepKeepsInv(s, steps[0]);
      RunKeepsInv(Apply(s, steps[0]), steps[1..]);
    }
  }

  lemma InitInv()
    ensures Inv(INIT)
  {}
}
