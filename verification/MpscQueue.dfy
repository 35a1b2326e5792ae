/**
  The lock-free intrusive queue of `net/include/utils.h` as a transition system.

  Any number of producers run Enqueue; one consumer runs DequeueAll and Abandon.
  Every step performs at most one access to shared memory (or one mutex or
  condition-variable operation), and steps of different threads interleave freely.
  The fields `order`, `taken`, `cut`, `waker` and `returned` are
  bookkeeping: no step's effect on the real fields depends on them, except that a
  caller may only enqueue a node it owns (`Owned`).
 */
module MpscQueue {
  import opened Common

  type Node = nat
  type OpId = nat

  /** The value of `me->tail`: the sentinels 0x0, 0x1, 0x2, or a node's address. */
  datatype Tail = Empty | Asleep | Abandoned | At(node: Node)

  datatype ProducerPc =
    | Cleared     // x->next is null, tail exchange pending
    | Swapped     // tail exchanged, link store pending
    | Linked      // linked, must read me->waiting
    | Locking     // about to lock the waiter's mutex
    | Unlocking   // holds the mutex
    | Notifying   // released the mutex, notify pending
    | Returned
    | Faulted     // dereferenced a null me->waiting

  /** One Enqueue call; `prev` and `pos` are meaningful once the tail is exchanged. */
  datatype Producer = Producer(x: Node, prev: Tail, pos: nat, pc: ProducerPc)

  datatype Call = DequeueAll(waitSome: bool) | Abandon

  datatype Consumer =
    | Idle
    | Peek(waitSome: bool)            // first load of head
    | Spin(sleeping: bool)            // top of the wait loop
    | Lock(sleeping: bool)
    | Publish(sleeping: bool)         // me->waiting = waitSignal
    | Cas(sleeping: bool)
    | Enter                           // CAS succeeded, about to wait
    | Blocked                         // in cond.wait, mutex released
    | Relock                          // woken, mutex not yet reacquired
    | Unlock(sleeping: bool)
    | Reload(sleeping: bool)
    | TryAbandon
    | AwaitHead                       // Abandon spinning on head
    | Take(call: Call, h: Node)       // about to store head = null
    | Detach(call: Call, h: Node)     // about to exchange the tail
    | Walk(call: Call, h: Node, x: Node, last: Option<Node>, k: nat)

  datatype Holder = Free | ByConsumer | ByProducer(op: OpId)

  /** What a caller received: the list reached from the returned head, and whether it ends in null. */
  datatype Delivery = Delivery(list: seq<Node>, nullEnded: bool)

  /** One tail exchange: the node, the call that made it, and what that call will return. */
  datatype Entry = Entry(x: Node, op: OpId, accepted: bool)

  datatype State = State(
    next: map<Node, Option<Node>>,
    head: Option<Node>,
    tail: Tail,
    waiting: bool,               // me->waiting is not null
    mutex: Holder,
    ops: map<OpId, Producer>,
    con: Consumer,
    order: seq<Entry>,           // all enqueued elements in tail-exchange order
    taken: nat,                  // how many of them were handed to callers
    cut: nat,                    // how many the consumer's tail exchanges detached
    waker: OpId,                 // last producer that replaced the Asleep sentinel
    returned: seq<Delivery>)

  datatype Step =
    | PStart(op: OpId, x: Node) | PSwap(op: OpId) | PLink(op: OpId) | PSignal(op: OpId)
    | PLock(op: OpId) | PUnlock(op: OpId) | PNotify(op: OpId)
    | CCall(call: Call) | CPeek | CSpin(clockDue: bool) | CLock | CPublish | CCas(spurious: bool)
    | CEnter | CSpurious | CRelock | CUnlock | CReload | CTryAbandon(spurious: bool) | CAwaitHead
    | CTake | CDetach | CWalk

  const INIT := State(map[], None, Empty, false, Free, map[], Idle, [], 0, 0, 0, [])

  // ---------------------------------------------------------------- transitions

  predicate IsAt(s: State, op: OpId, pc: ProducerPc) { op in s.ops && s.ops[op].pc == pc }

  /** Nodes a caller may pass to Enqueue: neither queued nor being enqueued. */
  predicate Owned(s: State, x: Node) {
    && (forall i :: s.taken <= i < |s.order| ==> s.order[i].x != x)
    && (forall p :: p in s.ops && s.ops[p].pc == Cleared ==> s.ops[p].x != x)
  }

  function NextOf(next: map<Node, Option<Node>>, x: Node): Option<Node> {
    if x in next then next[x] else None
  }

  /** The nodes met when following `next` from `p`, cut off after `fuel` of them. */
  function Follow(next: map<Node, Option<Node>>, p: Option<Node>, fuel: nat): seq<Node>
    decreases fuel
  {
    if fuel == 0 || p.None? then [] else [p.value] + Follow(next, NextOf(next, p.value), fuel - 1)
  }

  function SetPc(s: State, op: OpId, pc: ProducerPc): State
    requires op in s.ops
  { s.(ops := s.ops[op := s.ops[op].(pc := pc)]) }

  function Start(s: State, op: OpId, x: Node): State {
    s.(next := s.next[x := None], ops := s.ops[op := Producer(x, Empty, 0, Cleared)])
  }

  function Swap(s: State, op: OpId): State
    requires op in s.ops
  {
    var x := s.ops[op].x;
    s.(tail := Tail.At(x),
       ops := s.ops[op := Producer(x, s.tail, |s.order|, Swapped)],
       order := s.order + [Entry(x, op, s.tail != Tail.Abandoned)],
       waker := if s.tail.Asleep? then op else s.waker)
  }

  function Link(s: State, op: OpId): State
    requires op in s.ops
  {
    var p := s.ops[op];
    var s1 := if p.prev.At? then s.(next := s.next[p.prev.node := Some(p.x)]) else s.(head := Some(p.x));
    SetPc(s1, op, if p.prev.Asleep? then Linked else Returned)
  }

  function Signal(s: State, op: OpId): State
    requires op in s.ops
  { SetPc(s, op, if s.waiting then Locking else Faulted) }

  function Acquire(s: State, op: OpId): State
    requires op in s.ops
  { SetPc(s, op, Unlocking).(mutex := ByProducer(op)) }

  function Release(s: State, op: OpId): State
    requires op in s.ops
  { SetPc(s, op, Notifying).(mutex := Free) }

  function Notify(s: State, op: OpId): State
    requires op in s.ops
  { SetPc(s, op, Returned).(con := if s.con.Blocked? then Relock else s.con) }

  /** The consumer hands the list starting at `h` to its caller. */
  function Return(s: State, h: Option<Node>): State {
    var list := Follow(s.next, h, |s.order|);
    var ended := list == [] || NextOf(s.next, list[|list| - 1]).None?;
    s.(con := Idle, taken := s.taken + |list|, returned := s.returned + [Delivery(list, ended)])
  }

  function TryTake(s: State, call: Call, otherwise: Consumer): State {
    s.(con := if s.head.Some? then Take(call, s.head.value) else otherwise)
  }

  function CompareExchange(s: State, spurious: bool): State
    requires s.con.Cas?
  {
    if !spurious && s.tail == (if s.con.sleeping then Asleep else Empty)
    then s.(tail := Asleep, con := Enter)
    else s.(con := Unlock(s.con.sleeping))
  }

  function TakeHead(s: State): State
    requires s.con.Take?
  { s.(head := None, con := Detach(s.con.call, s.con.h)) }

  function DetachAll(s: State): State
    requires s.con.Detach?
  {
    s.(tail := if s.con.call.Abandon? then Tail.Abandoned else Empty,
       cut := |s.order|,
       con := Walk(s.con.call, s.con.h, s.con.h, if s.tail.At? then Some(s.tail.node) else None, s.taken))
  }

  function WalkOne(s: State): State
    requires s.con.Walk?
  {
    if Some(s.con.x) == s.con.last then Return(s, Some(s.con.h))
    else if NextOf(s.next, s.con.x).None? then s
    else s.(con := s.con.(x := NextOf(s.next, s.con.x).value, k := s.con.k + 1))
  }

  predicate Enabled(s: State, step: Step) {
    match step
    case PStart(op, x) => op !in s.ops && Owned(s, x)
    case PSwap(op) => IsAt(s, op, Cleared)
    case PLink(op) => IsAt(s, op, Swapped)
    case PSignal(op) => IsAt(s, op, Linked)
    case PLock(op) => IsAt(s, op, Locking) && s.mutex == Free
    case PUnlock(op) => IsAt(s, op, Unlocking)
    case PNotify(op) => IsAt(s, op, Notifying)
    case CCall(_) => s.con.Idle?
    case CPeek => s.con.Peek?
    case CSpin(_) => s.con.Spin?
    case CLock => s.con.Lock? && s.mutex == Free
    case CPublish => s.con.Publish?
    case CCas(_) => s.con.Cas?
    case CEnter => s.con.Enter?
    case CSpurious => s.con.Blocked?
    case CRelock => s.con.Relock? && s.mutex == Free
    case CUnlock => s.con.Unlock?
    case CReload => s.con.Reload?
    case CTryAbandon(_) => s.con.TryAbandon?
    case CAwaitHead => s.con.AwaitHead?
    case CTake => s.con.Take?
    case CDetach => s.con.Detach?
    case CWalk => s.con.Walk?
  }

  function Apply(s: State, step: Step): State
    requires Enabled(s, step)
  {
    match step
    case PStart(op, x) => Start(s, op, x)
    case PSwap(op) => Swap(s, op)
    case PLink(op) => Link(s, op)
    case PSignal(op) => Signal(s, op)
    case PLock(op) => Acquire(s, op)
    case PUnlock(op) => Release(s, op)
    case PNotify(op) => Notify(s, op)
    case CCall(call) => s.(con := if call.Abandon? then TryAbandon else Peek(call.waitSome))
    case CPeek =>
      if s.head.None? && !s.con.waitSome then Return(s, None)
      else TryTake(s, DequeueAll(s.con.waitSome), Spin(false))
    case CSpin(due) => s.(con := if due then Lock(s.con.sleeping) else Reload(s.con.sleeping))
    case CLock => s.(con := Publish(s.con.sleeping), mutex := ByConsumer)
    case CPublish => s.(con := Cas(s.con.sleeping), waiting := true)
    case CCas(spurious) => CompareExchange(s, spurious)
    case CEnter => s.(con := Blocked, mutex := Free)
    case CSpurious => s.(con := Relock)
    case CRelock => s.(con := Unlock(true), mutex := ByConsumer)
    case CUnlock => s.(con := Reload(s.con.sleeping), mutex := Free)
    case CReload => TryTake(s, DequeueAll(true), Spin(s.con.sleeping))
    case CTryAbandon(spurious) =>
      if !spurious && s.tail.Empty? then Return(s, None).(tail := Tail.Abandoned)
      else s.(con := AwaitHead)
    case CAwaitHead => TryTake(s, Abandon, AwaitHead)
    case CTake => TakeHead(s)
    case CDetach => DetachAll(s)
    case CWalk => WalkOne(s)
  }

  /** `steps` can be executed one after the other from `s`. */
  predicate CanRun(s: State, steps: seq<Step>)
    decreases |steps|
  {
    steps == [] || (Enabled(s, steps[0]) && CanRun(Apply(s, steps[0]), steps[1..]))
  }

  function Run(s: State, steps: seq<Step>): State
    requires CanRun(s, steps)
    decreases |steps|
  {
    if steps == [] then s else Run(Apply(s, steps[0]), steps[1..])
  }
}
