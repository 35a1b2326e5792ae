/** What single calls of the queue's consumer lead to, on every run. */
module MpscCalls {
  import opened Common
  import opened MpscQueue
  import opened MpscInvariant
  import opened MpscGuarantees

  /** No new call of the consumer. */
  ghost predicate NoCall(steps: seq<Step>) { forall i :: 0 <= i < |steps| ==> !steps[i].CCall? }

  lemma {:induction false} Divide(s: State, a: seq<Step>, b: seq<Step>)
    requires CanRun(s, a + b)
    ensures CanRun(s, a) && CanRun(Run(s, a), b) && Run(s, a + b) == Run(Run(s, a), b)
    decreases |a|
  {
    if a == [] {
      assert a + b == b;
    } else {
      assert (a + b)[0] == a[0] && (a + b)[1..] == a[1..] + b;
      Divide(Apply(s, a[0]), a[1..], b);
    }
  }

  // -------------------------------------------------------------------------- Abandon

  /**
    `m` elements were enqueued when Abandon was called, on a queue that was abandoned already if
    `again`; the tail is yet to be written, and of what came since only the first one of an
    abandoned queue was refused.
   */
  ghost predicate Unwritten(s: State, m: nat, again: bool) {
    && Abandoning(s.con) && m <= |s.order|
    && (s.tail.Abandoned? <==> again && |s.order| == m)
    && forall i :: m <= i < |s.order| ==> (s.order[i].accepted <==> !(again && i == m))
  }

  /** The tail was written when `n` elements were enqueued, and none has been since. */
  ghost predicate JustWritten(s: State, m: nat, n: nat, again: bool) {
    && !Abandoning(s.con) && s.tail.Abandoned? && m <= n == |s.order|
    && forall i :: m <= i < n ==> (s.order[i].accepted <==> !(again && i == m))
  }

  lemma AbandonStep(s: State, step: Step, m: nat, again: bool)
    requires Unwritten(s, m, again) && Enabled(s, step)
    ensures var t := Apply(s, step); Unwritten(t, m, again) || JustWritten(t, m, |t.order|, again)
  {}

  /** A call of Abandon that returns has written the tail, whichever way it went. */
  lemma {:induction false} AbandonWrites(s: State, steps: seq<Step>, m: nat, again: bool) returns (j: nat)
    requires Unwritten(s, m, again) && CanRun(s, steps) && NoCall(steps) && Run(s, steps).con.Idle?
    ensures j <= |steps| && CanRun(s, steps[..j])
    ensures var u := Run(s, steps[..j]); JustWritten(u, m, |u.order|, again)
    decreases |steps|
  {
    var t := Apply(s, steps[0]);
    AbandonStep(s, steps[0], m, again);
    var i := 0;
    if Unwritten(t, m, again) { i := AbandonWrites(t, steps[1..], m, again); }
    j := i + 1;
    assert steps[..j][0] == steps[0] && steps[..j][1..] == steps[1..][..i];
  }

  /**
    From the call of an Abandon that returns: some state on the way has the tail written, with `n`
    elements enqueued. Entry n is refused as soon as it is there and every later one is accepted,
    until Abandon is called again; all those between the call and n are accepted, unless the queue
    was abandoned at the call.
   */
  lemma {:induction false} AbandonRefusesFirst(s: State, steps: seq<Step>, more: seq<Step>) returns (j: nat)
    requires Inv(s) && s.con.TryAbandon? && CanRun(s, steps) && NoCall(steps) && Run(s, steps).con.Idle?
    requires CanRun(Run(s, steps), more) && CCall(Abandon) !in more
    ensures j <= |steps| && CanRun(s, steps[..j]) && Run(s, steps[..j]).tail.Abandoned?
    ensures var m, n, t := |s.order|, |Run(s, steps[..j]).order|, Run(Run(s, steps), more);
      && m <= n <= |t.order|
      && (forall i :: n <= i < |t.order| ==> (t.order[i].accepted <==> i != n))
      && (forall i :: m <= i < n ==> (t.order[i].accepted <==> !(s.tail.Abandoned? && i == m)))
  {
    var again := s.tail.Abandoned?;
    j := AbandonWrites(s, steps, |s.order|, again);
    var u := Run(s, steps[..j]);
    assert steps == steps[..j] + steps[j..];
    Divide(s, steps[..j], steps[j..]);
    Concatenate(u, steps[j..], more);
    RunKeepsInv(s, steps[..j]);
    ExactlyFirstIsRefused(u, steps[j..] + more);
    OrderGrows(u, steps[j..] + more);
  }

  lemma {:induction false} OrderGrows(s: State, steps: seq<Step>)
    requires CanRun(s, steps)
    ensures s.order <= Run(s, steps).order
    decreases |steps|
  {
    if steps != [] { OrderGrows(Apply(s, steps[0]), steps[1..]); }
  }

  // ----------------------------------------------------------------------- DequeueAll

  /** Inside a DequeueAll that waits for an element. */
  predicate WaitingForSome(c: Consumer) {
    match c
    case Peek(waitSome) => waitSome
    case Take(call, _) => call == DequeueAll(true)
    case Detach(call, _) => call == DequeueAll(true)
    case Walk(call, _, _, _, _) => call == DequeueAll(true)
    case Idle => false
    case TryAbandon => false
    case AwaitHead => false
    case _ => true
  }

  /** The walk has reached the detached tail: the next step of the consumer returns. */
  predicate AtEnd(c: Consumer) { c.Walk? && Some(c.x) == c.last }

  lemma WaitingGoesOn(s: State, step: Step)
    requires WaitingForSome(s.con) && Enabled(s, step) && !(AtEnd(s.con) && step.CWalk?)
    ensures WaitingForSome(Apply(s, step).con) && Apply(s, step).returned == s.returned
  {}

  lemma WaitingReturns(s: State)
    requires Inv(s) && AtEnd(s.con)
    ensures var t := Apply(s, CWalk); exists d :: t.con.Idle? && t.returned == s.returned + [d] && d.list != []
  {
    ReturnedList(s);
    assert |Elements(s.order[s.taken..s.cut])| > 0;
  }

  /** A DequeueAll with `waitSome` that returns hands over one list, and not an empty one. */
  lemma {:induction false} WaitSomeGetsSome(s: State, steps: seq<Step>)
    requires Inv(s) && WaitingForSome(s.con) && CanRun(s, steps) && NoCall(steps) && Run(s, steps).con.Idle?
    ensures exists d :: Run(s, steps).returned == s.returned + [d] && d.list != []
    decreases |steps|
  {
    var t := Apply(s, steps[0]);
    if AtEnd(s.con) && steps[0].CWalk? {
      WaitingReturns(s);
      IdleReturnsNothing(t, steps[1..]);
    } else {
      WaitingGoesOn(s, steps[0]);
      StepKeepsInv(s, steps[0]);
      WaitSomeGetsSome(t, steps[1..]);
    }
  }

  lemma {:induction false} IdleReturnsNothing(s: State, steps: seq<Step>)
    requires s.con.Idle? && CanRun(s, steps) && NoCall(steps)
    ensures Run(s, steps).con.Idle? && Run(s, steps).returned == s.returned
    decreases |steps|
  {
    if steps != [] { IdleReturnsNothing(Apply(s, steps[0]), steps[1..]); }
  }

  /** The consumer looks for a head, at the top of its loop or anywhere in it. */
  predicate Looking(c: Consumer) { WaitingForSome(c) && !c.Take? && !c.Detach? && !c.Walk? }

  /** An element is there to be taken and no link is pending. */
  ghost predicate Ready(s: State) { AllLinked(s) && s.cut < |s.order| }

  function MutexStep(s: State, otherwise: Step): Step {
    if s.mutex.ByProducer? then PUnlock(s.mutex.op) else otherwise
  }

  /** A step that brings a looking consumer closer to the head. */
  function LookStep(s: State): Step
    requires Looking(s.con) && (s.con.Blocked? ==> s.waker in s.ops)
  {
    match s.con
    case Peek(_) => CPeek
    case Spin(_) => CSpin(false)
    case Lock(_) => MutexStep(s, CLock)
    case Publish(_) => CPublish
    case Cas(_) => CCas(false)
    case Enter => CEnter
    case Blocked => WakeStep(s)
    case Relock => MutexStep(s, CRelock)
    case Unlock(_) => CUnlock
    case Reload(_) => CReload
  }

  function LookRank(s: State): nat {
    var mutex := if s.mutex.Free? then 0 else 1;
    match s.con
    case Peek(_) => 1
    case Reload(_) => 1
    case Spin(_) => 2
    case Unlock(_) => 2
    case Relock => 3 + mutex
    case Blocked => 5 + WakeRank(s)
    case Enter => 17
    case Cas(_) => 18
    case Publish(_) => 19
    case Lock(_) => 20 + mutex
    case _ => 0
  }

  /** The element is still there, and the consumer holds the head or is closer to it. */
  ghost predicate Nearer(s: State, t: State) {
    && t.order == s.order && t.returned == s.returned && t.taken == s.taken && t.cut == s.cut && AllLinked(t)
    && (if t.con.Take? then t.con.call == DequeueAll(true) else Looking(t.con) && LookRank(t) < LookRank(s))
  }

  lemma LookStepNears(s: State)
    requires Mutex(s) && Ends(s) && Ready(s) && Looking(s.con) && !s.con.Blocked?
    ensures Enabled(s, LookStep(s)) && Nearer(s, Apply(s, LookStep(s)))
  {
    assert !Unlinked(s, s.cut);
  }

  lemma WakeStepNears(s: State)
    requires Mutex(s) && Wakeup(s) && Ends(s) && Ready(s) && s.con.Blocked?
    requires s.waker in s.ops && Signalling(s, s.waker)
    ensures Enabled(s, WakeStep(s)) && Nearer(s, Apply(s, WakeStep(s)))
  {
    assert !IsAt(s, s.waker, Swapped);
    WakeRankFalls(s);
  }

  /**
    A DequeueAll that waits, awake or asleep, with an element there and no link pending: some run
    of it and of the Enqueue calls under way hands everything over in order. It is never stuck.
   */
  lemma {:induction false} WaiterDrains(s: State) returns (steps: seq<Step>)
    requires Inv(s) && Looking(s.con) && Ready(s)
    ensures CanRun(s, steps)
    ensures var t := Run(s, steps);
      && t.con.Idle? && t.order == s.order && t.taken == |s.order|
      && t.returned == s.returned + [Delivery(Elements(s.order[s.taken..]), true)]
    decreases LookRank(s)
  {
    if s.con.Blocked? {
      WakeStepEnabled(s);
      assert Sound(s, s.waker);
      WakeStepNears(s);
    } else {
      LookStepNears(s);
    }
    var step := LookStep(s);
    var t := Apply(s, step);
    StepKeepsInv(s, step);
    if t.con.Take? { steps := DrainNonEmpty(t); } else { steps := WaiterDrains(t); }
    PrependStep(s, step, steps);
    steps := [step] + steps;
  }

  /**
    A consumer that finds the queue empty can go to sleep, and does not spin for ever: with its
    sentinel in the tail it waits to be notified.
   */
  lemma EmptyQueueSleeps(s: State) returns (steps: seq<Step>)
    requires s.con.Spin? && s.tail == (if s.con.sleeping then Asleep else Empty) && s.mutex.Free?
    ensures CanRun(s, steps)
    ensures Run(s, steps) == s.(con := Blocked, tail := Asleep, waiting := true)
  {
    var s1 := s.(con := Publish(s.con.sleeping), mutex := ByConsumer);
    var s2 := s1.(con := Enter, tail := Asleep, waiting := true);
    var a, b := [CSpin(true), CLock], [CPublish, CCas(false)];
    TwoSteps(s, CSpin(true), CLock);
    TwoSteps(s1, CPublish, CCas(false));
    Concatenate(s, a, b);
    PrependStep(s2, CEnter, []);
    steps := (a + b) + ([CEnter] + []);
    Concatenate(s, a + b, [CEnter] + []);
  }

  /** An Abandon of an empty queue, or of one with no link pending, can return at once with all there is. */
  lemma AbandonDrains(s: State) returns (steps: seq<Step>)
    requires Inv(s) && s.con.TryAbandon? && AllLinked(s) && (s.tail.Empty? || s.cut < |s.order|)
    ensures CanRun(s, steps)
    ensures var t := Run(s, steps);
      && t.con.Idle? && t.order == s.order && t.taken == |s.order|
      && t.returned == s.returned + [Delivery(Elements(s.order[s.taken..]), true)]
  {
    var step := CTryAbandon(false);
    var s1 := Apply(s, step);
    StepKeepsInv(s, step);
    steps := [];
    if s.tail.Empty? {
      assert s1.returned == s.returned + [Delivery([], true)];
    } else {
      assert !Unlinked(s, s.cut);
      var s2 := Apply(s1, CAwaitHead);
      StepKeepsInv(s1, CAwaitHead);
      var rest := DrainNonEmpty(s2);
      PrependStep(s1, CAwaitHead, rest);
      steps := [CAwaitHead] + rest;
    }
    PrependStep(s, step, steps);
    steps := [step] + steps;
  }

  // -------------------------------------------------------------------------- Enqueue

  /** What frees the mutex, if it is held. */
  function FreeStep(s: State, otherwise: Step): Step {
    match s.mutex
    case Free => otherwise
    case ByProducer(op) => PUnlock(op)
    case ByConsumer => if s.con.Publish? then CPublish else if s.con.Cas? then CCas(false)
                       else if s.con.Enter? then CEnter else CUnlock
  }

  function HeldFor(s: State): nat {
    match s.mutex
    case Free => 0
    case ByProducer(_) => 1
    case ByConsumer => if s.con.Publish? then 3 else if s.con.Cas? then 2 else 1
  }

  function EnqueueStep(s: State, op: OpId): Step
    requires op in s.ops && s.ops[op].pc !in {Returned, Faulted}
  {
    match s.ops[op].pc
    case Cleared => PSwap(op)
    case Swapped => PLink(op)
    case Linked => PSignal(op)
    case Locking => FreeStep(s, PLock(op))
    case Unlocking => PUnlock(op)
    case _ => PNotify(op)
  }

  function EnqueueRank(s: State, op: OpId): nat
    requires op in s.ops
  {
    match s.ops[op].pc
    case Cleared => 10
    case Swapped => 9
    case Linked => 8
    case Locking => 4 + HeldFor(s)
    case Unlocking => 2
    case Notifying => 1
    case _ => 0
  }

  lemma EnqueueStepNears(s: State, op: OpId)
    requires Mutex(s) && op in s.ops && Signalling(s, op) && s.ops[op].pc != Returned
    ensures var step := EnqueueStep(s, op);
      && Enabled(s, step) && !step.CCall? && op in Apply(s, step).ops
      && EnqueueRank(Apply(s, step), op) < EnqueueRank(s, op)
  {}

  lemma EnqueueStepAdvances(s: State, op: OpId)
    requires Inv(s) && op in s.ops && s.ops[op].pc !in {Returned, Faulted}
    ensures var step := EnqueueStep(s, op);
      && Enabled(s, step) && !step.CCall? && op in Apply(s, step).ops && Inv(Apply(s, step))
      && EnqueueRank(Apply(s, step), op) < EnqueueRank(s, op)
  {
    assert Sound(s, op);
    EnqueueStepNears(s, op);
    StepKeepsInv(s, EnqueueStep(s, op));
  }

  /** An Enqueue under way is never stuck: some run without a new call lets it return. */
  lemma {:induction false} EnqueueReturns(s: State, op: OpId) returns (steps: seq<Step>)
    requires Inv(s) && op in s.ops
    ensures CanRun(s, steps) && NoCall(steps) && IsAt(Run(s, steps), op, Returned)
    decreases EnqueueRank(s, op)
  {
    steps := [];
    if s.ops[op].pc != Returned {
      assert Sound(s, op);
      var step := EnqueueStep(s, op);
      EnqueueStepAdvances(s, op);
      var rest := EnqueueReturns(Apply(s, step), op);
      PrependStep(s, step, rest);
      steps := [step] + rest;
    }
  }
}
