/** What the queue guarantees in every interleaving. */
module MpscGuarantees {
  import opened Common
  import opened MpscQueue
  import opened MpscInvariant

  /**
    In every interleaving, what the consumer's callers received is exactly the prefix of the
    enqueued elements in tail-exchange order: nothing lost, repeated or reordered, and every
    list handed out ends in null.
   */
  lemma {:induction false} DeliveredInOrder(steps: seq<Step>)
    requires CanRun(INIT, steps)
    ensures var s := Run(INIT, steps);
      && s.taken <= |s.order|
      && Handed(s.returned) + Elements(s.order[s.taken..]) == Elements(s.order)
      && forall d :: d in s.returned ==> d.nullEnded
  {
    InitInv();
    RunKeepsInv(INIT, steps);
    var s := Run(INIT, steps);
    assert Elements(s.order[..s.taken]) + Elements(s.order[s.taken..]) == Elements(s.order);
  }

  /**
    No lost wakeup. While the consumer sleeps, or holds the mutex on its way to sleep, and a
    producer has replaced the Asleep sentinel, some producer still owes a notify; it cannot
    have passed the waiter's mutex before the consumer released it by waiting. No producer
    ever dereferences a null signal.
   */
  lemma {:induction false} NoLostWakeup(steps: seq<Step>)
    requires CanRun(INIT, steps)
    ensures var s := Run(INIT, steps);
      && (s.con.Enter? && !s.tail.Asleep? ==> OwesLock(s, s.waker) && s.mutex == ByConsumer)
      && (s.con.Blocked? && !s.tail.Asleep? ==> OwesNotify(s, s.waker) && s.mutex != ByConsumer)
      && (s.con.Blocked? && s.tail.Asleep? ==> s.taken == |s.order|)
      && forall p :: p in s.ops ==> s.ops[p].pc != Faulted
  {
    InitInv();
    RunKeepsInv(INIT, steps);
    var s := Run(INIT, steps);
    forall p | p in s.ops ensures s.ops[p].pc != Faulted { assert Sound(s, p); }
  }

  lemma PrependStep(s: State, step: Step, steps: seq<Step>)
    requires Enabled(s, step) && CanRun(Apply(s, step), steps)
    ensures CanRun(s, [step] + steps) && Run(s, [step] + steps) == Run(Apply(s, step), steps)
  {
    assert ([step] + steps)[1..] == steps;
  }

  /** Distance of a waking producer from its notify, counting a mutex it must first get free. */
  function WakeRank(s: State): nat {
    var mutex := if s.mutex.Free? then 0 else 1;
    if s.waker !in s.ops then 0
    else match s.ops[s.waker].pc
      case Swapped => 11
      case Linked => 9
      case Locking => 6 + mutex
      case Unlocking => 4
      case Notifying => 2
      case _ => 0
  }

  /** The next step towards the owed notify. */
  function WakeStep(s: State): Step
    requires s.waker in s.ops
  {
    match s.ops[s.waker].pc
    case Swapped => PLink(s.waker)
    case Linked => PSignal(s.waker)
    case Locking => if s.mutex.ByProducer? then PUnlock(s.mutex.op) else PLock(s.waker)
    case Unlocking => PUnlock(s.waker)
    case _ => PNotify(s.waker)
  }

  lemma WakeStepEnabled(s: State)
    requires Mutex(s) && Wakeup(s) && s.con.Blocked? && !s.tail.Asleep?
    ensures s.waker in s.ops && ByCaller(WakeStep(s)) && Enabled(s, WakeStep(s))
  {}

  lemma WakeRankFalls(s: State)
    requires Mutex(s) && Wakeup(s) && s.con.Blocked? && !s.tail.Asleep? && s.waker in s.ops && Signalling(s, s.waker)
    requires Enabled(s, WakeStep(s))
    ensures var t := Apply(s, WakeStep(s));
      t.con.Relock? || (t.con.Blocked? && !t.tail.Asleep? && WakeRank(t) < WakeRank(s))
  {}

  lemma WakeStepAdvances(s: State)
    requires Inv(s) && s.con.Blocked? && !s.tail.Asleep?
    ensures s.waker in s.ops && ByCaller(WakeStep(s)) && Enabled(s, WakeStep(s))
    ensures var t := Apply(s, WakeStep(s));
      Inv(t) && (t.con.Relock? || (t.con.Blocked? && !t.tail.Asleep? && WakeRank(t) < WakeRank(s)))
  {
    WakeStepEnabled(s);
    assert Sound(s, s.waker);
    WakeRankFalls(s);
    StepKeepsInv(s, WakeStep(s));
  }

  /**
    A sleeping consumer whose sentinel was replaced can be woken by producer steps alone:
    no state is stuck with the consumer asleep and an element in the queue.
   */
  lemma {:induction false} SleeperIsWoken(s: State) returns (steps: seq<Step>)
    requires Inv(s) && s.con.Blocked? && !s.tail.Asleep?
    ensures CanRun(s, steps) && Run(s, steps).con.Relock?
    ensures forall i :: 0 <= i < |steps| ==> ByCaller(steps[i])
    decreases WakeRank(s)
  {
    var step := WakeStep(s);
    WakeStepAdvances(s);
    var t := Apply(s, step);
    if t.con.Relock? {
      steps := [step];
      PrependStep(s, step, []);
      assert [step] + [] == [step];
    } else {
      var rest := SleeperIsWoken(t);
      PrependStep(s, step, rest);
      steps := [step] + rest;
    }
  }

  ghost predicate AllLinked(s: State) { forall p :: p in s.ops ==> s.ops[p].pc != Swapped }

  /** With no link pending the walk advances, and stops only at the detached tail. */
  lemma WalkAdvances(s: State)
    requires Inv(s) && s.con.Walk? && AllLinked(s) && Some(s.con.x) != s.con.last
    ensures s.con.k + 1 < s.cut
    ensures WalkOne(s) == s.(con := s.con.(x := s.order[s.con.k + 1].x, k := s.con.k + 1))
  {
    assert LinkAt(s, s.con.k + 1) && !Unlinked(s, s.con.k + 1);
  }

  lemma {:induction false} WalkToTheEnd(s: State) returns (steps: seq<Step>)
    requires Inv(s) && s.con.Walk? && AllLinked(s)
    ensures CanRun(s, steps)
    ensures Run(s, steps) == s.(con := Idle, taken := s.cut,
      returned := s.returned + [Delivery(Elements(s.order[s.taken..s.cut]), true)])
    decreases s.cut - s.con.k
  {
    var rest := [];
    if Some(s.con.x) == s.con.last {
      ReturnedList(s);
    } else {
      WalkAdvances(s);
      AdvanceKeepsInv(s);
      rest := WalkToTheEnd(WalkOne(s));
    }
    PrependStep(s, CWalk, rest);
    steps := [CWalk] + rest;
  }

  lemma {:induction false} DrainNonEmpty(s: State) returns (steps: seq<Step>)
    requires Inv(s) && s.con.Take? && AllLinked(s)
    ensures CanRun(s, steps)
    ensures var t := Run(s, steps);
      && t.con.Idle? && t.order == s.order && t.taken == |s.order|
      && t.returned == s.returned + [Delivery(Elements(s.order[s.taken..]), true)]
  {
    var s1 := TakeHead(s);
    TakeKeepsInv(s);
    var s2 := DetachAll(s1);
    DetachKeepsInv(s1);
    var rest := WalkToTheEnd(s2);
    PrependStep(s1, CDetach, rest);
    PrependStep(s, CTake, [CDetach] + rest);
    steps := [CTake] + ([CDetach] + rest);
    assert s.order[s.taken..s2.cut] == s.order[s.taken..];
  }

  /**
    Nothing is lost: once every pending link store is done, one DequeueAll by an idle consumer
    hands over everything enqueued and not yet taken, in order.
   */
  lemma {:induction false} DrainTakesEverything(s: State) returns (steps: seq<Step>)
    requires Inv(s) && s.con.Idle? && AllLinked(s)
    ensures CanRun(s, steps)
    ensures var t := Run(s, steps);
      && t.con.Idle? && t.order == s.order && t.taken == |s.order|
      && t.returned == s.returned + [Delivery(Elements(s.order[s.taken..]), true)]
  {
    var s1 := Apply(s, CCall(DequeueAll(false)));
    WaitStepKeepsInv(s, CCall(DequeueAll(false)));
    var s2 := Apply(s1, CPeek);
    PeekKeepsInv(s1);
    if s.cut == |s.order| {
      steps := [];
      assert s2.returned == s.returned + [Delivery([], true)];
    } else {
      assert !Unlinked(s, s.cut);
      steps := DrainNonEmpty(s2);
    }
    PrependStep(s1, CPeek, steps);
    PrependStep(s, CCall(DequeueAll(false)), [CPeek] + steps);
    steps := [CCall(DequeueAll(false))] + ([CPeek] + steps);
  }

  /** The consumer is inside an Abandon that has not yet written the tail. */
  predicate Abandoning(c: Consumer) {
    c.TryAbandon? || c.AwaitHead? || ((c.Take? || c.Detach?) && c.call.Abandon?)
  }

  /** `n` elements were enqueued when the queue was abandoned; since then exactly one was refused. */
  ghost predicate RefusedOnce(s: State, n: nat) {
    && !Abandoning(s.con) && n <= |s.order|
    && (s.tail.Abandoned? <==> |s.order| == n)
    && forall i :: n <= i < |s.order| ==> (s.order[i].accepted <==> i != n)
  }

  lemma ProducerKeepsRefusedOnce(s: State, step: Step, n: nat)
    requires RefusedOnce(s, n) && Enabled(s, step) && ByCaller(step)
    ensures RefusedOnce(Apply(s, step), n)
  {}

  lemma ConsumerKeepsRefusedOnce(s: State, step: Step, n: nat)
    requires Ends(s) && s.taken == s.cut <= |s.order| && RefusedOnce(s, n) && Enabled(s, step)
    requires !ByCaller(step) && step != CCall(Abandon) && (Holding(s.con) ==> s.cut < |s.order|)
    requires !s.con.Walk?
    ensures RefusedOnce(Apply(s, step), n)
  {}

  lemma StepKeepsRefusedOnce(s: State, step: Step, n: nat)
    requires Inv(s) && RefusedOnce(s, n) && Enabled(s, step) && step != CCall(Abandon)
    ensures RefusedOnce(Apply(s, step), n)
  {
    if ByCaller(step) { ProducerKeepsRefusedOnce(s, step, n); }
    else if !s.con.Walk? { ConsumerKeepsRefusedOnce(s, step, n); }
  }

  /**
    After Abandon writes the tail, exactly the first later tail exchange makes its Enqueue
    return false, until Abandon is called again.
   */
  lemma {:induction false} ExactlyFirstIsRefused(s: State, steps: seq<Step>)
    requires Inv(s) && s.tail.Abandoned? && !Abandoning(s.con)
    requires CanRun(s, steps) && CCall(Abandon) !in steps
    ensures var t := Run(s, steps);
      && |s.order| <= |t.order|
      && forall i :: |s.order| <= i < |t.order| ==> (t.order[i].accepted <==> i != |s.order|)
  {
    RefusedOnceAlong(s, steps, |s.order|);
  }

  lemma {:induction false} RefusedOnceAlong(s: State, steps: seq<Step>, n: nat)
    requires Inv(s) && RefusedOnce(s, n) && CanRun(s, steps) && CCall(Abandon) !in steps
    ensures RefusedOnce(Run(s, steps), n)
    decreases |steps|
  {
    if steps != [] {
      StepKeepsInv(s, steps[0]);
      StepKeepsRefusedOnce(s, steps[0], n);
      RefusedOnceAlong(Apply(s, steps[0]), steps[1..], n);
    }
  }

  lemma {:induction false} Concatenate(s: State, a: seq<Step>, b: seq<Step>)
    requires CanRun(s, a) && CanRun(Run(s, a), b)
    ensures CanRun(s, a + b) && Run(s, a + b) == Run(Run(s, a), b)
    decreases |a|
  {
    if a == [] {
      assert a + b == b;
    } else {
      Concatenate(Apply(s, a[0]), a[1..], b);
      PrependStep(s, a[0], a[1..] + b);
      assert a + b == [a[0]] + (a[1..] + b);
    }
  }

  lemma TwoSteps(s: State, a: Step, b: Step)
    requires Enabled(s, a) && Enabled(Apply(s, a), b)
    ensures CanRun(s, [a, b]) && Run(s, [a, b]) == Apply(Apply(s, a), b)
  {
    PrependStep(Apply(s, a), b, []);
    PrependStep(s, a, [b] + []);
    assert [a] + ([b] + []) == [a, b];
  }

  /** One element enqueued, nothing else done. */
  const ONE_QUEUED := State(map[1 := None], Some(1), Tail.At(1), false, Free,
                            map[1 := Producer(1, Empty, 0, Returned)], Idle,
                            [Entry(1, 1, true)], 0, 0, 0, [])

  /** An Abandon that has just detached it. */
  const DETACHED := ONE_QUEUED.(head := None, tail := Tail.Abandoned, con := Walk(Abandon, 1, 1, Some(1), 0), cut := 1)

  lemma ReachOneQueued() returns (steps: seq<Step>)
    ensures CanRun(INIT, steps) && Run(INIT, steps) == ONE_QUEUED
  {
    var s2 := Swap(Start(INIT, 1, 1), 1);
    TwoSteps(INIT, PStart(1, 1), PSwap(1));
    PrependStep(s2, PLink(1), []);
    assert Link(s2, 1) == ONE_QUEUED;
    steps := [PStart(1, 1), PSwap(1)] + ([PLink(1)] + []);
    Concatenate(INIT, [PStart(1, 1), PSwap(1)], [PLink(1)] + []);
  }

  /** Abandon holding the head it has taken. */
  const HOLDING := ONE_QUEUED.(head := None, con := Detach(Abandon, 1))

  lemma ReachHolding() returns (steps: seq<Step>)
    ensures CanRun(ONE_QUEUED, steps) && Run(ONE_QUEUED, steps) == HOLDING
  {
    var s := ONE_QUEUED.(con := AwaitHead);
    TwoSteps(ONE_QUEUED, CCall(Abandon), CTryAbandon(false));
    TwoSteps(s, CAwaitHead, CTake);
    steps := [CCall(Abandon), CTryAbandon(false)] + [CAwaitHead, CTake];
    Concatenate(ONE_QUEUED, [CCall(Abandon), CTryAbandon(false)], [CAwaitHead, CTake]);
  }

  lemma ReachDetached() returns (steps: seq<Step>)
    ensures CanRun(ONE_QUEUED, steps) && Run(ONE_QUEUED, steps) == DETACHED
  {
    var first := ReachHolding();
    PrependStep(HOLDING, CDetach, []);
    steps := first + ([CDetach] + []);
    Concatenate(ONE_QUEUED, first, [CDetach] + []);
  }

  /**
    The refused exchange may come before Abandon returns. Here the second Enqueue is refused while
    Abandon still walks the list it detached; Abandon then returns, and the next Enqueue is accepted.
   */
  lemma RefusalCanComeEarly() returns (a: seq<Step>, b: seq<Step>, c: seq<Step>)
    ensures CanRun(INIT, a) && Run(INIT, a) == DETACHED
    ensures CanRun(DETACHED, b) && Run(DETACHED, b).con.Idle? && |Run(DETACHED, b).returned| == 1
    ensures CanRun(Run(DETACHED, b), c)
    ensures var t, u := Run(DETACHED, b), Run(Run(DETACHED, b), c);
      && |t.order| == 2 && !t.order[1].accepted
      && |u.order| == 3 && u.order[2].accepted
  {
    var a1 := ReachOneQueued();
    var a2 := ReachDetached();
    Concatenate(INIT, a1, a2);
    a := a1 + a2;
    b := RefusedWhileWalking();
    c := AcceptedAfterwards(Run(DETACHED, b));
  }

  lemma RefusedWhileWalking() returns (b: seq<Step>)
    ensures CanRun(DETACHED, b)
    ensures var t := Run(DETACHED, b);
      && t.con.Idle? && |t.returned| == 1 && t.tail == Tail.At(2)
      && t.order == [Entry(1, 1, true), Entry(2, 2, false)] && 3 !in t.ops && Owned(t, 3)
  {
    var s2 := Swap(Start(DETACHED, 2, 2), 2);
    TwoSteps(DETACHED, PStart(2, 2), PSwap(2));
    var c := FinishWalk(s2);
    b := [PStart(2, 2), PSwap(2)] + c;
    Concatenate(DETACHED, [PStart(2, 2), PSwap(2)], c);
  }

  lemma FinishWalk(s: State) returns (c: seq<Step>)
    requires s.con == Walk(Abandon, 1, 1, Some(1), 0)
    requires s.order == [Entry(1, 1, true), Entry(2, 2, false)] && s.taken == 0
    requires s.next == map[1 := None, 2 := None] && s.returned == [] && s.tail == Tail.At(2)
    requires s.ops.Keys == {1, 2} && s.ops[1].pc == Returned && s.ops[2].x == 2
    ensures CanRun(s, c)
    ensures var t := Run(s, c);
      && t.con.Idle? && |t.returned| == 1 && t.tail == Tail.At(2) && t.order == s.order && 3 !in t.ops && Owned(t, 3)
  {
    c := [CWalk] + [];
    PrependStep(s, CWalk, []);
  }

  lemma AcceptedAfterwards(t: State) returns (c: seq<Step>)
    requires 3 !in t.ops && Owned(t, 3) && t.tail != Tail.Abandoned && |t.order| == 2
    ensures CanRun(t, c) && |Run(t, c).order| == 3 && Run(t, c).order[2].accepted
  {
    c := [PStart(3, 3), PSwap(3)];
    TwoSteps(t, PStart(3, 3), PSwap(3));
  }
}
