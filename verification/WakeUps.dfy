/** Any number of producers and consumers on one `BlockingQueue`: the mutex makes each critical
    section one step, while a wait, a wake-up and the `notify_one` after the unlocked block are
    steps of their own. */
module WakeUps {
  import opened QueueSpec

  /** Where a thread is.  `timed` tells `pop_for` from `pop`. */
  datatype Pc =
    | Idle
    | PushTry | PushAsleep | PushWoken
    | OwesEmpty  // has inserted, has not yet called emptyCondition.notify_one()
    | PopTry(timed: bool) | PopAsleep(timed: bool) | PopWoken(timed: bool)
    | OwesFull   // has popped, has not yet called fullCondition.notify_one()

  datatype Sys<T(==)> = Sys(q: QState<T>, threads: seq<Pc>)

  datatype Event<T> =
    | CallPush(i: nat)
    | CallPop(i: nat, timed: bool)
    | PriorityStep(i: nat, x: T)
    | PushStep(i: nat, x: T)       // test the predicate under the lock: insert or fall asleep
    | PopStep(i: nat, x: T)        // test the predicate under the lock: take x or fall asleep
    | Timeout(i: nat, x: T)        // the deadline of pop_for: take x if there is one, else give up
    | NotifyEmpty(i: nat, j: nat)  // notify_one picks the sleeper j when there is one
    | NotifyFull(i: nat, j: nat)
    | Spurious(i: nat)

  /** What a thread contributes to the wake-up accounts. */
  datatype Role =
    | SleepingConsumer | WokenConsumer | PendingEmpty | SleepingProducer | WokenProducer | PendingFull | Other

  function RoleOf(pc: Pc): Role {
    match pc
    case PopAsleep(_) => SleepingConsumer
    case PopWoken(_) => WokenConsumer
    case OwesEmpty => PendingEmpty
    case PushAsleep => SleepingProducer
    case PushWoken => WokenProducer
    case OwesFull => PendingFull
    case _ => Other
  }

  function Count(ts: seq<Pc>, r: Role): nat {
    if ts == [] then 0 else (if RoleOf(ts[0]) == r then 1 else 0) + Count(ts[1..], r)
  }

  lemma {:induction false} CountUpdate(ts: seq<Pc>, i: nat, pc: Pc, r: Role)
    requires i < |ts|
    ensures Count(ts[i := pc], r) ==
            Count(ts, r) - (if RoleOf(ts[i]) == r then 1 else 0) + (if RoleOf(pc) == r then 1 else 0)
  {
    if i > 0 {
      assert ts[i := pc][1..] == ts[1..][i - 1 := pc];
      CountUpdate(ts[1..], i - 1, pc, r);
    } else {
      assert ts[i := pc][1..] == ts[1..];
    }
  }

  lemma {:induction false} CountZero(ts: seq<Pc>, r: Role)
    ensures Count(ts, r) == 0 <==> forall i :: 0 <= i < |ts| ==> RoleOf(ts[i]) != r
  {
    if ts != [] {
      CountZero(ts[1..], r);
      assert forall i :: 1 <= i < |ts| ==> ts[i] == ts[1..][i - 1];
    }
  }

  predicate SomeAsleep(ts: seq<Pc>, r: Role) {
    exists i :: 0 <= i < |ts| && RoleOf(ts[i]) == r
  }

  /** Wakes the chosen sleeper: the effect of `notify_one`, or of a spurious wake-up. */
  function Wake(pc: Pc): Pc {
    match pc
    case PopAsleep(timed) => PopWoken(timed)
    case PushAsleep => PushWoken
    case _ => pc
  }

  ghost predicate Possible<T>(s: Sys<T>, e: Event<T>) {
    && e.i < |s.threads|
    && var pc := s.threads[e.i];
       match e
       case CallPush(_) => pc.Idle?
       case CallPop(_, _) => pc.Idle?
       case PriorityStep(_, _) => pc.Idle?
       case PushStep(_, _) => pc.PushTry? || pc.PushWoken?
       case PopStep(_, x) => (pc.PopTry? || pc.PopWoken?) && (s.q.Items() > 0 ==> CanPop(s.q, x))
       case Timeout(_, x) =>
         (pc.PopTry? || pc.PopAsleep? || pc.PopWoken?) && pc.timed && (s.q.Items() > 0 ==> CanPop(s.q, x))
       case NotifyEmpty(_, j) =>
         && pc.OwesEmpty?
         && (SomeAsleep(s.threads, SleepingConsumer) ==> j < |s.threads| && s.threads[j].PopAsleep?)
       case NotifyFull(_, j) =>
         && pc.OwesFull?
         && (SomeAsleep(s.threads, SleepingProducer) ==> j < |s.threads| && s.threads[j].PushAsleep?)
       case Spurious(_) => pc.PopAsleep? || pc.PushAsleep?
  }

  /** The operation of the queue that an event performs, if it performs one. */
  ghost function OpOf<T>(s: Sys<T>, e: Event<T>): seq<Op<T>>
    requires Possible(s, e)
  {
    match e
    case PriorityStep(_, x) => [PriorityOp(x)]
    case PushStep(_, x) => if |s.q.queue| < s.q.max then [PushOp(x)] else []
    case PopStep(_, x) => if s.q.Items() > 0 then [PopOp(x)] else []
    case Timeout(_, x) => if s.q.Items() > 0 then [PopOp(x)] else []
    case _ => []
  }

  ghost function Step<T>(s: Sys<T>, e: Event<T>): Sys<T>
    requires Possible(s, e)
  {
    var pc := s.threads[e.i];
    match e
    case CallPush(i) => s.(threads := s.threads[i := PushTry])
    case CallPop(i, timed) => s.(threads := s.threads[i := PopTry(timed)])
    case PriorityStep(i, x) =>
      var (q, ok) := PriorityPush(s.q, x);
      Sys(q, s.threads[i := if ok then OwesEmpty else Idle])
    case PushStep(i, x) =>
      if |s.q.queue| < s.q.max then
        var (q, ok) := Push(s.q, x);
        Sys(q, s.threads[i := if ok then OwesEmpty else Idle])
      else s.(threads := s.threads[i := PushAsleep])
    case PopStep(i, x) =>
      if s.q.Items() > 0 then
        var (q, ok) := Pop(s.q, x);
        Sys(q, s.threads[i := if ok then OwesFull else Idle])
      else s.(threads := s.threads[i := PopAsleep(pc.timed)])
    case Timeout(i, x) =>
      if s.q.Items() > 0 then
        var (q, ok) := Pop(s.q, x);
        Sys(q, s.threads[i := if ok then OwesFull else Idle])
      else s.(threads := s.threads[i := Idle])
    case NotifyEmpty(i, j) =>
      var ts := if SomeAsleep(s.threads, SleepingConsumer) then s.threads[j := Wake(s.threads[j])] else s.threads;
      s.(threads := ts[i := Idle])
    case NotifyFull(i, j) =>
      var ts := if SomeAsleep(s.threads, SleepingProducer) then s.threads[j := Wake(s.threads[j])] else s.threads;
      s.(threads := ts[i := Idle])
    case Spurious(i) => s.(threads := s.threads[i := Wake(pc)])
  }

  /** The events are possible one after the other, and `t` is where they lead. */
  ghost predicate Run<T>(s: Sys<T>, es: seq<Event<T>>, t: Sys<T>)
    decreases |es|
  {
    if es == [] then s == t else Possible(s, es[0]) && Run(Step(s, es[0]), es[1..], t)
  }

  /** The queue operations of a run, in the order in which the lock was held. */
  ghost function Linearised<T>(s: Sys<T>, es: seq<Event<T>>): seq<Op<T>>
    decreases |es|
  {
    if es == [] || !Possible(s, es[0]) then [] else OpOf(s, es[0]) + Linearised(Step(s, es[0]), es[1..])
  }

  /** Whenever a consumer sleeps, the elements are covered by consumers already woken or by
      notifications still to come. */
  predicate ConsumersCovered<T>(s: Sys<T>) {
    Count(s.threads, SleepingConsumer) > 0 ==>
      s.q.Items() <= Count(s.threads, WokenConsumer) + Count(s.threads, PendingEmpty)
  }

  /** Whenever a producer sleeps, the free slots are covered likewise. */
  predicate ProducersCovered<T>(s: Sys<T>) {
    Count(s.threads, SleepingProducer) > 0 ==>
      s.q.max - |s.q.queue| <= Count(s.threads, WokenProducer) + Count(s.threads, PendingFull)
  }

  predicate NoLostWakeUp<T>(s: Sys<T>) {
    ConsumersCovered(s) && ProducersCovered(s)
  }

  /** Everybody idle, nothing queued. */
  predicate Start<T>(s: Sys<T>) {
    && s.q == QueueSpec.Empty(s.q.max, s.q.capacity)
    && forall i :: 0 <= i < |s.threads| ==> s.threads[i] == Idle
  }

  lemma StartInv<T>(s: Sys<T>)
    requires Start(s)
    ensures s.q.Valid() && s.q.Balanced() && NoLostWakeUp(s)
  {
    CountZero(s.threads, SleepingConsumer);
    CountZero(s.threads, SleepingProducer);
  }

  /** Effect of one event on every account. */
  lemma StepCounts<T>(s: Sys<T>, e: Event<T>, r: Role)
    requires Possible(s, e)
    ensures var t := Step(s, e);
      var woken := if e.NotifyEmpty? && SomeAsleep(s.threads, SleepingConsumer) then [e.j]
                   else if e.NotifyFull? && SomeAsleep(s.threads, SleepingProducer) then [e.j] else [];
      && |t.threads| == |s.threads|
      && Count(t.threads, r) == Count(s.threads, r)
           - (if RoleOf(s.threads[e.i]) == r then 1 else 0) + (if RoleOf(t.threads[e.i]) == r then 1 else 0)
           + (if woken == [] then 0
              else (if RoleOf(Wake(s.threads[woken[0]])) == r then 1 else 0)
                   - (if RoleOf(s.threads[woken[0]]) == r then 1 else 0))
  {
    var t := Step(s, e);
    var wakesConsumer := e.NotifyEmpty? && SomeAsleep(s.threads, SleepingConsumer);
    var wakesProducer := e.NotifyFull? && SomeAsleep(s.threads, SleepingProducer);
    if wakesConsumer || wakesProducer {
      CountUpdate(s.threads, e.j, Wake(s.threads[e.j]), r);
      var ts := s.threads[e.j := Wake(s.threads[e.j])];
      CountUpdate(ts, e.i, Idle, r);
      assert t.threads == ts[e.i := Idle];
    } else {
      CountUpdate(s.threads, e.i, t.threads[e.i], r);
      assert t.threads == s.threads[e.i := t.threads[e.i]];
    }
  }

  lemma QueueOfStep<T>(s: Sys<T>, e: Event<T>)
    requires Possible(s, e)
    ensures History(s.q, OpOf(s, e), Step(s, e).q)
  {
    var op := OpOf(s, e);
    if op != [] {
      assert op[1..] == [];
    }
  }

  /** What an operation does to the number of elements, announced or not. */
  lemma StepItems<T>(q: QState<T>, op: Op<T>)
    requires Enabled(q, op)
    ensures Do(q, op).0.Items() == if op.PopOp? then q.Items() - 1 else q.Items() + 1
    ensures |Do(q, op).0.queue| ==
            |q.queue| + (if op.PushOp? then 1 else if op.PopOp? && |q.priority| == 0 then -1 else 0)
    ensures Do(q, op).1 <==> if op.PopOp? then q.pipe > 0 else q.pipe < q.capacity
  {
    match op {
      case PushOp(x) =>
      case PriorityOp(x) => assert |q.priority + multiset{x}| == |q.priority| + 1;
      case PopOp(x) =>
        if |q.priority| > 0 {
          assert |q.priority - multiset{x}| == |q.priority| - 1;
        }
    }
  }

  /** The event is a push that finds the pipe full, with a consumer asleep and nobody to see to the new
      element; or a pop from the FIFO that finds the pipe empty, with a producer asleep and nobody to
      see to the new slot.  Such an operation throws before it notifies. */
  ghost predicate LosesWakeUp<T>(s: Sys<T>, e: Event<T>)
    requires Possible(s, e)
  {
    var op := OpOf(s, e);
    && op != []
    && if op[0].PopOp? then
         && s.q.pipe == 0 && |s.q.priority| == 0 && Count(s.threads, SleepingProducer) > 0
         && s.q.max - |s.q.queue| + 1 > Count(s.threads, WokenProducer) + Count(s.threads, PendingFull)
       else
         && s.q.pipe >= s.q.capacity && Count(s.threads, SleepingConsumer) > 0
         && s.q.Items() + 1 > Count(s.threads, WokenConsumer) + Count(s.threads, PendingEmpty)
  }

  /** Where an operation leaves its thread: with a notification to make if the pipe played its part. */
  lemma ActorAfterOperation<T>(s: Sys<T>, e: Event<T>, r: Role)
    requires Possible(s, e) && OpOf(s, e) != []
    ensures var op := OpOf(s, e)[0];
      var pc := if !Do(s.q, op).1 then Idle else if op.PopOp? then OwesFull else OwesEmpty;
      && Step(s, e) == Sys(Do(s.q, op).0, s.threads[e.i := pc])
      && Count(Step(s, e).threads, r) ==
         Count(s.threads, r) - (if RoleOf(s.threads[e.i]) == r then 1 else 0) + (if RoleOf(pc) == r then 1 else 0)
  {
    CountUpdate(s.threads, e.i, Step(s, e).threads[e.i], r);
  }

  lemma QuietStepKeepsConsumers<T>(s: Sys<T>, e: Event<T>)
    requires ConsumersCovered(s) && Possible(s, e) && OpOf(s, e) == []
    ensures ConsumersCovered(Step(s, e))
  {
    StepCounts(s, e, SleepingConsumer);
    StepCounts(s, e, WokenConsumer);
    StepCounts(s, e, PendingEmpty);
    CountZero(s.threads, SleepingConsumer);
  }

  lemma QuietStepKeepsProducers<T>(s: Sys<T>, e: Event<T>)
    requires ProducersCovered(s) && Possible(s, e) && OpOf(s, e) == []
    ensures ProducersCovered(Step(s, e))
  {
    StepCounts(s, e, SleepingProducer);
    StepCounts(s, e, WokenProducer);
    StepCounts(s, e, PendingFull);
    CountZero(s.threads, SleepingProducer);
  }

  lemma ConsumersAfterOperation<T>(s: Sys<T>, e: Event<T>)
    requires NoLostWakeUp(s) && Possible(s, e) && OpOf(s, e) != []
    ensures ConsumersCovered(Step(s, e)) <==> !(LosesWakeUp(s, e) && !OpOf(s, e)[0].PopOp?)
  {
    ActorAfterOperation(s, e, SleepingConsumer);
    ActorAfterOperation(s, e, WokenConsumer);
    ActorAfterOperation(s, e, PendingEmpty);
    StepItems(s.q, OpOf(s, e)[0]);
  }

  lemma ProducersAfterOperation<T>(s: Sys<T>, e: Event<T>)
    requires NoLostWakeUp(s) && Possible(s, e) && OpOf(s, e) != []
    ensures ProducersCovered(Step(s, e)) <==> !(LosesWakeUp(s, e) && OpOf(s, e)[0].PopOp?)
  {
    ActorAfterOperation(s, e, SleepingProducer);
    ActorAfterOperation(s, e, WokenProducer);
    ActorAfterOperation(s, e, PendingFull);
    StepItems(s.q, OpOf(s, e)[0]);
  }

  /** Whatever the pipe holds, a step keeps the wake-up accounts exactly when it is not one that loses
      a wake-up. */
  lemma StepKeepsWakeUpsIff<T>(s: Sys<T>, e: Event<T>)
    requires NoLostWakeUp(s) && Possible(s, e)
    ensures NoLostWakeUp(Step(s, e)) <==> !LosesWakeUp(s, e)
  {
    if OpOf(s, e) == [] {
      QuietStepKeepsConsumers(s, e);
      QuietStepKeepsProducers(s, e);
    } else {
      ConsumersAfterOperation(s, e);
      ProducersAfterOperation(s, e);
    }
  }

  /** With every element announced, at most one operation keeps it so exactly when it fits the pipe. */
  lemma OneOperation<T>(q: QState<T>, ops: seq<Op<T>>, q': QState<T>)
    requires q.Valid() && q.Balanced() && |ops| <= 1 && History(q, ops, q')
    ensures q'.Valid() && (NoFault(q, ops) <==> StaysWithinPipe(q, ops))
    ensures q'.Balanced() <==> StaysWithinPipe(q, ops)
  {
    Conservation(q, ops, q');
    FaultFreeIffWithinPipe(q, ops, q');
    if ops != [] {
      assert ops[1..] == [];
      if ops[0].PopOp? {
        PopKeepsBalance(q, ops[0].x);
      } else {
        PushKeepsBalance(q, ops[0].x);
      }
    }
  }

  /** A step keeps every element announced exactly when it stays within the pipe, and then it loses
      no wake-up. */
  lemma StepWithinPipe<T>(s: Sys<T>, e: Event<T>)
    requires s.q.Valid() && s.q.Balanced() && Possible(s, e)
    ensures Step(s, e).q.Valid()
    ensures Step(s, e).q.Balanced() <==> StaysWithinPipe(s.q, OpOf(s, e))
    ensures StaysWithinPipe(s.q, OpOf(s, e)) ==> !LosesWakeUp(s, e)
  {
    QueueOfStep(s, e);
    OneOperation(s.q, OpOf(s, e), Step(s, e).q);
    if OpOf(s, e) != [] {
      StepItems(s.q, OpOf(s, e)[0]);
    }
  }

  // ---- whole runs ------------------------------------------------------------------------

  /** Every concurrent run is a sequential history of the queue, so conservation and order hold
      whatever the interleaving. */
  lemma {:induction false} RunLinearises<T>(s: Sys<T>, es: seq<Event<T>>, t: Sys<T>)
    requires Run(s, es, t)
    ensures History(s.q, Linearised(s, es), t.q)
    decreases |es|
  {
    if es != [] {
      var t', ops, rest := Step(s, es[0]), OpOf(s, es[0]), Linearised(Step(s, es[0]), es[1..]);
      RunLinearises(t', es[1..], t);
      QueueOfStep(s, es[0]);
      if ops == [] {
        assert ops + rest == rest;
      } else {
        assert ops[1..] == [] && (ops + rest)[1..] == rest;
      }
    }
  }

  /** The wake-up accounts hold in every state of the run. */
  ghost predicate CoveredThroughout<T>(s: Sys<T>, es: seq<Event<T>>)
    decreases |es|
  {
    NoLostWakeUp(s) && (es != [] && Possible(s, es[0]) ==> CoveredThroughout(Step(s, es[0]), es[1..]))
  }

  /** No event of the run loses a wake-up. */
  ghost predicate NothingLost<T>(s: Sys<T>, es: seq<Event<T>>)
    decreases |es|
  {
    es != [] && Possible(s, es[0]) ==> !LosesWakeUp(s, es[0]) && NothingLost(Step(s, es[0]), es[1..])
  }

  /** Every element is announced in every state of the run. */
  ghost predicate AnnouncedThroughout<T>(s: Sys<T>, es: seq<Event<T>>)
    decreases |es|
  {
    s.q.Balanced() && (es != [] && Possible(s, es[0]) ==> AnnouncedThroughout(Step(s, es[0]), es[1..]))
  }

  /** A run keeps the wake-up accounts in all its states exactly when none of its events loses a
      wake-up: any number of threads, timed and untimed waits, spurious wake-ups, any pipe. */
  lemma {:induction false} NoLostWakeUpIff<T>(s: Sys<T>, es: seq<Event<T>>, t: Sys<T>)
    requires NoLostWakeUp(s) && Run(s, es, t)
    ensures CoveredThroughout(s, es) <==> NothingLost(s, es)
    ensures NothingLost(s, es) ==> NoLostWakeUp(t)
    decreases |es|
  {
    if es != [] {
      StepKeepsWakeUpsIff(s, es[0]);
      if !LosesWakeUp(s, es[0]) {
        NoLostWakeUpIff(Step(s, es[0]), es[1..], t);
      }
    }
  }

  /** A run keeps every element announced in all its states exactly when it stays within the pipe; and
      then it loses no wake-up. */
  lemma {:induction false} AnnouncedIffWithinPipe<T>(s: Sys<T>, es: seq<Event<T>>, t: Sys<T>)
    requires s.q.Valid() && s.q.Balanced() && Run(s, es, t)
    ensures AnnouncedThroughout(s, es) <==> StaysWithinPipe(s.q, Linearised(s, es))
    ensures AnnouncedThroughout(s, es) ==> NothingLost(s, es) && t.q.Balanced()
    decreases |es|
  {
    if es != [] {
      var t', ops, rest := Step(s, es[0]), OpOf(s, es[0]), Linearised(Step(s, es[0]), es[1..]);
      QueueOfStep(s, es[0]);
      StepWithinPipe(s, es[0]);
      if ops == [] {
        assert ops + rest == rest;
      } else {
        assert ops[1..] == [] && (ops + rest)[1..] == rest;
      }
      if t'.q.Balanced() {
        AnnouncedIffWithinPipe(t', es[1..], t);
      }
    }
  }

  /** Nobody is between a wake-up and its test, or between an operation and its notification. */
  predicate Quiescent<T>(s: Sys<T>) {
    && Count(s.threads, WokenConsumer) == 0 && Count(s.threads, PendingEmpty) == 0
    && Count(s.threads, WokenProducer) == 0 && Count(s.threads, PendingFull) == 0
  }

  /** At rest nobody sleeps on a predicate that is true, and producers and consumers never
      sleep at the same time. */
  lemma {:induction false} QuiescentSleepersAreRight<T>(s: Sys<T>, es: seq<Event<T>>, t: Sys<T>)
    requires Start(s) && Run(s, es, t) && Quiescent(t)
    requires NothingLost(s, es) || StaysWithinPipe(s.q, Linearised(s, es))
    ensures SomeAsleep(t.threads, SleepingConsumer) ==> t.q.queue == [] && |t.q.priority| == 0
    ensures SomeAsleep(t.threads, SleepingProducer) ==> |t.q.queue| == t.q.max
    ensures t.q.max > 0 ==> !(SomeAsleep(t.threads, SleepingConsumer) && SomeAsleep(t.threads, SleepingProducer))
  {
    StartInv(s);
    AnnouncedIffWithinPipe(s, es, t);
    NoLostWakeUpIff(s, es, t);
    RunLinearises(s, es, t);
    Conservation(s.q, Linearised(s, es), t.q);
    CountZero(t.threads, SleepingConsumer);
    CountZero(t.threads, SleepingProducer);
  }

  // ---- each call acts once ----------------------------------------------------------------

  datatype Kind = Pushing | Popping | TimedPopping

  function PopKind(timed: bool): Kind {
    if timed then TimedPopping else Popping
  }

  /** The thread is in a call of this kind that has neither acted nor given up. */
  predicate Trying(pc: Pc, k: Kind) {
    match pc
    case PushTry => k == Pushing
    case PushAsleep => k == Pushing
    case PushWoken => k == Pushing
    case PopTry(timed) => k == PopKind(timed)
    case PopAsleep(timed) => k == PopKind(timed)
    case PopWoken(timed) => k == PopKind(timed)
    case _ => false
  }

  function Times(b: bool): nat {
    if b then 1 else 0
  }

  /** Thread i calls `push`, `pop` or `pop_for`. */
  predicate Calls<T>(e: Event<T>, i: nat, k: Kind) {
    e.i == i && ((e.CallPush? && k == Pushing) || (e.CallPop? && k == PopKind(e.timed)))
  }

  /** Thread i carries out the operation of its call, or its deadline passes on an empty queue. */
  ghost predicate Finishes<T>(s: Sys<T>, e: Event<T>, i: nat, k: Kind)
    requires Possible(s, e)
  {
    e.i == i && Trying(s.threads[i], k) && (OpOf(s, e) != [] || e.Timeout?)
  }

  ghost function Called<T>(es: seq<Event<T>>, i: nat, k: Kind): nat {
    if es == [] then 0 else Times(Calls(es[0], i, k)) + Called(es[1..], i, k)
  }

  ghost function Finished<T>(s: Sys<T>, es: seq<Event<T>>, i: nat, k: Kind): nat
    decreases |es|
  {
    if es == [] || !Possible(s, es[0]) then 0
    else Times(Finishes(s, es[0], i, k)) + Finished(Step(s, es[0]), es[1..], i, k)
  }

  lemma StepFinishesCalls<T>(s: Sys<T>, e: Event<T>, i: nat, k: Kind)
    requires Possible(s, e) && i < |s.threads|
    ensures |Step(s, e).threads| == |s.threads|
    ensures Times(Calls(e, i, k)) + Times(Trying(s.threads[i], k)) ==
            Times(Finishes(s, e, i, k)) + Times(Trying(Step(s, e).threads[i], k))
  {
  }

  /** Over every run each call of a thread ends by exactly one operation, or, for `pop_for` alone, by a
      deadline that passes on an empty queue; whatever waits, wake-ups and notifications come between. */
  lemma {:induction false} EachCallActsOnce<T>(s: Sys<T>, es: seq<Event<T>>, t: Sys<T>, i: nat, k: Kind)
    requires Run(s, es, t) && i < |s.threads|
    ensures |t.threads| == |s.threads|
    ensures Called(es, i, k) + Times(Trying(s.threads[i], k)) == Finished(s, es, i, k) + Times(Trying(t.threads[i], k))
    decreases |es|
  {
    if es != [] {
      StepFinishesCalls(s, es[0], i, k);
      EachCallActsOnce(Step(s, es[0]), es[1..], t, i, k);
    }
  }

  // ---- the pipe condition is needed ------------------------------------------------------

  ghost predicate Reaches(s: Sys<int>, t: Sys<int>) {
    exists es :: Run(s, es, t)
  }

  lemma {:induction false} RunGoesOn<T>(s: Sys<T>, es: seq<Event<T>>, t: Sys<T>, e: Event<T>)
    requires Run(s, es, t) && Possible(t, e)
    ensures Run(s, es + [e], Step(t, e))
    decreases |es|
  {
    if es == [] {
      assert ([] + [e])[1..] == [];
    } else {
      assert (es + [e])[1..] == es[1..] + [e];
      RunGoesOn(Step(s, es[0]), es[1..], t, e);
    }
  }

  lemma Goes(s: Sys<int>, t: Sys<int>, e: Event<int>)
    requires Reaches(s, t) && Possible(t, e)
    ensures Reaches(s, Step(t, e))
  {
    var es :| Run(s, es, t);
    RunGoesOn(s, es, t, e);
  }

  /** Thread 0 pushes and threads 1 to n pop: those up to `done` have finished, then those up to
      `woken` are woken, then those up to `asleep` sleep, and the others have not begun. */
  function Fleet(n: nat, done: nat, woken: nat, asleep: nat): (ts: seq<Pc>)
    ensures |ts| == n + 1
  {
    seq(n + 1, i =>
      if i <= done then Idle
      else if i <= woken then PopWoken(false)
      else if i <= asleep then PopAsleep(false)
      else Idle)
  }

  /** `m` equal elements in the bag, `pipe` of them announced. */
  function Bag(m: nat, pipe: nat, max: nat, capacity: nat): (q: QState<int>)
    ensures q.Items() == m
  {
    QState([], multiset{}[7 := m], pipe, max, capacity)
  }

  /** One consumer more falls asleep on the empty queue. */
  lemma FallsAsleep(s: Sys<int>, n: nat, k: nat, q: QState<int>)
    requires Reaches(s, Sys(q, Fleet(n, 0, 0, k))) && k < n && q.Items() == 0
    ensures Reaches(s, Sys(q, Fleet(n, 0, 0, k + 1)))
  {
    var t := Sys(q, Fleet(n, 0, 0, k));
    Goes(s, t, CallPop(k + 1, false));
    var u := Step(t, CallPop(k + 1, false));
    Goes(s, u, PopStep(k + 1, 7));
    assert Step(u, PopStep(k + 1, 7)).threads == Fleet(n, 0, 0, k + 1);
  }

  /** One announced element more wakes one consumer more. */
  lemma PushWakes(s: Sys<int>, n: nat, j: nat, max: nat, capacity: nat)
    requires j < capacity && j < n && Reaches(s, Sys(Bag(j, j, max, capacity), Fleet(n, 0, j, n)))
    ensures Reaches(s, Sys(Bag(j + 1, j + 1, max, capacity), Fleet(n, 0, j + 1, n)))
  {
    var t := Sys(Bag(j, j, max, capacity), Fleet(n, 0, j, n));
    Goes(s, t, PriorityStep(0, 7));
    assert Step(t, PriorityStep(0, 7)).q == Bag(j + 1, j + 1, max, capacity);
    NotificationWakes(s, n, j, Bag(j + 1, j + 1, max, capacity));
  }

  lemma NotificationWakes(s: Sys<int>, n: nat, j: nat, q: QState<int>)
    requires j < n && Reaches(s, Sys(q, Fleet(n, 0, j, n)[0 := OwesEmpty]))
    ensures Reaches(s, Sys(q, Fleet(n, 0, j + 1, n)))
  {
    var u := Sys(q, Fleet(n, 0, j, n)[0 := OwesEmpty]);
    assert u.threads[j + 1] == PopAsleep(false) && RoleOf(u.threads[j + 1]) == SleepingConsumer;
    Goes(s, u, NotifyEmpty(0, j + 1));
    assert Step(u, NotifyEmpty(0, j + 1)).threads == Fleet(n, 0, j + 1, n);
  }

  /** One woken consumer takes its element; no producer sleeps. */
  lemma WokenPops(s: Sys<int>, n: nat, d: nat, woken: nat, m: nat, pipe: nat, max: nat, capacity: nat)
    requires d < woken <= n && m > 0 && pipe > 0
    requires Reaches(s, Sys(Bag(m, pipe, max, capacity), Fleet(n, d, woken, n)))
    ensures Reaches(s, Sys(Bag(m - 1, pipe - 1, max, capacity), Fleet(n, d + 1, woken, n)))
  {
    var t := Sys(Bag(m, pipe, max, capacity), Fleet(n, d, woken, n));
    var u := Sys(Bag(m - 1, pipe - 1, max, capacity), Fleet(n, d, woken, n)[d + 1 := OwesFull]);
    assert CanPop(t.q, 7) && t.threads[d + 1] == PopWoken(false);
    assert Step(t, PopStep(d + 1, 7)) == u by {
      assert t.q.priority - multiset{7} == u.q.priority;
    }
    Goes(s, t, PopStep(d + 1, 7));
    FinishesPop(s, n, d, woken, u.q);
  }

  lemma FinishesPop(s: Sys<int>, n: nat, d: nat, woken: nat, q: QState<int>)
    requires d < woken <= n && Reaches(s, Sys(q, Fleet(n, d, woken, n)[d + 1 := OwesFull]))
    ensures Reaches(s, Sys(q, Fleet(n, d + 1, woken, n)))
  {
    var u := Sys(q, Fleet(n, d, woken, n)[d + 1 := OwesFull]);
    assert !SomeAsleep(u.threads, SleepingProducer);
    Goes(s, u, NotifyFull(d + 1, 0));
    assert Step(u, NotifyFull(d + 1, 0)).threads == Fleet(n, d + 1, woken, n);
  }

  /** The push that finds the pipe full: its element stays, its notification does not happen. */
  lemma PushOverflows(s: Sys<int>, n: nat, woken: nat, max: nat, capacity: nat)
    requires woken <= n && Reaches(s, Sys(Bag(capacity, capacity, max, capacity), Fleet(n, 0, woken, n)))
    ensures Reaches(s, Sys(Bag(capacity + 1, capacity, max, capacity), Fleet(n, 0, woken, n)))
  {
    var t := Sys(Bag(capacity, capacity, max, capacity), Fleet(n, 0, woken, n));
    Goes(s, t, PriorityStep(0, 7));
    var u := Step(t, PriorityStep(0, 7));
    assert u.q == Bag(capacity + 1, capacity, max, capacity);
    assert u.threads == Fleet(n, 0, woken, n);
  }

  lemma FleetRests(n: nat, done: nat, asleep: nat)
    ensures var t := Sys(Bag(1, 0, 0, 0), Fleet(n, done, done, asleep)); Quiescent(t)
    ensures done < asleep <= n ==> SomeAsleep(Fleet(n, done, done, asleep), SleepingConsumer)
  {
    var ts := Fleet(n, done, done, asleep);
    CountZero(ts, WokenConsumer);
    CountZero(ts, PendingEmpty);
    CountZero(ts, WokenProducer);
    CountZero(ts, PendingFull);
    assert done < asleep <= n ==> RoleOf(ts[done + 1]) == SleepingConsumer;
  }

  /** Without the pipe condition the property fails, however large the pipe and the queue: when one
      consumer more sleeps than the pipe has bytes, a push whose byte does not fit leaves its element
      behind but skips `notify_one`, and a consumer sleeps beside it with nobody about to wake it. */
  lemma OverflowLosesWakeUp(max: nat, capacity: nat) returns (s: Sys<int>, t: Sys<int>)
    ensures Start(s) && s.q.max == max && s.q.capacity == capacity
    ensures Reaches(s, t) && Quiescent(t) && SomeAsleep(t.threads, SleepingConsumer) && t.q.Items() == 1
  {
    var n := capacity + 1;
    s := Sys(QueueSpec.Empty(max, capacity), Fleet(n, 0, 0, 0));
    assert Run(s, [], s);
    AllFallAsleep(s, n, s.q);
    assert s.q == Bag(0, 0, max, capacity);
    PipeFillsUp(s, n, max, capacity);
    PushOverflows(s, n, capacity, max, capacity);
    WokenPopAll(s, n, max, capacity);
    t := Sys(Bag(1, 0, max, capacity), Fleet(n, capacity, capacity, n));
    FleetRests(n, capacity, n);
  }

  lemma AllFallAsleep(s: Sys<int>, n: nat, q: QState<int>)
    requires Reaches(s, Sys(q, Fleet(n, 0, 0, 0))) && q.Items() == 0
    ensures Reaches(s, Sys(q, Fleet(n, 0, 0, n)))
  {
    for k := 0 to n
      invariant Reaches(s, Sys(q, Fleet(n, 0, 0, k)))
    {
      FallsAsleep(s, n, k, q);
    }
  }

  lemma PipeFillsUp(s: Sys<int>, n: nat, max: nat, capacity: nat)
    requires capacity <= n && Reaches(s, Sys(Bag(0, 0, max, capacity), Fleet(n, 0, 0, n)))
    ensures Reaches(s, Sys(Bag(capacity, capacity, max, capacity), Fleet(n, 0, capacity, n)))
  {
    for j := 0 to capacity
      invariant Reaches(s, Sys(Bag(j, j, max, capacity), Fleet(n, 0, j, n)))
    {
      PushWakes(s, n, j, max, capacity);
    }
  }

  lemma WokenPopAll(s: Sys<int>, n: nat, max: nat, capacity: nat)
    requires capacity <= n && Reaches(s, Sys(Bag(capacity + 1, capacity, max, capacity), Fleet(n, 0, capacity, n)))
    ensures Reaches(s, Sys(Bag(1, 0, max, capacity), Fleet(n, capacity, capacity, n)))
  {
    for d := 0 to capacity
      invariant Reaches(s, Sys(Bag(capacity + 1 - d, capacity - d, max, capacity), Fleet(n, d, capacity, n)))
    {
      WokenPops(s, n, d, capacity, capacity + 1 - d, capacity - d, max, capacity);
    }
  }
}
