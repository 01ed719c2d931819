/** `message::BlockingQueue`: a bounded FIFO, an unbounded priority bag and the self-pipe whose
    readable bytes announce the elements to epoll.

    `QState` and its two transitions are the contents of the critical sections.  The class
    below and the thread system of module WakeUps are both proved against them. */
module QueueSpec {

  /** `capacity` is how many bytes the non-blocking pipe holds before `write` fails. */
  datatype QState<T(==)> = QState(queue: seq<T>, priority: multiset<T>, pipe: nat, max: nat, capacity: nat)
  {
    function Items(): nat {
      |queue| + |priority|
    }

    /** Every element is announced by exactly one byte of the pipe. */
    predicate Balanced() {
      pipe == Items()
    }

    predicate Valid() {
      |queue| <= max && pipe <= capacity
    }
  }

  function Empty<T>(max: nat, capacity: nat): QState<T> {
    QState([], multiset{}, 0, max, capacity)
  }

  /** `pushByteToPipe`; false stands for the `system_error` of a full pipe. */
  function Announce<T>(s: QState<T>): (QState<T>, bool) {
    if s.pipe < s.capacity then (s.(pipe := s.pipe + 1), true) else (s, false)
  }

  /** `popByteFromPipe`; false stands for the `system_error` of an empty pipe. */
  function Retract<T>(s: QState<T>): (QState<T>, bool) {
    if s.pipe > 0 then (s.(pipe := s.pipe - 1), true) else (s, false)
  }

  /** The critical section of `push` once the wait is over. */
  function Push<T>(s: QState<T>, x: T): (QState<T>, bool) {
    Announce(s.(queue := s.queue + [x]))
  }

  /** The critical section of `priorityPush`; an insertion of a fresh pointer always succeeds. */
  function PriorityPush<T>(s: QState<T>, x: T): (QState<T>, bool) {
    Announce(s.(priority := s.priority + multiset{x}))
  }

  /** `x` can leave next: any element of the bag, or the oldest one when the bag is empty. */
  ghost predicate CanPop<T>(s: QState<T>, x: T) {
    if |s.priority| > 0 then x in s.priority else s.queue != [] && x == s.queue[0]
  }

  /** `popWithoutBlocking` when it takes out `x`. */
  function Pop<T>(s: QState<T>, x: T): (QState<T>, bool)
    requires CanPop(s, x)
  {
    if |s.priority| > 0 then Retract(s.(priority := s.priority - multiset{x}))
    else Retract(s.(queue := s.queue[1..]))
  }

  /** A push keeps every element announced exactly when the pipe still has room. */
  lemma PushKeepsBalance<T>(s: QState<T>, x: T)
    requires s.Valid() && s.Balanced()
    ensures Push(s, x).0.Balanced() <==> s.Items() < s.capacity
    ensures PriorityPush(s, x).0.Balanced() <==> s.Items() < s.capacity
    ensures Push(s, x).1 <==> s.Items() < s.capacity
    ensures PriorityPush(s, x).1 <==> s.Items() < s.capacity
  {
    assert |s.queue + [x]| == |s.queue| + 1;
    assert |s.priority + multiset{x}| == |s.priority| + 1;
  }

  /** With every element announced, a pop reads its byte and keeps it so. */
  lemma PopKeepsBalance<T>(s: QState<T>, x: T)
    requires s.Valid() && s.Balanced() && CanPop(s, x)
    ensures Pop(s, x).1 && Pop(s, x).0.Balanced() && Pop(s, x).0.Valid()
    ensures Pop(s, x).0.Items() == s.Items() - 1
  {
    if |s.priority| > 0 {
      assert multiset{x} <= s.priority;
      assert |s.priority - multiset{x}| == |s.priority| - 1;
    }
  }

  // ---- whole histories -------------------------------------------------------------------

  datatype Op<T> = PushOp(x: T) | PriorityOp(x: T) | PopOp(x: T)

  /** An operation that may take place: a `push` has room, a pop takes a poppable element. */
  ghost predicate Enabled<T>(s: QState<T>, op: Op<T>) {
    match op
    case PushOp(_) => |s.queue| < s.max
    case PriorityOp(_) => true
    case PopOp(x) => CanPop(s, x)
  }

  ghost function Do<T>(s: QState<T>, op: Op<T>): (QState<T>, bool)
    requires Enabled(s, op)
  {
    match op
    case PushOp(x) => Push(s, x)
    case PriorityOp(x) => PriorityPush(s, x)
    case PopOp(x) => Pop(s, x)
  }

  /** The history is possible from `s`, and `t` is where it ends. */
  ghost predicate History<T>(s: QState<T>, ops: seq<Op<T>>, t: QState<T>)
    decreases |ops|
  {
    if ops == [] then s == t else Enabled(s, ops[0]) && History(Do(s, ops[0]).0, ops[1..], t)
  }

  /** No operation of the history throws. */
  ghost predicate NoFault<T>(s: QState<T>, ops: seq<Op<T>>)
    decreases |ops|
  {
    ops != [] && Enabled(s, ops[0]) ==> Do(s, ops[0]).1 && NoFault(Do(s, ops[0]).0, ops[1..])
  }

  /** Every push of the history finds fewer elements than the pipe can announce. */
  ghost predicate StaysWithinPipe<T>(s: QState<T>, ops: seq<Op<T>>)
    decreases |ops|
  {
    ops != [] && Enabled(s, ops[0]) ==>
      && (ops[0].PopOp? || s.Items() < s.capacity)
      && StaysWithinPipe(Do(s, ops[0]).0, ops[1..])
  }

  /** What one operation puts into the FIFO, and what leaves the FIFO through it. */
  function In<T>(op: Op<T>): seq<T> {
    if op.PushOp? then [op.x] else []
  }

  function Out<T>(s: QState<T>, op: Op<T>): seq<T> {
    if op.PopOp? && |s.priority| == 0 then [op.x] else []
  }

  /** Elements pushed by `push`, in order. */
  function Pushed<T>(ops: seq<Op<T>>): seq<T> {
    if ops == [] then [] else In(ops[0]) + Pushed(ops[1..])
  }

  /** Elements that left the FIFO, in order: those popped while the bag was empty. */
  ghost function PoppedNormal<T>(s: QState<T>, ops: seq<Op<T>>): seq<T>
    decreases |ops|
  {
    if ops == [] || !Enabled(s, ops[0]) then []
    else Out(s, ops[0]) + PoppedNormal(Do(s, ops[0]).0, ops[1..])
  }

  function BagIn<T>(op: Op<T>): multiset<T> {
    if op.PriorityOp? then multiset{op.x} else multiset{}
  }

  function BagOut<T>(s: QState<T>, op: Op<T>): multiset<T> {
    if op.PopOp? && |s.priority| > 0 then multiset{op.x} else multiset{}
  }

  function PushedPriority<T>(ops: seq<Op<T>>): multiset<T> {
    if ops == [] then multiset{} else BagIn(ops[0]) + PushedPriority(ops[1..])
  }

  ghost function PoppedPriority<T>(s: QState<T>, ops: seq<Op<T>>): multiset<T>
    decreases |ops|
  {
    if ops == [] || !Enabled(s, ops[0]) then multiset{}
    else BagOut(s, ops[0]) + PoppedPriority(Do(s, ops[0]).0, ops[1..])
  }

  /** One operation moves at most one element in and one out, at the right ends. */
  lemma StepConserves<T>(s: QState<T>, op: Op<T>)
    requires s.Valid() && Enabled(s, op)
    ensures var t := Do(s, op).0;
      && t.Valid() && t.max == s.max && t.capacity == s.capacity
      && s.queue + In(op) == Out(s, op) + t.queue
      && s.priority + BagIn(op) == BagOut(s, op) + t.priority
  {
    if op.PopOp? && |s.priority| > 0 {
      assert s.priority == s.priority - multiset{op.x} + multiset{op.x};
    }
  }

  lemma Splice<T>(q: seq<T>, i: seq<T>, o: seq<T>, q': seq<T>, ins: seq<T>, outs: seq<T>, last: seq<T>)
    requires q + i == o + q' && q' + ins == outs + last
    ensures q + (i + ins) == (o + outs) + last
  {
    assert q + (i + ins) == (q + i) + ins;
    assert (o + q') + ins == o + (q' + ins);
    assert o + (outs + last) == (o + outs) + last;
  }

  lemma BagSplice<T>(p: multiset<T>, i: multiset<T>, o: multiset<T>, p': multiset<T>,
                     ins: multiset<T>, outs: multiset<T>, last: multiset<T>)
    requires p + i == o + p' && p' + ins == outs + last
    ensures p + (i + ins) == (o + outs) + last
  {
    assert p + (i + ins) == (p + i) + ins;
    assert (o + p') + ins == o + (p' + ins);
  }

  /** Conservation and order over every history: what `push` put in is what left the FIFO,
      followed by what is still in it, the bag balances, and the FIFO never exceeds its bound. */
  lemma {:induction false} Conservation<T>(s: QState<T>, ops: seq<Op<T>>, t: QState<T>)
    requires s.Valid() && History(s, ops, t)
    ensures t.Valid() && t.max == s.max && t.capacity == s.capacity
    ensures s.queue + Pushed(ops) == PoppedNormal(s, ops) + t.queue
    ensures s.priority + PushedPriority(ops) == PoppedPriority(s, ops) + t.priority
    decreases |ops|
  {
    if ops != [] {
      var op, rest := ops[0], ops[1..];
      StepConserves(s, op);
      var s' := Do(s, op).0;
      Conservation(s', rest, t);
      Splice(s.queue, In(op), Out(s, op), s'.queue, Pushed(rest), PoppedNormal(s', rest), t.queue);
      BagSplice(s.priority, BagIn(op), BagOut(s, op), s'.priority, PushedPriority(rest),
                PoppedPriority(s', rest), t.priority);
    }
  }

  /** From a balanced queue a history is free of faults exactly when it stays within the pipe,
      and then every element is still announced at its end. */
  lemma {:induction false} FaultFreeIffWithinPipe<T>(s: QState<T>, ops: seq<Op<T>>, t: QState<T>)
    requires s.Valid() && s.Balanced() && History(s, ops, t)
    ensures NoFault(s, ops) <==> StaysWithinPipe(s, ops)
    ensures NoFault(s, ops) ==> t.Balanced()
    decreases |ops|
  {
    if ops != [] {
      var op := ops[0];
      var s' := Do(s, op).0;
      if op.PopOp? {
        PopKeepsBalance(s, op.x);
      } else {
        PushKeepsBalance(s, op.x);
      }
      if Do(s, op).1 {
        assert s'.Balanced() && s'.Valid();
        FaultFreeIffWithinPipe(s', ops[1..], t);
      }
    }
  }
}

/** The class itself, one thread at a time. */
module BlockingQueues {
  import opened Common
  import opened QueueSpec

  class BlockingQueue<T(==)> {
    var queue: seq<T>
    var priority: multiset<T>
    var pipe: nat
    const max: nat
    const capacity: nat

    function View(): QState<T>
      reads this
    {
      QState(queue, priority, pipe, max, capacity)
    }

    ghost predicate Valid()
      reads this
    {
      View().Valid()
    }

    constructor (max: nat, capacity: nat)
      ensures Valid() && View() == QueueSpec.Empty(max, capacity)
    {
      this.max := max;
      this.capacity := capacity;
      queue, priority, pipe := [], multiset{}, 0;
    }

    method PushByteToPipe() returns (ok: bool)
      modifies this`pipe
      ensures (View(), ok) == Announce(old(View()))
    {
      ok := pipe < capacity;
      if ok {
        pipe := pipe + 1;
      }
    }

    method PopByteFromPipe() returns (ok: bool)
      modifies this`pipe
      ensures (View(), ok) == Retract(old(View()))
    {
      ok := pipe > 0;
      if ok {
        pipe := pipe - 1;
      }
    }

    /** The wait guarantees room; `ok` is false when the pipe throws, after the insertion. */
    method Push(x: T) returns (ok: bool)
      requires Valid() && |queue| < max
      modifies this
      ensures Valid() && (View(), ok) == QueueSpec.Push(old(View()), x)
    {
      queue := queue + [x];
      ok := PushByteToPipe();
    }

    method PriorityPush(x: T) returns (ok: bool)
      requires Valid()
      modifies this
      ensures Valid() && (View(), ok) == QueueSpec.PriorityPush(old(View()), x)
    {
      priority := priority + multiset{x};
      ok := PushByteToPipe();
    }

    /** The bag is a set of pointers, so any of its elements may come first. */
    method PopWithoutBlocking() returns (x: T, ok: bool)
      requires Valid() && View().Items() > 0
      modifies this
      ensures Valid() && CanPop(old(View()), x) && (View(), ok) == QueueSpec.Pop(old(View()), x)
    {
      if |priority| > 0 {
        x :| x in priority;
        priority := priority - multiset{x};
      } else {
        x := queue[0];
        queue := queue[1..];
      }
      ok := PopByteFromPipe();
    }

    /** `pop_for`: nothing when the wait times out on an empty queue. */
    method PopFor() returns (r: Option<T>, ok: bool)
      requires Valid()
      modifies this
      ensures Valid()
      ensures r.None? <==> old(View()).Items() == 0
      ensures r.None? ==> View() == old(View()) && ok
      ensures r.Some? ==> CanPop(old(View()), r.value) && (View(), ok) == QueueSpec.Pop(old(View()), r.value)
    {
      if queue == [] && |priority| == 0 {
        return None, true;
      }
      var x;
      x, ok := PopWithoutBlocking();
      r := Some(x);
    }
  }
}
