// The opcode queue between the file system and the recording thread: first as the
// object one thread at a time sees under its mutex, then as threads that block on
// its condition variable.
module Queue {
  import opened Wrappers
  import opened Opcodes

  const DEFAULT_CAPACITY: nat := 10_000

  class OpcodeQueue {
    var queue: seq<Opcode>
    const capacity: nat

    constructor WithCapacity(capacity: nat)
      ensures queue == [] && this.capacity == capacity
    {
      queue := [];
      this.capacity := capacity;
    }

    constructor ()
      ensures queue == [] && capacity == DEFAULT_CAPACITY
    {
      queue := [];
      capacity := DEFAULT_CAPACITY;
    }

    method TryPush(opcode: Opcode) returns (res: Result<(), Opcode>)
      modifies this
      ensures res == if |old(queue)| >= capacity then Err(opcode) else Ok(())
      ensures queue == if res.Ok? then old(queue) + [opcode] else old(queue)
      ensures |old(queue)| <= capacity ==> |queue| <= capacity
    {
      if |queue| >= capacity {
        return Err(opcode);
      }
      queue := queue + [opcode];
      return Ok(());
    }

    method Push(opcode: Opcode)
      modifies this
      ensures queue == old(queue) + [opcode]
    {
      queue := queue + [opcode];
    }

    method TryPop() returns (res: Option<Opcode>)
      modifies this
      ensures res.None? <==> old(queue) == []
      ensures res.Some? ==> [res.value] + queue == old(queue)
      ensures res.None? ==> queue == old(queue)
    {
      if queue == [] {
        return None;
      }
      res := Some(queue[0]);
      queue := queue[1..];
    }

    method Drain() returns (all: seq<Opcode>)
      modifies this
      ensures all == old(queue) && queue == []
    {
      all := [];
      while queue != []
        invariant all + queue == old(queue)
        decreases |queue|
      {
        all := all + [queue[0]];
        queue := queue[1..];
      }
    }

    method PeekAll() returns (all: seq<Opcode>)
      ensures all == queue
    {
      all := queue;
    }
  }

  class OpcodeSender {
    const queue: OpcodeQueue

    constructor (queue: OpcodeQueue)
      ensures this.queue == queue
    {
      this.queue := queue;
    }

    method TrySend(opcode: Opcode) returns (res: Result<(), Opcode>)
      modifies queue
      ensures res == if |old(queue.queue)| >= queue.capacity then Err(opcode) else Ok(())
      ensures queue.queue == if res.Ok? then old(queue.queue) + [opcode] else old(queue.queue)
    {
      res := queue.TryPush(opcode);
    }

    method Send(opcode: Opcode)
      modifies queue
      ensures queue.queue == old(queue.queue) + [opcode]
    {
      queue.Push(opcode);
    }
  }
}

// Threads on the queue, one step per critical section. push and try_push release the
// mutex before they notify, so a thread can sit between the two; a thread inside
// pop waits in `blocked` and, once notified or woken for no reason, must take the
// mutex again before it looks at the queue.
module Wakeup {
  import opened Wrappers
  import opened Opcodes

  type Thread = nat

  datatype State = State(
    queue: seq<Opcode>,
    capacity: nat,
    notifying: set<Thread>, // has pushed, has yet to notify
    blocked: set<Thread>,   // waits on the condition variable
    woken: set<Thread>,     // has left the wait, has yet to look again
    pushed: seq<Opcode>,    // everything ever enqueued
    taken: seq<Opcode>      // everything ever dequeued
  )

  datatype Step =
    | Push(t: Thread, opcode: Opcode)
    | TryPush(t: Thread, opcode: Opcode)
    | Notify(t: Thread, chosen: Option<Thread>)
    | EnterPop(t: Thread)
    | SpuriousWake(t: Thread)
    | LookAgain(t: Thread)
    | TryPop(t: Thread)
    | Drain(t: Thread)

  predicate Idle(s: State, t: Thread) {
    t !in s.notifying && t !in s.blocked && t !in s.woken
  }

  predicate Enabled(s: State, step: Step) {
    match step
    case Push(t, _) => Idle(s, t)
    case TryPush(t, _) => Idle(s, t)
    case Notify(t, chosen) =>
      && t in s.notifying
      && (match chosen case Some(w) => w in s.blocked case None => s.blocked == {})
    case EnterPop(t) => Idle(s, t)
    case SpuriousWake(t) => t in s.blocked
    case LookAgain(t) => t in s.woken
    case TryPop(t) => Idle(s, t)
    case Drain(t) => Idle(s, t)
  }

  function Enqueue(s: State, t: Thread, opcode: Opcode): State {
    s.(queue := s.queue + [opcode], pushed := s.pushed + [opcode], notifying := s.notifying + {t})
  }

  function Dequeue(s: State): State
    requires s.queue != []
  {
    s.(queue := s.queue[1..], taken := s.taken + [s.queue[0]])
  }

  function Next(s: State, step: Step): State
    requires Enabled(s, step)
  {
    match step
    case Push(t, opcode) => Enqueue(s, t, opcode)
    case TryPush(t, opcode) => if |s.queue| >= s.capacity then s else Enqueue(s, t, opcode)
    case Notify(t, chosen) =>
      var s1 := s.(notifying := s.notifying - {t});
      if chosen.Some? then s1.(blocked := s.blocked - {chosen.value}, woken := s.woken + {chosen.value}) else s1
    case EnterPop(t) => if s.queue != [] then Dequeue(s) else s.(blocked := s.blocked + {t})
    case SpuriousWake(t) => s.(blocked := s.blocked - {t}, woken := s.woken + {t})
    case LookAgain(t) =>
      var s1 := s.(woken := s.woken - {t});
      if s.queue != [] then Dequeue(s1) else s1.(blocked := s.blocked + {t})
    case TryPop(_) => if s.queue != [] then Dequeue(s) else s
    case Drain(_) => s.(queue := [], taken := s.taken + s.queue)
  }

  function Initial(capacity: nat): State {
    State([], capacity, {}, {}, {}, [], [])
  }

  ghost predicate Runs(s: State, steps: seq<Step>)
    decreases |steps|
  {
    steps != [] ==> Enabled(s, steps[0]) && Runs(Next(s, steps[0]), steps[1..])
  }

  ghost function After(s: State, steps: seq<Step>): State
    requires Runs(s, steps)
    decreases |steps|
  {
    if steps == [] then s else After(Next(s, steps[0]), steps[1..])
  }

  // A waiting popper is matched by someone who will come back to the queue for it.
  ghost predicate NoLostWakeup(s: State) {
    s.blocked != {} ==> |s.queue| <= |s.woken| + |s.notifying|
  }

  // A thread is in one place at a time.
  ghost predicate OnePlaceEach(s: State) {
    s.notifying !! s.blocked && s.notifying !! s.woken && s.blocked !! s.woken
  }

  ghost predicate Inv(s: State) {
    OnePlaceEach(s) && NoLostWakeup(s) && s.pushed == s.taken + s.queue
  }

  lemma StepKeepsPlaces(s: State, step: Step)
    requires OnePlaceEach(s) && Enabled(s, step)
    ensures OnePlaceEach(Next(s, step))
  {
  }

  lemma StepKeepsOrder(s: State, step: Step)
    requires s.pushed == s.taken + s.queue && Enabled(s, step)
    ensures var s1 := Next(s, step); s1.pushed == s1.taken + s1.queue
  {
  }

  lemma Joined<T>(xs: set<T>, x: T)
    ensures |xs + {x}| == if x in xs then |xs| else |xs| + 1
  {
    if x in xs {
      assert xs + {x} == xs;
    }
  }

  lemma Left<T>(xs: set<T>, x: T)
    requires x in xs
    ensures |xs - {x}| == |xs| - 1
  {
  }

  lemma NotifyKeepsWakeups(s: State, t: Thread, chosen: Option<Thread>)
    requires OnePlaceEach(s) && NoLostWakeup(s) && Enabled(s, Notify(t, chosen))
    ensures NoLostWakeup(Next(s, Notify(t, chosen)))
  {
    Left(s.notifying, t);
    if chosen.Some? {
      Joined(s.woken, chosen.value);
    }
  }

  lemma StepKeepsWakeups(s: State, step: Step)
    requires OnePlaceEach(s) && NoLostWakeup(s) && Enabled(s, step)
    ensures NoLostWakeup(Next(s, step))
  {
    match step
    case Push(t, _) => Joined(s.notifying, t);
    case TryPush(t, _) => Joined(s.notifying, t);
    case Notify(t, chosen) => NotifyKeepsWakeups(s, t, chosen);
    case EnterPop(_) =>
    case SpuriousWake(t) => Joined(s.woken, t);
    case LookAgain(t) => Left(s.woken, t);
    case TryPop(_) =>
    case Drain(_) =>
  }

  lemma StepKeepsInv(s: State, step: Step)
    requires Inv(s) && Enabled(s, step)
    ensures Inv(Next(s, step))
  {
    StepKeepsPlaces(s, step);
    StepKeepsOrder(s, step);
    StepKeepsWakeups(s, step);
  }

  // In every run: no wakeup is lost, and what leaves the queue is what entered it, in
  // that order.
  lemma {:induction false} EveryRunKeepsInv(s: State, steps: seq<Step>)
    requires Inv(s) && Runs(s, steps)
    ensures Inv(After(s, steps))
    decreases |steps|
  {
    if steps != [] {
      StepKeepsInv(s, steps[0]);
      EveryRunKeepsInv(Next(s, steps[0]), steps[1..]);
    }
  }

  lemma QueueIsFifoAndWakes(capacity: nat, steps: seq<Step>)
    requires Runs(Initial(capacity), steps)
    ensures var s := After(Initial(capacity), steps);
            && NoLostWakeup(s)
            && s.pushed == s.taken + s.queue
            && (s.queue != [] && s.blocked != {} ==> s.woken != {} || s.notifying != {})
  {
    EveryRunKeepsInv(Initial(capacity), steps);
  }

  // So a blocked popper is never stuck in front of a waiting opcode: without any new
  // push, and with no luck from spurious wakeups, the threads already under way take
  // an opcode out within two steps.
  lemma WaitingOpcodeIsTaken(s: State) returns (steps: seq<Step>)
    requires Inv(s) && s.queue != [] && s.blocked != {}
    ensures |steps| <= 2 && Runs(s, steps)
    ensures forall step | step in steps :: step.Notify? || step.LookAgain?
    ensures After(s, steps).taken == s.taken + [s.queue[0]]
  {
    if s.woken != {} {
      var t :| t in s.woken;
      steps := [LookAgain(t)];
      assert Runs(Next(s, steps[0]), steps[1..]);
      assert After(Next(s, steps[0]), steps[1..]) == Next(s, steps[0]);
    } else {
      assert s.notifying != {};
      var t :| t in s.notifying;
      var w :| w in s.blocked;
      steps := [Notify(t, Some(w)), LookAgain(w)];
      var s1 := Next(s, steps[0]);
      assert steps[1..] == [LookAgain(w)];
      assert Runs(Next(s1, LookAgain(w)), [LookAgain(w)][1..]);
      assert Runs(s1, [LookAgain(w)]);
      assert After(Next(s1, LookAgain(w)), [LookAgain(w)][1..]) == Next(s1, LookAgain(w));
      assert After(s1, [LookAgain(w)]) == Next(s1, LookAgain(w));
    }
  }

  // try_push alone never takes the queue past its capacity.
  lemma {:induction false} TryPushKeepsCapacity(s: State, steps: seq<Step>)
    requires Runs(s, steps) && |s.queue| <= s.capacity
    requires forall i | 0 <= i < |steps| :: !steps[i].Push?
    ensures |After(s, steps).queue| <= s.capacity
    decreases |steps|
  {
    if steps != [] {
      TryPushKeepsCapacity(Next(s, steps[0]), steps[1..]);
    }
  }
}
