// The pipeline from emit to the recording thread, one atomic action at a time: file
// system threads take a number and later offer their opcode to the queue; the
// consumer checks its flag, pops, applies, and is told to stop at any moment.
module Pipeline {
  import opened Wrappers
  import opened Opcodes
  import Recorder

  type Thread = nat

  // An opcode, and the thread that emitted it.
  datatype Sent = Sent(emitter: Thread, opcode: Opcode)

  datatype Consumer = Starting | Checking | Popping | Holding(sent: Sent) | Stopped

  datatype State = State(
    nextSeq: nat,
    pending: map<Thread, Sent>, // numbered, not yet offered
    queue: seq<Sent>,
    capacity: nat,
    running: bool,
    consumer: Consumer,
    // what happened so far
    issued: seq<Sent>,
    accepted: seq<Sent>,
    rejected: seq<Sent>,
    applied: seq<Sent>
  )

  datatype Step =
    | Take(t: Thread, op: Operation, timestamp: nat)
    | Offer(t: Thread)
    | Open(ok: bool)  // the consumer opens its backend, or gives up
    | Check
    | Pop
    | Apply
    | Stop

  function Initial(capacity: nat): State {
    State(1, map[], [], capacity, true, Starting, [], [], [], [])
  }

  predicate Enabled(s: State, step: Step) {
    match step
    case Take(t, _, _) => t !in s.pending
    case Offer(t) => t in s.pending
    case Open(_) => s.consumer.Starting?
    case Check => s.consumer.Checking?
    case Pop => s.consumer.Popping?
    case Apply => s.consumer.Holding?
    case Stop => true
  }

  function Next(s: State, step: Step): State
    requires Enabled(s, step)
  {
    match step
    case Take(t, op, timestamp) =>
      var sent := Sent(t, Opcode(s.nextSeq, timestamp, op));
      s.(nextSeq := s.nextSeq + 1, pending := s.pending[t := sent], issued := s.issued + [sent])
    case Offer(t) =>
      var sent := s.pending[t];
      var s1 := s.(pending := s.pending - {t});
      if |s.queue| >= s.capacity then s1.(rejected := s.rejected + [sent])
      else s1.(queue := s.queue + [sent], accepted := s.accepted + [sent])
    case Open(ok) => s.(consumer := if ok then Checking else Stopped)
    case Check => s.(consumer := if s.running then Popping else Stopped)
    case Pop =>
      if s.queue == [] then s.(consumer := Checking)
      else s.(queue := s.queue[1..], consumer := Holding(s.queue[0]))
    case Apply => s.(consumer := Checking, applied := s.applied + [s.consumer.sent])
    case Stop => s.(running := false)
  }

  ghost predicate Runs(s: State, steps: seq<Step>)
    decreases |steps|
  {
    steps != [] ==> Enabled(s, steps[0]) && Runs(Next(s, steps[0]), steps[1..])
  }

  ghost function After(s: State, steps: seq<Step>): State
    requires Runs(s, steps)
    decreases |steps|
  {
    if steps == [] then s else After(Next(s, steps[0]), steps[1..])
  }

  // ---- Conservation ----

  function InHand(s: State): seq<Sent> {
    if s.consumer.Holding? then [s.consumer.sent] else []
  }

  ghost predicate Conserved(s: State) {
    && s.accepted == s.applied + InHand(s) + s.queue
    && |s.queue| <= s.capacity
  }

  ghost predicate HasFate(s: State, x: Sent) {
    x in s.accepted || x in s.rejected || (x.emitter in s.pending && s.pending[x.emitter] == x)
  }

  ghost predicate Distinct(xs: seq<Sent>) {
    forall i, j | 0 <= i < j < |xs| :: xs[i] != xs[j]
  }

  // Every number from 1 up went to one opcode, and that opcode met one fate.
  ghost predicate Numbered(s: State) {
    && s.nextSeq == |s.issued| + 1
    && (forall i | 0 <= i < |s.issued| :: s.issued[i].opcode.seqNo == i + 1)
    && |s.issued| == |s.accepted| + |s.rejected| + |s.pending|
  }

  ghost predicate Partitioned(s: State) {
    && (forall x | x in s.issued :: HasFate(s, x))
    && (forall x | x in s.accepted :: x in s.issued && x !in s.rejected && x !in s.pending.Values)
    && (forall x | x in s.rejected :: x in s.issued && x !in s.pending.Values)
    && (forall t | t in s.pending :: s.pending[t] in s.issued && s.pending[t].emitter == t)
    && Distinct(s.accepted) && Distinct(s.rejected)
  }

  // Each thread's own opcodes are accepted in the order it numbered them.
  ghost predicate ThreadOrder(s: State) {
    && (forall i, j | 0 <= i < j < |s.accepted| && s.accepted[i].emitter == s.accepted[j].emitter ::
          s.accepted[i].opcode.seqNo < s.accepted[j].opcode.seqNo)
    && (forall x | x in s.accepted && x.emitter in s.pending ::
          x.opcode.seqNo < s.pending[x.emitter].opcode.seqNo)
    && (forall x | x in s.accepted :: x.opcode.seqNo < s.nextSeq)
    && (forall t | t in s.pending :: s.pending[t].emitter == t)
  }

  ghost predicate Inv(s: State) {
    Conserved(s) && Numbered(s) && Partitioned(s) && ThreadOrder(s)
  }

  lemma StepKeepsConserved(s: State, step: Step)
    requires Conserved(s) && Enabled(s, step)
    ensures Conserved(Next(s, step))
  {
    var s1 := Next(s, step);
    match step
    case Offer(t) =>
      if |s.queue| < s.capacity {
        assert s.applied + InHand(s) + s1.queue == s.accepted + [s.pending[t]];
      }
    case Pop =>
      if s.queue != [] {
        assert s.applied + [] + s.queue == s.applied + [s.queue[0]] + s.queue[1..];
      }
    case Apply =>
      assert s.applied + [s.consumer.sent] + s.queue == (s.applied + [s.consumer.sent]) + [] + s.queue;
    case _ =>
  }

  lemma Grows<K, V>(m: map<K, V>, k: K, v: V)
    requires k !in m
    ensures |m[k := v]| == |m| + 1
  {
    assert m[k := v].Keys == m.Keys + {k};
  }

  lemma Shrinks<K, V>(m: map<K, V>, k: K)
    requires k in m
    ensures |m - {k}| == |m| - 1
  {
    assert (m - {k}).Keys == m.Keys - {k};
  }

  lemma StepKeepsNumbered(s: State, step: Step)
    requires Numbered(s) && Enabled(s, step)
    ensures Numbered(Next(s, step))
  {
    match step
    case Take(t, op, timestamp) => TakeKeepsNumbered(s, t, op, timestamp);
    case Offer(t) => Shrinks(s.pending, t);
    case _ =>
  }

  lemma TakeKeepsNumbered(s: State, t: Thread, op: Operation, timestamp: nat)
    requires Numbered(s) && t !in s.pending
    ensures Numbered(Next(s, Take(t, op, timestamp)))
  {
    Grows(s.pending, t, Sent(t, Opcode(s.nextSeq, timestamp, op)));
  }

  lemma TakeKeepsPartitioned(s: State, t: Thread, op: Operation, timestamp: nat)
    requires Numbered(s) && Partitioned(s) && t !in s.pending
    ensures Partitioned(Next(s, Take(t, op, timestamp)))
  {
    var s1 := Next(s, Take(t, op, timestamp));
    var sent := s1.pending[t];
    forall i | 0 <= i < |s.issued| ensures s.issued[i] != sent {
      assert s.issued[i].opcode.seqNo == i + 1;
    }
    assert sent !in s.issued;
    forall x | x in s1.issued ensures HasFate(s1, x) {
      if x != sent {
        assert HasFate(s, x);
      }
    }
    forall x | x in s1.pending.Values ensures x == sent || x in s.pending.Values {
      var u :| u in s1.pending && s1.pending[u] == x;
    }
  }

  lemma OfferKeepsPartitioned(s: State, t: Thread)
    requires Partitioned(s) && t in s.pending
    ensures Partitioned(Next(s, Offer(t)))
  {
    var s1 := Next(s, Offer(t));
    var sent := s.pending[t];
    assert sent in s.pending.Values;
    forall u | u in s1.pending ensures s1.pending[u] != sent {
      assert s.pending[u].emitter == u;
    }
    forall x | x in s.issued ensures HasFate(s1, x) {
      assert HasFate(s, x);
    }
    forall x | x in s1.pending.Values ensures x in s.pending.Values {
      var u :| u in s1.pending && s1.pending[u] == x;
      assert s.pending[u] == x;
    }
  }

  lemma StepKeepsPartitioned(s: State, step: Step)
    requires Numbered(s) && Partitioned(s) && Enabled(s, step)
    ensures Partitioned(Next(s, step))
  {
    match step
    case Take(t, op, timestamp) => TakeKeepsPartitioned(s, t, op, timestamp);
    case Offer(t) => OfferKeepsPartitioned(s, t);
    case _ =>
      forall x | x in s.issued ensures HasFate(Next(s, step), x) {
        assert HasFate(s, x);
      }
  }

  lemma OfferKeepsThreadOrder(s: State, t: Thread)
    requires ThreadOrder(s) && Numbered(s) && Partitioned(s) && t in s.pending
    ensures ThreadOrder(Next(s, Offer(t)))
  {
    var s1, sent := Next(s, Offer(t)), s.pending[t];
    assert sent in s.issued && sent.emitter == t;
    var n :| 0 <= n < |s.issued| && s.issued[n] == sent;
    assert sent.opcode.seqNo == n + 1 < s.nextSeq;
    forall i, j | 0 <= i < j < |s1.accepted| && s1.accepted[i].emitter == s1.accepted[j].emitter
      ensures s1.accepted[i].opcode.seqNo < s1.accepted[j].opcode.seqNo
    {
      assert s.accepted[i] == s1.accepted[i] && s.accepted[i] in s.accepted;
    }
    forall x | x in s1.accepted ensures x == sent || x in s.accepted {
    }
  }

  lemma StepKeepsThreadOrder(s: State, step: Step)
    requires ThreadOrder(s) && Numbered(s) && Partitioned(s) && Enabled(s, step)
    ensures ThreadOrder(Next(s, step))
  {
    match step
    case Offer(t) => OfferKeepsThreadOrder(s, t);
    case Take(t, _, _) =>
      forall x | x in s.accepted ensures x.opcode.seqNo < s.nextSeq {
      }
    case _ =>
  }

  lemma StepKeepsInv(s: State, step: Step)
    requires Inv(s) && Enabled(s, step)
    ensures Inv(Next(s, step))
  {
    StepKeepsConserved(s, step);
    StepKeepsNumbered(s, step);
    StepKeepsPartitioned(s, step);
    StepKeepsThreadOrder(s, step);
  }

  // Conservation, numbering and per-thread order hold at every point of every run.
  lemma {:induction false} EveryRunKeepsInv(s: State, steps: seq<Step>)
    requires Inv(s) && Runs(s, steps)
    ensures Inv(After(s, steps))
    decreases |steps|
  {
    if steps != [] {
      StepKeepsInv(s, steps[0]);
      EveryRunKeepsInv(Next(s, steps[0]), steps[1..]);
    }
  }

  lemma PipelineConserves(capacity: nat, steps: seq<Step>)
    requires Runs(Initial(capacity), steps)
    ensures var s := After(Initial(capacity), steps);
            && s.applied + InHand(s) + s.queue == s.accepted
            && s.applied <= s.accepted
            && |s.queue| <= s.capacity
            && s.nextSeq - 1 == |s.accepted| + |s.rejected| + |s.pending|
            && Partitioned(s) && ThreadOrder(s)
  {
    EveryRunKeepsInv(Initial(capacity), steps);
  }

  // ---- Numbers ----

  // No two opcodes, whatever became of them, carry the same number.
  lemma NumbersAreUnique(s: State, x: Sent, y: Sent)
    requires Numbered(s) && x in s.issued && y in s.issued && x.opcode.seqNo == y.opcode.seqNo
    ensures x == y
  {
    var i :| 0 <= i < |s.issued| && s.issued[i] == x;
    var j :| 0 <= j < |s.issued| && s.issued[j] == y;
    assert s.issued[i].opcode.seqNo == i + 1 && s.issued[j].opcode.seqNo == j + 1;
  }

  ghost predicate OneEmitter(s: State, t: Thread) {
    forall x | x in s.issued :: x.emitter == t
  }

  lemma {:induction false} OneEmitterRuns(s: State, steps: seq<Step>, t: Thread)
    requires Runs(s, steps) && OneEmitter(s, t)
    requires forall i | 0 <= i < |steps| :: steps[i].Take? ==> steps[i].t == t
    ensures OneEmitter(After(s, steps), t)
    decreases |steps|
  {
    if steps != [] {
      OneEmitterRuns(Next(s, steps[0]), steps[1..], t);
    }
  }

  ghost predicate NumberIn(xs: seq<Sent>, m: nat) {
    exists i :: 0 <= i < |xs| && xs[i].opcode.seqNo == m
  }

  lemma AcceptedRise(s: State, t: Thread, i: nat, j: nat)
    requires Inv(s) && OneEmitter(s, t) && i < j < |s.accepted|
    ensures s.accepted[i].opcode.seqNo < s.accepted[j].opcode.seqNo
  {
    assert s.accepted[i] in s.accepted && s.accepted[j] in s.accepted;
  }

  // No number belongs to both an accepted and a rejected opcode.
  lemma RejectionsAreGaps(s: State, x: Sent, y: Sent)
    requires Inv(s) && x in s.rejected && y in s.accepted
    ensures x.opcode.seqNo != y.opcode.seqNo
  {
    if x.opcode.seqNo == y.opcode.seqNo {
      NumbersAreUnique(s, x, y);
    }
  }

  // With one file system thread, what was issued under a number no later than that of
  // an accepted opcode was either accepted before it or rejected.
  lemma EarlierIsSettled(s: State, t: Thread, k: nat, m: nat)
    requires Inv(s) && OneEmitter(s, t) && k < |s.accepted| && 1 <= m <= s.accepted[k].opcode.seqNo
    ensures NumberIn(s.accepted[..k + 1], m) || NumberIn(s.rejected, m)
  {
    var b := s.accepted[k];
    assert b in s.accepted && b.opcode.seqNo < s.nextSeq;
    var x := s.issued[m - 1];
    assert x.opcode.seqNo == m && x in s.issued && x.emitter == t && b.emitter == t && HasFate(s, x);
    if x in s.accepted {
      var i :| 0 <= i < |s.accepted| && s.accepted[i] == x;
      assert s.accepted[..k + 1][i] == x;
    } else if x in s.rejected {
      var i :| 0 <= i < |s.rejected| && s.rejected[i] == x;
    }
  }

  lemma GapsAreRejections(s: State, t: Thread, m: nat)
    requires Inv(s) && OneEmitter(s, t) && s.applied != []
    requires 1 <= m <= s.applied[|s.applied| - 1].opcode.seqNo
    ensures NumberIn(s.applied, m) <==> !NumberIn(s.rejected, m)
  {
    var k := |s.applied| - 1;
    assert s.accepted[..k + 1] == s.applied;
    assert s.accepted[k] == s.applied[k];
    EarlierIsSettled(s, t, k, m);
    if NumberIn(s.applied, m) && NumberIn(s.rejected, m) {
      var i :| 0 <= i < |s.applied| && s.applied[i].opcode.seqNo == m;
      var j :| 0 <= j < |s.rejected| && s.rejected[j].opcode.seqNo == m;
      assert s.applied[i] == s.accepted[i];
      RejectionsAreGaps(s, s.rejected[j], s.accepted[i]);
      assert false;
    }
  }

  // With a single file system thread the consumer sees rising numbers, and up to the
  // last one it has seen, the numbers it missed are exactly those of rejected opcodes.
  lemma SingleThreadOrdering(capacity: nat, steps: seq<Step>, t: Thread)
    requires Runs(Initial(capacity), steps)
    requires forall k | 0 <= k < |steps| :: steps[k].Take? ==> steps[k].t == t
    ensures var s := After(Initial(capacity), steps);
            && (forall i, j | 0 <= i < j < |s.applied| :: s.applied[i].opcode.seqNo < s.applied[j].opcode.seqNo)
            && (forall m: nat | s.applied != [] && 1 <= m <= s.applied[|s.applied| - 1].opcode.seqNo ::
                  NumberIn(s.applied, m) <==> !NumberIn(s.rejected, m))
  {
    var s := After(Initial(capacity), steps);
    EveryRunKeepsInv(Initial(capacity), steps);
    OneEmitterRuns(Initial(capacity), steps, t);
    forall i, j | 0 <= i < j < |s.applied|
      ensures s.applied[i].opcode.seqNo < s.applied[j].opcode.seqNo
    {
      assert s.applied[i] == s.accepted[i] && s.applied[j] == s.accepted[j];
      AcceptedRise(s, t, i, j);
    }
    forall m: nat | s.applied != [] && 1 <= m <= s.applied[|s.applied| - 1].opcode.seqNo
      ensures NumberIn(s.applied, m) <==> !NumberIn(s.rejected, m)
    {
      GapsAreRejections(s, t, m);
    }
  }

  lemma OneMore(s: State, step: Step, rest: seq<Step>)
    requires Enabled(s, step) && Runs(Next(s, step), rest)
    ensures Runs(s, [step] + rest) && After(s, [step] + rest) == After(Next(s, step), rest)
  {
    assert ([step] + rest)[0] == step && ([step] + rest)[1..] == rest;
  }

  // With two threads the order is lost: one may take a number and be overtaken before
  // it offers its opcode.
  lemma ThreadsOvertake(op: Operation) returns (steps: seq<Step>)
    ensures Runs(Initial(2), steps)
    ensures var s := After(Initial(2), steps);
            |s.accepted| == 2 && s.accepted[0].opcode.seqNo == 2 && s.accepted[1].opcode.seqNo == 1
  {
    var s0 := Initial(2);
    var s1 := Next(s0, Take(0, op, 0));
    var s2 := Next(s1, Take(1, op, 0));
    var s3 := Next(s2, Offer(1));
    var s4 := Next(s3, Offer(0));
    assert Runs(s4, []) && After(s4, []) == s4;
    OneMore(s3, Offer(0), []);
    OneMore(s2, Offer(1), [Offer(0)] + []);
    OneMore(s1, Take(1, op, 0), [Offer(1)] + ([Offer(0)] + []));
    OneMore(s0, Take(0, op, 0), [Take(1, op, 0)] + ([Offer(1)] + ([Offer(0)] + [])));
    steps := [Take(0, op, 0)] + ([Take(1, op, 0)] + ([Offer(1)] + ([Offer(0)] + [])));
  }

  // ---- Stopping ----

  // Once told to stop, the consumer finishes what it had begun and at most one
  // opcode more; what is still queued stays unrecorded.
  lemma {:induction false} StopsPromptly(s: State, steps: seq<Step>)
    requires Runs(s, steps) && !s.running
    ensures var s1 := After(s, steps);
            && !s1.running
            && s.applied <= s1.applied
            && |s1.applied| <= |s.applied| + (if s.consumer.Holding? || s.consumer.Popping? then 1 else 0)
            && (s.consumer.Stopped? ==> s1.consumer.Stopped? && s1.applied == s.applied)
    decreases |steps|
  {
    if steps != [] {
      StopsPromptly(Next(s, steps[0]), steps[1..]);
    }
  }

  // ---- Catching up ----

  function Behind(s: State): nat
    requires !s.consumer.Stopped?
  {
    3 * |s.queue| + (if s.consumer.Holding? || s.consumer.Starting? then 1
                     else if s.consumer.Popping? && s.queue != [] then -1 else 0)
  }

  function NextOfConsumer(s: State): Step {
    match s.consumer
    case Starting => Open(true)
    case Checking => Check
    case Popping => Pop
    case Holding(_) => Apply
    case Stopped => Stop
  }

  ghost predicate CaughtUp(s: State) {
    s.queue == [] && (s.consumer.Checking? || s.consumer.Popping?)
  }

  // Left alone, a consumer that was not told to stop works off everything that was
  // accepted, in no more than three steps an opcode and one to begin with.
  lemma {:induction false} CatchesUp(s: State) returns (steps: seq<Step>)
    requires Conserved(s) && s.running && !s.consumer.Stopped?
    ensures Runs(s, steps) && |steps| <= 3 * |s.queue| + 1
    ensures forall step | step in steps :: step == Open(true) || step.Check? || step.Pop? || step.Apply?
    ensures var s1 := After(s, steps); CaughtUp(s1) && s1.accepted == s.accepted && s1.applied == s.accepted
  {
    steps := WorksOff(s);
  }

  lemma {:induction false} WorksOff(s: State) returns (steps: seq<Step>)
    requires Conserved(s) && s.running && !s.consumer.Stopped?
    ensures Runs(s, steps) && |steps| <= Behind(s)
    ensures forall step | step in steps :: step == Open(true) || step.Check? || step.Pop? || step.Apply?
    ensures var s1 := After(s, steps); CaughtUp(s1) && s1.accepted == s.accepted && s1.applied == s.accepted
    decreases Behind(s)
  {
    if CaughtUp(s) {
      steps := [];
      assert s.accepted == s.applied + [] + [];
    } else {
      var step := NextOfConsumer(s);
      StepKeepsConserved(s, step);
      var rest := WorksOff(Next(s, step));
      OneMore(s, step, rest);
      steps := [step] + rest;
    }
  }

  // ---- The recorder's emit is Take and Offer by one thread ----

  function OpcodesOf(xs: seq<Sent>): (r: seq<Opcode>)
    ensures |r| == |xs|
  {
    seq(|xs|, i requires 0 <= i < |xs| => xs[i].opcode)
  }

  lemma EmitIsTakeThenOffer(s: State, t: Thread, op: Operation, clock: nat -> nat)
    requires t !in s.pending
    ensures var s1 := Next(s, Take(t, op, clock(s.nextSeq)));
            var s2 := Next(s1, Offer(t));
            && s2.pending == s.pending && s2.nextSeq == s.nextSeq + 1
            && OpcodesOf(s2.queue) == Recorder.Offered(OpcodesOf(s.queue), s.capacity, s.nextSeq, clock, [op])
  {
    var s2 := Next(Next(s, Take(t, op, clock(s.nextSeq))), Offer(t));
    var opcode := Opcode(s.nextSeq, clock(s.nextSeq), op);
    var offered := if |s.queue| < s.capacity then OpcodesOf(s.queue) + [opcode] else OpcodesOf(s.queue);
    assert Recorder.Offered(OpcodesOf(s.queue), s.capacity, s.nextSeq, clock, [op]) == offered;
    assert OpcodesOf(s2.queue) == offered;
  }
}
