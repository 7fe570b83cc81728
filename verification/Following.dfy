// How the recorded bytes follow the files. A file system serves one request at a time,
// announcing some operations before it carries the request out; the announcements go
// through the pipeline to a consumer that records them. What the file system is, is
// left open here, and so is whether its announcements are true: what is said of a path
// rests on the truth about that path alone.
module Following {
  import opened Wrappers
  import opened Bytes
  import opened Opcodes
  import opened Commutation
  import opened FileTree
  import opened Recording
  import opened Replaying
  import P = Pipeline

  // The thread that serves requests.
  const FUSE_THREAD: P.Thread := 0

  // The files after each finished request, the first before any; the operations those
  // requests were announced as, each with the number of the files its request led to;
  // and, while a request is being served, those of its operations that have been
  // numbered and the files as they will be after it.
  datatype History = History(views: seq<Tree>, settled: seq<Operation>, marks: seq<nat>,
                             taken: seq<Operation>, next: Option<Tree>)

  ghost predicate WellKept(h: History) {
    && h.views != []
    && |h.marks| == |h.settled|
    && (forall i | 0 <= i < |h.marks| :: h.marks[i] < |h.views|)
    && (h.next.None? ==> h.taken == [])
    && AllPlain(h.settled) && AllPlain(h.taken)
  }

  ghost function Files(h: History): Tree
    requires h.views != []
  {
    h.views[|h.views| - 1]
  }

  ghost function Issued(h: History): seq<Operation> {
    h.settled + h.taken
  }

  // The files after some finished request, or after the one being served.
  ghost function Moments(h: History): seq<Tree> {
    h.views + if h.next.Some? then [h.next.value] else []
  }

  // The files after the request that announced the last of the first n operations.
  ghost function MomentAt(h: History, n: nat): (moment: Tree)
    requires WellKept(h) && n <= |Issued(h)|
    ensures moment in Moments(h)
  {
    if n == 0 then Moments(h)[0]
    else if n <= |h.settled| then Moments(h)[h.marks[n - 1]]
    else Moments(h)[|h.views|]
  }

  // The operations on p from the n0-th on, up to the n-th.
  ghost function About(h: History, p: Path, n0: nat, n: nat): seq<Operation>
    requires n0 <= n <= |Issued(h)|
  {
    OpsAffecting(Issued(h)[n0..n], p)
  }

  ghost predicate FollowsAt(h: History, p: Path, n0: nat, v: Tree, n: nat)
    requires WellKept(h) && n0 <= n <= |Issued(h)|
  {
    SameAt(ReplayAll(v, About(h, p, n0, n)), MomentAt(h, n), p)
  }

  // With v the files when n0 operations had been issued: replaying on v the operations on
  // p that came since gives at p what the files held there at the moment they led to.
  ghost predicate FollowsSince(h: History, p: Path, n0: nat, v: Tree) {
    && WellKept(h)
    && n0 <= |h.settled|
    && SameAt(ReplayAll(v, About(h, p, n0, |h.settled|)), Files(h), p)
    && AllSucceed(v, About(h, p, n0, |Issued(h)|))
    && (forall n | n0 < n <= |Issued(h)| :: FollowsAt(h, p, n0, v, n))
  }

  lemma {:induction false} OwnOnly(ops: seq<Operation>, p: Path)
    ensures AllAffect(ops, p) ==> OpsAffecting(ops, p) == ops
    ensures NoneAffects(ops, p) ==> OpsAffecting(ops, p) == []
    decreases |ops|
  {
    if ops != [] {
      assert forall i | 0 <= i < |ops[1..]| :: ops[1..][i] == ops[i + 1];
      OwnOnly(ops[1..], p);
    }
  }

  lemma AboutTaken(h: History, p: Path, n0: nat)
    requires n0 <= |h.settled|
    ensures About(h, p, n0, |Issued(h)|) == About(h, p, n0, |h.settled|) + OpsAffecting(h.taken, p)
  {
    assert Issued(h)[n0..|Issued(h)|] == Issued(h)[n0..|h.settled|] + h.taken;
    AffectingSplits(Issued(h)[n0..|h.settled|], h.taken, p);
  }

  // The first k operations of a request that is true at p, replayed from files that are
  // at p as they were before it.
  lemma SomeOfRequest(t: Tree, v: Tree, next: Tree, ops: seq<Operation>, k: nat, p: Path)
    requires TrueAt(v, next, ops, p) && AllPlain(ops) && SameAt(t, v, p) && k <= |ops|
    ensures AllSucceed(t, OpsAffecting(ops[..k], p))
    ensures k > 0 || ops == [] ==> SameAt(ReplayAll(t, OpsAffecting(ops[..k], p)), next, p)
  {
    var some := ops[..k];
    OwnOnly(some, p);
    if AllAffect(ops, p) && FirstDoesAll(v, next, ops) {
      SomeSucceed(v, next, ops, k);
      TreeProjection(v, t, some, p);
    }
  }

  lemma {:induction false} SomeSucceed(v: Tree, next: Tree, ops: seq<Operation>, k: nat)
    requires FirstDoesAll(v, next, ops) && k <= |ops|
    ensures AllSucceed(v, ops[..k])
    decreases k
  {
    if k > 0 {
      SomeSucceed(v, next, ops, k - 1);
      assert ops[..k] == ops[..k - 1] + [ops[k - 1]];
      assert ReplayAll(v, ops[..k - 1]) == if k == 1 then v else next;
      OneSucceeds(v, ops[..k - 1], ops[k - 1]);
    }
  }

  lemma OneSucceeds(t: Tree, ops: seq<Operation>, op: Operation)
    requires AllSucceed(t, ops) && Replay(ReplayAll(t, ops), op).1
    ensures AllSucceed(t, ops + [op])
  {
    SucceedSplits(t, ops, [op]);
    assert [op][1..] == [];
  }

  lemma BeginKeepsFollowing(h: History, p: Path, n0: nat, v: Tree, next: Tree)
    requires FollowsSince(h, p, n0, v) && h.next.None?
    ensures FollowsSince(h.(next := Some(next)), p, n0, v)
  {
    var h1 := h.(next := Some(next));
    forall n | n0 < n <= |Issued(h1)| ensures FollowsAt(h1, p, n0, v, n) {
      assert FollowsAt(h, p, n0, v, n);
      assert About(h1, p, n0, n) == About(h, p, n0, n) && MomentAt(h1, n) == MomentAt(h, n);
    }
  }

  // Numbering one more operation of the request being served.
  lemma TakeKeepsFollowing(h: History, p: Path, n0: nat, v: Tree, ops: seq<Operation>)
    requires FollowsSince(h, p, n0, v) && h.next.Some? && TrueAt(Files(h), h.next.value, ops, p) && AllPlain(ops)
    requires |h.taken| < |ops| && h.taken == ops[..|h.taken|]
    ensures FollowsSince(h.(taken := ops[..|h.taken| + 1]), p, n0, v)
  {
    var k := |h.taken| + 1;
    var h1 := h.(taken := ops[..k]);
    TakenOneMore(h, h1);
    EarlierStillFollow(h, h1, p, n0, v);
    assert AllSucceed(v, About(h1, p, n0, |Issued(h1)|)) && FollowsAt(h1, p, n0, v, |Issued(h1)|) by {
      TakenLeadTo(h, p, n0, v, ops, k);
      TakeKeepsMoment(h, h1, p, n0, |h.settled|);
      AboutTaken(h1, p, n0);
      LastTakenFollows(h1, p, n0, v);
    }
    AllFollow(h1, p, n0, v, |Issued(h)|);
  }

  lemma AllFollow(h: History, p: Path, n0: nat, v: Tree, n1: nat)
    requires WellKept(h) && n0 <= |h.settled| && n1 + 1 == |Issued(h)|
    requires SameAt(ReplayAll(v, About(h, p, n0, |h.settled|)), Files(h), p)
    requires AllSucceed(v, About(h, p, n0, |Issued(h)|)) && FollowsAt(h, p, n0, v, |Issued(h)|)
    requires forall n | n0 < n <= n1 :: FollowsAt(h, p, n0, v, n)
    ensures FollowsSince(h, p, n0, v)
  {
    forall n | n0 < n <= |Issued(h)| ensures FollowsAt(h, p, n0, v, n) {
      if n > n1 {
        assert n == |Issued(h)|;
      }
    }
  }

  lemma EarlierStillFollow(h: History, h1: History, p: Path, n0: nat, v: Tree)
    requires FollowsSince(h, p, n0, v)
    requires WellKept(h1) && h1 == h.(taken := h1.taken) && Issued(h) <= Issued(h1)
    ensures SameAt(ReplayAll(v, About(h1, p, n0, |h.settled|)), Files(h), p)
    ensures forall n | n0 < n <= |Issued(h)| :: FollowsAt(h1, p, n0, v, n)
  {
    TakeKeepsMoment(h, h1, p, n0, |h.settled|);
    forall n | n0 < n <= |Issued(h)| ensures FollowsAt(h1, p, n0, v, n) {
      EarlierStillFollows(h, h1, p, n0, v, n);
    }
  }

  lemma EarlierStillFollows(h: History, h1: History, p: Path, n0: nat, v: Tree, n: nat)
    requires WellKept(h) && n0 <= n <= |Issued(h)| && FollowsAt(h, p, n0, v, n)
    requires WellKept(h1) && h1 == h.(taken := h1.taken) && Issued(h) <= Issued(h1)
    ensures FollowsAt(h1, p, n0, v, n)
  {
    TakeKeepsMoment(h, h1, p, n0, n);
  }

  lemma TakenOneMore(h: History, h1: History)
    requires WellKept(h) && h.next.Some? && h1 == h.(taken := h1.taken) && AllPlain(h1.taken)
    requires |h1.taken| == |h.taken| + 1 && h.taken <= h1.taken
    ensures WellKept(h1) && Issued(h) <= Issued(h1) && |Issued(h1)| == |Issued(h)| + 1
  {
  }

  lemma TakeKeepsMoment(h: History, h1: History, p: Path, n0: nat, n: nat)
    requires WellKept(h) && n0 <= n <= |Issued(h)|
    requires WellKept(h1) && h1 == h.(taken := h1.taken) && Issued(h) <= Issued(h1)
    ensures About(h1, p, n0, n) == About(h, p, n0, n) && MomentAt(h1, n) == MomentAt(h, n)
  {
    assert Issued(h1)[n0..n] == Issued(h)[n0..n];
  }

  lemma LastTakenFollows(h: History, p: Path, n0: nat, v: Tree)
    requires WellKept(h) && n0 <= |h.settled| && h.next.Some? && h.taken != []
    requires SameAt(ReplayAll(v, About(h, p, n0, |h.settled|) + OpsAffecting(h.taken, p)), h.next.value, p)
    ensures FollowsAt(h, p, n0, v, |Issued(h)|)
  {
    AboutTaken(h, p, n0);
  }

  lemma TakenLeadTo(h: History, p: Path, n0: nat, v: Tree, ops: seq<Operation>, k: nat)
    requires FollowsSince(h, p, n0, v) && h.next.Some? && TrueAt(Files(h), h.next.value, ops, p) && AllPlain(ops)
    requires 0 < k <= |ops|
    ensures var since := About(h, p, n0, |h.settled|) + OpsAffecting(ops[..k], p);
            AllSucceed(v, since) && SameAt(ReplayAll(v, since), h.next.value, p)
  {
    var before := About(h, p, n0, |h.settled|);
    AboutTaken(h, p, n0);
    SucceedSplits(v, before, OpsAffecting(h.taken, p));
    SomeOfRequest(ReplayAll(v, before), Files(h), h.next.value, ops, k, p);
    SucceedSplits(v, before, OpsAffecting(ops[..k], p));
    ReplayAllSplits(v, before, OpsAffecting(ops[..k], p));
  }

  function Settle(h: History): History
    requires h.next.Some?
  {
    History(h.views + [h.next.value], h.settled + h.taken, h.marks + seq(|h.taken|, _ => |h.views|), [], None)
  }

  lemma SettleKeepsMoments(h: History, n: nat)
    requires WellKept(h) && h.next.Some? && n <= |Issued(h)|
    ensures WellKept(Settle(h)) && Issued(Settle(h)) == Issued(h) && Moments(Settle(h)) == Moments(h)
    ensures MomentAt(Settle(h), n) == MomentAt(h, n)
  {
  }

  lemma SettledStillFollows(h: History, p: Path, n0: nat, v: Tree, n: nat)
    requires WellKept(h) && h.next.Some? && n0 <= n <= |Issued(h)| && FollowsAt(h, p, n0, v, n)
    ensures WellKept(Settle(h)) && Issued(Settle(h)) == Issued(h) && FollowsAt(Settle(h), p, n0, v, n)
  {
    SettleKeepsMoments(h, n);
  }

  lemma SettleKeepsFollowing(h: History, p: Path, n0: nat, v: Tree)
    requires FollowsSince(h, p, n0, v) && h.next.Some? && TrueAt(Files(h), h.next.value, h.taken, p)
    ensures FollowsSince(Settle(h), p, n0, v)
  {
    var h1 := Settle(h);
    var before := About(h, p, n0, |h.settled|);
    SettleKeepsMoments(h, 0);
    assert h.taken[..|h.taken|] == h.taken;
    AboutTaken(h, p, n0);
    SomeOfRequest(ReplayAll(v, before), Files(h), h.next.value, h.taken, |h.taken|, p);
    ReplayAllSplits(v, before, OpsAffecting(h.taken, p));
    forall n | n0 < n <= |Issued(h1)| ensures FollowsAt(h1, p, n0, v, n) {
      SettledStillFollows(h, p, n0, v, n);
    }
  }

  // What was issued after the first n0 operations was announced after the m0-th view.
  ghost predicate Later(h: History, n0: nat, m0: nat) {
    && m0 < |h.views| && n0 <= |h.marks|
    && forall i | n0 <= i < |h.marks| :: h.marks[i] >= m0
  }

  lemma LaterStays(h: History, n0: nat, m0: nat)
    requires Later(h, n0, m0)
    ensures h.next.Some? ==> Later(Settle(h), n0, m0) && Settle(h).views[m0] == h.views[m0]
  {
  }

  // Between requests one can start afresh.
  lemma FollowsFromHere(h: History, p: Path, n0: nat, m0: nat)
    requires WellKept(h) && h.next.None? && n0 == |h.settled| && m0 + 1 == |h.views|
    ensures |Issued(h)| == n0 && FollowsSince(h, p, n0, h.views[m0]) && Later(h, n0, m0)
  {
    assert Issued(h)[n0..n0] == [];
  }

  // ---- What was issued, what was accepted, what was applied ----

  function SentOps(xs: seq<P.Sent>): (r: seq<Operation>)
    ensures |r| == |xs|
    ensures forall i | 0 <= i < |xs| :: r[i] == xs[i].opcode.op
  {
    seq(|xs|, i requires 0 <= i < |xs| => xs[i].opcode.op)
  }

  function PendingOps(pipe: P.State): seq<Operation> {
    if FUSE_THREAD in pipe.pending then [pipe.pending[FUSE_THREAD].opcode.op] else []
  }

  // With no rejection at all, what was accepted or is about to be offered is what was
  // issued.
  ghost predicate Lossless(pipe: P.State, issued: seq<Operation>) {
    && SentOps(pipe.issued) == issued
    && (pipe.rejected == [] ==> SentOps(pipe.accepted) + PendingOps(pipe) == issued)
    && (forall x | x in pipe.accepted :: x in pipe.issued)
    && (forall t | t in pipe.pending :: t == FUSE_THREAD && pipe.pending[t] in pipe.issued)
  }

  lemma TakeKeepsLossless(pipe: P.State, issued: seq<Operation>, op: Operation, timestamp: nat)
    requires Lossless(pipe, issued) && FUSE_THREAD !in pipe.pending
    ensures Lossless(P.Next(pipe, P.Take(FUSE_THREAD, op, timestamp)), issued + [op])
  {
    var pipe1 := P.Next(pipe, P.Take(FUSE_THREAD, op, timestamp));
    assert SentOps(pipe1.issued) == SentOps(pipe.issued) + [op];
    assert SentOps(pipe.accepted) + [] == SentOps(pipe.accepted);
  }

  lemma OfferKeepsLossless(pipe: P.State, issued: seq<Operation>)
    requires Lossless(pipe, issued) && FUSE_THREAD in pipe.pending
    ensures Lossless(P.Next(pipe, P.Offer(FUSE_THREAD)), issued)
  {
    var pipe1 := P.Next(pipe, P.Offer(FUSE_THREAD));
    var accepted, op := SentOps(pipe.accepted), pipe.pending[FUSE_THREAD].opcode.op;
    if |pipe.queue| < pipe.capacity {
      assert SentOps(pipe1.accepted) == accepted + [op];
      assert SentOps(pipe1.accepted) + [] == accepted + [op];
    }
  }

  lemma ConsumeKeepsLossless(pipe: P.State, issued: seq<Operation>, step: P.Step)
    requires Lossless(pipe, issued) && P.Enabled(pipe, step) && !step.Take? && !step.Offer?
    ensures Lossless(P.Next(pipe, step), issued)
  {
  }

  ghost predicate Applied(pipe: P.State, jobs: seq<Job>, store: Store, store0: Store) {
    && OpsOf(jobs) == SentOps(pipe.applied)
    && store == StoreAfter(store0, jobs)
  }

  lemma ApplyKeepsApplied(pipe: P.State, jobs: seq<Job>, store: Store, store0: Store, job: Job)
    requires Applied(pipe, jobs, store, store0) && P.Enabled(pipe, P.Apply)
    requires job.op == pipe.consumer.sent.opcode.op
    ensures Applied(P.Next(pipe, P.Apply), jobs + [job], Recording.Apply(store, job).0, store0)
  {
    var pipe1 := P.Next(pipe, P.Apply);
    assert OpsOf(jobs + [job]) == OpsOf(jobs) + [job.op];
    assert SentOps(pipe1.applied) == SentOps(pipe.applied) + [job.op];
    RunOfConcat(store0, jobs, [job]);
    OneJob(store, job);
  }

  lemma OneJob(store: Store, job: Job)
    ensures StoreAfter(store, [job]) == Recording.Apply(store, job).0
  {
    assert [job][1..] == [];
    assert Run(Recording.Apply, Recording.Apply(store, job).0, []).0 == Recording.Apply(store, job).0;
  }

  // ---- From some number on ----

  ghost function SentSince(xs: seq<P.Sent>, n: nat): seq<Operation>
    decreases |xs|
  {
    if xs == [] then []
    else
      var last := xs[|xs| - 1];
      SentSince(xs[..|xs| - 1], n) + if last.opcode.seqNo > n then [last.opcode.op] else []
  }

  ghost function PendingSince(pipe: P.State, n: nat): seq<Operation> {
    if FUSE_THREAD in pipe.pending && pipe.pending[FUSE_THREAD].opcode.seqNo > n
    then [pipe.pending[FUSE_THREAD].opcode.op] else []
  }

  // No opcode about p with a number above n was rejected; with n = 0, none at all.
  ghost predicate UnrejectedSince(pipe: P.State, p: Path, n: nat) {
    forall x | x in pipe.rejected && x.opcode.seqNo > n :: !x.opcode.op.AffectsPath(p)
  }

  function Tail(ops: seq<Operation>, n: nat): seq<Operation> {
    if n <= |ops| then ops[n..] else []
  }

  // Of the operations numbered above n, a path that lost none of its own has them all
  // accepted or about to be offered.
  ghost predicate LosslessSince(pipe: P.State, issued: seq<Operation>, p: Path, n: nat) {
    && pipe.nextSeq == |issued| + 1
    && (UnrejectedSince(pipe, p, n) ==>
          OpsAffecting(SentSince(pipe.accepted, n) + PendingSince(pipe, n), p) == OpsAffecting(Tail(issued, n), p))
  }

  lemma TakeKeepsSince(pipe: P.State, issued: seq<Operation>, p: Path, n: nat, op: Operation, timestamp: nat)
    requires LosslessSince(pipe, issued, p, n) && FUSE_THREAD !in pipe.pending
    ensures LosslessSince(P.Next(pipe, P.Take(FUSE_THREAD, op, timestamp)), issued + [op], p, n)
  {
    var accepted := SentSince(pipe.accepted, n);
    assert accepted + [] == accepted;
    AffectingSplits(accepted, [op], p);
    AffectingSplits(Tail(issued, n), [op], p);
    if n <= |issued| {
      assert Tail(issued + [op], n) == Tail(issued, n) + [op];
    } else {
      assert Tail(issued + [op], n) == [] == Tail(issued, n);
    }
  }

  lemma OfferKeepsSince(pipe: P.State, issued: seq<Operation>, p: Path, n: nat)
    requires LosslessSince(pipe, issued, p, n) && FUSE_THREAD in pipe.pending
    ensures LosslessSince(P.Next(pipe, P.Offer(FUSE_THREAD)), issued, p, n)
  {
    var pipe1 := P.Next(pipe, P.Offer(FUSE_THREAD));
    var sent := pipe.pending[FUSE_THREAD];
    var accepted := SentSince(pipe.accepted, n);
    if |pipe.queue| < pipe.capacity {
      assert pipe1.accepted[..|pipe.accepted|] == pipe.accepted;
      assert SentSince(pipe1.accepted, n) == accepted + PendingSince(pipe, n);
      assert SentSince(pipe1.accepted, n) + [] == SentSince(pipe1.accepted, n);
    } else if UnrejectedSince(pipe1, p, n) {
      assert sent in pipe1.rejected && forall x | x in pipe.rejected :: x in pipe1.rejected;
      assert UnrejectedSince(pipe, p, n);
      AffectingSplits(accepted, PendingSince(pipe, n), p);
      assert OpsAffecting(PendingSince(pipe, n), p) == [];
      assert accepted + [] == accepted;
    }
  }

  lemma SameSince(pipe: P.State, pipe1: P.State, issued: seq<Operation>, p: Path, n: nat)
    requires LosslessSince(pipe, issued, p, n)
    requires pipe1.nextSeq == pipe.nextSeq && pipe1.accepted == pipe.accepted
    requires pipe1.rejected == pipe.rejected && pipe1.pending == pipe.pending
    ensures LosslessSince(pipe1, issued, p, n)
  {
  }

  // Numbers rise along the pipeline of a single emitter.
  ghost predicate Ordered(pipe: P.State) {
    P.Inv(pipe) && P.OneEmitter(pipe, FUSE_THREAD)
  }

  // ---- The machine ----

  datatype State = State(history: History, todo: seq<Operation>, pipe: P.State, store: Store, jobs: seq<Job>)

  datatype Step =
    | Begin(next: Tree, ops: seq<Operation>)
    | Take(timestamp: nat)
    | Offer
    | CarryOut
    | Consume(step: P.Step)  // opening the backend, checking the flag, popping; or being told to stop
    | Apply(lib: Library)

  // A request is announced as any plain operations; nothing ties them to what it does.
  ghost predicate Enabled(s: State, step: Step) {
    match step
    case Begin(_, ops) => s.history.next.None? && AllPlain(ops)
    case Take(_) => s.history.next.Some? && s.todo != [] && FUSE_THREAD !in s.pipe.pending
    case Offer => FUSE_THREAD in s.pipe.pending
    case CarryOut => s.history.next.Some? && s.todo == [] && FUSE_THREAD !in s.pipe.pending
    case Consume(step) => !step.Take? && !step.Offer? && !step.Apply? && P.Enabled(s.pipe, step)
    case Apply(_) => P.Enabled(s.pipe, P.Apply)
  }

  ghost function Next(s: State, step: Step): State
    requires Enabled(s, step)
  {
    match step
    case Begin(next, ops) => s.(history := s.history.(next := Some(next)), todo := ops)
    case Take(timestamp) =>
      s.(history := s.history.(taken := s.history.taken + [s.todo[0]]), todo := s.todo[1..],
         pipe := P.Next(s.pipe, P.Take(FUSE_THREAD, s.todo[0], timestamp)))
    case Offer => s.(pipe := P.Next(s.pipe, P.Offer(FUSE_THREAD)))
    case CarryOut => s.(history := Settle(s.history))
    case Consume(step) => s.(pipe := P.Next(s.pipe, step))
    case Apply(lib) =>
      var job := Job(s.pipe.consumer.sent.opcode.op, lib);
      s.(pipe := P.Next(s.pipe, P.Apply), store := Recording.Apply(s.store, job).0, jobs := s.jobs + [job])
  }

  // ---- What every step keeps ----

  ghost predicate Inv(s: State, store0: Store) {
    && WellKept(s.history) && AllPlain(s.todo)
    && (s.history.next.None? ==> FUSE_THREAD !in s.pipe.pending)
    && Lossless(s.pipe, Issued(s.history))
    && Applied(s.pipe, s.jobs, s.store, store0)
  }

  lemma TakeKeeps(s: State, store0: Store, timestamp: nat)
    requires Inv(s, store0) && Enabled(s, Take(timestamp))
    ensures Inv(Next(s, Take(timestamp)), store0)
  {
    TakeKeepsLossless(s.pipe, Issued(s.history), s.todo[0], timestamp);
    assert Issued(Next(s, Take(timestamp)).history) == Issued(s.history) + [s.todo[0]];
  }

  lemma CarryOutKeeps(s: State, store0: Store)
    requires Inv(s, store0) && Enabled(s, CarryOut)
    ensures Inv(Next(s, CarryOut), store0)
  {
    SettleKeepsMoments(s.history, 0);
  }

  lemma ApplyKeeps(s: State, store0: Store, lib: Library)
    requires Inv(s, store0) && Enabled(s, Apply(lib))
    ensures Inv(Next(s, Apply(lib)), store0)
  {
    ApplyKeepsApplied(s.pipe, s.jobs, s.store, store0, Job(s.pipe.consumer.sent.opcode.op, lib));
    ConsumeKeepsLossless(s.pipe, Issued(s.history), P.Apply);
  }

  lemma StepKeepsInv(s: State, store0: Store, step: Step)
    requires Inv(s, store0) && Enabled(s, step)
    ensures Inv(Next(s, step), store0)
  {
    match step
    case Begin(next, ops) => assert Issued(s.history.(next := Some(next))) == Issued(s.history);
    case Take(timestamp) => TakeKeeps(s, store0, timestamp);
    case Offer => OfferKeepsLossless(s.pipe, Issued(s.history));
    case CarryOut => CarryOutKeeps(s, store0);
    case Consume(step) => ConsumeKeepsLossless(s.pipe, Issued(s.history), step);
    case Apply(lib) => ApplyKeeps(s, store0, lib);
  }

  lemma StepKeepsOrdered(s: State, step: Step)
    requires Ordered(s.pipe) && Enabled(s, step)
    ensures Ordered(Next(s, step).pipe)
  {
    match step
    case Begin(_, _) =>
    case Take(timestamp) => P.StepKeepsInv(s.pipe, P.Take(FUSE_THREAD, s.todo[0], timestamp));
    case Offer => P.StepKeepsInv(s.pipe, P.Offer(FUSE_THREAD));
    case CarryOut =>
    case Consume(step) => P.StepKeepsInv(s.pipe, step);
    case Apply(_) => P.StepKeepsInv(s.pipe, P.Apply);
  }

  lemma StepKeepsSince(s: State, step: Step, p: Path, n: nat)
    requires LosslessSince(s.pipe, Issued(s.history), p, n) && Enabled(s, step) && WellKept(s.history)
    ensures var s1 := Next(s, step); LosslessSince(s1.pipe, Issued(s1.history), p, n)
  {
    match step
    case Take(timestamp) =>
      TakeKeepsSince(s.pipe, Issued(s.history), p, n, s.todo[0], timestamp);
      assert Issued(Next(s, step).history) == Issued(s.history) + [s.todo[0]];
    case Offer => OfferKeepsSince(s.pipe, Issued(s.history), p, n);
    case Begin(next, ops) => assert Issued(Next(s, step).history) == Issued(s.history);
    case CarryOut => assert Issued(Settle(s.history)) == Issued(s.history);
    case Consume(step) => SameSince(s.pipe, P.Next(s.pipe, step), Issued(s.history), p, n);
    case Apply(_) => SameSince(s.pipe, P.Next(s.pipe, P.Apply), Issued(s.history), p, n);
  }

  // ---- What every step keeps as long as the truth is told about p ----

  // Whatever is announced by a request that begins now is true at p.
  ghost predicate TrueStep(s: State, step: Step, p: Path) {
    step.Begin? ==> s.history.views != [] && TrueAt(Files(s.history), step.next, step.ops, p)
  }

  ghost predicate Follows(s: State, p: Path, n0: nat, v: Tree) {
    && FollowsSince(s.history, p, n0, v)
    && (s.history.next.Some? ==>
          TrueAt(Files(s.history), s.history.next.value, s.history.taken + s.todo, p))
  }

  lemma TakeKeepsFollows(s: State, p: Path, n0: nat, v: Tree, timestamp: nat)
    requires Follows(s, p, n0, v) && AllPlain(s.todo) && Enabled(s, Take(timestamp))
    ensures Follows(Next(s, Take(timestamp)), p, n0, v)
  {
    var h, op := s.history, s.todo[0];
    var ops := h.taken + s.todo;
    assert ops[..|h.taken| + 1] == h.taken + [op] && ops[..|h.taken|] == h.taken;
    assert (h.taken + [op]) + s.todo[1..] == ops;
    TakeKeepsFollowing(h, p, n0, v, ops);
  }

  lemma CarryOutKeepsFollows(s: State, p: Path, n0: nat, v: Tree)
    requires Follows(s, p, n0, v) && Enabled(s, CarryOut)
    ensures Follows(Next(s, CarryOut), p, n0, v)
  {
    assert s.history.taken + [] == s.history.taken;
    SettleKeepsFollowing(s.history, p, n0, v);
  }

  lemma StepKeepsFollows(s: State, p: Path, n0: nat, v: Tree, step: Step)
    requires Follows(s, p, n0, v) && AllPlain(s.todo) && Enabled(s, step) && TrueStep(s, step, p)
    ensures Follows(Next(s, step), p, n0, v)
  {
    match step
    case Begin(next, ops) =>
      BeginKeepsFollowing(s.history, p, n0, v, next);
      assert [] + ops == ops;
    case Take(timestamp) => TakeKeepsFollows(s, p, n0, v, timestamp);
    case CarryOut => CarryOutKeepsFollows(s, p, n0, v);
    case _ =>
  }

  // All that is known of p at a state, when the truth was told about it since n0
  // operations had been issued, and the m0-th view was that of the files.
  ghost predicate Known(s: State, store0: Store, p: Path, n0: nat, m0: nat) {
    && Inv(s, store0) && Ordered(s.pipe)
    && LosslessSince(s.pipe, Issued(s.history), p, n0)
    && Later(s.history, n0, m0) && Follows(s, p, n0, s.history.views[m0])
  }

  lemma ViewsStay(s: State, s1: State, step: Step, m0: nat)
    requires m0 < |s.history.views| && Enabled(s, step) && s1 == Next(s, step)
    ensures |s.history.views| <= |s1.history.views| && s1.history.views[m0] == s.history.views[m0]
  {
  }

  lemma StepKeepsKnown(s: State, store0: Store, p: Path, n0: nat, m0: nat, step: Step)
    requires Known(s, store0, p, n0, m0) && Enabled(s, step) && TrueStep(s, step, p)
    ensures Known(Next(s, step), store0, p, n0, m0)
  {
    StepKeepsInv(s, store0, step);
    StepKeepsOrdered(s, step);
    StepKeepsSince(s, step, p, n0);
    LaterStays(s.history, n0, m0);
    StepKeepsFollows(s, p, n0, s.history.views[m0], step);
  }

  // ---- What follows for the recorded bytes ----

  // What was applied from the j-th on is what is numbered above n.
  ghost predicate AppliedSince(applied: seq<P.Sent>, n: nat, j: nat) {
    && j <= |applied|
    && forall i | 0 <= i < |applied| :: applied[i].opcode.seqNo > n <==> i >= j
  }

  lemma AppliedWasIssued(pipe: P.State, issued: seq<Operation>, k: nat)
    requires Ordered(pipe) && SentOps(pipe.issued) == issued && k < |pipe.applied|
    ensures var x := pipe.applied[k]; 1 <= x.opcode.seqNo <= |issued| && issued[x.opcode.seqNo - 1] == x.opcode.op
  {
    var x := pipe.applied[k];
    assert x == pipe.accepted[k] && x in pipe.accepted && x in pipe.issued;
    var i :| 0 <= i < |pipe.issued| && pipe.issued[i] == x;
    assert pipe.issued[i].opcode.seqNo == i + 1;
  }

  lemma AllAppliedSinceStart(s: State, store0: Store)
    requires Inv(s, store0) && Ordered(s.pipe)
    ensures AppliedSince(s.pipe.applied, 0, 0)
  {
    assert |OpsOf(s.jobs)| == |SentOps(s.pipe.applied)|;
    forall i | 0 <= i < |s.pipe.applied| ensures s.pipe.applied[i].opcode.seqNo > 0 {
      AppliedWasIssued(s.pipe, Issued(s.history), i);
    }
  }

  // Numbers rise, so the jobs from the k-th on are those numbered from its number on.
  lemma AppliedSinceItself(s: State, store0: Store, k: nat)
    requires Inv(s, store0) && Ordered(s.pipe) && k < |s.jobs|
    ensures k < |s.pipe.applied| && s.pipe.applied[k].opcode.seqNo >= 1
    ensures AppliedSince(s.pipe.applied, s.pipe.applied[k].opcode.seqNo - 1, k)
  {
    assert |OpsOf(s.jobs)| == |SentOps(s.pipe.applied)|;
    AppliedWasIssued(s.pipe, Issued(s.history), k);
    forall i | 0 <= i < |s.pipe.applied|
      ensures s.pipe.applied[i].opcode.seqNo >= s.pipe.applied[k].opcode.seqNo <==> i >= k
    {
      assert s.pipe.applied[i] == s.pipe.accepted[i] && s.pipe.applied[k] == s.pipe.accepted[k];
      if i < k {
        P.AcceptedRise(s.pipe, FUSE_THREAD, i, k);
      } else if k < i {
        P.AcceptedRise(s.pipe, FUSE_THREAD, k, i);
      }
    }
  }

  lemma {:induction false} SentSinceMiddle(xs: seq<P.Sent>, j: nat, n: nat)
    requires AppliedSince(xs, n, j)
    ensures SentSince(xs, n) == SentOps(xs[j..])
    decreases |xs|
  {
    if xs != [] {
      var front := xs[..|xs| - 1];
      SentSinceMiddle(front, if j < |xs| then j else j - 1, n);
      if j < |xs| {
        assert xs[j..] == front[j..] + [xs[|xs| - 1]];
      }
    }
  }

  lemma {:induction false} SentSinceSplits(a: seq<P.Sent>, b: seq<P.Sent>, n: nat)
    ensures SentSince(a + b, n) == SentSince(a, n) + SentSince(b, n)
    decreases |b|
  {
    if b == [] {
      assert a + b == a && SentSince(a, n) + [] == SentSince(a, n);
    } else {
      assert (a + b)[..|a + b| - 1] == a + b[..|b| - 1];
      SentSinceSplits(a, b[..|b| - 1], n);
    }
  }

  // The operations on p applied since are the first of those on p issued since; once
  // nothing is left on the way, they are all of them.
  lemma AppliedAreFirstOn(pipe: P.State, issued: seq<Operation>, p: Path, n: nat)
    requires LosslessSince(pipe, issued, p, n) && UnrejectedSince(pipe, p, n) && n <= |issued|
    requires pipe.applied <= pipe.accepted
    ensures OpsAffecting(SentSince(pipe.applied, n), p) <= OpsAffecting(issued[n..], p)
    ensures pipe.accepted == pipe.applied && FUSE_THREAD !in pipe.pending ==>
              OpsAffecting(SentSince(pipe.applied, n), p) == OpsAffecting(issued[n..], p)
  {
    var more := SentSince(pipe.accepted[|pipe.applied|..], n) + PendingSince(pipe, n);
    AcceptedSinceSplits(pipe, n);
    FirstOfAll(SentSince(pipe.applied, n), more, p);
    assert Tail(issued, n) == issued[n..];
  }

  lemma AcceptedSinceSplits(pipe: P.State, n: nat)
    requires pipe.applied <= pipe.accepted
    ensures var rest := pipe.accepted[|pipe.applied|..];
            SentSince(pipe.accepted, n) + PendingSince(pipe, n) ==
            SentSince(pipe.applied, n) + (SentSince(rest, n) + PendingSince(pipe, n))
  {
    var rest := pipe.accepted[|pipe.applied|..];
    assert pipe.accepted == pipe.applied + rest;
    SentSinceSplits(pipe.applied, rest, n);
  }

  lemma FirstOfAll(ops: seq<Operation>, more: seq<Operation>, p: Path)
    ensures OpsAffecting(ops, p) <= OpsAffecting(ops + more, p)
    ensures more == [] ==> OpsAffecting(ops, p) == OpsAffecting(ops + more, p)
  {
    AffectingSplits(ops, more, p);
  }

  lemma JobsAreSince(jobs: seq<Job>, applied: seq<P.Sent>, n: nat, j: nat)
    requires OpsOf(jobs) == SentOps(applied) && AppliedSince(applied, n, j) && j <= |jobs|
    ensures OpsOf(jobs[j..]) == SentSince(applied, n)
  {
    LaterOps(jobs, applied, j);
    SentSinceMiddle(applied, j, n);
  }

  lemma JobsAreFirst(s: State, store0: Store, p: Path, n0: nat, m0: nat, j: nat)
    requires Known(s, store0, p, n0, m0) && AppliedSince(s.pipe.applied, n0, j) && UnrejectedSince(s.pipe, p, n0)
    ensures j <= |s.jobs| && n0 <= |s.history.settled|
    ensures OpsAffecting(OpsOf(s.jobs[j..]), p) <= OpsAffecting(Issued(s.history)[n0..], p)
    ensures s.pipe.accepted == s.pipe.applied && FUSE_THREAD !in s.pipe.pending ==>
              OpsAffecting(OpsOf(s.jobs[j..]), p) == OpsAffecting(Issued(s.history)[n0..], p)
  {
    JobsWereAccepted(s, store0);
    JobsAreSince(s.jobs, s.pipe.applied, n0, j);
    AppliedAreFirstOn(s.pipe, Issued(s.history), p, n0);
  }

  lemma JobsWereAccepted(s: State, store0: Store)
    requires Inv(s, store0) && Ordered(s.pipe)
    ensures OpsOf(s.jobs) == SentOps(s.pipe.applied) && |s.jobs| == |s.pipe.applied|
    ensures s.pipe.applied <= s.pipe.accepted
  {
    assert |s.jobs| == |OpsOf(s.jobs)| == |SentOps(s.pipe.applied)| == |s.pipe.applied|;
  }

  lemma LaterOps(jobs: seq<Job>, applied: seq<P.Sent>, k: nat)
    requires OpsOf(jobs) == SentOps(applied) && k <= |jobs|
    ensures OpsOf(jobs[k..]) == SentOps(applied[k..])
  {
    forall i | 0 <= i < |jobs| - k ensures OpsOf(jobs[k..])[i] == SentOps(applied[k..])[i] {
      assert OpsOf(jobs)[k + i] == SentOps(applied)[k + i];
    }
  }

  lemma FirstSucceed(h: History, p: Path, n0: nat, v: Tree, some: seq<Operation>)
    requires FollowsSince(h, p, n0, v) && some <= OpsAffecting(Issued(h)[n0..], p)
    ensures AllSucceed(v, some)
  {
    var all := OpsAffecting(Issued(h)[n0..], p);
    assert Issued(h)[n0..] == Issued(h)[n0..|Issued(h)|];
    assert all == some + all[|some|..];
    SucceedSplits(v, some, all[|some|..]);
  }

  lemma JobsArePlain(s: State, store0: Store, j: nat)
    requires Inv(s, store0) && Ordered(s.pipe) && j <= |s.jobs|
    ensures AllPlain(OpsOf(s.jobs[j..]))
  {
    JobsWereAccepted(s, store0);
    LaterOps(s.jobs, s.pipe.applied, j);
    AppliedArePlain(s.pipe, Issued(s.history), j);
  }

  lemma AppliedArePlain(pipe: P.State, issued: seq<Operation>, j: nat)
    requires Ordered(pipe) && SentOps(pipe.issued) == issued && AllPlain(issued) && j <= |pipe.applied|
    ensures AllPlain(SentOps(pipe.applied[j..]))
  {
    var ops := SentOps(pipe.applied[j..]);
    forall i | 0 <= i < |ops| ensures Plain(ops[i]) {
      AppliedWasIssued(pipe, issued, j + i);
    }
  }

  // The recorded bytes are those of the operations on p applied since.
  ghost predicate RecordsJobs(s: State, p: Path, v: Tree, j: nat)
    requires j <= |s.jobs|
  {
    Agree(Recorded(s.store, p), ContentAt(ReplayAll(v, OpsAffecting(OpsOf(s.jobs[j..]), p)), p))
  }

  lemma AgreeAlike(c: Content, t: Tree, u: Tree, p: Path)
    requires Agree(c, ContentAt(t, p)) && SameAt(t, u, p)
    ensures Agree(c, ContentAt(u, p))
  {
  }

  // The files as they were then, and after every request since.
  ghost function MomentsSince(h: History, m0: nat): (r: seq<Tree>)
    requires m0 < |h.views|
    ensures |r| > 0 && r[0] == h.views[m0]
    ensures forall x | x in r :: x in Moments(h)
  {
    Moments(h)[m0..]
  }

  lemma MomentIsSince(h: History, n0: nat, m0: nat, n: nat)
    requires WellKept(h) && Later(h, n0, m0) && n0 < n <= |Issued(h)|
    ensures MomentAt(h, n) in MomentsSince(h, m0)
  {
    var i := if n <= |h.settled| then h.marks[n - 1] else |h.views|;
    assert MomentAt(h, n) == Moments(h)[i] == MomentsSince(h, m0)[i - m0];
  }

  // The first of the operations on p issued since lead to a moment.
  lemma FirstLeadTo(h: History, p: Path, n0: nat, m0: nat, some: seq<Operation>) returns (moment: Tree)
    requires Later(h, n0, m0) && FollowsSince(h, p, n0, h.views[m0]) && some <= OpsAffecting(Issued(h)[n0..], p)
    ensures moment in MomentsSince(h, m0)
    ensures SameAt(ReplayAll(h.views[m0], some), moment, p)
  {
    var n := PrefixWith(Issued(h)[n0..], p, |some|);
    assert Issued(h)[n0..][..n] == Issued(h)[n0..n0 + n];
    assert About(h, p, n0, n0 + n) == some;
    if n == 0 {
      assert About(h, p, n0, n0) == [];
      moment := MomentsSince(h, m0)[0];
    } else {
      moment := MomentAt(h, n0 + n);
      MomentIsSince(h, n0, m0, n0 + n);
      assert FollowsAt(h, p, n0, h.views[m0], n0 + n);
    }
  }

  // So there is a moment of which they tell.
  lemma SomeMoment(s: State, store0: Store, p: Path, n0: nat, m0: nat, j: nat) returns (moment: Tree)
    requires Known(s, store0, p, n0, m0) && AppliedSince(s.pipe.applied, n0, j) && UnrejectedSince(s.pipe, p, n0)
    requires j <= |s.jobs| && RecordsJobs(s, p, s.history.views[m0], j)
    ensures moment in MomentsSince(s.history, m0)
    ensures Agree(Recorded(s.store, p), ContentAt(moment, p))
  {
    JobsAreFirst(s, store0, p, n0, m0, j);
    var some := OpsAffecting(OpsOf(s.jobs[j..]), p);
    moment := FirstLeadTo(s.history, p, n0, m0, some);
    AgreeAlike(Recorded(s.store, p), ReplayAll(s.history.views[m0], some), moment, p);
  }

  ghost predicate Drained(s: State) {
    s.history.next.None? && s.pipe.pending == map[] && s.pipe.queue == [] && !s.pipe.consumer.Holding?
  }

  // Once nothing is left on the way, they tell of the files as they are.
  lemma FilesAsTheyAre(s: State, store0: Store, p: Path, n0: nat, m0: nat, j: nat)
    requires Known(s, store0, p, n0, m0) && AppliedSince(s.pipe.applied, n0, j) && UnrejectedSince(s.pipe, p, n0)
    requires j <= |s.jobs| && RecordsJobs(s, p, s.history.views[m0], j) && Drained(s)
    ensures Agree(Recorded(s.store, p), ContentAt(Files(s.history), p))
  {
    NothingOnTheWay(s.pipe);
    JobsAreFirst(s, store0, p, n0, m0, j);
    assert Issued(s.history) == s.history.settled;
    assert Issued(s.history)[n0..] == Issued(s.history)[n0..|s.history.settled|];
    var v := s.history.views[m0];
    AgreeAlike(Recorded(s.store, p), ReplayAll(v, About(s.history, p, n0, |s.history.settled|)), Files(s.history), p);
  }

  lemma NothingOnTheWay(pipe: P.State)
    requires P.Conserved(pipe) && pipe.queue == [] && !pipe.consumer.Holding?
    ensures pipe.accepted == pipe.applied
  {
    assert pipe.accepted == pipe.applied + [] + [];
  }

  // ---- From any moment between requests ----

  lemma {:induction false} NoneSince(xs: seq<P.Sent>, n: nat)
    requires forall x | x in xs :: x.opcode.seqNo <= n
    ensures SentSince(xs, n) == []
    decreases |xs|
  {
    if xs != [] {
      NoneSince(xs[..|xs| - 1], n);
    }
  }

  lemma NothingSince(pipe: P.State, issued: seq<Operation>, p: Path, n: nat)
    requires Ordered(pipe) && Lossless(pipe, issued) && FUSE_THREAD !in pipe.pending && n == |issued|
    ensures LosslessSince(pipe, issued, p, n) && pipe.nextSeq == n + 1
  {
    assert |SentOps(pipe.issued)| == |pipe.issued|;
    forall x | x in pipe.accepted ensures x.opcode.seqNo <= n {
      var i :| 0 <= i < |pipe.issued| && pipe.issued[i] == x;
      assert pipe.issued[i].opcode.seqNo == i + 1;
    }
    NoneSince(pipe.accepted, n);
    assert Tail(issued, n) == [];
  }

  // Whatever was lost or untrue before, one can start afresh.
  lemma KnownFromHere(s: State, store0: Store, p: Path, n0: nat, m0: nat)
    requires Inv(s, store0) && Ordered(s.pipe) && s.history.next.None?
    requires n0 == |s.history.settled| && m0 + 1 == |s.history.views|
    ensures Known(s, store0, p, n0, m0)
    ensures s.pipe.nextSeq == n0 + 1
  {
    FollowsFromHere(s.history, p, n0, m0);
    NothingSince(s.pipe, Issued(s.history), p, n0);
  }

  // ---- From the start ----

  // A path the backend can name, and which no applied operation blocked.
  ghost predicate Recordable(s: State, store0: Store, p: Path) {
    IsUtf8(p) && p != [] && Unblocked(store0, s.jobs, p)
  }

  lemma StartInv(v0: Tree, capacity: nat, store0: Store)
    ensures var s := State(History([v0], [], [], [], None), [], P.Initial(capacity), store0, []);
            Inv(s, store0) && Ordered(s.pipe)
  {
    assert Issued(History([v0], [], [], [], None)) == [] && SentOps([]) == [] && OpsOf([]) == [];
    assert StoreAfter(store0, []) == store0;
  }

  lemma RecordsAllJobs(s: State, store0: Store, p: Path)
    requires Known(s, store0, p, 0, 0) && Recordable(s, store0, p) && Synced(store0, s.history.views[0], p)
    requires AllSucceed(s.history.views[0], OpsAffecting(OpsOf(s.jobs), p))
    ensures RecordsJobs(s, p, s.history.views[0], 0)
  {
    JobsArePlain(s, store0, 0);
    assert s.jobs[0..] == s.jobs;
    AppliedStaysSynced(store0, s.history.views[0], s.jobs, p);
  }

  // Fault isolation: a path none of whose opcodes was rejected.
  lemma NothingOnPathRejected(s: State, store0: Store, p: Path) returns (moment: Tree)
    requires Known(s, store0, p, 0, 0) && Recordable(s, store0, p) && Synced(store0, s.history.views[0], p)
    requires UnrejectedSince(s.pipe, p, 0)
    ensures moment in Moments(s.history)
    ensures Agree(Recorded(s.store, p), ContentAt(moment, p))
    ensures Drained(s) ==> Agree(Recorded(s.store, p), ContentAt(Files(s.history), p))
  {
    AllAppliedSinceStart(s, store0);
    JobsAreFirst(s, store0, p, 0, 0, 0);
    assert s.jobs[0..] == s.jobs;
    FirstSucceed(s.history, p, 0, s.history.views[0], OpsAffecting(OpsOf(s.jobs), p));
    RecordsAllJobs(s, store0, p);
    moment := SomeMoment(s, store0, p, 0, 0, 0);
    if Drained(s) {
      FilesAsTheyAre(s, store0, p, 0, 0, 0);
    }
  }

  // With nothing rejected there is one moment for all paths at once.
  lemma AppliedAreFirst(s: State, store0: Store)
    requires Inv(s, store0) && P.Conserved(s.pipe) && s.pipe.rejected == []
    ensures |s.jobs| <= |Issued(s.history)| && OpsOf(s.jobs) == Issued(s.history)[..|s.jobs|]
  {
    assert |OpsOf(s.jobs)| == |SentOps(s.pipe.applied)|;
    var kept := SentOps(s.pipe.accepted) + PendingOps(s.pipe);
    forall i | 0 <= i < |s.jobs| ensures OpsOf(s.jobs)[i] == kept[i] {
      assert SentOps(s.pipe.applied)[i] == s.pipe.accepted[i].opcode.op;
    }
  }

  lemma NothingRejected(s: State, store0: Store, p: Path)
    requires Known(s, store0, p, 0, 0) && Recordable(s, store0, p) && Synced(store0, s.history.views[0], p)
    requires s.pipe.rejected == []
    ensures |s.jobs| <= |Issued(s.history)|
    ensures Agree(Recorded(s.store, p), ContentAt(MomentAt(s.history, |s.jobs|), p))
  {
    var h, v, n := s.history, s.history.views[0], |s.jobs|;
    AppliedAreFirst(s, store0);
    AllAppliedSinceStart(s, store0);
    JobsAreFirst(s, store0, p, 0, 0, 0);
    assert s.jobs[0..] == s.jobs;
    FirstSucceed(s.history, p, 0, s.history.views[0], OpsAffecting(OpsOf(s.jobs), p));
    RecordsAllJobs(s, store0, p);
    assert Issued(h)[..n] == Issued(h)[0..n];
    assert About(h, p, 0, n) == OpsAffecting(OpsOf(s.jobs), p);
    if n > 0 {
      assert FollowsAt(h, p, 0, v, n);
      AgreeAlike(Recorded(s.store, p), ReplayAll(v, About(h, p, 0, n)), MomentAt(h, n), p);
    }
  }

  // ---- From a truncation on ----

  // The k-th job emptied p, which the store tracked; before it, anything may have been
  // lost, and anything may have been false.
  ghost predicate EmptiedBy(jobs: seq<Job>, store0: Store, p: Path, k: nat) {
    && k < |jobs| && jobs[k].op == FileTruncate(p, 0)
    && var s1 := StoreAfter(store0, jobs[..k]); p in s1.tracked && p in s1.contents
  }

  lemma RecordsSinceTruncation(jobs: seq<Job>, store0: Store, p: Path, v: Tree, k: nat)
    requires EmptiedBy(jobs, store0, p, k) && IsUtf8(p) && p != [] && AllPlain(OpsOf(jobs[k..]))
    requires AllSucceed(v, OpsAffecting(OpsOf(jobs[k..]), p))
    ensures Agree(Recorded(StoreAfter(store0, jobs), p),
                  ContentAt(ReplayAll(v, OpsAffecting(OpsOf(jobs[k..]), p)), p))
  {
    var trunc, later := jobs[k], jobs[k + 1..];
    assert jobs[k..] == [trunc] + later && jobs == jobs[..k] + jobs[k..];
    OpsOfRest(jobs[k..]);
    assert jobs[k..][1..] == later;
    assert OpsAffecting(OpsOf(jobs[k..]), p)[1..] == OpsAffecting(OpsOf(later), p);
    TruncationResynchronises(StoreAfter(store0, jobs[..k]), v, trunc, later, p);
    RunOfConcat(store0, jobs[..k], jobs[k..]);
  }

  // Re-synchronisation: if the first operation since was an accepted truncation of p to
  // nothing, applied while the store tracked p, and nothing on p was rejected since, then
  // p is recorded as it was at some moment since.
  lemma EmptiedThenFollowed(s: State, store0: Store, p: Path, n0: nat, m0: nat, k: nat) returns (moment: Tree)
    requires Known(s, store0, p, n0, m0) && UnrejectedSince(s.pipe, p, n0)
    requires IsUtf8(p) && p != [] && EmptiedBy(s.jobs, store0, p, k)
    requires k < |s.pipe.applied| && s.pipe.applied[k].opcode.seqNo == n0 + 1
    ensures moment in MomentsSince(s.history, m0)
    ensures Agree(Recorded(s.store, p), ContentAt(moment, p))
    ensures Drained(s) ==> Agree(Recorded(s.store, p), ContentAt(Files(s.history), p))
  {
    AppliedSinceItself(s, store0, k);
    JobsAreFirst(s, store0, p, n0, m0, k);
    FirstSucceed(s.history, p, n0, s.history.views[m0], OpsAffecting(OpsOf(s.jobs[k..]), p));
    JobsArePlain(s, store0, k);
    RecordsSinceTruncation(s.jobs, store0, p, s.history.views[m0], k);
    moment := SomeMoment(s, store0, p, n0, m0, k);
    if Drained(s) {
      FilesAsTheyAre(s, store0, p, n0, m0, k);
    }
  }
}
