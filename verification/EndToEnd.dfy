// The whole machine: the file system thread serves one request at a time, first
// notifying the recorder and then carrying the request out, while the recording
// thread works through the queue; either may be anywhere in its code at any time.
module EndToEnd {
  import opened Wrappers
  import opened Bytes
  import opened Opcodes
  import opened Names
  import opened FileTree
  import opened Recording
  import opened Replaying
  import F = Following
  import opened Capture
  import Mount
  import P = Pipeline

  // What the file system thread is doing: nothing, or a request of which some
  // operations are still to be numbered.
  datatype Fuse = Idle | Serving(call: Call, todo: seq<Operation>)

  datatype State = State(
    filters: seq<Name>,
    mount: Mount.State,
    fuse: Fuse,
    pipe: P.State,
    store: Store,
    // what happened so far: the jobs the consumer applied, and the files as the
    // requests left them
    jobs: seq<Job>,
    history: F.History
  )

  datatype Step =
    | Begin(call: Call)
    | Take(timestamp: nat)
    | Offer
    | CarryOut
    | Consume(step: P.Step)
    | Apply(lib: Library)

  // Requests are those of a well-behaved kernel, renames apart. Nothing says that they
  // succeed, or that what is notified of them is true.
  ghost predicate Enabled(s: State, step: Step) {
    match step
    case Begin(call) => s.fuse.Idle? && Mount.Valid(s.mount, call.req) && !call.req.Rename?
    case Take(_) => s.fuse.Serving? && s.fuse.todo != [] && F.FUSE_THREAD !in s.pipe.pending
    case Offer => F.FUSE_THREAD in s.pipe.pending
    case CarryOut => s.fuse.Serving? && s.fuse.todo == [] && F.FUSE_THREAD !in s.pipe.pending
    case Consume(step) => !step.Take? && !step.Offer? && !step.Apply? && P.Enabled(s.pipe, step)
    case Apply(_) => P.Enabled(s.pipe, P.Apply)
  }

  ghost function Shown(s: State): FileTree.Tree {
    View(s.filters, s.mount)
  }

  // The request is looked up and its operations are captured before it is carried out.
  ghost function Begun(s: State, call: Call): State {
    s.(fuse := Serving(call, Emissions(s.filters, s.mount.names, call.req)),
       history := s.history.(next := Some(View(s.filters, Mount.Step(s.mount, call)))))
  }

  ghost function Taken(s: State, timestamp: nat): State
    requires s.fuse.Serving? && s.fuse.todo != [] && F.FUSE_THREAD !in s.pipe.pending
  {
    var op := s.fuse.todo[0];
    s.(pipe := P.Next(s.pipe, P.Take(F.FUSE_THREAD, op, timestamp)),
       fuse := Serving(s.fuse.call, s.fuse.todo[1..]),
       history := s.history.(taken := s.history.taken + [op]))
  }

  // The history is settled with the files as they turned out.
  ghost function CarriedOut(s: State): State
    requires s.fuse.Serving?
  {
    var mount := Mount.Step(s.mount, s.fuse.call);
    s.(mount := mount, fuse := Idle,
       history := F.Settle(s.history.(next := Some(View(s.filters, mount)))))
  }

  ghost function Applied(s: State, lib: Library): State
    requires P.Enabled(s.pipe, P.Apply)
  {
    var job := Job(s.pipe.consumer.sent.opcode.op, lib);
    s.(pipe := P.Next(s.pipe, P.Apply), store := Recording.Apply(s.store, job).0, jobs := s.jobs + [job])
  }

  ghost function Next(s: State, step: Step): State
    requires Enabled(s, step)
  {
    match step
    case Begin(call) => Begun(s, call)
    case Take(timestamp) => Taken(s, timestamp)
    case Offer => s.(pipe := P.Next(s.pipe, P.Offer(F.FUSE_THREAD)))
    case CarryOut => CarriedOut(s)
    case Consume(step) => s.(pipe := P.Next(s.pipe, step))
    case Apply(lib) => Applied(s, lib)
  }

  // A fresh mount: nothing is being served, nothing is queued, nothing was recorded yet
  // through it. What the store and the files hold is left open.
  ghost predicate Initial(s: State) {
    && Mount.Inv(s.mount) && s.fuse == Idle && s.pipe == P.Initial(s.pipe.capacity)
    && s.jobs == [] && s.history == F.History([Shown(s)], [], [], [], None)
  }

  ghost predicate Runs(s: State, steps: seq<Step>)
    decreases |steps|
  {
    steps != [] ==> Enabled(s, steps[0]) && Runs(Next(s, steps[0]), steps[1..])
  }

  ghost function After(s: State, steps: seq<Step>): State
    requires Runs(s, steps)
    decreases |steps|
  {
    if steps == [] then s else After(Next(s, steps[0]), steps[1..])
  }

  // ---- The machine as an instance of Following ----

  ghost function Abstract(s: State): F.State {
    F.State(s.history, if s.fuse.Serving? then s.fuse.todo else [], s.pipe, s.store, s.jobs)
  }

  function BeingServed(fuse: Fuse): Option<Call> {
    if fuse.Serving? then Some(fuse.call) else None
  }

  // The history tells of the mount, and of what the request being served will make of it.
  ghost predicate Tells(filters: seq<Name>, m: Mount.State, call: Option<Call>, views: seq<FileTree.Tree>,
                        next: Option<FileTree.Tree>)
  {
    && views != [] && views[|views| - 1] == View(filters, m)
    && (call.None? ==> next == None)
    && (call.Some? ==>
          && Mount.Valid(m, call.value.req) && !call.value.req.Rename?
          && next == Some(View(filters, Mount.Step(m, call.value))))
  }

  ghost predicate Attached(s: State) {
    && Mount.Inv(s.mount)
    && Tells(s.filters, s.mount, BeingServed(s.fuse), s.history.views, s.history.next)
  }

  // Whoever begins a request that acts on p tells the truth about it.
  ghost predicate TruthfulStep(s: State, step: Step, p: Path) {
    step.Begin? && Target(s.mount.names.known, step.call.req) == Some(p) ==>
      Truthful(s.filters, s.mount, step.call)
  }

  lemma BeginTells(filters: seq<Name>, m: Mount.State, call: Call, views: seq<FileTree.Tree>, next: FileTree.Tree)
    requires Tells(filters, m, None, views, None)
    requires Mount.Valid(m, call.req) && !call.req.Rename? && next == View(filters, Mount.Step(m, call))
    ensures Tells(filters, m, Some(call), views, Some(next))
  {
  }

  lemma BeginAttaches(s: State, call: Call)
    requires Attached(s) && Enabled(s, Begin(call))
    ensures Attached(Begun(s, call))
  {
    BeginTells(s.filters, s.mount, call, s.history.views, Begun(s, call).history.next.value);
  }

  lemma Announced(filters: seq<Name>, m: Mount.State, call: Call, v: FileTree.Tree, next: FileTree.Tree,
                  ops: seq<Operation>, p: Path)
    requires Mount.Inv(m) && Mount.Valid(m, call.req) && !call.req.Rename? && p != []
    requires v == View(filters, m) && next == View(filters, Mount.Step(m, call))
    requires ops == Emissions(filters, m.names, call.req)
    ensures AllPlain(ops)
    ensures (Target(m.names.known, call.req) == Some(p) ==> Truthful(filters, m, call)) ==> TrueAt(v, next, ops, p)
  {
    EmissionsArePlain(filters, m, call.req);
    RequestIsTrueAtIff(filters, m, call, p);
  }

  lemma BeginRefines(s: State, s1: State, call: Call, next: FileTree.Tree, ops: seq<Operation>)
    requires s.fuse.Idle? && s.history.next.None? && AllPlain(ops)
    requires s1 == s.(fuse := Serving(call, ops), history := s.history.(next := Some(next)))
    ensures F.Enabled(Abstract(s), F.Begin(next, ops))
    ensures F.Next(Abstract(s), F.Begin(next, ops)) == Abstract(s1)
  {
  }

  lemma BeginIsBegin(s: State, call: Call, s1: State, p: Path) returns (fstep: F.Step)
    requires Attached(s) && Enabled(s, Begin(call)) && s1 == Begun(s, call) && p != []
    ensures F.Enabled(Abstract(s), fstep) && F.Next(Abstract(s), fstep) == Abstract(s1)
    ensures TruthfulStep(s, Begin(call), p) ==> F.TrueStep(Abstract(s), fstep, p)
  {
    var next, ops := s1.history.next.value, s1.fuse.todo;
    Announced(s.filters, s.mount, call, F.Files(s.history), next, ops, p);
    BeginRefines(s, s1, call, next, ops);
    fstep := F.Begin(next, ops);
  }

  lemma CarryOutTells(filters: seq<Name>, m: Mount.State, views: seq<FileTree.Tree>, view: FileTree.Tree)
    requires view == View(filters, m)
    ensures Tells(filters, m, None, views + [view], None)
  {
  }

  lemma Foretold(filters: seq<Name>, m: Mount.State, call: Call, views: seq<FileTree.Tree>,
                 next: Option<FileTree.Tree>, m1: Mount.State)
    requires Mount.Inv(m) && Tells(filters, m, Some(call), views, next) && m1 == Mount.Step(m, call)
    ensures next == Some(View(filters, m1)) && Mount.Inv(m1)
  {
    Mount.StepKeepsInv(m, call);
  }

  lemma CarryOutRefines(s: State, s1: State)
    requires Attached(s) && Enabled(s, CarryOut) && s1 == CarriedOut(s)
    ensures F.Enabled(Abstract(s), F.CarryOut) && F.Next(Abstract(s), F.CarryOut) == Abstract(s1)
    ensures Attached(s1)
  {
    Foretold(s.filters, s.mount, s.fuse.call, s.history.views, s.history.next, s1.mount);
    CarryOutTells(s.filters, s1.mount, s.history.views, Shown(s1));
  }

  lemma StaysAttached(s: State, s1: State)
    requires Attached(s)
    requires s1.filters == s.filters && s1.mount == s.mount && BeingServed(s1.fuse) == BeingServed(s.fuse)
    requires s1.history.views == s.history.views && s1.history.next == s.history.next
    ensures Attached(s1)
  {
  }

  lemma QuietRefines(s: State, step: Step, a: F.State) returns (fstep: F.Step)
    requires Enabled(s, step) && !step.Begin? && !step.CarryOut? && a == Abstract(s)
    requires s.fuse.Serving? ==> s.history.next.Some?
    ensures F.Enabled(a, fstep) && !fstep.Begin? && F.Next(a, fstep) == Abstract(Next(s, step))
  {
    match step
    case Take(timestamp) => fstep := F.Take(timestamp);
    case Offer => fstep := F.Offer;
    case Consume(step) => fstep := F.Consume(step);
    case Apply(lib) => fstep := F.Apply(lib);
  }

  // Every step of the machine is a step of Following, and what is true of p here is true
  // of p there.
  lemma StepRefines(s: State, step: Step, p: Path) returns (fstep: F.Step)
    requires Attached(s) && Enabled(s, step) && p != []
    ensures F.Enabled(Abstract(s), fstep) && F.Next(Abstract(s), fstep) == Abstract(Next(s, step))
    ensures TruthfulStep(s, step, p) ==> F.TrueStep(Abstract(s), fstep, p)
    ensures Attached(Next(s, step))
  {
    match step
    case Begin(call) =>
      BeginAttaches(s, call);
      fstep := BeginIsBegin(s, call, Begun(s, call), p);
    case CarryOut =>
      CarryOutRefines(s, Next(s, step));
      fstep := F.CarryOut;
    case _ =>
      StaysAttached(s, Next(s, step));
      fstep := QuietRefines(s, step, Abstract(s));
  }

  // ---- Runs ----

  // What holds after every run, whatever fails and whatever is untrue.
  ghost predicate Inv(s: State, store0: Store) {
    Attached(s) && F.Inv(Abstract(s), store0) && F.Ordered(s.pipe)
  }

  lemma {:induction false} EveryRunKeepsInv(s: State, store0: Store, steps: seq<Step>)
    requires Inv(s, store0) && Runs(s, steps)
    ensures Inv(After(s, steps), store0)
    decreases |steps|
  {
    if steps != [] {
      var fstep := StepRefines(s, steps[0], [Utf8("")]);
      F.StepKeepsInv(Abstract(s), store0, fstep);
      F.StepKeepsOrdered(Abstract(s), fstep);
      EveryRunKeepsInv(Next(s, steps[0]), store0, steps[1..]);
    }
  }

  ghost predicate TruthfulAbout(s: State, steps: seq<Step>, p: Path)
    requires Runs(s, steps)
    decreases |steps|
  {
    steps != [] ==> TruthfulStep(s, steps[0], p) && TruthfulAbout(Next(s, steps[0]), steps[1..], p)
  }

  ghost predicate Known(s: State, store0: Store, p: Path, n0: nat, m0: nat) {
    Attached(s) && F.Known(Abstract(s), store0, p, n0, m0)
  }

  lemma StepKeepsKnown(s: State, s1: State, store0: Store, p: Path, n0: nat, m0: nat, step: Step)
    requires Known(s, store0, p, n0, m0) && Enabled(s, step) && TruthfulStep(s, step, p) && p != []
    requires s1 == Next(s, step)
    ensures Known(s1, store0, p, n0, m0)
    ensures |s.history.views| <= |s1.history.views| && s1.history.views[m0] == s.history.views[m0]
  {
    var fstep := StepRefines(s, step, p);
    StaysKnown(Abstract(s), Abstract(s1), store0, p, n0, m0, fstep);
  }

  lemma StaysKnown(a: F.State, a1: F.State, store0: Store, p: Path, n0: nat, m0: nat, fstep: F.Step)
    requires F.Known(a, store0, p, n0, m0) && F.Enabled(a, fstep) && F.TrueStep(a, fstep, p)
    requires a1 == F.Next(a, fstep)
    ensures F.Known(a1, store0, p, n0, m0)
    ensures m0 < |a.history.views| <= |a1.history.views| && a1.history.views[m0] == a.history.views[m0]
  {
    F.ViewsStay(a, a1, fstep, m0);
    F.StepKeepsKnown(a, store0, p, n0, m0, fstep);
  }

  lemma {:induction false} EveryRunKeepsKnown(s: State, store0: Store, p: Path, n0: nat, m0: nat, steps: seq<Step>)
    requires Known(s, store0, p, n0, m0) && Runs(s, steps) && TruthfulAbout(s, steps, p) && p != []
    ensures Known(After(s, steps), store0, p, n0, m0)
    ensures var s1 := After(s, steps);
            |s.history.views| <= |s1.history.views| && s1.history.views[m0] == s.history.views[m0]
    decreases |steps|
  {
    if steps != [] {
      StepKeepsKnown(s, Next(s, steps[0]), store0, p, n0, m0, steps[0]);
      EveryRunKeepsKnown(Next(s, steps[0]), store0, p, n0, m0, steps[1..]);
    }
  }

  lemma InitialAbstract(s: State, a: F.State, shown: FileTree.Tree)
    requires Initial(s) && a == Abstract(s) && shown == Shown(s)
    ensures F.Inv(a, s.store) && F.Ordered(a.pipe)
  {
    F.StartInv(shown, s.pipe.capacity, s.store);
  }

  lemma InitialInv(s: State)
    requires Initial(s)
    ensures Inv(s, s.store)
  {
    InitialAbstract(s, Abstract(s), Shown(s));
  }

  lemma ShownIsTold(s: State)
    requires Attached(s)
    ensures s.history.views != [] && F.Files(s.history) == Shown(s)
  {
  }

  lemma IdleIsBetween(s: State)
    requires Attached(s) && s.fuse.Idle?
    ensures s.history.next.None?
  {
  }

  // From any moment between requests on.
  lemma ReachedFrom(s: State, store0: Store, p: Path, n0: nat, m0: nat, steps: seq<Step>)
    requires Inv(s, store0) && s.fuse.Idle?
    requires n0 == |s.history.settled| && m0 + 1 == |s.history.views|
    requires Runs(s, steps) && TruthfulAbout(s, steps, p) && p != []
    ensures s.pipe.nextSeq == n0 + 1
    ensures var s1 := After(s, steps);
            && F.Known(Abstract(s1), store0, p, n0, m0)
            && F.Files(s1.history) == Shown(s1)
            && |s.history.views| <= |s1.history.views| && s1.history.views[m0] == Shown(s)
  {
    IdleIsBetween(s);
    F.KnownFromHere(Abstract(s), store0, p, n0, m0);
    EveryRunKeepsKnown(s, store0, p, n0, m0, steps);
    ShownIsTold(s);
    ShownIsTold(After(s, steps));
  }

  lemma Reached(s0: State, steps: seq<Step>, p: Path)
    requires Initial(s0) && Runs(s0, steps) && TruthfulAbout(s0, steps, p) && p != []
    ensures var s := After(s0, steps);
            && F.Known(Abstract(s), s0.store, p, 0, 0)
            && F.Files(s.history) == Shown(s) && s.history.views[0] == Shown(s0)
  {
    InitialInv(s0);
    ReachedFrom(s0, s0.store, p, 0, 0, steps);
  }

  // ---- The theorems ----

  // A path the backend can name, in step with the files when the mount was made, and
  // which no applied operation blocked.
  ghost predicate Recordable(s0: State, s: State, p: Path) {
    F.Recordable(Abstract(s), s0.store, p) && Synced(s0.store, Shown(s0), p)
  }

  // Prefix-consistent replay. While no opcode has been rejected, there is one moment --
  // after some finished request, or at the latest after the one being served -- at
  // which every recordable file about which the truth was told had the content that is
  // recorded for it now.
  lemma RecordedIsASnapshot(s0: State, steps: seq<Step>) returns (moment: FileTree.Tree)
    requires Initial(s0) && Runs(s0, steps)
    requires After(s0, steps).pipe.rejected == []
    ensures var s := After(s0, steps);
            && moment in F.Moments(s.history)
            && forall p | Recordable(s0, s, p) && TruthfulAbout(s0, steps, p) ::
                 Agree(Recorded(s.store, p), ContentAt(moment, p))
  {
    var s := After(s0, steps);
    InitialInv(s0);
    EveryRunKeepsInv(s0, s0.store, steps);
    F.AppliedAreFirst(Abstract(s), s0.store);
    moment := F.MomentAt(s.history, |s.jobs|);
    forall p | Recordable(s0, s, p) && TruthfulAbout(s0, steps, p)
      ensures Agree(Recorded(s.store, p), ContentAt(moment, p))
    {
      Reached(s0, steps, p);
      F.NothingRejected(Abstract(s), s0.store, p);
    }
  }

  // Fault isolation. Whatever was rejected, and whatever failed or went unnotified
  // elsewhere, a path that lost none of its own opcodes is recorded as it was at some
  // moment.
  lemma UnrejectedPathsFollow(s0: State, steps: seq<Step>, p: Path) returns (moment: FileTree.Tree)
    requires Initial(s0) && Runs(s0, steps) && TruthfulAbout(s0, steps, p)
    requires var s := After(s0, steps); Recordable(s0, s, p) && F.UnrejectedSince(s.pipe, p, 0)
    ensures var s := After(s0, steps);
            moment in F.Moments(s.history) && Agree(Recorded(s.store, p), ContentAt(moment, p))
  {
    Reached(s0, steps, p);
    moment := F.NothingOnPathRejected(Abstract(After(s0, steps)), s0.store, p);
  }

  // Once the queue is drained between requests, such a path is recorded as it is.
  lemma DrainedPathsAgree(s0: State, steps: seq<Step>, p: Path)
    requires Initial(s0) && Runs(s0, steps) && TruthfulAbout(s0, steps, p)
    requires var s := After(s0, steps); Recordable(s0, s, p) && F.UnrejectedSince(s.pipe, p, 0)
    requires F.Drained(Abstract(After(s0, steps)))
    ensures var s := After(s0, steps);
            Agree(Recorded(s.store, p), ContentAt(Shown(s), p))
  {
    Reached(s0, steps, p);
    var _ := F.NothingOnPathRejected(Abstract(After(s0, steps)), s0.store, p);
  }

  // ---- Re-synchronisation ----

  // Whatever went before -- opcodes on the path rejected, requests on it that failed or
  // were never notified, a store out of step with the files -- let the first operation
  // issued from some moment between requests on be a truncation of the path to nothing,
  // applied while the store tracked the path. If from then on the truth is told about
  // the path and nothing on it is rejected, it is recorded as it was at some moment
  // since; and as it is, once the queue is drained.
  lemma TruncationPutsRight(s0: State, before: seq<Step>, later: seq<Step>, p: Path, k: nat)
      returns (moment: FileTree.Tree)
    requires Initial(s0) && Runs(s0, before) && Runs(After(s0, before), later)
    requires var s1 := After(s0, before); s1.fuse.Idle? && TruthfulAbout(s1, later, p)
    requires var s := After(After(s0, before), later);
             && IsUtf8(p) && p != [] && F.EmptiedBy(s.jobs, s0.store, p, k)
             && k < |s.pipe.applied| && s.pipe.applied[k].opcode.seqNo == After(s0, before).pipe.nextSeq
             && F.UnrejectedSince(s.pipe, p, |After(s0, before).history.settled|)
    ensures var s1 := After(s0, before); var s := After(s1, later);
            && 0 < |s1.history.views| <= |s.history.views|
            && moment in F.MomentsSince(s.history, |s1.history.views| - 1)
            && Agree(Recorded(s.store, p), ContentAt(moment, p))
            && (F.Drained(Abstract(s)) ==> Agree(Recorded(s.store, p), ContentAt(Shown(s), p)))
  {
    InitialInv(s0);
    EveryRunKeepsInv(s0, s0.store, before);
    moment := PutsRightFrom(After(s0, before), s0.store, later, p, k);
  }

  lemma PutsRightFrom(s: State, store0: Store, later: seq<Step>, p: Path, k: nat) returns (moment: FileTree.Tree)
    requires Inv(s, store0) && s.fuse.Idle? && Runs(s, later) && TruthfulAbout(s, later, p)
    requires var s1 := After(s, later);
             && IsUtf8(p) && p != [] && F.EmptiedBy(s1.jobs, store0, p, k)
             && k < |s1.pipe.applied| && s1.pipe.applied[k].opcode.seqNo == s.pipe.nextSeq
             && F.UnrejectedSince(s1.pipe, p, |s.history.settled|)
    ensures var s1 := After(s, later);
            && 0 < |s.history.views| <= |s1.history.views|
            && moment in F.MomentsSince(s1.history, |s.history.views| - 1)
            && Agree(Recorded(s1.store, p), ContentAt(moment, p))
            && (F.Drained(Abstract(s1)) ==> Agree(Recorded(s1.store, p), ContentAt(Shown(s1), p)))
  {
    ShownIsTold(s);
    var n0, m0 := |s.history.settled|, |s.history.views| - 1;
    ReachedFrom(s, store0, p, n0, m0, later);
    moment := F.EmptiedThenFollowed(Abstract(After(s, later)), store0, p, n0, m0, k);
  }
}
