// From operations to recorded bytes: what the store holds for a path after applying
// operations, against what replaying them on files gives.
module Replaying {
  import opened Wrappers
  import opened Bytes
  import opened Opcodes
  import opened Commutation
  import opened FileTree
  import opened Recording

  ghost function StoreAfter(s: Store, jobs: seq<Job>): Store {
    Run(Apply, s, jobs).0
  }

  function OpsOf(jobs: seq<Job>): (r: seq<Operation>)
    ensures |r| == |jobs|
    ensures forall i | 0 <= i < |jobs| :: r[i] == jobs[i].op
  {
    seq(|jobs|, i requires 0 <= i < |jobs| => jobs[i].op)
  }

  function OpsAffecting(ops: seq<Operation>, p: Path): (r: seq<Operation>)
    ensures forall i | 0 <= i < |r| :: r[i].AffectsPath(p)
    ensures (forall i | 0 <= i < |ops| :: Plain(ops[i])) ==> forall i | 0 <= i < |r| :: Plain(r[i])
  {
    if ops == [] then []
    else
      var rest := OpsAffecting(ops[1..], p);
      if ops[0].AffectsPath(p) then [ops[0]] + rest else rest
  }

  // Each operation succeeds when its turn comes.
  ghost predicate AllSucceed(t: Tree, ops: seq<Operation>)
    decreases |ops|
  {
    ops != [] ==> Replay(t, ops[0]).1 && AllSucceed(Replay(t, ops[0]).0, ops[1..])
  }

  // The store and the files agree about p, and the store will keep up with it: a file
  // it can be asked to change is one it tracks and has bytes for.
  ghost predicate Synced(s: Store, t: Tree, p: Path) {
    && Agree(Recorded(s, p), ContentAt(t, p))
    && (p in t ==> p in s.tracked && p in s.contents)
    && (p in s.tracked ==> p in s.contents)
  }

  lemma SyncedStep(s: Store, t: Tree, job: Job, p: Path)
    requires IsUtf8(p) && p != [] && Synced(s, t, p)
    requires Plain(job.op) && job.op.AffectsPath(p) && Replay(t, job.op).1
    ensures Synced(Apply(s, job).0, Replay(t, job.op).0, p)
  {
    match job.op
    case FileWrite(_, offset, data) =>
      StepKeepsAgreement(s.contents[p], t[p], Edit.Write(offset, data));
    case FileTruncate(_, size) =>
      StepKeepsAgreement(s.contents[p], t[p], Truncate(size));
    case _ =>
  }

  lemma ReplayAtPath(t: Tree, u: Tree, op: Operation, p: Path)
    requires Plain(op) && SameAt(t, u, p)
    ensures op.AffectsPath(p) ==>
              SameAt(Replay(t, op).0, Replay(u, op).0, p) && (Replay(t, op).1 <==> Replay(u, op).1)
    ensures !op.AffectsPath(p) ==> SameAt(Replay(t, op).0, u, p)
  {
  }

  lemma {:induction false} TreeProjection(t: Tree, u: Tree, ops: seq<Operation>, p: Path)
    requires AllPlain(ops) && SameAt(t, u, p)
    ensures SameAt(ReplayAll(t, ops), ReplayAll(u, OpsAffecting(ops, p)), p)
    ensures AllSucceed(t, ops) ==> AllSucceed(u, OpsAffecting(ops, p))
    decreases |ops|
  {
    if ops != [] {
      ReplayAtPath(t, u, ops[0], p);
      if ops[0].AffectsPath(p) {
        assert OpsAffecting(ops, p)[1..] == OpsAffecting(ops[1..], p);
        TreeProjection(Replay(t, ops[0]).0, Replay(u, ops[0]).0, ops[1..], p);
      } else {
        TreeProjection(Replay(t, ops[0]).0, u, ops[1..], p);
      }
    }
  }

  // ---- What keeps the store in step ----

  // An accepted create below a path at which no file was ever recorded: from then on the
  // path is a directory to the store, and a file of that name will be refused.
  ghost predicate Blocks(s: Store, job: Job, p: Path) {
    TracksAsParent(job, p) && p !in s.contents && job.op.path !in s.tracked
  }

  ghost predicate Unblocked(s: Store, jobs: seq<Job>, p: Path)
    decreases |jobs|
  {
    jobs != [] ==> !Blocks(s, jobs[0], p) && Unblocked(Apply(s, jobs[0]).0, jobs[1..], p)
  }

  // An operation on another path keeps store and files in step at p exactly when it does
  // not block p.
  lemma ForeignKeepsSyncedIff(s: Store, t: Tree, job: Job, p: Path)
    requires Synced(s, t, p) && Plain(job.op) && !job.op.AffectsPath(p)
    ensures Synced(Apply(s, job).0, Replay(t, job.op).0, p) <==> !Blocks(s, job, p)
  {
    var s1, t1 := Apply(s, job).0, Replay(t, job.op).0;
    ReplayAtPath(t, t, job.op, p);
    if job.op.IsContentOp() {
      OtherPaths(s, job, p);
      SameRecorded(s1, s, p);
      assert About(s1, p).tracked <==> p in s1.tracked;
    } else {
      UnsupportedDoNothing(s, job);
    }
  }

  // The store's bytes for a path are those of the operations on it, whatever else was
  // applied in between, and in whatever state the other files are.
  lemma {:induction false} AppliedStaysSynced(s: Store, t: Tree, jobs: seq<Job>, p: Path)
    requires IsUtf8(p) && p != [] && Synced(s, t, p)
    requires AllPlain(OpsOf(jobs)) && Unblocked(s, jobs, p)
    requires AllSucceed(t, OpsAffecting(OpsOf(jobs), p))
    ensures Synced(StoreAfter(s, jobs), ReplayAll(t, OpsAffecting(OpsOf(jobs), p)), p)
    decreases |jobs|
  {
    if jobs != [] {
      var job, rest := jobs[0], jobs[1..];
      OpsOfRest(jobs);
      if job.op.AffectsPath(p) {
        SyncedStep(s, t, job, p);
        assert OpsAffecting(OpsOf(jobs), p)[1..] == OpsAffecting(OpsOf(rest), p);
        AppliedStaysSynced(Apply(s, job).0, Replay(t, job.op).0, rest, p);
      } else {
        ForeignIsIgnored(s, t, job, p);
        AppliedStaysSynced(Apply(s, job).0, t, rest, p);
      }
    }
  }

  lemma OpsOfRest(jobs: seq<Job>)
    requires jobs != []
    ensures OpsOf(jobs)[0] == jobs[0].op && OpsOf(jobs)[1..] == OpsOf(jobs[1..])
    ensures AllPlain(OpsOf(jobs)) ==> Plain(jobs[0].op) && AllPlain(OpsOf(jobs[1..]))
  {
    var ops, rest := OpsOf(jobs), OpsOf(jobs[1..]);
    forall i | 0 <= i < |rest| ensures rest[i] == ops[i + 1] {
    }
  }

  lemma ForeignIsIgnored(s: Store, t: Tree, job: Job, p: Path)
    requires Synced(s, t, p) && Plain(job.op) && !job.op.AffectsPath(p)
    ensures Synced(Apply(s, job).0, t, p) <==> !Blocks(s, job, p)
  {
    ForeignKeepsSyncedIff(s, t, job, p);
    ReplayAtPath(t, t, job.op, p);
  }

  ghost predicate InStepAt(s: Store, t: Tree, jobs: seq<Job>, p: Path, k: nat)
    requires k <= |jobs|
  {
    Synced(StoreAfter(s, jobs[..k]), ReplayAll(t, OpsAffecting(OpsOf(jobs[..k]), p)), p)
  }

  // If the operations on a path succeed on the files, store and files stay in step there
  // exactly when no operation blocks it.
  lemma {:induction false} InStepIff(s: Store, t: Tree, jobs: seq<Job>, p: Path)
    requires IsUtf8(p) && p != [] && Synced(s, t, p)
    requires AllPlain(OpsOf(jobs)) && AllSucceed(t, OpsAffecting(OpsOf(jobs), p))
    ensures (forall k | 0 <= k <= |jobs| :: InStepAt(s, t, jobs, p, k)) <==> Unblocked(s, jobs, p)
    decreases |jobs|
  {
    if jobs == [] {
      forall k | 0 <= k <= |jobs| ensures InStepAt(s, t, jobs, p, k) {
        assert jobs[..k] == [] && OpsOf([]) == [];
      }
    } else {
      var job, rest := jobs[0], jobs[1..];
      var s1 := Apply(s, job).0;
      OpsOfRest(jobs);
      if job.op.AffectsPath(p) {
        var t1 := Replay(t, job.op).0;
        SyncedStep(s, t, job, p);
        assert OpsAffecting(OpsOf(jobs), p)[1..] == OpsAffecting(OpsOf(rest), p);
        InStepIff(s1, t1, rest, p);
        LaterInStep(s, t, t1, jobs, p);
      } else {
        ForeignIsIgnored(s, t, job, p);
        if Synced(s1, t, p) {
          InStepIff(s1, t, rest, p);
          LaterInStep(s, t, t, jobs, p);
        } else {
          LaterInStepAt(s, t, t, jobs, p, 0);
          assert jobs[1..][..0] == [] && OpsOf([]) == [];
          assert !InStepAt(s, t, jobs, p, 1);
        }
      }
    }
  }

  // Being in step later on is being in step from the second operation on.
  lemma LaterInStep(s: Store, t: Tree, t1: Tree, jobs: seq<Job>, p: Path)
    requires jobs != [] && Synced(s, t, p)
    requires t1 == if jobs[0].op.AffectsPath(p) then Replay(t, jobs[0].op).0 else t
    ensures (forall k | 0 <= k <= |jobs| :: InStepAt(s, t, jobs, p, k)) <==>
            (forall k | 0 <= k < |jobs| :: InStepAt(Apply(s, jobs[0]).0, t1, jobs[1..], p, k))
  {
    forall k | 0 <= k < |jobs|
      ensures InStepAt(s, t, jobs, p, k + 1) <==> InStepAt(Apply(s, jobs[0]).0, t1, jobs[1..], p, k)
    {
      LaterInStepAt(s, t, t1, jobs, p, k);
    }
    assert jobs[..0] == [] && OpsOf([]) == [];
    assert InStepAt(s, t, jobs, p, 0);
    if forall k | 0 <= k < |jobs| :: InStepAt(Apply(s, jobs[0]).0, t1, jobs[1..], p, k) {
      forall k | 0 <= k <= |jobs| ensures InStepAt(s, t, jobs, p, k) {
        if k > 0 {
          assert InStepAt(Apply(s, jobs[0]).0, t1, jobs[1..], p, k - 1);
          assert InStepAt(s, t, jobs, p, (k - 1) + 1);
        }
      }
    }
  }

  lemma LaterInStepAt(s: Store, t: Tree, t1: Tree, jobs: seq<Job>, p: Path, k: nat)
    requires k < |jobs|
    requires t1 == if jobs[0].op.AffectsPath(p) then Replay(t, jobs[0].op).0 else t
    ensures InStepAt(s, t, jobs, p, k + 1) <==> InStepAt(Apply(s, jobs[0]).0, t1, jobs[1..], p, k)
  {
    var later := jobs[..k + 1];
    assert later[0] == jobs[0] && later[1..] == jobs[1..][..k];
    OpsOfRest(later);
    if jobs[0].op.AffectsPath(p) {
      assert OpsAffecting(OpsOf(later), p)[1..] == OpsAffecting(OpsOf(later[1..]), p);
    }
  }

  // A path at which a file was ever recorded cannot be blocked.
  lemma {:induction false} RecordedIsUnblocked(s: Store, jobs: seq<Job>, p: Path)
    requires p in s.contents && AllPlain(OpsOf(jobs))
    ensures Unblocked(s, jobs, p)
    decreases |jobs|
  {
    if jobs != [] {
      OpsOfRest(jobs);
      assert p in Apply(s, jobs[0]).0.contents;
      RecordedIsUnblocked(Apply(s, jobs[0]).0, jobs[1..], p);
    }
  }

  lemma {:induction false} AffectingSplits(a: seq<Operation>, b: seq<Operation>, p: Path)
    ensures OpsAffecting(a + b, p) == OpsAffecting(a, p) + OpsAffecting(b, p)
    decreases |a|
  {
    if a == [] {
      assert a + b == b;
    } else {
      assert (a + b)[0] == a[0] && (a + b)[1..] == a[1..] + b;
      AffectingSplits(a[1..], b, p);
    }
  }

  // Any number of the operations on p are the operations on p of some prefix.
  lemma {:induction false} PrefixWith(ops: seq<Operation>, p: Path, k: nat) returns (n: nat)
    requires k <= |OpsAffecting(ops, p)|
    ensures n <= |ops| && OpsAffecting(ops[..n], p) == OpsAffecting(ops, p)[..k]
    decreases |ops|
  {
    if k == 0 {
      n := 0;
    } else if ops[0].AffectsPath(p) {
      n := PrefixWith(ops[1..], p, k - 1);
      n := n + 1;
      assert ops[..n][1..] == ops[1..][..n - 1];
      assert OpsAffecting(ops, p)[..k] == [ops[0]] + OpsAffecting(ops[1..], p)[..k - 1];
    } else {
      n := PrefixWith(ops[1..], p, k);
      n := n + 1;
      assert ops[..n][1..] == ops[1..][..n - 1];
    }
  }

  lemma {:induction false} SucceedSplits(t: Tree, a: seq<Operation>, b: seq<Operation>)
    ensures AllSucceed(t, a + b) <==> AllSucceed(t, a) && AllSucceed(ReplayAll(t, a), b)
    decreases |a|
  {
    if a == [] {
      assert a + b == b;
    } else {
      assert (a + b)[0] == a[0] && (a + b)[1..] == a[1..] + b;
      SucceedSplits(Replay(t, a[0]).0, a[1..], b);
    }
  }

  lemma {:induction false} RunOfConcat(s: Store, a: seq<Job>, b: seq<Job>)
    ensures StoreAfter(s, a + b) == StoreAfter(StoreAfter(s, a), b)
  {
    RunSplits(Apply, s, a, b);
  }

  // ---- Re-synchronisation ----

  // Whatever the store holds for a file it tracks, and whatever the file holds, after a
  // truncation of both to nothing the two are in step, and stay so under whatever
  // operations on the path are then applied as they succeed on the files.
  lemma TruncationResynchronises(s: Store, t: Tree, trunc: Job, later: seq<Job>, p: Path)
    requires IsUtf8(p) && p != [] && trunc.op == FileTruncate(p, 0)
    requires p in t && p in s.tracked && p in s.contents
    requires AllPlain(OpsOf(later)) && AllSucceed(Replay(t, trunc.op).0, OpsAffecting(OpsOf(later), p))
    ensures Synced(StoreAfter(s, [trunc] + later),
                   ReplayAll(Replay(t, trunc.op).0, OpsAffecting(OpsOf(later), p)), p)
  {
    var s1, t1 := Apply(s, trunc).0, Replay(t, trunc.op).0;
    assert Recorded(s1, p) == [] && ContentAt(t1, p) == [];
    assert Synced(s1, t1, p);
    RecordedIsUnblocked(s1, later, p);
    AppliedStaysSynced(s1, t1, later, p);
    assert ([trunc] + later)[1..] == later;
  }

  // ---- Why a path must not have been a directory first ----

  // A file created where a directory of recorded files used to be is never recorded:
  // the store tracks the directory still, and refuses the file.
  lemma OnceADirectory(d: Path, name: Name, lib: Library)
    requires IsUtf8(d) && d != [] && name.Utf8?
    ensures var f := d + [name];
            var ops := [FileCreate(f, 0, []), FileDelete(f), FileCreate(d, 0, []), FileWrite(d, 0, [1])];
            var jobs := [Job(ops[0], lib), Job(ops[1], lib), Job(ops[2], lib), Job(ops[3], lib)];
            && AllSucceed(map[], ops)
            && ContentAt(ReplayAll(map[], ops), d) == [1]
            && Recorded(StoreAfter(EMPTY_REPO.store, jobs), d) == []
  {
    var f := d + [name];
    assert f != d && Below(f, d);
    AncestorsAreAbove(f, d);
    var t1: Tree := map[f := []];
    var t3: Tree := map[d := []];
    var ops := [FileCreate(f, 0, []), FileDelete(f), FileCreate(d, 0, []), FileWrite(d, 0, [1])];
    var j0, j1, j2, j3 := Job(ops[0], lib), Job(ops[1], lib), Job(ops[2], lib), Job(ops[3], lib);
    var t4: Tree := map[d := [1]];
    assert PosixStep([], Edit.Write(0, [1])) == [1];
    assert t3[d := [1]] == t4;
    assert Replay(map[], ops[0]) == (t1, true) && Replay(t1, ops[1]) == (map[], true);
    assert Replay(map[], ops[2]) == (t3, true) && Replay(t3, ops[3]) == (t4, true);
    FourReplayed(map[], t1, map[], t3, t4, ops);
    var s0 := EMPTY_REPO.store;
    var s1 := Apply(s0, j0).0;
    assert d in s1.tracked && d !in s1.contents;
    assert f in s1.contents && s1.contents[f] == [];
    FourApplied(s0, s1, j0, j1, j2, j3);
  }

  lemma OneReplayed(t: Tree, t1: Tree, op: Operation)
    requires Replay(t, op) == (t1, true)
    ensures AllSucceed(t, [op]) && ReplayAll(t, [op]) == t1
  {
    assert [op][1..] == [];
    assert ReplayAll(t1, [op][1..]) == t1;
  }

  lemma FourReplayed(t0: Tree, t1: Tree, t2: Tree, t3: Tree, t4: Tree, ops: seq<Operation>)
    requires |ops| == 4
    requires Replay(t0, ops[0]) == (t1, true) && Replay(t1, ops[1]) == (t2, true)
    requires Replay(t2, ops[2]) == (t3, true) && Replay(t3, ops[3]) == (t4, true)
    ensures AllSucceed(t0, ops) && ReplayAll(t0, ops) == t4
  {
    var a, b := ops[..2], ops[2..];
    assert ops == a + b;
    assert a[1..] == [ops[1]] && [ops[1]][1..] == [];
    assert b[1..] == [ops[3]] && [ops[3]][1..] == [];
    assert ReplayAll(t2, []) == t2 && ReplayAll(t4, []) == t4;
    OneReplayed(t1, t2, ops[1]);
    OneReplayed(t3, t4, ops[3]);
    SucceedSplits(t0, a, b);
    ReplayAllSplits(t0, a, b);
  }

  lemma FourApplied(s0: Store, s1: Store, j0: Job, j1: Job, j2: Job, j3: Job)
    requires Apply(s0, j0).0 == s1
    requires Apply(s1, j1).0 == s1 && Apply(s1, j2).0 == s1 && Apply(s1, j3).0 == s1
    ensures StoreAfter(s0, [j0, j1, j2, j3]) == s1
  {
    assert [j3][1..] == [] && [j2, j3][1..] == [j3] && [j1, j2, j3][1..] == [j2, j3];
    assert [j0, j1, j2, j3][1..] == [j1, j2, j3];
    assert StoreAfter(s1, []) == s1;
    assert StoreAfter(s1, [j3]) == s1;
    assert StoreAfter(s1, [j2, j3]) == s1;
    assert StoreAfter(s1, [j1, j2, j3]) == s1;
  }
}
