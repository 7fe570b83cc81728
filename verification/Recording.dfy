// The recorded repository as its caller sees it, and what recording one operation
// does to it. libpijul itself is reduced to a contract:
//   - a set of tracked paths, directories included; a path is tracked at most once;
//   - for every file ever recorded, the bytes of its oldest vertex, which is what
//     follow_oldest_path finds whether or not the path is still tracked;
//   - a diff is empty exactly when the bytes are equal;
//   - a transaction that is not committed leaves no trace.
module Recording {
  import opened Wrappers
  import opened Bytes
  import opened Opcodes
  import opened Commutation

  datatype Store = Store(tracked: set<Path>, contents: map<Path, Content>)

  type Hash = nat

  datatype Failure = PathConversion | Unsupported | FileNotFound | Refused

  type Answer = Result<Option<Hash>, Failure>

  // What libpijul decides by itself: the hash of the change it would create, and
  // where a rename would leave the repository (None when it refuses the move).
  datatype Library = Library(hash: Hash, renamed: Option<Store>)

  // An operation as the consumer hands it over.
  datatype Job = Job(op: Operation, lib: Library)

  // A finished transaction: committed with a new store, empty, or failed.
  datatype Effect = Commit(store: Store) | Empty | Fail(why: Failure)

  // record_file_create: parents are added where missing, the file must be new. A file
  // recorded before keeps its oldest vertex, so its recorded bytes stay.
  function CreateEffect(s: Store, p: Path, content: Content): Effect {
    if p == [] || p in s.tracked then Fail(Refused)
    else Commit(Store(s.tracked + Ancestors(p) + {p},
                      if p in s.contents then s.contents else s.contents[p := content]))
  }

  function DiffEffect(s: Store, tracked: set<Path>, p: Path, content: Content): Effect
    requires p in s.contents
  {
    if content == s.contents[p] then Empty else Commit(Store(tracked, s.contents[p := content]))
  }

  function WriteEffect(s: Store, p: Path, offset: nat, data: Content): Effect {
    if p !in s.contents then Fail(FileNotFound)
    else DiffEffect(s, s.tracked, p, RecordedWrite(s.contents[p], offset, data))
  }

  function TruncateEffect(s: Store, p: Path, size: nat): Effect {
    if p !in s.contents then Fail(FileNotFound)
    else DiffEffect(s, s.tracked, p, RecordedTruncate(s.contents[p], size))
  }

  // The path is untracked and the bytes removed in one transaction, which the diff
  // against nothing abandons when there were no bytes.
  function DeleteEffect(s: Store, p: Path): Effect {
    if p !in s.contents then Fail(FileNotFound)
    else if p !in s.tracked then Fail(Refused)
    else DiffEffect(s, s.tracked - {p}, p, [])
  }

  function RenameEffect(renamed: Option<Store>): Effect {
    match renamed
    case None => Fail(Refused)
    case Some(s) => Commit(s)
  }

  function EffectOf(s: Store, job: Job): Effect {
    match job.op
    case FileCreate(p, _, content) => if IsUtf8(p) then CreateEffect(s, p, content) else Fail(PathConversion)
    case FileWrite(p, offset, data) => if IsUtf8(p) then WriteEffect(s, p, offset, data) else Fail(PathConversion)
    case FileTruncate(p, size) => if IsUtf8(p) then TruncateEffect(s, p, size) else Fail(PathConversion)
    case FileDelete(p) => if IsUtf8(p) then DeleteEffect(s, p) else Fail(PathConversion)
    case FileRename(src, dst) =>
      if IsUtf8(src) && IsUtf8(dst) then RenameEffect(job.lib.renamed) else Fail(PathConversion)
    case _ => Fail(Unsupported)
  }

  function AnswerTo(e: Effect, hash: Hash): Answer {
    match e
    case Commit(_) => Ok(Some(hash))
    case Empty => Ok(None)
    case Fail(why) => Err(why)
  }

  function Apply(s: Store, job: Job): (Store, Answer) {
    var e := EffectOf(s, job);
    (if e.Commit? then e.store else s, AnswerTo(e, job.lib.hash))
  }

  // The repository with its log of changes, oldest first.
  datatype Repo = Repo(store: Store, log: seq<Hash>)

  const EMPTY_REPO := Repo(Store({}, map[]), [])

  function Logged(log: seq<Hash>, a: Answer): seq<Hash> {
    if a.Ok? && a.value.Some? then log + [a.value.value] else log
  }

  function ApplyLogged(r: Repo, job: Job): (Repo, Answer) {
    var (s, a) := Apply(r.store, job);
    (Repo(s, Logged(r.log, a)), a)
  }

  // get_file_content; a path with no recorded file reads as nothing here.
  function Recorded(s: Store, p: Path): Content {
    if p in s.contents then s.contents[p] else []
  }

  // ---- The log tells what happened ----

  ghost function SomeHashes(answers: seq<Answer>): seq<Hash> {
    if answers == [] then []
    else (if answers[0].Ok? && answers[0].value.Some? then [answers[0].value.value] else []) +
         SomeHashes(answers[1..])
  }

  lemma {:induction false} LogGrowsByHashes(r: Repo, jobs: seq<Job>)
    ensures var (r1, answers) := Run(ApplyLogged, r, jobs);
            r1.log == r.log + SomeHashes(answers)
    decreases |jobs|
  {
    if jobs != [] {
      var (r1, a) := ApplyLogged(r, jobs[0]);
      LogGrowsByHashes(r1, jobs[1..]);
    }
  }

  // A change is logged exactly when the repository changed.
  lemma QuietStepChangesNothing(r: Repo, job: Job)
    ensures var (r1, a) := ApplyLogged(r, job);
            && (a.Err? || a == Ok(None) ==> r1 == r)
            && (a.Ok? && a.value.Some? ==> r1.log == r.log + [job.lib.hash])
            && (a.Ok? && a.value.Some? && !job.op.FileRename? ==> r1.store != r.store)
  {
    var (r1, a) := ApplyLogged(r, job);
    if a.Ok? && a.value.Some? && !job.op.FileRename? {
      var p := job.op.path;
      if job.op.FileCreate? {
        assert p in r1.store.tracked && p !in r.store.tracked;
      } else {
        assert r1.store.contents[p] != r.store.contents[p];
      }
    }
  }

  // Deleting a file that holds no bytes is abandoned: it stays tracked, and the log
  // is silent about it.
  lemma EmptyDeleteIsLost(r: Repo, p: Path, lib: Library)
    requires IsUtf8(p) && p in r.store.contents
    ensures p in r.store.tracked && r.store.contents[p] == [] <==>
            ApplyLogged(r, Job(FileDelete(p), lib)) == (r, Ok(None))
  {
    if r.store.contents[p] != [] && p in r.store.tracked {
      assert ApplyLogged(r, Job(FileDelete(p), lib)).1 == Ok(Some(lib.hash));
    }
  }

  // ---- One path at a time ----

  // All the store knows about a path.
  datatype Knowledge = Knowledge(tracked: bool, content: Option<Content>)

  ghost function About(s: Store, p: Path): Knowledge {
    Knowledge(p in s.tracked, if p in s.contents then Some(s.contents[p]) else None)
  }

  lemma StoreIsItsPaths(s: Store, t: Store)
    requires forall p :: About(s, p) == About(t, p)
    ensures s == t
  {
    forall p ensures p in s.tracked <==> p in t.tracked
             ensures p in s.contents <==> p in t.contents
             ensures p in s.contents ==> s.contents[p] == t.contents[p]
    {
      assert About(s, p) == About(t, p);
    }
    assert s.tracked == t.tracked;
    assert s.contents == t.contents;
  }

  // ---- What each operation does, and is answered ----

  // A create is refused exactly for the root and for what is tracked, directories
  // included. Otherwise it tracks the path and everything above it, nothing else, and the
  // file reads as it was created, unless a file was recorded there before.
  lemma CreateTells(s: Store, p: Path, mode: nat, content: Content, lib: Library)
    requires IsUtf8(p)
    ensures var (s1, a) := Apply(s, Job(FileCreate(p, mode, content), lib));
            if p == [] || p in s.tracked then a == Err(Refused) && s1 == s
            else
              && a == Ok(Some(lib.hash))
              && (forall q :: q in s1.tracked <==> q in s.tracked || q == p || (q != [] && Below(p, q)))
              && (forall q | q != p :: About(s1, q).content == About(s, q).content)
              && About(s1, p).content == Some(if p in s.contents then s.contents[p] else content)
  {
    forall q ensures q in Ancestors(p) <==> q != [] && Below(p, q) {
      AncestorsAreAbove(p, q);
    }
  }

  // A write or a truncation of a file never recorded finds none; one that changes no byte
  // is not recorded; any other leaves exactly the edited bytes, whether or not the file is
  // still tracked.
  lemma EditTells(s: Store, job: Job)
    requires (job.op.FileWrite? || job.op.FileTruncate?) && IsUtf8(job.op.path)
    ensures var (s1, a) := Apply(s, job);
            var p := job.op.path;
            if p !in s.contents then a == Err(FileNotFound) && s1 == s
            else
              var c := if job.op.FileWrite? then RecordedWrite(s.contents[p], job.op.offset, job.op.data)
                       else RecordedTruncate(s.contents[p], job.op.newSize);
              && s1.tracked == s.tracked && s1.contents == s.contents[p := c]
              && a == (if c == s.contents[p] then Ok(None) else Ok(Some(job.lib.hash)))
  {
    var p := job.op.path;
    if p in s.contents {
      assert s.contents[p := s.contents[p]] == s.contents;
    }
  }

  // A delete that is recorded forgets the file: it is untracked and reads as nothing, no
  // other path is touched, and a file can be created there again. It is recorded exactly
  // when the file is tracked and has bytes.
  lemma DeleteForgets(s: Store, p: Path, lib: Library)
    requires IsUtf8(p)
    ensures var (s1, a) := Apply(s, Job(FileDelete(p), lib));
            && (a == Err(FileNotFound) <==> p !in s.contents)
            && (a == Err(Refused) <==> p in s.contents && p !in s.tracked)
            && (a == Ok(None) <==> p in s.contents && p in s.tracked && s.contents[p] == [])
            && (a == Ok(Some(lib.hash)) <==> p in s.contents && p in s.tracked && s.contents[p] != [])
            && (a == Ok(Some(lib.hash)) ==>
                  && About(s1, p) == Knowledge(false, Some([]))
                  && (forall q | q != p :: About(s1, q) == About(s, q)))
            && (a != Ok(Some(lib.hash)) ==> s1 == s)
  {
  }

  lemma DeletedCanBeCreated(s: Store, p: Path, lib: Library, mode: nat, content: Content, lib1: Library)
    requires IsUtf8(p) && p != [] && Apply(s, Job(FileDelete(p), lib)).1 == Ok(Some(lib.hash))
    ensures var s1 := Apply(s, Job(FileDelete(p), lib)).0;
            var (s2, a) := Apply(s1, Job(FileCreate(p, mode, content), lib1));
            a == Ok(Some(lib1.hash)) && About(s2, p) == Knowledge(true, Some([]))
  {
    DeleteForgets(s, p, lib);
    CreateTells(Apply(s, Job(FileDelete(p), lib)).0, p, mode, content, lib1);
  }

  // What the backend cannot do it says, and does nothing.
  lemma RefusalTells(s: Store, job: Job)
    ensures var (s1, a) := Apply(s, job);
            var op := job.op;
            && (!op.IsFileOp() <==> a == Err(Unsupported))
            && (op.IsContentOp() && !IsUtf8(op.path) ==> a == Err(PathConversion))
            && (op.FileRename? && !(IsUtf8(op.oldPath) && IsUtf8(op.newPath)) ==> a == Err(PathConversion))
            && (a == Err(PathConversion) ==> !IsUtf8(op.PrimaryPath()) || (op.FileRename? && !IsUtf8(op.newPath)))
            && (a.Err? ==> s1 == s)
  {
  }

  // A create tracks the directories above its file, and that is all that one path's
  // operations can do to another.
  ghost predicate TracksAsParent(job: Job, p: Path) {
    job.op.FileCreate? && IsUtf8(job.op.path) && p != [] && Below(job.op.path, p)
  }

  lemma OtherPaths(s: Store, job: Job, p: Path)
    requires job.op.IsContentOp() && job.op.path != p
    ensures var (s1, a) := Apply(s, job);
            About(s1, p) == About(s, p).(tracked := p in s.tracked || (a.Ok? && TracksAsParent(job, p)))
  {
    AncestorsAreAbove(job.op.path, p);
  }

  lemma OwnPath(s: Store, t: Store, job: Job)
    requires job.op.IsContentOp() && About(s, job.op.path) == About(t, job.op.path)
    ensures Apply(s, job).1 == Apply(t, job).1
    ensures About(Apply(s, job).0, job.op.path) == About(Apply(t, job).0, job.op.path)
  {
    var p := job.op.path;
    assert p in s.tracked <==> p in t.tracked;
    assert p in s.contents <==> p in t.contents;
    if p in s.contents {
      assert About(s, p).content.value == About(t, p).content.value;
      assert s.contents[p] == t.contents[p];
    }
  }

  lemma UnsupportedDoNothing(s: Store, job: Job)
    requires !job.op.IsFileOp()
    ensures Apply(s, job).0 == s
  {
  }

  function Affecting(jobs: seq<Job>, p: Path): seq<Job> {
    if jobs == [] then []
    else (if jobs[0].op.AffectsPath(p) then [jobs[0]] else []) + Affecting(jobs[1..], p)
  }

  // The answers to the jobs that affect p, in order.
  ghost function AnswersAbout(jobs: seq<Job>, answers: seq<Answer>, p: Path): seq<Answer>
    requires |jobs| == |answers|
    decreases |jobs|
  {
    if jobs == [] then []
    else (if jobs[0].op.AffectsPath(p) then [answers[0]] else []) + AnswersAbout(jobs[1..], answers[1..], p)
  }

  // What one path's operations can do to another path: an accepted create below a path
  // that is not tracked makes it tracked, as a directory.
  ghost predicate Disturbs(s: Store, job: Job, p: Path) {
    TracksAsParent(job, p) && p !in s.tracked && job.op.path !in s.tracked
  }

  // No operation of the trace does, when its turn comes.
  ghost predicate Undisturbed(s: Store, jobs: seq<Job>, p: Path)
    decreases |jobs|
  {
    jobs != [] ==> !Disturbs(s, jobs[0], p) && Undisturbed(Apply(s, jobs[0]).0, jobs[1..], p)
  }

  ghost predicate NoRenames(jobs: seq<Job>) {
    forall i | 0 <= i < |jobs| :: !jobs[i].op.FileRename?
  }

  lemma ForeignStep(s: Store, job: Job, p: Path)
    requires !job.op.AffectsPath(p) && !job.op.FileRename?
    ensures About(Apply(s, job).0, p) == About(s, p) <==> !Disturbs(s, job, p)
  {
    if job.op.IsContentOp() {
      OtherPaths(s, job, p);
    } else {
      UnsupportedDoNothing(s, job);
    }
  }

  lemma OwnStep(s: Store, t: Store, job: Job, p: Path)
    requires job.op.AffectsPath(p) && !job.op.FileRename? && About(s, p) == About(t, p)
    ensures About(Apply(s, job).0, p) == About(Apply(t, job).0, p)
    ensures Apply(s, job).1 == Apply(t, job).1
  {
    if job.op.IsContentOp() {
      OwnPath(s, t, job);
    } else {
      UnsupportedDoNothing(s, job);
      UnsupportedDoNothing(t, job);
    }
  }

  // What the whole trace leaves of a path is what the operations on that path alone
  // leave, and they are answered alike.
  lemma {:induction false} Projection(s: Store, t: Store, jobs: seq<Job>, p: Path)
    requires NoRenames(jobs) && Undisturbed(s, jobs, p) && About(s, p) == About(t, p)
    ensures var (s1, answers) := Run(Apply, s, jobs);
            var (t1, own) := Run(Apply, t, Affecting(jobs, p));
            About(s1, p) == About(t1, p) && AnswersAbout(jobs, answers, p) == own
    decreases |jobs|
  {
    if jobs != [] {
      var job, rest := jobs[0], jobs[1..];
      assert NoRenames(rest) by {
        forall i | 0 <= i < |rest| ensures !rest[i].op.FileRename? {
          assert rest[i] == jobs[i + 1];
        }
      }
      var s1 := Apply(s, job).0;
      if job.op.AffectsPath(p) {
        OwnStep(s, t, job, p);
        Projection(s1, Apply(t, job).0, rest, p);
        assert Affecting(jobs, p)[0] == job && Affecting(jobs, p)[1..] == Affecting(rest, p);
      } else {
        ForeignStep(s, job, p);
        Projection(s1, t, rest, p);
        assert Affecting(jobs, p) == Affecting(rest, p);
      }
    }
  }

  // The first operation that disturbs the path, and the store at its turn.
  lemma {:induction false} FirstDisturbance(s: Store, jobs: seq<Job>, p: Path) returns (k: nat)
    requires !Undisturbed(s, jobs, p)
    ensures k < |jobs| && Undisturbed(s, jobs[..k], p) && Disturbs(Run(Apply, s, jobs[..k]).0, jobs[k], p)
    decreases |jobs|
  {
    if Disturbs(s, jobs[0], p) {
      k := 0;
      assert jobs[..0] == [];
    } else {
      k := FirstDisturbance(Apply(s, jobs[0]).0, jobs[1..], p);
      assert jobs[..k + 1][0] == jobs[0] && jobs[..k + 1][1..] == jobs[1..][..k];
      k := k + 1;
    }
  }

  lemma {:induction false} UndisturbedPrefix(s: Store, jobs: seq<Job>, p: Path, k: nat)
    requires k <= |jobs| && Undisturbed(s, jobs, p)
    ensures Undisturbed(s, jobs[..k], p)
    decreases |jobs|
  {
    if k > 0 {
      UndisturbedPrefix(Apply(s, jobs[0]).0, jobs[1..], p, k - 1);
      assert jobs[..k][0] == jobs[0] && jobs[..k][1..] == jobs[1..][..k - 1];
    }
  }

  lemma {:induction false} AffectingSnoc(jobs: seq<Job>, job: Job, p: Path)
    ensures Affecting(jobs + [job], p) == Affecting(jobs, p) + if job.op.AffectsPath(p) then [job] else []
    decreases |jobs|
  {
    if jobs == [] {
      assert jobs + [job] == [job] && Affecting([job][1..], p) == [];
    } else {
      assert (jobs + [job])[0] == jobs[0] && (jobs + [job])[1..] == jobs[1..] + [job];
      AffectingSnoc(jobs[1..], job, p);
    }
  }

  lemma OneMoreStep(s: Store, jobs: seq<Job>, k: nat)
    requires k < |jobs|
    ensures Run(Apply, s, jobs[..k + 1]).0 == Apply(Run(Apply, s, jobs[..k]).0, jobs[k]).0
  {
    assert jobs[..k + 1] == jobs[..k] + [jobs[k]];
    RunSplits(Apply, s, jobs[..k], [jobs[k]]);
    assert [jobs[k]][1..] == [];
  }

  ghost predicate ProjectsAt(s: Store, t: Store, jobs: seq<Job>, p: Path, k: nat)
    requires k <= |jobs|
  {
    About(Run(Apply, s, jobs[..k]).0, p) == About(Run(Apply, t, Affecting(jobs[..k], p)).0, p)
  }

  // Projection holds after every prefix of a trace exactly when no operation, at its
  // turn, is an accepted create below the path while the path is not tracked.
  lemma ProjectionIff(s: Store, t: Store, jobs: seq<Job>, p: Path)
    requires NoRenames(jobs) && About(s, p) == About(t, p)
    ensures (forall k | 0 <= k <= |jobs| :: ProjectsAt(s, t, jobs, p, k)) <==> Undisturbed(s, jobs, p)
  {
    if Undisturbed(s, jobs, p) {
      forall k | 0 <= k <= |jobs| ensures ProjectsAt(s, t, jobs, p, k) {
        UndisturbedPrefix(s, jobs, p, k);
        Projection(s, t, jobs[..k], p);
      }
    } else {
      var k := FirstDisturbance(s, jobs, p);
      DisturbanceShows(s, t, jobs, p, k);
    }
  }

  lemma DisturbanceShows(s: Store, t: Store, jobs: seq<Job>, p: Path, k: nat)
    requires NoRenames(jobs) && About(s, p) == About(t, p) && k < |jobs|
    requires Undisturbed(s, jobs[..k], p) && Disturbs(Run(Apply, s, jobs[..k]).0, jobs[k], p)
    ensures !ProjectsAt(s, t, jobs, p, k + 1)
  {
    Projection(s, t, jobs[..k], p);
    OneMoreStep(s, jobs, k);
    assert jobs[..k + 1] == jobs[..k] + [jobs[k]];
    AffectingSnoc(jobs[..k], jobs[k], p);
    assert !jobs[k].op.AffectsPath(p);
    assert Affecting(jobs[..k], p) + [] == Affecting(jobs[..k], p);
    ForeignStep(Run(Apply, s, jobs[..k]).0, jobs[k], p);
  }

  // An operation on another path is invisible at p, whatever the store, exactly when it
  // is not the creation of a file below p.
  lemma ForeignIsInvisibleIff(b: Job, p: Path)
    requires b.op.IsContentOp() && b.op.path != p
    ensures (forall s :: About(Apply(s, b).0, p) == About(s, p)) <==> !TracksAsParent(b, p)
  {
    if TracksAsParent(b, p) {
      var s := Store({}, map[]);
      OtherPaths(s, b, p);
      assert Apply(s, b).1.Ok?;
      assert About(Apply(s, b).0, p) != About(s, p);
    } else {
      forall s ensures About(Apply(s, b).0, p) == About(s, p) {
        OtherPaths(s, b, p);
      }
    }
  }

  // And such a creation does change what p's own operations leave: the directory is
  // tracked, so a file of that name is refused later on.
  lemma ProjectionBreaks(d: Path, name: Name, lib: Library)
    requires IsUtf8(d) && d != [] && name.Utf8?
    ensures var s := Store({}, map[]);
            var jobs := [Job(FileCreate(d + [name], 0, []), lib), Job(FileCreate(d, 0, [1]), lib)];
            && Recorded(Run(Apply, s, jobs).0, d) == []
            && Recorded(Run(Apply, s, Affecting(jobs, d)).0, d) == [1]
  {
    var f, s := d + [name], Store({}, map[]);
    var a, b := Job(FileCreate(f, 0, []), lib), Job(FileCreate(d, 0, [1]), lib);
    assert f != d && Below(f, d);
    AncestorsAreAbove(f, d);
    var s1 := Apply(s, a).0;
    assert d in s1.tracked && d !in s1.contents;
    assert Apply(s1, b).0 == s1;
    assert [a, b][1..] == [b] && [b][1..] == [];
    assert Run(Apply, s1, [b]).0 == s1;
    assert !a.op.AffectsPath(d) && b.op.AffectsPath(d);
    assert Affecting([b], d) == [b] + Affecting([], d);
    assert Affecting([a, b], d) == [] + Affecting([a, b][1..], d);
    assert Run(Apply, s, [b]).0 == Apply(s, b).0;
  }

  // ---- Which operations on different paths commute ----

  // The claim that operations on different paths commute fails for one shape: a
  // create, and a create or delete of one of the directories above it.
  ghost predicate Clash(a: Operation, b: Operation) {
    a.FileCreate? && (b.FileCreate? || b.FileDelete?) && b.path != [] && Below(a.path, b.path)
  }

  lemma DifferentPathsCommute(s: Store, a: Job, b: Job)
    requires a.op.IsContentOp() && b.op.IsContentOp() && a.op.path != b.op.path
    requires !Clash(a.op, b.op) && !Clash(b.op, a.op)
    ensures CommuteAt(Apply, s, a, b)
  {
    var (sa, ra) := Apply(s, a);
    var (sab, rab) := Apply(sa, b);
    var (sb, rb) := Apply(s, b);
    var (sba, rba) := Apply(sb, a);
    SameAnswerAfter(s, a, b);
    SameAnswerAfter(s, b, a);
    forall p ensures About(sab, p) == About(sba, p) {
      if p == a.op.path {
        OtherPaths(sa, b, p);
        OtherPaths(s, b, p);
        SamePathAfter(s, a, b);
      } else if p == b.op.path {
        OtherPaths(sb, a, p);
        OtherPaths(s, a, p);
        SamePathAfter(s, b, a);
      } else {
        OtherPaths(s, a, p);
        OtherPaths(sa, b, p);
        OtherPaths(s, b, p);
        OtherPaths(sb, a, p);
      }
    }
    StoreIsItsPaths(sab, sba);
  }

  // b on another path leaves a's answer alone.
  lemma SameAnswerAfter(s: Store, a: Job, b: Job)
    requires a.op.IsContentOp() && b.op.IsContentOp() && a.op.path != b.op.path
    requires !Clash(b.op, a.op)
    ensures Apply(Apply(s, b).0, a).1 == Apply(s, a).1
  {
    OtherPaths(s, b, a.op.path);
    if a.op.FileWrite? || a.op.FileTruncate? {
      SameRecorded(Apply(s, b).0, s, a.op.path);
    } else {
      OwnPath(Apply(s, b).0, s, a);
    }
  }

  lemma SameRecorded(s: Store, t: Store, p: Path)
    requires About(s, p).content == About(t, p).content
    ensures p in s.contents <==> p in t.contents
    ensures p in s.contents ==> s.contents[p] == t.contents[p]
  {
    if p in s.contents {
      assert About(s, p).content.value == About(t, p).content.value;
    }
  }

  lemma SamePathAfter(s: Store, a: Job, b: Job)
    requires a.op.IsContentOp() && b.op.IsContentOp() && a.op.path != b.op.path
    requires !Clash(b.op, a.op)
    ensures var p := a.op.path;
            var parent := Apply(s, b).1.Ok? && TracksAsParent(b, p);
            About(Apply(Apply(s, b).0, a).0, p) ==
            About(Apply(s, a).0, p).(tracked := About(Apply(s, a).0, p).tracked || parent)
  {
    var p := a.op.path;
    var sb := Apply(s, b).0;
    OtherPaths(s, b, p);
    if a.op.FileWrite? || a.op.FileTruncate? {
      SameRecorded(sb, s, p);
    } else {
      OwnPath(sb, s, a);
    }
  }

  ghost predicate Independent(a: Job, b: Job) {
    && a.op.IsContentOp() && b.op.IsContentOp() && a.op.path != b.op.path
    && !Clash(a.op, b.op) && !Clash(b.op, a.op)
  }

  // For operations on different UTF-8 paths: they commute in every store exactly
  // when they do not clash.
  lemma CommuteIffNoClash(a: Job, b: Job)
    requires a.op.IsContentOp() && b.op.IsContentOp() && a.op.path != b.op.path
    requires IsUtf8(a.op.path) && IsUtf8(b.op.path)
    ensures Commute(Apply, a, b) <==> !Clash(a.op, b.op) && !Clash(b.op, a.op)
  {
    if Clash(a.op, b.op) {
      ClashingDoNotCommute(a, b);
    } else if Clash(b.op, a.op) {
      ClashingDoNotCommute(b, a);
    } else {
      forall s ensures CommuteAt(Apply, s, a, b) {
        DifferentPathsCommute(s, a, b);
      }
    }
  }

  lemma ClashingDoNotCommute(a: Job, b: Job)
    requires Clash(a.op, b.op) && IsUtf8(a.op.path) && IsUtf8(b.op.path)
    ensures !Commute(Apply, a, b) && !Commute(Apply, b, a)
  {
    var p := b.op.path;
    AncestorsAreAbove(a.op.path, p);
    var s := if b.op.FileCreate? then Store({}, map[]) else Store({p}, map[p := [1]]);
    var (sa, ra) := Apply(s, a);
    var (sb, rb) := Apply(s, b);
    assert p in sa.tracked;
    assert a.op.path !in sb.tracked;
    if b.op.FileCreate? {
      assert rb.Ok? && Apply(sa, b).1.Err?;
    } else {
      assert p !in Apply(sa, b).0.tracked && p in Apply(sb, a).0.tracked;
    }
    assert !CommuteAt(Apply, s, a, b) && !CommuteAt(Apply, s, b, a);
  }

  // Any reordering that swaps only independent operations records the same store and
  // is answered the same, operation by operation.
  lemma StoreTraceReordering(s: Store, jobs: seq<Job>, pi: seq<nat>)
    requires IsPermutation(pi, |jobs|) && OnlySwaps(Independent, jobs, pi)
    ensures Run(Apply, s, Permuted(jobs, pi)).0 == Run(Apply, s, jobs).0
    ensures Run(Apply, s, Permuted(jobs, pi)).1 == Permuted(Run(Apply, s, jobs).1, pi)
  {
    forall a, b | Independent(a, b) ensures Commute(Apply, a, b) {
      forall t ensures CommuteAt(Apply, t, a, b) {
        DifferentPathsCommute(t, a, b);
      }
    }
    Reorder(Apply, Independent, s, jobs, pi);
  }
}
