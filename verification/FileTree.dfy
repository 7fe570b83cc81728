// What a trace of opcodes means: the files of a working directory, replayed one
// operation at a time, and which operations may be reordered.
module FileTree {
  import opened Bytes
  import opened Opcodes
  import opened Commutation

  // The regular files, each with its bytes. Directories hold no bytes of their own.
  type Tree = map<Path, Content>

  // The content a path reads as; a path without a file reads as nothing.
  function ContentAt(t: Tree, p: Path): Content {
    if p in t then t[p] else []
  }

  ghost predicate FileUnder(t: Tree, dir: Path) {
    exists p :: p in t && AtOrBelow(p, dir)
  }

  ghost predicate Nested(d: Path, e: Path) {
    AtOrBelow(d, e) || AtOrBelow(e, d)
  }

  // Everything at or below d, found again at or below e.
  ghost function Moved(t: Tree, d: Path, e: Path): Tree
    requires !Nested(d, e) && !FileUnder(t, e)
  {
    var targets := (set k | k in t && !AtOrBelow(k, d)) +
                   (set k | k in t && AtOrBelow(k, d) :: e + k[|d|..]);
    map q | q in targets :: if AtOrBelow(q, e) then ContentAt(t, d + q[|e|..]) else ContentAt(t, q)
  }

  // One operation on the tree, and whether it succeeds.
  ghost function Replay(t: Tree, op: Operation): (Tree, bool) {
    match op
    case FileCreate(p, _, content) => if p in t then (t, false) else (t[p := content], true)
    case FileWrite(p, offset, data) =>
      if p in t then (t[p := PosixStep(t[p], Write(offset, data))], true) else (t, false)
    case FileTruncate(p, size) =>
      if p in t then (t[p := PosixStep(t[p], Truncate(size))], true) else (t, false)
    case FileDelete(p) => if p in t then (t - {p}, true) else (t, false)
    case FileRename(src, dst) =>
      if src in t then ((t - {src})[dst := t[src]], true) else (t, false)
    case DirRename(d, e) =>
      if d == e then (t, true)
      else if Nested(d, e) || FileUnder(t, e) then (t, false)
      else (Moved(t, d, e), true)
    case _ => (t, true)
  }

  ghost function ReplayAll(t: Tree, ops: seq<Operation>): Tree
    decreases |ops|
  {
    if ops == [] then t else ReplayAll(Replay(t, ops[0]).0, ops[1..])
  }

  lemma {:induction false} ReplayAllSnoc(t: Tree, ops: seq<Operation>, op: Operation)
    ensures ReplayAll(t, ops + [op]) == Replay(ReplayAll(t, ops), op).0
    decreases |ops|
  {
    if ops == [] {
      assert ops + [op] == [op];
    } else {
      assert (ops + [op])[0] == ops[0] && (ops + [op])[1..] == ops[1..] + [op];
      ReplayAllSnoc(Replay(t, ops[0]).0, ops[1..], op);
    }
  }

  lemma {:induction false} ReplayAllSplits(t: Tree, a: seq<Operation>, b: seq<Operation>)
    ensures ReplayAll(t, a + b) == ReplayAll(ReplayAll(t, a), b)
    decreases |a|
  {
    if a == [] {
      assert a + b == b;
    } else {
      assert (a + b)[0] == a[0] && (a + b)[1..] == a[1..] + b;
      ReplayAllSplits(Replay(t, a[0]).0, a[1..], b);
    }
  }

  // ---- What one request is captured as ----

  // Operations as the file system captures them when nothing is renamed: a created
  // file starts out empty.
  predicate Plain(op: Operation) {
    !op.FileRename? && !op.DirRename? && !op.HardLinkCreate? && (op.FileCreate? ==> op.content == [])
  }

  // Only the first operation a request is captured as touches file contents, and each
  // of them succeeds in its turn.
  ghost predicate FirstDoesAll(v: Tree, v1: Tree, ops: seq<Operation>) {
    && (ops == [] ==> v1 == v)
    && (forall k | 0 < k <= |ops| :: ReplayAll(v, ops[..k]) == v1)
    && (forall k | 0 <= k < |ops| :: Plain(ops[k]) && Replay(if k == 0 then v else v1, ops[k]).1)
  }

  ghost predicate AllPlain(ops: seq<Operation>) {
    forall i | 0 <= i < |ops| :: Plain(ops[i])
  }

  ghost predicate SameAt(t: Tree, u: Tree, p: Path) {
    (p in t <==> p in u) && (p in t ==> t[p] == u[p])
  }

  ghost predicate AllAffect(ops: seq<Operation>, p: Path) {
    forall i | 0 <= i < |ops| :: ops[i].AffectsPath(p)
  }

  ghost predicate NoneAffects(ops: seq<Operation>, p: Path) {
    forall i | 0 <= i < |ops| :: !ops[i].AffectsPath(p)
  }

  // As far as one path goes: either a request is all about it, and its operations do what
  // the request does, or it has nothing to do with it, and leaves it alone.
  ghost predicate TrueAt(v: Tree, v1: Tree, ops: seq<Operation>, p: Path) {
    || (AllAffect(ops, p) && FirstDoesAll(v, v1, ops))
    || (NoneAffects(ops, p) && SameAt(v1, v, p))
  }

  lemma OneDoesAll(v: Tree, op: Operation)
    requires Plain(op) && Replay(v, op).1
    ensures FirstDoesAll(v, Replay(v, op).0, [op])
  {
    forall k | 0 < k <= 1 ensures ReplayAll(v, [op][..k]) == Replay(v, op).0 {
      assert [op][..k] == [op];
      assert ReplayAll(Replay(v, op).0, [op][1..]) == Replay(v, op).0;
    }
  }

  lemma CapturedAsOne(v: Tree, v1: Tree, ignored: bool, op: Operation, ops: seq<Operation>)
    requires v1 == if ignored then v else Replay(v, op).0
    requires Plain(op) && (!ignored ==> Replay(v, op).1)
    requires ops == if ignored then [] else [op]
    ensures FirstDoesAll(v, v1, ops)
  {
    if !ignored {
      OneDoesAll(v, op);
    }
  }

  lemma {:induction false} QuietReplay(v: Tree, ops: seq<Operation>)
    requires forall i | 0 <= i < |ops| :: ops[i].SetPermissions? || ops[i].SetTimestamps?
    ensures ReplayAll(v, ops) == v
    decreases |ops|
  {
    if ops != [] {
      QuietReplay(v, ops[1..]);
    }
  }

  // ---- Reordering file operations ----

  ghost predicate ShareNoPath(a: Operation, b: Operation) {
    forall p :: !(a.AffectsPath(p) && b.AffectsPath(p))
  }

  ghost predicate IndependentFileOps(a: Operation, b: Operation) {
    a.IsFileOp() && b.IsFileOp() && ShareNoPath(a, b)
  }

  ghost function Footprint(op: Operation): (s: set<Path>)
    requires op.IsFileOp()
    ensures forall p :: op.AffectsPath(p) <==> p in s
  {
    if op.FileRename? then {op.oldPath, op.newPath} else {op.PrimaryPath()}
  }

  ghost function Restricted(t: Tree, ps: set<Path>): Tree {
    map p | p in t && p in ps :: t[p]
  }

  // A file operation reads and writes the paths it affects and nothing else.
  lemma Local(t: Tree, op: Operation)
    requires op.IsFileOp()
    ensures var f := Footprint(op);
            var (t1, ok) := Replay(t, op);
            && t1 - f == t - f
            && (Restricted(t1, f), ok) == Replay(Restricted(t, f), op)
  {
    var f := Footprint(op);
    var r := Restricted(t, f);
    var (t1, ok) := Replay(t, op);
    var (r1, rok) := Replay(r, op);
    assert op.PrimaryPath() in f;
    assert op.PrimaryPath() in t <==> op.PrimaryPath() in r;
    assert ok == rok;
    assert t1 - f == t - f;
    assert Restricted(t1, f) == r1;
  }

  lemma FileOpsCommute(a: Operation, b: Operation, t: Tree)
    requires IndependentFileOps(a, b)
    ensures CommuteAt(Replay, t, a, b)
  {
    var fa, fb := Footprint(a), Footprint(b);
    assert fa !! fb by {
      forall p ensures p !in fa || p !in fb {
        assert !(a.AffectsPath(p) && b.AffectsPath(p));
      }
    }
    var (ta, ra) := Replay(t, a);
    var (tab, rab) := Replay(ta, b);
    var (tb, rb) := Replay(t, b);
    var (tba, rba) := Replay(tb, a);
    Local(t, a);
    Local(t, b);
    Local(ta, b);
    Local(tb, a);
    SameOutside(t, tb, fb, fa);
    SameOutside(t, ta, fa, fb);
    SameOutside(ta, tab, fb, fa);
    SameOutside(tb, tba, fa, fb);
    Untouched(t, ta, tab, fa, fb);
    Untouched(t, tb, tba, fb, fa);
    EqualByParts(tab, tba, fa, fb);
  }

  lemma Untouched(t: Tree, t1: Tree, t2: Tree, f1: set<Path>, f2: set<Path>)
    requires t1 - f1 == t - f1 && t2 - f2 == t1 - f2
    ensures t2 - (f1 + f2) == t - (f1 + f2)
  {
    assert t2 - (f1 + f2) == (t2 - f2) - f1;
    assert t - (f1 + f2) == (t - f1) - f2;
    assert (t1 - f2) - f1 == (t1 - f1) - f2;
  }

  lemma EqualByParts(x: Tree, y: Tree, f1: set<Path>, f2: set<Path>)
    requires x - (f1 + f2) == y - (f1 + f2) || x - (f1 + f2) == y - (f2 + f1)
    requires Restricted(x, f1) == Restricted(y, f1) && Restricted(x, f2) == Restricted(y, f2)
    ensures x == y
  {
    assert f1 + f2 == f2 + f1;
    SplitsInThree(x, f1, f2);
    SplitsInThree(y, f1, f2);
  }

  lemma SameOutside(t: Tree, t1: Tree, changed: set<Path>, f: set<Path>)
    requires t1 - changed == t - changed && changed !! f
    ensures Restricted(t1, f) == Restricted(t, f)
  {
    forall p | p in f ensures p in t1 <==> p in t
                      ensures p in t ==> t1[p] == t[p]
    {
      assert p in t1 <==> p in t1 - changed;
      assert p in t <==> p in t - changed;
      assert p in t ==> (t1 - changed)[p] == (t - changed)[p];
    }
  }

  lemma SplitsInThree(t: Tree, a: set<Path>, b: set<Path>)
    ensures t == (t - (a + b)) + Restricted(t, a) + Restricted(t, b)
  {
  }

  // Any reordering of file operations that keeps the order of those sharing a path
  // ends in the same files, each operation succeeding or failing as it did before.
  lemma FileTraceReordering(t: Tree, ops: seq<Operation>, pi: seq<nat>)
    requires forall i | 0 <= i < |ops| :: ops[i].IsFileOp()
    requires IsPermutation(pi, |ops|)
    requires forall i, j | 0 <= i < j < |pi| && pi[i] > pi[j] :: ShareNoPath(ops[pi[i]], ops[pi[j]])
    ensures Run(Replay, t, Permuted(ops, pi)).0 == Run(Replay, t, ops).0
    ensures Run(Replay, t, Permuted(ops, pi)).1 == Permuted(Run(Replay, t, ops).1, pi)
  {
    forall a, b | IndependentFileOps(a, b) ensures Commute(Replay, a, b) {
      forall s ensures CommuteAt(Replay, s, a, b) {
        FileOpsCommute(a, b, s);
      }
    }
    Reorder(Replay, IndependentFileOps, t, ops, pi);
  }

  // ---- Directory renames ----

  lemma MovedAt(t: Tree, d: Path, e: Path, q: Path)
    requires !Nested(d, e) && !FileUnder(t, e)
    ensures var m := Moved(t, d, e);
            && (AtOrBelow(q, d) ==> q !in m)
            && (AtOrBelow(q, e) ==> (q in m <==> d + q[|e|..] in t))
            && (!AtOrBelow(q, d) && !AtOrBelow(q, e) ==> (q in m <==> q in t))
            && (q in m ==> m[q] == if AtOrBelow(q, e) then t[d + q[|e|..]] else t[q])
  {
    if AtOrBelow(q, e) {
      var k := d + q[|e|..];
      assert e + k[|d|..] == q;
      if q in Moved(t, d, e) {
        if q in t && !AtOrBelow(q, d) {
          assert false;
        } else {
          var k' :| k' in t && AtOrBelow(k', d) && q == e + k'[|d|..];
          assert k' == d + k'[|d|..] == k;
        }
      }
    } else {
      forall k | k in t && AtOrBelow(k, d) ensures q != e + k[|d|..] {
        assert AtOrBelow(e + k[|d|..], e);
      }
    }
    if AtOrBelow(q, d) && AtOrBelow(q, e) {
      NotUnderBoth(q, d, e);
    }
  }

  lemma NotUnderBoth(q: Path, d: Path, e: Path)
    requires AtOrBelow(q, d) && AtOrBelow(q, e)
    ensures Nested(d, e)
  {
    if |d| <= |e| {
      assert e[..|d|] == q[..|e|][..|d|] == q[..|d|] == d;
    } else {
      assert d[..|e|] == q[..|d|][..|e|] == q[..|e|] == e;
    }
  }

  // affects_path names only the two directories, but what a directory rename
  // depends on is everything at or below either of them, and nothing else.
  lemma DirRenameIndependence(d: Path, e: Path, op: Operation)
    requires !Nested(d, e) && op.IsContentOp()
    ensures Commute(Replay, DirRename(d, e), op) <==>
            !AtOrBelow(op.path, d) && !AtOrBelow(op.path, e)
  {
    var mv, p := DirRename(d, e), op.path;
    if !AtOrBelow(p, d) && !AtOrBelow(p, e) {
      forall t: Tree ensures CommuteAt(Replay, t, mv, op) {
        DirRenameCommutes(t, d, e, op);
      }
    } else if AtOrBelow(p, d) {
      var t: Tree := map[p := []];
      assert !AtOrBelow(p, e) by { if AtOrBelow(p, e) { NotUnderBoth(p, d, e); } }
      assert !FileUnder(t, e);
      MovedAt(t, d, e, p);
      assert Replay(t, op).1 != Replay(Replay(t, mv).0, op).1;
      assert !CommuteAt(Replay, t, mv, op);
    } else if op.FileCreate? {
      var t: Tree := map[];
      assert p in Replay(t, op).0;
      assert FileUnder(Replay(t, op).0, e);
      assert !CommuteAt(Replay, t, mv, op);
    } else {
      var src := d + p[|e|..];
      var t: Tree := map[src := []];
      assert AtOrBelow(src, d);
      assert !AtOrBelow(src, e) by { if AtOrBelow(src, e) { NotUnderBoth(src, d, e); } }
      assert !FileUnder(t, e);
      MovedAt(t, d, e, p);
      assert p !in t;
      assert Replay(t, op).1 != Replay(Replay(t, mv).0, op).1;
      assert !CommuteAt(Replay, t, mv, op);
    }
  }

  ghost predicate DifferOnlyAt(t: Tree, t1: Tree, p: Path) {
    t - {p} == t1 - {p}
  }

  lemma SameElsewhere(t: Tree, t1: Tree, p: Path, q: Path)
    requires DifferOnlyAt(t, t1, p) && p != q
    ensures q in t <==> q in t1
    ensures q in t ==> t[q] == t1[q]
  {
    assert q in t <==> q in t - {p};
    assert q in t1 <==> q in t1 - {p};
    assert q in t ==> (t - {p})[q] == (t1 - {p})[q];
  }

  lemma FileUnderUnaffected(t: Tree, t1: Tree, p: Path, e: Path)
    requires DifferOnlyAt(t, t1, p) && !AtOrBelow(p, e)
    ensures FileUnder(t, e) ==> FileUnder(t1, e)
  {
    if FileUnder(t, e) {
      var q :| q in t && AtOrBelow(q, e);
      SameElsewhere(t, t1, p, q);
    }
  }

  lemma MovedDiffersOnlyAt(t: Tree, t1: Tree, d: Path, e: Path, p: Path)
    requires DifferOnlyAt(t, t1, p) && !AtOrBelow(p, d) && !AtOrBelow(p, e)
    requires !Nested(d, e) && !FileUnder(t, e) && !FileUnder(t1, e)
    ensures DifferOnlyAt(Moved(t, d, e), Moved(t1, d, e), p)
    ensures p in Moved(t, d, e) <==> p in t
    ensures p in t ==> Moved(t, d, e)[p] == t[p]
  {
    var m, m1 := Moved(t, d, e), Moved(t1, d, e);
    MovedAt(t, d, e, p);
    forall q | q != p
      ensures q in m <==> q in m1
      ensures q in m ==> m[q] == m1[q]
    {
      MovedAt(t, d, e, q);
      MovedAt(t1, d, e, q);
      SameElsewhere(t, t1, p, q);
      if AtOrBelow(q, e) {
        assert AtOrBelow(d + q[|e|..], d);
        SameElsewhere(t, t1, p, d + q[|e|..]);
      }
    }
    assert m - {p} == m1 - {p};
  }

  // What a content operation leaves at its path depends only on what was there.
  lemma ContentOpAt(t: Tree, m: Tree, op: Operation)
    requires op.IsContentOp()
    requires op.path in t <==> op.path in m
    requires op.path in t ==> t[op.path] == m[op.path]
    ensures var (t1, ok) := Replay(t, op);
            var (m1, mok) := Replay(m, op);
            && ok == mok && DifferOnlyAt(t, t1, op.path)
            && (op.path in t1 <==> op.path in m1)
            && (op.path in t1 ==> t1[op.path] == m1[op.path])
  {
    assert DifferOnlyAt(t, Replay(t, op).0, op.path);
  }

  lemma SameTree(t: Tree, t1: Tree, p: Path)
    requires DifferOnlyAt(t, t1, p)
    requires p in t <==> p in t1
    requires p in t ==> t[p] == t1[p]
    ensures t == t1
  {
    forall q ensures q in t <==> q in t1
             ensures q in t ==> t[q] == t1[q]
    {
      if q != p {
        SameElsewhere(t, t1, p, q);
      }
    }
  }

  lemma DirRenameCommutes(t: Tree, d: Path, e: Path, op: Operation)
    requires !Nested(d, e) && op.IsContentOp()
    requires !AtOrBelow(op.path, d) && !AtOrBelow(op.path, e)
    ensures CommuteAt(Replay, t, DirRename(d, e), op)
  {
    var p := op.path;
    var to := Replay(t, op).0;
    ContentOpAt(t, t, op);
    FileUnderUnaffected(t, to, p, e);
    FileUnderUnaffected(to, t, p, e);
    if !FileUnder(t, e) {
      MovedThenOp(t, to, d, e, op);
    }
  }

  lemma MovedThenOp(t: Tree, to: Tree, d: Path, e: Path, op: Operation)
    requires !Nested(d, e) && op.IsContentOp() && to == Replay(t, op).0
    requires !AtOrBelow(op.path, d) && !AtOrBelow(op.path, e) && !FileUnder(t, e) && !FileUnder(to, e)
    ensures Replay(Moved(t, d, e), op) == (Moved(to, d, e), Replay(t, op).1)
  {
    var p, m, mo := op.path, Moved(t, d, e), Moved(to, d, e);
    ContentOpAt(t, t, op);
    MovedDiffersOnlyAt(t, to, d, e, p);
    MovedDiffersOnlyAt(to, t, d, e, p);
    ContentOpAt(t, m, op);
    ContentOpAt(m, t, op);
    SameTree(mo, Replay(m, op).0, p);
  }
}
