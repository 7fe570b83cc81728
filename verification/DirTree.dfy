// The same operations on a working directory that has directories in it: what is created
// needs a directory to be in, and only an empty directory can be removed.
module DirTree {
  import opened Bytes
  import opened Opcodes
  import opened Commutation
  import FileTree

  datatype Node = File(content: Content) | Dir

  predicate IsDir(t: map<Path, Node>, p: Path) {
    p == [] || (p in t && t[p].Dir?)
  }

  // Everything but the root, which is always there, is in a directory.
  ghost predicate Closed(t: map<Path, Node>) {
    [] !in t && forall p {:trigger Parent(p)} | p in t && p != [] :: IsDir(t, Parent(p))
  }

  type Tree = t: map<Path, Node> | Closed(t) witness map[]

  ghost predicate IsEmpty(t: map<Path, Node>, p: Path) {
    forall q {:trigger Parent(q)} | q in t && q != [] :: Parent(q) != p
  }

  // ---- One operation ----

  predicate IsEntryOp(op: Operation) {
    op.IsContentOp() || op.DirCreate? || op.DirDelete?
  }

  predicate Creates(op: Operation) {
    op.FileCreate? || op.DirCreate?
  }

  predicate Deletes(op: Operation) {
    op.FileDelete? || op.DirDelete?
  }

  ghost predicate Possible(t: map<Path, Node>, op: Operation)
    requires IsEntryOp(op)
  {
    var p := op.path;
    if Creates(op) then p != [] && p !in t && IsDir(t, Parent(p))
    else if op.DirDelete? then p in t && t[p].Dir? && IsEmpty(t, p)
    else p in t && t[p].File?
  }

  // What is at the path afterwards.
  ghost function Left(t: map<Path, Node>, op: Operation): map<Path, Node>
    requires IsEntryOp(op) && Possible(t, op)
  {
    var p := op.path;
    match op
    case FileCreate(_, _, content) => t[p := File(content)]
    case FileWrite(_, offset, data) => t[p := File(PosixStep(t[p].content, Write(offset, data)))]
    case FileTruncate(_, size) => t[p := File(PosixStep(t[p].content, Truncate(size)))]
    case DirCreate(_, _) => t[p := Dir]
    case _ => t - {p}
  }

  lemma LeftIsClosed(t: map<Path, Node>, op: Operation)
    requires Closed(t) && IsEntryOp(op) && Possible(t, op)
    ensures Closed(Left(t, op))
  {
    var t1 := Left(t, op);
    forall q | q in t1 && q != [] ensures IsDir(t1, Parent(q)) {
      if q in t {
        assert IsDir(t, Parent(q));
      }
    }
  }

  // The operation on the tree, and whether it succeeds.
  ghost function Replay(t: Tree, op: Operation): (Tree, bool) {
    if IsEntryOp(op) && Possible(t, op) then
      LeftIsClosed(t, op);
      (Left(t, op), true)
    else (t, !IsEntryOp(op))
  }

  // ---- Which operations commute ----

  // The claim that operations on different paths commute fails for these: what makes or
  // removes a directory, and what creates in it; and what empties it before it goes.
  ghost predicate Clash(a: Operation, b: Operation)
    requires IsEntryOp(a) && IsEntryOp(b)
  {
    && a.path != [] && b.path != [] && b.path == Parent(a.path)
    && ((Creates(a) && (b.DirCreate? || b.DirDelete?)) || (Deletes(a) && b.DirDelete?))
  }

  lemma StillPossible(t: Tree, a: Operation, b: Operation)
    requires IsEntryOp(a) && IsEntryOp(b) && a.path != b.path && !Clash(a, b) && !Clash(b, a)
    ensures Possible(Replay(t, b).0, a) <==> Possible(t, a)
  {
    var t1 := Replay(t, b).0;
    assert a.path in t1 <==> a.path in t;
    assert a.path in t ==> t1[a.path] == t[a.path];
    if a.DirDelete? {
      EmptinessStays(t, a, b);
    }
  }

  lemma EmptinessStays(t: Tree, a: Operation, b: Operation)
    requires IsEntryOp(b) && a.DirDelete? && a.path != b.path && !Clash(b, a)
    ensures a.path in t ==> (IsEmpty(Replay(t, b).0, a.path) <==> IsEmpty(t, a.path))
  {
    var t1 := Replay(t, b).0;
    if a.path in t {
      forall q | q != [] && Parent(q) == a.path ensures q in t1 <==> q in t {
        if q == b.path {
          assert a.path != [] && !Creates(b) && !Deletes(b);
        }
      }
    }
  }

  lemma DifferentPathsCommute(t: Tree, a: Operation, b: Operation)
    requires IsEntryOp(a) && IsEntryOp(b) && a.path != b.path && !Clash(a, b) && !Clash(b, a)
    ensures CommuteAt(Replay, t, a, b)
  {
    StillPossible(t, a, b);
    StillPossible(t, b, a);
    if Possible(t, a) && Possible(t, b) {
      EitherOrder(t, a, b);
    }
  }

  lemma EitherOrder(t: map<Path, Node>, a: Operation, b: Operation)
    requires IsEntryOp(a) && IsEntryOp(b) && a.path != b.path
    requires Possible(t, a) && Possible(t, b) && Possible(Left(t, a), b) && Possible(Left(t, b), a)
    ensures Left(Left(t, a), b) == Left(Left(t, b), a)
  {
    LeftAside(t, a, b);
    LeftAside(t, b, a);
    SameNodes(Left(Left(t, a), b), Left(Left(t, b), a));
  }

  lemma SameNodes(t: map<Path, Node>, t1: map<Path, Node>)
    requires forall q :: NodeAt(t, q) == NodeAt(t1, q)
    ensures t == t1
  {
    forall q ensures q in t <==> q in t1
             ensures q in t ==> t[q] == t1[q]
    {
      assert NodeAt(t, q) == NodeAt(t1, q);
    }
  }

  ghost function NodeAt(t: map<Path, Node>, p: Path): seq<Node> {
    if p in t then [t[p]] else []
  }

  // What an operation leaves depends on no other path, and nor does it change one.
  lemma LeftAside(t: map<Path, Node>, a: Operation, b: Operation)
    requires IsEntryOp(a) && IsEntryOp(b) && a.path != b.path
    requires Possible(t, a) && Possible(t, b) && Possible(Left(t, a), b)
    ensures forall q | q != a.path && q != b.path :: NodeAt(Left(Left(t, a), b), q) == NodeAt(t, q)
    ensures NodeAt(Left(Left(t, a), b), a.path) == NodeAt(Left(t, a), a.path)
    ensures NodeAt(Left(Left(t, a), b), b.path) == NodeAt(Left(t, b), b.path)
  {
  }

  // Operations on different paths commute on every tree exactly when they do not clash.
  lemma CommuteIffNoClash(a: Operation, b: Operation)
    requires IsEntryOp(a) && IsEntryOp(b) && a.path != b.path
    ensures Commute(Replay, a, b) <==> !Clash(a, b) && !Clash(b, a)
  {
    if Clash(a, b) {
      ClashingDoNotCommute(a, b);
    } else if Clash(b, a) {
      ClashingDoNotCommute(b, a);
    } else {
      forall t ensures CommuteAt(Replay, t, a, b) {
        DifferentPathsCommute(t, a, b);
      }
    }
  }

  // The directories a path is in.
  ghost function Above(p: Path): Tree {
    var t := map q | q in Ancestors(p) :: Dir;
    AboveIsClosed(p, t);
    t
  }

  lemma AboveIsClosed(p: Path, t: map<Path, Node>)
    requires t == map q | q in Ancestors(p) :: Dir
    ensures Closed(t)
  {
    AncestorsAreAbove(p, []);
    forall q | q in t && q != [] ensures IsDir(t, Parent(q)) {
      AncestorsAreAbove(p, q);
      AncestorsAreAbove(p, Parent(q));
      assert Parent(q) == p[..|q| - 1];
    }
  }

  // A tree on which the order matters.
  lemma ClashingDoNotCommute(a: Operation, b: Operation)
    requires IsEntryOp(a) && IsEntryOp(b) && Clash(a, b)
    ensures !Commute(Replay, a, b) && !Commute(Replay, b, a)
  {
    var t := Witness(a, b);
    WitnessTells(a, b);
    assert !CommuteAt(Replay, t, a, b) && !CommuteAt(Replay, t, b, a);
  }

  ghost function Witness(a: Operation, b: Operation): Tree
    requires IsEntryOp(a) && IsEntryOp(b) && Clash(a, b)
  {
    if b.DirCreate? then Above(b.path)
    else if Creates(a) then Above(a.path)
    else
      var above := Above(a.path);
      ParentIsAbove(a.path);
      above[a.path := if a.DirDelete? then Dir else File([])]
  }

  lemma ParentIsAbove(p: Path)
    requires p != []
    ensures IsDir(Above(p), Parent(p)) && p !in Above(p)
    ensures forall q | q in Above(p) :: |q| < |p|
  {
    forall q ensures q in Above(p) <==> q != [] && Below(p, q) {
      AncestorsAreAbove(p, q);
    }
  }

  lemma WitnessTells(a: Operation, b: Operation)
    requires IsEntryOp(a) && IsEntryOp(b) && Clash(a, b)
    ensures var t := Witness(a, b);
            || (Replay(t, a).1 != Replay(Replay(t, b).0, a).1)
            || (Replay(t, b).1 != Replay(Replay(t, a).0, b).1)
  {
    ParentIsAbove(a.path);
    ParentIsAbove(b.path);
  }

  // Any reordering that keeps the order of operations that clash or share a path ends in
  // the same tree, each operation succeeding or failing as it did before.
  ghost predicate Independent(a: Operation, b: Operation) {
    IsEntryOp(a) && IsEntryOp(b) && a.path != b.path && !Clash(a, b) && !Clash(b, a)
  }

  lemma TraceReordering(t: Tree, ops: seq<Operation>, pi: seq<nat>)
    requires IsPermutation(pi, |ops|) && OnlySwaps(Independent, ops, pi)
    ensures Run(Replay, t, Permuted(ops, pi)).0 == Run(Replay, t, ops).0
    ensures Run(Replay, t, Permuted(ops, pi)).1 == Permuted(Run(Replay, t, ops).1, pi)
  {
    forall a, b | Independent(a, b) ensures Commute(Replay, a, b) {
      CommuteIffNoClash(a, b);
    }
    Reorder(Replay, Independent, t, ops, pi);
  }

  // ---- The files of the tree ----

  ghost function Files(t: map<Path, Node>): FileTree.Tree {
    map p | p in t && t[p].File? :: t[p].content
  }

  // An operation that succeeds on the tree succeeds on its files alone, and does the same
  // to them.
  lemma FilesFollow(t: Tree, op: Operation)
    requires IsEntryOp(op) && Possible(t, op)
    ensures FileTree.Replay(Files(t), op) == (Files(Replay(t, op).0), true)
  {
    var p := op.path;
    assert p in Files(t) <==> p in t && t[p].File?;
    if op.FileDelete? {
      assert Files(t - {p}) == Files(t) - {p};
    } else if op.IsContentOp() {
      assert Files(Left(t, op)) == Files(t)[p := Left(t, op)[p].content];
    } else {
      assert Files(Left(t, op)) == Files(t);
    }
  }
}
