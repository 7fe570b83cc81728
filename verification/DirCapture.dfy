// What is captured of a request that makes, removes or renames a name, against what the
// request then does to what can be seen, directories included.
module DirCapture {
  import opened Wrappers
  import opened Opcodes
  import opened Recorder
  import opened Names
  import Capture
  import DirTree
  import FileTree
  import Mount
  import NonInterference

  // ---- The visible tree ----

  ghost function NodeOf(s: Mount.State, p: Path): DirTree.Node
    requires p in s.names.tree
  {
    var Entry(ino, dir) := s.names.tree[p];
    if dir then DirTree.Dir else DirTree.File(if ino in s.bytes then s.bytes[ino] else [])
  }

  ghost function DirView(filters: seq<Name>, s: Mount.State): map<Path, DirTree.Node> {
    map p | p in s.names.tree && p != [] && !IsIgnored(filters, p) :: NodeOf(s, p)
  }

  lemma VisibleParent(filters: seq<Name>, p: Path)
    requires p != [] && !IsIgnored(filters, p)
    ensures !IsIgnored(filters, Parent(p))
  {
    if Parent(p) != [] {
      IgnoredAtAnyDepth(filters, Parent(p), p[|p| - 1..]);
      assert Parent(p) + p[|p| - 1..] == p;
    }
  }

  lemma VisibleChild(filters: seq<Name>, p: Path, q: Path)
    requires p != [] && !IsIgnored(filters, p) && Below(q, p)
    ensures q != [] && !IsIgnored(filters, q)
  {
    assert q == p + q[|p|..];
    IgnoredAtAnyDepth(filters, p, q[|p|..]);
  }

  lemma ViewIsClosed(filters: seq<Name>, s: Mount.State)
    requires WellFormed(s.names.tree)
    ensures DirTree.Closed(DirView(filters, s))
  {
    var t := DirView(filters, s);
    forall p | p in t && p != [] ensures DirTree.IsDir(t, Parent(p)) {
      VisibleParent(filters, p);
      assert IsDir(s.names.tree, Parent(p));
    }
  }

  lemma DirSeen(filters: seq<Name>, s: Mount.State, p: Path)
    requires WellFormed(s.names.tree) && !IsIgnored(filters, p)
    ensures DirTree.IsDir(DirView(filters, s), p) <==> IsDir(s.names.tree, p)
  {
  }

  lemma EmptySeen(filters: seq<Name>, s: Mount.State, p: Path)
    requires WellFormed(s.names.tree) && p != [] && !IsIgnored(filters, p)
    ensures DirTree.IsEmpty(DirView(filters, s), p) <==> Childless(s.names.tree, p)
  {
    var t := DirView(filters, s);
    if Childless(s.names.tree, p) {
      forall q | q in t && q != [] ensures Parent(q) != p {
        assert Parent(q) == p ==> Below(q, p);
      }
    }
    if !Childless(s.names.tree, p) {
      var q :| q in s.names.tree && Below(q, p);
      var child := q[..|p| + 1];
      assert AtOrBelow(q, child) && Below(child, p) && Parent(child) == p;
      AncestorsExist(s.names.tree, q, child);
      VisibleChild(filters, p, child);
      assert child in t;
    }
  }

  // ---- One request ----

  predicate IsNameRequest(req: Request) {
    req.Create? || req.Mkdir? || req.Unlink? || req.Rmdir?
  }

  function OperationOf(req: Request, p: Path): (op: Operation)
    requires IsNameRequest(req)
    ensures DirTree.IsEntryOp(op) && op.path == p
  {
    match req
    case Create(_, _, mode, _) => FileCreate(p, mode, [])
    case Mkdir(_, _, mode, _) => DirCreate(p, mode)
    case Unlink(_, _) => FileDelete(p)
    case _ => DirDelete(p)
  }

  lemma CapturedAsOperation(filters: seq<Name>, s: Mount.State, req: Request, p: Path)
    requires Resolve(s.names.known, FUSE_ROOT_ID) == Some([]) && IsNameRequest(req)
    requires Target(s.names.known, req) == Some(p)
    ensures Emissions(filters, s.names, req) == if IsIgnored(filters, p) then [] else [OperationOf(req, p)]
  {
    EmissionsByTarget(filters, s.names, req);
  }

  // POSIX allows the request exactly if its operation is possible in what can be seen.
  lemma PossibleAlike(filters: seq<Name>, s: Mount.State, req: Request, p: Path)
    requires WellFormed(s.names.tree) && IsNameRequest(req) && p != [] && !IsIgnored(filters, p)
    ensures Possible(s.names, req, p) <==> DirTree.Possible(DirView(filters, s), OperationOf(req, p))
  {
    VisibleParent(filters, p);
    DirSeen(filters, s, Parent(p));
    EmptySeen(filters, s, p);
  }

  // What the request leaves at a path: a new node, none, or the one there was.
  lemma NodesAfter(s: Mount.State, call: Call, p: Path, q: Path)
    requires Mount.Inv(s) && Mount.Valid(s, call.req) && IsNameRequest(call.req) && Done(s.names, call)
    requires Target(s.names.known, call.req) == Some(p)
    ensures KeptOrChanged(s, Mount.Step(s, call), call.req, p, q)
  {
    match call.req
    case Create(_, _, _, _) => Mount.CreateIs(s, call, p);
    case Mkdir(_, _, _, _) => Mount.MkdirIs(s, call, p);
    case Rmdir(_, _) => Mount.RmdirIs(s, call, p);
    case _ => UnlinkIs(s, call, p);
  }

  lemma UnlinkIs(s: Mount.State, call: Call, p: Path)
    requires call.req.Unlink? && Done(s.names, call) && Target(s.names.known, call.req) == Some(p)
    ensures var s1 := Mount.Step(s, call);
            && p in s.names.tree && s1.names.tree == s.names.tree - {p}
            && s1.bytes - {s.names.tree[p].ino} == s.bytes - {s.names.tree[p].ino}
  {
  }

  lemma ViewAfter(filters: seq<Name>, s: Mount.State, call: Call, p: Path)
    requires Mount.Inv(s) && Mount.Valid(s, call.req) && IsNameRequest(call.req) && Done(s.names, call)
    requires Target(s.names.known, call.req) == Some(p) && p != []
    requires DirTree.Possible(DirView(filters, s), OperationOf(call.req, p)) || IsIgnored(filters, p)
    ensures DirView(filters, Mount.Step(s, call)) ==
            if IsIgnored(filters, p) then DirView(filters, s)
            else DirTree.Left(DirView(filters, s), OperationOf(call.req, p))
  {
    var s1 := Mount.Step(s, call);
    forall q ensures KeptOrChanged(s, s1, call.req, p, q) {
      NodesAfter(s, call, p, q);
    }
    if IsIgnored(filters, p) {
      HiddenNodes(filters, s, s1, call.req, p);
    } else {
      VisibleNodes(filters, s, s1, call.req, p);
    }
  }

  ghost predicate KeptOrChanged(s: Mount.State, s1: Mount.State, req: Request, p: Path, q: Path) {
    && (q != p ==> (q in s1.names.tree <==> q in s.names.tree))
    && (q != p && q in s.names.tree ==> NodeOf(s1, q) == NodeOf(s, q))
    && (p in s1.names.tree <==> req.Create? || req.Mkdir?)
    && (req.Create? ==> NodeOf(s1, p) == DirTree.File([]))
    && (req.Mkdir? ==> NodeOf(s1, p) == DirTree.Dir)
  }

  lemma HiddenNodes(filters: seq<Name>, s: Mount.State, s1: Mount.State, req: Request, p: Path)
    requires IsIgnored(filters, p) && forall q :: KeptOrChanged(s, s1, req, p, q)
    ensures DirView(filters, s1) == DirView(filters, s)
  {
    var t, t1 := DirView(filters, s), DirView(filters, s1);
    forall q ensures q in t1 <==> q in t
             ensures q in t ==> t1[q] == t[q]
    {
      assert KeptOrChanged(s, s1, req, p, q);
    }
  }

  lemma VisibleNodes(filters: seq<Name>, s: Mount.State, s1: Mount.State, req: Request, p: Path)
    requires IsNameRequest(req) && p != [] && !IsIgnored(filters, p)
    requires forall q :: KeptOrChanged(s, s1, req, p, q)
    requires DirTree.Possible(DirView(filters, s), OperationOf(req, p))
    ensures DirView(filters, s1) == DirTree.Left(DirView(filters, s), OperationOf(req, p))
  {
    var t, t1 := DirTree.Left(DirView(filters, s), OperationOf(req, p)), DirView(filters, s1);
    assert KeptOrChanged(s, s1, req, p, p);
    forall q ensures q in t1 <==> q in t
             ensures q in t ==> t1[q] == t[q]
    {
      assert KeptOrChanged(s, s1, req, p, q);
    }
  }

  // Making or removing a name is never without effect.
  lemma CapturedIffDone(t: DirTree.Tree, t1: DirTree.Tree, op: Operation, done: bool)
    requires DirTree.Creates(op) || DirTree.Deletes(op)
    requires if done then DirTree.Possible(t, op) && t1 == DirTree.Left(t, op) else t1 == t
    ensures DirTree.Replay(t, op) == (t1, true) <==> done
  {
    if !done && DirTree.Possible(t, op) {
      assert op.path in DirTree.Left(t, op) <==> op.path !in t;
    }
  }

  lemma VisibleViews(filters: seq<Name>, s: Mount.State, s1: Mount.State, call: Call, p: Path)
    requires Mount.Inv(s) && Mount.Valid(s, call.req) && IsNameRequest(call.req) && s1 == Mount.Step(s, call)
    requires Target(s.names.known, call.req) == Some(p) && p != [] && !IsIgnored(filters, p)
    ensures var t, op := DirView(filters, s), OperationOf(call.req, p);
            if Done(s.names, call) then DirTree.Possible(t, op) && DirView(filters, s1) == DirTree.Left(t, op)
            else DirView(filters, s1) == t
  {
    PossibleAlike(filters, s, call.req, p);
    if Done(s.names, call) {
      ViewAfter(filters, s, call, p);
    } else {
      NothingDone(s, call);
    }
  }

  lemma ViewStaysClosed(filters: seq<Name>, s: Mount.State, s1: Mount.State, call: Call)
    requires Mount.Inv(s) && Mount.Valid(s, call.req) && IsNameRequest(call.req) && s1 == Mount.Step(s, call)
    ensures DirTree.Closed(DirView(filters, s)) && DirTree.Closed(DirView(filters, s1))
  {
    ViewIsClosed(filters, s);
    Mount.StepKeepsInv(s, call);
    ViewIsClosed(filters, s1);
  }

  // A request that makes or removes a visible name is captured as one operation, and that
  // operation does to the visible tree what the request does, exactly if the request is
  // carried out.
  lemma NameRequestIsCapturedIff(filters: seq<Name>, s: Mount.State, s1: Mount.State, call: Call, p: Path)
    requires Mount.Inv(s) && Mount.Valid(s, call.req) && IsNameRequest(call.req) && s1 == Mount.Step(s, call)
    requires Target(s.names.known, call.req) == Some(p) && !IsIgnored(filters, p)
    ensures DirTree.Closed(DirView(filters, s)) && DirTree.Closed(DirView(filters, s1))
    ensures Emissions(filters, s.names, call.req) == [OperationOf(call.req, p)]
    ensures DirTree.Replay(DirView(filters, s), OperationOf(call.req, p)) == (DirView(filters, s1), true)
            <==> Done(s.names, call)
  {
    assert p != [];
    CapturedAsOperation(filters, s, call.req, p);
    ViewStaysClosed(filters, s, s1, call);
    VisibleViews(filters, s, s1, call, p);
    CapturedIffDone(DirView(filters, s), DirView(filters, s1), OperationOf(call.req, p), Done(s.names, call));
  }

  lemma NothingDone(s: Mount.State, call: Call)
    requires IsNameRequest(call.req) && !Done(s.names, call)
    ensures Mount.Step(s, call) == s
  {
  }

  // A hidden one is not captured, and shows nothing.
  lemma HiddenNameRequestIsSilent(filters: seq<Name>, s: Mount.State, call: Call, p: Path)
    requires Mount.Inv(s) && Mount.Valid(s, call.req) && IsNameRequest(call.req)
    requires Target(s.names.known, call.req) == Some(p) && IsIgnored(filters, p)
    ensures Emissions(filters, s.names, call.req) == []
    ensures DirView(filters, Mount.Step(s, call)) == DirView(filters, s)
  {
    CapturedAsOperation(filters, s, call.req, p);
    if Done(s.names, call) {
      ViewAfter(filters, s, call, p);
    } else {
      NothingDone(s, call);
    }
  }

  // ---- Renames ----

  // A rename keeps the bytes of everything it leaves a name.
  lemma RenameKeepsNamed(s: Mount.State, s1: Mount.State, call: Call, src: Path, dst: Path)
    requires WellFormed(s.names.tree) && call.req.Rename? && Done(s.names, call) && s1 == Mount.Step(s, call)
    requires Target(s.names.known, call.req) == Some(src) && Destination(s.names.known, call.req) == Some(dst)
    ensures CanRename(s.names.tree, src, dst) && s1.names.tree == Renamed(s.names.tree, src, dst)
    ensures SameNamed(s, s1)
  {
    RenameStepIs(s.names, call, src, dst);
    Mount.RenameStepIs(s, call, dst);
  }

  // What is seen at q after a rename was at the source, or at q all along.
  ghost predicate Came(v: FileTree.Tree, v1: FileTree.Tree, src: Path, dst: Path, q: Path) {
    var from := if AtOrBelow(q, dst) then src + q[|dst|..] else q;
    && (AtOrBelow(q, src) ==> q !in v1)
    && (!AtOrBelow(q, src) ==> (q in v1 <==> from in v) && (q in v1 ==> v1[q] == v[from]))
  }

  ghost predicate SameNamed(s: Mount.State, s1: Mount.State) {
    && (forall p | p in s1.names.tree :: (s1.names.tree[p].ino in s1.bytes <==> s1.names.tree[p].ino in s.bytes))
    && (forall ino | ino in s1.bytes :: ino in s.bytes && s1.bytes[ino] == s.bytes[ino])
  }

  lemma FileCameFrom(filters: seq<Name>, s: Mount.State, s1: Mount.State, src: Path, dst: Path, q: Path)
    requires WellFormed(s.names.tree) && CanRename(s.names.tree, src, dst) && src != dst
    requires s1.names.tree == Renamed(s.names.tree, src, dst) && SameNamed(s, s1)
    requires !IsIgnored(filters, src) && !IsIgnored(filters, dst)
    ensures Came(Capture.View(filters, s), Capture.View(filters, s1), src, dst, q)
  {
    RenamedAt(s.names.tree, src, dst, q);
    if AtOrBelow(q, dst) {
      assert q == dst + q[|dst|..];
      IgnoredAtAnyDepth(filters, src, q[|dst|..]);
      IgnoredAtAnyDepth(filters, dst, q[|dst|..]);
      DestinationIsClear(s.names.tree, src, dst);
    }
  }

  lemma FileMoves(v: FileTree.Tree, v1: FileTree.Tree, src: Path, dst: Path)
    requires src in v && !AtOrBelow(src, dst) && !AtOrBelow(dst, src)
    requires forall q | q in v :: (AtOrBelow(q, src) ==> q == src) && !Below(q, dst)
    requires forall q :: Came(v, v1, src, dst, q)
    ensures FileTree.Replay(v, FileRename(src, dst)) == (v1, true)
  {
    var r := (v - {src})[dst := v[src]];
    forall q ensures q in v1 <==> q in r
             ensures q in r ==> v1[q] == r[q]
    {
      assert Came(v, v1, src, dst, q);
      if AtOrBelow(q, dst) {
        var from := src + q[|dst|..];
        assert AtOrBelow(from, src) && (q == dst <==> from == src);
      }
    }
    assert r == v1;
  }

  lemma DirMoves(v: FileTree.Tree, v1: FileTree.Tree, src: Path, dst: Path)
    requires !FileTree.Nested(src, dst) && !FileTree.FileUnder(v, dst)
    requires forall q :: Came(v, v1, src, dst, q)
    ensures FileTree.Replay(v, DirRename(src, dst)) == (v1, true)
  {
    var r := FileTree.Moved(v, src, dst);
    forall q ensures q in v1 <==> q in r
             ensures q in r ==> v1[q] == r[q]
    {
      assert Came(v, v1, src, dst, q);
      FileTree.MovedAt(v, src, dst, q);
    }
    assert r == v1;
  }

  lemma NothingBelowFile(tree: Names.Tree, p: Path, q: Path)
    requires WellFormed(tree) && p in tree && !tree[p].dir && q in tree && AtOrBelow(q, p)
    ensures q == p
  {
    AncestorsExist(tree, q, p);
  }

  lemma AllCame(filters: seq<Name>, s: Mount.State, s1: Mount.State, src: Path, dst: Path)
    requires WellFormed(s.names.tree) && CanRename(s.names.tree, src, dst) && src != dst
    requires s1.names.tree == Renamed(s.names.tree, src, dst) && SameNamed(s, s1)
    requires !IsIgnored(filters, src) && !IsIgnored(filters, dst)
    ensures forall q :: Came(Capture.View(filters, s), Capture.View(filters, s1), src, dst, q)
    ensures forall q | q in Capture.View(filters, s) :: !Below(q, dst)
    ensures !AtOrBelow(src, dst) && !AtOrBelow(dst, src)
  {
    DestinationIsClear(s.names.tree, src, dst);
    forall q ensures Came(Capture.View(filters, s), Capture.View(filters, s1), src, dst, q) {
      FileCameFrom(filters, s, s1, src, dst, q);
    }
  }

  lemma SourceInView(filters: seq<Name>, s: Mount.State, src: Path, dst: Path)
    requires Mount.Inv(s) && CanRename(s.names.tree, src, dst) && !IsIgnored(filters, src)
    ensures var v := Capture.View(filters, s);
            && (!s.names.tree[src].dir ==> src in v && forall q | q in v && AtOrBelow(q, src) :: q == src)
            && (s.names.tree[src].dir && src != dst ==> dst !in v)
  {
    if !s.names.tree[src].dir {
      forall q | q in Capture.View(filters, s) && AtOrBelow(q, src) ensures q == src {
        NothingBelowFile(s.names.tree, src, q);
      }
    }
  }

  // A visible rename that is carried out is captured as one operation, which does to the
  // files what the rename does, whatever it overwrites or carries along.
  lemma RenameIsCaptured(filters: seq<Name>, s: Mount.State, s1: Mount.State, call: Call, src: Path, dst: Path)
    requires Mount.Inv(s) && call.req.Rename? && Done(s.names, call) && s1 == Mount.Step(s, call)
    requires Target(s.names.known, call.req) == Some(src) && Destination(s.names.known, call.req) == Some(dst)
    requires !IsIgnored(filters, src) && !IsIgnored(filters, dst)
    ensures |Emissions(filters, s.names, call.req)| == 1
    ensures FileTree.Replay(Capture.View(filters, s), Emissions(filters, s.names, call.req)[0]) ==
            (Capture.View(filters, s1), true)
  {
    NonInterference.RenameEmits(filters, s.names, call.req);
    RenameKeepsNamed(s, s1, call, src, dst);
    SourceInView(filters, s, src, dst);
    var v, v1 := Capture.View(filters, s), Capture.View(filters, s1);
    if src == dst {
      SameSeen(filters, s, s1, src);
    } else {
      AllCame(filters, s, s1, src, dst);
      if s.names.tree[src].dir {
        forall q | q in v ensures !AtOrBelow(q, dst) {
          assert AtOrBelow(q, dst) ==> Below(q, dst) || q == dst;
        }
        DirMoves(v, v1, src, dst);
      } else {
        FileMoves(v, v1, src, dst);
      }
    }
  }

  lemma SameSeen(filters: seq<Name>, s: Mount.State, s1: Mount.State, src: Path)
    requires s1.names.tree == s.names.tree && SameNamed(s, s1)
    ensures var v := Capture.View(filters, s);
            && Capture.View(filters, s1) == v
            && FileTree.Replay(v, DirRename(src, src)) == (v, true)
            && (src in v ==> FileTree.Replay(v, FileRename(src, src)) == (v, true))
  {
    var v := Capture.View(filters, s);
    if src in v {
      assert (v - {src})[src := v[src]] == v;
    }
  }
}
