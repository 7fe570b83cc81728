// What the recorder captures ahead of a request, against what the request then does to
// the files as the paths show them.
module Capture {
  import opened Wrappers
  import opened Bytes
  import opened Opcodes
  import opened Recorder
  import opened Names
  import opened FileTree
  import opened Mount

  // ---- The files as the paths show them ----

  ghost function View(filters: seq<Name>, s: Mount.State): FileTree.Tree {
    map p | p in s.names.tree && s.names.tree[p].ino in s.bytes && !IsIgnored(filters, p) ::
      s.bytes[s.names.tree[p].ino]
  }

  lemma EditShows(filters: seq<Name>, s: Mount.State, ino: Ino, e: Edit, p: Path)
    requires UniqueInodes(s.names.tree) && p in s.names.tree && s.names.tree[p].ino == ino && ino in s.bytes
    ensures View(filters, EditFile(s, ino, e)) ==
            if IsIgnored(filters, p) then View(filters, s)
            else View(filters, s)[p := PosixStep(s.bytes[ino], e)]
  {
    var v, v1 := View(filters, s), View(filters, EditFile(s, ino, e));
    forall q ensures q in v1 <==> q in v
             ensures q in v && q != p ==> v1[q] == v[q]
    {
    }
  }

  lemma UnlinkedEditIsInvisible(filters: seq<Name>, s: Mount.State, ino: Ino, e: Edit)
    requires Inv(s) && !Linked(s.names.tree, ino)
    ensures View(filters, EditFile(s, ino, e)) == View(filters, s)
  {
    forall q | q in s.names.tree ensures s.names.tree[q].ino != ino {
    }
  }

  lemma CollectedShowsNothing(filters: seq<Name>, s: Mount.State, ino: Ino)
    ensures View(filters, Collected(s, ino)) == View(filters, s)
  {
    forall q | q in s.names.tree ensures Linked(s.names.tree, s.names.tree[q].ino) {
    }
  }

  // ---- When a notification tells the truth ----

  // What a write that may be refused or cut short leaves to be seen.
  function Reached(s: Mount.State, call: Call): nat
    requires call.req.Write?
  {
    if call.granted && WritesThrough(s, call.req.fh) then |Taken(call.req.data, call.req.written)| else 0
  }

  ghost predicate TruncatesSeen(v: FileTree.Tree, s: Mount.State, call: Call)
    requires call.req.Open?
  {
    && call.granted && call.req.trunc && call.req.write && !call.req.append
    && call.req.ino in s.names.known && ContentAt(v, s.names.known[call.req.ino]) != []
  }

  ghost predicate WriteTruth(filters: seq<Name>, s: Mount.State, call: Call)
    requires call.req.Write?
  {
    var Write(ino, _, offset, data, _) := call.req;
    Visible(filters, Resolve(s.names.known, ino)) ==>
      ino in s.bytes && RestWasThere(s.bytes[ino], offset, data, Reached(s, call))
  }

  ghost predicate SetattrTruth(filters: seq<Name>, s: Mount.State, call: Call)
    requires call.req.Setattr?
  {
    var Setattr(ino, _, size, _, _, _) := call.req;
    Visible(filters, Resolve(s.names.known, ino)) && size.Some? ==>
      ino in s.bytes && (call.granted || |s.bytes[ino]| == size.value)
  }

  ghost predicate NameTruth(filters: seq<Name>, s: Mount.State, call: Call)
    requires call.req.Create? || call.req.Unlink?
  {
    Visible(filters, Child(s.names.known, call.req.parent, call.req.name)) ==> Done(s.names, call)
  }

  // The notification precedes the request, and opening is not notified at all. So what
  // is captured is right if the request is carried out, in full, or was to change
  // nothing.
  ghost predicate Truthful(filters: seq<Name>, s: Mount.State, call: Call) {
    match call.req
    case Write(_, _, _, _, _) => WriteTruth(filters, s, call)
    case Setattr(_, _, _, _, _, _) => SetattrTruth(filters, s, call)
    case Create(_, _, _, _) => NameTruth(filters, s, call)
    case Unlink(_, _) => NameTruth(filters, s, call)
    case Open(_, _, _, _) => !TruncatesSeen(View(filters, s), s, call)
    case _ => true
  }

  lemma NothingCaptured(v: FileTree.Tree, v1: FileTree.Tree)
    ensures FirstDoesAll(v, v1, []) <==> v1 == v
  {
  }

  lemma OneIsAll(v: FileTree.Tree, v1: FileTree.Tree, op: Operation)
    requires Plain(op)
    ensures FirstDoesAll(v, v1, [op]) <==> Replay(v, op).1 && v1 == Replay(v, op).0
  {
    if Replay(v, op).1 {
      OneDoesAll(v, op);
    }
    if FirstDoesAll(v, v1, [op]) {
      assert ReplayAll(v, [op][..1]) == v1;
      assert [op][..1] == [op];
      assert [op][1..] == [];
      assert ReplayAll(Replay(v, op).0, []) == Replay(v, op).0;
    }
  }

  // ---- Writes ----

  lemma WriteStepEdits(s: Mount.State, call: Call)
    requires Valid(s, call.req) && call.req.Write?
    ensures var Write(ino, fh, offset, data, written) := call.req;
            Mount.Step(s, call) == if call.granted && WritesThrough(s, fh)
                             then EditFile(s, ino, Edit.Write(offset, Taken(data, written))) else s
  {
  }

  lemma NamelessWriteShows(filters: seq<Name>, s: Mount.State, call: Call)
    requires Inv(s) && Valid(s, call.req) && call.req.Write? && call.req.ino !in s.names.known
    ensures View(filters, Mount.Step(s, call)) == View(filters, s)
  {
    var Write(ino, fh, offset, data, written) := call.req;
    WriteStepEdits(s, call);
    if call.granted && WritesThrough(s, fh) {
      assert !Linked(s.names.tree, ino);
      UnlinkedEditIsInvisible(filters, s, ino, Edit.Write(offset, Taken(data, written)));
    }
  }

  lemma ExpectedOfWrite(filters: seq<Name>, p: Path, req: Request)
    requires req.Write? && req.offset < TWO_TO_THE_64
    ensures Expected(filters, Some(p), req) ==
            if IsIgnored(filters, p) then [] else [FileWrite(p, req.offset, req.data)]
  {
    assert AsU64(req.offset) == req.offset;
  }

  lemma KnownWriteShows(filters: seq<Name>, s: Mount.State, call: Call, p: Path)
    requires Inv(s) && Valid(s, call.req) && call.req.Write?
    requires call.req.ino in s.bytes && Resolve(s.names.known, call.req.ino) == Some(p)
    ensures var v := View(filters, s);
            var Write(ino, _, offset, data, _) := call.req;
            if IsIgnored(filters, p) then View(filters, Mount.Step(s, call)) == v
            else p in v && v[p] == s.bytes[ino] &&
                 View(filters, Mount.Step(s, call)) ==
                 v[p := PosixStep(v[p], Edit.Write(offset, data[..Reached(s, call)]))]
  {
    var v := View(filters, s);
    var Write(ino, fh, offset, data, written) := call.req;
    assert ino != FUSE_ROOT_ID;
    KnownIsLinked(s, ino);
    WriteStepEdits(s, call);
    if call.granted && WritesThrough(s, fh) {
      EditShows(filters, s, ino, Edit.Write(offset, Taken(data, written)), p);
    } else if !IsIgnored(filters, p) {
      assert data[..0] == [] && v[p := v[p]] == v;
    }
  }

  // A known inode without bytes is a directory, or the root.
  lemma NoBytesNoFile(filters: seq<Name>, s: Mount.State, ino: Ino, p: Path)
    requires Inv(s) && ino !in s.bytes && Resolve(s.names.known, ino) == Some(p)
    ensures p !in View(filters, s)
  {
    if ino != FUSE_ROOT_ID {
      KnownIsLinked(s, ino);
    }
  }

  lemma ByteLessWriteShows(filters: seq<Name>, s: Mount.State, call: Call)
    requires Inv(s) && Valid(s, call.req) && call.req.Write? && call.req.ino !in s.bytes
    ensures View(filters, Mount.Step(s, call)) == View(filters, s)
  {
    WriteStepEdits(s, call);
  }

  lemma VisibleWriteIff(filters: seq<Name>, s: Mount.State, call: Call, p: Path, v: FileTree.Tree, v1: FileTree.Tree)
    requires Inv(s) && Valid(s, call.req) && call.req.Write?
    requires call.req.ino in s.bytes && Resolve(s.names.known, call.req.ino) == Some(p) && !IsIgnored(filters, p)
    requires v == View(filters, s) && v1 == View(filters, Mount.Step(s, call))
    ensures FirstDoesAll(v, v1, [FileWrite(p, call.req.offset, call.req.data)]) <==>
            RestWasThere(s.bytes[call.req.ino], call.req.offset, call.req.data, Reached(s, call))
  {
    KnownWriteShows(filters, s, call, p);
    ShortWriteVerdict(v, v1, p, call.req.offset, call.req.data, Reached(s, call));
  }

  lemma ShortWriteVerdict(v: FileTree.Tree, v1: FileTree.Tree, p: Path, offset: nat, data: Content, written: nat)
    requires p in v && written <= |data| && v1 == v[p := PosixStep(v[p], Edit.Write(offset, data[..written]))]
    ensures FirstDoesAll(v, v1, [FileWrite(p, offset, data)]) <==> RestWasThere(v[p], offset, data, written)
  {
    ShortWriteIff(v[p], offset, data, written);
    OneIsAll(v, v1, FileWrite(p, offset, data));
    assert v1[p] == PosixStep(v[p], Edit.Write(offset, data[..written]));
  }

  lemma ByteLessWriteIff(filters: seq<Name>, s: Mount.State, call: Call, p: Path, v: FileTree.Tree, v1: FileTree.Tree)
    requires Inv(s) && Valid(s, call.req) && call.req.Write?
    requires call.req.ino !in s.bytes && Resolve(s.names.known, call.req.ino) == Some(p)
    requires v == View(filters, s) && v1 == View(filters, Mount.Step(s, call))
    ensures !FirstDoesAll(v, v1, [FileWrite(p, call.req.offset, call.req.data)])
  {
    ByteLessWriteShows(filters, s, call);
    NoBytesNoFile(filters, s, call.req.ino, p);
    OneIsAll(v, v, FileWrite(p, call.req.offset, call.req.data));
  }

  lemma IgnoredWriteShows(filters: seq<Name>, s: Mount.State, call: Call, p: Path)
    requires Inv(s) && Valid(s, call.req) && call.req.Write?
    requires Resolve(s.names.known, call.req.ino) == Some(p) && IsIgnored(filters, p)
    ensures View(filters, Mount.Step(s, call)) == View(filters, s)
  {
    if call.req.ino in s.bytes {
      KnownWriteShows(filters, s, call, p);
    } else {
      ByteLessWriteShows(filters, s, call);
    }
  }

  // The notification of a write tells the truth exactly when the bytes that did not
  // make it into the file were there already.
  lemma WriteIsCapturedIff(filters: seq<Name>, s: Mount.State, call: Call, v: FileTree.Tree, v1: FileTree.Tree)
    requires Inv(s) && Valid(s, call.req) && call.req.Write?
    requires v == View(filters, s) && v1 == View(filters, Mount.Step(s, call))
    ensures FirstDoesAll(v, v1, Expected(filters, Resolve(s.names.known, call.req.ino), call.req)) <==>
            WriteTruth(filters, s, call)
  {
    NothingCaptured(v, v1);
    var target := Resolve(s.names.known, call.req.ino);
    if target.None? {
      NamelessWriteShows(filters, s, call);
    } else if IsIgnored(filters, target.value) {
      IgnoredWriteShows(filters, s, call, target.value);
    } else {
      ExpectedOfWrite(filters, target.value, call.req);
      if call.req.ino in s.bytes {
        VisibleWriteIff(filters, s, call, target.value, v, v1);
      } else {
        ByteLessWriteIff(filters, s, call, target.value, v, v1);
      }
    }
  }

  // ---- Attributes ----

  lemma SetattrDoesAll(v: FileTree.Tree, p: Path, n: Notification)
    requires n.OnSetattr? && (n.size.Some? ==> p in v)
    ensures FirstDoesAll(v, if n.size.Some? then Replay(v, FileTruncate(p, n.size.value)).0 else v, SetattrOps(p, n))
  {
    var ops := SetattrOps(p, n);
    var v1 := if n.size.Some? then Replay(v, FileTruncate(p, n.size.value)).0 else v;
    assert forall i | 1 <= i < |ops| :: ops[i].SetPermissions? || ops[i].SetTimestamps?;
    assert |ops| > 0 ==> Replay(v, ops[0]).0 == v1;
    forall k | 0 < k <= |ops| ensures ReplayAll(v, ops[..k]) == v1 {
      assert ops[..k][0] == ops[0];
      QuietReplay(v1, ops[..k][1..]);
    }
  }

  lemma SetattrStepIs(s: Mount.State, call: Call, p: Path)
    requires Inv(s) && Valid(s, call.req) && call.req.Setattr? && call.req.size.Some?
    requires Resolve(s.names.known, call.req.ino) == Some(p)
    ensures call.req.ino !in s.bytes || !call.granted ==> Mount.Step(s, call) == s
    ensures call.req.ino in s.bytes && call.granted ==>
              Mount.Step(s, call) == EditFile(s, call.req.ino, Edit.Truncate(call.req.size.value))
    ensures call.req.ino in s.bytes ==> p in s.names.tree && s.names.tree[p].ino == call.req.ino
  {
    if call.req.ino != FUSE_ROOT_ID {
      KnownIsLinked(s, call.req.ino);
    }
  }

  lemma SizelessSetattrIsNothing(s: Mount.State, call: Call)
    requires call.req.Setattr? && (call.req.size.None? || call.req.ino !in s.names.known)
    ensures Mount.Step(s, call) == s
  {
  }

  lemma IgnoredSetattrShows(filters: seq<Name>, s: Mount.State, call: Call, p: Path)
    requires Inv(s) && Valid(s, call.req) && call.req.Setattr? && call.req.size.Some?
    requires Resolve(s.names.known, call.req.ino) == Some(p) && IsIgnored(filters, p)
    ensures View(filters, Mount.Step(s, call)) == View(filters, s)
  {
    SetattrStepIs(s, call, p);
    if call.req.ino in s.bytes {
      EditShows(filters, s, call.req.ino, Edit.Truncate(call.req.size.value), p);
    }
  }

  lemma VisibleSetattrShows(filters: seq<Name>, s: Mount.State, call: Call, p: Path,
                            v: FileTree.Tree, v1: FileTree.Tree)
    requires Inv(s) && Valid(s, call.req) && call.req.Setattr? && call.req.size.Some? && call.req.ino in s.bytes
    requires Resolve(s.names.known, call.req.ino) == Some(p) && !IsIgnored(filters, p)
    requires v == View(filters, s) && v1 == View(filters, Mount.Step(s, call))
    ensures p in v && v[p] == s.bytes[call.req.ino]
    ensures v1 == if call.granted then v[p := PosixStep(v[p], Edit.Truncate(call.req.size.value))] else v
  {
    SetattrStepIs(s, call, p);
    EditShows(filters, s, call.req.ino, Edit.Truncate(call.req.size.value), p);
  }

  // With a new size among them, what is captured of new attributes is a truncation.
  lemma SetattrOpsDo(v: FileTree.Tree, v1: FileTree.Tree, p: Path, n: Notification)
    requires n.OnSetattr? && n.size.Some?
    ensures FirstDoesAll(v, v1, SetattrOps(p, n)) <==>
            p in v && v1 == v[p := PosixStep(v[p], Edit.Truncate(n.size.value))]
  {
    var ops, op := SetattrOps(p, n), FileTruncate(p, n.size.value);
    assert ops[0] == op;
    if p in v {
      SetattrDoesAll(v, p, n);
      if FirstDoesAll(v, v1, ops) {
        assert ReplayAll(v, ops[..1]) == v1;
        assert ReplayAll(v, ops[..1]) == Replay(v, op).0;
      }
    }
  }

  lemma TruncationChanges(v: FileTree.Tree, p: Path, size: nat)
    requires p in v
    ensures v == v[p := PosixStep(v[p], Edit.Truncate(size))] <==> |v[p]| == size
  {
    if |v[p]| == size {
      assert Resized(v[p], size) == v[p];
      assert v[p := v[p]] == v;
    } else {
      assert v[p := PosixStep(v[p], Edit.Truncate(size))][p] != v[p];
    }
  }

  lemma SizedSetattrIff(filters: seq<Name>, s: Mount.State, call: Call, p: Path, v: FileTree.Tree, v1: FileTree.Tree,
                        n: Notification)
    requires Inv(s) && Valid(s, call.req) && call.req.Setattr? && call.req.size.Some?
    requires Resolve(s.names.known, call.req.ino) == Some(p) && !IsIgnored(filters, p)
    requires v == View(filters, s) && v1 == View(filters, Mount.Step(s, call))
    requires n.OnSetattr? && n.size == call.req.size
    ensures FirstDoesAll(v, v1, SetattrOps(p, n)) <==>
            call.req.ino in s.bytes && (call.granted || |s.bytes[call.req.ino]| == call.req.size.value)
  {
    if call.req.ino in s.bytes {
      VisibleSetattrShows(filters, s, call, p, v, v1);
    } else {
      NoBytesNoFile(filters, s, call.req.ino, p);
    }
    TruncationIff(v, v1, p, n, call.granted);
  }

  lemma TruncationIff(v: FileTree.Tree, v1: FileTree.Tree, p: Path, n: Notification, granted: bool)
    requires n.OnSetattr? && n.size.Some?
    requires p in v ==> v1 == if granted then v[p := PosixStep(v[p], Edit.Truncate(n.size.value))] else v
    ensures FirstDoesAll(v, v1, SetattrOps(p, n)) <==> p in v && (granted || |v[p]| == n.size.value)
  {
    SetattrOpsDo(v, v1, p, n);
    if p in v {
      TruncationChanges(v, p, n.size.value);
    }
  }

  // The notification of a new size tells the truth exactly when it is set, or was the
  // size before.
  lemma SetattrIsCapturedIff(filters: seq<Name>, s: Mount.State, call: Call, v: FileTree.Tree, v1: FileTree.Tree)
    requires Inv(s) && Valid(s, call.req) && call.req.Setattr?
    requires v == View(filters, s) && v1 == View(filters, Mount.Step(s, call))
    ensures FirstDoesAll(v, v1, Expected(filters, Resolve(s.names.known, call.req.ino), call.req)) <==>
            SetattrTruth(filters, s, call)
  {
    var p := Resolve(s.names.known, call.req.ino);
    var Setattr(ino, _, size, newMode, atime, mtime) := call.req;
    var n := OnSetattr(ino, size, newMode, atime, mtime);
    NothingCaptured(v, v1);
    ExpectedOfSetattr(filters, p, call.req, n);
    if p.None? || size.None? {
      SizelessSetattrIsNothing(s, call);
      if p.Some? && !IsIgnored(filters, p.value) {
        SetattrDoesAll(v, p.value, n);
      }
    } else if IsIgnored(filters, p.value) {
      IgnoredSetattrShows(filters, s, call, p.value);
    } else {
      SizedSetattrIff(filters, s, call, p.value, v, v1, n);
    }
  }

  lemma ExpectedOfSetattr(filters: seq<Name>, p: Option<Path>, req: Request, n: Notification)
    requires req.Setattr? && n == OnSetattr(req.ino, req.size, req.newMode, req.atime, req.mtime)
    ensures Expected(filters, p, req) == if Visible(filters, p) then SetattrOps(p.value, n) else []
  {
  }

  // ---- Names ----

  // The view after a name appears, and after one goes.
  lemma NewFileShows(filters: seq<Name>, s: Mount.State, s1: Mount.State, p: Path, ino: Ino)
    requires p !in s.names.tree
    requires forall q | q in s.names.tree :: s.names.tree[q].ino != ino
    requires s1.names.tree == s.names.tree[p := Entry(ino, false)] && s1.bytes == s.bytes[ino := []]
    ensures View(filters, s1) == if IsIgnored(filters, p) then View(filters, s) else View(filters, s)[p := []]
  {
    var v, v1 := View(filters, s), View(filters, s1);
    forall q | q != p ensures q in v1 <==> q in v
                      ensures q in v ==> v1[q] == v[q]
    {
      assert q in s1.names.tree <==> q in s.names.tree;
    }
    assert p !in v;
  }

  lemma NewDirShows(filters: seq<Name>, s: Mount.State, s1: Mount.State, p: Path, ino: Ino)
    requires p !in s.names.tree && ino !in s.bytes
    requires s1.names.tree == s.names.tree[p := Entry(ino, true)] && s1.bytes == s.bytes
    ensures View(filters, s1) == View(filters, s)
  {
    var v, v1 := View(filters, s), View(filters, s1);
    forall q ensures q in v1 <==> q in v
             ensures q in v ==> v1[q] == v[q]
    {
      assert q != p ==> (q in s1.names.tree <==> q in s.names.tree);
    }
  }

  lemma LostNameShows(filters: seq<Name>, s: Mount.State, s1: Mount.State, p: Path)
    requires s1.names.tree == s.names.tree - {p} && s1.bytes == s.bytes
    ensures View(filters, s1) == View(filters, s) - {p}
    ensures IsIgnored(filters, p) ==> View(filters, s1) == View(filters, s)
    ensures View(filters, s1) == Replay(View(filters, s), FileDelete(p)).0
  {
    NameDropped(filters, s, s1, p);
    WithoutAbsent(View(filters, s), p);
  }

  lemma NameDropped(filters: seq<Name>, s: Mount.State, s1: Mount.State, p: Path)
    requires s1.names.tree == s.names.tree - {p} && s1.bytes == s.bytes
    ensures View(filters, s1) == View(filters, s) - {p}
  {
    var v, v1 := View(filters, s), View(filters, s1);
    forall q ensures q in v1 <==> q in v && q != p
             ensures q in v1 ==> v1[q] == v[q]
    {
      assert q in s1.names.tree <==> q in s.names.tree && q != p;
    }
  }

  lemma WithoutAbsent(v: FileTree.Tree, p: Path)
    ensures p !in v ==> v - {p} == v
    ensures Replay(v, FileDelete(p)).0 == v - {p}
  {
  }

  lemma CreateStepIs(s: Mount.State, call: Call, p: Path)
    requires Done(s.names, call) && call.req.Create? && Target(s.names.known, call.req) == Some(p)
    ensures Mount.Step(s, call).names.tree == s.names.tree[p := Entry(call.req.newIno, false)]
    ensures Mount.Step(s, call).bytes == s.bytes[call.req.newIno := []]
    ensures p !in s.names.tree
  {
    CreateIs(s, call, p);
  }

  lemma CreateShows(filters: seq<Name>, s: Mount.State, call: Call, p: Path)
    requires Inv(s) && Valid(s, call.req) && Done(s.names, call) && call.req.Create?
    requires Target(s.names.known, call.req) == Some(p)
    ensures View(filters, Mount.Step(s, call)) ==
            if IsIgnored(filters, p) then View(filters, s)
            else Replay(View(filters, s), FileCreate(p, call.req.mode, [])).0
    ensures p !in View(filters, s)
  {
    CreateStepIs(s, call, p);
    NewFileShows(filters, s, Mount.Step(s, call), p, call.req.newIno);
    assert p !in View(filters, s);
  }

  lemma UnlinkStepIs(s: Mount.State, call: Call, p: Path)
    requires Done(s.names, call) && call.req.Unlink? && Target(s.names.known, call.req) == Some(p)
    ensures p in s.names.tree
    ensures Mount.Step(s, call) == Collected(s.(names := Names.Step(s.names, call)), s.names.tree[p].ino)
    ensures Names.Step(s.names, call).tree == s.names.tree - {p}
  {
  }

  lemma UnlinkShows(filters: seq<Name>, s: Mount.State, call: Call, p: Path)
    requires Inv(s)
    requires Done(s.names, call) && call.req.Unlink? && Target(s.names.known, call.req) == Some(p)
    ensures View(filters, Mount.Step(s, call)) ==
            if IsIgnored(filters, p) then View(filters, s) else Replay(View(filters, s), FileDelete(p)).0
    ensures p in View(filters, s) || IsIgnored(filters, p)
  {
    UnlinkStepIs(s, call, p);
    var s1 := s.(names := Names.Step(s.names, call));
    CollectedShowsNothing(filters, s1, s.names.tree[p].ino);
    LostNameShows(filters, s, s1, p);
  }

  // A name that was announced to come or go, and did not.
  lemma FalseName(v: FileTree.Tree, op: Operation)
    requires op.FileCreate? || op.FileDelete?
    requires op.FileCreate? ==> op.content == []
    ensures !FirstDoesAll(v, v, [op])
  {
    OneIsAll(v, v, op);
    if op.FileDelete? && op.path in v {
      assert op.path !in Replay(v, op).0;
    }
  }

  // The notification of a new or a removed file tells the truth exactly when it is
  // created or removed.
  lemma NameIsCapturedIff(filters: seq<Name>, s: Mount.State, call: Call, v: FileTree.Tree, v1: FileTree.Tree)
    requires Inv(s) && Valid(s, call.req) && (call.req.Create? || call.req.Unlink?)
    requires v == View(filters, s) && v1 == View(filters, Mount.Step(s, call))
    ensures FirstDoesAll(v, v1, Expected(filters, Child(s.names.known, call.req.parent, call.req.name), call.req)) <==>
            NameTruth(filters, s, call)
  {
    var target := Child(s.names.known, call.req.parent, call.req.name);
    ExpectedOfName(filters, target, call.req);
    NothingCaptured(v, v1);
    if Done(s.names, call) {
      DoneNameShows(filters, s, call, target.value, v, v1);
      if Visible(filters, target) {
        OneIsAll(v, v1, NameOp(call.req, target.value));
      }
    } else {
      UndoneIsNothing(s, call);
      if Visible(filters, target) {
        FalseName(v, NameOp(call.req, target.value));
      }
    }
  }

  lemma ExpectedOfName(filters: seq<Name>, p: Option<Path>, req: Request)
    requires req.Create? || req.Unlink?
    ensures Expected(filters, p, req) == if Visible(filters, p) then [NameOp(req, p.value)] else []
  {
  }

  lemma DoneNameShows(filters: seq<Name>, s: Mount.State, call: Call, p: Path, v: FileTree.Tree, v1: FileTree.Tree)
    requires Inv(s) && Valid(s, call.req) && (call.req.Create? || call.req.Unlink?)
    requires v == View(filters, s) && v1 == View(filters, Mount.Step(s, call))
    requires Done(s.names, call) && Target(s.names.known, call.req) == Some(p)
    ensures IsIgnored(filters, p) ==> v1 == v
    ensures !IsIgnored(filters, p) ==> Replay(v, NameOp(call.req, p)) == (v1, true)
  {
    if call.req.Create? {
      CreateShows(filters, s, call, p);
    } else {
      UnlinkShows(filters, s, call, p);
    }
  }

  function NameOp(req: Request, p: Path): Operation
    requires req.Create? || req.Unlink?
  {
    if req.Create? then FileCreate(p, req.mode, []) else FileDelete(p)
  }

  lemma UndoneIsNothing(s: Mount.State, call: Call)
    requires !Done(s.names, call)
    requires call.req.Create? || call.req.Unlink? || call.req.Mkdir? || call.req.Rmdir? ||
             call.req.Lookup? || call.req.Readdir?
    ensures Mount.Step(s, call) == s
  {
  }

  // ---- Directories ----

  lemma DirStepIs(s: Mount.State, call: Call, p: Path)
    requires Done(s.names, call) && Target(s.names.known, call.req) == Some(p)
    requires call.req.Mkdir? || call.req.Rmdir?
    ensures Mount.Step(s, call).bytes == s.bytes
    ensures call.req.Mkdir? ==>
              p !in s.names.tree && Mount.Step(s, call).names.tree == s.names.tree[p := Entry(call.req.newIno, true)]
    ensures call.req.Rmdir? ==>
              IsDir(s.names.tree, p) && Mount.Step(s, call).names.tree == s.names.tree - {p}
  {
    if call.req.Mkdir? {
      MkdirIs(s, call, p);
    } else {
      RmdirIs(s, call, p);
    }
  }

  lemma DirectoriesShowNothing(filters: seq<Name>, s: Mount.State, call: Call, p: Path)
    requires Inv(s) && Valid(s, call.req) && Done(s.names, call) && Target(s.names.known, call.req) == Some(p)
    requires call.req.Mkdir? || call.req.Rmdir?
    ensures View(filters, Mount.Step(s, call)) == View(filters, s)
  {
    DirStepIs(s, call, p);
    if call.req.Mkdir? {
      NewDirShows(filters, s, Mount.Step(s, call), p, call.req.newIno);
    } else {
      LostNameShows(filters, s, Mount.Step(s, call), p);
      assert p !in View(filters, s);
      assert View(filters, s) - {p} == View(filters, s);
    }
  }

  lemma ExpectedOfDirectories(filters: seq<Name>, v: FileTree.Tree, p: Path, req: Request)
    requires req.Mkdir? || req.Rmdir?
    ensures FirstDoesAll(v, v, Expected(filters, Some(p), req))
  {
    CapturedAsOne(v, v, IsIgnored(filters, p),
                  if req.Mkdir? then DirCreate(p, req.mode) else DirDelete(p), Expected(filters, Some(p), req));
  }

  lemma DirectoriesAreCaptured(filters: seq<Name>, s: Mount.State, call: Call, v: FileTree.Tree, v1: FileTree.Tree)
    requires Inv(s) && Valid(s, call.req) && (call.req.Mkdir? || call.req.Rmdir?)
    requires v == View(filters, s) && v1 == View(filters, Mount.Step(s, call))
    ensures FirstDoesAll(v, v1, Expected(filters, Target(s.names.known, call.req), call.req))
  {
    var target := Target(s.names.known, call.req);
    if Done(s.names, call) {
      DirectoriesShowNothing(filters, s, call, target.value);
    } else {
      UndoneIsNothing(s, call);
    }
    if target.Some? {
      ExpectedOfDirectories(filters, v, target.value, call.req);
    }
  }

  // ---- Opening, releasing, looking ----

  lemma SameFilesShow(filters: seq<Name>, s: Mount.State, s1: Mount.State)
    requires s1.names.tree == s.names.tree && s1.bytes == s.bytes
    ensures View(filters, s1) == View(filters, s)
  {
  }

  lemma ReleaseShowsNothing(filters: seq<Name>, s: Mount.State, fh: Fh)
    ensures View(filters, ReleaseStep(s, fh)) == View(filters, s)
  {
    if fh in s.handles {
      var s1 := s.(handles := s.handles - {fh});
      SameFilesShow(filters, s, s1);
      CollectedShowsNothing(filters, s1, s.handles[fh].ino);
    }
  }

  lemma LookingShowsNothing(filters: seq<Name>, s: Mount.State, call: Call)
    requires call.req.Lookup? || call.req.Readdir?
    ensures View(filters, Mount.Step(s, call)) == View(filters, s)
  {
    SameFilesShow(filters, s, Mount.Step(s, call));
  }

  function Truncated(s: Mount.State, ino: Ino): Mount.State {
    var s1 := Opening(s, Handle(ino, true, true));
    if ino in s1.bytes then s1.(bytes := s1.bytes[ino := PosixStep(s1.bytes[ino], Edit.Truncate(0))]) else s1
  }

  lemma OpenStepIs(s: Mount.State, call: Call)
    requires call.req.Open?
    ensures var Open(ino, write, append, trunc) := call.req;
            if call.granted && ino in s.names.known && trunc && write && !append &&
               s.names.known[ino] in s.names.tree && !s.names.tree[s.names.known[ino]].dir
            then Mount.Step(s, call) == Truncated(s, s.names.tree[s.names.known[ino]].ino)
            else Mount.Step(s, call).names == s.names && Mount.Step(s, call).bytes == s.bytes
  {
  }

  lemma TruncatedShows(filters: seq<Name>, s: Mount.State, p: Path)
    requires Inv(s) && p in s.names.tree && !s.names.tree[p].dir
    ensures var s1 := Truncated(s, s.names.tree[p].ino);
            View(filters, s1) == if IsIgnored(filters, p) then View(filters, s) else View(filters, s)[p := []]
  {
    var file := s.names.tree[p].ino;
    var s0 := Opening(s, Handle(file, true, true));
    assert View(filters, s0) == View(filters, s);
    EditShows(filters, s0, file, Edit.Truncate(0), p);
    assert Truncated(s, file) == EditFile(s0, file, Edit.Truncate(0));
  }

  lemma KnownOpenShows(filters: seq<Name>, s: Mount.State, s1: Mount.State, p: Path)
    requires Inv(s) && p in s.names.tree && !s.names.tree[p].dir
    requires s1 == Truncated(s, s.names.tree[p].ino)
    ensures View(filters, s1) == View(filters, s) <==> ContentAt(View(filters, s), p) == []
  {
    var v := View(filters, s);
    TruncatedShows(filters, s, p);
    if !IsIgnored(filters, p) {
      assert p in v;
      assert v[p] == [] ==> v[p := []] == v;
      assert v[p] != [] ==> v[p := []] != v;
    }
  }

  // Opening is never notified, so what it shows is right exactly when it truncates
  // nothing that can be seen.
  lemma OpenIsCapturedIff(filters: seq<Name>, s: Mount.State, call: Call, s1: Mount.State)
    requires Inv(s) && call.req.Open? && s1 == Mount.Step(s, call)
    ensures View(filters, s1) == View(filters, s) <==> !TruncatesSeen(View(filters, s), s, call)
  {
    var ino := call.req.ino;
    OpenStepIs(s, call);
    if call.granted && ino in s.names.known && call.req.trunc && call.req.write && !call.req.append {
      var p := s.names.known[ino];
      if p in s.names.tree && !s.names.tree[p].dir {
        KnownOpenShows(filters, s, s1, p);
      } else {
        assert p !in View(filters, s);
      }
    }
  }

  // ---- Every request ----

  // Replaying what is captured ahead of a request turns the files that could be seen
  // before it into the files that can be seen after it, exactly when the notification
  // tells the truth.
  lemma RequestIsCapturedIff(filters: seq<Name>, s: Mount.State, call: Call)
    requires Inv(s) && Valid(s, call.req) && !call.req.Rename?
    ensures var v, v1 := View(filters, s), View(filters, Mount.Step(s, call));
            FirstDoesAll(v, v1, Emissions(filters, s.names, call.req)) <==> Truthful(filters, s, call)
  {
    EmissionsByTarget(filters, s.names, call.req);
    ExpectedIff(filters, s, call, View(filters, s), View(filters, Mount.Step(s, call)));
  }

  lemma ExpectedIff(filters: seq<Name>, s: Mount.State, call: Call, v: FileTree.Tree, v1: FileTree.Tree)
    requires Inv(s) && Valid(s, call.req) && !call.req.Rename?
    requires v == View(filters, s) && v1 == View(filters, Mount.Step(s, call))
    ensures FirstDoesAll(v, v1, Expected(filters, Target(s.names.known, call.req), call.req)) <==>
            Truthful(filters, s, call)
  {
    match call.req
    case Write(_, _, _, _, _) => WriteIsCapturedIff(filters, s, call, v, v1);
    case Setattr(_, _, _, _, _, _) => SetattrIsCapturedIff(filters, s, call, v, v1);
    case Create(_, _, _, _) => NameIsCapturedIff(filters, s, call, v, v1);
    case Unlink(_, _) => NameIsCapturedIff(filters, s, call, v, v1);
    case Mkdir(_, _, _, _) => DirectoriesAreCaptured(filters, s, call, v, v1);
    case Rmdir(_, _) => DirectoriesAreCaptured(filters, s, call, v, v1);
    case Open(_, _, _, _) =>
      ExpectedOfUnnotified(filters, Target(s.names.known, call.req), call.req);
      NothingCaptured(v, v1);
      OpenIsCapturedIff(filters, s, call, Mount.Step(s, call));
    case _ =>
      ExpectedOfUnnotified(filters, Target(s.names.known, call.req), call.req);
      NothingCaptured(v, v1);
      QuietShowsNothing(filters, s, call, Mount.Step(s, call));
  }

  lemma QuietShowsNothing(filters: seq<Name>, s: Mount.State, call: Call, s1: Mount.State)
    requires call.req.Release? || call.req.Lookup? || call.req.Readdir?
    requires s1 == Mount.Step(s, call)
    ensures View(filters, s1) == View(filters, s)
  {
    if call.req.Release? {
      ReleaseShowsNothing(filters, s, call.req.fh);
    } else {
      LookingShowsNothing(filters, s, call);
    }
  }

  lemma ExpectedOfUnnotified(filters: seq<Name>, p: Option<Path>, req: Request)
    requires req.Open? || req.Release? || req.Lookup? || req.Readdir?
    ensures Expected(filters, p, req) == []
  {
  }

  // ---- Every request, one path at a time ----

  // A request that does not act on a path leaves what can be seen there alone, whatever
  // becomes of the request.
  lemma EditElsewhere(filters: seq<Name>, s: Mount.State, ino: Ino, e: Edit, p: Path)
    requires p in s.names.tree ==> s.names.tree[p].ino != ino
    ensures SameAt(View(filters, EditFile(s, ino, e)), View(filters, s), p)
  {
  }

  // Another path's inode is another inode.
  lemma OtherInode(s: Mount.State, ino: Ino, p: Path)
    requires Inv(s) && p != [] && p in s.names.tree && ino in s.names.known && s.names.known[ino] != p
    ensures s.names.tree[p].ino != ino
  {
    if ino != FUSE_ROOT_ID {
      KnownIsLinked(s, ino);
    }
  }

  lemma ForeignWrite(filters: seq<Name>, s: Mount.State, call: Call, p: Path)
    requires Inv(s) && Valid(s, call.req) && call.req.Write? && p != []
    requires Resolve(s.names.known, call.req.ino) != Some(p)
    ensures SameAt(View(filters, Mount.Step(s, call)), View(filters, s), p)
  {
    var Write(ino, fh, offset, data, written) := call.req;
    if ino !in s.names.known {
      NamelessWriteShows(filters, s, call);
    } else {
      WriteStepEdits(s, call);
      if p in s.names.tree {
        OtherInode(s, ino, p);
      }
      EditElsewhere(filters, s, ino, Edit.Write(offset, Taken(data, written)), p);
    }
  }

  lemma ForeignSetattr(filters: seq<Name>, s: Mount.State, call: Call, p: Path)
    requires Inv(s) && Valid(s, call.req) && call.req.Setattr? && p != []
    requires Resolve(s.names.known, call.req.ino) != Some(p)
    ensures SameAt(View(filters, Mount.Step(s, call)), View(filters, s), p)
  {
    var ino := call.req.ino;
    if call.req.size.None? || ino !in s.names.known {
      SizelessSetattrIsNothing(s, call);
    } else {
      SetattrStepIs(s, call, s.names.known[ino]);
      if p in s.names.tree {
        OtherInode(s, ino, p);
      }
      EditElsewhere(filters, s, ino, Edit.Truncate(call.req.size.value), p);
    }
  }

  lemma ForeignOpen(filters: seq<Name>, s: Mount.State, call: Call, p: Path)
    requires Inv(s) && call.req.Open? && p != [] && Resolve(s.names.known, call.req.ino) != Some(p)
    ensures SameAt(View(filters, Mount.Step(s, call)), View(filters, s), p)
  {
    OpenStepIs(s, call);
    var ino := call.req.ino;
    if ino in s.names.known && s.names.known[ino] in s.names.tree && !s.names.tree[s.names.known[ino]].dir {
      TruncatedShows(filters, s, s.names.known[ino]);
    }
  }

  lemma ForeignName(filters: seq<Name>, s: Mount.State, call: Call, p: Path)
    requires Inv(s) && Valid(s, call.req)
    requires call.req.Create? || call.req.Unlink? || call.req.Mkdir? || call.req.Rmdir?
    requires Target(s.names.known, call.req) != Some(p)
    ensures SameAt(View(filters, Mount.Step(s, call)), View(filters, s), p)
  {
    var target := Target(s.names.known, call.req);
    if !Done(s.names, call) {
      UndoneIsNothing(s, call);
    } else if call.req.Create? {
      CreateShows(filters, s, call, target.value);
    } else if call.req.Unlink? {
      UnlinkShows(filters, s, call, target.value);
    } else {
      DirectoriesShowNothing(filters, s, call, target.value);
    }
  }

  lemma ForeignLeavesAlone(filters: seq<Name>, s: Mount.State, call: Call, p: Path)
    requires Inv(s) && Valid(s, call.req) && !call.req.Rename? && p != []
    requires Target(s.names.known, call.req) != Some(p)
    ensures SameAt(View(filters, Mount.Step(s, call)), View(filters, s), p)
  {
    match call.req
    case Write(_, _, _, _, _) => ForeignWrite(filters, s, call, p);
    case Setattr(_, _, _, _, _, _) => ForeignSetattr(filters, s, call, p);
    case Open(_, _, _, _) => ForeignOpen(filters, s, call, p);
    case Release(fh) => ReleaseShowsNothing(filters, s, fh);
    case Lookup(_, _) => LookingShowsNothing(filters, s, call);
    case Readdir(_, _) => LookingShowsNothing(filters, s, call);
    case _ => ForeignName(filters, s, call, p);
  }

  lemma SetattrOpsAffect(q: Path, n: Notification, op: Operation)
    requires n.OnSetattr? && op in SetattrOps(q, n)
    ensures Plain(op) && forall p :: op.AffectsPath(p) <==> p == q
  {
  }

  lemma EmissionsAtAffect(req: Request, q: Path, op: Operation)
    requires op in EmissionsAt(req, q)
    ensures Plain(op) && forall p :: op.AffectsPath(p) <==> p == q
  {
    if req.Setattr? {
      SetattrOpsAffect(q, OnSetattr(req.ino, req.size, req.newMode, req.atime, req.mtime), op);
    }
  }

  lemma ExpectedAffects(filters: seq<Name>, target: Option<Path>, req: Request, p: Path)
    ensures var ops := Expected(filters, target, req);
            && (if target == Some(p) then AllAffect(ops, p) else NoneAffects(ops, p))
            && AllPlain(ops)
  {
    if target.Some? && !IsIgnored(filters, target.value) {
      var ops := EmissionsAt(req, target.value);
      forall i | 0 <= i < |ops| ensures Plain(ops[i]) && (ops[i].AffectsPath(p) <==> p == target.value) {
        EmissionsAtAffect(req, target.value, ops[i]);
      }
    }
  }

  lemma EmissionsArePlain(filters: seq<Name>, s: Mount.State, req: Request)
    requires Inv(s) && !req.Rename?
    ensures AllPlain(Emissions(filters, s.names, req))
  {
    EmissionsByTarget(filters, s.names, req);
    ExpectedAffects(filters, Target(s.names.known, req), req, []);
  }

  lemma RootIsNoFile(filters: seq<Name>, s: Mount.State)
    requires Inv(s)
    ensures [] !in View(filters, s)
  {
    assert s.names.tree[[]].dir;
  }

  // A request changes nothing but at its target.
  lemma OnlyTargetChanges(filters: seq<Name>, s: Mount.State, call: Call, p: Path)
    requires Inv(s) && Valid(s, call.req) && !call.req.Rename?
    requires Target(s.names.known, call.req) != Some(p)
    ensures SameAt(View(filters, Mount.Step(s, call)), View(filters, s), p)
  {
    if p == [] {
      Mount.StepKeepsInv(s, call);
      RootIsNoFile(filters, s);
      RootIsNoFile(filters, Mount.Step(s, call));
    } else {
      ForeignLeavesAlone(filters, s, call, p);
    }
  }

  lemma SilentAndSame(v: FileTree.Tree, v1: FileTree.Tree, p: Path)
    requires forall q | q != p :: SameAt(v1, v, q)
    requires SameAt(v1, v, p)
    ensures FirstDoesAll(v, v1, [])
  {
    assert forall q :: SameAt(v1, v, q);
    assert v1 == v by {
      forall q ensures q in v1 <==> q in v {
        assert SameAt(v1, v, q);
      }
      forall q | q in v ensures v1[q] == v[q] {
        assert SameAt(v1, v, q);
      }
    }
    NothingCaptured(v, v1);
  }

  lemma SilentIfNoneAffects(ops: seq<Operation>, p: Path)
    requires AllAffect(ops, p)
    ensures NoneAffects(ops, p) <==> ops == []
  {
    if ops != [] {
      assert ops[0].AffectsPath(p);
    }
  }

  // The truth about a path is a matter of the requests that act on it, and of no others:
  // what is captured of a request is right at the path unless the request acts on it and
  // is not notified truthfully.
  lemma RequestIsTrueAtIff(filters: seq<Name>, s: Mount.State, call: Call, p: Path)
    requires Inv(s) && Valid(s, call.req) && !call.req.Rename?
    ensures TrueAt(View(filters, s), View(filters, Mount.Step(s, call)), Emissions(filters, s.names, call.req), p)
            <==> (Target(s.names.known, call.req) == Some(p) ==> Truthful(filters, s, call))
  {
    var target, ops := Target(s.names.known, call.req), Emissions(filters, s.names, call.req);
    var v, v1 := View(filters, s), View(filters, Mount.Step(s, call));
    EmissionsByTarget(filters, s.names, call.req);
    ExpectedAffects(filters, target, call.req, p);
    if target == Some(p) {
      RequestIsCapturedIff(filters, s, call);
      if NoneAffects(ops, p) && SameAt(v1, v, p) {
        SilentIfNoneAffects(ops, p);
        forall q | q != p ensures SameAt(v1, v, q) {
          OnlyTargetChanges(filters, s, call, q);
        }
        SilentAndSame(v, v1, p);
      }
    } else {
      OnlyTargetChanges(filters, s, call, p);
    }
  }

  // ---- The recorder names the right object ----

  // Whether p is where the tree has an inode; the mount root is at the empty path.
  ghost predicate IsAt(tree: Names.Tree, ino: Ino, p: Path) {
    if ino == FUSE_ROOT_ID then p == [] else p in tree && tree[p].ino == ino
  }

  // Whether p is the path of what the request is about: where the tree has its inode, or
  // its name in where the tree has its parent's inode.
  ghost predicate IsObject(tree: Names.Tree, req: Request, p: Path) {
    if req.Write? || req.Setattr? then IsAt(tree, req.ino, p)
    else if req.Create? || req.Mkdir? || req.Unlink? || req.Rmdir? then
      p != [] && p[|p| - 1] == req.name && IsAt(tree, req.parent, Parent(p))
    else false
  }

  lemma ResolvedIsAt(s: Mount.State, ino: Ino, p: Path)
    requires Inv(s) && ParentPath(s.names.known, ino) == Some(p)
    ensures IsAt(s.names.tree, ino, p)
  {
    if ino != FUSE_ROOT_ID {
      KnownIsLinked(s, ino);
    }
  }

  lemma EmissionNamesTheObject(filters: seq<Name>, s: Mount.State, call: Call, op: Operation)
    requires Inv(s) && !call.req.Rename?
    requires op in Emissions(filters, s.names, call.req)
    ensures Target(s.names.known, call.req) == Some(op.PrimaryPath())
    ensures IsObject(s.names.tree, call.req, op.PrimaryPath())
  {
    var req, p := call.req, op.PrimaryPath();
    EmissionsByTarget(filters, s.names, req);
    ExpectedIsAboutTarget(filters, Target(s.names.known, req), req, op);
    if req.Write? || req.Setattr? {
      ResolvedIsAt(s, req.ino, p);
    } else {
      var up := ParentPath(s.names.known, req.parent).value;
      ResolvedIsAt(s, req.parent, up);
      assert p == up + [req.name] && Parent(p) == up;
    }
  }

  // At any point of a run, whatever a request is captured as is about the path the
  // request acts on, and in the tree as it is then, that path is the one of the object
  // the request means, whatever the map says.
  lemma RecorderNamesTheObject(filters: seq<Name>, s0: Mount.State, calls: seq<Call>, call: Call, op: Operation)
    requires Inv(s0) && Mount.Orderly(s0, calls) && !call.req.Rename?
    requires op in Emissions(filters, Mount.After(s0, calls).names, call.req)
    ensures var s := Mount.After(s0, calls);
            && Target(s.names.known, call.req) == Some(op.PrimaryPath())
            && IsObject(s.names.tree, call.req, op.PrimaryPath())
  {
    Mount.EveryRunKeepsInv(s0, calls);
    EmissionNamesTheObject(filters, Mount.After(s0, calls), call, op);
  }

  lemma ExpectedIsAboutTarget(filters: seq<Name>, p: Option<Path>, req: Request, op: Operation)
    requires op in Expected(filters, p, req)
    ensures p == Some(op.PrimaryPath())
  {
  }

  lemma NamelessIsUnknown(s: Mount.State, ino: Ino)
    requires Inv(s) && !Linked(s.names.tree, ino) && ino != FUSE_ROOT_ID
    ensures ino !in s.names.known
  {
    if ino in s.names.known {
      KnownIsLinked(s, ino);
      assert false;
    }
  }

  lemma UnknownEmitsNothing(filters: seq<Name>, s: Mount.State, req: Request)
    requires (req.Write? || req.Setattr?) && req.ino !in s.names.known
    ensures Emissions(filters, s.names, req) == []
  {
  }

  // A write or new attributes for a file that is open but has lost its name emit
  // nothing, and no path shows any change.
  lemma NamelessInodesAreSilent(filters: seq<Name>, s: Mount.State, call: Call)
    requires Inv(s) && Valid(s, call.req) && (call.req.Write? || call.req.Setattr?)
    requires !Linked(s.names.tree, call.req.ino) && call.req.ino != FUSE_ROOT_ID
    ensures Emissions(filters, s.names, call.req) == []
    ensures View(filters, Mount.Step(s, call)) == View(filters, s)
  {
    NamelessIsUnknown(s, call.req.ino);
    UnknownEmitsNothing(filters, s, call.req);
    if call.req.Write? {
      NamelessWriteShows(filters, s, call);
    } else {
      SizelessSetattrIsNothing(s, call);
    }
  }
}
