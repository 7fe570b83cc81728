// The mounted file system: names, file bytes by inode, and open handles, and what every
// request keeps about them.
module Mount {
  import opened Wrappers
  import opened Bytes
  import opened Opcodes
  import opened Recorder
  import opened Names

  // A handle may be written through if it was opened for writing or for appending; the
  // flags kept with it tell only of the former.
  datatype Handle = Handle(ino: Ino, writable: bool, forWriting: bool)

  // Bytes are kept for every file that has a name or an open handle.
  datatype State = State(names: Names.State, bytes: map<Ino, Content>, handles: map<Fh, Handle>, nextFh: Fh)

  // ---- One request ----

  predicate Linked(tree: Names.Tree, ino: Ino) {
    exists p :: p in tree && tree[p].ino == ino
  }

  predicate Opened(handles: map<Fh, Handle>, ino: Ino) {
    exists fh :: fh in handles && handles[fh].ino == ino
  }

  // The backing system forgets a file nothing refers to any more.
  ghost function Collected(s: State, ino: Ino): State {
    if Linked(s.names.tree, ino) || Opened(s.handles, ino) then s else s.(bytes := s.bytes - {ino})
  }

  function Opening(s: State, handle: Handle): State {
    s.(handles := s.handles[s.nextFh := handle], nextFh := s.nextFh + 1)
  }

  ghost function EditFile(s: State, ino: Ino, e: Edit): State {
    if ino in s.bytes then s.(bytes := s.bytes[ino := PosixStep(s.bytes[ino], e)]) else s
  }

  predicate WritesThrough(s: State, fh: Fh) {
    fh in s.handles && s.handles[fh].writable
  }

  predicate TruncatesThrough(s: State, fh: Fh) {
    fh in s.handles && s.handles[fh].forWriting
  }

  // What reached the file of a write that was offered some bytes.
  function Taken(data: Content, written: nat): Content {
    data[..if written < |data| then written else |data|]
  }

  // write_at on the handle's file; the system may take fewer bytes than offered.
  ghost function WriteStep(s: State, fh: Fh, offset: nat, data: Content, written: nat): State {
    if WritesThrough(s, fh) then
      EditFile(s, s.handles[fh].ino, Edit.Write(offset, Taken(data, written)))
    else s
  }

  // set_len through the handle if its flags say it may write, else through the path.
  ghost function SetattrStep(s: State, p: Path, through: Option<Fh>, size: nat): State {
    if through.Some? && TruncatesThrough(s, through.value) then
      EditFile(s, s.handles[through.value].ino, Edit.Truncate(size))
    else if p in s.names.tree && !s.names.tree[p].dir then
      EditFile(s, s.names.tree[p].ino, Edit.Truncate(size))
    else s
  }

  // The standard library opens for writing what is to be appended to, and truncates only
  // what is opened for plain writing; a directory can only be opened for reading.
  predicate CanOpen(tree: Names.Tree, p: Path, write: bool, append: bool, trunc: bool) {
    && p in tree
    && (trunc ==> write && !append)
    && (tree[p].dir ==> !write && !append)
  }

  ghost function OpenStep(s: State, p: Path, write: bool, append: bool, trunc: bool): State {
    if !CanOpen(s.names.tree, p, write, append, trunc) then s
    else
      var ino := s.names.tree[p].ino;
      var s1 := Opening(s, Handle(ino, write || append, write));
      if trunc then EditFile(s1, ino, Edit.Truncate(0)) else s1
  }

  ghost function ReleaseStep(s: State, fh: Fh): State {
    if fh !in s.handles then s
    else Collected(s.(handles := s.handles - {fh}), s.handles[fh].ino)
  }

  // What was overwritten has lost its name.
  ghost function RenameStep(s: State, names: Names.State, dst: Path): State {
    var s1 := s.(names := names);
    if dst in s.names.tree then Collected(s1, s.names.tree[dst].ino) else s1
  }

  // A created file whose stat fails is there, but nobody has a handle on it.
  function CreateStep(s: State, names: Names.State, ino: Ino, finishes: bool): State {
    var s1 := s.(names := names, bytes := s.bytes[ino := []]);
    if finishes then Opening(s1, Handle(ino, true, true)) else s1
  }

  ghost function Step(s: State, call: Call): State {
    var names := Names.Step(s.names, call);
    var done := Done(s.names, call);
    match call.req
    case Create(_, _, _, newIno) => if done then CreateStep(s, names, newIno, call.finishes) else s
    case Unlink(_, _) =>
      if done then Collected(s.(names := names), s.names.tree[Target(s.names.known, call.req).value].ino) else s
    case Rename(_, _, newParent, newName) =>
      if done then RenameStep(s, names, Child(s.names.known, newParent, newName).value) else s
    case Write(_, fh, offset, data, written) =>
      if call.granted then WriteStep(s, fh, offset, data, written) else s
    case Setattr(ino, through, size, _, _, _) =>
      if done && size.Some? then SetattrStep(s, s.names.known[ino], through, size.value) else s
    case Open(ino, write, append, trunc) =>
      if done then OpenStep(s, s.names.known[ino], write, append, trunc) else s
    case Release(fh) => ReleaseStep(s, fh)
    case _ => s.(names := names)
  }

  lemma RenameStepIs(s: State, call: Call, dst: Path)
    requires call.req.Rename? && Child(s.names.known, call.req.newParent, call.req.newName) == Some(dst)
    ensures Step(s, call) == if Done(s.names, call) then RenameStep(s, Names.Step(s.names, call), dst) else s
  {
  }

  lemma CreateIs(s: State, call: Call, p: Path)
    requires call.req.Create? && Target(s.names.known, call.req) == Some(p)
    ensures Done(s.names, call) <==>
            call.granted && p != [] && p !in s.names.tree && IsDir(s.names.tree, Parent(p))
    ensures var ino := call.req.newIno;
            var known := if call.finishes then s.names.known[ino := p] else s.names.known;
            Step(s, call) ==
            if !Done(s.names, call) then s
            else CreateStep(s, Names.State(s.names.tree[p := Entry(ino, false)], known), ino, call.finishes)
  {
  }

  lemma MkdirIs(s: State, call: Call, p: Path)
    requires call.req.Mkdir? && Target(s.names.known, call.req) == Some(p)
    ensures Done(s.names, call) <==>
            call.granted && p != [] && p !in s.names.tree && IsDir(s.names.tree, Parent(p))
    ensures var ino := call.req.newIno;
            var known := if call.finishes then s.names.known[ino := p] else s.names.known;
            Step(s, call) ==
            if !Done(s.names, call) then s
            else s.(names := Names.State(s.names.tree[p := Entry(ino, true)], known))
  {
  }

  lemma RmdirIs(s: State, call: Call, p: Path)
    requires call.req.Rmdir? && Target(s.names.known, call.req) == Some(p)
    ensures Done(s.names, call) <==>
            call.granted && p != [] && IsDir(s.names.tree, p) && Childless(s.names.tree, p)
    ensures Step(s, call) ==
            if !Done(s.names, call) then s
            else s.(names := Names.State(s.names.tree - {p}, s.names.known - {s.names.tree[p].ino}))
  {
  }

  lemma StepNames(s: State, call: Call)
    ensures Step(s, call).names == Names.Step(s.names, call)
  {
  }

  // ---- Invariant ----

  // Files have bytes, directories none; an open handle on a file that still has a name
  // was opened through the map, which still knows that name.
  ghost predicate Inv(s: State) {
    && Good(s.names)
    && (forall p | p in s.names.tree :: s.names.tree[p].dir <==> s.names.tree[p].ino !in s.bytes)
    && (forall fh | fh in s.handles :: 1 <= fh < s.nextFh)
    && (forall fh | fh in s.handles && s.handles[fh].writable :: s.handles[fh].ino in s.bytes)
    && (forall fh | fh in s.handles && s.handles[fh].forWriting :: s.handles[fh].writable)
    && (forall fh | fh in s.handles && s.handles[fh].ino in s.bytes ::
          Linked(s.names.tree, s.handles[fh].ino) ==> s.handles[fh].ino in s.names.known)
    && FUSE_ROOT_ID !in s.bytes
    && 1 <= s.nextFh
  }

  // What a well-behaved kernel and an honest backing system guarantee: a handle is used
  // for the inode it was opened on, and new files get inodes nothing refers to.
  ghost predicate Valid(s: State, req: Request) {
    && FreshInode(s.names, req)
    && (req.Create? || req.Mkdir? ==> req.newIno !in s.bytes && !Opened(s.handles, req.newIno))
    && (req.Write? ==> req.offset < TWO_TO_THE_64)
    && (req.Write? && req.fh in s.handles ==> s.handles[req.fh].ino == req.ino)
    && (req.Setattr? && req.through.Some? && req.through.value in s.handles ==>
          s.handles[req.through.value].ino == req.ino)
  }

  lemma NamesStepAside(s: State, call: Call)
    requires Inv(s) && Valid(s, call.req) && Clean(s.names, call)
    ensures Good(Names.Step(s.names, call))
  {
    StepKeepsTree(s.names, call);
    StepKeepsSoundIff(s.names, call);
  }

  lemma KnownIsLinked(s: State, ino: Ino)
    requires Inv(s) && ino in s.names.known && ino != FUSE_ROOT_ID
    ensures var p := s.names.known[ino]; p != [] && p in s.names.tree && s.names.tree[p].ino == ino
  {
    assert Right(s.names, ino);
  }

  lemma OpeningKeepsInv(s: State, handle: Handle)
    requires Inv(s)
    requires handle.ino in s.bytes && Linked(s.names.tree, handle.ino) ==> handle.ino in s.names.known
    requires (handle.writable ==> handle.ino in s.bytes) && (handle.forWriting ==> handle.writable)
    ensures Inv(Opening(s, handle))
  {
  }

  lemma CollectedKeepsInv(s: State, ino: Ino)
    requires Inv(s)
    ensures Inv(Collected(s, ino))
  {
    forall p | p in s.names.tree ensures Linked(s.names.tree, s.names.tree[p].ino) {
    }
    forall fh | fh in s.handles ensures Opened(s.handles, s.handles[fh].ino) {
    }
  }

  lemma CreateKeepsInv(s: State, call: Call)
    requires Inv(s) && Valid(s, call.req) && call.req.Create? && Done(s.names, call)
    ensures Inv(Step(s, call))
  {
    var p := Target(s.names.known, call.req).value;
    var names := Names.Step(s.names, call);
    NamesStepAside(s, call);
    var s1 := s.(names := names, bytes := s.bytes[call.req.newIno := []]);
    forall fh | fh in s.handles && s.handles[fh].ino in s1.bytes && Linked(names.tree, s.handles[fh].ino)
      ensures s.handles[fh].ino in names.known
    {
      assert Opened(s.handles, s.handles[fh].ino);
      var q :| q in names.tree && names.tree[q].ino == s.handles[fh].ino;
      assert q != p;
      assert q in s.names.tree;
    }
    assert Inv(s1);
    if call.finishes {
      OpeningKeepsInv(s1, Handle(call.req.newIno, true, true));
    }
  }

  lemma MkdirKeepsInv(s: State, call: Call)
    requires Inv(s) && Valid(s, call.req) && call.req.Mkdir? && Done(s.names, call)
    ensures Inv(Step(s, call))
  {
    var p := Target(s.names.known, call.req).value;
    var names := Names.Step(s.names, call);
    NamesStepAside(s, call);
    forall fh | fh in s.handles && s.handles[fh].ino in s.bytes && Linked(names.tree, s.handles[fh].ino)
      ensures s.handles[fh].ino in names.known
    {
      var q :| q in names.tree && names.tree[q].ino == s.handles[fh].ino;
      assert q != p;
      assert q in s.names.tree;
    }
  }

  // Removing a name takes its inode out of the map; that inode then has no name left.
  lemma RemovalKeepsInv(s: State, call: Call)
    requires Inv(s) && Valid(s, call.req) && (call.req.Unlink? || call.req.Rmdir?) && Done(s.names, call)
    ensures Inv(s.(names := Names.Step(s.names, call)))
  {
    var p := Target(s.names.known, call.req).value;
    var names := Names.Step(s.names, call);
    NamesStepAside(s, call);
    forall fh | fh in s.handles && s.handles[fh].ino in s.bytes && Linked(names.tree, s.handles[fh].ino)
      ensures s.handles[fh].ino in names.known
    {
      var q :| q in names.tree && names.tree[q].ino == s.handles[fh].ino;
      assert q in s.names.tree && q != p;
    }
  }

  lemma LookingKeepsInv(s: State, call: Call)
    requires Inv(s) && Valid(s, call.req) && (call.req.Lookup? || call.req.Readdir?)
    ensures Inv(Step(s, call))
  {
    NamesStepAside(s, call);
    var names := Names.Step(s.names, call);
    forall ino | ino in s.names.known ensures ino in names.known {
      if call.req.Readdir? && Done(s.names, call) {
        RegisteredEntries(s.names.known, s.names.tree, s.names.known[call.req.ino], call.req.listing, ino);
      }
    }
  }

  lemma OpenKeepsInv(s: State, ino: Ino, write: bool, append: bool, trunc: bool)
    requires Inv(s) && ino in s.names.known
    ensures Inv(OpenStep(s, s.names.known[ino], write, append, trunc))
  {
    var p := s.names.known[ino];
    if CanOpen(s.names.tree, p, write, append, trunc) {
      if ino != FUSE_ROOT_ID {
        KnownIsLinked(s, ino);
      }
      OpeningKeepsInv(s, Handle(s.names.tree[p].ino, write || append, write));
    }
  }

  // Every entry of the new tree was an entry of the old one.
  ghost predicate EntriesFrom(tree: Names.Tree, tree1: Names.Tree) {
    forall q | q in tree1 :: HasEntry(tree, tree1[q])
  }

  ghost predicate HasEntry(tree: Names.Tree, e: Entry) {
    exists q :: q in tree && tree[q] == e
  }

  lemma RenamedEntriesFrom(tree: Names.Tree, src: Path, dst: Path)
    requires WellFormed(tree) && CanRename(tree, src, dst)
    ensures EntriesFrom(tree, Renamed(tree, src, dst))
  {
    forall q | q in Renamed(tree, src, dst) ensures HasEntry(tree, Renamed(tree, src, dst)[q]) {
      if src != dst {
        RenamedFrom(tree, src, dst, q);
      }
    }
  }

  lemma MovingKeepsInv(s: State, names: Names.State)
    requires Inv(s) && Good(names) && EntriesFrom(s.names.tree, names.tree)
    requires forall ino | ino in s.names.known :: ino in names.known
    ensures Inv(s.(names := names))
  {
    forall p | p in names.tree ensures names.tree[p].dir <==> names.tree[p].ino !in s.bytes {
      assert HasEntry(s.names.tree, names.tree[p]);
    }
    forall fh | fh in s.handles && s.handles[fh].ino in s.bytes && Linked(names.tree, s.handles[fh].ino)
      ensures s.handles[fh].ino in names.known
    {
      var q :| q in names.tree && names.tree[q].ino == s.handles[fh].ino;
      assert HasEntry(s.names.tree, names.tree[q]);
      assert Linked(s.names.tree, s.handles[fh].ino);
    }
  }

  lemma RenameKeepsInv(s: State, call: Call, src: Path, dst: Path)
    requires Inv(s) && Valid(s, call.req) && call.req.Rename? && Done(s.names, call) && Clean(s.names, call)
    requires Target(s.names.known, call.req) == Some(src)
    requires Child(s.names.known, call.req.newParent, call.req.newName) == Some(dst)
    ensures Inv(Step(s, call))
  {
    var names := Names.Step(s.names, call);
    NamesStepAside(s, call);
    Names.RenameStepIs(s.names, call, src, dst);
    RenamedEntriesFrom(s.names.tree, src, dst);
    MovingKeepsInv(s, names);
    RenameStepIs(s, call, dst);
    if dst in s.names.tree {
      CollectedKeepsInv(s.(names := names), s.names.tree[dst].ino);
    }
  }

  lemma StepKeepsInv(s: State, call: Call)
    requires Inv(s) && Valid(s, call.req) && Clean(s.names, call)
    ensures Inv(Step(s, call))
  {
    if Done(s.names, call) || call.req.Release? || call.req.Write? {
      match call.req
      case Create(_, _, _, _) => CreateKeepsInv(s, call);
      case Mkdir(_, _, _, _) => MkdirKeepsInv(s, call);
      case Unlink(_, _) =>
        RemovalKeepsInv(s, call);
        CollectedKeepsInv(s.(names := Names.Step(s.names, call)),
                          s.names.tree[Target(s.names.known, call.req).value].ino);
      case Rmdir(_, _) => RemovalKeepsInv(s, call);
      case Rename(_, _, newParent, newName) =>
        RenameKeepsInv(s, call, Target(s.names.known, call.req).value, Child(s.names.known, newParent, newName).value);
      case Lookup(_, _) => LookingKeepsInv(s, call);
      case Readdir(_, _) => LookingKeepsInv(s, call);
      case Open(ino, write, append, trunc) => OpenKeepsInv(s, ino, write, append, trunc);
      case Release(fh) =>
        if fh in s.handles {
          CollectedKeepsInv(s.(handles := s.handles - {fh}), s.handles[fh].ino);
        }
      case _ =>
    }
  }

  ghost predicate Orderly(s: State, calls: seq<Call>)
    decreases |calls|
  {
    calls != [] ==> Valid(s, calls[0].req) && Clean(s.names, calls[0]) && Orderly(Step(s, calls[0]), calls[1..])
  }

  ghost function After(s: State, calls: seq<Call>): State
    decreases |calls|
  {
    if calls == [] then s else After(Step(s, calls[0]), calls[1..])
  }

  // Map, tree, bytes and handle table stay in agreement through every run.
  lemma {:induction false} EveryRunKeepsInv(s: State, calls: seq<Call>)
    requires Inv(s) && Orderly(s, calls)
    ensures Inv(After(s, calls))
    decreases |calls|
  {
    if calls != [] {
      StepKeepsInv(s, calls[0]);
      EveryRunKeepsInv(Step(s, calls[0]), calls[1..]);
    }
  }
}
