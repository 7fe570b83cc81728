// What one request means for the next: the properties a program on the mount relies on,
// told by what later requests find and not by how a request is carried out.
module Behaviour {
  import opened Wrappers
  import opened Bytes
  import opened Opcodes
  import opened Recorder
  import opened Names
  import opened Mount
  import opened Passthrough

  function WriteOn(ino: Ino, fh: Fh, offset: nat, data: Content, written: nat): Call {
    Call(Names.Request.Write(ino, fh, offset, data, written), true, true)
  }

  function LookupOf(req: Request): Call
    requires req.Create? || req.Mkdir? || req.Unlink? || req.Rmdir? || req.Rename?
  {
    Call(Names.Request.Lookup(req.parent, req.name), true, true)
  }

  // ---- Writing ----

  // A write through a handle that may be written through reaches the handle's file, as far
  // as the system takes it, and nothing else; any other write does nothing and is refused.
  lemma WriteReaches(s: Mount.State, call: Call)
    requires Inv(s) && call.req.Write?
    ensures var Write(_, fh, offset, data, written) := call.req;
            var takes := data[..if written < |data| then written else |data|];
            var s1 := Mount.Step(s, call);
            if call.granted && fh in s.handles && s.handles[fh].writable then
              && Succeeds(s, call) && s.handles[fh].ino in s.bytes
              && s1 == s.(bytes := s.bytes[s.handles[fh].ino :=
                                             PosixStep(s.bytes[s.handles[fh].ino], Edit.Write(offset, takes))])
            else !Succeeds(s, call) && s1 == s
  {
  }

  // ---- Creating ----

  // A created file is there, empty, and what is written through the handle it comes with
  // is in it afterwards.
  lemma CreatedTakesWrites(s: Mount.State, call: Call, p: Path, offset: nat, data: Content, written: nat)
    requires Inv(s) && Valid(s, call.req) && call.req.Create? && Done(s.names, call) && call.finishes
    requires Target(s.names.known, call.req) == Some(p)
    ensures var ino, fh := call.req.newIno, s.nextFh;
            var s1 := Mount.Step(s, call);
            var write := WriteOn(ino, fh, offset, data, written);
            var takes := data[..if written < |data| then written else |data|];
            && Succeeds(s, call) && fh !in s.handles
            && s1.names.tree == s.names.tree[p := Entry(ino, false)] && s1.bytes == s.bytes[ino := []]
            && s1.handles - {fh} == s.handles
            && Succeeds(s1, write) && TruncatesThrough(s1, fh)
            && Mount.Step(s1, write).bytes == s.bytes[ino := PosixStep([], Edit.Write(offset, takes))]
  {
    CreateIs(s, call, p);
  }

  // If its stat fails it is there all the same, but there is no handle.
  lemma UnfinishedCreate(s: Mount.State, call: Call, p: Path)
    requires Inv(s) && call.req.Create? && Done(s.names, call) && !call.finishes
    requires Target(s.names.known, call.req) == Some(p)
    ensures var s1 := Mount.Step(s, call);
            && !Succeeds(s, call) && s1.handles == s.handles && s1.names.known == s.names.known
            && s1.names.tree == s.names.tree[p := Entry(call.req.newIno, false)]
            && s1.bytes == s.bytes[call.req.newIno := []]
  {
    CreateIs(s, call, p);
  }

  // ---- Opening ----

  // Opening succeeds exactly for what the map knows and the tree has, directories for
  // reading only, and truncating only for plain writing. The handle takes writes exactly
  // if it was opened for writing or for appending, and nothing is lost unless truncation
  // was asked for.
  lemma OpenedTakesWritesIff(s: Mount.State, call: Call, offset: nat, data: Content, written: nat)
    requires Inv(s) && call.req.Open?
    ensures var Open(ino, write, append, trunc) := call.req;
            Succeeds(s, call) <==>
            && call.granted && ino in s.names.known && s.names.known[ino] in s.names.tree
            && (trunc ==> write && !append) && (s.names.tree[s.names.known[ino]].dir ==> !write && !append)
    ensures !Succeeds(s, call) ==> Mount.Step(s, call) == s
    ensures Succeeds(s, call) ==>
              var Open(ino, write, append, trunc) := call.req;
              var takes := data[..if written < |data| then written else |data|];
              var file, fh, s1 := s.names.tree[s.names.known[ino]].ino, s.nextFh, Mount.Step(s, call);
              && fh !in s.handles && s1.handles - {fh} == s.handles && s1.names == s.names
              && (ino != FUSE_ROOT_ID ==> file == ino)
              && s1.bytes == (if trunc then s.bytes[file := []] else s.bytes)
              && (Succeeds(s1, WriteOn(ino, fh, offset, data, written)) <==> write || append)
              && (TruncatesThrough(s1, fh) <==> write)
              && Mount.Step(s1, WriteOn(ino, fh, offset, data, written)).bytes ==
                 if write || append
                 then s1.bytes[file := PosixStep(s1.bytes[file], Edit.Write(offset, takes))]
                 else s1.bytes
  {
    if Succeeds(s, call) && call.req.ino != FUSE_ROOT_ID {
      assert Right(s.names, call.req.ino);
    }
    if Succeeds(s, call) && (call.req.write || call.req.append) {
      assert s.names.tree[s.names.known[call.req.ino]].ino in s.bytes;
    }
  }

  // ---- Sizes ----

  // A new size is for the handle's file if there is a handle opened for writing, otherwise
  // for the file at the inode's path.
  lemma SetattrSizes(s: Mount.State, call: Call)
    requires Inv(s) && call.req.Setattr? && call.granted && call.req.ino in s.names.known
    ensures var Setattr(ino, through, size, _, _, _) := call.req;
            var p := s.names.known[ino];
            var handle := through.Some? && through.value in s.handles && s.handles[through.value].forWriting;
            var found := p in s.names.tree && !s.names.tree[p].dir;
            && (Succeeds(s, call) <==> call.finishes && (size.Some? ==> handle || found))
            && (size.None? || (!handle && !found) ==> Mount.Step(s, call) == s)
            && (size.Some? && (handle || found) ==>
                  var file := if handle then s.handles[through.value].ino else s.names.tree[p].ino;
                  && file in s.bytes
                  && Mount.Step(s, call) ==
                     s.(bytes := s.bytes[file := PosixStep(s.bytes[file], Edit.Truncate(size.value))]))
  {
  }

  // ---- Releasing and unlinking ----

  // A released handle is gone, and no other; the file's bytes go with it exactly if it has
  // no name and no other handle.
  lemma ReleasedIsGone(s: Mount.State, fh: Fh, granted: bool, finishes: bool, write: Call)
    requires Inv(s) && write.req.Write? && write.req.fh == fh
    ensures var s1 := Mount.Step(s, Call(Names.Request.Release(fh), granted, finishes));
            && s1.handles == s.handles - {fh} && s1.names == s.names && s1.nextFh == s.nextFh
            && !Succeeds(s1, write) && Mount.Step(s1, write) == s1
            && (fh !in s.handles ==> s1.bytes == s.bytes)
            && (fh in s.handles ==>
                  s1.bytes == if Unreferenced(s1, s.handles[fh].ino) then s.bytes - {s.handles[fh].ino} else s.bytes)
  {
  }

  ghost predicate Unreferenced(s: Mount.State, ino: Ino) {
    && (forall p | p in s.names.tree :: s.names.tree[p].ino != ino)
    && (forall fh | fh in s.handles :: s.handles[fh].ino != ino)
  }

  // An unlinked file is no longer found, but lives on while a handle is open on it.
  lemma UnlinkedLivesOn(s: Mount.State, call: Call, p: Path)
    requires Inv(s) && Valid(s, call.req) && call.req.Unlink? && Done(s.names, call)
    requires Target(s.names.known, call.req) == Some(p)
    ensures var s1, ino := Mount.Step(s, call), s.names.tree[p].ino;
            && s1.names.tree == s.names.tree - {p} && ino !in s1.names.known
            && s1.handles == s.handles
            && !Done(s1.names, LookupOf(call.req))
            && s1.bytes == if Opened(s.handles, ino) then s.bytes else s.bytes - {ino}
  {
    assert forall q | q in s.names.tree - {p} :: (s.names.tree - {p})[q].ino != s.names.tree[p].ino;
  }

  // A rename touches no file's bytes, but those of a file it overwrites that nobody has
  // open.
  lemma RenameKeepsBytes(s: Mount.State, call: Call, dst: Path)
    requires Inv(s) && call.req.Rename? && Done(s.names, call) && Destination(s.names.known, call.req) == Some(dst)
    ensures var s1 := Mount.Step(s, call);
            && s1.handles == s.handles && s1.nextFh == s.nextFh
            && (dst !in s.names.tree ==> s1.bytes == s.bytes)
            && (dst in s.names.tree ==>
                  var over := s.names.tree[dst].ino;
                  s1.bytes == if Unreferenced(s1, over) then s.bytes - {over} else s.bytes)
  {
    Mount.RenameStepIs(s, call, dst);
  }

  // The other requests touch neither bytes nor handles.
  lemma OthersKeepBytes(s: Mount.State, call: Call)
    requires call.req.Lookup? || call.req.Readdir? || call.req.Mkdir? || call.req.Rmdir?
    ensures var s1 := Mount.Step(s, call);
            s1.bytes == s.bytes && s1.handles == s.handles && s1.nextFh == s.nextFh
  {
  }

  // ---- Finding ----

  lemma ParentIsNotNew(s: Names.State, call: Call)
    requires Good(s) && FreshInode(s, call.req) && (call.req.Create? || call.req.Mkdir?) && Done(s, call)
    ensures call.req.parent != call.req.newIno
  {
    if call.req.parent != FUSE_ROOT_ID {
      assert Right(s, call.req.parent);
    }
  }

  lemma MadeIs(s: Names.State, call: Call, p: Path)
    requires (call.req.Create? || call.req.Mkdir?) && Done(s, call) && Target(s.known, call.req) == Some(p)
    ensures p != [] && p !in s.tree
    ensures Names.Step(s, call) ==
            Names.State(s.tree[p := Entry(call.req.newIno, call.req.Mkdir?)],
                        if call.finishes then s.known[call.req.newIno := p] else s.known)
  {
  }

  lemma FoundByLookup(s: Names.State, lookup: Call, p: Path)
    requires lookup.req.Lookup? && lookup.granted && Target(s.known, lookup.req) == Some(p) && p in s.tree
    ensures Done(s, lookup) && Names.Step(s, lookup) == Names.State(s.tree, s.known[s.tree[p].ino := p])
  {
  }

  lemma NotMadeAgain(s: Names.State, again: Call, p: Path)
    requires (again.req.Create? || again.req.Mkdir?) && Target(s.known, again.req) == Some(p) && p in s.tree
    ensures !Done(s, again)
  {
  }

  // What was created is found by its name, whether or not its stat went well, and cannot
  // be created again.
  lemma CreatedIsFound(s: Names.State, s1: Names.State, call: Call, again: Call, p: Path)
    requires Good(s) && FreshInode(s, call.req) && (call.req.Create? || call.req.Mkdir?) && Done(s, call)
    requires Target(s.known, call.req) == Some(p) && again.req == call.req && s1 == Names.Step(s, call)
    ensures p !in s.tree && s1.tree == s.tree[p := Entry(call.req.newIno, call.req.Mkdir?)]
    ensures !Done(s1, again)
    ensures Done(s1, LookupOf(call.req))
    ensures Resolve(Names.Step(s1, LookupOf(call.req)).known, call.req.newIno) == Some(p)
  {
    ParentIsNotNew(s, call);
    MadeIs(s, call, p);
    assert Target(s1.known, LookupOf(call.req).req) == Some(p) == Target(s1.known, again.req);
    FoundByLookup(s1, LookupOf(call.req), p);
    NotMadeAgain(s1, again, p);
  }

  lemma ParentIsNotRemoved(s: Names.State, call: Call)
    requires Good(s) && (call.req.Unlink? || call.req.Rmdir?) && Done(s, call)
    ensures call.req.parent != s.tree[Target(s.known, call.req).value].ino
  {
    var p := Target(s.known, call.req).value;
    if call.req.parent != FUSE_ROOT_ID {
      assert Right(s, call.req.parent) && s.known[call.req.parent] == Parent(p);
      assert p != Parent(p);
    }
  }

  // What was removed is not found, and nothing else is gone.
  lemma RemovedIsNotFound(s: Names.State, call: Call)
    requires Good(s) && (call.req.Unlink? || call.req.Rmdir?) && Done(s, call)
    ensures var s1, p := Names.Step(s, call), Target(s.known, call.req).value;
            && p in s.tree && (s.tree[p].dir <==> call.req.Rmdir?) && s1.tree == s.tree - {p}
            && (forall q | q in s.tree :: !Below(q, p))
            && !Done(s1, LookupOf(call.req))
  {
    var p := Target(s.known, call.req).value;
    ParentIsNotRemoved(s, call);
    assert Target(Names.Step(s, call).known, LookupOf(call.req).req) == Some(p);
    if call.req.Unlink? {
      forall q | q in s.tree ensures !Below(q, p) {
        if Below(q, p) {
          AncestorsExist(s.tree, q, p);
          assert false;
        }
      }
    }
  }

  // What was renamed is found by its new path, everything below it along with it, and
  // nothing by the old ones; all else is where it was.
  lemma RenamedIsFound(s: Names.State, call: Call, src: Path, dst: Path, q: Path)
    requires WellFormed(s.tree) && call.req.Rename? && Done(s, call)
    requires Target(s.known, call.req) == Some(src) && Destination(s.known, call.req) == Some(dst)
    ensures var s1 := Names.Step(s, call);
            && (AtOrBelow(q, src) && q in s.tree ==>
                  && dst + q[|src|..] in s1.tree && s1.tree[dst + q[|src|..]] == s.tree[q]
                  && (src != dst ==> q !in s1.tree))
            && (!AtOrBelow(q, src) && !AtOrBelow(q, dst) ==>
                  (q in s1.tree <==> q in s.tree) && (q in s.tree ==> s1.tree[q] == s.tree[q]))
  {
    Names.RenameStepIs(s, call, src, dst);
    if src != dst {
      RenamedAt(s.tree, src, dst, q);
      if AtOrBelow(q, src) {
        var r := dst + q[|src|..];
        RenamedAt(s.tree, src, dst, r);
        assert src + r[|dst|..] == q;
      }
    } else if AtOrBelow(q, src) {
      assert dst + q[|src|..] == q;
    }
  }

  // What a listing shows is found by its name, with the inode it was listed with.
  lemma ListedIsFound(s: Names.State, ino: Ino, listing: seq<Name>, name: Name, p: Path)
    requires Good(s) && Resolve(s.known, ino) == Some(p) && IsDir(s.tree, p)
    requires p + [name] in s.tree
    ensures var s1 := Names.Step(s, Call(Names.Request.Readdir(ino, listing), true, true));
            var lookup := Call(Names.Request.Lookup(ino, name), true, true);
            && Resolve(s1.known, ino) == Some(p) && Done(s1, lookup)
            && Resolve(Names.Step(s1, lookup).known, s.tree[p + [name]].ino) == Some(p + [name])
  {
    var call := Call(Names.Request.Readdir(ino, listing), true, true);
    StepKeepsSoundIff(s, call);
    RegisteredEntries(s.known, s.tree, p, listing, ino);
    if ino != FUSE_ROOT_ID {
      assert Right(s, ino) && Right(Names.Step(s, call), ino);
    }
  }
}
