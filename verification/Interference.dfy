// When leaving out what happens under an ignored directory does change the opcode stream:
// two short runs, and a proof that each of the two things orderly runs are free of does it
// in some run.
module Interference {
  import opened Wrappers
  import opened Opcodes
  import opened Recorder
  import opened Names
  import opened NonInterference

  // ---- Why renames must not cross ----

  lemma Unrolled(filters: seq<Name>, s: State, call: Call, rest: seq<Call>)
    ensures Stream(filters, s, [call] + rest) == Emissions(filters, s, call.req) + Stream(filters, Step(s, call), rest)
    ensures Reduced(filters, s, [call] + rest) ==
            (if Hidden(filters, s, call.req) then [] else [call]) + Reduced(filters, Step(s, call), rest)
    ensures Names.Runs(s, [call] + rest) <==> FreshInode(s, call.req) && Runs(Step(s, call), rest)
  {
    assert ([call] + rest)[0] == call && ([call] + rest)[1..] == rest;
  }

  lemma FirstMakesTheDifference(filters: seq<Name>, s0: State, s1: State, s2: State, c0: Call, c1: Call, c2: Call,
                                ops: seq<Operation>)
    requires s1 == Step(s0, c0) && s2 == Step(s1, c1)
    requires Hidden(filters, s0, c0.req) && !Hidden(filters, s1, c1.req) && !Hidden(filters, s2, c2.req)
    requires Emissions(filters, s0, c0.req) == [] && Emissions(filters, s1, c1.req) == []
    requires Emissions(filters, s2, c2.req) == ops
    requires Step(s0, c1) == s0 && Emissions(filters, s0, c1.req) == [] && Emissions(filters, s0, c2.req) == []
    requires FreshInode(s0, c0.req) && !c1.req.Create? && !c1.req.Mkdir? && !c2.req.Create? && !c2.req.Mkdir?
    ensures var calls := [c0] + ([c1] + ([c2] + []));
            && Runs(s0, calls) && Runs(s0, Reduced(filters, s0, calls))
            && Stream(filters, s0, calls) == ops && Stream(filters, s0, Reduced(filters, s0, calls)) == []
  {
    Unrolled(filters, s2, c2, []);
    Unrolled(filters, s1, c1, [c2] + []);
    Unrolled(filters, s0, c0, [c1] + ([c2] + []));
    assert Reduced(filters, s0, [c0] + ([c1] + ([c2] + []))) == [c1] + ([c2] + []);
    Unrolled(filters, s0, c2, []);
    Unrolled(filters, s0, c1, [c2] + []);
  }

  // A file created under an ignored directory and then renamed out of it: without the
  // request that created it, the rename fails, and what is written to the file is lost.
  lemma RenamedOutOfIgnored(git: Name, f: Name, s: State)
    requires f != git && OnlyIgnored(git, s)
    ensures var calls := [Call(Create(3, f, 0, 8), true, true)] +
                         ([Call(Rename(3, f, 1, f), true, true)] + ([Call(Write(8, 1, 0, [1], 1), true, true)] + []));
            && Good(s) && Runs(s, calls) && Runs(s, Reduced([git], s, calls))
            && Stream([git], s, calls) == [FileWrite([f], 0, [1])]
            && Stream([git], s, Reduced([git], s, calls)) == []
  {
    var create, move, write := Call(Create(3, f, 0, 8), true, true), Call(Rename(3, f, 1, f), true, true),
                               Call(Write(8, 1, 0, [1], 1), true, true);
    CreatedInside(git, f, s);
    var s1 := Step(s, create);
    MovedOut(git, f, s1);
    FirstMakesTheDifference([git], s, s1, Step(s1, move), create, move, write, [FileWrite([f], 0, [1])]);
  }

  // A root with one directory in it, and both known.
  ghost predicate OnlyIgnored(git: Name, s: State) {
    && s.known == map[1 := [], 3 := [git]]
    && s.tree == map[[] := Entry(2, true), [git] := Entry(3, true)]
  }

  ghost predicate WithFile(git: Name, f: Name, s: State) {
    && s.known == map[1 := [], 3 := [git], 8 := [git, f]]
    && s.tree == map[[] := Entry(2, true), [git] := Entry(3, true), [git, f] := Entry(8, false)]
  }

  lemma CreatedInside(git: Name, f: Name, s: State)
    requires f != git && OnlyIgnored(git, s)
    ensures var create, move := Call(Create(3, f, 0, 8), true, true), Call(Rename(3, f, 1, f), true, true);
            && Good(s) && FreshInode(s, create.req) && WithFile(git, f, Step(s, create))
            && Hidden([git], s, create.req) && Emissions([git], s, create.req) == []
            && Step(s, move) == s && Emissions([git], s, move.req) == []
            && Emissions([git], s, Write(8, 1, 0, [1], 1)) == []
  {
    assert [git] + [f] == [git, f] && Parent([git, f]) == [git] && [] + [f] == [f] && Parent([git]) == [];
    assert PathStartsWithDir([git, f], [git][0]);
  }

  lemma MovedOut(git: Name, f: Name, s: State)
    requires f != git && WithFile(git, f, s)
    ensures var move, write := Call(Rename(3, f, 1, f), true, true), Call(Write(8, 1, 0, [1], 1), true, true);
            && !Hidden([git], s, move.req) && Emissions([git], s, move.req) == []
            && !Hidden([git], Step(s, move), write.req)
            && Emissions([git], Step(s, move), write.req) == [FileWrite([f], 0, [1])]
  {
    var move := Call(Rename(3, f, 1, f), true, true);
    assert [git] + [f] == [git, f] && Parent([f]) == [] && [] + [f] == [f];
    assert PathStartsWithDir([git, f], [git][0]);
    assert !IsIgnored([git], [f]);
    assert CanRename(s.tree, [git, f], [f]);
    RenameStepIs(s, move, [git, f], [f]);
    WriteEmits([git], Step(s, move), 8, [f]);
  }

  lemma WriteEmits(filters: seq<Name>, s: State, ino: Ino, p: Path)
    requires Resolve(s.known, ino) == Some(p) && !IsIgnored(filters, p)
    ensures var req := Write(ino, 1, 0, [1], 1);
            !Hidden(filters, s, req) && Emissions(filters, s, req) == [FileWrite(p, 0, [1])]
  {
  }

  // ---- Why a stale inode must not be reused ----

  // Two files and an ignored directory, all known.
  ghost predicate TwoFiles(git: Name, a: Name, b: Name, s: State) {
    && git != a && git != b && a != b
    && s.known == map[1 := [], 3 := [git], 5 := [a], 6 := [b]]
    && s.tree == map[[] := Entry(2, true), [git] := Entry(3, true), [a] := Entry(5, false), [b] := Entry(6, false)]
  }

  // The overwritten file's inode is still known by the name it had, and free for reuse.
  ghost predicate StaleEntry(git: Name, b: Name, s: State) {
    && git != b && s.known == map[1 := [], 3 := [git], 5 := [b], 6 := [b]]
    && IsDir(s.tree, [git]) && Childless(s.tree, [git])
    && forall p | p in s.tree :: s.tree[p].ino != 6
  }

  lemma TwoFilesAreGood(git: Name, a: Name, b: Name, s: State)
    requires TwoFiles(git, a, b, s)
    ensures Good(s) && CanRename(s.tree, [a], [b])
  {
    assert Parent([a]) == [] && Parent([b]) == [] && Parent([git]) == [];
  }

  lemma OverwrittenTree(git: Name, a: Name, b: Name, s: State)
    requires TwoFiles(git, a, b, s) && WellFormed(s.tree) && CanRename(s.tree, [a], [b])
    ensures var tree := Renamed(s.tree, [a], [b]);
            && IsDir(tree, [git]) && Childless(tree, [git])
            && forall q | q in tree :: tree[q].ino != 6
  {
    var tree := Renamed(s.tree, [a], [b]);
    forall q | q in tree ensures tree[q].ino != 6 && !Below(q, [git]) {
      OverwrittenIsNameless(s.tree, [a], [b], q);
      RenamedAt(s.tree, [a], [b], q);
    }
    RenamedAt(s.tree, [a], [b], [git]);
  }

  lemma OverwritingLeavesStale(git: Name, a: Name, b: Name, s: State)
    requires TwoFiles(git, a, b, s)
    ensures StaleEntry(git, b, Step(s, Call(Rename(1, a, 1, b), true, true)))
  {
    assert [] + [a] == [a] && [] + [b] == [b];
    TwoFilesAreGood(git, a, b, s);
    RenameStepIs(s, Call(Rename(1, a, 1, b), true, true), [a], [b]);
    StaleAfterwards(git, a, b, s);
  }

  lemma StaleAfterwards(git: Name, a: Name, b: Name, s: State)
    requires TwoFiles(git, a, b, s) && WellFormed(s.tree) && CanRename(s.tree, [a], [b])
    ensures StaleEntry(git, b, State(Renamed(s.tree, [a], [b]), s.known[5 := [b]]))
  {
    OverwrittenTree(git, a, b, s);
  }

  lemma OverwritingIsCaptured(git: Name, a: Name, b: Name, s: State)
    requires TwoFiles(git, a, b, s)
    ensures var move := Rename(1, a, 1, b);
            !Hidden([git], s, move) && Emissions([git], s, move) == [FileRename([a], [b])]
  {
    assert [] + [a] == [a] && [] + [b] == [b];
    assert !IsIgnored([git], [a]) && !IsIgnored([git], [b]);
    RenameEmits([git], s, Rename(1, a, 1, b));
  }

  lemma DetourForgets(git: Name, f: Name, b: Name, s: State)
    requires StaleEntry(git, b, s)
    ensures var create, unlink := Call(Create(3, f, 0, 6), true, true), Call(Unlink(3, f), true, true);
            var s1 := Step(s, create);
            && FreshInode(s, create.req)
            && Hidden([git], s, create.req) && Emissions([git], s, create.req) == []
            && Hidden([git], s1, unlink.req) && Emissions([git], s1, unlink.req) == []
            && Resolve(Step(s1, unlink).known, 6) == None
  {
    assert [git] + [f] == [git, f] && Parent([git, f]) == [git] && Below([git, f], [git]);
    assert PathStartsWithDir([git, f], [git][0]);
  }

  lemma UnknownWriteEmits(filters: seq<Name>, s: State, ino: Ino)
    requires Resolve(s.known, ino) == None
    ensures var req := Write(ino, 1, 0, [1], 1); !Hidden(filters, s, req) && Emissions(filters, s, req) == []
  {
  }

  lemma DetourIsSilent(filters: seq<Name>, s1: State, c1: Call, c2: Call, c3: Call)
    requires var s2 := Step(s1, c1);
             var s3 := Step(s2, c2);
             && FreshInode(s1, c1.req) && FreshInode(s2, c2.req) && FreshInode(s3, c3.req)
             && Hidden(filters, s1, c1.req) && Hidden(filters, s2, c2.req) && !Hidden(filters, s3, c3.req)
             && Emissions(filters, s1, c1.req) == [] && Emissions(filters, s2, c2.req) == []
             && Emissions(filters, s3, c3.req) == []
    ensures var calls := [c1] + ([c2] + ([c3] + []));
            Runs(s1, calls) && Reduced(filters, s1, calls) == [c3] + [] && Stream(filters, s1, calls) == []
  {
    var s2 := Step(s1, c1);
    Unrolled(filters, Step(s2, c2), c3, []);
    Unrolled(filters, s2, c2, [c3] + []);
    Unrolled(filters, s1, c1, [c2] + ([c3] + []));
  }

  lemma DetourHidesWrite(git: Name, f: Name, b: Name, s: State)
    requires StaleEntry(git, b, s)
    ensures var create, unlink, write := Call(Create(3, f, 0, 6), true, true), Call(Unlink(3, f), true, true),
                                         Call(Write(6, 1, 0, [1], 1), true, true);
            var calls := [create] + ([unlink] + ([write] + []));
            && Runs(s, calls) && Reduced([git], s, calls) == [write] + [] && Stream([git], s, calls) == []
            && Emissions([git], s, write.req) == [FileWrite([b], 0, [1])]
  {
    var create, unlink, write := Call(Create(3, f, 0, 6), true, true), Call(Unlink(3, f), true, true),
                                 Call(Write(6, 1, 0, [1], 1), true, true);
    DetourForgets(git, f, b, s);
    UnknownWriteEmits([git], Step(Step(s, create), unlink), 6);
    assert !IsIgnored([git], [b]);
    WriteEmits([git], s, 6, [b]);
    DetourIsSilent([git], s, create, unlink, write);
  }

  lemma DetourMakesTheDifference(filters: seq<Name>, s: State, s1: State, first: Call, detour: seq<Call>, last: Call,
                                 ops: seq<Operation>, more: seq<Operation>)
    requires s1 == Step(s, first) && FreshInode(s, first.req) && !Hidden(filters, s, first.req)
    requires Emissions(filters, s, first.req) == ops
    requires Runs(s1, detour) && Reduced(filters, s1, detour) == [last] + [] && Stream(filters, s1, detour) == []
    requires !last.req.Create? && !last.req.Mkdir? && Emissions(filters, s1, last.req) == more
    ensures var calls := [first] + detour;
            && Runs(s, calls) && Runs(s, Reduced(filters, s, calls))
            && Stream(filters, s, calls) == ops && Stream(filters, s, Reduced(filters, s, calls)) == ops + more
  {
    Unrolled(filters, s, first, detour);
    Unrolled(filters, s, first, [last] + []);
    Unrolled(filters, s1, last, []);
    assert ops + [] == ops && more + [] == more;
  }

  // One visible file is renamed over another; the inode this frees is reused for a file
  // under the ignored directory, which is removed again, and then written to. Without
  // the requests about that file the write is taken for one to the overwritten file.
  lemma ReusedUnderIgnored(git: Name, f: Name, a: Name, b: Name, s: State)
    requires TwoFiles(git, a, b, s)
    ensures var calls := [Call(Rename(1, a, 1, b), true, true)] + ([Call(Create(3, f, 0, 6), true, true)] +
                         ([Call(Unlink(3, f), true, true)] + ([Call(Write(6, 1, 0, [1], 1), true, true)] + [])));
            && Good(s) && Runs(s, calls) && Runs(s, Reduced([git], s, calls))
            && Stream([git], s, calls) == [FileRename([a], [b])]
            && Stream([git], s, Reduced([git], s, calls)) == [FileRename([a], [b])] + [FileWrite([b], 0, [1])]
  {
    var move, create, unlink, write := Call(Rename(1, a, 1, b), true, true), Call(Create(3, f, 0, 6), true, true),
                                       Call(Unlink(3, f), true, true), Call(Write(6, 1, 0, [1], 1), true, true);
    TwoFilesAreGood(git, a, b, s);
    OverwritingLeavesStale(git, a, b, s);
    OverwritingIsCaptured(git, a, b, s);
    DetourHidesWrite(git, f, b, Step(s, move));
    DetourMakesTheDifference([git], s, Step(s, move), move, [create] + ([unlink] + ([write] + [])), write,
                             [FileRename([a], [b])], [FileWrite([b], 0, [1])]);
  }

  // ---- Whatever can do harm does it in some run ----

  function WriteTo(ino: Ino): Call {
    Call(Write(ino, 1, 0, [1], 1), true, true)
  }

  lemma WriteTells(filters: seq<Name>, s: State, ino: Ino)
    ensures var v := KnownAs(filters, s.known, ino);
            Stream(filters, s, [WriteTo(ino)]) == if v.Some? then [FileWrite(v.value, 0, [1])] else []
    ensures Orderly(filters, s, [WriteTo(ino)])
  {
    assert [WriteTo(ino)][1..] == [];
  }

  lemma LookupThenWrite(filters: seq<Name>, s: State, lookup: Call, ino: Ino)
    requires lookup.req.Lookup?
    ensures Stream(filters, s, [lookup, WriteTo(ino)]) == Stream(filters, Step(s, lookup), [WriteTo(ino)])
    ensures Orderly(filters, s, [lookup, WriteTo(ino)])
  {
    assert [lookup, WriteTo(ino)][1..] == [WriteTo(ino)];
    WriteTells(filters, Step(s, lookup), ino);
  }

  // A rename out of an ignored directory: the inode becomes known by a visible path.
  lemma MovedOutShows(filters: seq<Name>, s: State, call: Call, src: Path, dst: Path)
    requires Apart(filters, s) && call.req.Rename? && Done(s, call)
    requires Target(s.known, call.req) == Some(src) && Destination(s.known, call.req) == Some(dst)
    requires IsIgnored(filters, src) && !IsIgnored(filters, dst)
    ensures var ino := s.tree[src].ino;
            KnownAs(filters, s.known, ino).None? && KnownAs(filters, Step(s, call).known, ino).Some?
  {
    RenameStepIs(s, call, src, dst);
    IgnoredIsUnknown(filters, s, src);
  }

  // A rename into one: the inode is no longer, and looking up its name does not help.
  lemma MovedInShows(filters: seq<Name>, s: State, call: Call, src: Path, dst: Path, lookup: Call)
    requires Apart(filters, s) && call.req.Rename? && Done(s, call)
    requires Target(s.known, call.req) == Some(src) && Destination(s.known, call.req) == Some(dst)
    requires !IsIgnored(filters, src) && IsIgnored(filters, dst)
    requires lookup == Call(Lookup(call.req.parent, call.req.name), true, true)
    ensures var ino := s.tree[src].ino;
            && KnownAs(filters, Step(s, lookup).known, ino).Some?
            && KnownAs(filters, Step(Step(s, call), lookup).known, ino).None?
  {
    var ino := s.tree[src].ino;
    RenameStepIs(s, call, src, dst);
    SourceIsGone(s.tree, src, dst);
    LookupStaysIgnored(filters, Step(s, call), lookup, src, dst, ino);
  }

  lemma SourceIsGone(tree: Names.Tree, src: Path, dst: Path)
    requires WellFormed(tree) && CanRename(tree, src, dst) && src != dst
    ensures src !in Renamed(tree, src, dst) && tree[src].ino != FUSE_ROOT_ID
  {
    RenamedAt(tree, src, dst, src);
  }

  lemma LookupStaysIgnored(filters: seq<Name>, s1: State, lookup: Call, src: Path, dst: Path, ino: Ino)
    requires lookup.req.Lookup? && lookup.granted && src !in s1.tree && IsIgnored(filters, dst)
    requires ino in s1.known && s1.known[ino] == dst && ino != FUSE_ROOT_ID
    requires lookup.req.parent != ino ==> Target(s1.known, lookup.req) == Some(src)
    ensures KnownAs(filters, Step(s1, lookup).known, ino).None?
  {
    if lookup.req.parent == ino {
      ChildOfIgnored(filters, dst, [lookup.req.name]);
    }
  }

  // A new ignored file whose inode is known by a visible path: the path is forgotten at
  // once, or when the file is looked up.
  lemma ReuseShowsLater(filters: seq<Name>, s: State, call: Call, lookup: Call)
    requires Apart(filters, s) && FreshInode(s, call.req) && Done(s, call) && Reuses(filters, s, call.req)
    requires lookup == Call(Lookup(call.req.parent, call.req.name), true, true)
    ensures KnownAs(filters, Step(s, lookup).known, call.req.newIno).Some?
    ensures KnownAs(filters, Step(Step(s, call), lookup).known, call.req.newIno).None?
  {
    var p, s1 := Target(s.known, call.req).value, Step(s, call);
    assert Target(s.known, lookup.req) == Some(p) && Step(s, lookup) == s;
    assert s1.tree == s.tree[p := s1.tree[p]] && s1.tree[p].ino == call.req.newIno;
    assert s1.known == if call.finishes then s.known[call.req.newIno := p] else s.known;
    LookupOfIgnored(filters, s1, lookup, p, call.req.newIno);
  }

  lemma LookupOfIgnored(filters: seq<Name>, s1: State, lookup: Call, p: Path, ino: Ino)
    requires lookup.req.Lookup? && lookup.granted && ino != FUSE_ROOT_ID
    requires p in s1.tree && s1.tree[p].ino == ino && IsIgnored(filters, p)
    requires Target(s1.known, lookup.req) == Some(p) || (Resolve(s1.known, ino) == Some(p) && lookup.req.parent == ino)
    ensures KnownAs(filters, Step(s1, lookup).known, ino).None?
  {
    if Target(s1.known, lookup.req) != Some(p) {
      ChildOfIgnored(filters, p, [lookup.req.name]);
    }
  }

  // What can do harm shows in the operations of some run that goes on from there, and in
  // one of at most two requests.
  lemma HarmShowsLater(filters: seq<Name>, s: State, call: Call) returns (later: seq<Call>)
    requires Apart(filters, s) && FreshInode(s, call.req) && Spoils(filters, s, call)
    ensures Orderly(filters, s, later) && Orderly(filters, Step(s, call), later)
    ensures Stream(filters, s, later) != Stream(filters, Step(s, call), later)
  {
    var s1, src := Step(s, call), Target(s.known, call.req).value;
    var lookup := Call(Lookup(call.req.parent, call.req.name), true, true);
    if call.req.Rename? && IsIgnored(filters, src) {
      var ino := s.tree[src].ino;
      MovedOutShows(filters, s, call, src, Destination(s.known, call.req).value);
      WriteTells(filters, s, ino);
      WriteTells(filters, s1, ino);
      later := [WriteTo(ino)];
    } else {
      var ino := if call.req.Rename? then s.tree[src].ino else call.req.newIno;
      if call.req.Rename? {
        MovedInShows(filters, s, call, src, Destination(s.known, call.req).value, lookup);
      } else {
        ReuseShowsLater(filters, s, call, lookup);
      }
      LookupThenWrite(filters, s, lookup, ino);
      LookupThenWrite(filters, s1, lookup, ino);
      WriteTells(filters, Step(s, lookup), ino);
      WriteTells(filters, Step(s1, lookup), ino);
      later := [lookup, WriteTo(ino)];
    }
  }

  // So the requests under an ignored directory, the renames that cross its border and the
  // requests that are not carried out can do harm exactly when some orderly run that goes
  // on from there emits other operations than it would have without them.
  lemma ShowsLaterIff(filters: seq<Name>, s: State, call: Call)
    requires Apart(filters, s) && FreshInode(s, call.req)
    requires Hidden(filters, s, call.req) || Crossing(filters, s, call.req) || !Done(s, call)
    ensures Spoils(filters, s, call) <==>
            exists later :: Orderly(filters, s, later) && Orderly(filters, Step(s, call), later) &&
              Stream(filters, s, later) != Stream(filters, Step(s, call), later)
  {
    if Spoils(filters, s, call) {
      var later := HarmShowsLater(filters, s, call);
    } else {
      UnseenIff(filters, s, call);
      forall later | Orderly(filters, s, later) && Orderly(filters, Step(s, call), later)
        ensures Stream(filters, s, later) == Stream(filters, Step(s, call), later)
      {
        AlikeFromHereOn(filters, s, Step(s, call), later);
      }
    }
  }
}
