// What happens under an ignored directory cannot be noticed in the opcode stream.
module NonInterference {
  import opened Wrappers
  import opened Opcodes
  import opened Recorder
  import opened Names

  // What can do harm: a rename into an ignored directory or out of one, and a file made
  // under one whose inode the map still knows by the visible path of an earlier file.
  ghost predicate Spoils(filters: seq<Name>, s: State, call: Call) {
    Done(s, call) && (Crossing(filters, s, call.req) || Reuses(filters, s, call.req))
  }

  // Every path the request resolves to, and there is one, is ignored.
  ghost predicate Hidden(filters: seq<Name>, s: State, req: Request) {
    var p, q := Target(s.known, req), Destination(s.known, req);
    && (p.Some? || q.Some?)
    && (p.Some? ==> IsIgnored(filters, p.value))
    && (q.Some? ==> IsIgnored(filters, q.value))
  }

  // A rename into an ignored directory, or out of one.
  ghost predicate Crossing(filters: seq<Name>, s: State, req: Request) {
    var p, q := Target(s.known, req), Destination(s.known, req);
    p.Some? && q.Some? && IsIgnored(filters, p.value) != IsIgnored(filters, q.value)
  }

  ghost function Stream(filters: seq<Name>, s: State, calls: seq<Call>): seq<Operation>
    decreases |calls|
  {
    if calls == [] then []
    else Emissions(filters, s, calls[0].req) + Stream(filters, Step(s, calls[0]), calls[1..])
  }

  // The run without the requests that act under an ignored directory.
  ghost function Reduced(filters: seq<Name>, s: State, calls: seq<Call>): seq<Call>
    decreases |calls|
  {
    if calls == [] then []
    else (if Hidden(filters, s, calls[0].req) then [] else [calls[0]]) +
         Reduced(filters, Step(s, calls[0]), calls[1..])
  }

  // ---- What can be seen ----

  function EntryAt(tree: Names.Tree, p: Path): Option<Entry> {
    if p in tree then Some(tree[p]) else None
  }

  // The visible path the map gives an inode, if any.
  function KnownAs(filters: seq<Name>, known: map<Ino, Path>, ino: Ino): Option<Path> {
    if ino in known && !IsIgnored(filters, known[ino]) then Some(known[ino]) else None
  }

  ghost predicate SameEntries(filters: seq<Name>, tree: Names.Tree, tree1: Names.Tree) {
    forall p | p != [] && !IsIgnored(filters, p) :: EntryAt(tree, p) == EntryAt(tree1, p)
  }

  ghost predicate SameKnown(filters: seq<Name>, known: map<Ino, Path>, known1: map<Ino, Path>) {
    forall ino :: KnownAs(filters, known, ino) == KnownAs(filters, known1, ino)
  }

  ghost predicate SameView(filters: seq<Name>, s: State, t: State) {
    SameEntries(filters, s.tree, t.tree) && SameKnown(filters, s.known, t.known)
  }

  // No inode with an ignored name is known by a visible path. Otherwise the map may be as
  // wrong as it likes: an overwritten or unlinked file may still be known.
  ghost predicate Apart(filters: seq<Name>, s: State) {
    && WellFormed(s.tree)
    && Resolve(s.known, FUSE_ROOT_ID) == Some([])
    && (forall p | p in s.tree && IsIgnored(filters, p) :: KnownAs(filters, s.known, s.tree[p].ino).None?)
  }

  lemma GoodIsApart(filters: seq<Name>, s: State)
    requires Good(s)
    ensures Apart(filters, s)
  {
    forall p | p in s.tree && IsIgnored(filters, p) ensures KnownAs(filters, s.known, s.tree[p].ino).None? {
      var ino := s.tree[p].ino;
      if ino in s.known && ino != FUSE_ROOT_ID {
        assert Right(s, ino);
        assert s.known[ino] == p;
      }
    }
  }

  lemma SymmetricView(filters: seq<Name>, s: State, t: State)
    requires SameView(filters, s, t)
    ensures SameView(filters, t, s)
  {
    forall p | p != [] && !IsIgnored(filters, p) ensures EntryAt(t.tree, p) == EntryAt(s.tree, p) {
      assert EntryAt(s.tree, p) == EntryAt(t.tree, p);
    }
    forall ino ensures KnownAs(filters, t.known, ino) == KnownAs(filters, s.known, ino) {
      assert KnownAs(filters, s.known, ino) == KnownAs(filters, t.known, ino);
    }
  }

  lemma ViewThrough(filters: seq<Name>, s: State, t: State, u: State)
    requires SameView(filters, s, t) && SameView(filters, t, u)
    ensures SameView(filters, s, u)
  {
    forall p | p != [] && !IsIgnored(filters, p) ensures EntryAt(s.tree, p) == EntryAt(u.tree, p) {
      assert EntryAt(s.tree, p) == EntryAt(t.tree, p) && EntryAt(t.tree, p) == EntryAt(u.tree, p);
    }
    forall ino ensures KnownAs(filters, s.known, ino) == KnownAs(filters, u.known, ino) {
      assert KnownAs(filters, s.known, ino) == KnownAs(filters, t.known, ino);
      assert KnownAs(filters, t.known, ino) == KnownAs(filters, u.known, ino);
    }
  }

  // ---- Changes that cannot be seen ----

  // The inode of an ignored name is not known by a visible one.
  lemma IgnoredIsUnknown(filters: seq<Name>, s: State, p: Path)
    requires Apart(filters, s) && p in s.tree && IsIgnored(filters, p)
    ensures s.tree[p].ino != FUSE_ROOT_ID && KnownAs(filters, s.known, s.tree[p].ino).None?
  {
  }

  // Ignored names come and go, or change places; but for one inode it is those there were.
  ghost predicate IgnoredFrom(filters: seq<Name>, tree: Names.Tree, tree1: Names.Tree, ino: Ino) {
    forall p | p in tree1 && IsIgnored(filters, p) :: tree1[p].ino == ino || HasIgnored(filters, tree, tree1[p].ino)
  }

  ghost predicate HasIgnored(filters: seq<Name>, tree: Names.Tree, ino: Ino) {
    exists p :: p in tree && IsIgnored(filters, p) && tree[p].ino == ino
  }

  lemma HiddenChange(filters: seq<Name>, s: State, s1: State, ino: Ino)
    requires Apart(filters, s) && WellFormed(s1.tree) && SameEntries(filters, s.tree, s1.tree)
    requires IgnoredFrom(filters, s.tree, s1.tree, ino)
    requires ino != FUSE_ROOT_ID && KnownAs(filters, s.known, ino).None? && KnownAs(filters, s1.known, ino).None?
    requires s1.known - {ino} == s.known - {ino}
    ensures SameView(filters, s, s1) && Apart(filters, s1)
  {
    forall i ensures KnownAs(filters, s.known, i) == KnownAs(filters, s1.known, i) {
      if i != ino {
        KnownElsewhere(s.known, s1.known, ino, i);
      }
    }
    KnownElsewhere(s.known, s1.known, ino, FUSE_ROOT_ID);
    forall p | p in s1.tree && IsIgnored(filters, p) ensures KnownAs(filters, s1.known, s1.tree[p].ino).None? {
      var i := s1.tree[p].ino;
      assert KnownAs(filters, s.known, i) == KnownAs(filters, s1.known, i);
    }
  }

  lemma KnownElsewhere(known: map<Ino, Path>, known1: map<Ino, Path>, ino: Ino, i: Ino)
    requires known1 - {ino} == known - {ino} && i != ino
    ensures Resolve(known1, i) == Resolve(known, i)
  {
    assert i in known <==> i in known - {ino};
    assert i in known1 <==> i in known1 - {ino};
    assert i in known ==> (known - {ino})[i] == (known1 - {ino})[i];
  }

  lemma IgnoredAddition(filters: seq<Name>, tree: Names.Tree, p: Path, e: Entry)
    requires IsIgnored(filters, p)
    ensures SameEntries(filters, tree, tree[p := e]) && SameEntries(filters, tree, tree - {p})
    ensures IgnoredFrom(filters, tree, tree[p := e], e.ino)
    ensures IgnoredFrom(filters, tree, tree - {p}, e.ino) && IgnoredFrom(filters, tree, tree, e.ino)
  {
  }

  lemma ChildOfIgnored(filters: seq<Name>, p: Path, q: Path)
    requires IsIgnored(filters, p)
    ensures IsIgnored(filters, p + q)
  {
    IgnoredAtAnyDepth(filters, p, q);
  }

  lemma HiddenReaddirIsUnseen(filters: seq<Name>, s: State, p: Path, listing: seq<Name>)
    requires Apart(filters, s) && IsIgnored(filters, p)
    ensures var s1 := State(s.tree, Registered(s.known, s.tree, p, listing));
            SameView(filters, s, s1) && Apart(filters, s1)
  {
    var s1 := State(s.tree, Registered(s.known, s.tree, p, listing));
    forall ino
      ensures KnownAs(filters, s.known, ino) == KnownAs(filters, s1.known, ino)
      ensures ino == FUSE_ROOT_ID ==> Resolve(s1.known, ino) == Some([])
    {
      RegisteredEntries(s.known, s.tree, p, listing, ino);
      if i :| 0 <= i < |listing| && p + [listing[i]] in s.tree && s.tree[p + [listing[i]]].ino == ino {
        ChildOfIgnored(filters, p, [listing[i]]);
        IgnoredIsUnknown(filters, s, p + [listing[i]]);
        forall j | 0 <= j < |listing| ensures IsIgnored(filters, p + [listing[j]]) {
          ChildOfIgnored(filters, p, [listing[j]]);
        }
      }
    }
  }

  // A new ignored file that gets an inode number the map still knows by a visible path.
  ghost predicate Reuses(filters: seq<Name>, s: State, req: Request) {
    (req.Create? || req.Mkdir?) && Hidden(filters, s, req) && KnownAs(filters, s.known, req.newIno).Some?
  }

  lemma HiddenStepIsUnseen(filters: seq<Name>, s: State, call: Call)
    requires Apart(filters, s) && FreshInode(s, call.req) && !call.req.Rename? && Hidden(filters, s, call.req)
    requires Done(s, call) ==> !Reuses(filters, s, call.req)
    ensures SameView(filters, s, Step(s, call)) && Apart(filters, Step(s, call))
  {
    if Done(s, call) {
      var p := Target(s.known, call.req).value;
      StepKeepsTree(s, call);
      match call.req
      case Readdir(_, listing) => HiddenReaddirIsUnseen(filters, s, p, listing);
      case Create(_, _, _, newIno) =>
        IgnoredAddition(filters, s.tree, p, Entry(newIno, false));
        HiddenChange(filters, s, Step(s, call), newIno);
      case Mkdir(_, _, _, newIno) =>
        IgnoredAddition(filters, s.tree, p, Entry(newIno, true));
        HiddenChange(filters, s, Step(s, call), newIno);
      case Lookup(_, _) =>
        IgnoredAddition(filters, s.tree, p, s.tree[p]);
        HiddenChange(filters, s, Step(s, call), s.tree[p].ino);
      case Unlink(_, _) =>
        IgnoredAddition(filters, s.tree, p, s.tree[p]);
        HiddenChange(filters, s, Step(s, call), s.tree[p].ino);
      case Rmdir(_, _) =>
        IgnoredAddition(filters, s.tree, p, s.tree[p]);
        HiddenChange(filters, s, Step(s, call), s.tree[p].ino);
      case _ =>
    }
  }

  lemma NotUnderIgnored(filters: seq<Name>, d: Path, q: Path)
    requires IsIgnored(filters, d) && !IsIgnored(filters, q)
    ensures !AtOrBelow(q, d)
  {
  }

  lemma RenamedOutOfSight(filters: seq<Name>, s: State, src: Path, dst: Path)
    requires Apart(filters, s) && CanRename(s.tree, src, dst)
    requires IsIgnored(filters, src) && IsIgnored(filters, dst)
    ensures var s1 := State(Renamed(s.tree, src, dst), s.known[s.tree[src].ino := dst]);
            SameView(filters, s, s1) && Apart(filters, s1)
  {
    var s1 := State(Renamed(s.tree, src, dst), s.known[s.tree[src].ino := dst]);
    IgnoredIsUnknown(filters, s, src);
    RenameKeepsTree(s.tree, src, dst);
    RenamedUnderIgnored(filters, s.tree, src, dst);
    HiddenChange(filters, s, s1, s.tree[src].ino);
  }

  // Both names ignored: the rename cannot be seen, whatever it makes wrong in the map.
  lemma HiddenRenameIsUnseen(filters: seq<Name>, s: State, call: Call)
    requires Apart(filters, s) && call.req.Rename? && Hidden(filters, s, call.req)
    ensures SameView(filters, s, Step(s, call)) && Apart(filters, Step(s, call))
  {
    if Done(s, call) {
      var src, dst := Target(s.known, call.req).value, Destination(s.known, call.req).value;
      RenameStepIs(s, call, src, dst);
      RenamedOutOfSight(filters, s, src, dst);
    }
  }

  lemma RenamedUnderIgnored(filters: seq<Name>, tree: Names.Tree, src: Path, dst: Path)
    requires WellFormed(tree) && CanRename(tree, src, dst) && IsIgnored(filters, src) && IsIgnored(filters, dst)
    ensures SameEntries(filters, tree, Renamed(tree, src, dst))
    ensures IgnoredFrom(filters, tree, Renamed(tree, src, dst), tree[src].ino)
  {
    if src != dst {
      forall q | q != [] && !IsIgnored(filters, q) ensures EntryAt(tree, q) == EntryAt(Renamed(tree, src, dst), q) {
        NotUnderIgnored(filters, src, q);
        NotUnderIgnored(filters, dst, q);
        RenamedAt(tree, src, dst, q);
      }
      forall q | q in Renamed(tree, src, dst) && IsIgnored(filters, q)
        ensures HasIgnored(filters, tree, Renamed(tree, src, dst)[q].ino)
      {
        OriginIsIgnored(filters, tree, src, dst, q);
      }
    }
  }

  lemma OriginIsIgnored(filters: seq<Name>, tree: Names.Tree, src: Path, dst: Path, q: Path)
    requires WellFormed(tree) && CanRename(tree, src, dst) && src != dst && IsIgnored(filters, src)
    requires q in Renamed(tree, src, dst) && IsIgnored(filters, q)
    ensures HasIgnored(filters, tree, Renamed(tree, src, dst)[q].ino)
  {
    RenamedFrom(tree, src, dst, q);
    RenamedAt(tree, src, dst, q);
    var o := Origin(src, dst, q);
    if AtOrBelow(o, src) {
      assert o == src + o[|src|..];
      ChildOfIgnored(filters, src, o[|src|..]);
    }
    assert o in tree && IsIgnored(filters, o) && tree[o].ino == Renamed(tree, src, dst)[q].ino;
  }

  // ---- Two states alike outside the ignored directories ----

  lemma ResolveAlike(filters: seq<Name>, s: State, t: State, ino: Ino, p: Path)
    requires SameView(filters, s, t) && !IsIgnored(filters, p) && Resolve(s.known, ino) == Some(p)
    ensures Resolve(t.known, ino) == Some(p)
  {
    assert KnownAs(filters, s.known, ino) == KnownAs(filters, t.known, ino);
  }

  lemma ChildAlike(filters: seq<Name>, s: State, t: State, parent: Ino, name: Name, p: Path)
    requires SameView(filters, s, t) && !IsIgnored(filters, p) && Child(s.known, parent, name) == Some(p)
    ensures Child(t.known, parent, name) == Some(p)
  {
    if parent != FUSE_ROOT_ID {
      var up := s.known[parent];
      assert p == up + [name];
      if IsIgnored(filters, up) {
        ChildOfIgnored(filters, up, [name]);
      } else {
        ResolveAlike(filters, s, t, parent, up);
      }
    }
  }

  lemma TargetAlike(filters: seq<Name>, s: State, t: State, req: Request, p: Path)
    requires SameView(filters, s, t) && !IsIgnored(filters, p) && Target(s.known, req) == Some(p)
    ensures Target(t.known, req) == Some(p)
  {
    match req
    case Readdir(ino, _) => ResolveAlike(filters, s, t, ino, p);
    case Write(ino, _, _, _, _) => ResolveAlike(filters, s, t, ino, p);
    case Setattr(ino, _, _, _, _, _) => ResolveAlike(filters, s, t, ino, p);
    case Open(ino, _, _, _) => ResolveAlike(filters, s, t, ino, p);
    case Release(_) =>
    case _ => ChildAlike(filters, s, t, req.parent, req.name, p);
  }

  lemma DestinationAlike(filters: seq<Name>, s: State, t: State, req: Request, q: Path)
    requires SameView(filters, s, t) && !IsIgnored(filters, q) && Destination(s.known, req) == Some(q)
    ensures Destination(t.known, req) == Some(q)
  {
    ChildAlike(filters, s, t, req.newParent, req.newName, q);
  }

  lemma EntryAlike(filters: seq<Name>, s: State, t: State, p: Path)
    requires SameView(filters, s, t) && !IsIgnored(filters, p) && p != []
    ensures p in s.tree <==> p in t.tree
    ensures p in s.tree ==> s.tree[p] == t.tree[p]
  {
    assert EntryAt(s.tree, p) == EntryAt(t.tree, p);
  }

  lemma DirAlike(filters: seq<Name>, s: State, t: State, p: Path)
    requires WellFormed(s.tree) && WellFormed(t.tree) && SameView(filters, s, t) && !IsIgnored(filters, p)
    ensures IsDir(s.tree, p) <==> IsDir(t.tree, p)
  {
    if p != [] {
      EntryAlike(filters, s, t, p);
    }
  }

  lemma ParentIsVisible(filters: seq<Name>, p: Path)
    requires p != [] && !IsIgnored(filters, p)
    ensures !IsIgnored(filters, Parent(p))
  {
    if Parent(p) != [] {
      IgnoredAtAnyDepth(filters, Parent(p), p[|p| - 1..]);
      assert Parent(p) + p[|p| - 1..] == p;
    }
  }

  lemma BelowIsVisible(filters: seq<Name>, p: Path, q: Path)
    requires p != [] && !IsIgnored(filters, p) && AtOrBelow(q, p)
    ensures q != [] && !IsIgnored(filters, q)
  {
    assert q == p + q[|p|..];
    IgnoredAtAnyDepth(filters, p, q[|p|..]);
  }

  lemma ChildlessAlike(filters: seq<Name>, s: State, t: State, p: Path)
    requires SameView(filters, s, t) && !IsIgnored(filters, p) && p != [] && Childless(s.tree, p)
    ensures Childless(t.tree, p)
  {
    forall q | q in t.tree && AtOrBelow(q, p) ensures !Below(q, p) {
      BelowIsVisible(filters, p, q);
      EntryAlike(filters, s, t, q);
    }
  }

  lemma NewEntryAlike(filters: seq<Name>, s: State, t: State, p: Path)
    requires WellFormed(s.tree) && WellFormed(t.tree) && SameView(filters, s, t) && !IsIgnored(filters, p) && p != []
    ensures p in s.tree <==> p in t.tree
    ensures IsDir(s.tree, Parent(p)) <==> IsDir(t.tree, Parent(p))
  {
    EntryAlike(filters, s, t, p);
    ParentIsVisible(filters, p);
    DirAlike(filters, s, t, Parent(p));
  }

  lemma PossibleAlike(filters: seq<Name>, s: State, t: State, req: Request, p: Path)
    requires WellFormed(s.tree) && WellFormed(t.tree) && SameView(filters, s, t)
    requires !IsIgnored(filters, p) && !req.Rename?
    requires p == [] ==> req.Readdir? || req.Write? || req.Setattr? || req.Open?
    requires Possible(s, req, p)
    ensures Possible(t, req, p)
  {
    match req
    case Readdir(_, _) => DirAlike(filters, s, t, p);
    case Lookup(_, _) => EntryAlike(filters, s, t, p);
    case Unlink(_, _) => EntryAlike(filters, s, t, p);
    case Create(_, _, _, _) => NewEntryAlike(filters, s, t, p);
    case Mkdir(_, _, _, _) => NewEntryAlike(filters, s, t, p);
    case Rmdir(_, _) =>
      DirAlike(filters, s, t, p);
      ChildlessAlike(filters, s, t, p);
    case _ =>
  }

  lemma DoneAlike(filters: seq<Name>, s: State, t: State, call: Call, p: Path)
    requires WellFormed(s.tree) && WellFormed(t.tree) && SameView(filters, s, t)
    requires !IsIgnored(filters, p) && !call.req.Rename? && Target(s.known, call.req) == Some(p)
    ensures Target(t.known, call.req) == Some(p)
    ensures Done(s, call) <==> Done(t, call)
  {
    TargetAlike(filters, s, t, call.req, p);
    SymmetricView(filters, s, t);
    if Done(s, call) {
      PossibleAlike(filters, s, t, call.req, p);
    }
    if Done(t, call) {
      PossibleAlike(filters, t, s, call.req, p);
    }
  }

  // ---- One visible change, in two states alike ----

  // The map learns a visible path for an inode, or forgets the inode.
  lemma KnownAlike(filters: seq<Name>, s: State, t: State, ino: Ino, p: Option<Path>)
    requires SameKnown(filters, s.known, t.known) && (p.Some? ==> !IsIgnored(filters, p.value))
    ensures SameKnown(filters, Learnt(s.known, ino, p), Learnt(t.known, ino, p))
  {
    forall i ensures KnownAs(filters, Learnt(s.known, ino, p), i) == KnownAs(filters, Learnt(t.known, ino, p), i) {
      assert KnownAs(filters, s.known, i) == KnownAs(filters, t.known, i);
    }
  }

  function Learnt(known: map<Ino, Path>, ino: Ino, p: Option<Path>): map<Ino, Path> {
    if p.Some? then known[ino := p.value] else known - {ino}
  }

  // A visible entry comes or goes.
  lemma EntriesAlike(filters: seq<Name>, tree: Names.Tree, tree1: Names.Tree, p: Path, e: Entry)
    requires SameEntries(filters, tree, tree1)
    ensures SameEntries(filters, tree[p := e], tree1[p := e]) && SameEntries(filters, tree - {p}, tree1 - {p})
  {
    forall q | q != [] && !IsIgnored(filters, q)
      ensures EntryAt(tree[p := e], q) == EntryAt(tree1[p := e], q)
      ensures EntryAt(tree - {p}, q) == EntryAt(tree1 - {p}, q)
    {
      assert EntryAt(tree, q) == EntryAt(tree1, q);
    }
  }

  lemma LearningKeepsApart(filters: seq<Name>, s: State, s1: State, ino: Ino, p: Path)
    requires Apart(filters, s) && WellFormed(s1.tree) && ino != FUSE_ROOT_ID
    requires p != [] && !IsIgnored(filters, p) && p in s1.tree && s1.tree[p].ino == ino
    requires s1.known == s.known || s1.known == s.known[ino := p]
    requires forall q | q in s1.tree && q != p :: q in s.tree && s1.tree[q] == s.tree[q]
    ensures Apart(filters, s1)
  {
    forall q | q in s1.tree && IsIgnored(filters, q) ensures KnownAs(filters, s1.known, s1.tree[q].ino).None? {
      assert s1.tree[q] == s.tree[q] && s1.tree[q].ino != ino;
    }
  }

  lemma ForgettingKeepsApart(filters: seq<Name>, s: State, p: Path)
    requires Apart(filters, s) && p in s.tree && p != [] && WellFormed(s.tree - {p})
    ensures Apart(filters, State(s.tree - {p}, s.known - {s.tree[p].ino}))
  {
    assert s.tree[p].ino != FUSE_ROOT_ID;
  }

  // Listing a visible directory: what becomes known of an inode follows from what can be
  // seen, ignored entries of the root notwithstanding.
  ghost predicate Listed(filters: seq<Name>, tree: Names.Tree, p: Path, listing: seq<Name>, ino: Ino) {
    exists i :: 0 <= i < |listing| && p + [listing[i]] in tree && tree[p + [listing[i]]].ino == ino &&
      !IsIgnored(filters, p + [listing[i]])
  }

  lemma ReaddirSeen(filters: seq<Name>, s: State, p: Path, listing: seq<Name>, ino: Ino)
    requires Apart(filters, s)
    ensures var known := Registered(s.known, s.tree, p, listing);
            && (!Listed(filters, s.tree, p, listing, ino) ==>
                  KnownAs(filters, known, ino) == KnownAs(filters, s.known, ino))
            && (Listed(filters, s.tree, p, listing, ino) ==>
                  KnownAs(filters, known, ino).Some? && KnownAs(filters, known, ino).value in s.tree &&
                  s.tree[KnownAs(filters, known, ino).value].ino == ino)
  {
    RegisteredEntries(s.known, s.tree, p, listing, ino);
    var known := Registered(s.known, s.tree, p, listing);
    if Listed(filters, s.tree, p, listing, ino) {
      var i :| 0 <= i < |listing| && p + [listing[i]] in s.tree && s.tree[p + [listing[i]]].ino == ino &&
               !IsIgnored(filters, p + [listing[i]]);
      assert ino in known;
      assert known[ino] == p + [listing[i]];
    } else if i :| 0 <= i < |listing| && p + [listing[i]] in s.tree && s.tree[p + [listing[i]]].ino == ino {
      assert IsIgnored(filters, p + [listing[i]]);
      IgnoredIsUnknown(filters, s, p + [listing[i]]);
      assert known[ino] == p + [listing[i]];
    }
  }

  lemma ListedAlike(filters: seq<Name>, s: State, t: State, p: Path, listing: seq<Name>, ino: Ino)
    requires SameView(filters, s, t) && Listed(filters, s.tree, p, listing, ino)
    ensures Listed(filters, t.tree, p, listing, ino)
  {
    var i :| 0 <= i < |listing| && p + [listing[i]] in s.tree && s.tree[p + [listing[i]]].ino == ino &&
             !IsIgnored(filters, p + [listing[i]]);
    EntryAlike(filters, s, t, p + [listing[i]]);
  }

  lemma ReaddirAlike(filters: seq<Name>, s: State, t: State, p: Path, listing: seq<Name>)
    requires Apart(filters, s) && Apart(filters, t) && SameView(filters, s, t)
    ensures SameKnown(filters, Registered(s.known, s.tree, p, listing), Registered(t.known, t.tree, p, listing))
  {
    forall ino
      ensures KnownAs(filters, Registered(s.known, s.tree, p, listing), ino) ==
              KnownAs(filters, Registered(t.known, t.tree, p, listing), ino)
    {
      ReaddirSeen(filters, s, p, listing, ino);
      ReaddirSeen(filters, t, p, listing, ino);
      if Listed(filters, s.tree, p, listing, ino) {
        ListedAlike(filters, s, t, p, listing, ino);
        var q := KnownAs(filters, Registered(s.known, s.tree, p, listing), ino).value;
        if q != [] {
          EntryAlike(filters, s, t, q);
        }
      } else if Listed(filters, t.tree, p, listing, ino) {
        SymmetricView(filters, s, t);
        ListedAlike(filters, t, s, p, listing, ino);
      }
      assert KnownAs(filters, s.known, ino) == KnownAs(filters, t.known, ino);
    }
  }

  lemma ReaddirKeepsApart(filters: seq<Name>, s: State, p: Path, listing: seq<Name>)
    requires Apart(filters, s)
    ensures Apart(filters, State(s.tree, Registered(s.known, s.tree, p, listing)))
  {
    var s1 := State(s.tree, Registered(s.known, s.tree, p, listing));
    RegisteredEntries(s.known, s.tree, p, listing, FUSE_ROOT_ID);
    forall q | q in s1.tree && IsIgnored(filters, q) ensures KnownAs(filters, s1.known, s1.tree[q].ino).None? {
      ReaddirSeen(filters, s, p, listing, s1.tree[q].ino);
      forall i | 0 <= i < |listing| && p + [listing[i]] in s.tree && s.tree[p + [listing[i]]].ino == s1.tree[q].ino
        ensures IsIgnored(filters, p + [listing[i]])
      {
        assert p + [listing[i]] == q;
      }
    }
  }

  lemma VisibleStepKeepsApart(filters: seq<Name>, s: State, call: Call, p: Path)
    requires Apart(filters, s) && FreshInode(s, call.req) && !call.req.Rename?
    requires Target(s.known, call.req) == Some(p) && !IsIgnored(filters, p)
    ensures Apart(filters, Step(s, call))
  {
    if Done(s, call) {
      StepKeepsTree(s, call);
      match call.req
      case Readdir(_, listing) => ReaddirKeepsApart(filters, s, p, listing);
      case Create(_, _, _, newIno) => LearningKeepsApart(filters, s, Step(s, call), newIno, p);
      case Mkdir(_, _, _, newIno) => LearningKeepsApart(filters, s, Step(s, call), newIno, p);
      case Lookup(_, _) => LearningKeepsApart(filters, s, Step(s, call), s.tree[p].ino, p);
      case Unlink(_, _) => ForgettingKeepsApart(filters, s, p);
      case Rmdir(_, _) => ForgettingKeepsApart(filters, s, p);
      case _ =>
    }
  }

  lemma VisibleStepKeepsView(filters: seq<Name>, s: State, t: State, call: Call, p: Path)
    requires Apart(filters, s) && Apart(filters, t) && SameView(filters, s, t) && !call.req.Rename?
    requires FreshInode(s, call.req) && FreshInode(t, call.req)
    requires Target(s.known, call.req) == Some(p) && !IsIgnored(filters, p)
    ensures SameView(filters, Step(s, call), Step(t, call))
  {
    DoneAlike(filters, s, t, call, p);
    if Done(s, call) {
      match call.req
      case Readdir(_, listing) => ReaddirAlike(filters, s, t, p, listing);
      case Create(_, _, _, newIno) =>
        EntriesAlike(filters, s.tree, t.tree, p, Entry(newIno, false));
        KnownAlike(filters, s, t, newIno, Some(p));
      case Mkdir(_, _, _, newIno) =>
        EntriesAlike(filters, s.tree, t.tree, p, Entry(newIno, true));
        KnownAlike(filters, s, t, newIno, Some(p));
      case Lookup(_, _) =>
        EntryAlike(filters, s, t, p);
        KnownAlike(filters, s, t, s.tree[p].ino, Some(p));
      case Unlink(_, _) => RemovalAlike(filters, s, t, p);
      case Rmdir(_, _) => RemovalAlike(filters, s, t, p);
      case _ =>
    }
  }

  lemma RemovalAlike(filters: seq<Name>, s: State, t: State, p: Path)
    requires SameView(filters, s, t) && !IsIgnored(filters, p) && p != [] && p in s.tree && p in t.tree
    ensures SameView(filters, State(s.tree - {p}, s.known - {s.tree[p].ino}),
                     State(t.tree - {p}, t.known - {t.tree[p].ino}))
  {
    EntryAlike(filters, s, t, p);
    EntriesAlike(filters, s.tree, t.tree, p, s.tree[p]);
    KnownAlike(filters, s, t, s.tree[p].ino, None);
  }

  // A request the first run keeps: either both see it act on the same visible path,
  // or neither sees it act on a visible path at all.
  lemma KeptStepKeepsView(filters: seq<Name>, s: State, t: State, call: Call)
    requires Apart(filters, s) && Apart(filters, t) && SameView(filters, s, t) && !call.req.Rename?
    requires FreshInode(s, call.req) && FreshInode(t, call.req) && !Hidden(filters, s, call.req)
    requires !Spoils(filters, t, call)
    ensures SameView(filters, Step(s, call), Step(t, call))
    ensures Apart(filters, Step(s, call)) && Apart(filters, Step(t, call))
    ensures Emissions(filters, s, call.req) == Emissions(filters, t, call.req)
  {
    var p, p' := Target(s.known, call.req), Target(t.known, call.req);
    EmissionsByTarget(filters, s, call.req);
    EmissionsByTarget(filters, t, call.req);
    SymmetricView(filters, s, t);
    if p.Some? {
      TargetAlike(filters, s, t, call.req, p.value);
      VisibleStepKeepsView(filters, s, t, call, p.value);
      VisibleStepKeepsApart(filters, s, call, p.value);
      VisibleStepKeepsApart(filters, t, call, p.value);
    } else if p'.Some? {
      if !IsIgnored(filters, p'.value) {
        TargetAlike(filters, t, s, call.req, p'.value);
      }
      HiddenStepIsUnseen(filters, t, call);
      ViewThrough(filters, s, t, Step(t, call));
    }
  }

  // ---- Renames ----

  lemma RenameEmits(filters: seq<Name>, s: State, req: Request)
    requires Resolve(s.known, FUSE_ROOT_ID) == Some([]) && req.Rename?
    ensures var src, dst := Target(s.known, req), Destination(s.known, req);
            Emissions(filters, s, req) ==
            if src.None? || dst.None? || IsIgnored(filters, src.value) || IsIgnored(filters, dst.value) then []
            else if IsDir(s.tree, src.value) then [DirRename(src.value, dst.value)]
            else [FileRename(src.value, dst.value)]
  {
  }

  lemma CanRenameAlike(filters: seq<Name>, s: State, t: State, src: Path, dst: Path)
    requires WellFormed(s.tree) && WellFormed(t.tree) && SameView(filters, s, t)
    requires !IsIgnored(filters, src) && !IsIgnored(filters, dst) && CanRename(s.tree, src, dst)
    ensures CanRename(t.tree, src, dst)
  {
    EntryAlike(filters, s, t, src);
    NewEntryAlike(filters, s, t, dst);
    if dst in s.tree && dst != src {
      EntryAlike(filters, s, t, dst);
      ChildlessAlike(filters, s, t, dst);
    }
  }

  lemma VisibleRenameAlike(filters: seq<Name>, s: State, t: State, call: Call, src: Path, dst: Path)
    requires WellFormed(s.tree) && WellFormed(t.tree) && SameView(filters, s, t) && call.req.Rename?
    requires Target(s.known, call.req) == Some(src) && Destination(s.known, call.req) == Some(dst)
    requires !IsIgnored(filters, src) && !IsIgnored(filters, dst)
    ensures Target(t.known, call.req) == Some(src) && Destination(t.known, call.req) == Some(dst)
    ensures Done(s, call) <==> Done(t, call)
    ensures IsDir(s.tree, src) <==> IsDir(t.tree, src)
  {
    TargetAlike(filters, s, t, call.req, src);
    DestinationAlike(filters, s, t, call.req, dst);
    SymmetricView(filters, s, t);
    DirAlike(filters, s, t, src);
    if Done(s, call) {
      CanRenameAlike(filters, s, t, src, dst);
    }
    if Done(t, call) {
      CanRenameAlike(filters, t, s, src, dst);
    }
  }

  lemma RenamedAlike(filters: seq<Name>, tree: Names.Tree, tree1: Names.Tree, src: Path, dst: Path)
    requires WellFormed(tree) && WellFormed(tree1) && SameEntries(filters, tree, tree1)
    requires CanRename(tree, src, dst) && CanRename(tree1, src, dst) && src != dst && !IsIgnored(filters, src)
    ensures SameEntries(filters, Renamed(tree, src, dst), Renamed(tree1, src, dst))
  {
    forall q | q != [] && !IsIgnored(filters, q)
      ensures EntryAt(Renamed(tree, src, dst), q) == EntryAt(Renamed(tree1, src, dst), q)
    {
      RenamedAt(tree, src, dst, q);
      RenamedAt(tree1, src, dst, q);
      if AtOrBelow(q, dst) {
        var o := src + q[|dst|..];
        BelowIsVisible(filters, src, o);
        assert EntryAt(tree, o) == EntryAt(tree1, o);
      } else {
        assert EntryAt(tree, q) == EntryAt(tree1, q);
      }
    }
  }

  lemma VisibleRenameKeepsView(filters: seq<Name>, s: State, t: State, call: Call, src: Path, dst: Path)
    requires Apart(filters, s) && Apart(filters, t) && SameView(filters, s, t) && call.req.Rename?
    requires Target(s.known, call.req) == Some(src) && Destination(s.known, call.req) == Some(dst)
    requires !IsIgnored(filters, src) && !IsIgnored(filters, dst)
    ensures SameView(filters, Step(s, call), Step(t, call))
    ensures Emissions(filters, s, call.req) == Emissions(filters, t, call.req)
  {
    VisibleRenameAlike(filters, s, t, call, src, dst);
    RenameEmits(filters, s, call.req);
    RenameEmits(filters, t, call.req);
    if Done(s, call) {
      RenameStepIs(s, call, src, dst);
      RenameStepIs(t, call, src, dst);
      EntryAlike(filters, s, t, src);
      KnownAlike(filters, s, t, s.tree[src].ino, Some(dst));
      if src != dst {
        RenamedAlike(filters, s.tree, t.tree, src, dst);
      }
    }
  }

  lemma OverwrittenIsNameless(tree: Names.Tree, src: Path, dst: Path, q: Path)
    requires WellFormed(tree) && CanRename(tree, src, dst) && src != dst && dst in tree
    requires q in Renamed(tree, src, dst)
    ensures Renamed(tree, src, dst)[q].ino != tree[dst].ino
  {
    RenamedFrom(tree, src, dst, q);
    RenamedAt(tree, src, dst, q);
    DestinationIsClear(tree, src, dst);
    if AtOrBelow(q, dst) {
      assert AtOrBelow(Origin(src, dst, q), src);
    }
  }

  // A visible rename keeps what is known apart from what is ignored, whatever it makes
  // wrong in the map.
  lemma VisibleRenameKeepsApart(filters: seq<Name>, s: State, call: Call, src: Path, dst: Path)
    requires Apart(filters, s) && call.req.Rename? && Done(s, call)
    requires Target(s.known, call.req) == Some(src) && Destination(s.known, call.req) == Some(dst)
    requires !IsIgnored(filters, src) && !IsIgnored(filters, dst)
    ensures Apart(filters, Step(s, call))
  {
    var s1 := Step(s, call);
    RenameStepIs(s, call, src, dst);
    RenameKeepsTree(s.tree, src, dst);
    forall q | q in s1.tree && IsIgnored(filters, q) ensures KnownAs(filters, s1.known, s1.tree[q].ino).None? {
      IgnoredStays(filters, s.tree, src, dst, q);
    }
  }

  lemma IgnoredStays(filters: seq<Name>, tree: Names.Tree, src: Path, dst: Path, q: Path)
    requires WellFormed(tree) && CanRename(tree, src, dst) && !IsIgnored(filters, src) && !IsIgnored(filters, dst)
    requires q in Renamed(tree, src, dst) && IsIgnored(filters, q)
    ensures q in tree && Renamed(tree, src, dst)[q] == tree[q] && tree[q].ino != tree[src].ino
  {
    if AtOrBelow(q, dst) {
      BelowIsVisible(filters, dst, q);
    } else if src != dst {
      RenamedFrom(tree, src, dst, q);
      RenamedAt(tree, src, dst, q);
    }
  }

  // Among the requests under an ignored directory, the renames that cross its border and
  // those that are not carried out, the ones that leave what can be seen as it is, and
  // what is known apart from what is ignored, are exactly those that cannot do harm.
  lemma UnseenIff(filters: seq<Name>, s: State, call: Call)
    requires Apart(filters, s) && FreshInode(s, call.req)
    requires Hidden(filters, s, call.req) || Crossing(filters, s, call.req) || !Done(s, call)
    ensures SameView(filters, s, Step(s, call)) && Apart(filters, Step(s, call)) <==> !Spoils(filters, s, call)
  {
    if Done(s, call) {
      if Crossing(filters, s, call.req) {
        CrossingShows(filters, s, call, Target(s.known, call.req).value, Destination(s.known, call.req).value);
      } else if call.req.Rename? {
        HiddenRenameIsUnseen(filters, s, call);
      } else if Reuses(filters, s, call.req) {
        ReuseShows(filters, s, call, Target(s.known, call.req).value);
      } else {
        HiddenStepIsUnseen(filters, s, call);
      }
    }
  }

  // The visible path the inode was known by is forgotten, or else it stays.
  lemma ReuseShows(filters: seq<Name>, s: State, call: Call, p: Path)
    requires Apart(filters, s) && Done(s, call) && Reuses(filters, s, call.req) && Target(s.known, call.req) == Some(p)
    ensures !SameView(filters, s, Step(s, call)) || !Apart(filters, Step(s, call))
  {
    var s1, ino := Step(s, call), call.req.newIno;
    assert p in s1.tree && IsIgnored(filters, p) && s1.tree[p].ino == ino;
    if Apart(filters, s1) {
      assert KnownAs(filters, s.known, ino) != KnownAs(filters, s1.known, ino);
    }
  }

  lemma CrossingShows(filters: seq<Name>, s: State, call: Call, src: Path, dst: Path)
    requires Apart(filters, s) && call.req.Rename? && Done(s, call) && Crossing(filters, s, call.req)
    requires Target(s.known, call.req) == Some(src) && Destination(s.known, call.req) == Some(dst)
    ensures !SameView(filters, s, Step(s, call))
  {
    RenameStepIs(s, call, src, dst);
    var q := CrossingChanges(filters, s.tree, src, dst);
    assert EntryAt(s.tree, q) != EntryAt(Step(s, call).tree, q);
  }

  lemma CrossingChanges(filters: seq<Name>, tree: Names.Tree, src: Path, dst: Path) returns (q: Path)
    requires WellFormed(tree) && CanRename(tree, src, dst) && IsIgnored(filters, src) != IsIgnored(filters, dst)
    ensures q != [] && !IsIgnored(filters, q) && EntryAt(tree, q) != EntryAt(Renamed(tree, src, dst), q)
  {
    q := if IsIgnored(filters, dst) then src else dst;
    RenamedAt(tree, src, dst, q);
    assert src + dst[|dst|..] == src;
  }

  // ---- Unwinding ----

  // Two visible paths in one run are two visible paths in the other.
  lemma NotBothVisible(filters: seq<Name>, s: State, t: State, req: Request)
    requires SameView(filters, s, t) && req.Rename?
    requires !Visible(filters, Target(s.known, req)) || !Visible(filters, Destination(s.known, req))
    ensures !Visible(filters, Target(t.known, req)) || !Visible(filters, Destination(t.known, req))
  {
    SymmetricView(filters, s, t);
    if Visible(filters, Target(t.known, req)) && Visible(filters, Destination(t.known, req)) {
      TargetAlike(filters, t, s, req, Target(t.known, req).value);
      DestinationAlike(filters, t, s, req, Destination(t.known, req).value);
    }
  }

  // Unless both its paths are visible, a harmless rename shows nothing and emits nothing.
  lemma UnseenRename(filters: seq<Name>, s: State, call: Call)
    requires Apart(filters, s) && call.req.Rename? && !Spoils(filters, s, call)
    requires !Visible(filters, Target(s.known, call.req)) || !Visible(filters, Destination(s.known, call.req))
    ensures SameView(filters, s, Step(s, call)) && Apart(filters, Step(s, call))
    ensures Emissions(filters, s, call.req) == []
  {
    RenameEmits(filters, s, call.req);
    if Done(s, call) {
      HiddenRenameIsUnseen(filters, s, call);
    }
  }

  lemma KeptRenameKeepsView(filters: seq<Name>, s: State, t: State, call: Call)
    requires Apart(filters, s) && Apart(filters, t) && SameView(filters, s, t) && call.req.Rename?
    requires !Spoils(filters, s, call) && !Spoils(filters, t, call)
    ensures SameView(filters, Step(s, call), Step(t, call))
    ensures Apart(filters, Step(s, call)) && Apart(filters, Step(t, call))
    ensures Emissions(filters, s, call.req) == Emissions(filters, t, call.req)
  {
    var p, q := Target(s.known, call.req), Destination(s.known, call.req);
    if Visible(filters, p) && Visible(filters, q) {
      VisibleRenameKeepsView(filters, s, t, call, p.value, q.value);
      VisibleRenameAlike(filters, s, t, call, p.value, q.value);
      if Done(s, call) {
        VisibleRenameKeepsApart(filters, s, call, p.value, q.value);
        VisibleRenameKeepsApart(filters, t, call, p.value, q.value);
      }
    } else {
      NotBothVisible(filters, s, t, call.req);
      UnseenRename(filters, s, call);
      UnseenRename(filters, t, call);
      SymmetricView(filters, s, Step(s, call));
      ViewThrough(filters, Step(s, call), s, t);
      ViewThrough(filters, Step(s, call), t, Step(t, call));
    }
  }

  // Runs of a backing system that hands out unused inodes, free of what can do harm.
  ghost predicate Orderly(filters: seq<Name>, s: State, calls: seq<Call>)
    decreases |calls|
  {
    calls != [] ==>
      && FreshInode(s, calls[0].req) && !Spoils(filters, s, calls[0])
      && Orderly(filters, Step(s, calls[0]), calls[1..])
  }

  lemma HiddenIsSilent(filters: seq<Name>, s: State, call: Call)
    requires Apart(filters, s) && FreshInode(s, call.req) && Hidden(filters, s, call.req) && !Spoils(filters, s, call)
    ensures SameView(filters, s, Step(s, call)) && Apart(filters, Step(s, call))
    ensures Emissions(filters, s, call.req) == []
  {
    if call.req.Rename? {
      HiddenRenameIsUnseen(filters, s, call);
      RenameEmits(filters, s, call.req);
    } else {
      HiddenStepIsUnseen(filters, s, call);
      EmissionsByTarget(filters, s, call.req);
    }
  }

  lemma KeptIsAlike(filters: seq<Name>, s: State, t: State, call: Call)
    requires Apart(filters, s) && Apart(filters, t) && SameView(filters, s, t) && !Hidden(filters, s, call.req)
    requires FreshInode(s, call.req) && !Spoils(filters, s, call)
    requires FreshInode(t, call.req) && !Spoils(filters, t, call)
    ensures SameView(filters, Step(s, call), Step(t, call))
    ensures Apart(filters, Step(s, call)) && Apart(filters, Step(t, call))
    ensures Emissions(filters, s, call.req) == Emissions(filters, t, call.req)
  {
    if call.req.Rename? {
      KeptRenameKeepsView(filters, s, t, call);
    } else {
      KeptStepKeepsView(filters, s, t, call);
    }
  }

  // A request that is hidden in one of two states alike is seen in neither.
  lemma HiddenInBoth(filters: seq<Name>, s: State, t: State, call: Call)
    requires Apart(filters, s) && Apart(filters, t) && SameView(filters, s, t) && Hidden(filters, s, call.req)
    requires FreshInode(t, call.req) && !Spoils(filters, t, call)
    ensures SameView(filters, t, Step(t, call)) && Apart(filters, Step(t, call))
    ensures Emissions(filters, t, call.req) == []
  {
    var p := Target(t.known, call.req);
    SymmetricView(filters, s, t);
    if Visible(filters, p) {
      TargetAlike(filters, t, s, call.req, p.value);
      assert false;
    }
    if call.req.Rename? {
      UnseenRename(filters, t, call);
    } else {
      EmissionsByTarget(filters, t, call.req);
      if p.Some? {
        HiddenStepIsUnseen(filters, t, call);
      }
    }
  }

  // Two states alike emit alike, whatever happens from then on.
  lemma {:induction false} AlikeFromHereOn(filters: seq<Name>, s: State, t: State, calls: seq<Call>)
    requires Apart(filters, s) && Apart(filters, t) && SameView(filters, s, t)
    requires Orderly(filters, s, calls) && Orderly(filters, t, calls)
    ensures Stream(filters, s, calls) == Stream(filters, t, calls)
    decreases |calls|
  {
    if calls != [] {
      var call := calls[0];
      if Hidden(filters, s, call.req) {
        HiddenIsSilent(filters, s, call);
        HiddenInBoth(filters, s, t, call);
        SymmetricView(filters, s, Step(s, call));
        ViewThrough(filters, Step(s, call), s, t);
        ViewThrough(filters, Step(s, call), t, Step(t, call));
      } else {
        KeptIsAlike(filters, s, t, call);
      }
      AlikeFromHereOn(filters, Step(s, call), Step(t, call), calls[1..]);
    }
  }

  // Leaving out every request that acts under an ignored directory changes nothing in
  // the stream of operations, and so nothing in the numbers they get, if both the run
  // and what is left of it are orderly. Renames under an ignored directory are left out
  // like anything else, and the others may overwrite and carry along whatever they like.
  lemma {:induction false} IgnoredRequestsDoNotShow(filters: seq<Name>, s: State, t: State, calls: seq<Call>)
    requires Apart(filters, s) && Apart(filters, t) && SameView(filters, s, t)
    requires Orderly(filters, s, calls) && Orderly(filters, t, Reduced(filters, s, calls))
    ensures Stream(filters, t, Reduced(filters, s, calls)) == Stream(filters, s, calls)
    decreases |calls|
  {
    if calls != [] {
      var call, rest := calls[0], calls[1..];
      var s1 := Step(s, call);
      var kept := Reduced(filters, s1, rest);
      if Hidden(filters, s, call.req) {
        HiddenIsSilent(filters, s, call);
        assert Reduced(filters, s, calls) == kept;
        SymmetricView(filters, s, s1);
        ViewThrough(filters, s1, s, t);
        IgnoredRequestsDoNotShow(filters, s1, t, rest);
      } else {
        assert Reduced(filters, s, calls)[0] == call && Reduced(filters, s, calls)[1..] == kept;
        KeptIsAlike(filters, s, t, call);
        IgnoredRequestsDoNotShow(filters, s1, Step(t, call), rest);
      }
    }
  }

  // In particular of a mount whose map is right when the run begins.
  lemma IgnoredRequestsCanBeLeftOut(filters: seq<Name>, s: State, calls: seq<Call>)
    requires Good(s) && Orderly(filters, s, calls) && Orderly(filters, s, Reduced(filters, s, calls))
    ensures Stream(filters, s, Reduced(filters, s, calls)) == Stream(filters, s, calls)
  {
    GoodIsApart(filters, s);
    IgnoredRequestsDoNotShow(filters, s, s, calls);
  }
}
