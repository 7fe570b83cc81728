// Names, inodes and the map between them: what each request does to the backing
// directory tree and to the inode-to-path map the recorder resolves against.
module Names {
  import opened Wrappers
  import opened Bytes
  import opened Opcodes
  import opened Recorder

  // FUSE's number for the mount root, whatever the backing root's own inode is.
  const FUSE_ROOT_ID: Ino := 1

  type Fh = nat

  datatype Entry = Entry(ino: Ino, dir: bool)

  type Tree = map<Path, Entry>

  datatype State = State(tree: Tree, known: map<Ino, Path>)

  // Requests as the kernel sends them. What the backing system chooses is part of the
  // request: the order of a directory listing, the inode of a new file.
  datatype Request =
    | Lookup(parent: Ino, name: Name)
    | Readdir(ino: Ino, listing: seq<Name>)
    | Create(parent: Ino, name: Name, mode: nat, newIno: Ino)
    | Mkdir(parent: Ino, name: Name, mode: nat, newIno: Ino)
    | Unlink(parent: Ino, name: Name)
    | Rmdir(parent: Ino, name: Name)
    | Rename(parent: Ino, name: Name, newParent: Ino, newName: Name)
    | Write(ino: Ino, fh: Fh, offset: nat, data: Content, written: nat)
    | Setattr(ino: Ino, through: Option<Fh>, size: Option<nat>, newMode: Option<nat>,
              atime: Option<int>, mtime: Option<int>)
    | Open(ino: Ino, write: bool, append: bool, trunc: bool)
    | Release(fh: Fh)

  // A request, and whether the backing system goes along with it where POSIX would let
  // it (it may be out of space, or refuse permission); and whether what follows the
  // change itself goes well too: the stat of a new file or directory, the new mode,
  // owner and times.
  datatype Call = Call(req: Request, granted: bool, finishes: bool)

  // ---- One request ----

  function ParentPath(known: map<Ino, Path>, parent: Ino): Option<Path> {
    if parent == FUSE_ROOT_ID then Some([]) else Resolve(known, parent)
  }

  function Child(known: map<Ino, Path>, parent: Ino, name: Name): Option<Path> {
    var p := ParentPath(known, parent);
    if p.Some? then Some(p.value + [name]) else None
  }

  // The path a request acts on, as the map resolves it.
  function Target(known: map<Ino, Path>, req: Request): Option<Path> {
    match req
    case Lookup(parent, name) => Child(known, parent, name)
    case Create(parent, name, _, _) => Child(known, parent, name)
    case Mkdir(parent, name, _, _) => Child(known, parent, name)
    case Unlink(parent, name) => Child(known, parent, name)
    case Rmdir(parent, name) => Child(known, parent, name)
    case Rename(parent, name, _, _) => Child(known, parent, name)
    case Readdir(ino, _) => Resolve(known, ino)
    case Write(ino, _, _, _, _) => Resolve(known, ino)
    case Setattr(ino, _, _, _, _, _) => Resolve(known, ino)
    case Open(ino, _, _, _) => Resolve(known, ino)
    case Release(_) => None
  }

  // The other path of a rename.
  function Destination(known: map<Ino, Path>, req: Request): Option<Path> {
    if req.Rename? then Child(known, req.newParent, req.newName) else None
  }

  predicate IsDir(tree: Tree, p: Path) {
    p in tree && tree[p].dir
  }

  predicate Childless(tree: Tree, p: Path) {
    forall q | q in tree :: !Below(q, p)
  }

  predicate CanRename(tree: Tree, src: Path, dst: Path) {
    && src in tree && src != [] && dst != [] && IsDir(tree, Parent(dst)) && !Below(dst, src)
    && (dst in tree && dst != src ==> tree[dst].dir == tree[src].dir && Childless(tree, dst))
  }

  // What POSIX asks of the tree before the request goes through.
  predicate Possible(s: State, req: Request, p: Path) {
    match req
    case Lookup(_, _) => p in s.tree
    case Readdir(_, _) => IsDir(s.tree, p)
    case Create(_, _, _, _) => p != [] && p !in s.tree && IsDir(s.tree, Parent(p))
    case Mkdir(_, _, _, _) => p != [] && p !in s.tree && IsDir(s.tree, Parent(p))
    case Unlink(_, _) => p in s.tree && !s.tree[p].dir
    case Rmdir(_, _) => p != [] && IsDir(s.tree, p) && Childless(s.tree, p)
    case Rename(_, _, newParent, newName) =>
      var dst := Child(s.known, newParent, newName);
      dst.Some? && CanRename(s.tree, p, dst.value)
    case _ => true
  }

  function Carried(src: Path, dst: Path, q: Path): Path
    requires AtOrBelow(q, src)
  {
    dst + q[|src|..]
  }

  function Renamed(tree: Tree, src: Path, dst: Path): Tree
    requires CanRename(tree, src, dst)
  {
    if src == dst then tree
    else
      var targets := (set q | q in tree && !AtOrBelow(q, src)) +
                     (set q | q in tree && AtOrBelow(q, src) :: Carried(src, dst, q));
      map q | q in targets ::
        if AtOrBelow(q, dst) && src + q[|dst|..] in tree then tree[src + q[|dst|..]]
        else if q in tree then tree[q] else tree[src]
  }

  function TreeAfter(s: State, req: Request, p: Path): Tree
    requires Possible(s, req, p)
  {
    match req
    case Create(_, _, _, newIno) => s.tree[p := Entry(newIno, false)]
    case Mkdir(_, _, _, newIno) => s.tree[p := Entry(newIno, true)]
    case Unlink(_, _) => s.tree - {p}
    case Rmdir(_, _) => s.tree - {p}
    case Rename(_, _, newParent, newName) => Renamed(s.tree, p, Child(s.known, newParent, newName).value)
    case _ => s.tree
  }

  function Registered(known: map<Ino, Path>, tree: Tree, dir: Path, listing: seq<Name>): map<Ino, Path>
    decreases |listing|
  {
    if listing == [] then known
    else
      var q := dir + [listing[0]];
      Registered(if q in tree then known[tree[q].ino := q] else known, tree, dir, listing[1..])
  }

  // A new file or directory whose stat fails is not registered.
  function KnownAfter(s: State, call: Call, p: Path): map<Ino, Path>
    requires Possible(s, call.req, p)
  {
    match call.req
    case Lookup(_, _) => s.known[s.tree[p].ino := p]
    case Readdir(_, listing) => Registered(s.known, s.tree, p, listing)
    case Create(_, _, _, newIno) => if call.finishes then s.known[newIno := p] else s.known
    case Mkdir(_, _, _, newIno) => if call.finishes then s.known[newIno := p] else s.known
    case Unlink(_, _) => s.known - {s.tree[p].ino}
    case Rmdir(_, _) => s.known - {s.tree[p].ino}
    case Rename(_, _, newParent, newName) =>
      s.known[s.tree[p].ino := Child(s.known, newParent, newName).value]
    case _ => s.known
  }

  predicate Done(s: State, call: Call) {
    var p := Target(s.known, call.req);
    p.Some? && call.granted && Possible(s, call.req, p.value)
  }

  function Step(s: State, call: Call): State {
    if Done(s, call) then
      var p := Target(s.known, call.req).value;
      State(TreeAfter(s, call.req, p), KnownAfter(s, call, p))
    else s
  }

  // ---- What the recorder makes of it ----

  // The notification sent ahead of a request that changes something.
  function Notice(s: State, req: Request): Option<Notification> {
    match req
    case Write(ino, _, offset, data, _) => Some(OnWrite(ino, offset, data))
    case Create(parent, name, mode, _) => Some(OnCreate(parent, name, mode))
    case Mkdir(parent, name, mode, _) => Some(OnMkdir(parent, name, mode))
    case Unlink(parent, name) => Some(OnUnlink(parent, name, false))
    case Rmdir(parent, name) => Some(OnRmdir(parent, name))
    case Rename(parent, name, newParent, newName) =>
      var src := ResolveWithName(s.known, parent, name);
      Some(OnRename(parent, name, newParent, newName, src.Some? && IsDir(s.tree, src.value)))
    case Setattr(ino, _, size, newMode, atime, mtime) => Some(OnSetattr(ino, size, newMode, atime, mtime))
    case _ => None
  }

  // The operations a request is captured as, before it is carried out.
  function Emissions(filters: seq<Name>, s: State, req: Request): seq<Operation> {
    var n := Notice(s, req);
    if n.Some? then Captured(s.known, filters, n.value) else []
  }

  // What is emitted depends on the map only through the path the request acts on.
  ghost function EmissionsAt(req: Request, p: Path): seq<Operation> {
    match req
    case Write(_, _, offset, data, _) => [FileWrite(p, AsU64(offset), data)]
    case Create(_, _, mode, _) => [FileCreate(p, mode, [])]
    case Mkdir(_, _, mode, _) => [DirCreate(p, mode)]
    case Unlink(_, _) => [FileDelete(p)]
    case Rmdir(_, _) => [DirDelete(p)]
    case Setattr(ino, _, size, newMode, atime, mtime) => SetattrOps(p, OnSetattr(ino, size, newMode, atime, mtime))
    case _ => []
  }

  ghost predicate Visible(filters: seq<Name>, p: Option<Path>) {
    p.Some? && !IsIgnored(filters, p.value)
  }

  ghost function Expected(filters: seq<Name>, p: Option<Path>, req: Request): seq<Operation> {
    if Visible(filters, p) then EmissionsAt(req, p.value) else []
  }

  lemma EmissionsByTarget(filters: seq<Name>, s: State, req: Request)
    requires Resolve(s.known, FUSE_ROOT_ID) == Some([]) && !req.Rename?
    ensures Emissions(filters, s, req) == Expected(filters, Target(s.known, req), req)
  {
  }

  // A visible write is reported whole, and new attributes one by one, with the request's
  // own values.
  lemma RequestIsReported(filters: seq<Name>, s: State, req: Request, p: Path)
    requires Resolve(s.known, FUSE_ROOT_ID) == Some([]) && (req.Write? || req.Setattr?)
    requires Resolve(s.known, req.ino) == Some(p) && (p == [] || p[0] !in filters)
    ensures req.Write? && req.offset < TWO_TO_THE_64 ==>
              Emissions(filters, s, req) == [FileWrite(p, req.offset, req.data)]
    ensures req.Setattr? ==>
              ReportsAttributes(p, req.size, req.newMode, req.atime, req.mtime, Emissions(filters, s, req))
  {
    CapturedIsReported(s.known, filters, Notice(s, req).value);
    IgnoredIff(filters, p);
  }

  // ---- Soundness of the map ----

  ghost predicate UniqueInodes(tree: Tree) {
    forall p, q {:trigger tree[p], tree[q]} | p in tree && q in tree && tree[p].ino == tree[q].ino :: p == q
  }

  // A directory tree without hard links, in which only the root may be inode 1.
  ghost predicate WellFormed(tree: Tree) {
    && IsDir(tree, [])
    && UniqueInodes(tree)
    && (forall p {:trigger Parent(p)} | p in tree && p != [] :: IsDir(tree, Parent(p)))
    && (forall p | p in tree && p != [] :: tree[p].ino != FUSE_ROOT_ID)
  }

  ghost predicate EntryHolds(s: State, ino: Ino)
    requires ino in s.known
  {
    s.known[ino] != [] && s.known[ino] in s.tree && s.tree[s.known[ino]].ino == ino
  }

  // What the map says of an inode, if it says anything, is so.
  ghost predicate Right(s: State, ino: Ino) {
    ino in s.known ==> EntryHolds(s, ino)
  }

  ghost predicate Rooted(s: State) {
    FUSE_ROOT_ID in s.known && s.known[FUSE_ROOT_ID] == []
  }

  ghost predicate Sound(s: State) {
    Rooted(s) && forall ino | ino != FUSE_ROOT_ID :: Right(s, ino)
  }

  ghost predicate Good(s: State) {
    WellFormed(s.tree) && Sound(s)
  }

  // A new file gets an inode nothing in the tree has.
  ghost predicate FreshInode(s: State, req: Request) {
    req.Create? || req.Mkdir? ==>
      req.newIno != FUSE_ROOT_ID && forall p | p in s.tree :: s.tree[p].ino != req.newIno
  }

  lemma {:induction false} RegisteredEntries(known: map<Ino, Path>, tree: Tree, dir: Path, listing: seq<Name>, ino: Ino)
    requires UniqueInodes(tree)
    ensures var r := Registered(known, tree, dir, listing);
            && (ino in known ==> ino in r)
            && (ino in r ==>
                 || (exists i :: 0 <= i < |listing| && dir + [listing[i]] in tree &&
                       tree[dir + [listing[i]]].ino == ino && r[ino] == dir + [listing[i]])
                 || (ino in known && r[ino] == known[ino] &&
                       forall i :: 0 <= i < |listing| && dir + [listing[i]] in tree ==>
                         tree[dir + [listing[i]]].ino != ino))
            && (forall i | 0 <= i < |listing| && dir + [listing[i]] in tree ::
                  tree[dir + [listing[i]]].ino in r)
    decreases |listing|
  {
    if listing != [] {
      var q, rest := dir + [listing[0]], listing[1..];
      var known1 := if q in tree then known[tree[q].ino := q] else known;
      RegisteredEntries(known1, tree, dir, rest, ino);
      var r := Registered(known1, tree, dir, rest);
      if ino in r {
        if i :| 0 <= i < |rest| && dir + [rest[i]] in tree && tree[dir + [rest[i]]].ino == ino &&
                r[ino] == dir + [rest[i]] {
          assert listing[i + 1] == rest[i];
        } else {
          assert ino in known1 && r[ino] == known1[ino];
          if q in tree && tree[q].ino == ino {
            assert r[ino] == dir + [listing[0]];
          } else {
            forall i | 0 <= i < |listing| && dir + [listing[i]] in tree
              ensures tree[dir + [listing[i]]].ino != ino
            {
              if i > 0 {
                assert rest[i - 1] == listing[i];
              }
            }
          }
        }
      }
      forall i | 0 <= i < |listing| && dir + [listing[i]] in tree
        ensures tree[dir + [listing[i]]].ino in r
      {
        if i == 0 {
          RegisteredEntries(known1, tree, dir, rest, tree[q].ino);
        } else {
          assert rest[i - 1] == listing[i];
        }
      }
    }
  }

  // ---- Renames ----

  lemma BelowBoth(q: Path, a: Path, b: Path)
    requires AtOrBelow(q, a) && AtOrBelow(q, b) && |a| <= |b|
    ensures AtOrBelow(b, a)
  {
    assert b[..|a|] == q[..|b|][..|a|] == q[..|a|] == a;
  }

  lemma {:induction false} AncestorsExist(tree: Tree, q: Path, d: Path)
    requires WellFormed(tree) && q in tree && AtOrBelow(q, d)
    ensures d in tree && (d != q ==> tree[d].dir)
    decreases |q|
  {
    if q != d {
      var up := Parent(q);
      assert IsDir(tree, up);
      assert AtOrBelow(up, d) by {
        assert up[..|d|] == q[..|d|];
      }
      AncestorsExist(tree, up, d);
    }
  }

  // The destination of a rename has nothing below it, and is not above its source.
  lemma DestinationIsClear(tree: Tree, src: Path, dst: Path)
    requires WellFormed(tree) && CanRename(tree, src, dst) && src != dst
    ensures forall q | q in tree :: !Below(q, dst)
    ensures !AtOrBelow(src, dst) && !AtOrBelow(dst, src)
  {
    forall q | q in tree ensures !Below(q, dst) {
      if Below(q, dst) && dst !in tree {
        AncestorsExist(tree, q, dst);
        assert false;
      }
    }
    assert AtOrBelow(dst, src) ==> Below(dst, src) || dst == src;
    assert AtOrBelow(src, dst) ==> Below(src, dst) || src == dst;
  }

  // What a rename of src to dst makes of q, from one tree to another.
  ghost predicate PutAt(tree: Tree, r: Tree, src: Path, dst: Path, q: Path) {
    && (AtOrBelow(q, src) ==> q !in r)
    && (AtOrBelow(q, dst) ==> (q in r <==> src + q[|dst|..] in tree))
    && (AtOrBelow(q, dst) && q in r ==> r[q] == tree[src + q[|dst|..]])
    && (!AtOrBelow(q, src) && !AtOrBelow(q, dst) ==> (q in r <==> q in tree) && (q in r ==> r[q] == tree[q]))
  }

  lemma RenamedAt(tree: Tree, src: Path, dst: Path, q: Path)
    requires WellFormed(tree) && CanRename(tree, src, dst) && src != dst
    ensures PutAt(tree, Renamed(tree, src, dst), src, dst, q)
  {
    DestinationIsClear(tree, src, dst);
    if AtOrBelow(q, dst) && AtOrBelow(q, src) {
      if |src| <= |dst| { BelowBoth(q, src, dst); } else { BelowBoth(q, dst, src); }
      assert false;
    }
    if AtOrBelow(q, dst) {
      var k := src + q[|dst|..];
      assert AtOrBelow(k, src) && dst + k[|src|..] == q;
      if q in Renamed(tree, src, dst) {
        if q in tree && !AtOrBelow(q, src) {
          assert !Below(q, dst);
          assert q == dst && q[|dst|..] == [] && k == src;
        } else {
          var k' :| k' in tree && AtOrBelow(k', src) && q == dst + k'[|src|..];
          assert k' == src + k'[|src|..] && q[|dst|..] == k'[|src|..];
        }
      }
    } else {
      forall k | k in tree && AtOrBelow(k, src) ensures q != dst + k[|src|..] {
        assert AtOrBelow(dst + k[|src|..], dst);
      }
    }
  }

  // Where a path of the renamed tree was before.
  ghost function Origin(src: Path, dst: Path, q: Path): Path {
    if AtOrBelow(q, dst) then src + q[|dst|..] else q
  }

  lemma RenamedFrom(tree: Tree, src: Path, dst: Path, q: Path)
    requires WellFormed(tree) && CanRename(tree, src, dst) && src != dst
    requires q in Renamed(tree, src, dst)
    ensures Origin(src, dst, q) in tree && Renamed(tree, src, dst)[q] == tree[Origin(src, dst, q)]
    ensures Origin(src, dst, q) == [] ==> q == []
  {
    RenamedAt(tree, src, dst, q);
  }

  lemma RenameKeepsTree(tree: Tree, src: Path, dst: Path)
    requires WellFormed(tree) && CanRename(tree, src, dst)
    ensures WellFormed(Renamed(tree, src, dst))
  {
    if src != dst {
      var r := Renamed(tree, src, dst);
      RenamedAt(tree, src, dst, []);
      forall p, q | p in r && q in r && r[p].ino == r[q].ino ensures p == q {
        RenamedFrom(tree, src, dst, p);
        RenamedFrom(tree, src, dst, q);
        RenamedAt(tree, src, dst, p);
        RenamedAt(tree, src, dst, q);
        assert Origin(src, dst, p) == Origin(src, dst, q);
        if AtOrBelow(p, dst) {
          assert AtOrBelow(Origin(src, dst, p), src);
          assert Origin(src, dst, p)[|src|..] == p[|dst|..];
          assert p == dst + p[|dst|..];
        }
        if AtOrBelow(q, dst) {
          assert AtOrBelow(Origin(src, dst, q), src);
          assert Origin(src, dst, q)[|src|..] == q[|dst|..];
          assert q == dst + q[|dst|..];
        }
      }
      forall p | p in r && p != [] ensures IsDir(r, Parent(p)) && r[p].ino != FUSE_ROOT_ID {
        RenamedParent(tree, src, dst, p);
      }
    }
  }

  lemma NotAboveParent(p: Path, d: Path)
    requires p != [] && !AtOrBelow(p, d)
    ensures !AtOrBelow(Parent(p), d)
  {
    if |d| <= |Parent(p)| {
      assert p[..|d|] == Parent(p)[..|d|];
    }
  }

  lemma ParentUnder(p: Path, d: Path)
    requires Below(p, d)
    ensures AtOrBelow(Parent(p), d)
  {
    assert Parent(p)[..|d|] == p[..|d|];
  }

  // Parents move with their children, except at the renamed name itself.
  lemma ParentOfOrigin(src: Path, dst: Path, p: Path)
    requires p != [] && p != dst && !AtOrBelow(p, src)
    ensures Origin(src, dst, p) != [] && Parent(Origin(src, dst, p)) == Origin(src, dst, Parent(p))
  {
    if AtOrBelow(p, dst) {
      ParentUnder(p, dst);
      assert src + Parent(p)[|dst|..] == Parent(src + p[|dst|..]);
    } else {
      NotAboveParent(p, dst);
    }
  }

  lemma RenamedDir(tree: Tree, src: Path, dst: Path, d: Path)
    requires WellFormed(tree) && CanRename(tree, src, dst) && src != dst
    requires !AtOrBelow(d, src) && IsDir(tree, Origin(src, dst, d))
    ensures IsDir(Renamed(tree, src, dst), d)
  {
    RenamedAt(tree, src, dst, d);
  }

  lemma RenamedParent(tree: Tree, src: Path, dst: Path, p: Path)
    requires WellFormed(tree) && CanRename(tree, src, dst) && src != dst
    requires p in Renamed(tree, src, dst) && p != []
    ensures var r := Renamed(tree, src, dst); IsDir(r, Parent(p)) && r[p].ino != FUSE_ROOT_ID
  {
    assert !AtOrBelow(p, src) by {
      RenamedAt(tree, src, dst, p);
    }
    RenamedFrom(tree, src, dst, p);
    NotAboveParent(p, src);
    if p == dst {
      assert !AtOrBelow(Parent(p), dst);
    } else {
      ParentOfOrigin(src, dst, p);
    }
    RenamedDir(tree, src, dst, Parent(p));
  }

  lemma CreateStepIs(s: State, call: Call, p: Path)
    requires call.req.Create? && Target(s.known, call.req) == Some(p)
    ensures Done(s, call) <==> call.granted && p != [] && p !in s.tree && IsDir(s.tree, Parent(p))
    ensures Step(s, call) ==
            if !Done(s, call) then s
            else State(s.tree[p := Entry(call.req.newIno, false)],
                       if call.finishes then s.known[call.req.newIno := p] else s.known)
  {
  }

  lemma RenameStepIs(s: State, call: Call, src: Path, dst: Path)
    requires call.req.Rename? && Target(s.known, call.req) == Some(src)
    requires Child(s.known, call.req.newParent, call.req.newName) == Some(dst)
    ensures Done(s, call) <==> call.granted && CanRename(s.tree, src, dst)
    ensures Done(s, call) ==>
              Step(s, call) == State(Renamed(s.tree, src, dst), s.known[s.tree[src].ino := dst])
    ensures !Done(s, call) ==> Step(s, call) == s
  {
  }

  // What a rename breaks: what the map says of inodes strictly below the moved name, and
  // of the one whose name is overwritten.
  ghost predicate Breaks(s: State, call: Call, ino: Ino) {
    && call.req.Rename? && Done(s, call)
    && var src, dst := Target(s.known, call.req).value, Destination(s.known, call.req).value;
       && src != dst && ino in s.known && ino != s.tree[src].ino
       && (Below(s.known[ino], src) || (dst in s.tree && ino == s.tree[dst].ino))
  }

  ghost predicate Lists(tree: Tree, p: Path, listing: seq<Name>, ino: Ino) {
    exists i :: 0 <= i < |listing| && p + [listing[i]] in tree && tree[p + [listing[i]]].ino == ino
  }

  // What a request settles: it tells the path of the inode, or makes the map forget it.
  ghost predicate Settles(s: State, call: Call, ino: Ino) {
    && Done(s, call)
    && var p := Target(s.known, call.req).value;
       match call.req
       case Readdir(_, listing) => Lists(s.tree, p, listing, ino)
       case Create(_, _, _, newIno) => call.finishes && ino == newIno
       case Mkdir(_, _, _, newIno) => call.finishes && ino == newIno
       case Lookup(_, _) => ino == s.tree[p].ino
       case Unlink(_, _) => ino == s.tree[p].ino
       case Rmdir(_, _) => ino == s.tree[p].ino
       case Rename(_, _, _, _) => ino == s.tree[p].ino
       case _ => false
  }

  lemma MovedEntryHoldsIff(s: State, s1: State, src: Path, dst: Path, ino: Ino)
    requires WellFormed(s.tree) && CanRename(s.tree, src, dst) && src != dst
    requires s1.known == s.known[s.tree[src].ino := dst] && ino in s.known && EntryHolds(s, ino)
    requires ino != s.tree[src].ino
    requires PutAt(s.tree, s1.tree, src, dst, s.known[ino]) && PutAt(s.tree, s1.tree, src, dst, dst)
    requires forall q | q in s.tree :: !Below(q, dst)
    ensures EntryHolds(s1, ino) <==> !(Below(s.known[ino], src) || (dst in s.tree && ino == s.tree[dst].ino))
  {
    var q := s.known[ino];
    if AtOrBelow(q, src) {
      assert q != src && Below(q, src);
    }
    if AtOrBelow(q, dst) {
      assert !Below(q, dst);
      assert q == dst && src + q[|dst|..] == src;
    }
  }

  lemma RenamedSourceHolds(s: State, s1: State, src: Path, dst: Path)
    requires WellFormed(s.tree) && CanRename(s.tree, src, dst) && src != dst
    requires s1.known == s.known[s.tree[src].ino := dst] && PutAt(s.tree, s1.tree, src, dst, dst)
    ensures EntryHolds(s1, s.tree[src].ino)
  {
    assert src + dst[|dst|..] == src;
  }

  lemma RenamedEverywhere(tree: Tree, src: Path, dst: Path)
    requires WellFormed(tree) && CanRename(tree, src, dst) && src != dst
    ensures forall q :: PutAt(tree, Renamed(tree, src, dst), src, dst, q)
  {
    forall q ensures PutAt(tree, Renamed(tree, src, dst), src, dst, q) {
      RenamedAt(tree, src, dst, q);
    }
  }

  lemma MovedIsRightIff(s: State, s1: State, src: Path, dst: Path, ino: Ino)
    requires WellFormed(s.tree) && CanRename(s.tree, src, dst) && src != dst
    requires s1.known == s.known[s.tree[src].ino := dst]
    requires forall q :: PutAt(s.tree, s1.tree, src, dst, q)
    requires Right(s, ino) || ino == s.tree[src].ino
    ensures Right(s1, ino) <==>
            !(ino in s.known && ino != s.tree[src].ino &&
              (Below(s.known[ino], src) || (dst in s.tree && ino == s.tree[dst].ino)))
  {
    DestinationIsClear(s.tree, src, dst);
    if ino == s.tree[src].ino {
      RenamedSourceHolds(s, s1, src, dst);
    } else if ino in s.known {
      MovedEntryHoldsIff(s, s1, src, dst, ino);
    }
  }

  // After a rename the map is wrong about exactly these inodes, of those it was right
  // about, and right about the one renamed.
  lemma RenameBreaksExactly(s: State, call: Call, ino: Ino)
    requires WellFormed(s.tree) && call.req.Rename? && ino != FUSE_ROOT_ID
    requires Right(s, ino) || Settles(s, call, ino)
    ensures Right(Step(s, call), ino) <==> !Breaks(s, call, ino)
  {
    if Done(s, call) {
      var src, dst := Target(s.known, call.req).value, Destination(s.known, call.req).value;
      RenameStepIs(s, call, src, dst);
      if src != dst {
        RenamedEverywhere(s.tree, src, dst);
        MovedIsRightIff(s, Step(s, call), src, dst, ino);
      }
    }
  }

  // Nothing known lies below the renamed name, and nothing known is overwritten.
  ghost predicate CleanRename(s: State, src: Path, dst: Path) {
    src != dst ==>
      && (forall ino | ino in s.known :: !Below(s.known[ino], src))
      && (dst in s.tree ==> s.tree[dst].ino !in s.known)
  }

  // So a rename leaves the map sound exactly when it is clean.
  lemma RenameKeepsSoundIff(s: State, call: Call, src: Path, dst: Path)
    requires WellFormed(s.tree) && Sound(s) && call.req.Rename? && Done(s, call)
    requires Target(s.known, call.req) == Some(src) && Destination(s.known, call.req) == Some(dst)
    ensures Sound(Step(s, call)) <==> CleanRename(s, src, dst)
  {
    RenameStepIs(s, call, src, dst);
    forall ino | ino != FUSE_ROOT_ID ensures Right(Step(s, call), ino) <==> !Breaks(s, call, ino) {
      RenameBreaksExactly(s, call, ino);
    }
    CleanBreaksNothing(s, call, src, dst);
  }

  lemma CleanBreaksNothing(s: State, call: Call, src: Path, dst: Path)
    requires WellFormed(s.tree) && Sound(s) && call.req.Rename? && Done(s, call)
    requires Target(s.known, call.req) == Some(src) && Destination(s.known, call.req) == Some(dst)
    ensures CleanRename(s, src, dst) <==> forall ino | ino != FUSE_ROOT_ID :: !Breaks(s, call, ino)
  {
    assert s.tree[src].ino != FUSE_ROOT_ID;
    if !CleanRename(s, src, dst) {
      var ino :| ino in s.known && (Below(s.known[ino], src) || (dst in s.tree && ino == s.tree[dst].ino));
      assert ino != FUSE_ROOT_ID;
      assert Right(s, ino);
      assert Breaks(s, call, ino);
    }
  }

  ghost predicate Clean(s: State, call: Call) {
    call.req.Rename? && Done(s, call) ==>
      CleanRename(s, Target(s.known, call.req).value, Destination(s.known, call.req).value)
  }

  // ---- Soundness over runs ----

  lemma StepKeepsTree(s: State, call: Call)
    requires WellFormed(s.tree) && FreshInode(s, call.req)
    ensures WellFormed(Step(s, call).tree)
  {
    if Done(s, call) {
      var p := Target(s.known, call.req).value;
      match call.req
      case Rename(_, _, newParent, newName) =>
        RenameKeepsTree(s.tree, p, Child(s.known, newParent, newName).value);
      case Unlink(_, _) =>
        RemovalKeepsTree(s.tree, p);
      case Rmdir(_, _) =>
        RemovalKeepsTree(s.tree, p);
      case _ =>
    }
  }

  lemma RemovalKeepsTree(tree: Tree, p: Path)
    requires WellFormed(tree) && p in tree && p != []
    requires tree[p].dir ==> Childless(tree, p)
    ensures WellFormed(tree - {p})
  {
    var t := tree - {p};
    forall q | q in t && q != [] ensures IsDir(t, Parent(q)) {
      assert IsDir(tree, Parent(q)) && Below(q, Parent(q));
    }
  }

  lemma ReaddirIsRight(s: State, p: Path, listing: seq<Name>, ino: Ino)
    requires WellFormed(s.tree) && ino != FUSE_ROOT_ID
    requires Right(s, ino) || Lists(s.tree, p, listing, ino)
    ensures Right(State(s.tree, Registered(s.known, s.tree, p, listing)), ino)
  {
    RegisteredEntries(s.known, s.tree, p, listing, ino);
  }

  lemma RootStaysRooted(s: State, call: Call)
    requires WellFormed(s.tree) && Rooted(s) && FreshInode(s, call.req)
    ensures Rooted(Step(s, call))
  {
    if Done(s, call) && call.req.Readdir? {
      RegisteredEntries(s.known, s.tree, Target(s.known, call.req).value, call.req.listing, FUSE_ROOT_ID);
    }
  }

  // Whatever else the map is wrong about: what it was right about, or the request settles,
  // it is right about afterwards, exactly unless a rename breaks it.
  lemma StepKeepsEntryIff(s: State, call: Call, ino: Ino)
    requires WellFormed(s.tree) && FreshInode(s, call.req) && ino != FUSE_ROOT_ID
    requires Right(s, ino) || Settles(s, call, ino)
    ensures Right(Step(s, call), ino) <==> !Breaks(s, call, ino)
  {
    if call.req.Rename? {
      RenameBreaksExactly(s, call, ino);
    } else if Done(s, call) && call.req.Readdir? {
      ReaddirIsRight(s, Target(s.known, call.req).value, call.req.listing, ino);
    }
  }

  // What the map says of an inode changes with the requests that settle it, and with no
  // other: it is forgotten with its name, and else found where the tree has it.
  lemma StepTells(s: State, call: Call, ino: Ino)
    requires WellFormed(s.tree) && FreshInode(s, call.req)
    ensures var s1 := Step(s, call);
            && (!Settles(s, call, ino) ==> Resolve(s1.known, ino) == Resolve(s.known, ino))
            && (Settles(s, call, ino) ==>
                  if call.req.Unlink? || call.req.Rmdir? then ino !in s1.known
                  else ino in s1.known && s1.known[ino] in s1.tree && s1.tree[s1.known[ino]].ino == ino)
  {
    if Done(s, call) {
      var p := Target(s.known, call.req).value;
      if call.req.Readdir? {
        RegisteredEntries(s.known, s.tree, p, call.req.listing, ino);
      } else if call.req.Rename? {
        RenamedIsTold(s, call, p, Destination(s.known, call.req).value);
      }
    }
  }

  lemma RenamedIsTold(s: State, call: Call, src: Path, dst: Path)
    requires WellFormed(s.tree) && call.req.Rename? && Done(s, call)
    requires Target(s.known, call.req) == Some(src) && Destination(s.known, call.req) == Some(dst)
    ensures Step(s, call).known == s.known[s.tree[src].ino := dst]
    ensures dst in Step(s, call).tree && Step(s, call).tree[dst] == s.tree[src]
  {
    RenameStepIs(s, call, src, dst);
    if src != dst {
      RenamedAt(s.tree, src, dst, dst);
      assert src + dst[|dst|..] == src;
    }
  }

  lemma StepKeepsSoundIff(s: State, call: Call)
    requires WellFormed(s.tree) && Sound(s) && FreshInode(s, call.req)
    ensures Sound(Step(s, call)) <==> Clean(s, call)
  {
    RootStaysRooted(s, call);
    if call.req.Rename? && Done(s, call) {
      RenameKeepsSoundIff(s, call, Target(s.known, call.req).value, Destination(s.known, call.req).value);
    } else {
      forall ino | ino != FUSE_ROOT_ID ensures Right(Step(s, call), ino) {
        StepKeepsEntryIff(s, call, ino);
      }
    }
  }

  ghost predicate Runs(s: State, calls: seq<Call>)
    decreases |calls|
  {
    calls != [] ==> FreshInode(s, calls[0].req) && Runs(Step(s, calls[0]), calls[1..])
  }

  // ---- Creating without O_EXCL ----

  // FdPassthroughFS passes the kernel's flags on, so that its create may open a file that
  // is there already. It is then that file's inode that is registered.
  datatype FdCall =
    | Asked(call: Call)
    | OpenOrCreate(parent: Ino, name: Name, newIno: Ino, granted: bool, finishes: bool)

  function OpenedOrCreated(s: State, p: Path, newIno: Ino, finishes: bool): State {
    var tree := if p in s.tree then s.tree else s.tree[p := Entry(newIno, false)];
    State(tree, if finishes then s.known[tree[p].ino := p] else s.known)
  }

  predicate Opens(s: State, parent: Ino, name: Name, granted: bool) {
    var p := Child(s.known, parent, name);
    p.Some? && granted && IsDir(s.tree, Parent(p.value)) && !IsDir(s.tree, p.value)
  }

  function OpenOrCreateStep(s: State, parent: Ino, name: Name, newIno: Ino, granted: bool, finishes: bool): State {
    if Opens(s, parent, name, granted) then OpenedOrCreated(s, Child(s.known, parent, name).value, newIno, finishes)
    else s
  }

  function FdStep(s: State, call: FdCall): State {
    match call
    case Asked(call) => Step(s, call)
    case OpenOrCreate(parent, name, newIno, granted, finishes) =>
      OpenOrCreateStep(s, parent, name, newIno, granted, finishes)
  }

  lemma OpenOrCreateIs(s: State, parent: Ino, name: Name, newIno: Ino, granted: bool, finishes: bool)
    ensures FdStep(s, OpenOrCreate(parent, name, newIno, granted, finishes)) ==
            OpenOrCreateStep(s, parent, name, newIno, granted, finishes)
  {
  }

  // A file that has to be created gets an inode nothing in the tree has.
  ghost predicate FreshFd(s: State, call: FdCall) {
    match call
    case Asked(call) => FreshInode(s, call.req)
    case OpenOrCreate(parent, name, newIno, granted, _) =>
      Opens(s, parent, name, granted) && Child(s.known, parent, name).value !in s.tree ==>
        newIno != FUSE_ROOT_ID && forall p | p in s.tree :: s.tree[p].ino != newIno
  }

  ghost predicate FdBreaks(s: State, call: FdCall, ino: Ino) {
    call.Asked? && Breaks(s, call.call, ino)
  }

  ghost predicate FdSettles(s: State, call: FdCall, ino: Ino) {
    match call
    case Asked(call) => Settles(s, call, ino)
    case OpenOrCreate(parent, name, _, granted, finishes) =>
      && Opens(s, parent, name, granted) && finishes
      && ino == FdStep(s, call).tree[Child(s.known, parent, name).value].ino
  }

  ghost predicate FdClean(s: State, call: FdCall) {
    call.Asked? ==> Clean(s, call.call)
  }

  lemma FdStepKeepsTree(s: State, call: FdCall)
    requires WellFormed(s.tree) && FreshFd(s, call)
    ensures WellFormed(FdStep(s, call).tree)
    ensures Rooted(s) ==> Rooted(FdStep(s, call))
  {
    if call.Asked? {
      StepKeepsTree(s, call.call);
      if Rooted(s) {
        RootStaysRooted(s, call.call);
      }
    }
  }

  lemma FdStepKeepsEntryIff(s: State, call: FdCall, ino: Ino)
    requires WellFormed(s.tree) && FreshFd(s, call) && ino != FUSE_ROOT_ID
    requires Right(s, ino) || FdSettles(s, call, ino)
    ensures Right(FdStep(s, call), ino) <==> !FdBreaks(s, call, ino)
  {
    if call.Asked? {
      StepKeepsEntryIff(s, call.call, ino);
    }
  }

  lemma FdStepKeepsSoundIff(s: State, call: FdCall)
    requires WellFormed(s.tree) && Sound(s) && FreshFd(s, call)
    ensures Sound(FdStep(s, call)) <==> FdClean(s, call)
  {
    if call.Asked? {
      StepKeepsSoundIff(s, call.call);
    } else {
      FdStepKeepsTree(s, call);
      forall ino | ino != FUSE_ROOT_ID ensures Right(FdStep(s, call), ino) {
        FdStepKeepsEntryIff(s, call, ino);
      }
    }
  }

  ghost predicate FdRuns(s: State, calls: seq<FdCall>)
    decreases |calls|
  {
    calls != [] ==> FreshFd(s, calls[0]) && FdRuns(FdStep(s, calls[0]), calls[1..])
  }

  ghost function FdAfter(s: State, calls: seq<FdCall>): State
    decreases |calls|
  {
    if calls == [] then s else FdAfter(FdStep(s, calls[0]), calls[1..])
  }

  lemma {:induction false} OneMoreFdStep(s: State, calls: seq<FdCall>, k: nat)
    requires FdRuns(s, calls) && k < |calls|
    ensures FreshFd(FdAfter(s, calls[..k]), calls[k])
    ensures FdAfter(s, calls[..k + 1]) == FdStep(FdAfter(s, calls[..k]), calls[k])
    decreases k
  {
    if k == 0 {
      assert calls[..1][1..] == [];
    } else {
      OneMoreFdStep(FdStep(s, calls[0]), calls[1..], k - 1);
      assert calls[..k][1..] == calls[1..][..k - 1] && calls[..k + 1][1..] == calls[1..][..k];
    }
  }

  // Where the run is after its first k requests.
  ghost function At(s: State, calls: seq<FdCall>, k: nat): State
    requires k <= |calls|
  {
    FdAfter(s, calls[..k])
  }

  // Some rename among the first n requests broke what the map says of the inode, and no
  // request since has settled it.
  ghost predicate Broken(s: State, calls: seq<FdCall>, n: nat, ino: Ino)
    requires n <= |calls|
  {
    exists k :: 0 <= k < n && FdBreaks(At(s, calls, k), calls[k], ino) && Unsettled(s, calls, k + 1, n, ino)
  }

  ghost predicate Unsettled(s: State, calls: seq<FdCall>, from: nat, n: nat, ino: Ino)
    requires n <= |calls|
  {
    forall j | from <= j < n :: !FdSettles(At(s, calls, j), calls[j], ino)
  }

  // Nothing but a rename makes the map wrong.
  ghost predicate RightOrBroken(s: State, calls: seq<FdCall>, n: nat, ino: Ino)
    requires n <= |calls|
  {
    || Right(At(s, calls, n), ino)
    || Broken(s, calls, n, ino)
    || (!Right(s, ino) && Unsettled(s, calls, 0, n, ino))
  }

  lemma BrokenOneMore(s: State, calls: seq<FdCall>, n: nat, ino: Ino)
    requires n < |calls|
    ensures FdBreaks(At(s, calls, n), calls[n], ino) ==> Broken(s, calls, n + 1, ino)
    ensures Broken(s, calls, n, ino) && !FdSettles(At(s, calls, n), calls[n], ino) ==> Broken(s, calls, n + 1, ino)
  {
    if FdBreaks(At(s, calls, n), calls[n], ino) {
      assert Unsettled(s, calls, n + 1, n + 1, ino);
    } else if Broken(s, calls, n, ino) && !FdSettles(At(s, calls, n), calls[n], ino) {
      var k :| 0 <= k < n && FdBreaks(At(s, calls, k), calls[k], ino) && Unsettled(s, calls, k + 1, n, ino);
      assert Unsettled(s, calls, k + 1, n + 1, ino);
    }
  }

  lemma {:induction false} EveryPrefixIsSound(s: State, calls: seq<FdCall>, n: nat, ino: Ino)
    requires WellFormed(s.tree) && FdRuns(s, calls) && n <= |calls|
    ensures WellFormed(At(s, calls, n).tree) && (Rooted(s) ==> Rooted(At(s, calls, n)))
    ensures ino != FUSE_ROOT_ID ==> RightOrBroken(s, calls, n, ino)
    decreases n
  {
    if n > 0 {
      EveryPrefixIsSound(s, calls, n - 1, ino);
      OneMoreFdStep(s, calls, n - 1);
      var s1, call := At(s, calls, n - 1), calls[n - 1];
      FdStepKeepsTree(s1, call);
      BrokenOneMore(s, calls, n - 1, ino);
      if ino != FUSE_ROOT_ID && (Right(s1, ino) || FdSettles(s1, call, ino)) {
        FdStepKeepsEntryIff(s1, call, ino);
      }
    }
  }

  // In every run, whatever is renamed: the tree stays a tree, inode 1 stays mapped to the
  // root, and the map is wrong about nothing but what some rename broke, or what it was
  // wrong about from the start, and no request has settled since.
  lemma EveryFdRunIsSound(s: State, calls: seq<FdCall>)
    requires WellFormed(s.tree) && FdRuns(s, calls)
    ensures WellFormed(FdAfter(s, calls).tree) && (Rooted(s) ==> Rooted(FdAfter(s, calls)))
    ensures At(s, calls, |calls|) == FdAfter(s, calls)
    ensures forall ino | ino != FUSE_ROOT_ID :: RightOrBroken(s, calls, |calls|, ino)
  {
    assert calls[..|calls|] == calls;
    EveryPrefixIsSound(s, calls, |calls|, FUSE_ROOT_ID);
    forall ino | ino != FUSE_ROOT_ID ensures RightOrBroken(s, calls, |calls|, ino) {
      EveryPrefixIsSound(s, calls, |calls|, ino);
    }
  }

  ghost predicate FdCleanly(s: State, calls: seq<FdCall>) {
    forall k | 0 <= k < |calls| :: FdClean(At(s, calls, k), calls[k])
  }

  ghost predicate SoundThroughout(s: State, calls: seq<FdCall>) {
    forall k | 0 <= k <= |calls| :: Sound(At(s, calls, k))
  }

  // The whole map is right after every prefix of a run exactly when every rename of it is
  // clean at its turn.
  lemma SoundThroughoutIff(s: State, calls: seq<FdCall>)
    requires Good(s) && FdRuns(s, calls)
    ensures SoundThroughout(s, calls) <==> FdCleanly(s, calls)
  {
    if SoundThroughout(s, calls) {
      forall k | 0 <= k < |calls| ensures FdClean(At(s, calls, k), calls[k]) {
        EveryPrefixIsSound(s, calls, k, FUSE_ROOT_ID);
        OneMoreFdStep(s, calls, k);
        assert Sound(At(s, calls, k)) && Sound(At(s, calls, k + 1));
        FdStepKeepsSoundIff(At(s, calls, k), calls[k]);
      }
    }
    if FdCleanly(s, calls) {
      forall k | 0 <= k <= |calls| ensures Sound(At(s, calls, k)) {
        CleanPrefixIsSound(s, calls, k);
      }
    }
  }

  lemma {:induction false} CleanPrefixIsSound(s: State, calls: seq<FdCall>, k: nat)
    requires Good(s) && FdRuns(s, calls) && FdCleanly(s, calls) && k <= |calls|
    ensures Sound(At(s, calls, k))
    decreases k
  {
    if k > 0 {
      CleanPrefixIsSound(s, calls, k - 1);
      EveryPrefixIsSound(s, calls, k - 1, FUSE_ROOT_ID);
      OneMoreFdStep(s, calls, k - 1);
      FdStepKeepsSoundIff(At(s, calls, k - 1), calls[k - 1]);
    }
  }

  // ---- Runs in which every create is exclusive ----

  function Asking(calls: seq<Call>): (r: seq<FdCall>)
    ensures |r| == |calls|
    ensures forall i | 0 <= i < |r| :: r[i] == Asked(calls[i])
  {
    seq(|calls|, i requires 0 <= i < |calls| => Asked(calls[i]))
  }

  lemma {:induction false} AskingRuns(s: State, calls: seq<Call>)
    ensures FdRuns(s, Asking(calls)) <==> Runs(s, calls)
    ensures FdAfter(s, Asking(calls)) == After(s, calls)
    decreases |calls|
  {
    if calls != [] {
      assert Asking(calls)[1..] == Asking(calls[1..]);
      AskingRuns(Step(s, calls[0]), calls[1..]);
    }
  }

  ghost function After(s: State, calls: seq<Call>): State
    decreases |calls|
  {
    if calls == [] then s else After(Step(s, calls[0]), calls[1..])
  }

  ghost predicate Cleanly(s: State, calls: seq<Call>) {
    forall k | 0 <= k < |calls| :: Clean(After(s, calls[..k]), calls[k])
  }

  // The same of these runs.
  lemma EveryRunIsSound(s: State, calls: seq<Call>)
    requires WellFormed(s.tree) && Runs(s, calls)
    ensures WellFormed(After(s, calls).tree) && (Rooted(s) ==> Rooted(After(s, calls)))
    ensures At(s, Asking(calls), |calls|) == After(s, calls)
    ensures forall ino | ino != FUSE_ROOT_ID :: RightOrBroken(s, Asking(calls), |calls|, ino)
    ensures Sound(s) ==> ((forall k | 0 <= k <= |calls| :: Sound(After(s, calls[..k]))) <==> Cleanly(s, calls))
  {
    AskingRuns(s, calls);
    EveryFdRunIsSound(s, Asking(calls));
    forall k | 0 <= k <= |calls| ensures At(s, Asking(calls), k) == After(s, calls[..k]) {
      assert Asking(calls)[..k] == Asking(calls[..k]);
      AskingRuns(s, calls[..k]);
    }
    if Sound(s) {
      SoundThroughoutIff(s, Asking(calls));
    }
  }
}
