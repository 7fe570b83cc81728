// FdPassthroughFS over a BackingFs: who owns which descriptor. Descriptors come from
// open_file, live in the handle table, and go back through close_fd, on every path
// through every request, failing ones included.
module FdPassthrough {
  import opened Wrappers
  import opened Bytes
  import opened Opcodes
  import opened Recorder
  import opened Names
  import opened Paging

  type Fd = nat

  datatype Errno = ENOENT | EROFS | EBADF | FromBacking

  // The open(2) flags the file system looks at or strips.
  datatype Flags = Flags(write: bool, append: bool, trunc: bool, creat: bool, excl: bool)

  const O_WRONLY := Flags(true, false, false, false, false)

  datatype OpenFile = OpenFile(fd: Fd, relPath: Path, flags: Flags)

  // How the backing system answers where a request cannot know: whether a file may be
  // opened, stat'ed, truncated, and the rest of the request be done; how much of a write
  // it takes; and the inode a new file would get.
  datatype Fate = Fate(opens: bool, stats: bool, truncates: bool, rest: bool, takes: nat, newIno: Ino)

  // ---- The backing system ----

  lemma {:induction false} SomeFdIsFree(used: set<Fd>) returns (fd: Fd)
    ensures fd !in used
    decreases |used|
  {
    if used == {} {
      fd := 0;
    } else {
      var top := Largest(used);
      fd := top + 1;
    }
  }

  lemma {:induction false} Largest(used: set<Fd>) returns (top: Fd)
    requires used != {}
    ensures top in used && forall fd | fd in used :: fd <= top
    decreases |used|
  {
    var fd :| fd in used;
    if used == {fd} {
      top := fd;
      assert forall d | d in used :: d in {fd};
    } else {
      var rest := Largest(used - {fd});
      top := if fd < rest then rest else fd;
      assert forall d | d in used :: d == fd || d in used - {fd};
    }
  }

  // What a descriptor stands for.
  datatype Description = Description(ino: Ino, writable: bool)

  // A descriptor and the inode it is open on.
  datatype Stated = Stated(fd: Fd, ino: Ino)

  // openat(2): what there is may be opened, directories for reading only and never with
  // O_CREAT, unless it was to be new; what there is not can be made, in a directory.
  predicate CanOpen(tree: Tree, rel: Path, flags: Flags) {
    if rel in tree then !(flags.creat && flags.excl) && (tree[rel].dir ==> !flags.write && !flags.trunc && !flags.creat)
    else flags.creat && rel != [] && IsDir(tree, Parent(rel))
  }

  class BackingFs {
    var tree: Tree
    var bytes: map<Ino, Content>
    var open: map<Fd, Description>
    // every open and every close there ever was
    ghost var everOpened: multiset<Fd>
    ghost var everClosed: multiset<Fd>

    constructor (tree: Tree, bytes: map<Ino, Content>)
      ensures this.tree == tree && this.bytes == bytes && open == map[] && Balanced()
    {
      this.tree, this.bytes, open, everOpened, everClosed := tree, bytes, map[], multiset{}, multiset{};
    }

    ghost predicate Balanced()
      reads this
    {
      everOpened == everClosed + multiset(open.Keys)
    }

    // The caller owns what it gets, and a descriptor in use is never handed out again.
    method Open(rel: Path, flags: Flags, fate: Fate) returns (fd: Result<Fd, Errno>)
      requires Balanced()
      modifies this
      ensures Balanced()
      ensures fd.Ok? <==> fate.opens && CanOpen(old(tree), rel, flags)
      ensures fd.Err? ==> tree == old(tree) && bytes == old(bytes) && open == old(open) && fd.error == FromBacking
      ensures fd.Ok? ==>
                && tree == (if rel in old(tree) then old(tree) else old(tree)[rel := Entry(fate.newIno, false)])
                && fd.value !in old(open)
                && open == old(open)[fd.value := Description(tree[rel].ino, flags.write)]
                && bytes == if rel !in old(tree) || flags.trunc then old(bytes)[tree[rel].ino := []] else old(bytes)
    {
      if !fate.opens || !CanOpen(tree, rel, flags) {
        return Err(FromBacking);
      }
      var empty := rel !in tree || flags.trunc;
      if rel !in tree {
        tree := tree[rel := Entry(fate.newIno, false)];
      }
      if empty {
        bytes := bytes[tree[rel].ino := []];
      }
      var n := NewDescriptor(Description(tree[rel].ino, flags.write));
      return Ok(n);
    }

    method NewDescriptor(d: Description) returns (fd: Fd)
      requires Balanced()
      modifies this`open, this`everOpened
      ensures Balanced() && fd !in old(open) && open == old(open)[fd := d]
    {
      ghost var free := SomeFdIsFree(open.Keys);
      fd :| fd !in open.Keys;
      open := open[fd := d];
      everOpened := everOpened + multiset{fd};
      assert open.Keys == old(open.Keys) + {fd};
    }

    // To close, read, write or truncate, one needs an open descriptor.
    method Close(fd: Fd)
      requires fd in open && Balanced()
      modifies this`open, this`everClosed
      ensures open == old(open) - {fd} && everClosed == old(everClosed) + multiset{fd} && Balanced()
    {
      open := open - {fd};
      everClosed := everClosed + multiset{fd};
      assert old(open.Keys) == open.Keys + {fd};
    }

    method Fstat(fd: Fd, fate: Fate) returns (ino: Result<Ino, Errno>)
      requires fd in open
      ensures ino == if fate.stats then Ok(open[fd].ino) else Err(FromBacking)
    {
      return if fate.stats then Ok(open[fd].ino) else Err(FromBacking);
    }

    method Ftruncate(fd: Fd, size: nat, fate: Fate) returns (ok: bool)
      requires fd in open
      modifies this`bytes
      ensures ok <==> fate.truncates && open[fd].writable
      ensures bytes == if ok then Edited(old(bytes), open[fd].ino, Edit.Truncate(size)) else old(bytes)
    {
      ok := fate.truncates && open[fd].writable;
      if ok {
        bytes := Edited(bytes, open[fd].ino, Edit.Truncate(size));
      }
    }

    // pwrite(2) may take fewer bytes than it is offered.
    method Pwrite(fd: Fd, data: Content, offset: nat, fate: Fate) returns (written: Result<nat, Errno>)
      requires fd in open
      modifies this`bytes
      ensures written == if fate.rest && open[fd].writable then Ok(|Taken(data, fate.takes)|) else Err(FromBacking)
      ensures bytes ==
              if written.Ok? then Edited(old(bytes), open[fd].ino, Edit.Write(offset, Taken(data, fate.takes)))
              else old(bytes)
    {
      if !fate.rest || !open[fd].writable {
        return Err(FromBacking);
      }
      bytes := Edited(bytes, open[fd].ino, Edit.Write(offset, Taken(data, fate.takes)));
      return Ok(|Taken(data, fate.takes)|);
    }
  }

  function Taken(data: Content, takes: nat): Content {
    data[..if takes < |data| then takes else |data|]
  }

  // A file nothing is known of counts as empty.
  function Edited(bytes: map<Ino, Content>, ino: Ino, e: Edit): map<Ino, Content> {
    bytes[ino := PosixStep(if ino in bytes then bytes[ino] else [], e)]
  }

  // ---- Requests ----

  datatype Request =
    | Open(ino: Ino, flags: Flags)
    | Create(parent: Ino, name: Name, flags: Flags)
    | Setattr(ino: Ino, size: Option<nat>, through: Option<Fh>)
    | Write(fh: Fh, data: Content, offset: nat)
    | Release(fh: Fh)

  // ---- Listing ----

  predicate IsDot(name: Name) {
    name == Utf8(".") || name == Utf8("..")
  }

  // The map after readdir has seen these entries; "." and ".." are not registered.
  function Learned(known: map<Ino, Path>, dir: Path, entries: seq<DirEntry>): map<Ino, Path>
    decreases |entries|
  {
    if entries == [] then known
    else Learned(if IsDot(entries[0].name) then known else known[entries[0].ino := dir + [entries[0].name]],
                 dir, entries[1..])
  }

  lemma {:induction false} LearnedOnTop(known: map<Ino, Path>, dir: Path, entries: seq<DirEntry>)
    ensures Learned(known, dir, entries) == known + Learned(map[], dir, entries)
    decreases |entries|
  {
    if entries != [] && IsDot(entries[0].name) {
      LearnedOnTop(known, dir, entries[1..]);
    } else if entries != [] {
      var one: map<Ino, Path> := map[entries[0].ino := dir + [entries[0].name]];
      LearnedOnTop(known[entries[0].ino := dir + [entries[0].name]], dir, entries[1..]);
      LearnedOnTop(one, dir, entries[1..]);
      assert known[entries[0].ino := dir + [entries[0].name]] == known + one;
    }
  }

  // Every page of a listing registers the whole directory; only the first one matters.
  lemma RelistingChangesNothing(known: map<Ino, Path>, dir: Path, entries: seq<DirEntry>)
    ensures var once := Learned(known, dir, entries); Learned(once, dir, entries) == once
  {
    LearnedOnTop(known, dir, entries);
    LearnedOnTop(Learned(known, dir, entries), dir, entries);
  }

  lemma {:induction false} KeepsOwnPath(known: map<Ino, Path>, dir: Path, entries: seq<DirEntry>, ino: Ino)
    requires Resolve(known, ino) == Some(dir)
    requires forall i | 0 <= i < |entries| && entries[i].ino == ino :: IsDot(entries[i].name)
    ensures Resolve(Learned(known, dir, entries), ino) == Some(dir)
    decreases |entries|
  {
    if entries != [] {
      assert forall i | 0 <= i < |entries[1..]| :: entries[1..][i] == entries[i + 1];
      KeepsOwnPath(if IsDot(entries[0].name) then known else known[entries[0].ino := dir + [entries[0].name]],
                   dir, entries[1..], ino);
    }
  }

  // The map after readdir, entry by entry: an inode that was listed is at the directory's
  // path and the last name listed with it, and any other where it was.
  ghost predicate LastNamed(entries: seq<DirEntry>, i: nat, ino: Ino) {
    && i < |entries| && entries[i].ino == ino && entries[i].name != Utf8(".") && entries[i].name != Utf8("..")
    && forall j | i < j < |entries| && entries[j].ino == ino ::
         entries[j].name == Utf8(".") || entries[j].name == Utf8("..")
  }

  // Not listed, or only as a directory lists itself and its parent.
  ghost predicate Unnamed(entries: seq<DirEntry>, ino: Ino) {
    forall i | 0 <= i < |entries| && entries[i].ino == ino ::
      entries[i].name == Utf8(".") || entries[i].name == Utf8("..")
  }

  lemma {:induction false} LearnedEntries(known: map<Ino, Path>, dir: Path, entries: seq<DirEntry>, ino: Ino)
    ensures var r := Resolve(Learned(known, dir, entries), ino);
            && (forall i: nat | LastNamed(entries, i, ino) :: r == Some(dir + [entries[i].name]))
            && (Unnamed(entries, ino) ==> r == Resolve(known, ino))
    decreases |entries|
  {
    if entries != [] {
      var first, rest := entries[0], entries[1..];
      var known1 := if IsDot(first.name) then known else known[first.ino := dir + [first.name]];
      LearnedEntries(known1, dir, rest, ino);
      assert forall i | 0 <= i < |rest| :: rest[i] == entries[i + 1];
      forall i: nat | LastNamed(entries, i, ino)
        ensures Resolve(Learned(known, dir, entries), ino) == Some(dir + [entries[i].name])
      {
        if i > 0 {
          assert LastNamed(rest, i - 1, ino);
        }
      }
    }
  }

  // What a backing system that tells the truth lists of a directory.
  ghost predicate TrueListing(tree: Tree, dir: Path, entries: seq<DirEntry>) {
    forall i | 0 <= i < |entries| && !IsDot(entries[i].name) ::
      dir + [entries[i].name] in tree && tree[dir + [entries[i].name]].ino == entries[i].ino
  }

  function NamesOf(entries: seq<DirEntry>): seq<Name> {
    if entries == [] then []
    else (if IsDot(entries[0].name) then [] else [entries[0].name]) + NamesOf(entries[1..])
  }

  lemma {:induction false} LearnedIsRegistered(known: map<Ino, Path>, tree: Tree, dir: Path, entries: seq<DirEntry>)
    requires TrueListing(tree, dir, entries)
    ensures Learned(known, dir, entries) == Registered(known, tree, dir, NamesOf(entries))
    decreases |entries|
  {
    if entries != [] {
      var first, rest := entries[0], entries[1..];
      assert forall i | 0 <= i < |rest| :: rest[i] == entries[i + 1];
      if IsDot(first.name) {
        assert [] + NamesOf(rest) == NamesOf(rest);
        LearnedIsRegistered(known, tree, dir, rest);
      } else {
        assert ([first.name] + NamesOf(rest))[1..] == NamesOf(rest);
        assert dir + [first.name] in tree;
        LearnedIsRegistered(known[first.ino := dir + [first.name]], tree, dir, rest);
      }
    }
  }

  // So a true listing is a request like any other of a run, and a right map stays right.
  lemma ReaddirIsAStep(s: State, ino: Ino, entries: seq<DirEntry>)
    requires ino in s.known && IsDir(s.tree, s.known[ino]) && TrueListing(s.tree, s.known[ino], entries)
    ensures var s1 := State(s.tree, Learned(s.known, s.known[ino], entries));
            && s1 == FdStep(s, ListingOf(ino, entries))
            && (Good(s) ==> Good(s1))
  {
    LearnedIsRegistered(s.known, s.tree, s.known[ino], entries);
    if Good(s) {
      FdStepKeepsSoundIff(s, ListingOf(ino, entries));
    }
  }

  lemma ListingTells(s: State, ino: Ino, entries: seq<DirEntry>)
    requires ino in s.known
    ensures var known := Learned(s.known, s.known[ino], entries);
            && (forall i: nat, e | LastNamed(entries, i, e) ::
                  Resolve(known, e) == Some(s.known[ino] + [entries[i].name]))
            && (forall e | Unnamed(entries, e) :: Resolve(known, e) == Resolve(s.known, e))
            && (IsDir(s.tree, s.known[ino]) && TrueListing(s.tree, s.known[ino], entries) ==>
                  State(s.tree, known) == FdStep(s, ListingOf(ino, entries)))
  {
    forall e { LearnedEntries(s.known, s.known[ino], entries, e); }
    if IsDir(s.tree, s.known[ino]) && TrueListing(s.tree, s.known[ino], entries) {
      ReaddirIsAStep(s, ino, entries);
    }
  }

  function ListingOf(ino: Ino, entries: seq<DirEntry>): FdCall {
    Asked(Call(Names.Request.Readdir(ino, NamesOf(entries)), true, true))
  }

  // ---- Creating, as a request of a run ----

  function CreationOf(parent: Ino, name: Name, flags: Flags, fate: Fate): FdCall {
    if flags.excl then
      Asked(Call(Names.Request.Create(parent, name, 0, fate.newIno), fate.opens, fate.stats))
    else OpenOrCreate(parent, name, fate.newIno, fate.opens, fate.stats)
  }

  lemma CreationIs(s: State, parent: Ino, name: Name, flags: Flags, fate: Fate, p: Path)
    requires WellFormed(s.tree) && Rooted(s) && ResolveWithName(s.known, parent, name) == Some(p)
    ensures var made := fate.opens && CanOpen(s.tree, p, flags.(creat := true));
            var tree := if p in s.tree then s.tree else s.tree[p := Entry(fate.newIno, false)];
            FdStep(s, CreationOf(parent, name, flags, fate)) ==
            if !made then s else State(tree, if fate.stats then s.known[tree[p].ino := p] else s.known)
  {
    assert Child(s.known, parent, name) == Some(p) && p != [];
    if flags.excl {
      CreateStepIs(s, CreationOf(parent, name, flags, fate).call, p);
    } else {
      OpenOrCreateIs(s, parent, name, fate.newIno, fate.opens, fate.stats);
      OpeningIs(s, parent, name, fate, p);
    }
  }

  lemma OpeningIs(s: State, parent: Ino, name: Name, fate: Fate, p: Path)
    requires WellFormed(s.tree) && Child(s.known, parent, name) == Some(p) && p != []
    ensures var made := fate.opens && if p in s.tree then !s.tree[p].dir else IsDir(s.tree, Parent(p));
            OpenOrCreateStep(s, parent, name, fate.newIno, fate.opens, fate.stats) ==
            if made then OpenedOrCreated(s, p, fate.newIno, fate.stats) else s
  {
    assert p in s.tree ==> IsDir(s.tree, Parent(p));
  }

  lemma UnknownParent(s: State, parent: Ino, name: Name, flags: Flags, fate: Fate)
    requires parent !in s.known
    ensures Rooted(s) ==> FdStep(s, CreationOf(parent, name, flags, fate)) == s
  {
  }

  // What a session creates; the other requests leave names and map alone.
  function CreationsOf(readOnly: bool, request: Request, fate: Fate): seq<FdCall> {
    if request.Create? && !readOnly then [CreationOf(request.parent, request.name, request.flags, fate)] else []
  }

  function Creations(readOnly: bool, requests: seq<(Request, Fate)>): seq<FdCall>
    decreases |requests|
  {
    if requests == [] then []
    else CreationsOf(readOnly, requests[0].0, requests[0].1) + Creations(readOnly, requests[1..])
  }

  // A mount whose further requests, as far as they create, make up a run that ends there.
  ghost predicate EndsAt(s: State, calls: seq<FdCall>, end: State) {
    WellFormed(s.tree) && Rooted(s) && FdRuns(s, calls) && FdAfter(s, calls) == end
  }

  lemma OneServed(s: State, s1: State, readOnly: bool, requests: seq<(Request, Fate)>, end: State)
    requires requests != [] && EndsAt(s, Creations(readOnly, requests), end)
    requires s1 == FdAfter(s, CreationsOf(readOnly, requests[0].0, requests[0].1))
    ensures EndsAt(s1, Creations(readOnly, requests[1..]), end)
  {
    var first, rest := CreationsOf(readOnly, requests[0].0, requests[0].1), Creations(readOnly, requests[1..]);
    if first == [] {
      assert first + rest == rest;
    } else {
      assert (first + rest)[0] == first[0] && (first + rest)[1..] == rest && first[1..] == [];
      FdStepKeepsTree(s, first[0]);
    }
  }

  // ---- Descriptors and handles ----

  // Every open descriptor is that of one handle, every handle has an open descriptor of
  // its own; handles start at 1, and the next one was never given out. `holder` finds
  // the handle that holds a descriptor.
  ghost predicate Ledger(openFiles: map<Fh, OpenFile>, open: map<Fd, Description>, holder: map<Fd, Fh>, nextFh: Fh) {
    && (forall fd | fd in open :: fd in holder && holder[fd] in openFiles && openFiles[holder[fd]].fd == fd)
    && (forall fh | fh in openFiles :: openFiles[fh].fd in open && holder[openFiles[fh].fd] == fh)
    && (forall fh | fh in openFiles :: 1 <= fh < nextFh)
    && 1 <= nextFh
  }

  // So the open descriptors are the image of the handle table, which is one-to-one.
  lemma TableOwnsDescriptors(openFiles: map<Fh, OpenFile>, open: map<Fd, Description>, holder: map<Fd, Fh>, nextFh: Fh)
    requires Ledger(openFiles, open, holder, nextFh)
    ensures open.Keys == set fh | fh in openFiles :: openFiles[fh].fd
    ensures forall a, b | a in openFiles && b in openFiles && openFiles[a].fd == openFiles[b].fd :: a == b
    ensures |open| == |openFiles|
  {
    forall fd | fd in open ensures exists fh :: fh in openFiles && openFiles[fh].fd == fd {
      assert holder[fd] in openFiles;
    }
    SameSize(openFiles.Keys, open.Keys, map fh | fh in openFiles :: openFiles[fh].fd);
  }

  lemma {:induction false} SameSize(a: set<nat>, b: set<nat>, f: map<nat, nat>)
    requires f.Keys == a && (forall x | x in a :: f[x] in b) && (forall y | y in b :: exists x :: x in a && f[x] == y)
    requires forall x, y | x in a && y in a && f[x] == f[y] :: x == y
    ensures |a| == |b|
    decreases |a|
  {
    if a != {} {
      var x :| x in a;
      forall y | y in b - {f[x]} ensures exists z :: z in a - {x} && (f - {x})[z] == y {
        var z :| z in a && f[z] == y;
        assert z in a - {x} && (f - {x})[z] == y;
      }
      SameSize(a - {x}, b - {f[x]}, f - {x});
    } else {
      assert b == {};
    }
  }

  ghost predicate Rising(handles: seq<Fh>, low: Fh, high: Fh) {
    && low <= high
    && (forall i | 0 <= i < |handles| :: low <= handles[i] < high)
    && (forall i, j | 0 <= i < j < |handles| :: handles[i] < handles[j])
  }

  lemma RisingOn(a: seq<Fh>, b: seq<Fh>, low: Fh, middle: Fh, high: Fh)
    requires Rising(a, low, middle) && Rising(b, middle, high)
    ensures Rising(a + b, low, high)
  {
  }

  class FdPassthroughFS {
    ghost var holder: map<Fd, Fh>
    const backing: BackingFs
    const inodeToPath: InodeMap
    const readOnly: bool
    var nextFh: Fh
    var openFiles: map<Fh, OpenFile>

    constructor (backing: BackingFs, readOnly: bool)
      requires backing.open == map[] && backing.Balanced()
      ensures this.backing == backing && this.readOnly == readOnly && fresh(inodeToPath)
      ensures Valid() && openFiles == map[] && nextFh == 1
      ensures inodeToPath.paths == map[FUSE_ROOT_ID := []]
    {
      this.backing, this.readOnly := backing, readOnly;
      inodeToPath := new InodeMap(map[FUSE_ROOT_ID := []]);
      nextFh, openFiles, holder := 1, map[], map[];
    }

    // Between requests, descriptors and handles are in step.
    ghost predicate Valid()
      reads this, backing
    {
      backing.Balanced() && Ledger(openFiles, backing.open, holder, nextFh)
    }

    method GetRelPath(ino: Ino) returns (p: Option<Path>)
      ensures p == Resolve(inodeToPath.paths, ino)
    {
      return Resolve(inodeToPath.paths, ino);
    }

    // A descriptor just opened becomes the next handle.
    method Adopt(fd: Fd, relPath: Path, flags: Flags, ghost before: map<Fd, Description>) returns (fh: Fh)
      requires Ledger(openFiles, before, holder, nextFh)
      requires fd !in before && fd in backing.open && backing.open == before[fd := backing.open[fd]]
      modifies this
      ensures Ledger(openFiles, backing.open, holder, nextFh)
      ensures fh == old(nextFh) && nextFh == fh + 1 && fh !in old(openFiles)
      ensures openFiles == old(openFiles)[fh := OpenFile(fd, relPath, flags)]
    {
      fh := nextFh;
      nextFh := nextFh + 1;
      openFiles := openFiles[fh := OpenFile(fd, relPath, flags)];
      holder := holder[fd := fh];
    }

    // The tree and the map, as a run of requests sees them.
    ghost function Mapped(): State
      reads backing, inodeToPath
    {
      State(backing.tree, inodeToPath.paths)
    }

    // The handle is new, its descriptor is the only one added, and it is open on the file
    // at that path.
    twostate predicate Opened(fh: Fh, relPath: Path, flags: Flags)
      reads this, backing
    {
      && fh == old(nextFh) && nextFh == fh + 1 && fh !in old(openFiles) && fh in openFiles
      && var fd := openFiles[fh].fd;
         && openFiles == old(openFiles)[fh := OpenFile(fd, relPath, flags)]
         && relPath in backing.tree && fd !in old(backing.open)
         && backing.open == old(backing.open)[fd := Description(backing.tree[relPath].ino, flags.write)]
    }

    // Opening never creates: O_CREAT is stripped.
    method Open(ino: Ino, flags: Flags, fate: Fate) returns (reply: Result<Fh, Errno>)
      requires Valid()
      modifies this, backing
      ensures Valid() && backing.tree == old(backing.tree)
      ensures reply.Ok? <==>
              && !(readOnly && (flags.write || flags.append || flags.trunc))
              && ino in inodeToPath.paths && fate.opens && inodeToPath.paths[ino] in backing.tree
              && (backing.tree[inodeToPath.paths[ino]].dir ==> !flags.write && !flags.trunc)
      ensures reply.Err? ==> openFiles == old(openFiles) && backing.open == old(backing.open) && nextFh == old(nextFh)
      ensures reply.Ok? ==> Opened(reply.value, inodeToPath.paths[ino], flags)
      ensures backing.bytes ==
              if reply.Ok? && flags.trunc then old(backing.bytes)[backing.tree[inodeToPath.paths[ino]].ino := []]
              else old(backing.bytes)
      ensures reply.Err? ==>
                reply.error == if readOnly && (flags.write || flags.append || flags.trunc) then EROFS
                               else if ino !in inodeToPath.paths then ENOENT else FromBacking
    {
      if readOnly && (flags.write || flags.append || flags.trunc) {
        return Err(EROFS);
      }
      var rel := GetRelPath(ino);
      if rel.None? {
        return Err(ENOENT);
      }
      ghost var before := backing.open;
      var fd := backing.Open(rel.value, flags.(creat := false), fate);
      if fd.Err? {
        return Err(fd.error);
      }
      var fh := Adopt(fd.value, rel.value, flags, before);
      return Ok(fh);
    }

    // A descriptor that cannot be stat'ed is closed again.
    method OpenAndStat(rel: Path, flags: Flags, fate: Fate) returns (res: Result<Stated, Errno>)
      requires backing.Balanced()
      modifies backing
      ensures backing.Balanced()
      ensures res.Ok? <==> fate.opens && CanOpen(old(backing.tree), rel, flags) && fate.stats
      ensures res.Err? ==> backing.open == old(backing.open) && res.error == FromBacking
      ensures backing.tree ==
              if fate.opens && CanOpen(old(backing.tree), rel, flags) && rel !in old(backing.tree)
              then old(backing.tree)[rel := Entry(fate.newIno, false)] else old(backing.tree)
      ensures res.Ok? ==>
                && rel in backing.tree && res.value.ino == backing.tree[rel].ino
                && res.value.fd !in old(backing.open)
                && backing.open == old(backing.open)[res.value.fd := Description(res.value.ino, flags.write)]
    {
      var fd := backing.Open(rel, flags, fate);
      if fd.Err? {
        return Err(fd.error);
      }
      var ino := backing.Fstat(fd.value, fate);
      if ino.Err? {
        backing.Close(fd.value);
        assert backing.open == old(backing.open);
        return Err(ino.error);
      }
      return Ok(Stated(fd.value, ino.value));
    }

    // Once the path is known: open, stat, register, and hand out a handle.
    method CreateAt(p: Path, flags: Flags, fate: Fate) returns (reply: Result<Fh, Errno>)
      requires Valid()
      modifies this, backing, inodeToPath
      ensures Valid()
      ensures var made := fate.opens && CanOpen(old(backing.tree), p, flags.(creat := true));
              && (reply.Ok? <==> made && fate.stats)
              && backing.tree == if made && p !in old(backing.tree)
                                 then old(backing.tree)[p := Entry(fate.newIno, false)] else old(backing.tree)
      ensures reply.Err? ==> openFiles == old(openFiles) && backing.open == old(backing.open) && nextFh == old(nextFh)
      ensures reply.Err? ==> inodeToPath.paths == old(inodeToPath.paths) && reply.error == FromBacking
      ensures reply.Ok? ==> Opened(reply.value, p, flags)
      ensures reply.Ok? ==> inodeToPath.paths == old(inodeToPath.paths)[backing.tree[p].ino := p]
    {
      ghost var before := backing.open;
      var res := OpenAndStat(p, flags.(creat := true), fate);
      if res.Err? {
        return Err(res.error);
      }
      inodeToPath.paths := inodeToPath.paths[res.value.ino := p];
      var fh := Adopt(res.value.fd, p, flags, before);
      return Ok(fh);
    }

    // Without O_EXCL an existing file is opened instead; if the new descriptor cannot
    // be stat'ed it is closed again, and the handle table never sees it.
    method Create(parent: Ino, name: Name, flags: Flags, fate: Fate) returns (reply: Result<Fh, Errno>)
      requires Valid()
      modifies this, backing, inodeToPath
      ensures Valid()
      ensures reply.Ok? <==>
              && !readOnly && parent in old(inodeToPath.paths) && fate.opens && fate.stats
              && CanOpen(old(backing.tree), old(inodeToPath.paths)[parent] + [name], flags.(creat := true))
      ensures reply.Err? ==> openFiles == old(openFiles) && backing.open == old(backing.open) && nextFh == old(nextFh)
      ensures reply.Err? ==> inodeToPath.paths == old(inodeToPath.paths)
      ensures reply.Err? ==>
                reply.error == if readOnly then EROFS
                               else if parent !in old(inodeToPath.paths) then ENOENT else FromBacking
      ensures reply.Ok? ==>
                var p := old(inodeToPath.paths)[parent] + [name];
                && Opened(reply.value, p, flags)
                && inodeToPath.paths == old(inodeToPath.paths)[backing.tree[p].ino := p]
      ensures readOnly ==> Mapped() == old(Mapped())
      ensures !readOnly && WellFormed(old(backing.tree)) && Rooted(old(Mapped())) ==>
                Mapped() == FdStep(old(Mapped()), CreationOf(parent, name, flags, fate))
    {
      if readOnly {
        return Err(EROFS);
      }
      var parentRel := GetRelPath(parent);
      if parentRel.None? {
        UnknownParent(Mapped(), parent, name, flags, fate);
        return Err(ENOENT);
      }
      if WellFormed(backing.tree) && Rooted(Mapped()) {
        CreationIs(Mapped(), parent, name, flags, fate, parentRel.value + [name]);
      }
      reply := CreateAt(parentRel.value + [name], flags, fate);
    }

    // The file a new size is for: the handle's, if there is one, else the one at the path.
    ghost function Resized(rel: Path, through: Option<Fh>): Option<Description>
      requires Valid()
      reads this, backing
    {
      if through.Some? && through.value in openFiles then Some(backing.open[openFiles[through.value].fd])
      else if rel in backing.tree && !backing.tree[rel].dir then
        Some(Description(backing.tree[rel].ino, true))
      else None
    }

    // Truncating through the path borrows a descriptor and gives it back.
    method SetSize(rel: Path, size: nat, through: Option<Fh>, fate: Fate) returns (ok: bool)
      requires Valid()
      modifies backing
      ensures Valid() && backing.tree == old(backing.tree) && backing.open == old(backing.open)
      ensures var file := old(Resized(rel, through));
              && (ok <==> file.Some? && file.value.writable && fate.truncates &&
                          ((through.Some? && through.value in openFiles) || fate.opens))
              && backing.bytes ==
                 if ok then Edited(old(backing.bytes), file.value.ino, Edit.Truncate(size)) else old(backing.bytes)
    {
      if through.Some? && through.value in openFiles {
        ok := backing.Ftruncate(openFiles[through.value].fd, size, fate);
      } else {
        ok := SetSizeAt(rel, size, fate);
      }
    }

    method SetSizeAt(rel: Path, size: nat, fate: Fate) returns (ok: bool)
      requires backing.Balanced()
      modifies backing
      ensures backing.Balanced() && backing.tree == old(backing.tree) && backing.open == old(backing.open)
      ensures ok <==> fate.opens && fate.truncates && rel in backing.tree && !backing.tree[rel].dir
      ensures backing.bytes ==
              if ok then Edited(old(backing.bytes), backing.tree[rel].ino, Edit.Truncate(size)) else old(backing.bytes)
    {
      var fd := backing.Open(rel, O_WRONLY, fate);
      if fd.Err? {
        return false;
      }
      ok := backing.Ftruncate(fd.value, size, fate);
      backing.Close(fd.value);
      assert backing.open == old(backing.open);
    }

    // Mode, owner and times follow the size, and when one of those fails the size stays.
    method Setattr(ino: Ino, size: Option<nat>, through: Option<Fh>, fate: Fate) returns (reply: Result<(), Errno>)
      requires Valid()
      modifies backing
      ensures Valid() && backing.tree == old(backing.tree) && backing.open == old(backing.open)
      ensures readOnly ==> reply == Err(EROFS) && backing.bytes == old(backing.bytes)
      ensures !readOnly && ino !in inodeToPath.paths ==> reply == Err(ENOENT) && backing.bytes == old(backing.bytes)
      ensures !readOnly && ino in inodeToPath.paths ==>
                var file := old(Resized(inodeToPath.paths[ino], through));
                var sized := size.Some? && file.Some? && file.value.writable && fate.truncates &&
                             ((through.Some? && through.value in openFiles) || fate.opens);
                && (reply.Ok? <==> (size.Some? ==> sized) && fate.rest)
                && backing.bytes ==
                   if sized then Edited(old(backing.bytes), file.value.ino, Edit.Truncate(size.value))
                   else old(backing.bytes)
    {
      if readOnly {
        return Err(EROFS);
      }
      var rel := GetRelPath(ino);
      if rel.None? {
        return Err(ENOENT);
      }
      if size.Some? {
        var ok := SetSize(rel.value, size.value, through, fate);
        if !ok {
          return Err(FromBacking);
        }
      }
      // mode, owner and times
      if !fate.rest {
        return Err(FromBacking);
      }
      return Ok(());
    }

    method Write(fh: Fh, data: Content, offset: nat, fate: Fate) returns (reply: Result<nat, Errno>)
      requires Valid()
      modifies backing`bytes
      ensures reply == if readOnly then Err(EROFS) else if fh !in openFiles then Err(EBADF)
                       else if fate.rest && backing.open[openFiles[fh].fd].writable then Ok(|Taken(data, fate.takes)|)
                       else Err(FromBacking)
      ensures backing.bytes ==
              if reply.Ok?
              then Edited(old(backing.bytes), backing.open[openFiles[fh].fd].ino,
                          Edit.Write(offset, Taken(data, fate.takes)))
              else old(backing.bytes)
    {
      if readOnly {
        return Err(EROFS);
      }
      if fh !in openFiles {
        return Err(EBADF);
      }
      reply := backing.Pwrite(openFiles[fh].fd, data, offset, fate);
    }

    // The handle and its descriptor go together; releasing an unknown handle does
    // nothing, so releasing twice closes once.
    method Release(fh: Fh)
      requires Valid()
      modifies this, backing
      ensures Valid()
      ensures nextFh == old(nextFh) && openFiles == old(openFiles) - {fh}
      ensures backing.tree == old(backing.tree) && backing.bytes == old(backing.bytes)
      ensures backing.open == old(backing.open) - (if fh in old(openFiles) then {old(openFiles)[fh].fd} else {})
    {
      if fh in openFiles {
        var fd := openFiles[fh].fd;
        openFiles := openFiles - {fh};
        backing.Close(fd);
      }
    }

    // `listing` is what the backing system answers to readdir, if anything.
    method Readdir(ino: Ino, offset: nat, listing: Option<seq<DirEntry>>, reply: ReplyDirectory)
      returns (res: Result<(), Errno>)
      requires reply.used == 0 && reply.added == []
      modifies inodeToPath, reply
      ensures res.Ok? <==> ino in old(inodeToPath.paths) && listing.Some?
      ensures res.Err? ==> inodeToPath.paths == old(inodeToPath.paths) && reply.added == []
      ensures res.Ok? ==>
                && inodeToPath.paths == Learned(old(inodeToPath.paths), old(inodeToPath.paths)[ino], listing.value)
                && reply.added == Page(listing.value, offset, reply.maxSize)
      // each inode listed is at the last name listed with it, in this directory
      ensures res.Ok? ==>
                && (forall i: nat, e | LastNamed(listing.value, i, e) ::
                      Resolve(inodeToPath.paths, e) == Some(old(inodeToPath.paths)[ino] + [listing.value[i].name]))
                && (forall e | Unnamed(listing.value, e) ::
                      Resolve(inodeToPath.paths, e) == Resolve(old(inodeToPath.paths), e))
      ensures res.Ok? && IsDir(backing.tree, old(inodeToPath.paths)[ino]) &&
              TrueListing(backing.tree, old(inodeToPath.paths)[ino], listing.value) ==>
                Mapped() == FdStep(old(Mapped()), ListingOf(ino, listing.value))
    {
      var rel := GetRelPath(ino);
      if rel.None? {
        return Err(ENOENT);
      }
      if listing.None? {
        return Err(FromBacking);
      }
      var entries := listing.value;
      var all := [];
      for i := 0 to |entries|
        invariant reply.used == 0 && reply.added == []
        invariant all == entries[..i]
        invariant Learned(old(inodeToPath.paths), rel.value, entries) ==
                  Learned(inodeToPath.paths, rel.value, entries[i..])
      {
        if !IsDot(entries[i].name) {
          inodeToPath.paths := inodeToPath.paths[entries[i].ino := rel.value + [entries[i].name]];
        }
        all := all + [entries[i]];
        assert entries[i..][1..] == entries[i + 1..];
      }
      assert all == entries;
      FillReply(all, offset, reply);
      ListingTells(old(Mapped()), ino, entries);
      return Ok(());
    }

    // A caller that asks again from the last offset it was given, until a reply comes
    // back empty, sees an unchanged directory in full, in order and nothing twice, in
    // at most one call more than it has entries -- whatever the sizes of its buffers,
    // as long as each of them has room for any one entry.
    method ListDirectory(ino: Ino, listing: seq<DirEntry>, rooms: nat -> nat) returns (all: seq<Added>, calls: nat)
      requires ino in inodeToPath.paths && Roomy(listing, rooms)
      requires forall i | 0 <= i < |listing| && listing[i].ino == ino :: IsDot(listing[i].name)
      modifies inodeToPath
      ensures all == Numbered(listing) && calls <= |listing| + 1
      ensures inodeToPath.paths == Learned(old(inodeToPath.paths), old(inodeToPath.paths)[ino], listing)
    {
      all, calls := [], 0;
      ghost var known, dir := inodeToPath.paths, inodeToPath.paths[ino];
      KeepsOwnPath(known, dir, listing, ino);
      var offset, done := 0, false;
      while !done
        invariant offset <= |listing| && all == Numbered(listing)[..offset]
        invariant calls <= offset + (if done then 1 else 0)
        invariant done ==> offset == |listing| && calls > 0
        invariant inodeToPath.paths == if calls == 0 then known else Learned(known, dir, listing)
        decreases |listing| - offset, !done
      {
        var reply := new ReplyDirectory(rooms(calls));
        RelistingChangesNothing(known, dir, listing);
        var _ := Readdir(ino, offset, Some(listing), reply);
        PageIsNonempty(listing, offset, rooms(calls));
        calls := calls + 1;
        if reply.added == [] {
          done := true;
        } else {
          all := all + reply.added;
          offset := reply.added[|reply.added| - 1].offset;
        }
      }
    }

    // One request, and the handle it was answered with, if any.
    method ServeNext(request: Request, fate: Fate) returns (handles: seq<Fh>)
      requires Valid()
      modifies this, backing, inodeToPath
      ensures Valid() && old(nextFh) <= nextFh
      ensures Rising(handles, old(nextFh), nextFh)
      ensures forall fh | fh in openFiles :: fh in old(openFiles) || fh in handles
      ensures WellFormed(old(backing.tree)) && Rooted(old(Mapped())) ==>
                Mapped() == FdAfter(old(Mapped()), CreationsOf(readOnly, request, fate))
    {
      handles := [];
      match request
      case Open(ino, flags) =>
        var reply := Open(ino, flags, fate);
        if reply.Ok? { handles := [reply.value]; }
      case Create(parent, name, flags) =>
        ghost var call := CreationOf(parent, name, flags, fate);
        assert [call][1..] == [] && FdAfter(Mapped(), [call]) == FdStep(Mapped(), call);
        var reply := Create(parent, name, flags, fate);
        if reply.Ok? { handles := [reply.value]; }
      case Setattr(ino, size, through) =>
        var _ := Setattr(ino, size, through, fate);
      case Write(fh, data, offset) =>
        var _ := Write(fh, data, offset, fate);
      case Release(fh) =>
        Release(fh);
    }

    // A whole session. Handles come out in rising order, so none is ever 0 or given
    // twice; if at the end every handle was released, every descriptor ever opened has
    // been closed, once; and the names and the map are those after the run of the
    // session's creations.
    method ServeAll(requests: seq<(Request, Fate)>) returns (handles: seq<Fh>)
      requires Valid()
      modifies this, backing, inodeToPath
      ensures Valid()
      ensures forall i | 0 <= i < |handles| :: old(nextFh) <= handles[i] < nextFh
      ensures forall i, j | 0 <= i < j < |handles| :: handles[i] < handles[j]
      ensures forall fh | fh in openFiles :: fh in old(openFiles) || fh in handles
      ensures openFiles == map[] ==> backing.everOpened == backing.everClosed
      ensures var s, calls := old(Mapped()), Creations(readOnly, requests);
              WellFormed(s.tree) && Rooted(s) && FdRuns(s, calls) ==> Mapped() == FdAfter(s, calls)
    {
      handles := [];
      ghost var s, calls := Mapped(), Creations(readOnly, requests);
      ghost var tells := WellFormed(s.tree) && Rooted(s) && FdRuns(s, calls);
      assert requests[0..] == requests;
      for k := 0 to |requests|
        invariant Valid()
        invariant tells ==> EndsAt(Mapped(), Creations(readOnly, requests[k..]), FdAfter(s, calls))
        invariant Rising(handles, old(nextFh), nextFh)
        invariant forall fh | fh in openFiles :: fh in old(openFiles) || fh in handles
      {
        ghost var before, given := Mapped(), nextFh;
        assert requests[k..][0] == requests[k] && requests[k..][1..] == requests[k + 1..];
        var more := ServeNext(requests[k].0, requests[k].1);
        RisingOn(handles, more, old(nextFh), given, nextFh);
        handles := handles + more;
        if tells {
          OneServed(before, Mapped(), readOnly, requests[k..], FdAfter(s, calls));
        }
      }
      TableOwnsDescriptors(openFiles, backing.open, holder, nextFh);
    }
  }
}
