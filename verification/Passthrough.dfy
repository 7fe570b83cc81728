// PassthroughFS and the ObservingFS around it, as objects: each request updates the
// inode map, the handle table and the source directory the way Mount.Step says, and
// observers are notified before any of that happens.
module Passthrough {
  import opened Wrappers
  import opened Bytes
  import opened Opcodes
  import opened Recorder
  import opened Names
  import opened Paging
  import opened NonInterference
  import Mount

  // The errors the file system decides on by itself, and those it passes on.
  datatype Errno = ENOENT | ENOTDIR | EROFS | EBADF | FromSource

  // The source directory as the operating system keeps it.
  class SourceDir {
    var tree: Names.Tree
    var bytes: map<Ino, Content>

    constructor (tree: Names.Tree, bytes: map<Ino, Content>)
      ensures this.tree == tree && this.bytes == bytes
    {
      this.tree, this.bytes := tree, bytes;
    }

    function Metadata(p: Path): (r: Option<Entry>)
      reads this
      ensures r.Some? <==> p in tree
    {
      if p in tree then Some(tree[p]) else None
    }

    // open(O_CREAT | O_EXCL)
    method CreateNew(p: Path, newIno: Ino, granted: bool) returns (ok: bool)
      modifies this
      ensures ok <==> granted && p != [] && p !in old(tree) && IsDir(old(tree), Parent(p))
      ensures tree == if ok then old(tree)[p := Entry(newIno, false)] else old(tree)
      ensures bytes == if ok then old(bytes)[newIno := []] else old(bytes)
    {
      ok := granted && p != [] && p !in tree && IsDir(tree, Parent(p));
      if ok {
        tree, bytes := tree[p := Entry(newIno, false)], bytes[newIno := []];
      }
    }

    method CreateDir(p: Path, newIno: Ino, granted: bool) returns (ok: bool)
      modifies this`tree
      ensures ok <==> granted && p != [] && p !in old(tree) && IsDir(old(tree), Parent(p))
      ensures tree == if ok then old(tree)[p := Entry(newIno, true)] else old(tree)
    {
      ok := granted && p != [] && p !in tree && IsDir(tree, Parent(p));
      if ok {
        tree := tree[p := Entry(newIno, true)];
      }
    }

    method RemoveFile(p: Path, granted: bool) returns (ok: bool)
      modifies this`tree
      ensures ok <==> granted && p in old(tree) && !old(tree)[p].dir
      ensures tree == if ok then old(tree) - {p} else old(tree)
    {
      ok := granted && p in tree && !tree[p].dir;
      if ok {
        tree := tree - {p};
      }
    }

    method RemoveDir(p: Path, granted: bool) returns (ok: bool)
      modifies this`tree
      ensures ok <==> granted && p != [] && IsDir(old(tree), p) && Childless(old(tree), p)
      ensures tree == if ok then old(tree) - {p} else old(tree)
    {
      ok := granted && p != [] && IsDir(tree, p) && Childless(tree, p);
      if ok {
        tree := tree - {p};
      }
    }

    method Rename(src: Path, dst: Path, granted: bool) returns (ok: bool)
      modifies this`tree
      ensures ok <==> granted && CanRename(old(tree), src, dst)
      ensures tree == if ok then Renamed(old(tree), src, dst) else old(tree)
    {
      ok := granted && CanRename(tree, src, dst);
      if ok {
        tree := Renamed(tree, src, dst);
      }
    }

    method Edit(ino: Ino, e: Edit)
      modifies this`bytes
      ensures bytes == if ino in old(bytes) then old(bytes)[ino := PosixStep(old(bytes)[ino], e)] else old(bytes)
    {
      if ino in bytes {
        bytes := bytes[ino := PosixStep(bytes[ino], e)];
      }
    }

    // The last name or the last descriptor of a file may have gone.
    method Reclaim(ino: Ino, descriptors: map<Fh, Mount.Handle>)
      modifies this`bytes
      ensures bytes ==
              if Mount.Linked(tree, ino) || Mount.Opened(descriptors, ino) then old(bytes) else old(bytes) - {ino}
    {
      if !Mount.Linked(tree, ino) && !Mount.Opened(descriptors, ino) {
        bytes := bytes - {ino};
      }
    }
  }

  class PassthroughFS {
    const source: SourceDir
    const inodeToPath: InodeMap
    const readOnly: bool
    // String::from_utf8_lossy, applied to names in listings
    const lossy: seq<byte> -> string
    var nextFh: Fh
    var fileHandles: map<Fh, Mount.Handle>

    constructor (source: SourceDir, readOnly: bool, lossy: seq<byte> -> string)
      ensures this.source == source && this.readOnly == readOnly && this.lossy == lossy && fresh(inodeToPath)
      ensures State() == Mount.State(Names.State(source.tree, map[FUSE_ROOT_ID := []]), source.bytes, map[], 1)
    {
      this.source, this.readOnly, this.lossy := source, readOnly, lossy;
      inodeToPath := new InodeMap(map[FUSE_ROOT_ID := []]);
      nextFh, fileHandles := 1, map[];
    }

    ghost function State(): Mount.State
      reads this, source, inodeToPath
    {
      Mount.State(Names.State(source.tree, inodeToPath.paths), source.bytes, fileHandles, nextFh)
    }

    // What a request does, and whether it is answered without an error.
    twostate predicate Did(call: Call, ok: bool)
      reads this, source, inodeToPath
    {
      var s := old(State());
      if readOnly && Changes(call.req) then State() == s && !ok
      else State() == Mount.Step(s, call) && (ok <==> Succeeds(s, call))
    }

    method RegisterInode(ino: Ino, relPath: Path)
      modifies inodeToPath
      ensures inodeToPath.paths == old(inodeToPath.paths)[ino := relPath]
    {
      inodeToPath.paths := inodeToPath.paths[ino := relPath];
    }

    method ForgetInode(ino: Ino)
      modifies inodeToPath
      ensures inodeToPath.paths == old(inodeToPath.paths) - {ino}
    {
      inodeToPath.paths := inodeToPath.paths - {ino};
    }

    method AllocFh() returns (fh: Fh)
      modifies this`nextFh
      ensures fh == old(nextFh) && nextFh == old(nextFh) + 1
    {
      fh := nextFh;
      nextFh := nextFh + 1;
    }

    method ChildPath(parent: Ino, name: Name) returns (p: Option<Path>)
      ensures p == Child(inodeToPath.paths, parent, name)
    {
      var parentPath: Path := [];
      if parent != FUSE_ROOT_ID {
        if parent !in inodeToPath.paths {
          return None;
        }
        parentPath := inodeToPath.paths[parent];
      }
      return Some(parentPath + [name]);
    }

    method Lookup(parent: Ino, name: Name, granted: bool) returns (reply: Result<Ino, Errno>)
      modifies inodeToPath
      ensures Did(Call(Request.Lookup(parent, name), granted, true), reply.Ok?)
      ensures reply.Ok? ==>
                var p := old(Child(inodeToPath.paths, parent, name));
                p.Some? && Resolve(inodeToPath.paths, reply.value) == p && source.tree[p.value].ino == reply.value
      ensures reply.Err? ==>
                reply.error == if old(Child(inodeToPath.paths, parent, name)).None? then ENOENT else FromSource
    {
      var relPath := ChildPath(parent, name);
      if relPath.None? {
        return Err(ENOENT);
      }
      var meta := source.Metadata(relPath.value);
      if meta.None? || !granted {
        return Err(FromSource);
      }
      RegisterInode(meta.value.ino, relPath.value);
      return Ok(meta.value.ino);
    }

    method Create(parent: Ino, name: Name, mode: nat, newIno: Ino, granted: bool, finishes: bool)
      returns (reply: Result<Fh, Errno>)
      modifies this, source, inodeToPath
      ensures Did(Call(Request.Create(parent, name, mode, newIno), granted, finishes), reply.Ok?)
      ensures reply.Ok? ==> reply.value == old(nextFh)
      ensures reply.Ok? ==> Mount.WritesThrough(State(), reply.value)
      ensures reply.Err? ==>
                reply.error == if readOnly then EROFS
                               else if old(Child(inodeToPath.paths, parent, name)).None? then ENOENT else FromSource
    {
      if readOnly {
        return Err(EROFS);
      }
      var relPath := ChildPath(parent, name);
      if relPath.None? {
        return Err(ENOENT);
      }
      Mount.CreateIs(State(), Call(Request.Create(parent, name, mode, newIno), granted, finishes), relPath.value);
      var ok := source.CreateNew(relPath.value, newIno, granted);
      if !ok {
        return Err(FromSource);
      }
      // the file is there, but without its metadata nobody gets to know of it
      if !finishes {
        return Err(FromSource);
      }
      var ino := source.Metadata(relPath.value).value.ino;
      var fh := AllocFh();
      RegisterInode(ino, relPath.value);
      fileHandles := fileHandles[fh := Mount.Handle(ino, true, true)];
      return Ok(fh);
    }

    method Mkdir(parent: Ino, name: Name, mode: nat, newIno: Ino, granted: bool, finishes: bool)
      returns (reply: Result<Ino, Errno>)
      modifies source, inodeToPath
      ensures Did(Call(Request.Mkdir(parent, name, mode, newIno), granted, finishes), reply.Ok?)
      ensures reply.Ok? ==> reply.value == newIno
      ensures reply.Err? ==>
                reply.error == if readOnly then EROFS
                               else if old(Child(inodeToPath.paths, parent, name)).None? then ENOENT else FromSource
    {
      if readOnly {
        return Err(EROFS);
      }
      var relPath := ChildPath(parent, name);
      if relPath.None? {
        return Err(ENOENT);
      }
      reply := MakeAndRegister(relPath.value, newIno, granted, finishes);
      Mount.MkdirIs(old(State()), Call(Request.Mkdir(parent, name, mode, newIno), granted, finishes), relPath.value);
    }

    // mkdir() proper, once the path is known.
    method MakeAndRegister(relPath: Path, newIno: Ino, granted: bool, finishes: bool)
        returns (reply: Result<Ino, Errno>)
      modifies source, inodeToPath
      ensures var s := old(State());
              var done := granted && relPath != [] && relPath !in s.names.tree && IsDir(s.names.tree, Parent(relPath));
              var known := if finishes then s.names.known[newIno := relPath] else s.names.known;
              && State() == (if done then s.(names := Names.State(s.names.tree[relPath := Entry(newIno, true)], known))
                             else s)
              && (reply.Ok? <==> done && finishes)
              && reply == (if done && finishes then Ok(newIno) else Err(FromSource))
    {
      var ok := source.CreateDir(relPath, newIno, granted);
      // the directory is there, but without its metadata nobody gets to know of it
      if !ok || !finishes {
        return Err(FromSource);
      }
      var ino := source.Metadata(relPath).value.ino;
      RegisterInode(ino, relPath);
      return Ok(ino);
    }

    method Unlink(parent: Ino, name: Name, granted: bool) returns (reply: Result<(), Errno>)
      modifies source, inodeToPath
      ensures Did(Call(Request.Unlink(parent, name), granted, true), reply.Ok?)
      ensures reply.Err? ==>
                reply.error == if readOnly then EROFS
                               else if old(Child(inodeToPath.paths, parent, name)).None? then ENOENT else FromSource
    {
      if readOnly {
        return Err(EROFS);
      }
      var relPath := ChildPath(parent, name);
      if relPath.None? {
        return Err(ENOENT);
      }
      // the inode has to be asked for while the name is still there
      var meta := source.Metadata(relPath.value);
      var ok := source.RemoveFile(relPath.value, granted);
      if !ok {
        return Err(FromSource);
      }
      if meta.Some? {
        ForgetInode(meta.value.ino);
        source.Reclaim(meta.value.ino, fileHandles);
      }
      return Ok(());
    }

    method Rmdir(parent: Ino, name: Name, granted: bool) returns (reply: Result<(), Errno>)
      modifies source, inodeToPath
      ensures Did(Call(Request.Rmdir(parent, name), granted, true), reply.Ok?)
      ensures reply.Err? ==>
                reply.error == if readOnly then EROFS
                               else if old(Child(inodeToPath.paths, parent, name)).None? then ENOENT else FromSource
    {
      if readOnly {
        return Err(EROFS);
      }
      var relPath := ChildPath(parent, name);
      if relPath.None? {
        return Err(ENOENT);
      }
      var meta := source.Metadata(relPath.value);
      Mount.RmdirIs(State(), Call(Request.Rmdir(parent, name), granted, true), relPath.value);
      var ok := source.RemoveDir(relPath.value, granted);
      if !ok {
        return Err(FromSource);
      }
      if meta.Some? {
        ForgetInode(meta.value.ino);
      }
      return Ok(());
    }

    method Rename(parent: Ino, name: Name, newParent: Ino, newName: Name, granted: bool)
      returns (reply: Result<(), Errno>)
      modifies source, inodeToPath
      ensures Did(Call(Request.Rename(parent, name, newParent, newName), granted, true), reply.Ok?)
      ensures reply.Err? ==>
                reply.error == if readOnly then EROFS
                               else if old(Child(inodeToPath.paths, parent, name)).None? ||
                                       old(Child(inodeToPath.paths, newParent, newName)).None? then ENOENT
                               else FromSource
    {
      if readOnly {
        return Err(EROFS);
      }
      var oldPath := ChildPath(parent, name);
      if oldPath.None? {
        return Err(ENOENT);
      }
      var newPath := ChildPath(newParent, newName);
      if newPath.None? {
        return Err(ENOENT);
      }
      var ok := MoveAndUpdate(oldPath.value, newPath.value, granted);
      ghost var s, call := old(State()), Call(Request.Rename(parent, name, newParent, newName), granted, true);
      Names.RenameStepIs(s.names, call, oldPath.value, newPath.value);
      Mount.RenameStepIs(s, call, newPath.value);
      return if ok then Ok(()) else Err(FromSource);
    }

    // rename() proper, once both paths are known.
    method MoveAndUpdate(oldPath: Path, newPath: Path, granted: bool) returns (ok: bool)
      modifies source, inodeToPath
      ensures ok <==> granted && CanRename(old(source.tree), oldPath, newPath)
      ensures !ok ==> State() == old(State())
      ensures ok ==>
                var s := old(State());
                var known := s.names.known[s.names.tree[oldPath].ino := newPath];
                State() == Mount.RenameStep(s, Names.State(Renamed(s.names.tree, oldPath, newPath), known), newPath)
    {
      var meta := source.Metadata(oldPath);
      var overwritten := source.Metadata(newPath);
      ok := source.Rename(oldPath, newPath, granted);
      if !ok {
        return;
      }
      if meta.Some? {
        RegisterInode(meta.value.ino, newPath);
      }
      if overwritten.Some? {
        source.Reclaim(overwritten.value.ino, fileHandles);
      }
    }

    // Listing a directory registers every entry it finds, page or no page.
    method Readdir(ino: Ino, listing: seq<Name>, offset: nat, reply: ReplyDirectory, granted: bool)
      returns (res: Result<(), Errno>)
      requires reply.used == 0 && reply.added == []
      modifies inodeToPath, reply
      ensures Did(Call(Request.Readdir(ino, listing), granted, true), res.Ok?)
      ensures res.Err? ==>
                res.error == if ino !in old(inodeToPath.paths) then ENOENT
                             else if !IsDir(source.tree, old(inodeToPath.paths)[ino]) then ENOTDIR else FromSource
      ensures res.Ok? ==>
                reply.added == Page(WithDots(ino, EntriesOf(lossy, source.tree, old(inodeToPath.paths[ino]), listing)),
                                    offset, reply.maxSize)
    {
      if ino !in inodeToPath.paths {
        return Err(ENOENT);
      }
      var p := inodeToPath.paths[ino];
      if !IsDir(source.tree, p) {
        return Err(ENOTDIR);
      }
      if !granted {
        return Err(FromSource);
      }
      var all: seq<DirEntry> := [];
      for i := 0 to |listing|
        invariant Registered(old(inodeToPath.paths), source.tree, p, listing) ==
                  Registered(inodeToPath.paths, source.tree, p, listing[i..])
        invariant reply.used == 0 && reply.added == []
        invariant EntriesOf(lossy, source.tree, p, listing) == all + EntriesOf(lossy, source.tree, p, listing[i..])
      {
        var q := p + [listing[i]];
        var meta := source.Metadata(q);
        assert listing[i..][1..] == listing[i + 1..];
        if meta.Some? {
          RegisterInode(meta.value.ino, q);
          all := all + [DirEntry(meta.value.ino, meta.value.dir, Legible(lossy, listing[i]))];
        }
      }
      assert EntriesOf(lossy, source.tree, p, []) == [] && all + [] == all;
      FillReply(WithDots(ino, all), offset, reply);
      return Ok(());
    }

    method Open(ino: Ino, write: bool, append: bool, trunc: bool, granted: bool) returns (reply: Result<Fh, Errno>)
      modifies this, source
      ensures Did(Call(Request.Open(ino, write, append, trunc), granted, true), reply.Ok?)
      ensures reply.Ok? ==> reply.value == old(nextFh)
      ensures reply.Ok? ==> (Mount.WritesThrough(State(), reply.value) <==> write || append)
      ensures reply.Err? ==>
                reply.error == if readOnly && (write || append || trunc) then EROFS
                               else if ino !in inodeToPath.paths then ENOENT else FromSource
    {
      if readOnly && (write || append || trunc) {
        return Err(EROFS);
      }
      if ino !in inodeToPath.paths {
        return Err(ENOENT);
      }
      var p := inodeToPath.paths[ino];
      if !granted || !Mount.CanOpen(source.tree, p, write, append, trunc) {
        return Err(FromSource);
      }
      var file := source.tree[p].ino;
      if trunc {
        source.Edit(file, Edit.Truncate(0));
      }
      var fh := AllocFh();
      fileHandles := fileHandles[fh := Mount.Handle(file, write || append, write)];
      return Ok(fh);
    }

    method Write(ino: Ino, fh: Fh, offset: nat, data: Content, written: nat, granted: bool)
      returns (reply: Result<nat, Errno>)
      modifies source
      ensures Did(Call(Request.Write(ino, fh, offset, data, written), granted, true), reply.Ok?)
      ensures reply.Ok? ==> reply.value == |Mount.Taken(data, written)|
      ensures reply.Err? ==>
                reply.error == if readOnly then EROFS else if fh !in fileHandles then EBADF else FromSource
    {
      if readOnly {
        return Err(EROFS);
      }
      if fh !in fileHandles {
        return Err(EBADF);
      }
      var handle := fileHandles[fh];
      if !granted || !handle.writable {
        return Err(FromSource);
      }
      var some := data[..if written < |data| then written else |data|];
      source.Edit(handle.ino, Edit.Write(offset, some));
      return Ok(|some|);
    }

    // Only the size concerns the files' contents; mode, owner and times follow it, and
    // when one of those fails the size stays changed.
    method Setattr(ino: Ino, through: Option<Fh>, size: Option<nat>, newMode: Option<nat>,
                   atime: Option<int>, mtime: Option<int>, granted: bool, finishes: bool)
      returns (reply: Result<(), Errno>)
      modifies source
      ensures Did(Call(Request.Setattr(ino, through, size, newMode, atime, mtime), granted, finishes), reply.Ok?)
      ensures reply.Err? ==>
                reply.error == if readOnly then EROFS else if ino !in inodeToPath.paths then ENOENT else FromSource
    {
      if readOnly {
        return Err(EROFS);
      }
      if ino !in inodeToPath.paths {
        return Err(ENOENT);
      }
      if size.Some? {
        if !granted {
          return Err(FromSource);
        }
        var ok := SetSize(inodeToPath.paths[ino], through, size.value);
        if !ok {
          return Err(FromSource);
        }
      }
      if !granted || !finishes {
        return Err(FromSource);
      }
      return Ok(());
    }

    method SetSize(p: Path, through: Option<Fh>, size: nat) returns (ok: bool)
      modifies source
      ensures State() == Mount.SetattrStep(old(State()), p, through, size)
      ensures ok <==> (through.Some? && Mount.TruncatesThrough(old(State()), through.value)) ||
                      (p in old(source.tree) && !old(source.tree)[p].dir)
    {
      if through.Some? && through.value in fileHandles && fileHandles[through.value].forWriting {
        source.Edit(fileHandles[through.value].ino, Edit.Truncate(size));
        return true;
      }
      // truncate_via_path
      var meta := source.Metadata(p);
      if meta.None? || meta.value.dir {
        return false;
      }
      source.Edit(meta.value.ino, Edit.Truncate(size));
      return true;
    }

    method Release(fh: Fh) returns (reply: Result<(), Errno>)
      modifies this`fileHandles, source
      ensures Did(Call(Request.Release(fh), true, true), reply.Ok?)
    {
      if fh in fileHandles {
        var ino := fileHandles[fh].ino;
        fileHandles := fileHandles - {fh};
        source.Reclaim(ino, fileHandles);
      }
      return Ok(());
    }
  }

  // A name as a listing gives it: names that are not UTF-8 are made so, and may then be
  // the name of another file or of none.
  function Legible(lossy: seq<byte> -> string, name: Name): (r: Name)
    ensures r.Utf8? && (name.Utf8? ==> r == name)
  {
    match name
    case Utf8(_) => name
    case Raw(bytes) => Utf8(lossy(bytes))
  }

  // The entries readdir comes up with: the names it can find out about.
  function EntriesOf(lossy: seq<byte> -> string, tree: Names.Tree, dir: Path, listing: seq<Name>): (r: seq<DirEntry>)
    ensures |r| <= |listing|
    decreases |listing|
  {
    if listing == [] then []
    else
      var q := dir + [listing[0]];
      (if q in tree then [DirEntry(tree[q].ino, tree[q].dir, Legible(lossy, listing[0]))] else []) +
      EntriesOf(lossy, tree, dir, listing[1..])
  }

  // "." is the directory itself; ".." is always given the root's number.
  function WithDots(ino: Ino, entries: seq<DirEntry>): seq<DirEntry> {
    [DirEntry(ino, true, Utf8(".")), DirEntry(FUSE_ROOT_ID, true, Utf8(".."))] + entries
  }

  // A listing shows, after the dots, every name that can be found out about, with its own
  // inode and kind, and nothing else; in order, if all of them can be.
  lemma {:induction false} ListingShowsOnly(lossy: seq<byte> -> string, tree: Names.Tree, dir: Path,
                                            listing: seq<Name>, k: nat) returns (i: nat)
    requires k < |EntriesOf(lossy, tree, dir, listing)|
    ensures i < |listing| && Shows(lossy, tree, dir, listing[i], EntriesOf(lossy, tree, dir, listing)[k])
    decreases |listing|
  {
    if dir + [listing[0]] !in tree {
      i := ListingShowsOnly(lossy, tree, dir, listing[1..], k);
      i := i + 1;
    } else if k == 0 {
      i := 0;
    } else {
      i := ListingShowsOnly(lossy, tree, dir, listing[1..], k - 1);
      i := i + 1;
    }
  }

  lemma {:induction false} ListingShowsAll(lossy: seq<byte> -> string, tree: Names.Tree, dir: Path,
                                           listing: seq<Name>, i: nat) returns (k: nat)
    requires i < |listing| && dir + [listing[i]] in tree
    ensures k < |EntriesOf(lossy, tree, dir, listing)|
    ensures Shows(lossy, tree, dir, listing[i], EntriesOf(lossy, tree, dir, listing)[k])
    ensures (forall j | 0 <= j < |listing| :: dir + [listing[j]] in tree) ==> k == i
    decreases i
  {
    if i == 0 {
      k := 0;
    } else {
      assert forall j | 0 <= j < |listing[1..]| :: listing[1..][j] == listing[j + 1];
      k := ListingShowsAll(lossy, tree, dir, listing[1..], i - 1);
      k := k + if dir + [listing[0]] in tree then 1 else 0;
    }
  }

  ghost predicate Shows(lossy: seq<byte> -> string, tree: Names.Tree, dir: Path, name: Name, e: DirEntry) {
    && dir + [name] in tree && e.ino == tree[dir + [name]].ino && e.dir == tree[dir + [name]].dir
    && e.name == (if name.Utf8? then name else Utf8(lossy(name.bytes)))
  }

  lemma DotsComeFirst(ino: Ino, entries: seq<DirEntry>)
    ensures var r := WithDots(ino, entries);
            && |r| == |entries| + 2 && r[2..] == entries
            && r[0].name == Utf8(".") && r[0].ino == ino && r[0].dir
            && r[1].name == Utf8("..") && r[1].ino == FUSE_ROOT_ID && r[1].dir
  {
  }

  // Requests a read-only mount refuses.
  predicate Changes(req: Request) {
    match req
    case Open(_, write, append, trunc) => write || append || trunc
    case Lookup(_, _) => false
    case Readdir(_, _) => false
    case Release(_) => false
    case _ => true
  }

  // What a read-only mount lets through changes no name, and no byte of what has one.
  lemma LetThroughKeepsFiles(s: Mount.State, call: Call)
    requires !Changes(call.req)
    ensures var s1 := Mount.Step(s, call);
            && s1.names.tree == s.names.tree
            && forall ino | Mount.Linked(s.names.tree, ino) ::
                 (ino in s1.bytes <==> ino in s.bytes) && (ino in s.bytes ==> s1.bytes[ino] == s.bytes[ino])
  {
  }

  // Looking, listing, opening to read and releasing are always let through.
  lemma LetThroughAnyway(req: Request)
    requires req.Lookup? || req.Readdir? || req.Release? || (req.Open? && !req.write && !req.append && !req.trunc)
    ensures !Changes(req)
  {
  }

  // Requests that are answered without an error.
  ghost predicate Succeeds(s: Mount.State, call: Call) {
    match call.req
    case Write(_, fh, _, _, _) => call.granted && Mount.WritesThrough(s, fh)
    case Setattr(ino, through, size, _, _, _) =>
      && Done(s.names, call) && call.finishes
      && (size.Some? ==>
            || (through.Some? && Mount.TruncatesThrough(s, through.value))
            || (s.names.known[ino] in s.names.tree && !s.names.tree[s.names.known[ino]].dir))
    case Open(ino, write, append, trunc) =>
      Done(s.names, call) && Mount.CanOpen(s.names.tree, s.names.known[ino], write, append, trunc)
    case Create(_, _, _, _) => Done(s.names, call) && call.finishes
    case Mkdir(_, _, _, _) => Done(s.names, call) && call.finishes
    case Release(_) => true
    case _ => Done(s.names, call)
  }

  // ---- Observed ----

  // Most requests have nothing that follows the change itself.
  lemma NothingFollows(s: Mount.State, call: Call)
    ensures !call.req.Create? && !call.req.Mkdir? && !call.req.Setattr? ==>
              && Mount.Step(s, call) == Mount.Step(s, call.(finishes := true))
              && (Succeeds(s, call) <==> Succeeds(s, call.(finishes := true)))
    ensures call.req.Release? ==>
              Mount.Step(s, call) == Mount.Step(s, Call(call.req, true, true)) && Succeeds(s, call)
  {
  }

  // The recorder has emitted these operations, and the queue took what it had room for.
  twostate predicate Emitted(o: OpcodeRecorder, ops: seq<Operation>)
    reads o, o.sender.queue
  {
    && o.nextSeq == old(o.nextSeq) + |ops|
    && o.sender.queue.queue == Offered(old(o.sender.queue.queue), o.sender.queue.capacity, old(o.nextSeq), o.clock, ops)
  }

  class ObservingFS {
    const inner: PassthroughFS
    var observers: seq<OpcodeRecorder>

    constructor (inner: PassthroughFS)
      ensures this.inner == inner && observers == []
    {
      this.inner, observers := inner, [];
    }

    // Observers share the file system's map, and have queues of their own.
    ghost predicate Valid()
      reads this
    {
      && (forall o | o in observers :: o.inodeMap == inner.inodeToPath)
      && (forall i, j | 0 <= i < j < |observers| ::
            observers[i] != observers[j] && observers[i].sender.queue != observers[j].sender.queue)
    }

    method AddObserver(observer: OpcodeRecorder)
      requires Valid() && observer.inodeMap == inner.inodeToPath
      requires forall o | o in observers :: o != observer && o.sender.queue != observer.sender.queue
      modifies this
      ensures Valid() && observers == old(observers) + [observer]
    {
      forall i | 0 <= i < |observers| ensures observers[i] in observers {
      }
      observers := observers + [observer];
    }

    method Notify(n: Notification)
      requires Valid()
      modifies observers, set o | o in observers :: o.sender.queue
      ensures forall i | 0 <= i < |observers| ::
                Emitted(observers[i], Captured(inner.inodeToPath.paths, observers[i].filters, n))
    {
      for k := 0 to |observers|
        invariant forall i | 0 <= i < k ::
                    Emitted(observers[i], Captured(inner.inodeToPath.paths, observers[i].filters, n))
        invariant forall i | k <= i < |observers| ::
                    unchanged(observers[i]) && unchanged(observers[i].sender.queue)
      {
        observers[k].Notify(n);
      }
    }

    // The bytes of every file that had a name are what they were.
    twostate predicate SameFiles()
      reads this, inner, inner.source
    {
      var bytes := old(inner.source.bytes);
      forall ino | Mount.Linked(old(inner.source.tree), ino) ::
        && (ino in inner.source.bytes <==> ino in bytes)
        && (ino in bytes ==> inner.source.bytes[ino] == bytes[ino])
    }

    // One request: the observers are told first, whatever then becomes of it.
    method Serve(call: Call, replySize: nat) returns (ok: bool)
      requires Valid()
      modifies inner, inner.source, inner.inodeToPath
      modifies observers, set o | o in observers :: o.sender.queue
      ensures Valid()
      ensures inner.Did(call, ok)
      ensures !inner.readOnly ==> inner.State() == Mount.Step(old(inner.State()), call)
      ensures inner.readOnly ==> inner.source.tree == old(inner.source.tree) && SameFiles()
      ensures forall i | 0 <= i < |observers| ::
                Emitted(observers[i], Emissions(observers[i].filters, old(inner.State().names), call.req))
    {
      if !Changes(call.req) {
        LetThroughKeepsFiles(inner.State(), call);
      }
      var notice := Notice(Names.State(inner.source.tree, inner.inodeToPath.paths), call.req);
      if notice.Some? {
        Notify(notice.value);
      }
      ok := Delegate(call, replySize);
    }

    method Delegate(call: Call, replySize: nat) returns (ok: bool)
      modifies inner, inner.source, inner.inodeToPath
      ensures inner.Did(call, ok)
    {
      NothingFollows(inner.State(), call);
      match call.req
      case Lookup(parent, name) =>
        var reply := inner.Lookup(parent, name, call.granted);
        ok := reply.Ok?;
      case Readdir(ino, listing) =>
        var buffer := new ReplyDirectory(replySize);
        var reply := inner.Readdir(ino, listing, 0, buffer, call.granted);
        ok := reply.Ok?;
      case Create(parent, name, mode, newIno) =>
        var reply := inner.Create(parent, name, mode, newIno, call.granted, call.finishes);
        ok := reply.Ok?;
      case Mkdir(parent, name, mode, newIno) =>
        var reply := inner.Mkdir(parent, name, mode, newIno, call.granted, call.finishes);
        ok := reply.Ok?;
      case Unlink(parent, name) =>
        var reply := inner.Unlink(parent, name, call.granted);
        ok := reply.Ok?;
      case Rmdir(parent, name) =>
        var reply := inner.Rmdir(parent, name, call.granted);
        ok := reply.Ok?;
      case Rename(parent, name, newParent, newName) =>
        var reply := inner.Rename(parent, name, newParent, newName, call.granted);
        ok := reply.Ok?;
      case Write(ino, fh, offset, data, written) =>
        var reply := inner.Write(ino, fh, offset, data, written, call.granted);
        ok := reply.Ok?;
      case Setattr(ino, through, size, newMode, atime, mtime) =>
        var reply := inner.Setattr(ino, through, size, newMode, atime, mtime, call.granted, call.finishes);
        ok := reply.Ok?;
      case Open(ino, write, append, trunc) =>
        var reply := inner.Open(ino, write, append, trunc, call.granted);
        ok := reply.Ok?;
      case Release(fh) =>
        var reply := inner.Release(fh);
        ok := reply.Ok?;
    }

    // What a session needs to know of one request, when the mount may be written.
    method ServeNext(call: Call, replySize: nat)
      requires Valid() && !inner.readOnly
      modifies inner, inner.source, inner.inodeToPath
      modifies observers, set o | o in observers :: o.sender.queue
      ensures Valid()
      ensures inner.State() == Mount.Step(old(inner.State()), call)
      ensures inner.State().names == Names.Step(old(inner.State().names), call)
      ensures forall i | 0 <= i < |observers| ::
                Emitted(observers[i], Emissions(observers[i].filters, old(inner.State().names), call.req))
    {
      ghost var s := inner.State();
      var _ := Serve(call, replySize);
      Mount.StepNames(s, call);
    }

    // A whole session: every observer has heard the one stream of operations the
    // requests amount to, numbered in order, as much of it as its queue had room for.
    method ServeAll(calls: seq<Call>, replySize: nat)
      requires Valid() && !inner.readOnly
      modifies inner, inner.source, inner.inodeToPath
      modifies observers, set o | o in observers :: o.sender.queue
      ensures Valid()
      ensures inner.State() == Mount.After(old(inner.State()), calls)
      ensures forall i | 0 <= i < |observers| ::
                Emitted(observers[i], Stream(observers[i].filters, old(inner.State().names), calls))
      decreases |calls|
    {
      if calls == [] {
        return;
      }
      ghost var s := inner.State();
      ServeNext(calls[0], replySize);
      ghost var names := inner.State().names;
      ghost var queues := seq(|observers|, i requires 0 <= i < |observers|
                                             reads this, observers, set o | o in observers :: o.sender.queue
                                             => observers[i].sender.queue.queue);
      ghost var numbers := seq(|observers|, i requires 0 <= i < |observers| reads this, observers
                                              => observers[i].nextSeq);
      ServeAll(calls[1..], replySize);
      forall i | 0 <= i < |observers|
        ensures Emitted(observers[i], Stream(observers[i].filters, s.names, calls))
      {
        var o := observers[i];
        StreamUnrolls(o.filters, s.names, names, calls);
        OfferedInTurn(old(o.sender.queue.queue), queues[i], o.sender.queue.queue, o.sender.queue.capacity,
                      old(o.nextSeq), numbers[i], o.clock, Emissions(o.filters, s.names, calls[0].req),
                      Stream(o.filters, names, calls[1..]), Stream(o.filters, s.names, calls));
      }
    }
  }

  lemma StreamUnrolls(filters: seq<Name>, s: Names.State, s1: Names.State, calls: seq<Call>)
    requires calls != [] && s1 == Names.Step(s, calls[0])
    ensures Stream(filters, s, calls) == Emissions(filters, s, calls[0].req) + Stream(filters, s1, calls[1..])
  {
  }

  // Operations offered in two goes.
  lemma OfferedInTurn(q0: seq<Opcode>, q1: seq<Opcode>, q2: seq<Opcode>, capacity: nat, seqNo: nat, next: nat,
                      clock: nat -> nat, first: seq<Operation>, rest: seq<Operation>, all: seq<Operation>)
    requires all == first + rest
    requires q1 == Offered(q0, capacity, seqNo, clock, first) && next == seqNo + |first|
    requires q2 == Offered(q1, capacity, next, clock, rest)
    ensures q2 == Offered(q0, capacity, seqNo, clock, all) && next + |rest| == seqNo + |all|
  {
    OfferedSplits(q0, capacity, seqNo, clock, first, rest);
  }
}
