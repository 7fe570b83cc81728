// The observer that turns notifications into opcodes: inodes become paths, ignored
// paths are dropped, the rest is numbered and offered to the queue.
module Recorder {
  import opened Wrappers
  import opened Bytes
  import opened Opcodes
  import opened Queue

  type Ino = nat

  // The inode-to-path map the file system shares with its observers.
  class InodeMap {
    var paths: map<Ino, Path>

    constructor (paths: map<Ino, Path>)
      ensures this.paths == paths
    {
      this.paths := paths;
    }
  }

  // ---- Ignoring ----

  predicate PathStartsWithDir(p: Path, dir: Name) {
    p != [] && p[0] == dir
  }

  // A filter is known by the directory it hides.
  predicate IsIgnored(filters: seq<Name>, p: Path) {
    exists i :: 0 <= i < |filters| && PathStartsWithDir(p, filters[i])
  }

  // Every filter counts, whatever its position, and only the first part of the path.
  lemma IgnoredIff(filters: seq<Name>, p: Path)
    ensures IsIgnored(filters, p) <==> p != [] && p[0] in filters
  {
    if p != [] && p[0] in filters {
      var i :| 0 <= i < |filters| && filters[i] == p[0];
      assert PathStartsWithDir(p, filters[i]);
    }
  }

  // Whether a path is hidden is settled by any part of it below the root.
  lemma IgnoredAtAnyDepth(filters: seq<Name>, p: Path, q: Path)
    requires p != []
    ensures IsIgnored(filters, p + q) <==> IsIgnored(filters, p)
  {
    assert (p + q)[0] == p[0];
    if IsIgnored(filters, p) {
      var i :| 0 <= i < |filters| && PathStartsWithDir(p, filters[i]);
      assert PathStartsWithDir(p + q, filters[i]);
    }
    if IsIgnored(filters, p + q) {
      var i :| 0 <= i < |filters| && PathStartsWithDir(p + q, filters[i]);
      assert PathStartsWithDir(p, filters[i]);
    }
  }

  // ---- Resolving ----

  function Resolve(known: map<Ino, Path>, ino: Ino): Option<Path> {
    if ino in known then Some(known[ino]) else None
  }

  function ResolveWithName(known: map<Ino, Path>, parent: Ino, name: Name): Option<Path> {
    if parent in known then Some(known[parent] + [name]) else None
  }

  // ---- Notifications ----

  // What a callback is told, with what it finds out about the backing file: whether
  // the name is a symbolic link, or a directory. Offsets are i64, times are
  // nanoseconds around the Unix epoch.
  datatype Notification =
    | OnWrite(ino: Ino, offset: int, data: Content)
    | OnCreate(parent: Ino, name: Name, mode: nat)
    | OnUnlink(parent: Ino, name: Name, isSymlink: bool)
    | OnMkdir(parent: Ino, name: Name, mode: nat)
    | OnRmdir(parent: Ino, name: Name)
    | OnRename(parent: Ino, name: Name, newParent: Ino, newName: Name, isDir: bool)
    | OnSetattr(ino: Ino, size: Option<nat>, newMode: Option<nat>, atime: Option<int>, mtime: Option<int>)
    | OnSymlink(parent: Ino, name: Name, target: Path)
    | OnLink(ino: Ino, newParent: Ino, newName: Name)

  const TWO_TO_THE_64: int := 0x1_0000_0000_0000_0000

  // `offset as u64`.
  function AsU64(offset: int): nat {
    offset % TWO_TO_THE_64
  }

  const NANOS_PER_SECOND: int := 1_000_000_000

  // duration_since(UNIX_EPOCH), which fails for times before it, in whole seconds.
  function EpochSeconds(t: Option<int>): Option<nat> {
    if t.Some? && t.value >= 0 then Some(t.value / NANOS_PER_SECOND) else None
  }

  function SetattrOps(p: Path, n: Notification): seq<Operation>
    requires n.OnSetattr?
  {
    (if n.size.Some? then [FileTruncate(p, n.size.value)] else []) +
    (if n.newMode.Some? then [SetPermissions(p, n.newMode.value)] else []) +
    (if n.atime.Some? || n.mtime.Some?
     then [SetTimestamps(p, EpochSeconds(n.atime), EpochSeconds(n.mtime))] else [])
  }

  function OneOp(filters: seq<Name>, path: Option<Path>, op: Path -> Operation): seq<Operation> {
    if path.Some? && !IsIgnored(filters, path.value) then [op(path.value)] else []
  }

  // The operations a notification is captured as.
  function Captured(known: map<Ino, Path>, filters: seq<Name>, n: Notification): seq<Operation> {
    match n
    case OnWrite(ino, offset, data) =>
      OneOp(filters, Resolve(known, ino), p => FileWrite(p, AsU64(offset), data))
    case OnCreate(parent, name, mode) =>
      OneOp(filters, ResolveWithName(known, parent, name), p => FileCreate(p, mode, []))
    case OnUnlink(parent, name, isSymlink) =>
      OneOp(filters, ResolveWithName(known, parent, name),
            p => if isSymlink then SymlinkDelete(p) else FileDelete(p))
    case OnMkdir(parent, name, mode) =>
      OneOp(filters, ResolveWithName(known, parent, name), p => DirCreate(p, mode))
    case OnRmdir(parent, name) =>
      OneOp(filters, ResolveWithName(known, parent, name), p => DirDelete(p))
    case OnRename(parent, name, newParent, newName, isDir) =>
      var src, dst := ResolveWithName(known, parent, name), ResolveWithName(known, newParent, newName);
      if src.None? || dst.None? || IsIgnored(filters, src.value) || IsIgnored(filters, dst.value) then []
      else if isDir then [DirRename(src.value, dst.value)] else [FileRename(src.value, dst.value)]
    case OnSetattr(ino, _, _, _, _) =>
      var p := Resolve(known, ino);
      if p.None? || IsIgnored(filters, p.value) then [] else SetattrOps(p.value, n)
    case OnSymlink(parent, name, target) =>
      OneOp(filters, ResolveWithName(known, parent, name), p => SymlinkCreate(p, target))
    case OnLink(ino, newParent, newName) =>
      var existing, dst := Resolve(known, ino), ResolveWithName(known, newParent, newName);
      if existing.None? || dst.None? || IsIgnored(filters, existing.value) || IsIgnored(filters, dst.value) then []
      else [HardLinkCreate(existing.value, dst.value)]
  }

  // ---- What is captured, told otherwise ----

  // The paths a notification is about, as far as the map can tell them.
  ghost function PathsNamed(known: map<Ino, Path>, n: Notification): seq<Option<Path>> {
    match n
    case OnWrite(ino, _, _) => [Resolve(known, ino)]
    case OnSetattr(ino, _, _, _, _) => [Resolve(known, ino)]
    case OnLink(ino, newParent, newName) => [Resolve(known, ino), ResolveWithName(known, newParent, newName)]
    case OnRename(parent, name, newParent, newName, _) =>
      [ResolveWithName(known, parent, name), ResolveWithName(known, newParent, newName)]
    case _ => [ResolveWithName(known, n.parent, n.name)]
  }

  // None of them is unknown, and none is at or below the directory of any filter.
  ghost predicate Reportable(filters: seq<Name>, paths: seq<Option<Path>>) {
    forall i | 0 <= i < |paths| :: paths[i].Some? && (paths[i].value == [] || paths[i].value[0] !in filters)
  }

  // One operation of the kind the notification tells of, on those paths; one for each
  // attribute that is set.
  ghost predicate Reports(n: Notification, paths: seq<Option<Path>>, ops: seq<Operation>)
    requires |paths| > 0 && forall i | 0 <= i < |paths| :: paths[i].Some?
  {
    var p := paths[0].value;
    match n
    case OnWrite(_, offset, data) =>
      |ops| == 1 && ops[0].FileWrite? && ops[0].path == p && ops[0].data == data && IsU64Of(ops[0].offset, offset)
    case OnCreate(_, _, mode) => ops == [FileCreate(p, mode, [])]
    case OnUnlink(_, _, isSymlink) => ops == (if isSymlink then [SymlinkDelete(p)] else [FileDelete(p)])
    case OnMkdir(_, _, mode) => ops == [DirCreate(p, mode)]
    case OnRmdir(_, _) => ops == [DirDelete(p)]
    case OnRename(_, _, _, _, isDir) =>
      && |paths| == 2
      && ops == (if isDir then [DirRename(p, paths[1].value)] else [FileRename(p, paths[1].value)])
    case OnSetattr(_, size, newMode, atime, mtime) => ReportsAttributes(p, size, newMode, atime, mtime, ops)
    case OnSymlink(_, _, target) => ops == [SymlinkCreate(p, target)]
    case OnLink(_, _, _) => |paths| == 2 && ops == [HardLinkCreate(p, paths[1].value)]
  }

  // Two's complement.
  ghost predicate IsU64Of(u: nat, offset: int) {
    u < TWO_TO_THE_64 && exists k: int :: u == offset + k * TWO_TO_THE_64
  }

  ghost predicate IsSecondsOf(seconds: Option<nat>, t: Option<int>) {
    && (seconds.Some? <==> t.Some? && t.value >= 0)
    && (seconds.Some? ==> seconds.value * NANOS_PER_SECOND <= t.value < (seconds.value + 1) * NANOS_PER_SECOND)
  }

  // At most one operation of each kind, the size first and the times last, and each with
  // the value it was set to.
  ghost predicate ReportsAttributes(p: Path, size: Option<nat>, newMode: Option<nat>, atime: Option<int>,
                                    mtime: Option<int>, ops: seq<Operation>)
  {
    var n := if size.Some? then 1 else 0;
    var m := n + if newMode.Some? then 1 else 0;
    && |ops| == m + (if atime.Some? || mtime.Some? then 1 else 0)
    && (size.Some? ==> ops[0] == FileTruncate(p, size.value))
    && (newMode.Some? ==> ops[n] == SetPermissions(p, newMode.value))
    && (atime.Some? || mtime.Some? ==>
          && ops[m].SetTimestamps? && ops[m].path == p
          && IsSecondsOf(ops[m].atime, atime) && IsSecondsOf(ops[m].mtime, mtime))
  }

  lemma AttributesAreReported(p: Path, n: Notification)
    requires n.OnSetattr?
    ensures ReportsAttributes(p, n.size, n.newMode, n.atime, n.mtime, SetattrOps(p, n))
  {
    assert IsSecondsOf(EpochSeconds(n.atime), n.atime) && IsSecondsOf(EpochSeconds(n.mtime), n.mtime);
  }

  lemma OffsetIsReported(offset: int)
    ensures IsU64Of(AsU64(offset), offset)
  {
    var k := -(offset / TWO_TO_THE_64);
    assert AsU64(offset) == offset + k * TWO_TO_THE_64;
  }

  // A notification is reported as what it tells of, unless one of its paths is unknown or
  // under a filter's directory, whichever filter that is; then it is not reported at all.
  lemma CapturedIsReported(known: map<Ino, Path>, filters: seq<Name>, n: Notification)
    ensures var paths, ops := PathsNamed(known, n), Captured(known, filters, n);
            if Reportable(filters, paths) then Reports(n, paths, ops) else ops == []
  {
    var paths := PathsNamed(known, n);
    forall i | 0 <= i < |paths| && paths[i].Some?
      ensures IsIgnored(filters, paths[i].value) <==> paths[i].value != [] && paths[i].value[0] in filters
    {
      IgnoredIff(filters, paths[i].value);
    }
    if n.OnSetattr? && paths[0].Some? {
      AttributesAreReported(paths[0].value, n);
    }
    if n.OnWrite? {
      OffsetIsReported(n.offset);
      assert paths[0] == Resolve(known, n.ino);
    }
  }

  // No captured operation is about an ignored path, in either of its paths.
  lemma CapturedIsVisible(known: map<Ino, Path>, filters: seq<Name>, n: Notification, op: Operation, p: Path)
    requires op in Captured(known, filters, n) && op.AffectsPath(p)
    ensures !IsIgnored(filters, p)
  {
  }

  // ---- Offering to the queue ----

  // The queue after a run of emits: numbers are used up whether or not there is room.
  function Offered(queue: seq<Opcode>, capacity: nat, seqNo: nat, clock: nat -> nat,
                   ops: seq<Operation>): (r: seq<Opcode>)
    ensures |queue| <= capacity ==> |r| <= capacity
    decreases |ops|
  {
    if ops == [] then queue
    else
      var room := |queue| < capacity;
      Offered(if room then queue + [Opcode(seqNo, clock(seqNo), ops[0])] else queue,
              capacity, seqNo + 1, clock, ops[1..])
  }

  lemma {:induction false} OfferedSplits(queue: seq<Opcode>, capacity: nat, seqNo: nat, clock: nat -> nat,
                                         a: seq<Operation>, b: seq<Operation>)
    ensures Offered(queue, capacity, seqNo, clock, a + b) ==
            Offered(Offered(queue, capacity, seqNo, clock, a), capacity, seqNo + |a|, clock, b)
    decreases |a|
  {
    if a == [] {
      assert a + b == b;
    } else {
      assert (a + b)[0] == a[0] && (a + b)[1..] == a[1..] + b;
      var q := if |queue| < capacity then queue + [Opcode(seqNo, clock(seqNo), a[0])] else queue;
      OfferedSplits(q, capacity, seqNo + 1, clock, a[1..], b);
    }
  }

  // As many of the operations as there is room for are queued behind what was there, the
  // first ones, each with its own number and stamped with the time it was numbered at.
  lemma {:induction false} OfferedTells(queue: seq<Opcode>, capacity: nat, seqNo: nat, clock: nat -> nat,
                                        ops: seq<Operation>)
    requires |queue| <= capacity
    ensures var r := Offered(queue, capacity, seqNo, clock, ops);
            && |r| == (if |queue| + |ops| <= capacity then |queue| + |ops| else capacity)
            && r[..|queue|] == queue
            && forall i | |queue| <= i < |r| ::
                 r[i] == Opcode(seqNo + i - |queue|, clock(seqNo + i - |queue|), ops[i - |queue|])
    decreases |ops|
  {
    if ops != [] && |queue| < capacity {
      var q := queue + [Opcode(seqNo, clock(seqNo), ops[0])];
      OfferedTells(q, capacity, seqNo + 1, clock, ops[1..]);
      var r := Offered(queue, capacity, seqNo, clock, ops);
      assert r[..|queue|] == r[..|q|][..|queue|];
      assert r[|queue|] == r[..|q|][|queue|];
    } else if ops != [] {
      OfferedTells(queue, capacity, seqNo + 1, clock, ops[1..]);
    }
  }

  class OpcodeRecorder {
    const inodeMap: InodeMap
    var nextSeq: nat
    const sender: OpcodeSender
    const filters: seq<Name>
    // The clock the opcodes are stamped with, as read when a number is taken.
    const clock: nat -> nat

    constructor (inodeMap: InodeMap, sender: OpcodeSender, filters: seq<Name>, clock: nat -> nat)
      ensures this.inodeMap == inodeMap && this.sender == sender && this.filters == filters
      ensures this.clock == clock && nextSeq == 1
    {
      this.inodeMap, this.sender, this.filters, this.clock := inodeMap, sender, filters, clock;
      nextSeq := 1;
    }

    method NextSeq() returns (seqNo: nat)
      modifies this
      ensures seqNo == old(nextSeq) && nextSeq == old(nextSeq) + 1
    {
      seqNo := nextSeq;
      nextSeq := nextSeq + 1;
    }

    method Emit(op: Operation)
      modifies this, sender.queue
      ensures nextSeq == old(nextSeq) + 1
      ensures sender.queue.queue ==
              Offered(old(sender.queue.queue), sender.queue.capacity, old(nextSeq), clock, [op])
    {
      var seqNo := NextSeq();
      var opcode := Opcode(seqNo, clock(seqNo), op);
      // a full queue drops the opcode
      var _ := sender.TrySend(opcode);
      assert Offered(old(sender.queue.queue), sender.queue.capacity, old(nextSeq), clock, [op]) ==
             (if |old(sender.queue.queue)| < sender.queue.capacity
              then old(sender.queue.queue) + [opcode] else old(sender.queue.queue));
    }

    // The on_* callbacks: each emits exactly what its notification is captured as.
    method Notify(n: Notification)
      modifies this, sender.queue
      ensures !Reportable(filters, PathsNamed(inodeMap.paths, n)) ==>
                nextSeq == old(nextSeq) && sender.queue.queue == old(sender.queue.queue)
      ensures var ops := Captured(inodeMap.paths, filters, n);
              && nextSeq == old(nextSeq) + |ops|
              && sender.queue.queue ==
                 Offered(old(sender.queue.queue), sender.queue.capacity, old(nextSeq), clock, ops)
    {
      var known := inodeMap.paths;
      CapturedIsReported(known, filters, n);
      match n
      case OnWrite(ino, offset, data) =>
        var path := Resolve(known, ino);
        if path.None? || IsIgnored(filters, path.value) { return; }
        Emit(FileWrite(path.value, AsU64(offset), data));
      case OnCreate(parent, name, mode) =>
        var path := ResolveWithName(known, parent, name);
        if path.None? || IsIgnored(filters, path.value) { return; }
        Emit(FileCreate(path.value, mode, []));
      case OnUnlink(parent, name, isSymlink) =>
        var path := ResolveWithName(known, parent, name);
        if path.None? || IsIgnored(filters, path.value) { return; }
        if isSymlink {
          Emit(SymlinkDelete(path.value));
        } else {
          Emit(FileDelete(path.value));
        }
      case OnMkdir(parent, name, mode) =>
        var path := ResolveWithName(known, parent, name);
        if path.None? || IsIgnored(filters, path.value) { return; }
        Emit(DirCreate(path.value, mode));
      case OnRmdir(parent, name) =>
        var path := ResolveWithName(known, parent, name);
        if path.None? || IsIgnored(filters, path.value) { return; }
        Emit(DirDelete(path.value));
      case OnRename(parent, name, newParent, newName, isDir) =>
        var oldPath := ResolveWithName(known, parent, name);
        if oldPath.None? { return; }
        var newPath := ResolveWithName(known, newParent, newName);
        if newPath.None? { return; }
        if IsIgnored(filters, oldPath.value) || IsIgnored(filters, newPath.value) { return; }
        if isDir {
          Emit(DirRename(oldPath.value, newPath.value));
        } else {
          Emit(FileRename(oldPath.value, newPath.value));
        }
      case OnSetattr(ino, size, mode, atime, mtime) =>
        var path := Resolve(known, ino);
        if path.None? || IsIgnored(filters, path.value) { return; }
        NotifySetattr(path.value, n);
      case OnSymlink(parent, name, target) =>
        var path := ResolveWithName(known, parent, name);
        if path.None? || IsIgnored(filters, path.value) { return; }
        Emit(SymlinkCreate(path.value, target));
      case OnLink(ino, newParent, newName) =>
        var existing := Resolve(known, ino);
        if existing.None? { return; }
        var newPath := ResolveWithName(known, newParent, newName);
        if newPath.None? { return; }
        if IsIgnored(filters, existing.value) || IsIgnored(filters, newPath.value) { return; }
        Emit(HardLinkCreate(existing.value, newPath.value));
    }

    // One opcode for each attribute that changes.
    method NotifySetattr(path: Path, n: Notification)
      requires n.OnSetattr?
      modifies this, sender.queue
      ensures nextSeq == old(nextSeq) + |SetattrOps(path, n)|
      ensures sender.queue.queue ==
              Offered(old(sender.queue.queue), sender.queue.capacity, old(nextSeq), clock, SetattrOps(path, n))
    {
      ghost var queue, first := sender.queue.queue, nextSeq;
      ghost var done: seq<Operation> := [];
      if n.size.Some? {
        EmitNext(FileTruncate(path, n.size.value), done, queue, first);
        done := done + [FileTruncate(path, n.size.value)];
      }
      if n.newMode.Some? {
        EmitNext(SetPermissions(path, n.newMode.value), done, queue, first);
        done := done + [SetPermissions(path, n.newMode.value)];
      }
      if n.atime.Some? || n.mtime.Some? {
        var op := SetTimestamps(path, EpochSeconds(n.atime), EpochSeconds(n.mtime));
        EmitNext(op, done, queue, first);
        done := done + [op];
      }
      assert done == SetattrOps(path, n);
    }

    // One opcode after others; `queue` and `first` are from before the first of them.
    method EmitNext(op: Operation, ghost done: seq<Operation>, ghost queue: seq<Opcode>, ghost first: nat)
      requires nextSeq == first + |done|
      requires sender.queue.queue == Offered(queue, sender.queue.capacity, first, clock, done)
      modifies this, sender.queue
      ensures nextSeq == first + |done + [op]|
      ensures sender.queue.queue == Offered(queue, sender.queue.capacity, first, clock, done + [op])
    {
      OfferedSplits(queue, sender.queue.capacity, first, clock, done, [op]);
      Emit(op);
    }
  }
}
