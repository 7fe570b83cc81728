// Operations as the recorder captures them, and the paths each of them is about.
module Opcodes {
  import opened Wrappers
  import opened Bytes

  // A file name is any byte string without '/'; only some of them are UTF-8.
  datatype Name = Utf8(text: string) | Raw(bytes: seq<byte>)

  // A relative path is its components; the empty path is the root.
  type Path = seq<Name>

  predicate IsUtf8(p: Path) {
    forall i | 0 <= i < |p| :: p[i].Utf8?
  }

  predicate Below(p: Path, dir: Path) {
    |dir| < |p| && p[..|dir|] == dir
  }

  predicate AtOrBelow(p: Path, dir: Path) {
    |dir| <= |p| && p[..|dir|] == dir
  }

  function Parent(p: Path): Path
    requires p != []
  {
    p[..|p| - 1]
  }

  function Ancestors(p: Path): set<Path> {
    set i: nat | 0 < i < |p| :: p[..i]
  }

  lemma AncestorsAreAbove(p: Path, d: Path)
    ensures d in Ancestors(p) <==> d != [] && Below(p, d)
  {
    if d != [] && Below(p, d) {
      var i := |d|;
      assert 0 < i < |p| && p[..i] == d;
    }
  }

  datatype Operation =
    | FileCreate(path: Path, mode: nat, content: Content)
    | FileWrite(path: Path, offset: nat, data: Content)
    | FileTruncate(path: Path, newSize: nat)
    | FileDelete(path: Path)
    | FileRename(oldPath: Path, newPath: Path)
    | DirCreate(path: Path, mode: nat)
    | DirDelete(path: Path)
    | DirRename(oldPath: Path, newPath: Path)
    | SetPermissions(path: Path, mode: nat)
    | SetTimestamps(path: Path, atime: Option<nat>, mtime: Option<nat>)
    | SetOwnership(path: Path, uid: Option<nat>, gid: Option<nat>)
    | SymlinkCreate(path: Path, target: Path)
    | SymlinkDelete(path: Path)
    | HardLinkCreate(existingPath: Path, newPath: Path)
  {
    function PrimaryPath(): Path {
      match this
      case FileRename(oldPath, _) => oldPath
      case DirRename(oldPath, _) => oldPath
      case HardLinkCreate(_, newPath) => newPath
      case _ => path
    }

    predicate AffectsPath(p: Path) {
      match this
      case FileRename(oldPath, newPath) => oldPath == p || newPath == p
      case DirRename(oldPath, newPath) => oldPath == p || newPath == p
      case HardLinkCreate(existingPath, newPath) => existingPath == p || newPath == p
      case _ => PrimaryPath() == p
    }

    predicate IsFileOp() {
      FileCreate? || FileWrite? || FileTruncate? || FileDelete? || FileRename?
    }

    // The operations the backend can replay one path at a time.
    predicate IsContentOp() {
      FileCreate? || FileWrite? || FileTruncate? || FileDelete?
    }
  }

  // Every path an operation names, be it where something is or where it goes.
  ghost function PathsOf(op: Operation): set<Path> {
    match op
    case FileCreate(p, _, _) => {p}
    case FileWrite(p, _, _) => {p}
    case FileTruncate(p, _) => {p}
    case FileDelete(p) => {p}
    case FileRename(p, q) => {p, q}
    case DirCreate(p, _) => {p}
    case DirDelete(p) => {p}
    case DirRename(p, q) => {p, q}
    case SetPermissions(p, _) => {p}
    case SetTimestamps(p, _, _) => {p}
    case SetOwnership(p, _, _) => {p}
    case SymlinkCreate(p, _) => {p}
    case SymlinkDelete(p) => {p}
    case HardLinkCreate(p, q) => {p, q}
  }

  lemma AffectsWhatItNames(op: Operation, p: Path)
    ensures op.AffectsPath(p) <==> p in PathsOf(op)
    ensures op.PrimaryPath() in PathsOf(op)
  {
  }

  datatype Opcode = Opcode(seqNo: nat, timestamp: nat, op: Operation)
}
