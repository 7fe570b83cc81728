// Listing a directory page by page: a reply buffer that takes entries until one does
// not fit, and a caller that comes back with the offset of the last one it got.
module Paging {
  import opened Wrappers
  import opened Opcodes

  datatype DirEntry = DirEntry(ino: nat, dir: bool, name: Name)

  // An entry in a reply, with the offset from which the listing goes on after it.
  datatype Added = Added(entry: DirEntry, offset: nat)

  function NameLength(name: Name): nat {
    match name
    case Utf8(text) => |text|
    case Raw(bytes) => |bytes|
  }

  // A directory entry in a FUSE reply: a header, the name, padding to eight bytes.
  function SizeOf(entry: DirEntry): (n: nat)
    ensures n >= 24
  {
    (24 + NameLength(entry.name) + 7) / 8 * 8
  }

  class ReplyDirectory {
    const maxSize: nat
    var used: nat
    var added: seq<Added>

    constructor (maxSize: nat)
      ensures this.maxSize == maxSize && used == 0 && added == []
    {
      this.maxSize, used, added := maxSize, 0, [];
    }

    // Whether the buffer is full; if it is, the entry was not taken.
    method Add(entry: DirEntry, offset: nat) returns (full: bool)
      modifies this
      ensures full <==> old(used) + SizeOf(entry) > maxSize
      ensures full ==> used == old(used) && added == old(added)
      ensures !full ==> used == old(used) + SizeOf(entry) && added == old(added) + [Added(entry, offset)]
    {
      if used + SizeOf(entry) > maxSize {
        return true;
      }
      used, added := used + SizeOf(entry), added + [Added(entry, offset)];
      return false;
    }
  }

  // How many of the entries from `offset` on fit into `room`.
  function Fitting(entries: seq<DirEntry>, offset: nat, room: nat): (n: nat)
    ensures offset <= |entries| ==> offset + n <= |entries|
    decreases |entries| - offset
  {
    if offset >= |entries| || SizeOf(entries[offset]) > room then 0
    else 1 + Fitting(entries, offset + 1, room - SizeOf(entries[offset]))
  }

  // Entries numbered from 1, as readdir hands them out.
  function Numbered(entries: seq<DirEntry>): (r: seq<Added>)
    ensures |r| == |entries|
    ensures forall i | 0 <= i < |r| :: r[i] == Added(entries[i], i + 1)
  {
    seq(|entries|, i requires 0 <= i < |entries| => Added(entries[i], i + 1))
  }

  function Page(entries: seq<DirEntry>, offset: nat, room: nat): seq<Added> {
    if offset >= |entries| then []
    else Numbered(entries)[offset..offset + Fitting(entries, offset, room)]
  }

  // The loop at the end of readdir.
  method FillReply(entries: seq<DirEntry>, offset: nat, reply: ReplyDirectory)
    requires reply.used == 0 && reply.added == []
    modifies reply
    ensures reply.added == Page(entries, offset, reply.maxSize)
  {
    ghost var total := Fitting(entries, offset, reply.maxSize);
    var i := offset;
    while i < |entries|
      invariant offset <= i
      invariant i <= |entries| || i == offset
      invariant reply.used <= reply.maxSize
      invariant i - offset + Fitting(entries, i, reply.maxSize - reply.used) == total
      invariant offset <= |entries| ==> reply.added == Numbered(entries)[offset..i]
      invariant offset > |entries| ==> reply.added == []
    {
      var full := reply.Add(entries[i], i + 1);
      if full {
        break;
      }
      i := i + 1;
    }
  }

  // ---- Coming back for more ----

  ghost predicate HoldsAny(entries: seq<DirEntry>, room: nat) {
    forall i | 0 <= i < |entries| :: SizeOf(entries[i]) <= room
  }

  lemma PageIsNonempty(entries: seq<DirEntry>, offset: nat, room: nat)
    requires HoldsAny(entries, room)
    ensures var page := Page(entries, offset, room);
            && (page == [] <==> offset >= |entries|)
            && (page != [] ==> offset + |page| <= |entries| && page[|page| - 1].offset == offset + |page|
                               && page == Numbered(entries)[offset..offset + |page|])
  {
    if offset < |entries| {
      assert SizeOf(entries[offset]) <= room;
      assert Fitting(entries, offset, room) >= 1;
    }
  }

  ghost predicate Roomy(entries: seq<DirEntry>, rooms: nat -> nat) {
    forall k :: HoldsAny(entries, rooms(k))
  }

  // A buffer too small for the next entry ends the listing early: an empty reply is
  // taken for the end of the directory.
  lemma SmallBufferEndsListing(entries: seq<DirEntry>, offset: nat, room: nat)
    ensures Page(entries, offset, room) == [] <==> offset >= |entries| || room < SizeOf(entries[offset])
  {
  }
}
