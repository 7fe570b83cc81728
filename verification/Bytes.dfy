// File contents: what POSIX says pwrite() and ftruncate() do to a file, and what the
// recording backend does to its own copy of the bytes for the same requests.
module Bytes {
  newtype byte = x: int | 0 <= x < 256

  type Content = seq<byte>

  // A file read past its end yields zeros as soon as it is extended; two contents
  // agree when no such read can tell them apart.
  function ByteAt(c: Content, i: nat): byte {
    if i < |c| then c[i] else 0
  }

  ghost predicate Agree(a: Content, b: Content) {
    forall i: nat :: ByteAt(a, i) == ByteAt(b, i)
  }

  function Max(a: nat, b: nat): nat {
    if a < b then b else a
  }

  // Vec::resize(n, 0), which is also what ftruncate(n) does to a file.
  function Resized(c: Content, n: nat): (r: Content)
    ensures |r| == n
    ensures forall i: nat | i < n :: r[i] == ByteAt(c, i)
  {
    if n <= |c| then c[..n] else c + seq(n - |c|, _ => 0)
  }

  // copy_from_slice into content[at..at + data.len()].
  function Overlaid(c: Content, at: nat, data: Content): (r: Content)
    requires at + |data| <= |c|
    ensures |r| == |c|
    ensures forall i: nat | i < |c| :: r[i] == if at <= i < at + |data| then data[i - at] else c[i]
  {
    c[..at] + data + c[at + |data|..]
  }

  datatype Edit = Write(offset: nat, data: Content) | Truncate(size: nat)

  // pwrite() of no bytes to a regular file changes nothing, wherever it points.
  function PosixStep(c: Content, e: Edit): Content {
    match e
    case Write(offset, data) =>
      if data == [] then c else Overlaid(Resized(c, Max(|c|, offset + |data|)), offset, data)
    case Truncate(size) => Resized(c, size)
  }

  // The three statements of record_file_write, and Vec::truncate.
  function RecordedWrite(c: Content, offset: nat, data: Content): (r: Content)
    ensures |r| == Max(|c|, offset + |data|)
    ensures forall i: nat ::
              ByteAt(r, i) == if offset <= i < offset + |data| then data[i - offset] else ByteAt(c, i)
  {
    var c1 := if offset > |c| then Resized(c, offset) else c;
    var c2 := if offset + |data| > |c1| then Resized(c1, offset + |data|) else c1;
    Overlaid(c2, offset, data)
  }

  function RecordedTruncate(c: Content, size: nat): (r: Content)
    ensures |r| == if size < |c| then size else |c|
    ensures forall i: nat :: ByteAt(r, i) == if i < size then ByteAt(c, i) else 0
  {
    if size < |c| then c[..size] else c
  }

  function RecordedStep(c: Content, e: Edit): Content {
    match e
    case Write(offset, data) => RecordedWrite(c, offset, data)
    case Truncate(size) => RecordedTruncate(c, size)
  }

  function PosixRun(c: Content, es: seq<Edit>): Content
    decreases |es|
  {
    if es == [] then c else PosixRun(PosixStep(c, es[0]), es[1..])
  }

  function RecordedRun(c: Content, es: seq<Edit>): Content
    decreases |es|
  {
    if es == [] then c else RecordedRun(RecordedStep(c, es[0]), es[1..])
  }

  // ---- Refinement: the two never differ except in trailing zeros ----

  lemma PosixBytes(c: Content, e: Edit, i: nat)
    ensures ByteAt(PosixStep(c, e), i) ==
            match e
            case Write(offset, data) =>
              if offset <= i < offset + |data| then data[i - offset] else ByteAt(c, i)
            case Truncate(size) => if i < size then ByteAt(c, i) else 0
  {
  }

  lemma StepKeepsAgreement(a: Content, b: Content, e: Edit)
    requires Agree(a, b)
    ensures Agree(RecordedStep(a, e), PosixStep(b, e))
  {
    forall i: nat
      ensures ByteAt(RecordedStep(a, e), i) == ByteAt(PosixStep(b, e), i)
    {
      PosixBytes(b, e, i);
      assert ByteAt(a, i) == ByteAt(b, i);
    }
  }

  lemma {:induction false} RunKeepsAgreement(a: Content, b: Content, es: seq<Edit>)
    requires Agree(a, b)
    ensures Agree(RecordedRun(a, es), PosixRun(b, es))
    decreases |es|
  {
    if es != [] {
      StepKeepsAgreement(a, b, es[0]);
      RunKeepsAgreement(RecordedStep(a, es[0]), PosixStep(b, es[0]), es[1..]);
    }
  }

  lemma {:induction false} NeverLonger(a: Content, b: Content, es: seq<Edit>)
    requires |a| <= |b|
    requires forall e | e in es :: e.Write? ==> e.data != []
    ensures |RecordedRun(a, es)| <= |PosixRun(b, es)|
    decreases |es|
  {
    if es != [] {
      assert es[0] in es;
      NeverLonger(RecordedStep(a, es[0]), PosixStep(b, es[0]), es[1..]);
    }
  }

  // ---- When the two are the same bytes ----

  // The guards under which the recorder's arithmetic is POSIX's: it must not be
  // asked for an empty write past the end, nor for a truncation that extends.
  predicate Exact(c: Content, e: Edit) {
    match e
    case Write(offset, data) => data != [] || offset <= |c|
    case Truncate(size) => size <= |c|
  }

  predicate ExactRun(c: Content, es: seq<Edit>)
    decreases |es|
  {
    es != [] ==> Exact(c, es[0]) && ExactRun(PosixStep(c, es[0]), es[1..])
  }

  lemma SameBytesExactly(a: Content, b: Content)
    requires |a| == |b| && Agree(a, b)
    ensures a == b
  {
    forall i | 0 <= i < |a| ensures a[i] == b[i] {
      assert ByteAt(a, i) == ByteAt(b, i);
    }
  }

  lemma StepExactIff(c: Content, e: Edit)
    ensures RecordedStep(c, e) == PosixStep(c, e) <==> Exact(c, e)
  {
    if Exact(c, e) {
      StepKeepsAgreement(c, c, e);
      SameBytesExactly(RecordedStep(c, e), PosixStep(c, e));
    } else {
      assert |RecordedStep(c, e)| != |PosixStep(c, e)|;
    }
  }

  // The recorded bytes equal the file's bytes after every prefix of the edits
  // exactly when every edit met its guard on the file as it then was.
  lemma {:induction false} RunExactIff(c: Content, es: seq<Edit>)
    ensures ExactRun(c, es) <==>
            forall k :: 0 <= k <= |es| ==> RecordedRun(c, es[..k]) == PosixRun(c, es[..k])
    decreases |es|
  {
    if es != [] {
      var e, rest := es[0], es[1..];
      StepExactIff(c, e);
      forall k | 1 <= k <= |es|
        ensures es[..k] == [e] + rest[..k - 1]
        ensures RecordedRun(c, es[..k]) == RecordedRun(RecordedStep(c, e), rest[..k - 1])
        ensures PosixRun(c, es[..k]) == PosixRun(PosixStep(c, e), rest[..k - 1])
      {
        assert es[..k][0] == e && es[..k][1..] == rest[..k - 1];
      }
      if Exact(c, e) {
        var d := PosixStep(c, e);
        RunExactIff(d, rest);
        if ExactRun(d, rest) {
          forall k | 0 <= k <= |es| ensures RecordedRun(c, es[..k]) == PosixRun(c, es[..k]) {
            if k > 0 {
              assert RecordedRun(d, rest[..k - 1]) == PosixRun(d, rest[..k - 1]);
            }
          }
        } else {
          var k :| 0 <= k <= |rest| && RecordedRun(d, rest[..k]) != PosixRun(d, rest[..k]);
          assert es[..k + 1][1..] == rest[..k];
          assert RecordedRun(c, es[..k + 1]) != PosixRun(c, es[..k + 1]);
        }
      } else {
        assert rest[..0] == [];
        assert RecordedRun(c, es[..1]) != PosixRun(c, es[..1]);
      }
    }
  }

  // A short write leaves what the whole write would have left exactly when the bytes
  // that did not make it were there already.
  predicate RestWasThere(c: Content, offset: nat, data: Content, written: nat)
    requires written <= |data|
  {
    written == |data| || (offset + |data| <= |c| && c[offset + written..offset + |data|] == data[written..])
  }

  lemma ShortWriteIff(c: Content, offset: nat, data: Content, written: nat)
    requires written <= |data|
    ensures PosixStep(c, Write(offset, data[..written])) == PosixStep(c, Write(offset, data)) <==>
            RestWasThere(c, offset, data, written)
  {
    if written == |data| {
      assert data[..written] == data;
    } else if RestWasThere(c, offset, data, written) {
      RestThere(c, offset, data, written);
    } else {
      RestMissing(c, offset, data, written);
    }
  }

  lemma RestThere(c: Content, offset: nat, data: Content, written: nat)
    requires written < |data| && RestWasThere(c, offset, data, written)
    ensures PosixStep(c, Write(offset, data[..written])) == PosixStep(c, Write(offset, data))
  {
    var part, whole := PosixStep(c, Write(offset, data[..written])), PosixStep(c, Write(offset, data));
    forall i: nat ensures ByteAt(part, i) == ByteAt(whole, i) {
      PosixBytes(c, Write(offset, data[..written]), i);
      PosixBytes(c, Write(offset, data), i);
      if offset + written <= i < offset + |data| {
        assert c[offset + written..offset + |data|][i - offset - written] == data[written..][i - offset - written];
      }
    }
    SameBytesExactly(part, whole);
  }

  lemma SomeDifference(a: Content, b: Content) returns (i: nat)
    requires |a| == |b| && a != b
    ensures i < |a| && a[i] != b[i]
  {
    i :| i < |a| && a[i] != b[i];
  }

  lemma RestMissing(c: Content, offset: nat, data: Content, written: nat)
    requires written < |data| && !RestWasThere(c, offset, data, written)
    ensures PosixStep(c, Write(offset, data[..written])) != PosixStep(c, Write(offset, data))
  {
    var part, whole := PosixStep(c, Write(offset, data[..written])), PosixStep(c, Write(offset, data));
    assert |whole| == Max(|c|, offset + |data|);
    if offset + |data| <= |c| {
      var i := SomeDifference(c[offset + written..offset + |data|], data[written..]);
      i := i + written;
      PosixBytes(c, Write(offset, data[..written]), offset + i);
      PosixBytes(c, Write(offset, data), offset + i);
      assert ByteAt(part, offset + i) != ByteAt(whole, offset + i);
    }
  }

  // A truncation to nothing makes any two contents agree again, so everything the
  // recorder got wrong about a file before it is forgotten.
  lemma TruncateToZeroResynchronises(a: Content, b: Content, es: seq<Edit>)
    ensures Agree(RecordedRun(a, [Truncate(0)] + es), PosixRun(b, [Truncate(0)] + es))
  {
    assert ([Truncate(0)] + es)[1..] == es;
    RunKeepsAgreement(RecordedStep(a, Truncate(0)), PosixStep(b, Truncate(0)), es);
  }

  // ---- One write, split ----

  // A piece is the part data[lo..hi] of one request, written at its own place.
  datatype Piece = Piece(lo: nat, hi: nat)

  ghost predicate PiecesOf(data: Content, ps: seq<Piece>) {
    forall k | 0 <= k < |ps| :: ps[k].lo < ps[k].hi <= |data|
  }

  ghost predicate Covered(ps: seq<Piece>, i: nat) {
    ps != [] && (ps[0].lo <= i < ps[0].hi || Covered(ps[1..], i))
  }

  lemma {:induction false} CoveredBy(ps: seq<Piece>, k: nat, i: nat)
    requires k < |ps| && ps[k].lo <= i < ps[k].hi
    ensures Covered(ps, i)
    decreases k
  {
    if k > 0 {
      CoveredBy(ps[1..], k - 1, i);
    }
  }

  ghost function PieceEdits(offset: nat, data: Content, ps: seq<Piece>): (es: seq<Edit>)
    requires PiecesOf(data, ps)
    ensures |es| == |ps|
    ensures forall k | 0 <= k < |ps| :: es[k] == Write(offset + ps[k].lo, data[ps[k].lo..ps[k].hi])
  {
    if ps == [] then []
    else [Write(offset + ps[0].lo, data[ps[0].lo..ps[0].hi])] + PieceEdits(offset, data, ps[1..])
  }

  ghost function End(offset: nat, ps: seq<Piece>): nat {
    if ps == [] then 0 else Max(offset + ps[0].hi, End(offset, ps[1..]))
  }

  lemma {:induction false} EndOfCover(offset: nat, data: Content, ps: seq<Piece>)
    requires PiecesOf(data, ps)
    ensures End(offset, ps) <= offset + |data|
    ensures data != [] && Covered(ps, |data| - 1) ==> End(offset, ps) == offset + |data|
    decreases |ps|
  {
    if ps != [] {
      EndOfCover(offset, data, ps[1..]);
    }
  }

  // The first of several pieces, written.
  ghost function FirstWritten(c: Content, offset: nat, data: Content, ps: seq<Piece>): (c1: Content)
    requires ps != [] && PiecesOf(data, ps)
    ensures |c1| == Max(|c|, offset + ps[0].hi)
  {
    RecordedWrite(c, offset + ps[0].lo, data[ps[0].lo..ps[0].hi])
  }

  lemma PieceWrittenAt(c: Content, offset: nat, data: Content, lo: nat, hi: nat, i: nat)
    requires lo <= hi <= |data|
    ensures ByteAt(RecordedWrite(c, offset + lo, data[lo..hi]), i) ==
            if offset + lo <= i < offset + hi then data[i - offset] else ByteAt(c, i)
  {
    var piece := data[lo..hi];
    var r := RecordedWrite(c, offset + lo, piece);
    assert ByteAt(r, i) ==
           if offset + lo <= i < offset + lo + |piece| then piece[i - (offset + lo)] else ByteAt(c, i);
  }

  lemma FirstPieceFirst(c: Content, offset: nat, data: Content, ps: seq<Piece>)
    requires ps != [] && PiecesOf(data, ps)
    ensures PiecesOf(data, ps[1..])
    ensures RecordedRun(c, PieceEdits(offset, data, ps)) ==
            RecordedRun(FirstWritten(c, offset, data, ps), PieceEdits(offset, data, ps[1..]))
  {
    assert PieceEdits(offset, data, ps)[1..] == PieceEdits(offset, data, ps[1..]);
  }

  lemma {:induction false} PiecesReach(c: Content, offset: nat, data: Content, ps: seq<Piece>)
    requires PiecesOf(data, ps)
    ensures |RecordedRun(c, PieceEdits(offset, data, ps))| == Max(|c|, End(offset, ps))
    decreases |ps|
  {
    if ps != [] {
      FirstPieceFirst(c, offset, data, ps);
      PiecesReach(FirstWritten(c, offset, data, ps), offset, data, ps[1..]);
    }
  }

  lemma {:induction false} PiecesLeave(c: Content, offset: nat, data: Content, ps: seq<Piece>, i: nat)
    requires PiecesOf(data, ps)
    ensures ByteAt(RecordedRun(c, PieceEdits(offset, data, ps)), i) ==
            if offset <= i < offset + |data| && Covered(ps, i - offset) then data[i - offset] else ByteAt(c, i)
    decreases |ps|
  {
    if ps != [] {
      FirstPieceFirst(c, offset, data, ps);
      PieceWrittenAt(c, offset, data, ps[0].lo, ps[0].hi, i);
      PiecesLeave(FirstWritten(c, offset, data, ps), offset, data, ps[1..], i);
    }
  }

  // However one write of some bytes is cut up -- pieces may overlap, repeat and come
  // in any order -- writing the pieces leaves what the single write leaves, the
  // zero-filled gap before it included.
  lemma PiecesMakeTheWrite(c: Content, offset: nat, data: Content, ps: seq<Piece>)
    requires data != [] && PiecesOf(data, ps)
    requires forall i: nat | i < |data| :: Covered(ps, i)
    ensures RecordedRun(c, PieceEdits(offset, data, ps)) == RecordedWrite(c, offset, data)
  {
    var r, w := RecordedRun(c, PieceEdits(offset, data, ps)), RecordedWrite(c, offset, data);
    assert |r| == |w| by {
      PiecesReach(c, offset, data, ps);
      EndOfCover(offset, data, ps);
    }
    assert Agree(r, w) by {
      forall i: nat ensures ByteAt(r, i) == ByteAt(w, i) {
        PiecesLeave(c, offset, data, ps, i);
      }
    }
    SameBytesExactly(r, w);
  }

  // ---- Consecutive chunks, in any order ----

  function Joined(chunks: seq<Content>): Content {
    if chunks == [] then [] else chunks[0] + Joined(chunks[1..])
  }

  function Start(chunks: seq<Content>, k: nat): nat
    requires k <= |chunks|
  {
    if k == 0 then 0 else |chunks[0]| + Start(chunks[1..], k - 1)
  }

  lemma {:induction false} ChunkSits(chunks: seq<Content>, k: nat)
    requires k < |chunks|
    ensures Start(chunks, k) + |chunks[k]| == Start(chunks, k + 1) <= |Joined(chunks)|
    ensures Joined(chunks)[Start(chunks, k)..Start(chunks, k + 1)] == chunks[k]
    decreases k
  {
    var s := Start(chunks, k);
    if k > 0 {
      ChunkSits(chunks[1..], k - 1);
      var inner := Joined(chunks[1..]);
      assert Joined(chunks) == chunks[0] + inner;
      assert Start(chunks, k + 1) == |chunks[0]| + Start(chunks[1..], k);
      assert Joined(chunks)[s..Start(chunks, k + 1)] ==
             inner[s - |chunks[0]|..Start(chunks, k + 1) - |chunks[0]|];
    }
  }

  lemma {:induction false} SomeChunkHolds(chunks: seq<Content>, i: nat) returns (k: nat)
    requires i < |Joined(chunks)|
    ensures k < |chunks| && Start(chunks, k) <= i < Start(chunks, k + 1)
    decreases |chunks|
  {
    if i < |chunks[0]| {
      k := 0;
    } else {
      k := SomeChunkHolds(chunks[1..], i - |chunks[0]|);
      k := k + 1;
    }
  }

  ghost predicate ChunkOrder(chunks: seq<Content>, order: seq<nat>) {
    forall j | 0 <= j < |order| :: order[j] < |chunks| && chunks[order[j]] != []
  }

  ghost function ChunkEdits(offset: nat, chunks: seq<Content>, order: seq<nat>): (es: seq<Edit>)
    requires ChunkOrder(chunks, order)
    ensures |es| == |order|
  {
    seq(|order|, j requires 0 <= j < |order| => Write(offset + Start(chunks, order[j]), chunks[order[j]]))
  }

  ghost function ChunkPieces(chunks: seq<Content>, order: seq<nat>): (ps: seq<Piece>)
    requires ChunkOrder(chunks, order)
    ensures |ps| == |order|
  {
    seq(|order|, j requires 0 <= j < |order| => Piece(Start(chunks, order[j]), Start(chunks, order[j] + 1)))
  }

  lemma ChunkPiecesFit(chunks: seq<Content>, order: seq<nat>)
    requires ChunkOrder(chunks, order)
    ensures PiecesOf(Joined(chunks), ChunkPieces(chunks, order))
  {
    var ps := ChunkPieces(chunks, order);
    forall k | 0 <= k < |ps| ensures ps[k].lo < ps[k].hi <= |Joined(chunks)| {
      ChunkSits(chunks, order[k]);
    }
  }

  lemma ChunksArePieces(offset: nat, chunks: seq<Content>, order: seq<nat>)
    requires ChunkOrder(chunks, order)
    ensures PiecesOf(Joined(chunks), ChunkPieces(chunks, order))
    ensures PieceEdits(offset, Joined(chunks), ChunkPieces(chunks, order)) == ChunkEdits(offset, chunks, order)
  {
    ChunkPiecesFit(chunks, order);
    var pieces := PieceEdits(offset, Joined(chunks), ChunkPieces(chunks, order));
    var edits := ChunkEdits(offset, chunks, order);
    forall j | 0 <= j < |order| ensures pieces[j] == edits[j] {
      ChunkSits(chunks, order[j]);
    }
  }

  lemma ChunksInAnyOrder(c: Content, offset: nat, chunks: seq<Content>, order: seq<nat>)
    requires chunks != [] && ChunkOrder(chunks, order)
    requires forall k: nat | k < |chunks| :: k in order
    ensures RecordedRun(c, ChunkEdits(offset, chunks, order)) == RecordedWrite(c, offset, Joined(chunks))
  {
    var ps := ChunkPieces(chunks, order);
    ChunksArePieces(offset, chunks, order);
    forall i: nat | i < |Joined(chunks)| ensures Covered(ps, i) {
      var k := SomeChunkHolds(chunks, i);
      assert k in order;
      var j :| 0 <= j < |order| && order[j] == k;
      CoveredBy(ps, j, i);
    }
    assert 0 in order;
    assert chunks[0] != [];
    PiecesMakeTheWrite(c, offset, Joined(chunks), ps);
  }
}
