// PijulBackend and the adapter that feeds it opcodes, in the form of the source: byte
// buffers edited in place, and transactions that are committed or dropped.
module Backend {
  import opened Wrappers
  import opened Bytes
  import opened Opcodes
  import opened Recording

  // Vec::resize(n, 0).
  method Resize(content: array<byte>, n: nat) returns (r: array<byte>)
    ensures fresh(r) && r[..] == Resized(content[..], n)
  {
    r := new byte[n];
    var keep := if n < content.Length then n else content.Length;
    for i := 0 to keep
      invariant r[..i] == content[..i]
    {
      r[i] := content[i];
    }
    for i := keep to n
      invariant forall j | 0 <= j < keep :: r[j] == content[j]
      invariant forall j | keep <= j < i :: r[j] == 0
    {
      r[i] := 0;
    }
    assert r[..] == Resized(content[..], n);
  }

  // content[at..at + data.len()].copy_from_slice(data).
  method CopyFromSlice(content: array<byte>, at: nat, data: seq<byte>)
    requires at + |data| <= content.Length
    modifies content
    ensures content[..] == Overlaid(old(content[..]), at, data)
  {
    for i := 0 to |data|
      invariant forall j | 0 <= j < i :: content[at + j] == data[j]
      invariant forall j | 0 <= j < content.Length && !(at <= j < at + i) :: content[j] == old(content[j])
    {
      content[at + i] := data[i];
    }
    assert forall j | at <= j < at + |data| :: content[j] == data[j - at] by {
      forall j | at <= j < at + |data| ensures content[j] == data[j - at] {
        assert content[at + (j - at)] == data[j - at];
      }
    }
  }

  // The edit record_file_write makes to the bytes it has retrieved.
  method EditForWrite(retrieved: seq<byte>, offset: nat, data: seq<byte>) returns (edited: seq<byte>)
    ensures edited == RecordedWrite(retrieved, offset, data)
  {
    var content := new byte[|retrieved|](i requires 0 <= i < |retrieved| => retrieved[i]);
    assert content[..] == retrieved;
    if offset > content.Length {
      content := Resize(content, offset);
    }
    if offset + |data| > content.Length {
      content := Resize(content, offset + |data|);
    }
    CopyFromSlice(content, offset, data);
    edited := content[..];
  }

  class PijulBackend {
    // What has been committed.
    var tracked: set<Path>
    var contents: map<Path, Content>
    var log: seq<Hash>

    constructor ()
      ensures Repository() == EMPTY_REPO
    {
      tracked, contents, log := {}, map[], [];
    }

    ghost function Repository(): Repo
      reads this
    {
      Repo(Store(tracked, contents), log)
    }

    // The repository after a transaction that came to an effect.
    ghost function Concluded(r: Repo, e: Effect, hash: Hash): Repo {
      Repo(if e.Commit? then e.store else r.store, Logged(r.log, AnswerTo(e, hash)))
    }

    method RecordFileCreate(path: Path, mode: nat, content: Content, hash: Hash) returns (res: Answer)
      modifies this
      ensures var e := CreateEffect(old(Repository()).store, path, content);
              res == AnswerTo(e, hash) && Repository() == Concluded(old(Repository()), e, hash)
      ensures res == Ok(Some(hash)) <==> path != [] && path !in old(tracked)
      ensures res == Ok(Some(hash)) ==> path in tracked && path in contents
    {
      var txnTracked := tracked;
      var current: Path := [];
      for i := 0 to |path|
        invariant path != [] ==> current == path[..if i < |path| then i else |path| - 1]
        invariant txnTracked == tracked + set k: nat | 0 < k <= i && k < |path| :: path[..k]
        invariant path != [] ==> (path in txnTracked <==> path in tracked)
      {
        if i < |path| - 1 {
          current := current + [path[i]];
          assert current == path[..i + 1];
          // add_dir; that it may already be there is ignored
          txnTracked := txnTracked + {current};
        }
      }
      assert (set k: nat | 0 < k <= |path| && k < |path| :: path[..k]) == Ancestors(path);
      // add_file
      if path == [] || path in txnTracked {
        return Err(Refused);
      }
      txnTracked := txnTracked + {path};
      // record_with_memory: a new file always leaves something to record
      tracked := txnTracked;
      if path !in contents {
        contents := contents[path := content];
      }
      log := log + [hash];
      return Ok(Some(hash));
    }

    method DiffAndRecord(txnTracked: set<Path>, path: Path, content: Content, hash: Hash) returns (res: Answer)
      requires path in contents
      modifies this
      ensures var e := DiffEffect(old(Repository()).store, txnTracked, path, content);
              res == AnswerTo(e, hash) && Repository() == Concluded(old(Repository()), e, hash)
      // with an empty diff what the transaction tracked or untracked is lost
      ensures content == old(contents)[path] ==> res == Ok(None) && Repository() == old(Repository())
      ensures content != old(contents)[path] ==>
                res == Ok(Some(hash)) && tracked == txnTracked && log == old(log) + [hash]
    {
      if content == contents[path] {
        // nothing to record: the transaction is dropped, with whatever it did
        return Ok(None);
      }
      tracked := txnTracked;
      contents := contents[path := content];
      log := log + [hash];
      return Ok(Some(hash));
    }

    method RecordFileWrite(path: Path, offset: nat, data: Content, hash: Hash) returns (res: Answer)
      modifies this
      ensures var e := WriteEffect(old(Repository()).store, path, offset, data);
              res == AnswerTo(e, hash) && Repository() == Concluded(old(Repository()), e, hash)
    {
      if path !in contents {
        return Err(FileNotFound);
      }
      var content := EditForWrite(contents[path], offset, data);
      res := DiffAndRecord(tracked, path, content, hash);
    }

    method RecordFileTruncate(path: Path, newSize: nat, hash: Hash) returns (res: Answer)
      modifies this
      ensures var e := TruncateEffect(old(Repository()).store, path, newSize);
              res == AnswerTo(e, hash) && Repository() == Concluded(old(Repository()), e, hash)
    {
      if path !in contents {
        return Err(FileNotFound);
      }
      var content := contents[path];
      if newSize < |content| {
        content := content[..newSize];
      }
      res := DiffAndRecord(tracked, path, content, hash);
    }

    method RecordFileDelete(path: Path, hash: Hash) returns (res: Answer)
      modifies this
      ensures var e := DeleteEffect(old(Repository()).store, path);
              res == AnswerTo(e, hash) && Repository() == Concluded(old(Repository()), e, hash)
      ensures res == Ok(Some(hash)) <==>
              path in old(contents) && path in old(tracked) && old(contents)[path] != []
      ensures res == Ok(Some(hash)) ==> tracked == old(tracked) - {path} && contents == old(contents)[path := []]
    {
      if path !in contents {
        return Err(FileNotFound);
      }
      if path !in tracked {
        return Err(Refused);
      }
      res := DiffAndRecord(tracked - {path}, path, [], hash);
    }

    method RecordFileRename(renamed: Option<Store>, hash: Hash) returns (res: Answer)
      modifies this
      ensures renamed.Some? ==> res == Ok(Some(hash)) && Repository().store == renamed.value
      ensures var e := RenameEffect(renamed);
              res == AnswerTo(e, hash) && Repository() == Concluded(old(Repository()), e, hash)
    {
      match renamed
      case None => return Err(Refused);
      case Some(s) =>
        tracked, contents, log := s.tracked, s.contents, log + [hash];
        return Ok(Some(hash));
    }

    method GetFileContent(path: Path) returns (res: Result<Content, Failure>)
      ensures res == if path in contents then Ok(contents[path]) else Err(FileNotFound)
      ensures res.Ok? ==> res.value == Recorded(Repository().store, path)
    {
      return if path in contents then Ok(contents[path]) else Err(FileNotFound);
    }

    method ListChanges() returns (changes: seq<Hash>)
      ensures changes == log
    {
      changes := [];
      for i := 0 to |log|
        invariant changes == log[..i]
      {
        changes := changes + [log[i]];
      }
    }
  }

  class OpcodeRecordingBackend {
    const pijul: PijulBackend

    constructor (pijul: PijulBackend)
      ensures this.pijul == pijul
    {
      this.pijul := pijul;
    }

    // Every opcode has the effect the store gives it, and is answered accordingly.
    method ApplyOpcode(opcode: Opcode, lib: Library) returns (res: Answer)
      modifies pijul
      ensures (pijul.Repository(), res) == ApplyLogged(old(pijul.Repository()), Job(opcode.op, lib))
      // the log gains the hash answered, and without one nothing changed
      ensures pijul.log == old(pijul.log) + SomeHashes([res])
      ensures SomeHashes([res]) == [] ==> pijul.Repository() == old(pijul.Repository())
    {
      match opcode.op
      case FileCreate(path, mode, content) =>
        if !IsUtf8(path) { return Err(PathConversion); }
        res := pijul.RecordFileCreate(path, mode, content, lib.hash);
      case FileWrite(path, offset, data) =>
        if !IsUtf8(path) { return Err(PathConversion); }
        res := pijul.RecordFileWrite(path, offset, data, lib.hash);
      case FileTruncate(path, newSize) =>
        if !IsUtf8(path) { return Err(PathConversion); }
        res := pijul.RecordFileTruncate(path, newSize, lib.hash);
      case FileDelete(path) =>
        if !IsUtf8(path) { return Err(PathConversion); }
        res := pijul.RecordFileDelete(path, lib.hash);
      case FileRename(oldPath, newPath) =>
        if !IsUtf8(oldPath) || !IsUtf8(newPath) { return Err(PathConversion); }
        res := pijul.RecordFileRename(lib.renamed, lib.hash);
      case _ =>
        return Err(Unsupported);
    }
  }
}
