# ize, verified: from a FUSE request to a recorded change

ize mounts a directory through FUSE, notices every mutation before it is carried out, and
records it in a Pijul repository from a second thread. This project models that pipeline
and proves what it promises:

    FUSE request -> ObservingFS -> OpcodeRecorder -> OpcodeQueue -> recording thread -> PijulBackend

`dafny verify dfyconfig.toml` checks everything.

## What is modelled

| file | what it holds |
|---|---|
| `Bytes.dfy` | file contents: `pwrite()` and `ftruncate()` (POSIX.1-2017, System Interfaces) against the backend's resize, copy and truncate |
| `Opcodes.dfy`, `Commutation.dfy`, `FileTree.dfy`, `DirTree.dfy` | operations, the paths they affect, what a trace of them means for the files and for a tree with directories, and which may be reordered |
| `Recording.dfy`, `Backend.dfy` | the repository as a contract on libpijul, and `PijulBackend` / `OpcodeRecordingBackend` as classes proved against it |
| `Queue.dfy` | `OpcodeQueue` under its mutex (a class), and its condition variable as a state machine of threads |
| `Recorder.dfy`, `Pipeline.dfy`, `Consumer.dfy` | `OpcodeRecorder`; `emit`, queue and recording thread as interleaved atomic steps; the polling loop of `cmd_mount` |
| `Names.dfy`, `Mount.dfy` | the directory tree, the inode-to-path map, file bytes and the handle table |
| `NonInterference.dfy`, `Interference.dfy` | ignored directories: what happens under them does not show, and exactly when it does |
| `Capture.dfy`, `DirCapture.dfy` | what is captured ahead of a request against what the request then does, to file contents, to the directory tree and in renames |
| `Behaviour.dfy` | what one request means for later ones: files created are found and can be written, handles released are gone |
| `Passthrough.dfy`, `FdPassthrough.dfy`, `Paging.dfy` | `PassthroughFS`, `ObservingFS` and `FdPassthroughFS` as classes; descriptors; paged `readdir` |
| `Replaying.dfy`, `Following.dfy`, `EndToEnd.dfy` | the recorded bytes against the files, over every interleaving of the two threads |

Two contents *agree* when they are the same bytes with everything past the end read as 0
(`Bytes.Agree`). Agreement is what survives every run; equality byte for byte does not, and
`Bytes.RunExactIff` says exactly when it holds. A deleted file is recorded as empty, so
absent, empty and all-zero coincide under agreement.

## What the end-to-end theorems assume

- Requests are those of a well-behaved kernel (`Mount.Valid`): a handle is used with the
  inode it was opened on, offsets are not negative, and the backing system gives new files
  inode numbers nothing refers to.
- No renames in the replay theorems. Renames are treated at the level of the operations, of
  the map and of the ignored directories, where the exact conditions are proved.
- For the path in question, and for it alone, that each notification tells the truth
  (`EndToEnd.TruthfulAbout`). Notification precedes delegation, and `open` is not notified,
  so this is a condition on each request that acts on the path: a create succeeds, the part
  of a write that was cut off was there already, an `O_TRUNC` empties nothing.
  `Capture.RequestIsCapturedIff` proves it is exactly the condition under which replaying
  the captured operations does what the request did, and `Capture.RequestIsTrueAtIff` that
  no request on another path matters.
- For the path in question: it is UTF-8, store and file start out in step
  (`Replaying.Synced`), as they do for a file neither of them has, and no applied operation
  blocks it, that is, creates a file below it while no file was ever recorded at it
  (`Following.Recordable`). `Replaying.InStepIff` proves that this last condition is exact;
  `Replaying.OnceADirectory` shows what goes wrong otherwise.

`EndToEnd.TruncationPutsRight` assumes neither truth nor step before the truncation it is
about. Nothing is assumed of the timing of the two threads, of the size of the queue, of
what the repository or the directory held before, or of requests on other paths, which may
fail, be cut short or go unnotified.

## Where the code does not do what is written about it

- `crates/ize-lib/src/operations/opcode.rs:45-46` says operations on different paths commute. Applied by
  the backend they do, except a create with a create or delete of a directory above it:
  `Recording.CommuteIffNoClash`. Done to a directory tree they do, except what creates in a
  directory or empties it and what makes or removes that directory:
  `DirTree.CommuteIffNoClash`. A directory rename depends on everything below its two
  paths although `affects_path` names only those two: `FileTree.DirRenameIndependence`.
- Leaving ignored directories out of a run changes nothing in the opcode stream, except when
  a rename crosses their border, or a file made under one gets an inode number the map still
  knows by a visible path, as it does after a rename over a file. `Interference.ShowsLaterIff`
  proves that these are exactly the requests some later stream can tell were there;
  `Interference.RenamedOutOfIgnored` and `Interference.ReusedUnderIgnored` are two such runs.
- A rename updates the map for the inode renamed and no other. `Names.EveryFdRunIsSound`
  proves that over every run the map is wrong only about inodes some rename had below its
  source or overwrote, until a request settles them; `Names.SoundThroughoutIff` says when it
  is never wrong.
- What is recorded of one path depends on the operations on that path alone, except that a
  file created below it while it is not tracked makes it a directory to the repository:
  `Recording.ProjectionIff` and `Replaying.InStepIff` say exactly when that shows.
- Truncation in the backend only shrinks, and an empty write past the end extends the
  recorded bytes; both are harmless to agreement, and `Bytes.StepExactIff` says when they
  are visible at all.
- Deleting an empty file leaves it tracked and the log silent: `Recording.EmptyDeleteIsLost`.

## The contract on libpijul

A path is tracked at most once, directories included; adding a file tracks the directories
above it; `move_file` and the hash of a change are decided outside (parameters of each
operation, `Recording.Library`). For a path that was ever recorded as a file, the bytes
retrieved are those of its oldest vertex, whether or not the path is still tracked; for any
other path, tracked directories included, retrieving them fails. A diff is
empty exactly when the bytes are equal; recording a newly added file is never empty; and a
transaction that is not committed leaves no trace.

## Model

| member | source | states |
|---|---|---|
| Bytes.RecordedWrite | crates/ize-lib/src/pijul/backend.rs:402-413 | after a recorded write the buffer is as long as the old one or the end of the write, and each byte is the written one inside it and the old one, or zero, outside |
| Bytes.RecordedTruncate | crates/ize-lib/src/pijul/backend.rs:446 | a recorded truncation only shrinks, and reads as zero from the new size on |
| Bytes.StepKeepsAgreement | crates/ize-lib/src/pijul/backend.rs:382-450 | the recorded buffer and a POSIX file that agree still agree after any write or truncation, of any size and offset |
| Bytes.RunKeepsAgreement | crates/ize-lib/src/pijul/backend.rs:382-450 | content refinement: agreement survives every sequence of writes and truncations |
| Bytes.NeverLonger | crates/ize-lib/src/pijul/backend.rs:402-413 | without empty writes the recorded buffer never outgrows the file |
| Bytes.StepExactIff | crates/ize-lib/src/pijul/backend.rs:402-446 | one edit is recorded byte for byte exactly when it is neither an empty write past the end nor an extending truncation |
| Bytes.RunExactIff | crates/ize-lib/src/pijul/backend.rs:402-446 | recorded and real bytes are equal after every prefix of a run exactly when every edit met its guard |
| Bytes.ShortWriteIff | crates/ize-lib/src/filesystems/observing.rs:431-446 | a write cut short leaves what the announced one would have left exactly when the missing bytes were there already |
| Bytes.TruncateToZeroResynchronises | crates/ize-lib/src/pijul/backend.rs:441-449 | after a truncation to nothing any two contents agree for good |
| Bytes.PiecesMakeTheWrite | crates/ize-lib/src/pijul/backend.rs:402-413 | pieces that cover a write, overlapping and in any order, leave exactly the buffer of the single write |
| Bytes.ChunksInAnyOrder | crates/ize-lib/src/pijul/backend.rs:402-413 | consecutive non-empty chunks of one write, applied in any order, leave exactly the buffer of the single write, zero-filled gap included |
| FileTree.FileOpsCommute | crates/ize-lib/src/operations/opcode.rs:316-326 | file operations that share no affected path commute on every tree, with the same success or failure |
| FileTree.FileTraceReordering | crates/ize-lib/src/operations/opcode.rs:45-46 | any permutation of a trace of file operations that keeps the order of those sharing a path ends in the same tree, each operation answering as before |
| FileTree.DirRenameIndependence | crates/ize-lib/src/operations/opcode.rs:316-326 | a directory rename commutes with a content operation exactly when that is neither at nor below either directory, whatever `affects_path` says |
| DirTree.CommuteIffNoClash | crates/ize-lib/src/operations/opcode.rs:45-46 | on a tree with directories, operations on different paths commute exactly when neither makes or removes the directory the other creates in, or removes the one the other deletes from |
| DirTree.TraceReordering | crates/ize-lib/src/operations/opcode.rs:45-46 | any permutation of a trace that keeps the order of those pairs and of operations on one path ends in the same tree, each operation answering as before |
| DirTree.FilesFollow | crates/ize-lib/src/operations/opcode.rs:316-326 | an operation that succeeds on the tree succeeds on its files alone and does the same to them |
| Commutation.Reorder | crates/ize-lib/src/operations/opcode.rs:45-46 | for any step function, reordering that swaps only commuting steps keeps the final state and every answer |
| Recording.CommuteIffNoClash | crates/ize-lib/src/operations/opcode.rs:45-46 | operations on different UTF-8 paths commute in every repository exactly when neither creates a file below the path the other creates or deletes |
| Recording.StoreTraceReordering | crates/ize-lib/src/operations/opcode.rs:45-46 | any permutation of a trace that swaps only independent operations records the same repository with the same answers |
| Recording.Projection | crates/ize-lib/src/pijul/operations.rs:142-228 | what an undisturbed trace, failures skipped, leaves of a path and answers about it is what the operations affecting that path alone do |
| Recording.ProjectionIff | crates/ize-lib/src/pijul/backend.rs:346-365 | projection holds after every prefix of a trace exactly when no operation, at its turn, is an accepted create below the path while the path is untracked |
| Recording.ForeignIsInvisibleIff | crates/ize-lib/src/pijul/backend.rs:346-365 | an operation on another path is invisible at a path in every repository exactly when it does not create a file below it |
| Recording.ProjectionBreaks | crates/ize-lib/src/pijul/backend.rs:346-365 | a concrete trace with a create below the path on which projection fails |
| Recording.LogGrowsByHashes | crates/ize-lib/src/pijul/backend.rs:638-661 | over every sequence of operations the log grows by exactly the hashes returned, in order |
| Recording.QuietStepChangesNothing | crates/ize-lib/src/pijul/backend.rs:766-814 | an operation answered with nothing or an error leaves repository and log as they were, and one answered with a hash changed the repository |
| Recording.EmptyDeleteIsLost | crates/ize-lib/src/pijul/backend.rs:460-484 | deleting a recorded file is silently abandoned exactly when it is tracked and empty |
| Recording.CreateTells | crates/ize-lib/src/pijul/backend.rs:327-370 | a create is refused exactly for the root and for what is tracked; otherwise it tracks the path and everything above it, nothing else, and the file reads as created unless one was recorded there before |
| Recording.EditTells | crates/ize-lib/src/pijul/backend.rs:382-450 | a write or truncation of a file never recorded finds none, one that changes no byte is not recorded, and any other leaves exactly the edited bytes |
| Recording.DeleteForgets | crates/ize-lib/src/pijul/backend.rs:460-484 | a delete is recorded exactly when the file is tracked and has bytes; the path is then untracked and reads as nothing, and no other path is touched |
| Recording.DeletedCanBeCreated | crates/ize-lib/src/pijul/backend.rs:460-484 | after a recorded delete the next create of the path is accepted, and the file is tracked and empty |
| Recording.RefusalTells | crates/ize-lib/src/pijul/operations.rs:142-228 | exactly the kinds the backend does not know are answered as unsupported, paths that are not UTF-8 as such, and no error changes the repository |
| Backend.Resize | crates/ize-lib/src/pijul/backend.rs:404-412 | resizing keeps what fits and fills with zeros |
| Backend.CopyFromSlice | crates/ize-lib/src/pijul/backend.rs:413 | the data is put at its place in the buffer and nothing else changes |
| Backend.EditForWrite | crates/ize-lib/src/pijul/backend.rs:399-413 | the loops over the retrieved buffer compute the recorded write |
| Backend.PijulBackend.RecordFileCreate | crates/ize-lib/src/pijul/backend.rs:327-370 | new repository and answer of a create: directories above tracked, an already tracked path refused, nothing changed on refusal |
| Backend.PijulBackend.RecordFileWrite | crates/ize-lib/src/pijul/backend.rs:382-417 | new repository and answer of a write: unknown file, no change, or the edited bytes committed |
| Backend.PijulBackend.RecordFileTruncate | crates/ize-lib/src/pijul/backend.rs:428-450 | new repository and answer of a truncation |
| Backend.PijulBackend.RecordFileDelete | crates/ize-lib/src/pijul/backend.rs:460-484 | a delete is recorded exactly when the file is tracked and has bytes, and then it is neither tracked nor has any |
| Backend.PijulBackend.DiffAndRecord | crates/ize-lib/src/pijul/backend.rs:719-814 | equal bytes drop the transaction with everything it did; otherwise it is committed and logged |
| Backend.PijulBackend.GetFileContent | crates/ize-lib/src/pijul/backend.rs:576-606 | what is read back is what the theorems call the recorded bytes |
| Backend.PijulBackend.ListChanges | crates/ize-lib/src/pijul/backend.rs:638-661 | the whole log, oldest first |
| Backend.OpcodeRecordingBackend.ApplyOpcode | crates/ize-lib/src/pijul/operations.rs:142-228 | each opcode has the effect and the answer the repository model gives it; other kinds and paths that are not UTF-8 are errors that change nothing |
| Queue.OpcodeQueue.TryPush | crates/ize-lib/src/operations/queue.rs:97-112 | at capacity the opcode comes back and the queue is unchanged, otherwise it is last in the queue |
| Queue.OpcodeQueue.Push | crates/ize-lib/src/operations/queue.rs:119-129 | the opcode is last in the queue, capacity or not |
| Queue.OpcodeQueue.TryPop | crates/ize-lib/src/operations/queue.rs:134-145 | nothing exactly when the queue is empty, otherwise its first opcode is taken |
| Queue.OpcodeQueue.Drain | crates/ize-lib/src/operations/queue.rs:162-165 | everything queued, in order, and an empty queue |
| Queue.OpcodeSender.TrySend | crates/ize-lib/src/operations/queue.rs:212-214 | what try_push does to the shared queue |
| Wakeup.StepKeepsWakeups | crates/ize-lib/src/operations/queue.rs:119-156 | every critical section, notification and spurious wakeup keeps: while a popper is blocked, no more opcodes wait than there are woken poppers and pushers yet to notify |
| Wakeup.EveryRunKeepsInv | crates/ize-lib/src/operations/queue.rs:97-165 | that, and that opcodes leave in the order they entered, in every run of any number of threads |
| Wakeup.QueueIsFifoAndWakes | crates/ize-lib/src/operations/queue.rs:97-165 | from an empty queue: no lost wakeup, strict order, and a waiting opcode never faces only blocked threads |
| Wakeup.WaitingOpcodeIsTaken | crates/ize-lib/src/operations/queue.rs:150-156 | with an opcode waiting and a popper blocked, threads already under way take the first opcode out within two steps |
| Wakeup.TryPushKeepsCapacity | crates/ize-lib/src/operations/queue.rs:97-112 | without the forcing push the queue never exceeds its capacity |
| Recorder.IgnoredAtAnyDepth | crates/ize-lib/src/vcs/mod.rs:110-126 | whether a path is ignored is settled by any ancestor below the root |
| Recorder.IgnoredIff | crates/ize-lib/src/vcs/mod.rs:110-126 | a path is ignored exactly when its first component is the directory of some filter, whichever |
| Recorder.CapturedIsReported | crates/ize-lib/src/operations/recorder.rs:142-391 | a notification whose paths are all known and under no filter is reported as what it tells of, with its own values, seconds rounded down and attributes one by one; any other is not reported |
| Recorder.CapturedIsVisible | crates/ize-lib/src/operations/recorder.rs:124-126 | no captured operation affects an ignored path, in either of its paths |
| Recorder.OfferedSplits | crates/ize-lib/src/operations/recorder.rs:129-138 | a run of emits on a bounded queue may be cut anywhere: numbers and rejections come out the same |
| Recorder.OfferedTells | crates/ize-lib/src/operations/recorder.rs:129-138 | of a run of emits the queue takes the first ones it has room for, behind what was there, each with its own number and the time that was taken at |
| Recorder.OpcodeRecorder.Emit | crates/ize-lib/src/operations/recorder.rs:129-138 | the number is used up whether or not the queue had room, and a full queue drops the opcode |
| Recorder.OpcodeRecorder.Notify | crates/ize-lib/src/operations/recorder.rs:142-391 | each callback emits exactly the operations its notification stands for, resolved through the map as it is now, and nothing at all for a path that is unknown or under any filter |
| Recorder.OpcodeRecorder.NotifySetattr | crates/ize-lib/src/operations/recorder.rs:324-344 | one opcode per attribute that changes, size first |
| Pipeline.EmitIsTakeThenOffer | crates/ize-lib/src/operations/recorder.rs:129-138 | the recorder's emit is the pipeline's two steps by one thread |
| Pipeline.EveryRunKeepsInv | crates/ize-lib/src/operations/queue.rs:97-145 | conservation, numbering, partition and per-thread order at every point of every interleaving |
| Pipeline.PipelineConserves | crates/ize-lib/src/operations/queue.rs:97-145 | applied, in hand and queued together are what was accepted; accepted, rejected and pending partition what was numbered; the queue stays within capacity; what was applied is a prefix of what was accepted |
| Pipeline.NumbersAreUnique | crates/ize-lib/src/operations/recorder.rs:98-100 | no two opcodes carry the same number, whatever became of them |
| Pipeline.SingleThreadOrdering | crates/ize-lib/src/operations/recorder.rs:98-138 | with one file system thread consumed numbers rise, and up to the last of them the missing ones are exactly those of rejected opcodes |
| Pipeline.ThreadsOvertake | crates/ize-lib/src/operations/recorder.rs:129-138 | with two threads there is a run that enqueues number 2 before number 1 |
| Pipeline.StopsPromptly | crates/ize/src/main.rs:271-290 | once told to stop, the recording thread applies at most one opcode more, and none once stopped |
| Pipeline.CatchesUp | crates/ize/src/main.rs:271-290 | from every reachable state, a recording thread that was not told to stop can work off all that was accepted in at most three steps an opcode and one more |
| Consumer.ConsumeOpcodes | crates/ize/src/main.rs:257-290 | the polling loop applies a prefix of what was queued and arrived, leaves the rest queued, and makes the repository and log those operations make, failures skipped |
| Names.RegisteredEntries | crates/ize-lib/src/filesystems/passthrough.rs:575-590 | after readdir every listed entry is known, each inode under the last listed path that has it, and nothing known is forgotten |
| Names.RenameKeepsTree | crates/ize-lib/src/filesystems/passthrough.rs:1101-1175 | a rename moves a subtree and leaves a well-formed tree |
| Names.RenameBreaksExactly | crates/ize-lib/src/filesystems/passthrough_fd.rs:978-1033 | whatever else the map is wrong about: of what it was right about, a rename makes it wrong about exactly the known inodes strictly below the moved name and the one whose name was overwritten, and right about the one renamed |
| Names.RenameKeepsSoundIff | crates/ize-lib/src/filesystems/passthrough_fd.rs:978-1033 | a rename leaves the whole map right exactly when nothing known lies below its source and nothing known is overwritten |
| Names.StepKeepsEntryIff | crates/ize-lib/src/filesystems/passthrough.rs:315-1175 | for every request and every inode but the root's, from any map: what the map was right about, or the request settles, it is right about afterwards exactly unless a rename breaks it |
| Names.StepTells | crates/ize-lib/src/filesystems/passthrough.rs:315-1175 | the map changes for the inodes a request settles and no other: what is unlinked or removed is forgotten, anything else is known by a path where the tree has it |
| Names.RequestIsReported | crates/ize-lib/src/filesystems/observing.rs:419-546 | a visible write is captured whole, and new attributes one by one, with the values of the request |
| Names.StepKeepsSoundIff | crates/ize-lib/src/filesystems/passthrough.rs:315-1175 | a request leaves a right map right exactly when it is not a rename that is not clean |
| Names.EveryRunIsSound | crates/ize-lib/src/filesystems/passthrough.rs:315-1175 | in every run, whatever is renamed, the tree stays a tree, inode 1 stays mapped to the root, and every entry is right but those a rename broke, or that were wrong from the start, and no request settled since; the whole map is right after every prefix exactly when every rename is clean at its turn |
| Names.EveryFdRunIsSound | crates/ize-lib/src/filesystems/passthrough_fd.rs:781-1033 | the first half of that for runs in which a create without O_EXCL opens, and maps, a file that is there already |
| Names.SoundThroughoutIff | crates/ize-lib/src/filesystems/passthrough_fd.rs:781-1033 | and the second half |
| NonInterference.UnseenIff | crates/ize-lib/src/vcs/mod.rs:110-126 | a request under an ignored directory, a rename across its border or a request that fails changes nothing that can be seen and leaves no ignored file known by a visible path, exactly unless it is a rename that crosses or makes an ignored file whose inode the map still knows by a visible path |
| NonInterference.HiddenRenameIsUnseen | crates/ize-lib/src/operations/recorder.rs:263-300 | a rename inside ignored directories shows nothing, whatever known name it overwrites and whatever known names lie below its source |
| NonInterference.VisibleRenameKeepsApart | crates/ize-lib/src/filesystems/passthrough.rs:1101-1175 | a rename between visible paths, whatever entries it makes stale, gives no ignored file a visible path |
| NonInterference.IgnoredRequestsDoNotShow | crates/ize-lib/src/vcs/mod.rs:110-126 | leaving out of a run every request all of whose paths are ignored leaves the stream of operations, and so its numbering, unchanged; renames of every other kind are covered, the overwriting ones included |
| NonInterference.AlikeFromHereOn | crates/ize-lib/src/vcs/mod.rs:110-126 | two mounts that look alike outside the ignored directories emit the same operations in every orderly run from there on |
| NonInterference.IgnoredRequestsCanBeLeftOut | crates/ize-lib/src/vcs/mod.rs:110-126 | in particular for two runs of one mount whose map is right at the start |
| Interference.HarmShowsLater | crates/ize-lib/src/operations/recorder.rs:263-300 | after every rename across the border of an ignored directory, and every ignored file whose inode the map knows by a visible path, there are at most two requests whose stream differs from what it would have been |
| Interference.ShowsLaterIff | crates/ize-lib/src/vcs/mod.rs:110-126 | of the requests under an ignored directory, across its border or not carried out, exactly these are told by some later orderly stream |
| Interference.RenamedOutOfIgnored | crates/ize-lib/src/operations/recorder.rs:263-300 | a concrete run with a rename out of an ignored directory on which that fails |
| Interference.ReusedUnderIgnored | crates/ize-lib/src/filesystems/passthrough.rs:1101-1175 | a concrete run on which it fails because the inode of an overwritten file is reused under an ignored directory |
| Mount.StepKeepsInv | crates/ize-lib/src/filesystems/passthrough.rs:315-910 | every request keeps map, tree, bytes and handle table in agreement; an open file that has a name is one the map knows |
| Mount.EveryRunKeepsInv | crates/ize-lib/src/filesystems/passthrough.rs:315-1175 | and so does every run |
| Capture.RequestIsCapturedIff | crates/ize-lib/src/filesystems/observing.rs:419-546 | replaying what is captured ahead of a request turns the files seen before it into those seen after it exactly when the notification tells the truth |
| Capture.RequestIsTrueAtIff | crates/ize-lib/src/filesystems/observing.rs:419-546 | as far as one path goes, what is captured of a request is what it does there exactly unless the request acts on that path and its notification is untrue |
| Capture.OnlyTargetChanges | crates/ize-lib/src/filesystems/passthrough.rs:315-910 | no request but a rename changes the files anywhere but at the path it acts on |
| Capture.WriteIsCapturedIff | crates/ize-lib/src/filesystems/observing.rs:419-446 | for a write: exactly when the bytes that did not make it were there already |
| Capture.SetattrIsCapturedIff | crates/ize-lib/src/filesystems/observing.rs:516-546 | for new attributes: exactly when the new size is set or was the size before |
| Capture.NameIsCapturedIff | crates/ize-lib/src/filesystems/observing.rs:448-472 | for a create or an unlink: exactly when it succeeds |
| Capture.OpenIsCapturedIff | crates/ize-lib/src/filesystems/observing.rs:358-360 | for an open, which is not notified: exactly when it truncates nothing that can be seen |
| Capture.RecorderNamesTheObject | crates/ize-lib/src/operations/recorder.rs:142-167 | at any point of a run each captured operation is about the path the request acts on, and in the tree that is where the inode written to is, or the name given in the directory that has the parent's inode |
| Capture.NamelessInodesAreSilent | crates/ize-lib/src/operations/recorder.rs:142-167 | a write or new attributes for a file open but unlinked emit nothing, and no path's content changes |
| DirCapture.NameRequestIsCapturedIff | crates/ize-lib/src/filesystems/observing.rs:448-512 | a create, mkdir, unlink or rmdir of a visible name is captured as one operation that does to the visible tree, directories included, what the request does, exactly when the request is carried out |
| DirCapture.HiddenNameRequestIsSilent | crates/ize-lib/src/vcs/mod.rs:110-126 | under an ignored directory it is not captured, and shows nothing |
| DirCapture.RenameIsCaptured | crates/ize-lib/src/operations/recorder.rs:263-300 | a visible rename that is carried out is captured as one operation that does to the files what the rename does, whatever it overwrites or carries along |
| Opcodes.AffectsWhatItNames | crates/ize-lib/src/operations/opcode.rs:316-326 | an operation affects exactly the paths it names |
| Behaviour.CreatedTakesWrites | crates/ize-lib/src/filesystems/passthrough.rs:839-919 | a created file is there and empty, the handle it comes with is new, and a write through it succeeds and is in the file afterwards |
| Behaviour.UnfinishedCreate | crates/ize-lib/src/filesystems/passthrough.rs:839-919 | when the stat after a create fails the file is there, but unknown and without a handle |
| Behaviour.OpenedTakesWritesIff | crates/ize-lib/src/filesystems/passthrough.rs:606-681 | opening succeeds exactly for what is known and there, and allowed; the new handle takes writes exactly if writing or appending was asked for, and bytes are lost only to truncation |
| Behaviour.WriteReaches | crates/ize-lib/src/filesystems/passthrough.rs:720-757 | a write reaches the file of a handle that may be written through, as far as the system takes it, and nothing else; any other is refused and does nothing |
| Behaviour.SetattrSizes | crates/ize-lib/src/filesystems/passthrough.rs:393-451 | which file gets a new size, and when that succeeds |
| Behaviour.ReleasedIsGone | crates/ize-lib/src/filesystems/passthrough.rs:793-809 | nothing can be written through a released handle, no other handle is touched, and the bytes go exactly if nothing else refers to them |
| Behaviour.UnlinkedLivesOn | crates/ize-lib/src/filesystems/passthrough.rs:996-1043 | an unlinked file is not found any more but keeps its bytes while a handle is open on it |
| Behaviour.RenameKeepsBytes | crates/ize-lib/src/filesystems/passthrough.rs:1101-1175 | a rename touches no bytes but those of an overwritten file nobody has open |
| Behaviour.OthersKeepBytes | crates/ize-lib/src/filesystems/passthrough.rs:315-602 | lookups, listings and directories made or removed touch neither bytes nor handles |
| Behaviour.CreatedIsFound | crates/ize-lib/src/filesystems/passthrough.rs:315-355 | what was created is found by its name with its inode and kind, and cannot be created again |
| Behaviour.RemovedIsNotFound | crates/ize-lib/src/filesystems/passthrough.rs:996-1098 | what was removed is not found, and nothing else is gone |
| Behaviour.RenamedIsFound | crates/ize-lib/src/filesystems/passthrough.rs:1101-1175 | a renamed entry, and everything below it, is found by the new path and not by the old one, and all else where it was |
| Behaviour.ListedIsFound | crates/ize-lib/src/filesystems/passthrough.rs:533-602 | what a listing shows is found by its name, with the inode it was listed with |
| Passthrough.PassthroughFS.Lookup | crates/ize-lib/src/filesystems/passthrough.rs:315-355 | the request does to map and tree what the mount model says, and is answered accordingly |
| Passthrough.PassthroughFS.Create | crates/ize-lib/src/filesystems/passthrough.rs:839-919 | exclusive creation, the new inode mapped, a new writable handle; refused when read-only, without effect when creation fails, and with the file there but unmapped when the stat after it fails |
| Passthrough.PassthroughFS.Mkdir | crates/ize-lib/src/filesystems/passthrough.rs:922-993 | a new directory and its map entry, no effect, or an unmapped directory when the stat after it fails |
| Passthrough.PassthroughFS.Unlink | crates/ize-lib/src/filesystems/passthrough.rs:996-1043 | name and map entry go together; the bytes stay while a handle is open |
| Passthrough.PassthroughFS.Rmdir | crates/ize-lib/src/filesystems/passthrough.rs:1046-1098 | only an empty directory goes, with its map entry |
| Passthrough.PassthroughFS.Rename | crates/ize-lib/src/filesystems/passthrough.rs:1101-1175 | the tree is renamed and only the moved inode's map entry is changed |
| Passthrough.PassthroughFS.Readdir | crates/ize-lib/src/filesystems/passthrough.rs:533-602 | every entry is registered by its exact name, and the reply is the page of the listing from the offset on that fits the buffer, names that are not UTF-8 converted |
| Passthrough.ListingShowsOnly | crates/ize-lib/src/filesystems/passthrough.rs:533-602 | every entry of a reply is that of a name in the directory, with its inode and kind |
| Passthrough.ListingShowsAll | crates/ize-lib/src/filesystems/passthrough.rs:533-602 | every name that can be found out about has its entry, in order if all can |
| Passthrough.DotsComeFirst | crates/ize-lib/src/filesystems/passthrough.rs:533-602 | before them come the directory itself and a parent that always has the number of the root |
| Passthrough.LetThroughKeepsFiles | crates/ize-lib/src/filesystems/passthrough.rs:393-1175 | what a read-only mount does not refuse changes no name and no byte of a named file |
| Passthrough.LetThroughAnyway | crates/ize-lib/src/filesystems/passthrough.rs:606-620 | looking up, listing, opening to read and releasing are not refused |
| Passthrough.PassthroughFS.Open | crates/ize-lib/src/filesystems/passthrough.rs:606-681 | the next handle on the mapped path, writable also when only appending, truncated only if opened for writing without appending |
| Passthrough.PassthroughFS.Write | crates/ize-lib/src/filesystems/passthrough.rs:720-757 | the bytes taken reach the handle's file and are counted in the reply |
| Passthrough.PassthroughFS.Setattr | crates/ize-lib/src/filesystems/passthrough.rs:393-451 | a new size is set through the handle if it may write, otherwise through the path, and stays set when a later attribute fails |
| Passthrough.PassthroughFS.Release | crates/ize-lib/src/filesystems/passthrough.rs:793-809 | the handle goes, and with it the bytes of a file nothing else refers to |
| Passthrough.ObservingFS.Notify | crates/ize-lib/src/filesystems/observing.rs:236-307 | every observer emits what the notification stands for, each into its own queue |
| Passthrough.ObservingFS.Serve | crates/ize-lib/src/filesystems/observing.rs:419-546 | observers hear of the request as the map stands before it, whatever then becomes of it; on a read-only mount tree and files stay as they were |
| Passthrough.ObservingFS.ServeAll | crates/ize-lib/src/filesystems/observing.rs:339-546 | after a session the mount is where the model puts it, and each observer has heard the one stream of operations of the run, numbered in order, as far as its queue had room |
| Paging.FillReply | crates/ize-lib/src/filesystems/passthrough_fd.rs:646-650 | the reply holds exactly the entries from the offset on up to the first that does not fit, each with the offset to continue from |
| Paging.PageIsNonempty | crates/ize-lib/src/filesystems/passthrough_fd.rs:646-650 | with room for any one entry a page is empty exactly at the end of the directory, and its last offset is where the next one starts |
| Paging.SmallBufferEndsListing | crates/ize-lib/src/filesystems/passthrough_fd.rs:646-650 | an empty reply means the end of the directory or a buffer too small for the next entry |
| FdPassthrough.BackingFs.Open | crates/ize-lib/src/backing_fs/mod.rs:64-69 | a descriptor in use is never handed out, and a missing file is created only with O_CREAT, in a directory that is there |
| FdPassthrough.TableOwnsDescriptors | crates/ize-lib/src/filesystems/passthrough_fd.rs:54-64 | the open descriptors are the image of the handle table, which is one-to-one |
| FdPassthrough.FdPassthroughFS.Open | crates/ize-lib/src/filesystems/passthrough_fd.rs:655-697 | succeeds exactly when the mount does not refuse writing, the inode is known, its path is there and may be opened; the one new handle and descriptor are then for that path and its file, failure adds neither, and nothing is ever created |
| FdPassthrough.FdPassthroughFS.Create | crates/ize-lib/src/filesystems/passthrough_fd.rs:781-847 | exactly when it succeeds, and then one new handle and descriptor for the child path and its file, which is mapped to that path; when the new descriptor cannot be stat'ed it is closed and table and map are as before; tree and map change as in the run model |
| FdPassthrough.FdPassthroughFS.Setattr | crates/ize-lib/src/filesystems/passthrough_fd.rs:455-598 | exactly when it succeeds, and which file gets the size; on every path the descriptors afterwards are those before, a borrowed one having been closed |
| FdPassthrough.FdPassthroughFS.Write | crates/ize-lib/src/filesystems/passthrough_fd.rs:739-776 | the bytes taken reach the file of the handle's descriptor and are counted, or the right error is given |
| FdPassthrough.FdPassthroughFS.Release | crates/ize-lib/src/filesystems/passthrough_fd.rs:1063-1079 | handle and descriptor go together, and an unknown handle closes nothing |
| FdPassthrough.FdPassthroughFS.ServeAll | crates/ize-lib/src/filesystems/passthrough_fd.rs:455-1079 | over every session handles come out rising from the counter, so none is 0 or reused, and when all are released every descriptor opened was closed once; names and map are those after the run of the session's creations |
| FdPassthrough.RelistingChangesNothing | crates/ize-lib/src/filesystems/passthrough_fd.rs:630-644 | registering a directory once more for each page changes nothing |
| FdPassthrough.FdPassthroughFS.Readdir | crates/ize-lib/src/filesystems/passthrough_fd.rs:602-651 | each inode listed, "." and ".." apart, is mapped to the directory's path and the last name listed with it, every other inode is where it was, and the reply is the page from the offset on |
| FdPassthrough.ReaddirIsAStep | crates/ize-lib/src/filesystems/passthrough_fd.rs:602-651 | with a listing true of the tree this is a request of the run model, and a right map stays right |
| FdPassthrough.FdPassthroughFS.ListDirectory | crates/ize-lib/src/filesystems/passthrough_fd.rs:602-651 | asking again from the last offset lists an unchanged directory in full, in order, nothing twice, in at most one call more than it has entries |
| Replaying.SyncedStep | crates/ize-lib/src/pijul/operations.rs:142-228 | an operation that succeeds on the files keeps the store in step with them at its path, untracked and re-created files included |
| Replaying.ForeignKeepsSyncedIff | crates/ize-lib/src/pijul/backend.rs:346-365 | an operation on another path keeps store and files in step at a path exactly when it is not an accepted create below it with no file ever recorded there |
| Replaying.AppliedStaysSynced | crates/ize-lib/src/pijul/operations.rs:142-228 | over any unblocked trace in which the operations on a path succeed on the files, others failing as they may, the store stays in step at that path with replaying just those |
| Replaying.InStepIff | crates/ize-lib/src/pijul/operations.rs:142-228 | and it does so after every prefix exactly when no operation blocks the path at its turn |
| Replaying.TruncationResynchronises | crates/ize-lib/src/pijul/backend.rs:441-449 | from any store that has and tracks a file, whatever was lost before: an applied truncation to nothing and the later operations that succeed on the path leave store and file in step, creates below it notwithstanding |
| Replaying.OnceADirectory | crates/ize-lib/src/pijul/backend.rs:346-365 | a concrete trace, successful on the files, whose last file is never recorded because its path was a directory before |
| Following.StepKeepsKnown | crates/ize/src/main.rs:271-290 | whatever announces operations, and as long as what it says of one path is true, each step of either thread keeps: every number of issued operations on that path replays to what the files held there at some moment, those not lost reach the store in order, and the store is made of the applied ones |
| Following.KnownFromHere | crates/ize/src/main.rs:271-290 | at any moment between requests one can start afresh, whatever was lost or untrue before |
| Following.EmptiedThenFollowed | crates/ize-lib/src/pijul/backend.rs:441-449 | the re-synchronisation theorem for that general machine, from any moment between requests on |
| EndToEnd.StepRefines | crates/ize-lib/src/filesystems/observing.rs:419-546 | the mount with its recorder and consumer is an instance of that general machine, requests that fail or are not notified included; what is true of a path here is true of it there |
| EndToEnd.RecordedIsASnapshot | crates/ize/src/main.rs:271-290 | prefix-consistent replay: in every interleaving, while no opcode was rejected, there is one moment of the mount at which every recordable file about which the truth was told had the content recorded for it now |
| EndToEnd.UnrejectedPathsFollow | crates/ize-lib/src/operations/recorder.rs:129-138 | fault isolation: a path none of whose own opcodes was rejected is recorded as it was at some moment, whatever was rejected, failed or went unnotified elsewhere |
| EndToEnd.DrainedPathsAgree | crates/ize-lib/src/operations/recorder.rs:129-138 | and once the queue is drained it is recorded as it is |
| EndToEnd.TruncationPutsRight | crates/ize-lib/src/pijul/backend.rs:441-449 | whatever was rejected, failed or went unnotified before, on this path or any other: from an applied truncation to nothing on the path is recorded as it was at some moment since, and as it is once the queue is drained, if nothing on it is rejected or untrue from then on |

## Left out

- Backend.PijulBackend.RecordFileRename: what a rename leaves in the repository is a parameter of the operation, because it rests on libpijul recording against an empty working copy; the replay theorems exclude renames.
- Recording.Projection: requires that no operation disturbs the path; that this is exact is `Recording.ProjectionIff`.
- NonInterference.IgnoredRequestsDoNotShow: requires that no request can do harm, in the run and in what is left of it; `Interference.ShowsLaterIff` proves of each such request that some later stream tells, but a run whose own rest does not is not covered.
- DirTree.CommuteIffNoClash: speaks of content operations and of making and removing directories; renames and attributes on a tree with directories are not covered.
- Queue.OpcodeQueue.TryPop: the blocking `pop` with its wait loop is modelled only as steps of `Wakeup`, since a Dafny method cannot be interrupted by other threads.
- EndToEnd.UnrejectedPathsFollow: the moment it speaks of may be the end of the request being served, because opcodes are enqueued before the request is carried out. Runs with renames are not covered.
- Wall-clock timestamps, and the message, author and hash of a change: the clock and the hash are parameters.
- libpijul and its storage: reduced to the contract above; channels, forks, encodings and the retrieval of file graphs are not modelled, nor errors of the database and change store.
- Reading file contents, `getattr`, `access`, `statfs`, `flush`, `fsync`, `opendir`: they change none of the modelled state.
- Mode, owner and times of files: `setattr` is modelled as far as sizes and captured operations go.
- A stat that fails right before an unlink, rmdir or rename that then succeeds: the map entry would not be updated.
- Symbolic links and hard links in the tree: `PassthroughFS` follows links when it stats, and never creates any; the recorder's callbacks for them are modelled.
- The deviation of Linux from POSIX by which a positional write on a file opened with `O_APPEND` appends; how names that are not UTF-8 are converted in listing replies, which is a parameter.
- Poisoned locks, memory exhaustion, integer overflow of offsets and counters, edits of the backing directory from outside the mount.
- The command line, project management, the terminal interface, exports, `DumpObserver` and the proof-of-concept crate.
