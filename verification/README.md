# carwatch, verified

A Dafny model of carwatch's two hard parts, and proofs of what they promise.

**The capture path.** Producers push readings into shared-memory rings; `storaged` drains the rings into a
write-ahead log in batches and releases a slot only once its batch is durable. The model covers the record
format with its CRC-32, the log's writer and its recovery scan, the segment files under torn writes, failed
writes, kills, power cuts and reopenings, the two ends of a ring acting on out-of-date views of each other, and
the drain, note, commit, rotate and release loop. The main results: recovery keeps exactly the whole batches at
every cut; nothing durable is ever lost, a synced batch is durable exactly when its segment's directory entry is,
and committed sequence numbers have no gap and no repeat; over every run in one segment, every slot of a ring is in
the log exactly once, in order, up to a skip point that the log itself states; and over every run at all, rotations
included, the directory holds every slot exactly once as long as each restart resumes at the right place, for which
the exact condition is given, and which every restart does if kills after a rotation leave nothing unreleased.

**The status server.** `statusd` reads a source's typed lines, turns them into JSON, and serves them over a small
HTTP/1 loop. The model covers the line grammar, the streaming JSON writer and a reader for what it writes, the
translation between the two, the request parser and the connection loop. The main results: each layer has one
spelling and an inverse; the JSON means what the reply said; verdicts do not depend on how bytes arrive; no
client holds a slot past its two deadlines, and what it is sent is the answer to what it sent.

The drive logger's scheduler (`tools/obdlog.py`) is modelled too, with its service bounds.

## How it is arranged

| files | what they model |
|---|---|
| Crc, Record, Note | `crc32.c`, `record.c`, and the ring notes' text |
| Framing, Log, Scan, Format | the log as records and batches, and `wal_scan` |
| Wal, Writer, World, Durability | the writer as values and in place, the segment files as a machine, what holds over its runs |
| Ring | `ring.c` in place, and its two ends as interleaved steps |
| Sources, Tally, Storaged, Exactly, Restart, Renewal, Drain | `storaged`'s loop as a machine, exactly once, restarts, rings made anew, and `drain` in place |
| Promises | the theorems about the log, in its own format |
| Number, Json, JsonWriter, JsonBuffer | the number grammar, values and their text, the writer by its calls, and `json_t` in place |
| Strings, Kv, Route, Series, Http, Server | `kv.c`, `route.c`, `http.c`, `server.c` |
| Schedule | class `Schedule` |
| Memory | copying into a buffer |

Code that works in place is a class or a method over arrays whose contract ties its new state to a function on
values; the lemmas are about those functions. `dafny verify dfyconfig.toml` checks everything, with the options set
there.

## Reading the machines

- `World` is the log directory: older segments, the newest file, how many of its bytes are durable, what it was
  before each cut that no fsync has followed, how many of the newest directory entries no directory fsync has
  followed, and the writer process. A write call appends any piece of the batch. A power cut leaves any front piece,
  with at least the durable bytes, of the newest file or of what it was before such a cut; or it loses some of the
  entries that are not durable, the newest first. Only a directory fsync makes an entry durable, and it makes all of
  them so; a file's fsync does not.
- `Storaged` adds the rings, what `storaged` remembers of each, and where its program stands. The order in which
  the loop visits the two rings is left open, so every order is covered. Producers push between any two steps and a
  kill may come at any step. A full segment is rotated with any outcome. After a rotation that failed there is no
  segment to write to: what the loop then does to its buffer is left out, and it may release any slots that the log
  held when it started, which is at least what the code can release then.
- What the directory's log says about a ring is its tally: the samples, and the place, one more than the last slot
  named since the ring's generation last changed (`Restart.PlaceSays`).
- Every log record other than BEGIN and COMMIT comes through `wal_add`, as in the callers; `undo`'s `ftruncate` is
  assumed to succeed.
- Sequence numbers, transaction numbers, boot numbers and clocks wrap as their C types do. Ring positions are
  counted without wrapping in the machine of `Ring`, which compares them by their wrapped difference as the code does.
- A sample's value is four opaque bytes. Clocks, the outcome of each system call and the arrival of bytes are
  parameters.

## Where the code and its documentation differ

- `include/store/wal.h` (lines 77-79) says that `wal_commit` returns -1 only with the file cut back. It returns -1
  with the batch durable in its file exactly when the fsync succeeded, the segment was full and `create_segment`
  failed (`src/store/wal.c`, lines 322-326; `Writer.MinusOneWithDurableBatch`).
- `include/store/wal.h` (lines 77-79) says that a committed batch is durable. It is exactly when the segment's
  directory entry is (`Durability.SyncedBatchIsDurable`), which is when the directory was synced as the segment was
  made (`Durability.EntryIsDurable`). When that sync fails the file stays, the next start opens it without syncing
  the directory, and a power cut takes the batches synced into it (`Durability.UnsyncedEntryLosesBatch`). On a file
  system that keeps the entries of synced files nothing is lost (`Durability.SyncedIsForever`).
- `include/store/record.h` (line 50) says that `boot_id` increments every boot. Wherever a process leaves, it does,
  and transaction numbers go on, exactly when the newest segment then holds a committed batch
  (`Durability.ReopenContinues`); a start right after a rotation counts both from 1 again
  (`Durability.RotationRestartsNumbers`).
- `src/store/main.c` (lines 3-6) says that a kill at any instant loses nothing. A start skips the right slots exactly
  under the condition of `Restart.SkipsRightExactly`. It fails one way when a ring is made anew while the newest
  segment still names an older ring's place: once a start has noted the new generation, a kill before its first batch
  leaves the next start to lose the new ring's slots up to that place (`Renewal.RenewedRingLosesSlots`, and a file of
  it in `Restart.StaleNoteLosesSlots`). It fails the other way after a rotation, whose new segment names no ring: the slots
  logged and not yet released are logged again (`Restart.RotationRepeatsSlots`). If every kill after a rotation comes
  when nothing logged is unreleased, the statement holds (`Exactly.SettledExactlyOnce`).
- `src/ipc/ring.c` bounds the depth only by not wrapping; a third party can read more than the capacity
  (`SpscRing.DepthCanExceedCapacity`).

## Model

| member | source | states |
|---|---|---|
| Crc.RecCrc32 | src/store/crc32.c:53-60 | for every byte sequence the table-driven loop gives the bit-by-bit CRC-32 (reflected 0xEDB88320) |
| Crc.TableIsBitwise | src/store/crc32.c:7-51 | every entry of the constant table is eight one-bit steps of its index |
| Crc.TableStepIsByteStep | tests/test_crc32.c:9-18 | one table step and one byte of the bitwise reference agree on every state and byte |
| Crc.OneByteChangesCrc | src/store/crc32.c:53-60 | replacing any one byte of any sequence changes its CRC |
| Crc.OneByteChangesCheck | src/store/record.c:50-51 | replacing any one byte changes the four stored checksum bytes |
| Record.EncodeReadsBack | src/store/record.c:34-80 | what rec_encode writes of any record that is valid and fits decodes, whatever follows, to that record with its reserved field zeroed; of any other record it writes nothing |
| Record.DecodeOfRecBytes | src/store/record.c:55-80 | a valid record's bytes, whatever follows them, decode to that record and its size |
| Record.RecBytesOfDecode | src/store/record.c:55-80 | what decodes is a valid record whose bytes are exactly the bytes read |
| Record.OneByteDamageIsCaught | src/store/record.c:55-80 | for every kind, event length and following bytes, a record with any one byte replaced never decodes |
| Writer.RecEncode | src/store/record.c:34-53 | in a buffer: writes the specified bytes at the position, gives their number, changes no other byte, or writes nothing |
| Writer.Checksum | src/store/record.c:50-51 | the checksum of the bytes just written, by the table loop |
| Writer.Cwr1IsWritten | src/store/record.c:34-53 | what rec_encode writes is the format the log is read by |
| Framing.ParseOfFlat | src/store/wal.c:50-110 | records written one after another are read back in order, whatever follows |
| Framing.FlatOfParse | src/store/wal.c:50-110 | what is read re-encodes to the bytes it came from, and nothing decodes after it |
| Framing.ParseOfAnyCut | tests/test_wal.c:126-140 | cutting any file, even a damaged one, at any byte keeps exactly the records that end at or before the cut |
| Log.CommittedIsLongest | src/store/wal.c:37-112 | the committed records are whole batches, fill the file's first committed bytes, and no longer prefix of the file's records is whole batches |
| Log.CutKeepsWholeBatches | tests/test_wal.c:126-140 | a file cut at any byte keeps exactly the longest run of whole batches that fits below the cut |
| Log.CutKeepsCommitted | src/store/wal.c:212-227 | cutting anywhere at or after the committed end leaves the same scan, and at the committed end nothing lost: a crash during recovery is harmless |
| Log.UndecodableEndsLog | src/store/wal.c:55 | bytes that do not decode end the log where they stand and lose nothing committed before them |
| LogFormat.DamageKeepsEarlierBatches | src/store/wal.c:50-66 | one byte changed in any record of any log loses no batch that ends before that record, and keeps nothing from it on |
| LogFormat.Cwr1IsGood | include/store/record.h:29-97 | the on-disk format is self-framing, is invertible both ways, marks batches as the writer means and gives ring notes back |
| Recovery.WalScan | src/store/wal.c:37-112 | the one-pass loop with its batch-local variables computes exactly the summary of the longest prefix of whole batches, with samples lost after it |
| Note.NoteReadsBack | src/store/main.c:58-72 | every ring note that snprintf prints is scanned back by the recovery's sscanf as the same namespace and value |
| Note.NoteTextFits | src/store/main.c:53-75 | a ring note is 10 to 25 bytes of text |
| Wal.AddKeepsBatch | src/store/wal.c:255-274 | adding any record keeps the open batch well formed and leaves room for its COMMIT |
| Wal.AddTakes | src/store/wal.c:255-274 | every valid record that leaves room for the COMMIT is taken, and the buffer grows by exactly its size |
| Wal.SealNeverFails | src/store/wal.c:290-299 | in every open batch the COMMIT encodes and fits, and makes the batch whole: commit's encoding error is dead |
| Wal.MarkedBatchIsWhole | src/store/wal.c:57-84 | BEGIN, records that neither begin nor commit, and the COMMIT of the same transaction are one batch to the scan |
| Writer.WalWriter.Append | src/store/wal.c:240-253 | the buffer stays the bytes of the batch's records, and the writer moves exactly as specified |
| Writer.WalWriter.Add | src/store/wal.c:255-274 | the in-place writer and its answer are those of the specification |
| Writer.WalWriter.Begin | src/store/wal.c:262-270 | starts a batch exactly as specified, also when BEGIN does not encode |
| Wal.DueIsElapsed | src/store/wal.c:276-280 | a batch is due exactly at 64 samples or one second of age, wherever the 64-bit clock has wrapped between its beginning and now |
| Writer.WalWriter.DropBatch | src/store/wal.c:282-288 | the dropped batch's sequence numbers are free again |
| Writer.WalWriter.WriteAll | src/store/wal.c:300-309 | whatever each write takes, the file has grown by a front piece of the batch; the loop ends with all of it out, at a failed call, or dead, as the outcomes say |
| Writer.WalWriter.SyncBatch | src/store/wal.c:310-334 | a successful fsync makes the whole file durable and closes the batch; a failed one cuts the file back and drops it |
| Writer.WalWriter.Commit | src/store/wal.c:290-335 | for every list of call outcomes, rotation included: what is returned, what the writer is and what the directory holds; -1 with the batch durable in its file if and only if the fsync succeeded, the segment was full and create_segment failed |
| Writer.MinusOneWithDurableBatch | include/store/wal.h:77-79 | that if-and-only-if, and every other -1 leaves the disk as it was: the documented promise with its exact condition |
| Writer.DurableYetMinusOne | src/store/wal.c:322-326 | for every batch that fills its segment: one write that takes all of it, a successful fsync and a successor that cannot be made are such calls, and end in -1 with the batch after what the file held, all durable |
| Writer.WalWriter.CreateSegment | src/store/wal.c:159-178 | the file not made, made with its entry not synced, or both done; the writer keeps a segment only in the last case |
| Writer.CommitIsARun | src/store/wal.c:290-335 | however its calls end, with a segment open or none since a failed rotation: what a commit does to directory and writer is what a run of the machine's steps does |
| Writer.WalWriter.constructor | src/store/wal.c:354-368 | the opened writer continues the scan's numbers, or the segment's first seq when nothing is committed |
| World.StepKeepsInv | src/store/wal.c:146-404 | every open, first or not, truncation, add, commit, torn write, fsync, failure, rotation, exit and power cut keeps the invariant of directory, file and writer |
| World.TornBatch | src/store/wal.c:300-309 | a torn batch changes nothing committed; the whole batch commits, right after what was |
| World.OpenKeeps | src/store/wal.c:339-368 | opening whatever a crash left yields a writer that continues the committed log |
| World.RotateKeeps | src/store/wal.c:322-326 | rotation, done, half done or failed, keeps every older segment whole and the numbers continuous |
| Durability.RunKeepsInv | src/store/wal.c:146-404 | the invariant holds over every run of any length |
| Durability.WriterAgreesWithDisk | src/store/wal.c:354-368 | between batches next_seq and seg_bytes are what a fresh scan of the open segment gives, and next_txn and boot_id too once it holds a committed batch |
| Durability.ReopenContinues | include/store/record.h:50 | a process leaves at any point, in a commit or between, with a segment or after a failed or half-done rotation, and the next one opens: the newest segment has committed its whole batches, the one being written only if all its bytes are there; records are numbered on from those; transactions go on and the boot is counted if and only if there are any (or both numbers were to be 1 anyway), and else both are 1 |
| Durability.RotationRestartsNumbers | src/store/wal.c:322-368 | a rotation followed by a new start begins transactions and boots at 1, whatever they were |
| Durability.AllLogIsConsecutive | src/store/wal.c:240-335 | committed sequence numbers run on from the first one across all segments, in every reachable state |
| Durability.CommittedSeqsHaveNoGap | include/store/record.h:44 | from an empty directory, after any run, the committed records are numbered 0, 1, 2 and so on without gap or repeat |
| Durability.StepKeepsDurable | src/store/wal.c:145-335 | no step, not even a power cut that loses entries, loses or changes a record that is durable in a file with a durable entry |
| Durability.DurableIsForever | include/store/wal.h:3-7 | over any run with any number of crashes, power cuts and reopenings, what was durable stays, in place |
| Durability.DurableIsWhatCutsLeave | src/store/wal.c:145-157 | durable means exactly that: every power cut leaves at least those records, and the worst one leaves no others |
| Durability.SyncedBatchIsDurable | include/store/wal.h:77-80 | when commit's fsync has succeeded, the batch comes right after everything committed before it, and is durable if and only if its segment's directory entry is; if not, nothing of the segment is |
| Durability.EntryIsDurable | src/store/wal.c:145-178 | over every run: the newest entry is durable if and only if the directory was synced as the segment was made, or a power cut has spared it since |
| Durability.UnsyncedEntryLosesBatch | src/store/wal.c:168-171 | a rotation whose directory sync fails, a new start, a batch whose fsync succeeds, and a power cut: the batch is gone |
| Durability.SyncedIsForever | src/store/wal.c:145-157 | where a power cut only loses entries of files nothing was synced into, every synced batch stays, whatever becomes of the directory's fsyncs |
| SpscRing.RingBuffer.Push | src/ipc/ring.c:40-65 | accepts exactly labelled slots while not full, in order and numbered by position, and counts every refusal by its cause |
| SpscRing.RingBuffer.Peek | src/ipc/ring.c:67-78 | gives the i-th unread slot as it was pushed, exactly when there is one |
| SpscRing.RingBuffer.Release | src/ipc/ring.c:80-90 | frees the n oldest unread slots, or refuses and frees none |
| SpscRing.RingBuffer.Pop | src/ipc/ring.c:92-95 | consumes exactly the oldest unread slot, or nothing |
| SpscRing.RingBuffer.Depth | src/ipc/ring.c:107-115 | with nothing moving, the number of unread slots, also after the indices wrap |
| SpscRing.RingBuffer.constructor | src/ipc/ring.c:21-32 | an empty ring with zero counters |
| SpscRing.U64Minus | src/ipc/ring.c:51 | the difference of wrapped indices is the number of slots between them |
| SpscRing.StepKeepsInv | src/ipc/ring.c:40-95 | every load, partial copy, publication, peek and release, on out-of-date views, and every death and replacement of an end, keeps the ring's invariant |
| SpscRing.NothingIsLost | include/ipc/ring.h:6-9 | over every interleaving: no unread slot is overwritten, every peek returned the slot pushed at its position with its number, every slot is labelled, attempts = accepted + overruns + rejected + pushes whose process died; also when either process dies at any step and is replaced |
| SpscRing.RunKeeps | include/ipc/ring.h:6-9 | accepted slots never change, released slots stay released |
| SpscRing.StepIsRingStep | src/ipc/ring.c:58-89 | to the other end only a publication within capacity and a release of accepted slots are visible |
| SpscRing.DepthIsBounded | src/ipc/ring.c:107-115 | with any steps between its two loads the depth never wraps, is at most capacity plus the slots released between them, and is within capacity if and only if no more slots were accepted between them than were free at the first |
| SpscRing.DepthCanExceedCapacity | src/ipc/ring.c:107-115 | from a full ring one release and one push between the loads give capacity + 1: plain capacity is no bound |
| Drain.DrainedRing.Drain | src/store/main.c:78-108 | the in-place loop over ring, writer and source, and the count it returns, end exactly where their specification does |
| Drain.DrainCounts | src/store/main.c:78-108 | the count drain returns is the number of samples the open batch has gained |
| Drain.DrainedRing.TakeSlot | src/store/main.c:82-106 | one turn: passes over a durable slot, adds the others, and leaves a slot that is not taken for later |
| Drain.DrainIsARun | src/store/main.c:78-108 | draining is a run of the machine's one-slot steps, so all that holds of runs holds of it |
| Exactly.SampleIsTaken | src/store/main.c:96-103 | the log takes the sample of every slot a ring accepts: drain's error branch is dead |
| Exactly.NoteIsTaken | src/store/main.c:53-75 | a ring note always fits and encodes: note_generation and note_ring_seq never fail |
| Exactly.PlainAdds | src/store/wal.c:370-376 | the boot and shutdown records are always taken, and leave the ring notes as they were |
| Exactly.ErrorBranchesAreDead | src/store/main.c:179-190 | in every reachable state a draining batch holds at most 64 samples, both notes are taken and its COMMIT seals |
| Exactly.AddedInStep | src/store/main.c:82-105 | a slot that is not skipped is the first one neither log nor batch holds |
| Exactly.SkippedInStep | src/store/main.c:85 | a skipped slot was logged before |
| Exactly.TakeKeeps | src/store/main.c:78-108 | one slot of drain keeps the exactly-once invariant |
| Exactly.BatchKeeps | src/store/main.c:178-183 | noting the batch's place and starting its commit keeps it |
| Exactly.SyncKeeps | src/store/wal.c:310-320 | a successful fsync keeps it |
| Exactly.FailKeeps | src/store/main.c:183-190 | a failed commit drops the batch, starts again from the rings, and keeps it |
| Exactly.ReleaseKeeps | src/store/main.c:191-197 | releasing committed slots keeps it: no unlogged slot is ever released |
| Exactly.StartKeeps | src/store/main.c:156-164 | a start that resumes keeps it, also when wal_open fails |
| Exactly.SoleResumes | src/store/main.c:156-164 | while the directory has one segment, with places of these rings only, every start resumes: recovery finds exactly the places the rings stand at |
| Exactly.NewSegmentKeeps | src/store/wal.c:322-326 | rotation between the fsync and the release, however it ends, keeps it |
| Exactly.SkimKeeps | src/store/main.c:178-197 | after a failed rotation, releasing slots logged before keeps it |
| Exactly.PrepareKeeps | src/store/main.c:158-166 | boot, generation and shutdown records keep it |
| Exactly.PushKeeps | src/ipc/ring.c:40-65 | a push at any moment keeps it |
| Exactly.KillKeeps | src/store/main.c:3-6 | a kill at any moment keeps it |
| Exactly.LoggedExactlyOnce | src/store/main.c:158-222 | after any run of pushes, drains, commits, failures, releases, kills and restarts that begins no new segment, every file a kill or power cut can leave holds an interleaving of the first slots of the two rings, each once and in order up to the durable skip point, and nothing released is missing |
| Exactly.DirectoryExactlyOnce | src/store/main.c:158-222 | the same of the whole directory after any run with any rotations, if every start after the first rotation resumes |
| Exactly.SettledKillsResume | src/store/main.c:156-164 | over any run with any rotations: if each kill once there is a second segment comes when every logged slot has been released, every start resumes |
| Exactly.SettledExactlyOnce | src/store/main.c:3-6 | so such runs hold every slot exactly once in the directory |
| Restart.EachRingOnceInOrder | src/store/main.c:51-105 | the same, ring by ring: the namespace's samples are the readings of slots 0 to L-1 of its ring, L the scan's skip point, tail <= L <= head |
| Restart.PlaceSays | src/store/main.c:51-75 | the place tallied from any records is one more than the last slot named since the generation last changed, 0 if none was |
| Restart.SkipPointIsLogged | src/store/wal.c:90-107 | for every log of one segment: recovery's skip point is that place if and only if the last generation noted is another ring's, or a slot has been named since the generation last changed, or none ever was |
| Restart.SkipPointIsLoggedInDirectory | src/store/wal.c:90-107 | for every directory: the skip point, read off the newest segment, is the whole log's place if and only if that segment names this ring and a place just when the log holds slots of it |
| Restart.SkipsRightExactly | src/store/main.c:160-163 | for any directory and ring: a start loses no slot from the tail on and repeats none if and only if that condition holds, or neither the skip point nor the logged slots reach the tail |
| Restart.StaleNoteLosesSlots | src/store/wal.c:99-106 | a CWR1 file of an older ring's batches and a new ring's generation note is all committed, holds no slot of the new ring, and makes the next start skip exactly its slots 0 to 5 |
| Renewal.RenewedRingLosesSlots | src/store/main.c:158-166 | a run from any state storaged is down in, whose newest segment names a place q of ring 0: the ring is made anew, storaged starts, commits boot record and generation note and is killed; every later start then skips exactly the new ring's slots 0 to q, and the log holds none of them |
| Restart.RotationRepeatsSlots | src/store/wal.c:322-326 | a rotation that succeeds and a kill before the release: the next start skips no slot, and from the tail on the log holds exactly the slots the batch took: those are logged again |
| Tallies.TallyIsScan | src/store/wal.c:90-107 | the ring notes of the committed records are what the scan reports |
| Promises.DurableStays | include/store/wal.h:3-7 | in the on-disk format: what is durable stays over every run |
| Promises.NoNumberMissing | include/store/record.h:44 | in the on-disk format: from an empty directory the numbers are 0, 1, 2 and so on |
| Promises.SegmentExactlyOnce | src/store/main.c:3-6 | in the on-disk format: exactly once in a segment |
| Promises.DirectoryExactlyOnce | src/store/main.c:3-6 | in the on-disk format: exactly once in the directory |
| Promises.SettledExactlyOnce | src/store/main.c:3-6 | in the on-disk format: exactly once in the directory, if kills after a rotation leave nothing unreleased |
| Promises.RingsInOrder | src/store/main.c:3-6 | in the on-disk format: each namespace's samples are its ring's first slots, in order, as many as the scan says |
| Sources.MergedSeparates | include/store/wal.h:22 | when each producer keeps to its mode, the merged samples of a namespace are exactly its ring's, in order |
| Sources.MergedLength | src/store/main.c:78-108 | a log that interleaves the rings' slots holds exactly as many samples as slots, after those it began with |
| Number.JsonIsNumber | src/interface/json.c:190-212 | the pointer walk accepts exactly the number grammar of section 6 of RFC 8259 |
| Number.ScanIsGrammar | include/interface/json.h:59-61 | the left-to-right scan reaches the end exactly on sentences of the grammar |
| Number.NumberScans | src/interface/json.c:190-212 | a number followed by what cannot continue it is scanned to its end and no further |
| Number.ShowIntIsNumber | src/interface/json.c:147-159 | every printed integer is a number of the grammar |
| Json.ReadOfShow | include/interface/json.h:1-6 | a reader of the compact subset of RFC 8259 the writer emits gives back exactly the value that was serialized, so different values have different texts |
| Json.ReadStringOf | src/interface/json.c:61-87 | an escaped ASCII string is read back as itself, whatever follows |
| JsonWriter.CallIsExact | src/interface/json.c:15-145 | a call succeeds exactly when it is in order, writable, not too deep and fits; the text is then that of what the calls describe |
| JsonWriter.FinishedIsTheValue | src/interface/json.c:220-224 | soundness: if json_finish gives a length, the buffer is exactly the serialization of the one value the calls describe |
| JsonWriter.ValueIsWritten | src/interface/json.c:15-59 | completeness: a value's calls succeed exactly when it is ASCII, has real numbers, nests at most 8 deep and its text is shorter than cap |
| JsonWriter.FinishSucceedsExactly | src/interface/json.c:220-224 | for every sequence of calls: json_finish succeeds if and only if the calls describe one such value |
| JsonWriter.CallsAreTheirs | src/interface/json.c:30-59 | the calls made are the only ones that describe the document they built |
| JsonWriter.FailedStays | include/interface/json.h:7-11 | failure is permanent |
| JsonBuffer.JsonText.PutText | src/interface/json.c:14-22 | appends exactly when room for the NUL remains, else fails; no byte at or past cap changes |
| JsonBuffer.JsonText.StartValue | src/interface/json.c:29-46 | the separator and the order check, as specified, within bounds |
| JsonBuffer.JsonText.PutQuotedText | src/interface/json.c:61-87 | the byte-by-byte loop writes the escaped string or fails, within bounds |
| JsonBuffer.JsonText.PutKey | src/interface/json.c:125-138 | a key in place, within bounds |
| JsonBuffer.JsonText.StartContainer | src/interface/json.c:98-106 | a container begun in place, within bounds |
| JsonBuffer.JsonText.EndOfContainer | src/interface/json.c:108-118 | a container ended in place, within bounds |
| JsonBuffer.JsonText.Perform | src/interface/json.c:120-218 | every call but json_double in place is the specified one, and changes no byte at or past cap |
| JsonBuffer.JsonText.Length | src/interface/json.c:220-224 | a length only for one complete value, whose text is in the buffer with its NUL |
| JsonBuffer.JsonText.constructor | src/interface/json.c:89-96 | an empty writer, failed at once if there is no room at all |
| Kv.TokenLength | src/interface/kv.c:48-57 | the loop finds the first space outside double quotes |
| Kv.KvParseLine | src/interface/kv.c:97-128 | the token loop computes the line's specified parse |
| Kv.RecordsAreThePrinted | src/interface/kv.c:97-128 | a line parses as a record if and only if it is that record, within the limits, printed: one spelling, byte for byte |
| Kv.FieldShows | src/interface/kv.c:61-95 | an accepted token is its field printed; a bare value is null or a number of RFC 8259, a quoted one has no quote or backslash |
| Kv.FieldReads | src/interface/kv.c:61-95 | every field within the limits, printed, is accepted as itself |
| Kv.ErrReadsBack | src/interface/kv.c:28-46 | every refusal within the limits, printed, parses as itself |
| Kv.ErrShowsBack | src/interface/kv.c:28-46 | what parses as a refusal is that refusal printed |
| Kv.KvReplyNext | src/interface/kv.c:130-141 | the line up to the next newline without its CR, or nothing |
| Kv.KvReplyCheck | src/interface/kv.c:143-158 | the walk over the lines computes the reply's verdict |
| Kv.CompleteRepliesArePrefixFree | src/interface/kv.c:143-158 | of a complete reply every strict prefix is incomplete and every proper extension malformed |
| Kv.RecordsAreOk | src/interface/kv.c:97-128 | every record of every reply is within all the limits |
| Route.WriteReply | src/interface/route.c:77-123 | the loop over the records leaves the specified body in the buffer, or refuses |
| Route.ReplyEmits | src/interface/route.c:85-111 | the writer calls made describe exactly one value: ok, and the list of the reply's records |
| Route.ReplyBecomesItsValue | src/interface/route.c:77-123 | the conversion gives that value's text, except exactly when a record has a field named tag or the text does not fit |
| Route.BodyMeansTheReply | src/interface/route.c:77-123 | reading the JSON back gives the same records with the same tags, field order, types and values |
| Route.BodyHasUniqueKeys | src/interface/route.c:92-96 | no object of the body has a duplicate key |
| Route.RefusalReadsBack | src/interface/route.c:47-66 | a source's refusal always fits the response, and reading the body gives its code and reason |
| Series.CheckSeriesKeys | src/interface/route.c:143-163 | the loop accepts exactly queries of known keys, once each, with no empty pair, or gives the first reason |
| Series.BuildSeriesLine | src/interface/route.c:165-188 | the loop builds the specified line, which is always shorter than its buffer: query too long never happens |
| Series.BuiltLineFits | src/interface/route.c:183-185 | every line a query becomes has at most 102 characters, so it fits the 160-byte buffer |
| Series.SeriesReadsBack | src/interface/route.c:165-188 | the source reads the line as a series record with exactly the decoded values, if and only if no all-digit from or to has a leading zero and more than one digit |
| Series.LeadingZeroIsNotRead | src/interface/route.c:181 | the query from=01 is accepted and becomes a line that the source does not read as that field |
| Series.KeyOrderDoesNotMatter | src/interface/route.c:175-186 | queries that give each key the same value, in any order and with or without the equals sign of an empty one, become the same line or the same refusal |
| Series.GetsLookup | src/interface/http.c:116-134 | in a query made of pairs the value found is the decoded value of the key's pair |
| Http.DecodeInto | src/interface/http.c:16-40 | the loop decodes exactly as specified, within cap |
| Http.PathIsUnsafe | src/interface/http.c:42-61 | unsafe if and only if the path does not decode, has a forbidden byte, or has a dot-dot segment after decoding |
| Http.HttpParseRequest | src/interface/http.c:63-114 | the parser, as it runs, gives the specified verdict |
| Http.RequestLineGrammar | src/interface/http.c:77-113 | a request line is accepted with a path and query if and only if it is GET, that safe target, and HTTP/1.0 or 1.1, single-spaced (section 3 of RFC 9112) |
| Http.VerdictIsFinal | include/interface/http.h:33-36 | once the verdict is anything but incomplete, no further bytes change it, nor the path and query |
| Http.ChunksDoNotMatter | src/interface/server.c:241-261 | however the stream is split, the outcome is the verdict on the whole stream, or still open because too little was read |
| Http.ConnReadIsChunkingIndependent | src/interface/server.c:241-261 | two splits that deliver the same bytes reach the same outcome |
| Http.HttpQueryGet | src/interface/http.c:116-134 | the loop finds the first pair of the key and decodes its value |
| Server.Finish | src/interface/server.c:129-143 | head and body become one run of bytes, and the body is not touched |
| Server.WriteIs | src/interface/server.c:161-179 | what was sent is always the front of the response, and a connection counts as served only when all was sent |
| Server.ReadIs | src/interface/server.c:241-261 | reading keeps the first deadline while the request is incomplete, then sets the second one; a verdict never comes late |
| Server.SlotsMoveForward | src/interface/server.c:318-373 | an event moves one slot, only from free to reading to writing to free, and never changes a response once begun |
| Server.StepKeeps | src/interface/server.c:318-373 | every round keeps the invariant, and leaves no connection older than both deadlines together |
| Server.EveryRunIsBounded | include/interface/server.h:15-18 | over every run: a connection is gone after the first round at or past 10000 ms from its acceptance whose poll no signal interrupts; what a client has been sent, its connection finished or not, is the front of the answer to exactly the bytes taken from it, and is nothing before those are decided; accepted = served + timed out + otherwise closed + open |
| Server.Loop.WriteOn | src/interface/server.c:161-181 | conn_write's loop in place is the specified one |
| Server.Loop.ReadOn | src/interface/server.c:241-261 | conn_read in place is the specified one |
| Server.Loop.Reap | src/interface/server.c:306-316 | the loop over the slots closes and counts exactly the expired ones |
| Server.Loop.HandleOne | src/interface/server.c:272-304 | accepting, refusing for lack of a slot, and moving a ready slot, in place |
| Server.Loop.StepOnce | src/interface/server.c:351-372 | a round in place is the specified one |
| Scheduling.Schedule.NextPid | tools/obdlog.py:208-223 | the method and its cursors move exactly as specified |
| Scheduling.Schedule.TakeSlow | tools/obdlog.py:199-206 | the loop over one group, cursor included |
| Scheduling.Schedule.TakeFast | tools/obdlog.py:199-206 | the same for the fast group |
| Scheduling.Schedule.constructor | tools/obdlog.py:192-197 | fast is the wanted PIDs that exist and slow the others, each in the order given and as often as given |
| Scheduling.FilterRanks | tools/obdlog.py:193-194 | filtering keeps order and repeats: each kept PID stands at its rank among the kept ones |
| Scheduling.NextSkips | tools/obdlog.py:208-223 | a skipped PID is never returned, and nothing is returned if and only if every PID is skipped |
| Scheduling.SlowServiceBound | tools/obdlog.py:186-223 | of m slow PIDs, one never skipped waits at most m + ceil(m/(every-1)) requests, from any state, under any changing skips |
| Scheduling.FastServiceBound | tools/obdlog.py:186-223 | of k fast PIDs, one never skipped waits at most k*every requests |

## Left out

- Exactly.DirectoryExactlyOnce: one ring instance per namespace; a ring made anew between two sessions ends such a run, and what follows is in Renewal and, for any log, in Restart.
- Storaged.DoNewSegment: after a failed rotation the loop's work on batches it cannot write is not modelled, only the releases it may still make.
- World.DoFailed: undo's ftruncate is taken to succeed, as the code's own recovery needs.
- World.DoLose: entries are lost newest first, as a file system that orders its directory updates loses them.
- SpscRing.NothingIsLost: acquire and release are atomic steps whose reads may be out of date but never older than the same end's last read or its start; weaker memory behaviour is not modelled.
- Note.NoteReadsBack: sscanf and snprintf are modelled as the GNU C library's, for the two formats used.
- Series.KeyOrderDoesNotMatter: queries of known keys, each at most once; order is compared through the value each key has, which for those is the same as comparing permutations.
- Server.EveryRunIsBounded: the millisecond clock does not wrap; the cap of 16 accepts a round and the pause after a failed accept only remove runs and are not enforced.
- JsonBuffer.JsonText.Perform: json_double is not among the calls, as in JsonWriter.
- JsonWriter.FinishSucceedsExactly: json_double is not among the calls; it depends on printf and floating point.
- route_handle's table of paths, status codes and the page: a lookup without a hard property.
- http_write_head: a fixed format string; the response is its bytes followed by the body.
- Mapping of shared memory, directory listing, sockets, polling, signals, heartbeats, logging and argument parsing: system calls and reporting.
- newest_segment and file names: the directory's order is the order of creation, and a segment's name is its first sequence number.
- The other processes and tools (obdd, analyzed, the supervisor, obdctl, replay.py, the simulator, plots and viewers): no logic of this depth.
