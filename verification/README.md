# Verified model of the in-memory key-value store's write-ahead log

This project models the storage core of the in-memory key-value database: the write-ahead
log with its concurrent producers and single flusher, the segment files it rotates through,
recovery after a restart, the LSN generator, the connection semaphore and the command
parser. Everything is stated and proved in Dafny; `dafny verify dfyconfig.toml` checks it.

## How the model is laid out

| file | content |
|---|---|
| `Records.dfy`, `Sorting.dfy` | log records, the table, the meaning of a record sequence; sorted permutations (`sort.Slice` is not stable, so a sort is any sorted permutation) |
| `Segments.dfy`, `SegmentNames.dfy` | rotation, size tracking and reopening of segment files; file names and the sorted listing |
| `Recovery.dfy` | decoding files into records and what replaying them means |
| `WalMachine.dfy` | the WAL as a step machine: `Enabled`, `Do`, `Legal`, `Run` |
| `WalOwnership.dfy`, `WalAnswers.dfy`, `WalDurability.dfy`, `WalLimits.dfy` | the inductive invariant, part by part |
| `WalRuns.dfy`, `WalOrder.dfy`, `WalProgress.dfy`, `WalRestarts.dfy` | the theorems over whole runs and over any number of restarts |
| `WalTwoWrites.dfy` | the smallest lives on which recovery fails, and exactly when it does |
| `WalObjects.dfy` | the imperative side: channel, promise, hash table, segment, WAL and engine objects, proved against the functions the machine uses |
| `WalRefinement.dfy` | the abstraction from the objects to the machine, under which their methods are its steps |
| `IdGenerator.dfy`, `Semaphore.dfy`, `Parser.dfy` | the small components |

A state of the machine holds the engine calls with their phase and promise channel, the
active batch, the sealed batches in producers' hands, the channel of capacity 5, the
flusher's phase, the segment with its files and the table. One step is one atomic operation
of the code: the compare-and-swap and the add of the LSN generator, the locked section of
`push`, the channel send, the receive, a seal, the segment write, the resolution of one
promise, the sort, the application of one record. Scheduling, ticks, cancellation, disk
faults and the outcome of `sort.Slice` are parameters of the steps, so a theorem over
`steps` is a theorem over every interleaving. A producer's sealed batch needs no owner field:
the producer that sealed a batch is the one whose request is last in it. A `Life` is one
process with its configuration: it boots by recovering the sorted listing of the directory,
runs any steps and may stop or crash between any two. Timestamps in file names are inputs, so
the clock may do anything.

The machine also carries history: `flushes` (every segment write with its outcome and what it
left on disk), `done` (the batches applied), `base` and `baseLog` (what the run started from).

## Where the code and its documentation disagree

The model follows the code.

- The package comment of `wal.go` says callers are unblocked after the records are applied.
  Promises are resolved inside `WalWriter.Write`, before. `AcknowledgedBeforeApplied` exhibits
  a run in which an acknowledged write is not visible; `AcknowledgedButInvisibleIff` says
  exactly when that is so.
- `Start` is documented to drain everything in flight on cancellation. `AppendedAfterExit`
  exhibits a request that is never resolved; `ExitResolvesIff` and `UnresolvedAfterExit` say
  exactly which ones are.
- Recovery is documented to replay all existing segments. A file that took two flushes does
  not decode: `TwoFlushesInOneSegment` exhibits a process after which no other can boot, and
  `RestartSucceedsIff` gives the exact condition on the flush sizes and limits.
- The listing is documented to be chronological. It is sorted by name, and names carry wall
  clock timestamps: `ListingBreaksAcrossDigitCounts` and `ListingBreaksWhenTheClockStepsBack`
  are counterexamples, `ListingChronologicalIff` is the exact condition, and `ClockStepsBack`
  and `TimestampsDecide` say what recovery then rebuilds.
- `IDGenerator` is documented as safe for concurrent use, with ids that stay non-negative
  across the wrap. `WrapRace` shows a negative id, `PositiveIff` when one can occur.
- `ErrInvalidCommand` is documented for anything but ASCII letters. Dotless i and long s are
  accepted, because their upper case is ASCII (`AcceptedCommandIff`).

## Model

| member | source | states |
|---|---|---|
| `WalRestarts.RestartSucceedsIff` | internal/database/storage/engine/in_memory/wal/wal.go:122-196 | Over any number of processes without a failed write, each with its own configuration, segment limit and outcome of Stat, whose boots listed the files in creation order: another process can boot if and only if every write but the first overflows, together with the one before, the limit it was made against; and when the directory lists in order and no flush is in progress, every recovery rebuilds exactly the live table |
| `WalRestarts.NextBootsIff` | internal/database/storage/engine/in_memory/wal/wal.go:133-161 | After any processes another one can boot if and only if no file holds two flushes |
| `WalRestarts.RecoveryEqualsLive` | internal/database/storage/engine/in_memory/wal/wal.go:122-173 | A process stopped or crashed between any two steps, after any earlier processes: recovery of the sorted listing yields the live table with the rest of the flush in progress applied, for every choice of the unstable sort, as long as its failed writes left nothing on disk and every file's timestamp lists before the next one's; LSNs restart and disk order is push order |
| `WalRestarts.LivesListInOrderIff` | internal/database/storage/engine/in_memory/filesystem/segment_utils.go:14-25 | Whatever processes left, the sorted listing is the order of the files if and only if every timestamp lists before the next |
| `WalRestarts.SettledIsReplay` | internal/database/storage/engine/in_memory/wal/wal.go:296-317 | What a run wrote, replayed on the table it started from, is its live table once the flush in progress is applied |
| `WalRestarts.LivesKeepGoodLog` | internal/database/storage/engine/in_memory/engine.go:75-103 | Over any number of restarts each flush on disk has distinct LSNs and holds records built by Set and Del only, as long as no process begins more than MaxInt64 writes |
| `WalTwoWrites.TwoFlushesInOneSegment` | internal/integration/api_test.go:80-86 | Two acknowledged writes of one process into an empty directory: another process can boot if and only if they overflowed the limit; otherwise they share a segment and none ever can |
| `WalTwoWrites.TimestampsDecide` | internal/database/storage/engine/in_memory/filesystem/segment_utils.go:57-79 | Where every write gets its own file, recovery rebuilds the live table whatever two writes were made if and only if the first file's timestamp lists before the second's |
| `WalTwoWrites.OlderValueComesBack` | internal/database/storage/engine/in_memory/wal/wal.go:125-173 | When the second file lists first, of two values set under one key the live table has the newer and recovery brings back the older |
| `WalTwoWrites.ClockStepsBack` | internal/database/storage/engine/in_memory/filesystem/segment_utils.go:14-15 | So it does for files created at 20 and then at 10 |
| `WalOrder.RealTimeOrderInLog` | internal/database/storage/engine/in_memory/wal/wal.go:296-352 | If call a returned success before call b began, a is in a successful write and every write holding b comes later, in every interleaving |
| `WalOrder.RealTimeOrderOfApplication` | internal/database/storage/engine/in_memory/wal/wal.go:303-314 | Then b is applied to the table only after a was |
| `WalOrder.RealTimeOrderOfReplay` | internal/database/storage/engine/in_memory/wal/wal.go:122-172 | Then, for every choice of the unstable sort, recovery applies a's record before b's, when the files list in creation order |
| `WalOrder.RealTimeOrderOfLsns` | internal/database/storage/engine/in_memory/engine.go:82-103 | Then a's LSN is smaller than b's, without LSN wrap |
| `WalOrder.ReplayFollowsOrder` | internal/database/storage/engine/in_memory/wal/wal.go:133-172 | The records recovery applies are, in this order, those of the log the run started from and those its writes left, write by write in LSN order |
| `WalOrder.ExitResolvesIff` | internal/database/storage/engine/in_memory/wal/wal.go:228-265 | When the flusher has exited, a request is resolved if and only if the flusher took it from the channel or found it in the active batch at a seal |
| `WalOrder.UnresolvedAfterExit` | internal/database/storage/engine/in_memory/wal/wal.go:228-265 | An unresolved request is then in a producer's hand, or in the channel, its batch sent at a step after the drain saw the channel empty, or in the active batch, appended at a step after the final seal |
| `WalOrder.AppendedAfterExit` | internal/database/storage/engine/in_memory/wal/wal.go:236-243 | A write appended after the final seal stays unresolved |
| `WalRuns.ReachableInv` | internal/database/storage/engine/in_memory/wal/wal.go:216-352 | The invariant (ownership, promises, disk and table history, LSNs) holds in every reachable state |
| `WalRuns.CallsCanStep` | internal/database/storage/engine/in_memory/wal/wal.go:319-352 | In every reachable state anyone can begin, a call that has begun can draw its LSN and one that has it can append, whatever the others do; a sealed batch can be sent exactly while fewer than five are queued; a waiting call returns exactly when its promise is resolved |
| `WalRuns.FlusherCanStep` | internal/database/storage/engine/in_memory/wal/wal.go:228-281 | What the flusher and the cancelling side can do, by the flusher's phase |
| `WalRuns.FlusherMoves` | internal/database/storage/engine/in_memory/wal/wal.go:228-281 | Where those steps lead: received and sealed batches are written in their mode, the drain begins at the cancel, ends at the empty channel, and the flusher exits after the final flush |
| `WalRuns.ModeNeverGoesBack` | internal/database/storage/engine/in_memory/wal/wal.go:236-265 | Once draining the flusher never serves again, once closing it never drains again, once exited it stays so |
| `WalRuns.RefusedIff` | internal/database/storage/engine/in_memory/engine.go:82-103 | Over every run a call is refused if and only if the LSN it drew is 0; with at most MaxInt64 calls none is |
| `WalRuns.LinearOwnership` | internal/database/storage/engine/in_memory/wal/wal.go:285-352 | Each pushed request is in exactly one of active batch, producer's hand, channel, flusher's hand or one write; its channel is open exactly while it is pending; a call holds a sealed batch exactly while it is to be sent; no send ever hits a closed channel |
| `WalRuns.NothingElseAnywhere` | internal/database/storage/engine/in_memory/wal/wal.go:319-347 | No other request and no copy with another log is anywhere; the flusher's copies are flagged exactly when resolved, all others are not |
| `WalAnswers.NotifyEffect` | internal/concurrency/promise.go:37-45 | In any state a flagged copy does nothing, an unflagged one fills an open channel and panics on a closed one, and the copy is flagged |
| `WalAnswers.NotifySends` | internal/concurrency/promise.go:37-45 | Whenever the flusher resolves a promise, the batch's copy is unflagged and the shared channel is open and empty |
| `WalRuns.AcknowledgementIsHonest` | internal/database/storage/engine/in_memory/wal/wal_writer.go:35-62 | A call returns nil exactly when the one segment write that held its record succeeded; nil puts the record in an acknowledged chunk of the log, an error keeps it out of the table |
| `WalRuns.AcknowledgedButInvisibleIff` | internal/database/storage/engine/in_memory/wal/wal.go:296-317 | An acknowledged write is not applied if and only if it is in the part of the batch being flushed that is still to be applied |
| `WalRuns.AcknowledgedBeforeApplied` | internal/database/storage/engine/in_memory/wal/wal_writer.go:47-49 | From every quiet state a lone write is acknowledged while the table is unchanged: read-your-writes fails |
| `WalRuns.TableBetweenFlushes` | internal/database/storage/engine/in_memory/wal/wal.go:303-314 | Between flushes the table is the initial table with every successfully written batch applied, each in LSN order |
| `WalRuns.KeyHoldsLastOp` | internal/database/storage/engine/in_memory/wal/wal.go:198-214 | In every reachable state a key holds the value of the last applied Set or Del call of it, or what it held at the start |
| `WalRuns.ThresholdsHold` | internal/database/storage/engine/in_memory/wal/wal.go:324-344 | With limits of at least one the active batch stays below both limits, its volume is the sum of its records' sizes, and every sealed batch is within the count and was below the volume before its last record |
| `WalRuns.SealedBatchesReachedALimit` | internal/database/storage/engine/in_memory/wal/wal.go:338-344 | Whatever the limits, every batch in a producer's hand or in the channel has reached the count or the volume limit: nothing is sealed early |
| `WalLimits.AppendSealsIff` | internal/database/storage/engine/in_memory/wal/wal.go:324-344 | An append seals if and only if it reaches the count or the volume limit, and where the records then are |
| `WalMachine.PersistSucceedsIff` | internal/database/storage/engine/in_memory/wal/wal_writer.go:35-56 | The write of a batch succeeds if and only if its records encode and the segment write succeeds, in fields of the segment; a batch that does not encode leaves the disk alone |
| `WalProgress.NoDeadlock` | internal/database/storage/engine/in_memory/wal/wal.go:221-352 | While the flusher runs, every state with an unresolved request has an enabled step towards resolution |
| `WalProgress.ProgressDecreases` | internal/database/storage/engine/in_memory/wal/wal.go:221-352 | Every such step decreases a lexicographic measure, whatever the disk and the scheduler do |
| `WalProgress.FlushesToCome` | internal/database/storage/engine/in_memory/wal/wal.go:266-277 | Without new appends, writes done plus batches in hand, queued, with the flusher and active is constant: that many flushes remain |
| `WalProgress.NoWorkAllResolved` | internal/database/storage/engine/in_memory/wal/wal.go:266-277 | When none remain, every request is resolved |
| `WalProgress.DrainResolvesAll` | internal/database/storage/engine/in_memory/wal/wal.go:221-281 | From every reachable state with a serving flusher, progress steps alone resolve all requests |
| `WalLimits.FlushHasDistinctLsns` | internal/database/storage/engine/in_memory/wal/wal.go:320-325 | The records of one flush carry distinct LSNs, so the unstable sort has one result |
| `WalObjects.Wal.Push` | internal/database/storage/engine/in_memory/wal/wal.go:319-344 | A fresh promise; the batch is sealed exactly when it reaches the count or the volume limit, whole, and otherwise grows by the record |
| `WalObjects.Wal.Send` | internal/database/storage/engine/in_memory/wal/wal.go:345-347 | A non-empty sealed batch goes to the end of the channel, outside the lock |
| `WalObjects.Wal.SealBatch` | internal/database/storage/engine/in_memory/wal/wal.go:285-294 | Takes the whole batch and resets batch and volume |
| `WalObjects.Wal.WriteBatch` | internal/database/storage/engine/in_memory/wal/wal_writer.go:35-56 | When every record encodes, segment and error are those of one segment write of the batch's records; when one does not, it fails and the segment is unchanged; every promise carries the outcome |
| `WalObjects.Notification` | internal/database/storage/engine/in_memory/wal/wal_writer.go:58-62 | Every request's channel holds the response and is closed, and the batch's copies are flagged |
| `WalObjects.Wal.FlushBatch` | internal/database/storage/engine/in_memory/wal/wal.go:296-317 | The same, and on success the table is the old one with a sorted permutation of the batch applied, on an error it is unchanged; an empty batch does nothing |
| `WalObjects.Wal.ReplayFile` | internal/database/storage/engine/in_memory/wal/wal.go:163-172 | Applies a sorted permutation of the decoded records, stopping at the first that fails |
| `WalObjects.Wal.ReplayFiles` | internal/database/storage/engine/in_memory/wal/wal.go:133-173 | A file i that cannot be read or decoded leaves exactly the replay of the files before i |
| `WalObjects.Wal.Recover` | internal/database/storage/engine/in_memory/wal/wal.go:122-196 | The same for the whole of recovery over the sorted listing, with the cause of every error; own records never fail to apply; on success the last listed file is reopened or the first one created |
| `WalRefinement.Start` | internal/database/storage/engine/in_memory/wal/wal.go:122-196 | Recovery on a new WAL is a boot of the machine; on own records and without I/O errors it succeeds if and only if every file decodes |
| `WalRefinement.Push` | internal/database/storage/engine/in_memory/wal/wal.go:319-344 | Push is the machine's step Append under the abstraction, and seals exactly at a limit |
| `WalRefinement.Submit` | internal/database/storage/engine/in_memory/engine.go:82-103 | Set and Del of the engine are the steps Begin, Draw and Append of a new call, or end after Draw with LSN 0 |
| `WalRefinement.SendSealed` | internal/database/storage/engine/in_memory/wal/wal.go:345-347 | Sending a sealed batch is the step Send |
| `WalRefinement.Seal` | internal/database/storage/engine/in_memory/wal/wal.go:285-294 | SealBatch is the step Tick, or the final seal |
| `WalRefinement.Flush` | internal/database/storage/engine/in_memory/wal/wal.go:296-317 | FlushBatch is the steps Write, Notify for every request, SortBatch, ApplyNext for every record, Finish; the write meets the disk exactly when every record encodes |
| `WalRefinement.FlushRun` | internal/database/storage/engine/in_memory/wal/wal.go:296-317 | Those steps are enabled one after another and lead to the state with every promise resolved and, on success, every record applied |
| `WalRefinement.WritingIsAnswerable` | internal/concurrency/promise.go:37-45 | In every reachable state the batch about to be written has open, empty, pairwise different channels and unflagged copies |
| `WalObjects.HashTable.Apply` | internal/database/storage/engine/in_memory/wal/wal.go:198-214 | The record's effect by command id, and failure exactly on missing arguments |
| `WalObjects.HashTable.Set` | internal/database/storage/engine/in_memory/hash_table.go:23-28 | Stores the value under the key and nothing else |
| `WalObjects.HashTable.Get` | internal/database/storage/engine/in_memory/hash_table.go:32-41 | The stored value, or absence |
| `WalObjects.HashTable.Del` | internal/database/storage/engine/in_memory/hash_table.go:44-49 | Removes the key and nothing else |
| `WalObjects.SegmentObject.Write` | internal/database/storage/engine/in_memory/filesystem/segment.go:77-100 | Succeeds if and only if the data is stored and a file that has to be started can be, or the current one is open; the new state is that of `Segments.Write`, on every fault |
| `WalObjects.SegmentObject.CreateFile` | internal/database/storage/engine/in_memory/filesystem/segment.go:50-61 | A new empty current file, if and only if creation succeeds and the name is not taken |
| `WalObjects.SegmentObject.NextSegment` | internal/database/storage/engine/in_memory/filesystem/segment.go:102-120 | Closes the old file first, so a failed rotation leaves a closed current file |
| `WalObjects.SegmentObject.SetFile` | internal/database/storage/engine/in_memory/filesystem/segment.go:125-140 | The tracked size becomes the file's length, or 0 when Stat fails or there is no file |
| `WalObjects.SegmentObject.GetList` | internal/database/storage/engine/in_memory/filesystem/segment.go:70-72 | The directory in the order of its sorted paths |
| `WalObjects.Set` | internal/concurrency/promise.go:37-45 | The first Set on a copy publishes and closes, a Set on a flagged copy does nothing |
| `WalObjects.Get` | internal/concurrency/future.go:24-26 | The buffered value first, the zero value once drained |
| `WalObjects.GetTwice` | internal/concurrency/promise.go:47-53 | Only the first Get sees the outcome; a second one reads success even after an error |
| `WalObjects.Engine.Submit` | internal/database/storage/engine/in_memory/engine.go:82-103 | The LSN is the next one, drawn before the batch lock; only LSN 0 is refused and leaves the WAL alone; otherwise the record joins the batch or seals it |
| `WalObjects.Engine.Get` | internal/database/storage/engine/in_memory/engine.go:107-115 | Reads go straight to the table |
| `Records.LastWriterWins` | internal/database/storage/engine/in_memory/wal/wal.go:198-214 | After any record sequence a key holds what the last record touching it left, or what it held before |
| `Records.OpEffect` | internal/database/storage/engine/in_memory/wal/wal.go:354-364 | What Set and Del log, applied, stores the value and removes the key |
| `Records.ApplyCases` | internal/database/storage/engine/in_memory/wal/wal.go:198-214 | Which records fail and what the others do, by command id and number of arguments |
| `Records.LastOpWins` | internal/database/storage/engine/in_memory/wal/wal.go:198-214 | After any operations a key holds the value of the last Set or Del of it |
| `Records.ReplayStopsAtFirstFailure` | internal/database/storage/engine/in_memory/wal/wal.go:163-172 | Replay applies the records before the first that fails, and reports whether there was one |
| `Records.SortingPreservesMeaning` | internal/database/storage/engine/in_memory/wal/wal.go:303-314 | One global LSN order has the effect of the flushes one after another, each sorted, whenever for every key the last record in flush order has the largest LSN |
| `Records.ReplayIdempotent` | internal/database/storage/engine/in_memory/wal/wal.go:163-172 | Replaying a log on top of its own result changes nothing |
| `Records.OwnRecordsApply` | internal/database/storage/engine/in_memory/wal/wal.go:354-364 | Records built by Set and Del never make apply fail |
| `Records.OwnRecordsReplay` | internal/database/storage/engine/in_memory/wal/wal.go:198-214 | On such records stopping at errors (recovery) and skipping them (flusher) compute the same table |
| `Recovery.RecoveryOrder` | internal/database/storage/engine/in_memory/wal/wal.go:133-173 | When all files decode, the records recovery applies, file by file, are those of all flushes in order, each in LSN order |
| `Recovery.RecoverableIff` | internal/database/storage/engine/in_memory/wal/wal.go:142-161 | A directory of own records can be recovered if and only if no file holds two non-empty streams, and then no record fails |
| `Recovery.DecodesIffOneFlushPerFile` | internal/integration/api_test.go:80-86 | A directory decodes if and only if no file holds two flushes |
| `Segments.SegmentsStayPacked` | internal/database/storage/engine/in_memory/filesystem/segment.go:50-140 | Over any life of a fresh directory in which nothing fails: tracked size is the file's length and each file is within the limit or holds one non-empty write, whatever the clock does; when files list in creation order at restarts, they hold all writes in order and unsplit, and a new file is started only when the write did not fit |
| `Segments.PutSeparates` | internal/database/storage/engine/in_memory/filesystem/segment.go:77-100 | Every successful write keeps the equivalence: each write has its own file if and only if every write overflows, with the one before, the limit it was made against |
| `Segments.ListingInOrderIff` | internal/database/storage/engine/in_memory/filesystem/segment_utils.go:61-79 | A directory of distinct names lists in the order of its files if and only if every timestamp lists before the next |
| `Segments.FileListIsListing` | internal/database/storage/engine/in_memory/filesystem/segment_utils.go:61-79 | For a directory whose regular files are the segments, whatever directories it holds besides and in whatever order it is read, GetFileList returns the paths of the listing recovery uses |
| `Segments.NextFitBound` | internal/database/storage/engine/in_memory/filesystem/segment.go:84-89 | k segments hold more than floor(k/2) times the limit |
| `Segments.OneWritePerFileIff` | internal/database/storage/engine/in_memory/filesystem/segment.go:84-89 | Every file holds at most one write if and only if every two consecutive writes overflow the limit together |
| `Segments.FreshDirectoryIsPacked` | internal/database/storage/engine/in_memory/filesystem/segment.go:77-120 | The two results above apply to every directory grown from empty by non-empty successful writes |
| `Segments.WriteExtendsLog` | internal/database/storage/engine/in_memory/filesystem/segment.go:77-100 | A write appends exactly its chunk on success; on an error nothing or its unacknowledged chunk; it never changes what was there |
| `Segments.WriteSucceedsIff` | internal/database/storage/engine/in_memory/filesystem/segment.go:77-120 | A write succeeds if and only if the data is stored and either a file has to be started, can be, and its name is free, or none has to be and the current one is not closed |
| `Segments.WriteNewFile` | internal/database/storage/engine/in_memory/filesystem/segment.go:77-120 | The directory after a write that has to start a file, on success and on every fault; a failed rotation leaves the old file closed |
| `Segments.WriteSameFile` | internal/database/storage/engine/in_memory/filesystem/segment.go:91-99 | The directory after a write to the current file, on success and on every fault |
| `SegmentNames.GetFileList` | internal/database/storage/engine/in_memory/filesystem/segment_utils.go:61-79 | A sorted list in which a path occurs as often as there are entries that are not directories and have it |
| `SegmentNames.NamesChronologicalIff` | internal/database/storage/engine/in_memory/filesystem/segment_utils.go:14-15 | The smaller timestamp lists first if and only if it is at most the larger one cut to as many digits |
| `SegmentNames.PathOrder` | internal/database/storage/engine/in_memory/filesystem/segment_utils.go:14-15 | The order of two paths for any two timestamps |
| `SegmentNames.ListingChronologicalIff` | internal/database/storage/engine/in_memory/filesystem/segment_utils.go:57-79 | For any distinct timestamps, increasing or not, the listing is the creation order if and only if every timestamp lists before the next |
| `SegmentNames.ListingIsChronological` | internal/database/storage/engine/in_memory/filesystem/segment_utils.go:57-79 | Increasing timestamps with equally many digits always list chronologically |
| `SegmentNames.ListingBreaksAcrossDigitCounts` | internal/database/storage/engine/in_memory/filesystem/segment_utils.go:57-60 | Timestamps 9 and 10 list in the wrong order |
| `SegmentNames.ListingBreaksWhenTheClockStepsBack` | internal/database/storage/engine/in_memory/filesystem/segment_utils.go:57-60 | So do timestamps 20 and 10, created in this order |
| `SegmentNames.PathsDiffer` | internal/database/storage/engine/in_memory/filesystem/segment_utils.go:15-17 | Names are injective in the timestamp |
| `SegmentNames.NameDenotes` | internal/database/storage/engine/in_memory/filesystem/segment_utils.go:14-15 | A name is the mask, the timestamp in decimal without leading zeros, and .log |
| `IdGenerator.IdsUnique` | internal/database/storage/engine/in_memory/id_generator.go:25-28 | In every interleaving of swap and add steps, while the previous id plus calls started stay within MaxInt64, ids are positive and distinct |
| `IdGenerator.NonOverlappingIncrease` | internal/database/storage/engine/in_memory/id_generator.go:25-28 | Then a call that has its id precedes every call that starts later |
| `IdGenerator.WrapRace` | internal/database/storage/engine/in_memory/id_generator.go:8-11 | Beyond that bound some interleaving hands out a negative id |
| `IdGenerator.PositiveIff` | internal/database/storage/engine/in_memory/id_generator.go:8-28 | From a previous id below MaxInt64, all interleavings of at most n calls give positive ids if and only if the previous id plus n is within MaxInt64 |
| `IdGenerator.SequentialIdsCycle` | internal/database/storage/engine/in_memory/id_generator.go:16-28 | Callers that do not overlap cycle through 1..MaxInt64, across wraps |
| `IdGenerator.IDGenerator.Generate` | internal/database/storage/engine/in_memory/id_generator.go:25-28 | Swap, then add, then the counter as id |
| `Semaphore.NoLostWakeups` | internal/concurrency/semaphore.go:33-52 | In every interleaving the count is the number of holders and within the limit, and a sleeper beside a free slot comes with a woken thread |
| `Semaphore.WhoCanStep` | internal/concurrency/semaphore.go:33-52 | Whoever is outside or woken can try, whoever holds a slot can release it and wake any sleeper, a sleeper waits |
| `Semaphore.QuietMeansNobodyAsleep` | internal/concurrency/semaphore.go:33-52 | Once nobody holds a slot or is being woken, nobody sleeps |
| `Semaphore.SemaphoreObject.TryAcquire` | internal/concurrency/semaphore.go:33-42 | One pass of Acquire's loop, on the first try and after every wake-up, is the machine's Enter: admitted exactly when a slot is free, asleep otherwise |
| `Semaphore.SemaphoreObject.ReleaseSlot` | internal/concurrency/semaphore.go:46-52 | Release with its Signal is the machine's Release: one slot less, one sleeper woken |
| `Parser.ParseAndValidate` | internal/database/compute/compute.go:40-68 | The verdict depends on the whitespace-separated words alone; the empty-command error exactly on all whitespace |
| `Parser.VerdictIff` | internal/database/compute/compute.go:45-67 | Rune by rune, which words are accepted, with which tokens, and which of the three errors is returned otherwise |
| `Parser.SpaceIff` | internal/database/compute/compute.go:43-43 | What separates words, code point by code point |
| `Parser.ParseRoundTrip` | internal/database/compute/compute.go:35-68 | Accepted tokens, joined by any whitespace and surrounded by any, parse to themselves |
| `Parser.AcceptedTokens` | internal/database/compute/compute.go:35-39 | Accepted tokens are non-empty, whitespace-free and valid, the first upper-case |
| `Parser.FieldsOfJoin` | internal/database/compute/compute.go:43-43 | Splitting undoes joining |
| `Parser.EveryStringIsJoined` | internal/database/compute/compute.go:43-43 | Every input is its fields joined by some whitespace |
| `Parser.AcceptedCommandIff` | internal/database/compute/validation.go:32-42 | A command name is accepted if and only if its runes are ASCII letters, dotless i or long s |

## Left out

- TCP server and client, CLI, configuration, loggers, wiring and mocks: no property beyond reading one branch; the semaphore model assumes that Acquire and Release are paired, as the server does.
- Recovery.Decode: the gob byte format is not modelled; a file is its streams, one non-empty stream decodes, two do not, and a flush has a size.
- Segments.Write: a failed write leaves nothing or the whole data; torn writes and fsync semantics are not modelled.
- WalObjects.Wal.FlushBatch: batches are sequences, so flagging and sorting in place give new sequences.
- WalObjects.Wal.Recover: the directory has no order of its own, so listing it reorders the model's file sequence.
- WalRestarts.LegalLives: directory and mask are the same for all processes, and the directory holds nothing but segment files.
- WalRefinement.Flush: the receive from the channel and the producer's wait on its promise have no object of their own; the machine's steps Take and Get stand for them.
- WalMachine.Do: the send and the close inside Promise.Set are one step, which its single reader cannot tell apart; the batch volume and sizes do not overflow int64.
- WalObjects.HashTable.Get: the read-write mutex is not modelled; each table operation is atomic.
- Semaphore.SemaphoreObject.TryAcquire: blocking inside Wait is the thread being asleep; the loop is the machine's repeated Enter.
- Semaphore.NoLostWakeups: Signal may wake any sleeper, where the runtime wakes the longest waiting one.
- SegmentNames.GetFileList: the path is directory, slash, name, without the cleaning of filepath.Join; timestamps are not negative.
- Records.SortingPreservesMeaning: one way only, since two different last records may leave the same value.
- Storage facade and database responses: thin delegation.
