# A verified model of rqlite's own state machines

rqlite puts SQLite behind HashiCorp Raft. This project models, in Dafny, the
layers that rqlite adds between the two, and proves what they are for. SQLite,
Raft, gzip and protobuf appear as abstract state or as primitive steps; nothing
of the model is executed.

| module | part of rqlite |
|---|---|
| `Bytes`, `WalFormat`, `WalTheory` | the SQLite WAL as bytes: header, frames, running checksum, checkpointing, compaction (sections 4.1 to 4.3 of the SQLite Database File Format) |
| `WalReader`, `WalScanner`, `WalWriter` | `db/wal` as it works: reader, scanners, writer, with their buffers and running checksums |
| `SnapshotDir`, `SnapshotStore`, `SnapshotSink`, `SnapshotRuns` | the snapshot directory, one filesystem call at a time, with a crash after any call |
| `SnapshotChain`, `SnapshotFsm` | full and incremental snapshots of a running node |
| `LinearRead`, `LinearProof`, `LinearLag` | linearizable reads in a cluster (section 6.4 of Ongaro's dissertation, with the term of the last strong read) |
| `Recovery` | manual recovery of a node |
| `Chunking` | chunked loading of a database |
| `Queue` | the batching queue and its consumer |
| `ReadyTarget`, `Handles` | waiting for an index; the snapshot store's lock and its handles |
| `Crc32`, `JulianDay` | the table-driven CRC-32 of the benchmark client; the Julian day of the SQL rewriter |

## Main results

* **Crash safety.** `SnapshotRuns.Live` lives through any list of operations with a
  crash after any filesystem call, including calls of earlier repairs, and tells what
  became of each: the directories it went through, one call apart, and where it left the
  store. An operation that finds the store up and is not cut off does exactly what it is
  for; one that is cut off leaves the old snapshot or, from one call on, the new one;
  every repair succeeds and changes no snapshot; the newest snapshot never goes backwards.
* **Linearizability.** `LinearProof.ReadsAreLinearizable`: in every run of a cluster, a
  read that returns rows sees every write acknowledged before it began, at least as
  much as any read that had returned before it began, and nothing uncommitted.
* **Incremental snapshots.** `SnapshotChain.ChainInvariant` and `SnapshotsAreFaithful`:
  the next snapshot is forced to be full, or stored snapshot, snapshot in flight and
  live WAL together are the live database; a snapshot that lands holds the database
  as it was when it was taken. `SnapshotFsm.LiveOn` drives the node's callbacks over a
  real snapshot directory, with a crash after any filesystem call. Every event that can
  happen does happen, exactly once, unless the node dies of it or is down; the events
  together are a history of the chain; the stored snapshot of the chain is what the
  directory stands for; and a node that is up is in the state to which its history leads.
* **WAL compaction.** `WalTheory.CompactedFile`, `WalTheory.WriteThenRead`,
  `WalTheory.ReadThenWrite` and the method `WalWriter.CompactBothWays`: compaction
  preserves meaning over every database, is idempotent, both outputs are the same
  bytes, reading undoes writing and writing undoes reading.
* **Recovery, queue, chunks, waiting, locks.** `Recovery.RecoveryPreservesIff`,
  `Queue.ReportedMeansExecuted`, `Queue.NoStall`, `Chunking.Reassembly`,
  `ReadyTarget.ClosedIffReached`, `Handles.LockAgreesWithHandles`.
* **Arithmetic.** `Crc32.Crc32OfStream` computes the bit-by-bit CRC;
  `JulianDay.JulianMeasuresTime` shows the Julian day to be elapsed time.

## Where the code falls short of the promise

Each of these is a lemma about the code as it is, with the exact condition under
which the promise holds.

* A fast scan of a WAL that ends right after the header of its last frame makes the
  writer report success without the committing frame, while `Bytes` reports the
  damage: `WalWriter.FastScanOutputs`, `WalWriter.LostCommitExists`.
* A chunked load sets no FULL_NEEDED flag, and a snapshot attempt that fails records
  the file's modification time all the same. Together they let the next snapshot be
  incremental over the wrong base: `SnapshotChain.ChunkedLoadLost`. So does an attempt
  whose checkpoint copies all of the WAL but finds it busy, because the next writer then
  starts the WAL afresh: `SnapshotChain.BusyCheckpointLost`. `SnapshotChain.FailureExact`
  says when a failing attempt does no harm.
* Recovery replays the log without enforcing foreign keys, whatever the node's setting:
  `Recovery.ForeignKeysNotEnforced`. A recovery that stops halfway leaves the WAL of its
  scratch database, and the next attempt applies the same log entries on top of it;
  without any snapshot a left-over scratch database is used as it is:
  `Recovery.RetryAppliesTwice`. `Recovery.RecoveryPreservesIff` has the exact condition.
* Chunked loads in progress do not survive recovery: `Recovery.OpenLoadsAreLost`, and
  `Recovery.LoadsContinueIff` for when that does not matter.
* Metadata cut off in the middle of a rewrite blocks every later repair:
  `SnapshotStore.Store.CheckAgain`.
* Subscribers outstanding at a Reset are never notified: `ReadyTarget.ResetForgets`.
* The Julian day is one too great in the century years before year 0 that are not
  multiples of 400, because integer division truncates: `JulianDay.JulianMeasuresTime`,
  `JulianDay.SkewedExample`.

## Hypotheses

* Renames, removal of a directory and the rewrite of a metadata file are single steps;
  writes reach the disk in program order. A metadata file torn by an interrupted
  rewrite is part of the directory's state space, but no step produces one.
* Snapshot IDs are fresh and no ID is a prefix of another. Databases in the store are in
  WAL mode. An interrupted checkpoint leaves some of the committed pages written, and
  any file size.
* WAL page sizes are multiples of eight wherever a checksum is computed.
* One snapshot is in flight at a time; the modification time of the database file
  advances with every change; transactions reach the WAL whole; closing a sink after
  the snapshot was persisted succeeds or the node stops. A snapshot attempt fails only
  where that does no harm (`SnapshotChain.FailureHarmless`); without this the results on
  incremental snapshots fail, as `SnapshotChain.FailureExact` shows.
* SQLite starts a WAL afresh only when all of it has been copied into the database file.
* Raft elects at most one leader a term, by a quorum that has reached the term; a leader
  commits entries of its own term that a quorum stored; committed logs never part; log
  entries with one index and term are equal. Membership is fixed.
* Closing a database without a checkpoint leaves its WAL beside it, and opening a
  database file shows the pages of a WAL that lies beside it.

## Model

| member | source | states |
|---|---|---|
| `WalFormat.ChecksumKeepsState` | db/wal/reader.go:178-187 | the running checksum is injective in its starting value: two chains that differ never meet again over the same bytes |
| `WalFormat.ChecksumDetectsUnit` | db/wal/reader.go:178-187 | damage confined to one aligned 8-byte unit always changes the checksum |
| `WalFormat.HeaderAcceptedIff` | db/wal/reader.go:80-120 | a file is accepted exactly when it starts with the encoding of a header with known magic, supported version and right checksum |
| `WalFormat.FastRefinesFull` | db/wal/compacting_scanner.go:169-219 | scanning with and without checksums gives the same frames and offsets if and only if every salt-matching frame is whole and valid, whatever stale frames follow |
| `WalTheory.WriteThenRead` | db/wal/writer.go:82-159 | what is written for a sound header and page-sized frames is accepted with full verification and yields exactly those frames, then ends |
| `WalTheory.ReadThenWrite` | db/wal/full_scanner.go:14-57 | writing back what a full scan reads reproduces the longest valid prefix of the file byte for byte |
| `WalTheory.CompactionPreservesMeaning` | db/wal/compacting_scanner.go:169-219 | for every base database, checkpointing the last frame of each page gives the same pages and size as checkpointing all frames |
| `WalTheory.CompactedFile` | db/wal/compacting_scanner.go:121-167 | a compacted file is a valid WAL with the same header, checkpoints like the original over every database, and compacting it again changes no byte |
| `WalReader.WALChecksum` | db/wal/reader.go:178-187 | the loop computes the recursive checksum of section 4.2 in either byte order |
| `WalReader.Reader.ReadHeader` | db/wal/reader.go:80-120 | reports exactly the error of the format, and on success positions the reader before the first frame with the header's checksum |
| `WalReader.Reader.ReadFrame` | db/wal/reader.go:126-175 | accepts exactly the frames whose salts match and, with a buffer, whose page is whole and continues the checksum chain; refuses a buffer of the wrong size; leaves page and chain as the format says |
| `WalReader.FullScanner.Next` | db/wal/full_scanner.go:43-57 | hands out the remaining valid frames one by one, then ends |
| `WalReader.NewFullScanner` | db/wal/full_scanner.go:14-36 | fails exactly as the header fails, and otherwise has all valid frames of the file to hand out |
| `WalScanner.Scan` | db/wal/compacting_scanner.go:169-219 | fails with an open transaction if and only if the last accepted frame does not commit; otherwise returns the last frame of each page |
| `WalScanner.Index` | db/wal/compacting_scanner.go:176-209 | the loop ends with the last frame of every page indexed, or still inside a transaction exactly if the last accepted frame does not commit |
| `WalScanner.LatestIsFurthest` | db/wal/compacting_scanner.go:169-219 | the scan keeps exactly the frames with the greatest offset of their page, strictly sorted by offset, ending with the last frame of the WAL |
| `WalScanner.SortIndex` | db/wal/compacting_scanner.go:211-219 | collecting the page index in any order and sorting it by offset gives exactly that list |
| `WalScanner.CompactingScanner.Next` | db/wal/compacting_scanner.go:97-117 | hands out the indexed frames with their pages; a page cut short is an error, or the end of the WAL if nothing of it is there |
| `WalScanner.CompactingScanner.Bytes` | db/wal/compacting_scanner.go:121-167 | the buffer filled in place is the encoding of the loaded frames; fails exactly for an unknown magic or a page cut short |
| `WalScanner.NewCompactingScanner` | db/wal/compacting_scanner.go:58-89 | fails exactly for a bad header or an open transaction, and otherwise indexes the last frame of each page |
| `WalScanner.StreamComplete` | db/wal/compacting_scanner.go:97-117 | every indexed frame is handed out if and only if no page is cut short |
| `WalWriter.NewWriter` | db/wal/writer.go:59-79 | refuses an unknown magic; otherwise takes the header's byte order |
| `WalWriter.Writer.WriteWALHeader` | db/wal/writer.go:107-131 | writes the encoded header and restarts the checksum chain from it |
| `WalWriter.Writer.WriteFrame` | db/wal/writer.go:133-159 | writes the encoded frame and carries the chain on |
| `WalWriter.Writer.WriteTo` | db/wal/writer.go:82-105 | writes the WAL of everything the iterator yields, returns the number of bytes written, and fails exactly if the iterator does |
| `WalWriter.CopyWal` | db/wal/writer.go:82-105 | a full scanner piped into a writer reproduces the valid prefix of any file with an accepted header |
| `WalWriter.CompactBothWays` | db/wal/compacting_scanner.go:121-167 | if `Bytes` succeeds the writer produces the same bytes and their number; after a full scan, or a fast scan of a sound file, both are the compacted file |
| `WalWriter.SoundScanCompacts` | db/wal/compacting_scanner.go:58-89 | a checked scan, or an unchecked scan of a sound file, indexes and loads exactly what compaction keeps |
| `WalWriter.FastScanOutputs` | db/wal/compacting_scanner.go:97-117 | after a fast scan only the last page can be missing; the writer hides it exactly when the file ends right after that frame's header |
| `WalWriter.LostCommitExists` | db/wal/compacting_scanner.go:97-117 | such files exist for every header: the writer then drops the committing frame and reports success |
| `SnapshotDir.PartialRedo` | db/state.go:313-328 | a checkpoint interrupted with any pages written and any file size can be redone to the same database |
| `SnapshotDir.ReplayTwice` | db/state.go:313-328 | replaying a WAL into a database twice is replaying it once |
| `SnapshotDir.ListEnds` | snapshot/store.go:563-571 | in a list sorted by term, index and ID the last two entries are the newest snapshot and its predecessor |
| `SnapshotStore.Store.GetSnapshots` | snapshot/state.go:60-93 | lists all snapshots in order, or fails exactly when some metadata cannot be read |
| `SnapshotStore.Store.RemoveAllTmpSnapshotData` | snapshot/state.go:17-46 | removes all temporary snapshots and their files and nothing else; the directory stands for the same snapshot after every single call |
| `SnapshotStore.Store.CheckpointRemove` | db/state.go:313-328 | replays the WAL into the database file and removes it; after every interruption the directory stands for the same snapshot |
| `SnapshotStore.Store.Check` | snapshot/store.go:332-393 | succeeds if and only if all metadata is readable and the newest snapshot or its predecessor has a database file; from every state a crash can leave it does succeed, nothing is left to repair and the snapshot is the same, also if the repair itself is cut off anywhere; a failed repair leaves every snapshot in place and would fail again; where nothing is left to repair, nothing changes |
| `SnapshotStore.Store.CheckAgain` | snapshot/state.go:81-85 | with one piece of metadata cut off no number of repairs succeeds, and no snapshot is removed |
| `SnapshotStore.Store.Adopt` | snapshot/store.go:369-390 | gives the newest snapshot its predecessor's database file and replays the WAL into it, standing for the same snapshot after every call |
| `SnapshotStore.Store.Reap` | snapshot/store.go:291-322 | leaves exactly the newest snapshot; after every single call the directory stands for it |
| `SnapshotStore.Store.RemoveAllPrefix` | snapshot/store.go:497-508 | removes one snapshot's directory and files without touching what the newest stands for |
| `SnapshotSink.Sink.Open` | snapshot/sink.go:36-56 | adds one temporary directory with an empty data file, once; the store's snapshot is unchanged after every call |
| `SnapshotSink.Sink.Write` | snapshot/sink.go:60-62 | changes only the temporary data |
| `SnapshotSink.Sink.Cancel` | snapshot/sink.go:71-81 | restores the store to what it was before the sink was opened |
| `SnapshotSink.Sink.Close` | snapshot/sink.go:87-125 | succeeds exactly for acceptable data; one call is the commit point, before which the directory stands for the old snapshot and from which it stands for the data, the old database with the WAL replayed, or the old database; a refused snapshot leaves the store as it was |
| `SnapshotSink.CommitPoint` | snapshot/sink.go:202-206 | the rename of the temporary directory alone turns the old snapshot into the new one |
| `SnapshotSink.Sink.Place` | snapshot/sink.go:127-200 | accepts exactly a later ID with usable data (a database for the first snapshot) and moves the data beside the temporary directory |
| `SnapshotSink.Sink.Receive` | snapshot/sink.go:170-183 | the file that the data names, if there is one, becomes the data, and is gone from where it was |
| `SnapshotSink.Sink.Commit` | snapshot/sink.go:87-237 | from the rename on, every call leaves the new snapshot; at the end it is the only one, unflagged |
| `SnapshotSink.Sink.Promote` | snapshot/sink.go:211-237 | hands the previous database to the new snapshot and replays the WAL into it, standing for the new snapshot throughout |
| `SnapshotStore.Store.Do` | snapshot/sink.go:127-237 | each filesystem call is recorded with the directory it leaves: the trace leads, one call at a time, to the directory as it is, and no method changes the directory otherwise |
| `SnapshotRuns.PerformTake` | snapshot/sink.go:36-125 | opening, writing and closing a sink under an unused ID with acceptable data ends with exactly the new snapshot, the only one and unflagged; refused data leaves the directory as it was; up to one call every directory on the way stands for the old snapshot, from then on for the new one |
| `SnapshotRuns.Perform` | snapshot/store.go:172-322 | what each operation makes of a clean store, exactly: the new snapshot, nothing, only the newest snapshot, or the flag; every directory on the way stands for the old snapshot or the outcome |
| `SnapshotRuns.Experience` | snapshot/store.go:143-166 | an event on a store that is up is its operation, on one that is down a repair; it runs to its end, or to the call after which the node dies |
| `SnapshotRuns.NeverGoesBack` | snapshot/store.go:332-393 | however operations, crashes and repairs follow each other, no later snapshot is older than an earlier one |
| `SnapshotRuns.Live` | snapshot/store.go:143-166 | over any list of operations and crashes, one chapter per event says what it did to the directory, call by call, each beginning where the one before ended; every repair succeeds, each event keeps the snapshot or advances to the one being finalized, and the newest snapshot never goes backwards |
| `SnapshotChain.StepKeeps` | store/store.go:2043-2213 | every command, load, rewound WAL, snapshot, failure, landing, install and restart keeps the chain invariant |
| `SnapshotChain.ChainInvariant` | store/store.go:2104-2212 | in every reachable state the next snapshot is forced full, or stored snapshot, snapshot in flight and live WAL are the live database |
| `SnapshotChain.SnapshotsAreFaithful` | store/fsm.go:49-82 | a snapshot that lands is the live database at the point of the run at which the snapshot was taken, whatever was applied, loaded or failed before and since |
| `SnapshotChain.LoadSurvivesLanding` | store/store.go:2023-2034 | whatever commands, failures and landings follow a load, the next snapshot is forced full and takes the whole live database, also if the load's flag was cleared by an older snapshot landing |
| `SnapshotChain.BootIsStored` | store/store.go:1554-1615 | a database loaded past Raft, with the writes on top of it, is what the next snapshot stores |
| `SnapshotChain.FailureExact` | store/store.go:2054-2065 | after a failing attempt all later snapshots are right if and only if a full snapshot is flagged, or the file was not modified and the attempt did not copy a busy WAL to its end |
| `SnapshotChain.FaultKeepsLive` | store/store.go:2104-2212 | a failing attempt never changes the live database |
| `SnapshotChain.ChunkedLoadLost` | store/store.go:2023-2034 | a chunked load followed by one failing attempt makes the next snapshot store the database from before the load |
| `SnapshotChain.BusyCheckpointLost` | db/db.go:656-666 | a checkpoint that copies a WAL to its end and then reports it busy makes some later snapshot wrong |
| `SnapshotFsm.FinalizesAsExpected` | snapshot/sink.go:87-125 | what is persisted is acceptable to the snapshot store and finalizes as exactly the database the chain expects |
| `SnapshotFsm.FsmStore.FsmApply` | store/store.go:1999-2036 | applies a command to database and directory as the chain's step does, flagging whole loads only; the directory can be repaired to the same snapshot after every call |
| `SnapshotFsm.FsmStore.ReadFrom` | store/store.go:1554-1615 | swaps a database in and flags it exactly on a leader that is alone, for a valid database, after a log entry was written; after every call the directory stands for the same snapshot |
| `SnapshotFsm.FsmStore.SetFullNeeded` | snapshot/store.go:256-262 | flags the directory, also while a sink is open, without touching what it stands for |
| `SnapshotFsm.FsmStore.StoreNeedsFull` | snapshot/store.go:243-252 | true exactly if the directory is flagged or holds no snapshot |
| `SnapshotFsm.FsmStore.DbModified` | store/store.go:2540-2543 | true exactly if the file is newer than recorded |
| `SnapshotFsm.FsmStore.FsmSnapshot` | store/store.go:2043-2213 | reading the directory's flag and snapshots, takes a full snapshot, a compacted WAL or nothing as the chain's step does, recording the modification time also on failure |
| `SnapshotFsm.FsmStore.Persist` | store/fsm.go:49-74 | opens a sink in the directory and leaves the snapshot in it; the directory stands for the old snapshot after every call |
| `SnapshotFsm.FsmStore.PersistFails` | store/fsm.go:49-82 | a sink that could not be filled is cancelled and the directory flagged, standing for the old snapshot throughout |
| `SnapshotFsm.FsmStore.Release` | store/fsm.go:77-82 | forces a full snapshot unless persisting succeeded |
| `SnapshotFsm.FsmStore.SinkClose` | snapshot/sink.go:87-125 | closing the sink makes the directory stand for exactly what the chain says will land; a crash at any call leaves that or the old snapshot |
| `SnapshotFsm.FsmStore.Install` | store/store.go:2218-2273 | a snapshot from the leader is finalized in the directory and replaces the database; a crash at any call leaves it or the old snapshot |
| `SnapshotFsm.FsmStore.FsmRestore` | store/store.go:2218-2273 | the database becomes the stored snapshot, and its modification time is recorded |
| `SnapshotFsm.FsmStore.PossibleIff` | store/store.go:2043-2065 | what the node finds possible from its own fields and directory is what the chain's state allows, given an unused ID and no open sink |
| `SnapshotFsm.FsmStore.Handle` | store/store.go:1999-2273 | an event happens exactly if it can, and is then the chain's step on database and directory together; otherwise nothing changes; a crash at any call leaves the old snapshot or the one being stored |
| `SnapshotFsm.Happen` | store/store.go:1999-2273 | one event on a running node, call by call: exactly that event if it can happen, and if the node dies of it the event counts as far as the directory shows it |
| `SnapshotFsm.ComeUp` | snapshot/store.go:143-166 | a node that is down repairs its store and starts on the snapshot it finds; it comes up unless it dies of the repair, and then the snapshot is still there |
| `SnapshotFsm.LiveOn` | snapshot/store.go:143-166 | over any list of events with a crash after any filesystem call, repairs included, one chapter per event says what it did; all events together are a history of the chain whose invariant holds; the directory stands for the chain's stored snapshot; and the node, which is up unless it died last, is in the state to which the history leads |
| `LinearProof.ReadsAreLinearizable` | store/store.go:1176-1287 | in every run a linearizable or strong read returns a committed prefix containing every write acknowledged, and everything any read returned, before it began |
| `LinearProof.StrongTermMeansCommitted` | store/store.go:1209-1214 | in every run a node whose strong-read term equals its current term has committed an entry as leader of that term, although the term is sampled before the entry is proposed |
| `LinearProof.VerifiedCovers` | store/store.go:1290-1311 | a leader confirmed by a quorum in the term in which it has committed holds a commit index covering everything committed when the query began |
| `LinearProof.StepKeeps` | store/store.go:1209-1287 | every step of Raft and of a query, and every restart, keeps the invariant of the cluster |
| `LinearProof.CompleteKeeps` | store/store.go:1266-1275 | a strong read that completes sees everything and leaves a term that may be trusted |
| `LinearLag.NewLeaderLags` | store/store.go:1197-1214 | why the term is needed: a confirmed leader of a new term can have a commit index below an acknowledged write |
| `Recovery.Node.ReplayLog` | store/state.go:195-205 | replays the entries after the snapshot in order, counting commands and other entries alike, and stops exactly at a missing entry |
| `Recovery.Node.RecoverNode` | store/state.go:117-243 | succeeds exactly if configuration, log, snapshot and deletion of the log allow it; once the snapshot is written, from a clean scratch database, the node stands for the same database, last index and last term if it does not enforce foreign keys or nothing was executed, whether or not the log could be deleted; before that snapshots and log are untouched |
| `Recovery.Node.Rebuild` | store/state.go:169-214 | computes the new snapshot by replay and checkpoint; stopping at a missing entry it leaves the WAL of what was replayed |
| `Recovery.RecoveryPreservesIff` | store/state.go:129-243 | whatever SQLite does, recovery preserves what the node stands for if and only if nothing of an earlier attempt shows through the scratch database and either foreign keys are not enforced or no statements were executed after the snapshot |
| `Recovery.ForeignKeysNotEnforced` | store/state.go:169-172 | a statement that cascades on the node does not in its recovery |
| `Recovery.ReplayAgrees` | store/state.go:195-205 | how a database is split between file and WAL does not matter to replay, nor does an inert chunked load, nor the foreign-key setting while nothing is executed |
| `Recovery.RetryAppliesTwice` | store/state.go:128-130 | after an attempt that stopped halfway, the next attempt applies the same entry twice |
| `Recovery.OpenLoadsAreLost` | store/command_processor.go:97-140 | for every chunked load that has received something one further entry makes live and recovered node differ, for some SQLite |
| `Recovery.LoadsContinueIff` | store/command_processor.go:45-146 | the recovered node continues as the live one, whatever SQLite does and for every further log, if and only if no chunked load in progress has received anything |
| `Recovery.InertContinues` | store/command_processor.go:97-140 | with only such loads in progress every further log leads both nodes to the same database |
| `Chunking.Chunker.Next` | command/chunking/chunker.go:70-141 | the next chunk carries the bytes read for it, is numbered one higher, and is the last exactly if the source is used up short of a full chunk; a failing reader fails the call and leaves the numbering, an error reported along with data being overlooked; a reader that does not fail never fails the call |
| `Chunking.ChunkAll` | command/chunking/chunker.go:70-141 | however little the reader returns at a time, the chunks are numbered from one, only the last is marked, and together they are the input; a reader that does not fail always gets to the end, and if it fails they are the beginning of such a stream |
| `Chunking.Dechunker.WriteChunk` | command/chunking/dechunker.go:37-63 | refuses a chunk of another stream, out of order or undecodable, taking note of stream and number first and keeping what could be decoded; appends the data of all others |
| `Chunking.DechunkerManager.Get` | command/chunking/dechunker.go:97-114 | the reassembly of the stream, begun if need be, leaving all others alone |
| `Chunking.DechunkerManager.Delete` | command/chunking/dechunker.go:116-125 | forgets one stream and no other |
| `Chunking.DechunkerManager.Receive` | store/command_processor.go:97-140 | a chunk completes, continues, fails or aborts its own stream only |
| `Chunking.StreamsAreIsolated` | command/chunking/dechunker.go:97-125 | what becomes of a stream depends on its own chunks only, whatever arrives in between |
| `Chunking.Reassembly` | command/chunking/dechunker.go:37-63 | a chunked input, interleaved with any other chunks, is rebuilt exactly once and leaves nothing behind |
| `Chunking.AbortedStreams` | store/command_processor.go:107-113 | a stream that ends in an abort leaves nothing behind |
| `Queue.MergeQueued` | queue/queue.go:58-77 | the request carries all objects and flush channels in order and the largest sequence number |
| `Queue.BatchQueue.Write` | queue/queue.go:130-151 | refuses after Close; otherwise numbers the write one higher and offers it to the event loop |
| `Queue.BatchQueue.OnBatch` | queue/queue.go:205-214 | takes the oldest write, starts the timer for the first, sends a full batch |
| `Queue.BatchQueue.OnTimer` | queue/queue.go:215-218 | sends what is pending when the timer fires |
| `Queue.BatchQueue.OnFlush` | queue/queue.go:219-222 | sends what is pending when a flush is asked for |
| `Queue.BatchQueue.Close` | queue/queue.go:160-168 | marks the queue closed, once |
| `Queue.BatchQueue.OnDone` | queue/queue.go:224-226 | the event loop stops its timer and ends, leaving what is pending |
| `Queue.Service.HandleRequest` | http/service.go:1613-1668 | retries until success, and only then reports the request's number and closes its channels; a request without statements is not executed |
| `Queue.Service.Consume` | http/service.go:1604-1670 | taking a request and dealing with it is a run of the consumer's steps and keeps the queue's invariant |
| `Queue.QueueConserves` | queue/queue.go:184-229 | in every run delivered, in flight, pending and buffered objects are all written objects in order, sequence numbers strictly increase, and until the queue is closed pending writes have a live timer |
| `Queue.ReportedMeansExecuted` | http/service.go:1604-1670 | once a number is reported every write up to it has been executed at least once, and executions never went back to an earlier request |
| `Queue.FlushedOnce` | queue/queue.go:46-50 | flush channels are closed in write order, exactly those of the requests dealt with, none twice |
| `Queue.RequestNumber` | queue/queue.go:66-76 | in a request of consecutive writes the number is that of the last write |
| `Queue.NoStall` | queue/queue.go:184-229 | every run of the threads by themselves makes only a bounded number of steps besides failing tries, and where nothing else is left everything written has been delivered and reported |
| `Queue.EveryStepWorks` | queue/queue.go:184-229 | every step of event loop and consumer but a failing try reduces the work left |
| `ReadyTarget.Target.Subscribe` | rsync/ready_target.go:35-49 | a new channel, closed at once if its target is reached and subscribed otherwise |
| `ReadyTarget.Target.Unsubscribe` | rsync/ready_target.go:52-61 | removes the one subscriber with that channel, if any |
| `ReadyTarget.Target.Signal` | rsync/ready_target.go:66-82 | closes exactly the channels whose target is reached, none of them twice, and keeps the other subscribers in order |
| `ReadyTarget.Target.Reset` | rsync/ready_target.go:86-92 | forgets target and subscribers without closing anything |
| `ReadyTarget.ClosedIffReached` | rsync/ready_target.go:35-92 | in every run no channel is closed twice, and a channel neither removed nor reset away is closed if and only if some signalled index reached its target |
| `ReadyTarget.DroppedStaysOpen` | rsync/ready_target.go:86-92 | a channel removed by Unsubscribe or Reset is never closed afterwards |
| `ReadyTarget.ResetForgets` | rsync/ready_target.go:86-92 | in every run a subscriber outstanding at a Reset stays waiting whatever is called afterwards |
| `ReadyTarget.ClosedBeforeReset` | rsync/ready_target.go:35-92 | a channel handed out before a Reset is closed, however long afterwards, if and only if an index signalled in its own time reached its target |
| `ReadyTarget.NoneLost` | rsync/ready_target.go:35-82 | without Unsubscribe and Reset no channel is ever removed |
| `Handles.MultiRSW.BeginRead` | rsync/multir_singlew.go:27-35 | admits a reader exactly if no writer is active |
| `Handles.MultiRSW.EndRead` | rsync/multir_singlew.go:38-45 | one reader less |
| `Handles.MultiRSW.BeginWrite` | rsync/multir_singlew.go:48-56 | admits a writer exactly if there is no writer and no reader |
| `Handles.MultiRSW.EndWrite` | rsync/multir_singlew.go:59-66 | no writer any more |
| `Handles.MultiRSW.UpgradeToWriter` | rsync/multir_singlew.go:71-83 | the only reader becomes the writer; refused with other readers or a writer |
| `Handles.LockingSink.Close` | snapshot/store.go:78-99 | gives the lock back once, however often it is closed or cancelled |
| `Handles.LockingSnapshot.Close` | snapshot/store.go:119-128 | gives the lock back once, however often it is closed |
| `Handles.LockAgreesWithHandles` | snapshot/store.go:172-240 | over all interleavings of creating, opening, failing and closing, the lock never panics, has a writer exactly while one sink holds it and as many readers as snapshots hold it, never both |
| `Handles.CloseGivesBack` | snapshot/store.go:78-99 | closing a sink frees the store for the next one, and closing it again changes nothing |
| `Crc32.CreateTable` | cs/rqbench/CRC32Util.cs:8-24 | entry i is i after eight shift steps |
| `Crc32.Crc32OfStream` | cs/rqbench/CRC32Util.cs:32-41 | the table-driven loop computes the bit-by-bit reflected CRC of every byte stream |
| `Crc32.EightShifts` | cs/rqbench/CRC32Util.cs:14-20 | eight shift steps are one look at the table and a shift by a byte |
| `Crc32.OneByte` | cs/rqbench/CRC32Util.cs:36-39 | the loop's step is the definition's step over the eight bits of a byte |
| `Crc32.DetectsOneByte` | cs/rqbench/CRC32Util.cs:32-41 | a change of any single byte changes the checksum |
| `JulianDay.DaysAgree` | command/sql/processor.go:237-254 | the whole-day part counts calendar days year by year and month by month, off by one exactly in the skewed years |
| `JulianDay.JulianMeasuresTime` | command/sql/processor.go:227-257 | the Julian day is 1721425.5 plus the time elapsed since year 1, if and only if the date is not in a skewed year |
| `JulianDay.OneDayLater` | command/sql/processor.go:227-257 | the next calendar day is exactly one greater from year 1 on, and before that unless a skewed year begins or ends |
| `JulianDay.StrictlyIncreasing` | command/sql/processor.go:227-257 | outside the skewed years the Julian day orders moments exactly as time does |
| `JulianDay.SkewedExample` | command/sql/processor.go:243-244 | from 28 February to 1 March of year -100 the formula advances by two |

## Left out

- HashiCorp Raft, SQLite, gzip, protobuf and JSON: abstract state and primitive steps only.
- SQL execution, the SQL rewriter, HTTP handlers other than the queue's consumer, clustering, networking, TLS, discovery, backup, CDC, authentication, command line: plumbing, or behaviour of libraries that are not part of this model.
- fsync ordering and torn file contents, beyond an interrupted checkpoint: see the hypotheses.
- The size recorded in a snapshot's metadata: repairs do not always refresh it, so nothing is stated about it.
- Reads of level NONE, WEAK and AUTO: they promise nothing across nodes.
- Automatic VACUUM and OPTIMIZE inside a snapshot: they write transactions, which are events of their own.
- Queue.BatchQueue.Write: the int64 sequence number does not wrap.
- LinearProof.ReadsAreLinearizable: `Store.Query` is modelled as steps of a machine and not as a method, because each of its reads of Raft's state interleaves with Raft; refusals and timeouts are one step that may happen at any time.
- Chunking.Chunker.Next: a chunk's data is a value, so a chunk that is used after the next call and then sees a recycled buffer is not modelled.
- Recovery.Node.RecoverNode: the checks of the new configuration, the write of the new snapshot and the deletion of the log are each a yes or no of the environment; failures of SQLite while replaying are not modelled.
- SnapshotStore.Store.Check: a failing filesystem call is not modelled apart from a crash before it, which leaves the same directory; an ID never has both a temporary and a final directory, since the one is renamed to the other.
- JulianDay.JulianMeasuresTime: exact arithmetic; rounding of floating-point numbers is not modelled.
- Crc32.Crc32OfStream: the stream is given whole, and reading errors are not modelled.
