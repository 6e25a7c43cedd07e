# Verification of the event streamer core

The TimescaleDB event streamer reads a logical replication stream, orders it by transaction, holds events back
while chunks are snapshotted, hands them to sinks, and stores its position and the progress of its snapshots so
that it can resume. This project models that core in Dafny and proves what it promises over whole runs.

`dafny verify dfyconfig.toml` checks everything.

## Reading guide

| files | what they model |
|---|---|
| `Wal`, `Queue`, `TransactionTracker` | the messages of the stream, the bounded queue, and the transaction tracker as a step function and as an object whose methods are that function |
| `TransactionWindow`, `TransactionConservation`, `TransactionOrder`, `TransactionIsolation`, `TransactionNotes`, `TransactionSurvival`, `TransactionOutcome`, `WindowBound`, `DecompressionMarkers` | what the tracker keeps over every stream: conservation, order, isolation, what counts as a compression or decompression and what becomes of it, which message ends the tracker, the bound of the window, and the marker mode as a filter |
| `ChunkHold` | rows held back while their chunk is snapshotted |
| `Dispatch`, `Pipeline`, `Records` | reader, snapshot workers, channel and dispatcher as interleaved steps; tracker and resolver running on them; which records and finished transactions come out |
| `CasCache`, `CasProgress` | the copy-on-write cache as interleaved atomic steps, refined to an atomic map; lock-freedom |
| `RelationCache` | the array indexed by OID that grows at both ends |
| `KeysetTable`, `KeysetSnapshot`, `SnapshotScheduler` | the tables and their batches, the resumable snapshot of one table, and the order in which tables are snapshotted |
| `Position` | acknowledged, stored and restart positions over any number of processes |
| `Bytes`, `Buffers`, `Marshallers`, `MapCodec`, `Watermarks`, `SnapshotContext`, `Offsets`, `FileStateStorage`, `SinkContext` | the binary state formats, for every iteration order of the maps |
| `TablePattern`, `TableFilter`, `ColumnDiff` | table name patterns, include and exclude filters with their memo, and the column difference |

Runs are sequences of events or scheduler moves; everything the program reads from its environment is part of the
event: whether a deadline has passed, the chunk status in the catalog, the result of a producer, the key an iteration
picks, the moment a batch fails, what the server reports. Go strings are byte sequences in the codecs. A nil
dereference, a slice out of range and a call of a nil function are the outcome `Panic` or `Crashed`; a send into a
full channel that nobody drains is `Blocked`.

## Where the code does not do what one would expect

Each of these is proved with the exact condition under which the expected property holds.

- The tracker is constructed with a maximum window size of zero, so windows never overflow, and a transaction of
  which more records are collected than the queue has slots, none of them late, blocks the dispatcher
  (`WindowBound.ZeroBlocksExactly`; the inserts in `WindowBound.InsertsBlockExactly`).
- Without markers, an insert of an unannounced relation after a decompression in the same transaction is a nil
  dereference (`TransactionSurvival.HealthExactly`; a stream in `TransactionOutcome.UnannouncedCrashes`).
- A transaction that only compresses a chunk loses its queued records and its commit, like a decompression
  (`TransactionOutcome.CommitExactly`, `TransactionOutcome.DeliveredExactly`; a stream in
  `TransactionOutcome.CompressionLosesRecords`).
- After a compression, an update of any other chunk to status zero counts as a decompression, although that chunk was
  never compressed, and later inserts are dropped (`TransactionOutcome.NotesExactly`; a stream in
  `TransactionOutcome.FalseDecompression`).
- The relation cache loses OID 0, and may misplace others, once another OID is set after it
  (`RelationCaches.AgreesThroughout`).
- The high watermark query asks for the index columns as one tuple, so the snapshot of a table finishes only if its
  index has one column; that of an empty table never does (`KeysetSnapshot.SnapshotAsWritten`; a table in
  `KeysetSnapshot.SnapshotDevices`).
- With an index over dimensions, rows whose key equals the last key of a batch are skipped; the snapshot is whole
  exactly if no tie reaches across the end of a full batch (`KeysetTable.PlanKeepsAllRows`,
  `KeysetSnapshot.Snapshotter.RunSnapshot`; a table in `KeysetSnapshot.SnapshotMeasurements`).
- If any table is already complete when snapshotting starts, the finished event is never raised
  (`SnapshotScheduler.FinishesExactly`).
- After a restart, messages that start before the restart position are skipped even if they were never processed,
  which happens with overlapping transactions (`Position.HandledExactly`, `Position.FloorExactly`; a run in
  `Position.InterleavedIsSkipped`). A status names one position more than the processed one, so it also happens without
  overlap to a message that starts right behind (`Position.StatusSkipsNext`; a run in
  `Position.StatusMakesTheDifference`).
- Offsets with an empty name, a name of more than 255 bytes or a snapshot offset outside 32 bits do not survive
  (`Offsets.OffsetRoundTrip`); neither does a watermark that lacks values of its columns
  (`Watermarks.ContextRoundTripExactly`), such as one without high values (`Watermarks.FreshWatermarkIsLost`).
- A column dropped in front of a last column with the same attributes is reported together with that one, which is
  still there (`ColumnDiff.DropIsReportedExactly`); with a drop and a rename of the last column, the renamed column is
  reported as added too (`ColumnDiff.DropAndRename`).
- A wildcard does not match a newline, although the documentation says any character
  (`TablePattern.PatternIsWild`, `TablePattern.NewlineIsMissed`).

## Model

| member | source | states |
|---|---|---|
| `Queues.Queue.constructor` | internal/containers/queue.go:30-38 | a queue holds at most the given number of entries and starts empty and unlocked |
| `Queues.Queue.Push` | internal/containers/queue.go:40-50 | an entry is appended at the end unless the queue is locked (refused) or full (the caller blocks); both leave the contents as they are |
| `Queues.Queue.Pop` | internal/containers/queue.go:52-59 | the oldest entry is removed and returned, nothing from an empty queue; never waits |
| `Queues.Queue.Lock` | internal/containers/queue.go:65-67 | after locking every push is refused |
| `TransactionTracker.Tracker.constructor` | internal/replication/logicalreplicationresolver/transactiontracker.go:48-75 | a new tracker has no active transaction and knows no relation; the queue has one slot more than the size given, and the maximum window size stays zero |
| `TransactionTracker.Tracker.DrainQueue` | internal/replication/logicalreplicationresolver/transactiontracker.go:484-519 | all queued entries reach the resolver, oldest first, and the queue is empty |
| `TransactionTracker.Tracker.PushTransactionEntry` | internal/replication/logicalreplicationresolver/transactiontracker.go:458-482 | an entry is queued, and a window that has timed out or reached its maximum size is drained as a whole and marked as bypassed |
| `TransactionTracker.Tracker.SubmitEntry` | internal/replication/logicalreplicationresolver/transactiontracker.go:220-234 | an entry of an open, not bypassed window is pushed, every other entry goes straight to the resolver |
| `TransactionTracker.Tracker.OnRelationEvent` | internal/replication/logicalreplicationresolver/transactiontracker.go:120-126 | the relation is known from now on and the message is forwarded |
| `TransactionTracker.Tracker.OnBeginEvent` | internal/replication/logicalreplicationresolver/transactiontracker.go:128-137 | a new transaction replaces the current one, with an empty queue; the begin is forwarded with markers only |
| `TransactionTracker.Tracker.OnCommitEvent` | internal/replication/logicalreplicationresolver/transactiontracker.go:139-189 | the four outcomes of a commit: forwarded at once, after the drained window, or suppressed together with the window after a compression or a known decompression |
| `TransactionTracker.Tracker.OnInsertEvent` | internal/replication/logicalreplicationresolver/transactiontracker.go:191-234 | inserts of user tables are dropped while a marked decompression runs or when inserts are not generated; an unknown relation inside a decompression is a nil dereference |
| `TransactionTracker.Tracker.OnUpdateEvent` | internal/replication/logicalreplicationresolver/transactiontracker.go:236-298 | updates of the chunk catalog record a compression or decompression by comparing old and new status, all others are submitted if wanted |
| `TransactionTracker.Tracker.OnDeleteEvent` | internal/replication/logicalreplicationresolver/transactiontracker.go:300-333 | deletes are submitted if wanted or needed by the catalog |
| `TransactionTracker.Tracker.OnTruncateEvent` | internal/replication/logicalreplicationresolver/transactiontracker.go:335-360 | truncates are submitted if wanted |
| `TransactionTracker.Tracker.OnMessageEvent` | internal/replication/logicalreplicationresolver/transactiontracker.go:376-416 | non-transactional messages bypass the window, decompression markers open and close a decompression, other messages are submitted if wanted |
| `TransactionTracker.Tracker.Handle` | internal/replication/logicalreplicationresolver/transactiontracker.go:120-416 | a message changes the tracker as the step function says, whatever its type; a tracker that crashed or blocks handles nothing |
| `TransactionTracker.Tracker.HandleAll` | internal/replication/replicationchannel/replicationhandler.go:238-350 | a whole stream leaves the tracker in the state that the lemmas over runs speak about |
| `TransactionConservation.Conservation` | internal/replication/logicalreplicationresolver/transactiontracker.go:139-360 | without markers, over every stream without nested transactions and without a change of a chunk status, and whatever times out or overflows: delivered messages followed by queued ones are the wanted messages and commits, in stream order, of the part of the stream in front of the message that ends the tracker; non-transactional messages are exactly the immediate ones of that part |
| `TransactionConservation.CommittedIsDelivered` | internal/replication/logicalreplicationresolver/transactiontracker.go:139-189 | outside a transaction of such a stream that no message ends, nothing is queued and everything wanted has been delivered in front of its commit |
| `TransactionConservation.SinceBegin` | internal/replication/logicalreplicationresolver/transactiontracker.go:139-519 | without markers, from the begin of any transaction on and as long as no chunk changes its status, after any stream that no message ends: what was delivered at the begin is followed by the wanted messages since then, delivered or queued, in stream order, up to the message that ends the tracker; when the transaction has committed all of them are delivered, the commit last |
| `TransactionOrder.StreamOrder` | internal/replication/logicalreplicationresolver/transactiontracker.go:128-416 | over every stream, in both modes, the positions of delivered and then queued transactional entries strictly grow: nothing is delivered twice or out of order |
| `TransactionOrder.WindowEnd` | internal/replication/logicalreplicationresolver/transactiontracker.go:156-189 | the commit of an open window either drains the whole window in front of the commit or delivers neither its entries nor the commit |
| `TransactionIsolation.StepHands` | internal/replication/logicalreplicationresolver/transactiontracker.go:458-519 | one message makes the tracker hand on only itself or entries queued while a transaction is active |
| `TransactionIsolation.Isolation` | internal/replication/logicalreplicationresolver/transactiontracker.go:418-519 | over every stream, a record handed on is the current message or was queued after the begin of the transaction that is still open |
| `TransactionIsolation.NothingFromBefore` | internal/replication/logicalreplicationresolver/transactiontracker.go:418-439 | whatever a finished transaction left behind in the queue never reaches the resolver in any continuation |
| `TransactionIsolation.GivenUpForGood` | internal/replication/logicalreplicationresolver/transactiontracker.go:156-189 | a window that is given up at its commit and was not drained early is never delivered, and neither is its commit, in any continuation |
| `TransactionSurvival.HealthExactly` | internal/replication/logicalreplicationresolver/transactiontracker.go:191-234 | without markers, over every stream: the tracker runs if and only if no message is an insert of an unannounced relation after a decompression in the same transaction, and none is collected by a window that holds all its records and is full; it crashes or blocks if and only if the first such message is of the first or the second kind |
| `TransactionSurvival.RunHandled` | internal/replication/logicalreplicationresolver/transactiontracker.go:458-482 | at the message that ends it the tracker keeps its queue and everything delivered, and nothing is handed on afterwards |
| `TransactionOutcome.NotesExactly` | internal/replication/logicalreplicationresolver/transactiontracker.go:246-277 | without markers, in every stream that no message ends: a compression is noted if and only if since the last begin a known chunk went from status zero to another; a decompression if and only if a known chunk went to zero while the catalog had another status for it, or the last compression of the transaction, of whichever chunk, went through the same relation |
| `TransactionNotes.StreamNotes` | internal/replication/logicalreplicationresolver/transactiontracker.go:246-277 | the noted compression and decompression are the last such messages of the stream since the begin, and the tracker is active exactly inside a transaction |
| `TransactionNotes.StreamCollects` | internal/replication/logicalreplicationresolver/transactiontracker.go:458-482 | an open window is drained early exactly if a record collected since the begin was late or the counter, with its wrap-around after 64 bits, met the maximum size; until then it holds exactly the collected records, and from then on all of them are delivered |
| `TransactionOutcome.CommitExactly` | internal/replication/logicalreplicationresolver/transactiontracker.go:139-189 | over every stream a commit reaches the resolver, in any continuation, if and only if no message before it ends the tracker and, inside a transaction, the transaction has no decompression of a chunk known at the commit and no compression alone |
| `TransactionOutcome.DeliveredExactly` | internal/replication/logicalreplicationresolver/transactiontracker.go:139-189 | over every stream a collected record of a transaction reaches the resolver, in any continuation after the commit, if and only if the tracker got as far as the record and either drained the window early or got to a commit that does not give it up |
| `TransactionOutcome.NoticesExactly` | internal/replication/logicalreplicationresolver/transactiontracker.go:120-189 | without markers, over every stream up to the message that ends the tracker: besides records and commits the resolver is told exactly the relations, when they arrive, and at a commit inside a transaction the last compression and the last decompression of a chunk that is known then; no begin is handed on |
| `TransactionOutcome.FalseDecompression` | internal/replication/logicalreplicationresolver/transactiontracker.go:255-270 | a stream in which one chunk is compressed and another, never compressed chunk is updated: the tracker notes a decompression, drops a wanted insert that follows, and delivers neither it nor the commit, whatever follows |
| `TransactionOutcome.CompressionLosesRecords` | internal/replication/logicalreplicationresolver/transactiontracker.go:156-172 | a stream of a transaction that inserts a row and compresses a chunk: neither its row nor its commit is delivered, whatever follows |
| `TransactionOutcome.UnannouncedCrashes` | internal/replication/logicalreplicationresolver/transactiontracker.go:208-216 | a stream in which an insert of an unannounced relation after a decompression crashes the tracker |
| `DecompressionMarkers.MarkersFilter` | internal/replication/logicalreplicationresolver/transactiontracker.go:191-241 | with markers the calls on the resolver are the stream filtered by a predicate on the stream alone; the tracker never blocks, and crashes if and only if an insert into an unannounced relation arrives inside a decompression |
| `DecompressionMarkers.DecompressingStep` | internal/replication/logicalreplicationresolver/transactiontracker.go:376-439 | a decompression is open exactly from a start marker to the next begin or end marker inside a transaction, so an unclosed one never reaches past a begin |
| `WindowBound.WindowStaysBounded` | internal/replication/logicalreplicationresolver/transactiontracker.go:429-482 | with a maximum size of at least one over a queue with one more slot, fewer entries than the maximum wait in an open window, no push blocks and a bypassed window is empty, over every stream |
| `WindowBound.ZeroNeverOverflows` | internal/replication/logicalreplicationresolver/transactiontracker.go:69-72 | with the maximum size at zero, as constructed, no window ever overflows as long as the 64 bit counter cannot wrap around |
| `WindowBound.ZeroBlocksExactly` | internal/replication/logicalreplicationresolver/transactiontracker.go:458-482 | as constructed, after any stream that no message ends, a transaction blocks the dispatcher for good if and only if, with no crash before, one more record is collected than the queue has slots and none before it was late; other messages do not count |
| `WindowBound.TimelyBlocksExactly` | internal/replication/logicalreplicationresolver/transactiontracker.go:458-482 | if no record is late and nothing crashes, that is if and only if more records are collected than the queue has slots |
| `WindowBound.InsertsBlockExactly` | internal/replication/logicalreplicationresolver/transactiontracker.go:458-482 | a transaction of n wanted, timely inserts blocks if and only if n is greater than the capacity, whatever the capacity |
| `ChunkHold.EventQueues.constructor` | internal/replication/logicalreplicationresolver/replicationresolver.go:721-731 | no chunk is being snapshotted |
| `ChunkHold.EventQueues.OnChunkSnapshotStartedEvent` | internal/replication/logicalreplicationresolver/replicationresolver.go:180-187 | the chunk gets a fresh queue; whatever an earlier start had queued is gone |
| `ChunkHold.EventQueues.DrainQueue` | internal/replication/logicalreplicationresolver/replicationresolver.go:194-206 | the queue is emptied, and exactly the rows the snapshot does not contain run, in order |
| `ChunkHold.EventQueues.OnChunkSnapshotFinishedEvent` | internal/replication/logicalreplicationresolver/replicationresolver.go:189-223 | the queue of the chunk is drained and removed; a chunk that is not being snapshotted is a nil dereference |
| `ChunkHold.EventQueues.EnqueueOrExecute` | internal/replication/logicalreplicationresolver/replicationresolver.go:702-719 | a row of a chunk being snapshotted waits, every other row runs at once; a full queue blocks |
| `ChunkHold.ChunksAreSeparate` | internal/replication/logicalreplicationresolver/replicationresolver.go:180-223 | the handler survives if and only if every finish has a running snapshot and no queue is full when a row arrives; every chunk then behaves as its own history says, whatever happens to other chunks |
| `ChunkHold.Fate` | internal/replication/logicalreplicationresolver/replicationresolver.go:702-719 | a row has run if and only if no snapshot of its chunk was running when it arrived, or the next start or finish of that chunk is a finish whose LSN is at most the WAL end of the row |
| `ChunkHold.InOrder` | internal/replication/logicalreplicationresolver/replicationresolver.go:189-223 | rows that ran, followed by rows that wait, are in arrival order: a row runs at most once, and held rows run before later rows of the chunk |
| `ChunkHold.ExecutedExactly` | internal/replication/logicalreplicationresolver/replicationresolver.go:180-223 | as long as the handler survives, a row is among the rows it has run if and only if it has no chunk, its chunk was not being snapshotted, or that snapshot finished next with an LSN not above the WAL end of the row; rows of a chunk, and those without one, have run in arrival order, each at most once |
| `ChunkHold.UnchunkedRun` | internal/replication/logicalreplicationresolver/replicationresolver.go:702-719 | the rows without a chunk have run all, once and in arrival order |
| `ChunkHold.ExecutedOnce` | internal/replication/logicalreplicationresolver/replicationresolver.go:189-223 | what has run are rows that arrived, no two of them the same |
| `ChunkHold.StillWaiting` | internal/replication/logicalreplicationresolver/replicationresolver.go:702-731 | a row waits if and only if the chunk was being snapshotted when it arrived and nothing has started or finished for the chunk since |
| `Dispatch.DispatchIsFaithful` | internal/containers/unboundedchannel.go:31-71 | in every interleaving of reader, workers, dispatcher and shutdown, what the dispatcher has sent and still has to send is what a sequential run of the same jobs produces; the tasks of the reader are a prefix of the stream |
| `Dispatch.RunsInOrder` | internal/taskmanager/taskmanager.go:194-230 | tasks of the reader run in stream order and produced tasks in the order of production without a gap; when everything is drained they have all run |
| `Dispatch.RunIsLogged` | internal/taskmanager/taskmanager.go:194-230 | in every interleaving what ran, followed by what waits, is all sends in the order of the moves; the outbox is what running the first part in sequence produced and was not sent yet; nothing is sent after the shutdown |
| `Dispatch.WorkersAreHeard` | internal/taskmanager/taskmanager.go:221-230 | the tasks of workers among those that ran or wait are exactly the tasks they sent before the shutdown, in order |
| `Dispatch.OldestRuns` | internal/containers/unboundedchannel.go:35-66 | a free dispatcher runs exactly the oldest task that waits |
| `Pipeline.FinishedAfterItsRecords` | internal/replication/logicalreplicationresolver/replicationresolver.go:245-257 | in every interleaving, when the transaction finished task of a commit runs, every record task up to that commit that is ever sent and was not held back for a chunk snapshot has run before |
| `Pipeline.SequentialRun` | internal/replication/logicalreplicationresolver/replicationresolver.go:304-312 | along every sequence of jobs that respects the stream the tracker state is that of the stream, and no record at or before a finished transaction is produced after it |
| `Pipeline.StepCommits` | internal/replication/logicalreplicationresolver/transactiontracker.go:185-188 | a commit is the last call a message makes the tracker do, and closes the transaction |
| `Records.ProducedExactly` | internal/replication/logicalreplicationresolver/replicationresolver.go:245-312 | along every sequence of jobs that respects the stream: the record tasks are one for each row that the history of the chunks has run, in that order, held exactly if the chunk was being snapshotted when the row arrived; the transactions reported as finished are the commits that the tracker delivered; the rows that arrived are those of the delivered messages; nothing else is produced |
| `Records.RecordsExactly` | internal/replication/logicalreplicationresolver/replicationresolver.go:702-719 | as long as no chunk snapshot finishes unexpectedly and no queue is full, a row has exactly one record if the history of its chunk releases it, and none otherwise |
| `Records.DrainedExactly` | internal/replication/logicalreplicationresolver/replicationresolver.go:259-314 | in every interleaving, once the stream is read and nothing waits: the records that ran are exactly those of the rows of the delivered messages that the history of the chunks releases, each once, and the finished transactions are the delivered commits in order |
| `Records.CanDrain` | internal/taskmanager/taskmanager.go:194-213 | every run can go on, without workers, until the stream is read, nothing waits and everything produced has been sent |
| `CasCache.Linearizable` | internal/containers/cascache.go:51-177 | in every interleaving of atomic steps of any number of calls, finished calls are a run of an atomic map with put-if-absent and transform: each takes effect between its invocation and its end, a failed one where it loaded the map, with the key absent or its value the input of the failed function; each reply is the stored value or the result of the last run of the callers function, and the published map is what the run leaves |
| `CasCache.ResultsAreSupplied` | internal/containers/cascache.go:51-177 | what a producer or transformer is recorded to have returned, also a failure, was supplied to that very call, by its thread and after its invocation |
| `CasCache.NoKeyLost` | internal/containers/cascache.go:97-138 | a key that is published stays published in every continuation |
| `CasCache.ComputedOnce` | internal/containers/cascache.go:51-95 | without transformations all successful lookups of a key obtain the same value, whichever thread computed it |
| `CasCache.RetryLeavesNothingStale` | internal/containers/cascache.go:119-138 | what a bulk set carries over a failed exchange never overrides a published value |
| `CasCache.StepValid` | internal/containers/cascache.go:140-177 | every atomic step of every operation keeps the refinement invariant |
| `CasProgress.LockFree` | internal/containers/cascache.go:51-177 | over every schedule, a call that does not finish takes at most four steps of its own and three more for every map that is published meanwhile, each by a call of another thread that finishes with it |
| `CasProgress.RetriesOnlyIfPublished` | internal/containers/cascache.go:66-94 | a call goes back to the head of its loop only if a call of another thread published a map after the step in which it loaded the pointer |
| `CasProgress.AloneFinishes` | internal/containers/cascache.go:51-177 | from every reachable state a call of any operation finishes within five steps of its own if no other call moves, whatever its function returns, and leaves all other calls as they are |
| `CasProgress.UndisturbedIsAtomic` | internal/containers/cascache.go:51-177 | an undisturbed call is the atomic operation on what is published: its reply and the map afterwards are those of the atomic map |
| `CasProgress.SetThenGet` | internal/containers/cascache.go:97-117 | after an undisturbed set a lookup answers the value that was published before, or else the value that was set |
| `CasProgress.SetAllThenGet` | internal/containers/cascache.go:119-138 | after an undisturbed bulk set a lookup of one of its keys answers the value that was published before, or else the value that was set |
| `KeysetTable.KeyOf` | spi/systemcatalog/index.go:178-200 | the key fails exactly when an index column is missing |
| `KeysetTable.KeyValues` | spi/systemcatalog/index.go:178-200 | the key holds the value of each index column at the place of the column |
| `KeysetTable.LessTransitive` | spi/systemcatalog/index.go:142-158 | row comparison is transitive, on keys of any number of columns |
| `KeysetTable.LessIrreflexive` | spi/systemcatalog/index.go:142-158 | no key is above itself |
| `KeysetTable.LessExactly` | spi/systemcatalog/index.go:142-158 | a key is below another if and only if it is smaller in the first column in which they differ |
| `KeysetTable.LessTotal` | spi/systemcatalog/index.go:142-158 | of two different keys one is below the other |
| `KeysetTable.MatchingIsSuffix` | internal/sidechannel/sidechannel.go:428-453 | wherever no tie reaches across the low watermark, the rows above it and up to the high watermark are exactly the rows that follow |
| `KeysetTable.HighWatermarkExactly` | internal/sidechannel/sidechannel.go:481-523 | the query as written finds the key of the highest row if and only if the table is not empty and its index has one column; several columns come back as one composite field |
| `KeysetTable.TwoColumnsAreNotFound` | internal/sidechannel/sidechannel.go:492-495 | a table with two index columns, whose high watermark lacks a column as the query is written and is complete as it is intended |
| `KeysetTable.PlanKeepsAllRows` | internal/sidechannel/sidechannel.go:408-479 | reading all batches of a table hands on every row once and in order if and only if at every multiple of the batch length the key differs from the key of the row before |
| `KeysetTable.LastMeasurementIsLost` | internal/sidechannel/sidechannel.go:408-479 | a table with a tie at the end of its first batch, whose last row is in no batch |
| `KeysetSnapshot.Watermark.SetLowWatermark` | spi/watermark/watermarks.go:309-340 | the low watermark is replaced and the watermark is complete exactly when low agrees with high on every column of high |
| `KeysetSnapshot.Snapshotter.constructor` | internal/systemcatalog/snapshotting/snapshotter.go:96-132 | nothing is stored yet |
| `KeysetSnapshot.Snapshotter.Store` | spi/statestorage/statemanager.go:149-158 | a context transaction that succeeds stores the new watermark |
| `KeysetSnapshot.Snapshotter.SnapshotTableWithCursor` | internal/sidechannel/sidechannel.go:838-905 | the cursor loop hands on the rows of the query in order, all of them or those before the failure, and leaves the low watermark at the last row handed on |
| `KeysetSnapshot.Snapshotter.NextBoundsCut` | internal/sidechannel/sidechannel.go:428-446 | from a stored watermark the bounds of the batch query cut the table exactly behind the rows that are done |
| `KeysetSnapshot.Snapshotter.PrepareWatermark` | internal/systemcatalog/snapshotting/snapshotter.go:299-324 | if the query finds the key of the highest row, the call succeeds and the stored watermark, new or refreshed, stands at the same row as before; otherwise no stored context ever has a usable high watermark |
| `KeysetSnapshot.Snapshotter.CompleteAtEnd` | spi/watermark/watermarks.go:325-340 | the low watermark covers the high one exactly when no higher key follows, even if rows with the same key do |
| `KeysetSnapshot.Snapshotter.BatchQuery` | internal/sidechannel/sidechannel.go:448-453 | the batch query gives the next ten times batch size rows after the low watermark |
| `KeysetSnapshot.Snapshotter.ReadBatch` | internal/sidechannel/sidechannel.go:408-479 | a batch works on a copy of the watermark: it hands on exactly the next rows, fails only by a fault or a missing high watermark, and ends with the watermark at its last row |
| `KeysetSnapshot.Snapshotter.FetchTableSnapshotBatch` | internal/sidechannel/sidechannel.go:418-477 | a failed batch leaves the stored context as it was, a successful one stores the advanced watermark |
| `KeysetSnapshot.Snapshotter.SnapshotBaseTable` | internal/systemcatalog/snapshotting/snapshotter.go:295-353 | one task: a batch is read and stored, and the table is finished exactly when no higher key follows; without a usable high watermark it fails and reads nothing |
| `KeysetSnapshot.Snapshotter.Restart` | spi/statestorage/statemanager.go:127-158 | a restart continues from a context saved at or before the last row stored |
| `KeysetSnapshot.Snapshotter.RunSnapshot` | internal/systemcatalog/snapshotting/snapshotter.go:295-378 | under every schedule of failing batches and restarts the snapshot ends, and finishes exactly if the high watermark query finds the key of a highest row; the log goes back only after a failed batch; if restarts find the last stored context, the stored batches are those of a run without faults, and they are the whole table if and only if no tie reaches across the end of a full batch |
| `KeysetSnapshot.SnapshotAsWritten` | internal/sidechannel/sidechannel.go:481-523 | as the query is written, the snapshot of a table finishes if and only if it has a row and one index column; any other table hands on nothing, however often it is started again |
| `KeysetSnapshot.SnapshotAsIntended` | internal/sidechannel/sidechannel.go:408-523 | with a query for separate columns and unique keys, every table with a row is snapshotted: every row is handed on under any faults, and exactly once and in order by the stored batches if restarts find the last stored context |
| `KeysetSnapshot.SnapshotDevices` | internal/sidechannel/sidechannel.go:481-523 | a snapshot of a table with two index columns never reads a row |
| `KeysetSnapshot.SnapshotMeasurements` | internal/sidechannel/sidechannel.go:408-479 | a snapshot of a table with a tie at the end of a batch finishes without its last row |
| `KeysetSnapshot.OnlyTiesAreSkipped` | internal/sidechannel/sidechannel.go:408-479 | a log hands on every row before its end but rows whose key equals that of the row before |
| `KeysetSnapshot.NoRowSkipped` | internal/sidechannel/sidechannel.go:408-479 | with unique keys a log hands on every row before its end |
| `RelationCaches.RelationCache.constructor` | internal/containers/relationcache.go:36-43 | an empty cache has no slots |
| `RelationCaches.RelationCache.Get` | internal/containers/relationcache.go:45-65 | the value in the slot of the OID, nothing outside the bounds; no index leaves the array |
| `RelationCaches.RelationCache.CopyTo` | internal/containers/relationcache.go:84-95 | the new array holds the old slots shifted, as far as they fit, and nothing else |
| `RelationCaches.RelationCache.Set` | internal/containers/relationcache.go:67-98 | the bounds widen, the array is reallocated at one and a half times the span and the slot is written; no index leaves the array and no size exceeds 32 bits |
| `RelationCaches.PutAgrees` | internal/containers/relationcache.go:67-98 | one call keeps the agreement with a plain map if and only if it sets OID 0 or OID 0 is absent |
| `RelationCaches.AgreesThroughout` | internal/containers/relationcache.go:45-98 | for OIDs spanning at most 2863311530 values every call meets the demands of the cache, and the cache answers as a plain map after every call of a sequence, for every OID, if and only if no other OID is set after OID 0 |
| `RelationCaches.CacheIsMap` | internal/containers/relationcache.go:45-105 | for OIDs from 1 on spanning at most 2863311530 values every call meets the demands of the cache, and the cache is the plain map after every call |
| `Bytes.BigEndianRoundTrip` | spi/encoding/buffers.go:172-206 | an unsigned integer that fits the width survives the big-endian form |
| `Bytes.MostSignificantFirst` | spi/encoding/buffers.go:322-344 | the value of a byte string is that of its front shifted by the rest, whatever the width |
| `Buffers.WriteBuffer.constructor` | spi/encoding/buffers.go:91-100 | a write buffer starts empty |
| `Buffers.WriteBuffer.PutBool` | spi/encoding/buffers.go:120-132 | one byte, 1 or 0, is appended |
| `Buffers.WriteBuffer.PutInt8` | spi/encoding/buffers.go:134-139 | one byte in two's complement is appended |
| `Buffers.WriteBuffer.PutInt16` | spi/encoding/buffers.go:141-146 | two bytes in two's complement are appended |
| `Buffers.WriteBuffer.PutInt32` | spi/encoding/buffers.go:148-153 | four bytes in two's complement are appended |
| `Buffers.WriteBuffer.PutInt64` | spi/encoding/buffers.go:155-160 | eight bytes in two's complement are appended |
| `Buffers.WriteBuffer.PutUint32` | spi/encoding/buffers.go:184-194 | four bytes are appended |
| `Buffers.WriteBuffer.PutUint64` | spi/encoding/buffers.go:196-206 | eight bytes are appended |
| `Buffers.WriteBuffer.PutBytes` | spi/encoding/buffers.go:222-249 | the length, cut to 32 bits, and the bytes are appended |
| `Buffers.ReadBuffer.constructor` | spi/encoding/buffers.go:259-264 | a read buffer starts with the data |
| `Buffers.ReadBuffer.Read` | spi/encoding/buffers.go:322-344 | the bytes asked for, filled up with zeros if some are missing; an error only on an empty buffer |
| `Buffers.ReadBuffer.ReadBool` | spi/encoding/buffers.go:274-280 | one byte is consumed, and is true exactly if it is 1 |
| `Buffers.ReadBuffer.ReadUint` | spi/encoding/buffers.go:314-344 | an unsigned integer of the given width is consumed |
| `Buffers.ReadBuffer.ReadBytes` | spi/encoding/buffers.go:362-384 | a length and that many bytes are consumed |
| `Buffers.SizedRoundTrip` | spi/encoding/buffers.go:222-249 | a string or byte slice comes back, in front of any further bytes, if and only if its length fits into 32 bits |
| `Marshallers.BoolMarshaller` | internal/typemanager/marshallers.go:102-115 | booleans and pointers to them are written, everything else is an error |
| `Marshallers.IntMarshaller` | internal/typemanager/marshallers.go:141-165 | integers are written in the width of their Go type, whatever the OID |
| `Marshallers.FloatMarshaller` | internal/typemanager/marshallers.go:183-199 | floats are written in the width of their Go type, whatever the OID |
| `Marshallers.BinaryMarshall` | internal/typemanager/marshallers.go:82-90 | the table decides by OID; an unknown OID is an error, a known one without a marshaller a nil call |
| `Marshallers.BinaryUnmarshall` | internal/typemanager/marshallers.go:92-100 | the table decides by OID which Go type is read |
| `Marshallers.KindIsFixed` | internal/typemanager/marshallers.go:92-353 | whatever the bytes, a value that is read has the Go type of its OID |
| `Marshallers.MarshalRoundTrip` | internal/typemanager/marshallers.go:82-353 | a value can be written and comes back, in front of any further bytes, if and only if it has the Go type its OID reads, a length of 32 bits and, for a UUID, is valid |
| `Marshallers.IntegersByOid` | internal/typemanager/marshallers.go:117-181 | booleans and bits are read from one byte, int2, int4 and int8 from 2, 4 and 8 bytes as signed integers |
| `Marshallers.FloatsByOid` | internal/typemanager/marshallers.go:201-282 | float4, float8 and intervals are read from 4, 8 and 8 bytes |
| `Marshallers.SizedByOid` | internal/typemanager/marshallers.go:125-353 | strings, byte strings, times, JSON documents and UUIDs are read from a length and that many bytes, each for its OIDs |
| `Marshallers.NothingByOid` | internal/typemanager/marshallers.go:32-80 | four OIDs are in the tables without a function, all others are not in the tables |
| `MapCodec.MapRoundTrip` | spi/watermark/watermarks.go:84-138 | whatever the iteration order in which the entries of a map were written, filling a map from them adds exactly that map, provided each entry reads back |
| `MapCodec.FilledAll` | spi/watermark/watermarks.go:164-253 | what holds of every entry the decoder can return holds of every entry of the map that was filled |
| `Watermarks.ContextRoundTrip` | spi/watermark/watermarks.go:68-254 | for every iteration order of all maps a well-formed snapshot context is written without an error, and decoding into a fresh context gives the same context |
| `Watermarks.DecodedIsReadable` | spi/watermark/watermarks.go:142-254 | whatever the bytes, a decoded context has a type for every value, values of that Go type, and names and counts of 32 bits |
| `Watermarks.OneTable` | spi/watermark/watermarks.go:68-140 | the bytes of a context with one table and one column, in the order of the fields |
| `Watermarks.ContextRoundTripExactly` | spi/watermark/watermarks.go:68-254 | a context comes back if and only if every watermark covers its columns, every value has the Go type of its column and every name and count fits into 32 bits; names are plain unless all watermarks cover their columns |
| `Watermarks.UncoveredIsLost` | spi/watermark/watermarks.go:179-246 | a context in which any watermark lacks a high or low value is written, but the decoder fails, whatever the iteration orders |
| `Watermarks.FreshWatermarkIsLost` | spi/watermark/watermarks.go:263-280 | a context in which any watermark is as it was created, with column types but no high watermark, cannot be read back, whatever the iteration orders and the other tables |
| `SnapshotContexts.SnapshotContext.constructor` | spi/watermark/watermarks.go:34-43 | a new context is incomplete and has no watermarks |
| `SnapshotContexts.SnapshotContext.MarshalBinary` | spi/watermark/watermarks.go:68-140 | the bytes, or the error, of some iteration order of all maps; for a well-formed context they decode to the context |
| `SnapshotContexts.SnapshotContext.UnmarshalBinary` | spi/watermark/watermarks.go:142-254 | the object holds the decoded context, added to the watermarks it had, or the error of the decoder |
| `SnapshotContexts.PutWatermark` | spi/watermark/watermarks.go:84-138 | one watermark: completeness, column types, high values, and low values if there are any |
| `SnapshotContexts.ReadWatermark` | spi/watermark/watermarks.go:159-246 | one watermark is read as it was written; the number of column types decides how many high and low values are read |
| `Offsets.MarshalBinary` | spi/statestorage/offset.go:70-116 | the array of exactly the computed size holds the encoding |
| `Offsets.UnmarshalBinary` | spi/statestorage/offset.go:38-68 | the fields as the decoder reads them, a fault where the data ends too early |
| `Offsets.FixedParts` | spi/statestorage/offset.go:38-45 | timestamp, snapshot flag, snapshot offset and LSN stand at bytes 0, 8, 9 and 13 |
| `Offsets.VariableParts` | spi/statestorage/offset.go:46-116 | behind the fixed part stand the flag, length and bytes of the name, the flag of a finished snapshot, and the length and bytes of a keyset |
| `Offsets.DecodedIsStorable` | spi/statestorage/offset.go:38-68 | whatever the bytes, a decoded name is absent or has 1 to 255 bytes, and offset and keyset length fit into 32 bits |
| `Offsets.OffsetRoundTrip` | spi/statestorage/offset.go:38-116 | an offset comes back if and only if its name is absent or has 1 to 255 bytes, its snapshot offset lies in 32 bits and so does the length of its keyset |
| `FileStateStorages.FileStateStorage.constructor` | spi/statestorage/filestatestorage.go:107-113 | a new storage is empty |
| `FileStateStorages.FileStateStorage.Save` | spi/statestorage/filestatestorage.go:141-185 | the bytes of some iteration order of both maps; loading them into a fresh storage gives the storage back if and only if it is keepable |
| `FileStateStorages.FileStateStorage.Load` | spi/statestorage/filestatestorage.go:187-275 | a missing or empty file resets the offsets only, any other file adds what it holds; a slice past the end is a fault |
| `FileStateStorages.SaveLoad` | spi/statestorage/filestatestorage.go:141-275 | for every iteration order, loading a saved file adds exactly the saved offsets and states to any storage |
| `FileStateStorages.OneOfEach` | spi/statestorage/filestatestorage.go:141-185 | the bytes of one offset and one state: offsets before states, each with a count in front and the lengths in front of names and data |
| `FileStateStorages.AcknowledgedSurvives` | internal/replication/replicationcontext/replicationcontext.go:251-281 | an acknowledged position, in a new or existing offset of the slot, survives saving and loading together with everything else |
| `FileStateStorages.SaveLoadExactly` | spi/statestorage/filestatestorage.go:141-275 | a storage comes back in a fresh storage if and only if all names, states and counts fit into 32 bits and every offset survives its own format |
| `SinkContexts.SinkContext.constructor` | internal/eventing/sink/sinkcontext.go:27-32 | a new sink context has no attributes |
| `SinkContexts.SinkContext.SetAttribute` | internal/eventing/sink/sinkcontext.go:93-98 | one attribute is set, the others stay |
| `SinkContexts.SinkContext.MarshalBinary` | internal/eventing/sink/sinkcontext.go:59-76 | the bytes of some iteration order of the attributes; shorter than four gigabytes they read back, whatever follows them in memory |
| `SinkContexts.SinkContext.UnmarshalBinary` | internal/eventing/sink/sinkcontext.go:34-57 | the attributes read with 32 bit offsets are added, a slice out of range is a fault |
| `SinkContexts.SinkContextRoundTrip` | internal/eventing/sink/sinkcontext.go:34-76 | for every iteration order, stored attributes of less than four gigabytes come back and no offset wraps around, whatever follows the data in memory |
| `SinkContexts.OneAttribute` | internal/eventing/sink/sinkcontext.go:59-76 | the bytes of one attribute: a count, both lengths, the key and the value |
| `SnapshotScheduler.SnapshottingEventHandler.constructor` | internal/systemcatalog/systemcatalog.go:570-579 | no table is handled yet |
| `SnapshotScheduler.SnapshottingEventHandler.OnSnapshottingStartedEvent` | internal/systemcatalog/systemcatalog.go:667-701 | snapshotting starts with any hypertable, else any other table, else it is finished at once |
| `SnapshotScheduler.SnapshottingEventHandler.OnTableSnapshotStartedEvent` | internal/systemcatalog/systemcatalog.go:601-638 | a complete table is skipped without being recorded as handled, any other table is snapshotted |
| `SnapshotScheduler.SnapshottingEventHandler.OnTableSnapshotFinishedEvent` | internal/systemcatalog/systemcatalog.go:640-665 | the table is handled and complete, and the next task is scheduled |
| `SnapshotScheduler.SnapshottingEventHandler.OnSnapshottingFinishedEvent` | internal/systemcatalog/systemcatalog.go:703-706 | the finished event is raised once more |
| `SnapshotScheduler.SnapshottingEventHandler.NextSnapshotTable` | internal/systemcatalog/systemcatalog.go:708-722 | any unhandled hypertable, else any other unhandled table; nothing exactly when all are handled |
| `SnapshotScheduler.SnapshottingEventHandler.ScheduleNextSnapshotHypertableOrFinish` | internal/systemcatalog/systemcatalog.go:724-742 | one task follows: the next table, or the end |
| `SnapshotScheduler.FreshRun` | internal/systemcatalog/systemcatalog.go:601-742 | from a context without complete tables, whatever the iterations pick: no table is started twice, hypertables come first, at most one table is under way, the finished event is raised at most once and then every table was snapshotted, and it is raised after two steps per table and one more |
| `SnapshotScheduler.EveryRun` | internal/systemcatalog/systemcatalog.go:601-742 | whatever is complete at the start and whatever the iterations pick: no table is snapshotted twice, hypertables come first, a table that was complete is not snapshotted, and the tables that become complete are exactly those whose snapshot has finished |
| `SnapshotScheduler.FinishesExactly` | internal/systemcatalog/systemcatalog.go:618-626 | snapshotting finishes, in every run that is long enough, if and only if no table of the catalog was complete at the start |
| `Position.LocateRestartLsn` | internal/replication/replicationconnection/replicationconnection.go:216-282 | an error exactly for a slot in use of another plugin or type; else the larger of the confirmed flush and the stored position, or the current position if neither is set |
| `Position.ReplicationContext.constructor` | internal/replication/replicationcontext/replicationcontext.go:151-163 | the context starts with the offset stored under the name of its slot, if there is one |
| `Position.ReplicationContext.SetPositionLsns` | internal/replication/replicationcontext/replicationcontext.go:230-239 | both positions are set |
| `Position.ReplicationContext.AcknowledgeReceived` | internal/replication/replicationcontext/replicationcontext.go:241-249 | the received position is the end of the message, modulo 64 bits |
| `Position.ReplicationContext.AcknowledgeProcessed` | internal/replication/replicationcontext/replicationcontext.go:251-281 | the processed position is the larger of itself and the acknowledged end, and is stored |
| `Position.HandleMessages` | internal/replication/replicationchannel/replicationhandler.go:196-212 | exactly the relation messages and the messages that do not start before the restart position are handed on, in order |
| `Position.HandedOnExactly` | internal/replication/replicationchannel/replicationhandler.go:196-212 | a message of the stream is handed on if and only if the running process handles it |
| `Position.HandedOnInOrder` | internal/replication/replicationchannel/replicationhandler.go:196-212 | the messages handed on are the stream without the messages that are not handled: in the same order, none added and none repeated |
| `Position.ProcessedNeverDecreases` | internal/replication/replicationconnection/replicationconnection.go:107-139 | over any number of processes that save their state before they end, and whatever the server confirms in between, the processed position never decreases |
| `Position.NeverHandledAgain` | internal/replication/replicationchannel/replicationhandler.go:196-212 | a message other than a relation, acknowledged with its own position in a process that then saved, is handled by no later process |
| `Position.HandledExactly` | internal/replication/replicationconnection/replicationconnection.go:216-282 | after a clean restart a message is handled if and only if it is a relation or does not start before the restart point of the run, which is the floor, or the current position if the floor is zero |
| `Position.FloorExactly` | internal/replication/replicationcontext/replicationcontext.go:251-281 | the floor is behind a position if and only if the server had confirmed it at first, or some acknowledgement of the run got behind it, or a status was sent from it or behind it |
| `Position.RunReads` | internal/replication/replicationconnection/replicationconnection.go:107-139 | over clean runs the processed position is the largest of the first restart, the acknowledged ends and the restart points |
| `Position.InterleavedIsSkipped` | internal/replication/replicationchannel/replicationhandler.go:196-212 | for overlapping transactions, a message that was not processed and starts before a processed one is skipped after a restart |
| `Position.StatusSkipsNext` | internal/replication/replicationconnection/replicationconnection.go:94-105 | after any clean run that sends a status and restarts, a message that starts exactly where processing had got to is skipped |
| `Position.StatusMakesTheDifference` | internal/replication/replicationconnection/replicationconnection.go:94-105 | of two messages without any overlap, the one that starts where the processed one ends is handled after a restart, but skipped if a status was sent before |
| `TablePattern.Build` | internal/systemcatalog/tablefiltering/tablefilter.go:225-268 | the text is the pattern with its wildcards replaced, and fails exactly at characters an unquoted pattern may not have |
| `TablePattern.IsReserved` | internal/systemcatalog/tablefiltering/tablefilter.go:270-281 | whether the upper case name is a reserved keyword |
| `TablePattern.ParseToken` | internal/systemcatalog/tablefiltering/tablefilter.go:184-284 | an unquoted token becomes a literal, an expression or an error; an empty one is indexed out of range |
| `TablePattern.AcceptedExactly` | internal/systemcatalog/tablefiltering/tablefilter.go:184-284 | an unquoted token is accepted if and only if it has 1 to 63 letters, digits, underscores and wildcards, does not begin with a digit and, without a wildcard, is no reserved keyword in upper case; only an empty one is indexed out of range |
| `TablePattern.TranslationParses` | internal/systemcatalog/tablefiltering/tablefilter.go:121-133 | the text built from a legal pattern always compiles, to the expression of the pattern |
| `TablePattern.RegexIsWild` | internal/systemcatalog/tablefiltering/tablefilter.go:249-258 | the expression describes exactly the names of the wildcard language in which a wildcard stands for no newline |
| `TablePattern.PatternIsWild` | internal/systemcatalog/tablefiltering/tablefilter.go:184-284 | for every name, an accepted pattern matches exactly the wildcard language, without newlines under wildcards, of the pattern in lower case |
| `TablePattern.PatternIsDocumented` | README.md:567-573 | for names without a newline that is the documented language: `*` zero or more, `+` one or more, `?` exactly one character |
| `TablePattern.NewlineIsMissed` | internal/systemcatalog/tablefiltering/tablefilter.go:249-258 | a pattern of one asterisk does not match a newline, which the documentation allows |
| `TableFilters.ParseFilter` | internal/systemcatalog/tablefiltering/tablefilter.go:104-136 | a term of two unquoted tokens becomes a filter, every other number of tokens is an error |
| `TableFilters.FilterIsDocumented` | internal/systemcatalog/tablefiltering/tablefilter.go:138-182 | a filter matches a table if and only if its effective schema and table names, those of the view for a continuous aggregate, are in the languages of the two patterns |
| `TableFilters.NewTableFilter` | internal/systemcatalog/tablefiltering/tablefilter.go:36-64 | excludes are parsed before includes, the first term that fails decides, and the filter starts with an empty memo |
| `TableFilters.ParseFilters` | internal/systemcatalog/tablefiltering/tablefilter.go:40-56 | the filters of the terms in order, or the failure of the first term that fails |
| `TableFilters.TableFilter.Enabled` | internal/systemcatalog/tablefiltering/tablefilter.go:66-95 | the memo answers if it knows the canonical name, else the rule does, and the answer is remembered |
| `TableFilters.MemoIsFirst` | internal/systemcatalog/tablefiltering/tablefilter.go:66-95 | over every sequence of calls the answer is that of the rule for the first table asked about under the same canonical name |
| `TableFilters.MemoIsRule` | internal/systemcatalog/tablefiltering/tablefilter.go:66-95 | if equal canonical names mean equal effective names, every answer is that of the rule: an exclude wins, else an include, else the default |
| `TableFilters.AnswerIsDocumented` | internal/systemcatalog/tablefiltering/tablefilter.go:66-182 | from the terms to the answer, after any calls with consistent names: a table that an exclude names is disabled whatever the includes are, another one that an include names is enabled, the default decides for the rest; a continuous aggregate goes by the names of its view |
| `ColumnDiff.BaseTable.constructor` | spi/systemcatalog/basetable.go:43-58 | the table starts without columns |
| `ColumnDiff.BaseTable.ApplyTableSchema` | spi/systemcatalog/basetable.go:91-158 | the table has the new columns, and the differences are those of old and new columns |
| `ColumnDiff.CompareColumns` | spi/systemcatalog/basetable.go:104-157 | the two loops compute the differences; no index leaves a list |
| `ColumnDiff.CompareColumn` | spi/systemcatalog/basetable.go:106-152 | one old column: dropped, unchanged, renamed, dropped before the next, or changed |
| `ColumnDiff.LookAhead` | spi/systemcatalog/basetable.go:131-137 | whether some later column is the same at the same position of both lists |
| `ColumnDiff.NoDifferenceExactly` | spi/systemcatalog/basetable.go:91-158 | no difference is reported if and only if the lists have the same length and are equal column by column |
| `ColumnDiff.AppendedAreAdded` | spi/systemcatalog/basetable.go:153-156 | for columns appended to the table a name is reported if and only if an appended column has it, as added, with the last such column |
| `ColumnDiff.TrailingAreDropped` | spi/systemcatalog/basetable.go:106-111 | for columns dropped from the end a name is reported if and only if a dropped column has it, as dropped, with the last such column |
| `ColumnDiff.DiffIsHonest` | spi/systemcatalog/basetable.go:104-157 | for any two lists: what is reported as dropped, or before a change, is an old column, what is reported as added, or after a change, a new one, each under its name; a rename goes from an old to a new column that differ in their names only, under the new name, but under the old one for the last new column |
| `ColumnDiff.RenameIsReported` | spi/systemcatalog/basetable.go:117-143 | one renamed column is reported as exactly that rename, under the old name if it is the last column and else under the new one |
| `ColumnDiff.ChangeIsReported` | spi/systemcatalog/basetable.go:149-152 | one column with other attributes is reported as exactly that change, under its old name |
| `ColumnDiff.DropIsReportedExactly` | spi/systemcatalog/basetable.go:144-147 | one column dropped in front of others is reported as exactly that, if and only if it is not followed by a single column with the same attributes; else that one is reported as dropped too |
| `ColumnDiff.DropAndRename` | spi/systemcatalog/basetable.go:117-126 | with a column dropped in front of others and the last one renamed, the new last column is reported as added in addition to its rename |

## Left out

- Sinks, naming, schema builders, type converters, statistics, logging, command line, configuration lookup, plugins and wiring: input and output, or easy members.
- SQL text, database sessions and the row decoder: a table is a finite sequence of rows in key order under the exported snapshot, and integers stand for any totally ordered column type.
- Comparing watermark values of type byte slice is a run-time fault in Go; the model compares them as values.
- The third context transaction of a table snapshot stores the same context once more; the model omits it.
- Snapshots of several tables running at once on different partitions.
- Retries and backoff of the event emitter; an emit is taken to succeed before it is acknowledged.
- TransactionTracker.Tracker.DrainQueue: an error of the resolver, which stops a drain with entries left, is not modelled.
- Type and Origin messages, which only pass through.
- Dispatch.DispatchIsFaithful: a send that races with the closing of the channel and ends the process is not modelled; nothing runs after it.
- Tasks that run immediately, outside the dispatcher, for decompressed chunks; they can be acknowledged ahead of queued records.
- Catalog maps under renames and updates of hypertables and chunks.
- The binary forms of times and JSON documents: they are byte strings accepted by a predicate.
- A nil map and an empty map, and a nil and an empty byte slice, are the same value.
- Reading and writing the file itself, and the mutexes around the storage and the context.
- The list of reserved keywords is a parameter.
- TablePattern.ParseToken: quoted and non-ASCII tokens are not modelled, because for them the code mixes byte and rune positions and leaves other operators of the expression syntax unescaped.
- TableFilters.ParseFilter: takes unquoted ASCII tokens only, for the same reason.
- TableFilters.NewTableFilter: takes terms of such tokens only.
- TableFilters.ParseFilters: takes terms of such tokens only.
- RelationCaches.RelationCache.Set: spans of more than 2863311530 OIDs are not modelled, because the conversion of a size beyond 32 bits is left open by Go.
- RelationCaches.AgreesThroughout: takes OIDs within that span, for the same reason.
- KeysetSnapshot.Snapshotter.RunSnapshot: takes a batch size of at least one; null values in index columns are not modelled.
- KeysetSnapshot.SnapshotAsIntended: is about a query the code does not make; it says what the snapshot would do with it.
- TransactionConservation.Conservation: takes streams without nested transactions, which the server does not send, and without any change of a chunk status; `TransactionConservation.SinceBegin` allows such changes in earlier transactions, and the isolation lemmas cover the transactions that make them.
- FileStateStorages.SaveLoadExactly: takes offsets whose own encoding is shorter than four gigabytes; beyond that the file can come back by coincidence.
- SinkContexts.SinkContextRoundTrip: is stated for data shorter than four gigabytes; beyond that a 32 bit offset wraps around.
- Watermarks.ContextRoundTripExactly: for a watermark that does not cover its columns it takes the names that PostgreSQL allows: column names that are not empty and shorter than 16 megabytes, canonical table names shorter than 256 bytes, and no column named like the canonical name of a table; with other names the decoder may take the next fields for a value, and what comes out depends on their bytes.
- Watermarks.UncoveredIsLost: takes the same names.
- Watermarks.FreshWatermarkIsLost: takes table names of less than 256 bytes and other tables that read back or are fresh too; `Watermarks.UncoveredIsLost` covers the others.
- SnapshotScheduler.FreshRun: a table that was started is taken to finish; whether it does is the subject of the table snapshot.
- Position.NeverHandledAgain: takes messages whose end does not wrap around 64 bits.
- Position.HandledExactly: takes processes that save before they end, and a slot of the logical type and the plugin of the program; otherwise there is an error instead of a restart position.
- TransactionOutcome.CommitExactly: is about the mode without markers; `DecompressionMarkers.MarkersFilter` covers the other.
- Pipeline.FinishedAfterItsRecords: a hold-back queue that is full stops the resolver only, not the dispatcher, so the model has more runs than the program.
- ColumnDiff.DropIsReportedExactly: takes lists whose column names are distinct, as those of a table are.
- ColumnDiff.RenameIsReported: takes a new column that is not the next column too, which distinct names exclude.
- ColumnDiff.ChangeIsReported: takes the same.
- Records.DrainedExactly: takes runs without a shutdown and chunk histories that the resolver survives; `Records.ProducedExactly` covers the others up to where it stops.
- TableFilters.AnswerIsDocumented: takes names without a newline and terms of accepted tokens.
