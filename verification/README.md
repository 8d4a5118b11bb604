# Caminus in Dafny

Caminus is a change-data-capture engine: it pulls change events from a source, deduplicates and validates them,
holds the mutations of a transaction until its commit, transforms and sends them, and records in a state store how
far it got. This project models its stateful algorithms and proves what they guarantee over whole runs.
`dafny verify dfyconfig.toml` checks everything.

## What is modelled

**Delivery** (`IngestModel`, `IngestSession`, `IngestSoundness`, `IngestOrder`, `IngestTheorems`, `IngestLeadership`,
`IngestAtomicity`, `IngestDedup`, `SourceDelivery`, `IngestTasks`). The Postgres loop of `src/main.rs` is a state
machine over an offset-numbered log with the steps pull, deliver, save and crash; a crash may fall between any two of
them, in particular between a send and the save of its offset, and keeps only the checkpoint, what was sent and what
was dead-lettered. `IngestTasks.IngestTask` is the loop body as imperative code over the filter, buffer, watermark
engine and store; each of its methods is proved to perform a run of that machine. The main result is an equivalence: no run loses a committed record exactly when commit order
agrees with log order, and on every other log one crash at the wrong moment loses a record for good. The loop saves
the offset of each flushed mutation, so that a transaction still open at that time and begun earlier is skipped by a
restart; contiguous transactions, which the engine's own source provides, are sufficient but not necessary.
The premises about the environment are collected in `IngestModel.WellFormed` and `AlwaysLeader`:

- offsets are the decimal numbers 1, 2, ... of the records, below 2^64, and event ids are distinct (`IngestDedup`
  needs neither);
- the transformer is a partial function on events that keeps the offset;
- the schema in force does not change during a run, and saves, sends and dead letters succeed (the loop discards
  their errors, `src/main.rs:166`, `199-202`, `221`);
- the node is leader whenever it pulls. `IngestLeadership` drops this one for sessions without crashes: it says which
  records a session with leadership gaps handles and sends, and that a gap at any committed record loses it.
  `IngestAtomicity` drops it for all runs: it says on which logs nothing uncommitted can be sent.

The two sinks are one sequence of sent events. What holds of it holds of each sink by itself, since a crash between
the two sends is, for the second sink, a crash before the delivery.

**Watermark snapshotting** (`Watermarks`). A world of source table, downstream replica, snapshotter and log. The chunk
is loaded at one position of the log and shows the source as of another, so the log being processed may lag behind the
source that was read. Premises: log events are committed effects, Create and Update carry `after`, the chunk is read at
or ahead of the position at which it is loaded (`ReadPointExact` says exactly when an earlier read is still right), no
event of another table has a key of the range while the chunk is loaded (the chunk is looked up by key alone;
`WindowExact` needs no such premise and says exactly when the window still converges), and the chunk is flushed at the
high marker (`LateFlushExact` does the same for a later flush). Any Create or Commit row of the watermark table toggles
the window, whatever its transaction.

**Parallel snapshot** (`ParallelSnapshots`, `SnapshotWorkers`). Chunking with 64-bit keys and 32-bit ids, and the
workers as interleaved steps, one per lock section, including workers that die inside the processing function. The
chunks a call starts from may be left over from an earlier call.

**Rate limiting and routing** (`RateLimiters`, `TenantRouters`). Token buckets over reals with the clock as an input,
characterised by their history of grants; a map of buckets per tenant; routing with the string hash as a parameter.

**Components** (`TransactionBuffers`, `Deduplication`, `SchemaRegistry`, `StateStores`, `Decimal`, `PostgresSource`,
`ConfluentRegistry`, `Backoff`, `ConflictResolution`). Each is specified by its history or by an independent
definition and proved against it.

Where comments and code disagree the model follows the code: the comments at `src/storage/schema.rs:82` and `94`
describe who can read whose data the other way round from what the checks give, since every field of a schema is
required. `BackwardHistory` and `ForwardHistory` state the direction that holds.

## Model

| member | source | states |
|---|---|---|
| IngestTheorems.NoLossExactlyInLogOrder | src/main.rs:131-225 | over all runs with any number of crashes: every committed record at or below the checkpoint has been sent or dead-lettered, and all of them once the log is consumed, if and only if no valid record is committed later than a sendable one that follows it in the log |
| IngestTheorems.OneCrashCanLose | src/main.rs:189-213 | on any other log there is a run with a committed valid record that no continuation ever sends or dead-letters |
| IngestTheorems.BoundedDuplication | src/main.rs:189-213 | if sendable records are committed in log order among themselves, total sends are at most the distinct events sent plus the number of crashes |
| IngestTheorems.CheckpointMonotoneExactly | src/main.rs:201-202 | the saved checkpoint moves back in no run, restarts included, if and only if sendable records are committed in log order among themselves |
| IngestTheorems.CheckpointFallsBack | src/main.rs:201-202 | any two sendable records committed out of order have a run, without any crash, in which the checkpoint moves back |
| IngestTheorems.InterleavedLoses | src/main.rs:189-213 | a concrete log of two interleaved transactions meets every premise but the order, so some run of it loses a record and some moves the checkpoint back |
| IngestSoundness.OnlyCommittedSent | src/main.rs:151-224 | in every run led throughout, over any log and any crashes, only committed, valid records reach the sinks; nothing rolled back or still open does |
| IngestSoundness.OnlyRefusedDead | src/main.rs:157-224 | in the same runs only records that fail validation, or committed ones the transformer refuses, are dead-lettered |
| IngestTheorems.HandledMeansSent | src/main.rs:189-224 | in the same runs a record that can be sent counts as handled only by being sent |
| IngestTheorems.NoLossSends | src/main.rs:131-225 | so in an ordered log every committed record that is valid and accepted by the transformer has been sent once it lies below the checkpoint, and in any case once the log is consumed |
| IngestOrder.RunsOrdered | src/main.rs:131-225 | the inductive invariant of all runs when sendable records are in order: checkpoint at the last saved record, at most one record sent ahead of it, one repetition per crash |
| IngestOrder.RunsSafe | src/main.rs:131-225 | in an ordered log every state of every run has handled all that is committed below its checkpoint |
| IngestSession.ReleasedIsFlushIndices | src/buffer/mod.rs:17-50 | what the buffer releases at a log position of a session is exactly the session's records that the log commits there, in log order |
| IngestSession.OffsetResumes | src/source/postgres.rs:61-63 | resuming from the saved offset of a record continues with the record after it |
| IngestSession.PullKeepsSession | src/main.rs:137-187 | a pull as leader keeps the session in step with the log: ids seen, buffer history, released batch, dead letters |
| IngestSession.DeliverKeepsSession | src/main.rs:189-224 | a delivery takes the next record of the batch in order and sends or dead-letters that record alone |
| IngestTheorems.ContiguousCommitsInOrder | src/main.rs:189-213 | contiguous transactions imply that commit order agrees with log order |
| IngestTheorems.SourceLogWellFormed | src/source/postgres.rs:61-108 | the engine's own source yields numbered offsets, distinct ids and contiguous transactions |
| IngestTheorems.SourceLosesNothing | src/main.rs:131-225 | fed by its own source the engine loses nothing in any run |
| SourceDelivery.SourceSendsEverything | src/main.rs:63-225 | fed by its own source, under the schema it starts with and a transformer that accepts everything, no run led throughout ever dead-letters, and once the log is consumed every mutation of every completed block of four has been sent |
| SourceDelivery.StreamAccepted | src/main.rs:63-68 | every event of the source passes validation under that schema |
| SourceDelivery.StreamCommits | src/source/postgres.rs:75-84 | what the source commits is exactly the mutations of the blocks it completed |
| IngestLeadership.DoneExactlyWhenLed | src/main.rs:137-225 | a complete session without crashes, leader at any pattern of pulls, has sent or dead-lettered a committed record if and only if it was leader at its pull and, for a valid one, the first close of its transaction pulled as leader is a commit |
| IngestLeadership.AllDoneExactlyWhenLed | src/main.rs:137-225 | so it has handled everything committed exactly when that holds of every committed record |
| IngestLeadership.LeadershipGapLoses | src/main.rs:138-141 | for every committed record of every log, not being leader at that one pull finishes the log without it |
| IngestLeadership.SentExactlyWhenLed | src/main.rs:137-225 | the same for sending, of every record of the log, committed or not: sent if and only if led, valid, accepted, and of no transaction or one whose first later close pulled as leader is a commit |
| IngestAtomicity.AtomicExactly | src/main.rs:137-225 | over all runs with any leadership and any crashes nothing uncommitted is ever sent, if and only if no record that could be sent is rolled back and its transaction committed later in the log |
| IngestDedup.PullExactly | src/main.rs:151-179 | one pull as leader over any log: an id among the last thousand accepted leaves no trace but the position; otherwise the event is dead-lettered if invalid, dropped if a watermark row, and else fed to the buffer |
| IngestDedup.RunsTrackIds | src/main.rs:153-155 | in every led run over any log a session has accepted exactly what the filter accepts of the ids it pulled, over a window of a thousand |
| IngestDedup.DuplicatesSkipped | src/main.rs:153-155 | so a pulled event is skipped if and only if its id is among the last thousand ids the session accepted |
| IngestDedup.SendsPerId | src/main.rs:151-202 | over any log whose ids recur within the window only, led runs send records carrying one id at most once more often than they crash |
| IngestDedup.CloseRecurrence | src/resiliency/dedup.rs:21-36 | if no id recurs more than a thousand records later then ids recur within the window only |
| IngestDedup.SentRecordsAreSent | src/main.rs:190-200 | what a run has sent is the transformed form of the records it took from the buffer for sending, one by one |
| IngestAtomicity.SentIsReleasable | src/buffer/mod.rs:17-50 | in any run at all, what is sent is a valid record of no transaction or of one that the log commits after it |
| IngestAtomicity.MissedRollback | src/main.rs:138-141 | a concrete log of three records on which missing the rollback sends the record it rolled back |
| IngestAtomicity.SourceIsAtomic | src/source/postgres.rs:61-108 | fed by its own source the engine sends nothing uncommitted under any leadership |
| IngestTasks.IngestTask.constructor | src/main.rs:126-135 | a first start on a store without an offset is the initial state of the machine |
| IngestTasks.IngestTask.Restart | src/main.rs:126-135 | new filters and buffers and a position read back from the store perform exactly the crash step |
| IngestTasks.IngestTask.NewComponents | src/main.rs:126-128 | the empty filter, watermark engine and buffer of a new session |
| IngestTasks.IngestTask.ReceiveEvent | src/main.rs:151-179 | filter, validation, watermark engine and buffer together perform the receive step of the machine on every branch, and the engine sees exactly the events that are neither duplicate nor invalid |
| IngestTasks.IngestTask.DeliverAll | src/main.rs:189-224 | delivering the released mutations is a sequence of deliver and save steps that empties the outbox |
| IngestTasks.IngestTask.HandleNext | src/main.rs:137-225 | one iteration of the loop is a pull followed by such steps, and leaves nothing to deliver |
| IngestTasks.IngestTask.Run | src/main.rs:135-237 | a session run to the end of an ordered log, led throughout, has sent or dead-lettered every committed record whatever crashes came before; a first session led by any pattern exactly those records it was led through |
| TransactionBuffers.TransactionBuffer.Process | src/buffer/mod.rs:17-50 | releases what the history specification says, and keeps the map equal to the pending mutations of every open transaction |
| TransactionBuffers.TransactionBuffer.Prune | src/buffer/mod.rs:53-57 | drops everything exactly when more transactions are open than the limit |
| TransactionBuffers.CommitReleasesSinceLastClose | src/buffer/mod.rs:24-48 | a commit releases exactly its transaction's mutations since that transaction's previous commit or rollback, in arrival order |
| TransactionBuffers.FirstCommitReleasesAll | src/buffer/mod.rs:24-48 | the same for a transaction never closed before |
| TransactionBuffers.TransactionsIndependent | src/buffer/mod.rs:17-50 | without pruning a transaction's buffer depends on its own events alone |
| TransactionBuffers.EveryEventAccountedFor | src/buffer/mod.rs:17-57 | conservation: each event fed in was released, rolled back or pruned, or is still held, with multiplicity |
| TransactionBuffers.ReleasedOnce | src/buffer/mod.rs:17-57 | a buffer fed no id twice never releases one twice |
| Watermarks.WatermarkSnapshotter.LoadChunk | src/snapshot/watermark.rs:20-25 | the chunk becomes the rows by key, as `Keyed` says |
| Watermarks.LastRowWins | src/snapshot/watermark.rs:20-25 | of two rows loaded under one key the later one counts |
| Watermarks.WatermarkSnapshotter.ProcessReplicationEvent | src/snapshot/watermark.rs:29-74 | performs the observe step on chunk, window and transaction, swallows watermark rows and forwards everything else unchanged |
| Watermarks.WatermarkSnapshotter.FlushChunk | src/snapshot/watermark.rs:77-81 | returns every row of the chunk once, in some order, and empties it |
| Watermarks.TogglesExactly | src/snapshot/watermark.rs:31-51 | an event toggles the window if and only if it is a create or commit of the watermark table |
| Watermarks.WindowIsMarkerParity | src/snapshot/watermark.rs:31-51 | after any events the window is open exactly if the number of markers so far is odd |
| Watermarks.ActiveTransaction | src/snapshot/watermark.rs:31-49 | the remembered transaction is that of the marker that opened the window, and none while it is closed |
| Watermarks.ReconciledWhole | src/snapshot/watermark.rs:53-71 | a row left in the chunk is the loaded one, with the row and the time of the last event that wrote its key if there was one, and nothing else of that event |
| Watermarks.WindowExact | src/snapshot/watermark.rs:20-81 | whenever the chunk is read and whatever tables the events belong to, the replica ends equal to the source on the range if and only if every row of the loaded chunk is either still in the chunk and the source's row, or removed where its own table touched the key since, the source has no row, or the replica held it |
| Watermarks.ReadPointExact | src/snapshot/watermark.rs:20-81 | without foreign keys the window converges if and only if every chunk row was read at or ahead of the load point of the log, or touched after it, or left as read by the events in between |
| Watermarks.GapLoadIsLowLoad | src/snapshot/watermark.rs:20-51 | loading the chunk anywhere between the last window and the low marker is the same as loading it just after the marker |
| Watermarks.GapLoadExact | src/snapshot/watermark.rs:20-81 | so for such a load the window converges if and only if every chunk row was read at or ahead of the low marker in the log, or touched after it, or left as read by the events in between |
| Watermarks.HighMarkerReached | src/snapshot/watermark.rs:20-74 | however far the read ran ahead of the log, at the high marker every row left in the chunk is the source's current one and the replica is current |
| Watermarks.WindowConverges | src/snapshot/watermark.rs:20-81 | for any events before and after the load, a read at or ahead of the log position of the load, and any flush order, the replica ends equal to the source on the range, current elsewhere, and keeps what it covered |
| Watermarks.WindowsConverge | src/snapshot/watermark.rs:20-81 | successive windows accumulate their ranges |
| Watermarks.BackfillComplete | src/snapshot/watermark.rs:20-81 | windows whose ranges cover the table, with arbitrary events inside, between and after them, end with the replica equal to the source |
| Watermarks.ForeignEventExact | src/snapshot/watermark.rs:53-71 | with one event of another table under the key of a loaded row, the window converges if and only if a write carries the same row, or, for a delete, the replica already held the row |
| Watermarks.ForeignEventSpoils | src/snapshot/watermark.rs:53-71 | for each of create, update and delete a concrete window with such an event ends stale |
| Watermarks.EarlyReadSpoils | src/snapshot/watermark.rs:20-25 | a concrete window whose chunk was read before the load point brings a deleted row back |
| Watermarks.LateFlushExact | src/snapshot/watermark.rs:42-81 | a flush after further events leaves the replica current if and only if, for every key of the chunk, the last of those events to touch it wrote the chunk's row back |
| ParallelSnapshots.PlanChunks | src/snapshot/parallel.rs:27-42 | chunks of consecutive ids with exact bounds; overflow exactly when the end of the last full-sized chunk plus one passes 64 bits, the count passes 32 bits, or chunks of size zero never get past the first key |
| ParallelSnapshots.PlanTiles | src/snapshot/parallel.rs:32-42 | a key lies in some chunk exactly if it is between 1 and the number of rows, and chunks are disjoint and ascending |
| ParallelSnapshots.PlanSizes | src/snapshot/parallel.rs:32-42 | all chunks but the last have exactly the chunk size, the last no more |
| ParallelSnapshots.CuttingEndsExactly | src/snapshot/parallel.rs:29-42 | integer width aside, the loop ends if and only if the chunk size is positive or there are no rows |
| SnapshotWorkers.ParallelSnapshotter.ClaimNext | src/snapshot/parallel.rs:69-84 | marks and returns the first pending chunk and nothing else, or nothing if none is pending |
| SnapshotWorkers.ParallelSnapshotter.MarkCompleted | src/snapshot/parallel.rs:93-98 | completes the chunk of that id and no other |
| SnapshotWorkers.ParallelSnapshotter.CountCompleted | src/snapshot/parallel.rs:110-114 | the number of completed chunks |
| SnapshotWorkers.ParallelSnapshotter.ProcessChunks | src/snapshot/parallel.rs:50-119 | under any schedule of its workers it reaches the state of the interleaved system and stores completed/total as progress |
| SnapshotWorkers.ClaimedAtMostOnce | src/snapshot/parallel.rs:67-99 | in every interleaving the chunks handed out are exactly those that left Pending, each once and with its own range, a worker holds its chunk as it stands in the list, and no two hold one |
| SnapshotWorkers.StatusesAdvance | src/snapshot/parallel.rs:69-98 | every step moves at most one chunk, one status forward, and never its range |
| SnapshotWorkers.RunsAreBounded | src/snapshot/parallel.rs:68-99 | every run has at most two steps per chunk plus one per worker |
| SnapshotWorkers.StuckMeansJoined | src/snapshot/parallel.rs:105-107 | when no step is possible every worker has exited or died |
| SnapshotWorkers.JoinAccounting | src/snapshot/parallel.rs:62-118 | at join the chunks not completed are those held by dead workers, those stuck from before and those never claimed, none of the last if a worker exited; and exactly when progress is full |
| SnapshotWorkers.EveryRowHandedOnce | src/snapshot/parallel.rs:27-107 | from a fresh plan, if some worker exits normally, every key of the table lies in exactly one of the ranges handed to the processing function |
| RateLimiters.RunIsExact | src/resiliency/rate_limiter.rs:24-41 | after any run the refilled level is the least, over all earlier calls, of capacity plus refill minus grants since, and the next request is granted if and only if every window ending now stays within capacity plus refill |
| RateLimiters.RefilledIsLeastRoom | src/resiliency/rate_limiter.rs:28-33 | the same level for any bucket in step with its history |
| RateLimiters.GrantedIffFits | src/resiliency/rate_limiter.rs:35-40 | granted if and only if the request fits every window |
| RateLimiters.AttemptTracks | src/resiliency/rate_limiter.rs:24-41 | an attempt, granted or not, keeps the bucket in step with its history |
| RateLimiters.WindowBound | src/resiliency/rate_limiter.rs:24-41 | between any two calls of any run no more is granted than one full bucket plus the refill between them; with a negative rate, between any call and a granted one |
| RateLimiters.TokenBucketLimiter.constructor | src/resiliency/rate_limiter.rs:14-21 | starts full, in step with an empty history |
| RateLimiters.TokenBucketLimiter.TryAcquire | src/resiliency/rate_limiter.rs:24-41 | grants exactly the requests that fit and records them |
| RateLimiters.TokenBucketLimiter.Acquire | src/resiliency/rate_limiter.rs:44-68 | a sole caller whose request can ever be granted sleeps at most once, not at all if the request fits at once, and is granted exactly once; the sleep, overrun aside, is the least of a millisecond or more after which the request is granted, and if longer than a millisecond it ends with exactly the tokens asked for |
| RateLimiters.WaitingEndsExactly | src/resiliency/rate_limiter.rs:44-68 | a refused request is granted by some later retry of a sole caller if and only if it fits the bucket and the rate is positive |
| RateLimiters.TenantsDoNotInterfere | src/resiliency/rate_limiter.rs:86-111 | for any interleaving of calls a tenant's bucket and decisions are those of one bucket that sees its own calls only, lazy creation and quota resets included |
| RateLimiters.FirstSeenPlaysDefault | src/resiliency/rate_limiter.rs:104-109 | a tenant seen for the first time is served like a single bucket with the default quota, created full at that call and asked for one token at a time |
| RateLimiters.QuotaStartsAfresh | src/resiliency/rate_limiter.rs:86-97 | after a new quota the tenant is served like a single full bucket with that quota, whatever came before |
| RateLimiters.BurstIsCapacity | src/resiliency/rate_limiter.rs:99-111 | of calls all at the moment of creation exactly as many are allowed as the quota has capacity |
| RateLimiters.TenantQuotaLimiter.SetTenantQuota | src/resiliency/rate_limiter.rs:86-97 | replaces that tenant's bucket with a full one and leaves all others alone |
| RateLimiters.TenantQuotaLimiter.TryAllow | src/resiliency/rate_limiter.rs:99-111 | decides by that tenant's bucket, created with the default quota when missing, and leaves all others alone |
| TenantRouters.PartitionRouter.ResolvePartition | src/router/mod.rs:28-61 | the partition is within range under every strategy |
| TenantRouters.MeetExactly | src/router/mod.rs:33-60 | two events meet on one partition if and only if the hashes of their keys, charged tenants or ids, as the strategy says, agree modulo the number of partitions |
| TenantRouters.ChargedToOne | src/router/mod.rs:88-94 | an event is charged to the tenant its row names, whatever its source database, and only without such a string to the source database |
| TenantRouters.TenantRouter.SetTenantQuota | src/router/mod.rs:77-85 | installs that tenant's quota and changes no other bucket |
| TenantRouters.TenantRouter.RouteEvent | src/router/mod.rs:88-101 | one quota decision on the tenant the event is charged to, whose bucket alone may change; routed exactly if allowed |
| TenantRouters.RoutingDoesNotInterfere | src/router/mod.rs:77-101 | whatever is sent for other tenants, of the same source database or not, and whatever quotas are set, the events whose rows charge one tenant are allowed as by a bucket of its own and all go to its one partition |
| TenantRouters.OthersMayBeAbsent | src/router/mod.rs:77-101 | so where they go is the same if the uses for other tenants never happen |
| Deduplication.DeduplicationFilter.constructor | src/resiliency/dedup.rs:11-17 | an empty filter that has accepted nothing |
| Deduplication.DeduplicationFilter.CheckAndTrack | src/resiliency/dedup.rs:21-36 | an id is reported duplicate if and only if it is among the last `maxCapacity` accepted ids; set and duplicate-free queue stay equal |
| Deduplication.AcceptedWindowDistinct | src/resiliency/dedup.rs:21-36 | any `capacity` + 1 consecutive accepted ids of a stream are distinct |
| Deduplication.EveryIdAccepted | src/resiliency/dedup.rs:21-36 | an id occurs in a stream if and only if it is accepted at least once |
| Deduplication.DistinctStreamAccepted | src/resiliency/dedup.rs:21-36 | a stream without repetitions passes untouched, whatever the capacity |
| SchemaRegistry.RegisterSchema | src/storage/schema.rs:31-42 | an accepted registration replaces the schema of its own source, a refused one changes nothing |
| SchemaRegistry.BackwardHistory | src/storage/schema.rs:31-219 | along any Backward or Full stretch of registrations, refused ones included, an event accepted later was accepted earlier |
| SchemaRegistry.TypeNamesExact | src/storage/schema.rs:172-210 | "integer" admits exactly the whole numbers, "string" the strings, "boolean" the two booleans, "float" the numbers, and any other type nothing |
| SchemaRegistry.KindsApart | src/storage/schema.rs:172-210 | a value one type admits is refused by every type of another kind |
| SchemaRegistry.AcceptsExactly | src/storage/schema.rs:131-219 | an event is accepted if and only if there is no schema, or it is well formed and the event is no create or update or has a row holding every declared field with a value its type admits |
| SchemaRegistry.LastAcceptedInForce | src/storage/schema.rs:31-52 | the schema in force is that of the last accepted attempt; the first attempt and every unrestricted one are accepted |
| SchemaRegistry.RefusalHasReason | src/storage/schema.rs:54-127 | a refusal for a deleted or added field comes with a payload one schema finds valid and the other not, one for a type with a field declared differently, one for a malformed schema with the schema named |
| SchemaRegistry.ForwardHistory | src/storage/schema.rs:31-219 | along a Forward or Full stretch an event accepted earlier is accepted later |
| SchemaRegistry.FullHistory | src/storage/schema.rs:105-123 | along a Full stretch the field types never change |
| SchemaRegistry.CompatibilityExact | src/storage/schema.rs:45-128 | for supported types each mode succeeds if and only if common types agree and the inclusions of valid payloads hold in its direction |
| SchemaRegistry.InclusionIsFieldInclusion | src/storage/schema.rs:155-213 | for agreeing types one schema's valid payloads are all valid under another exactly when the other's fields are among its own |
| SchemaRegistry.Witness | src/storage/schema.rs:155-213 | a payload valid under a schema of supported types that has exactly its fields |
| SchemaRegistry.MoreFieldsAcceptLess | src/storage/schema.rs:132-219 | an event accepted under more fields of the same types is accepted under fewer |
| PostgresSource.ResumeIsSuffix | src/source/postgres.rs:61-108 | the stream resumed from the offset of event k is the suffix after k of the whole stream, timestamps aside |
| PostgresSource.BlocksOfFour | src/source/postgres.rs:72-103 | two events share a transaction exactly if they are in one block of four, whose last event is its only commit |
| PostgresSource.StreamContents | src/source/postgres.rs:72-105 | each block of four is a create, two updates and a commit of one transaction of the users table, every mutation with the row of its own number and the commit with none |
| PostgresSource.StreamKeysDistinct | src/source/postgres.rs:92 | no two events share a key |
| PostgresSource.UnreadableStartsOver | src/source/postgres.rs:61-63 | an offset that is no number counts as none: the stream starts from the beginning |
| StateStores.KeysApart | src/storage/mod.rs:30-59 | keys of two sources, or of an offset and a schema, never coincide |
| StateStores.StateStore.constructor | src/storage/mod.rs:23-28 | an empty store |
| StateStores.StateStore.SaveOffset | src/storage/mod.rs:30-34 | the offset of that source is read back; every other offset and every schema is unchanged |
| StateStores.StateStore.SaveSchema | src/storage/mod.rs:47-56 | the same for schemas |
| Decimal.ParseToText | src/source/postgres.rs:61-63 | writing and parsing a number are inverse exactly on the 64-bit range |
| Decimal.ParseLenient | src/source/postgres.rs:61-63 | a plus sign or a leading zero does not change the number |
| Decimal.ParseStrict | src/source/postgres.rs:61-63 | anything but digits after an optional plus sign, or no digits, is no number |
| Decimal.DenotesToText | src/source/postgres.rs:104 | the digits written for a number denote that number |
| Decimal.ToTextInjective | src/source/postgres.rs:104 | distinct numbers have distinct offsets |
| ConfluentRegistry.IdsSharedExactly | src/storage/confluent.rs:20-41 | in every interleaving of concurrent calls, however many, two subjects share an id if and only if two assignments a multiple of 2^32 apart were for different subjects |
| ConfluentRegistry.IdsNeverShared | src/storage/confluent.rs:20-41 | so up to 2^32 assignments equal returned ids mean equal subjects |
| ConfluentRegistry.OneIdExactly | src/storage/confluent.rs:20-41 | in every interleaving all calls for a subject return one id if and only if its assignments lie multiples of 2^32 apart, so up to 2^32 assignments if and only if it was assigned an id at most once |
| ConfluentRegistry.OneIdExactlyWithoutOverlap | src/storage/confluent.rs:20-41 | a subject keeps one id whenever no two of its calls are ever past the cache lookup together, and once none of its calls is left waiting only then |
| ConfluentRegistry.OneSubjectMayGetTwoIds | src/storage/confluent.rs:20-41 | two overlapping calls for one subject can be given two ids |
| ConfluentRegistry.ConfluentRegistryClient.RegisterSchema | src/storage/confluent.rs:20-41 | called one at a time a known subject keeps its id for good, a new one takes the next, and no other entry changes |
| ConfluentRegistry.ConfluentRegistryClient.EncodeWireFormat | src/storage/confluent.rs:47-53 | builds the frame, which decodes back to id and payload |
| ConfluentRegistry.FramingIsInverse | src/storage/confluent.rs:47-71 | a buffer decodes to an id and payload if and only if it is their frame |
| ConfluentRegistry.FrameLayout | src/storage/confluent.rs:47-53 | a frame is a zero byte, four bytes of id and the payload as it is |
| ConfluentRegistry.BigEndian | src/storage/confluent.rs:50 | ids are ordered as their four bytes are: most significant byte first |
| ConfluentRegistry.OthersRefused | src/storage/confluent.rs:56-71 | decoding fails on exactly the buffers that are no frame |
| Backoff.RetryWithBackoff | src/source/mod.rs:45-80 | stops at the first success or the last permitted attempt, never more than max(1, limit) calls, with the stated sleep between each two |
| Backoff.DelayClosedForm | src/source/mod.rs:57-76 | for a multiplier of at least one the k-th delay before jitter is the initial delay times the (k-1)-th power of the multiplier, capped unless it is the first |
| Backoff.JitterSteps | src/source/mod.rs:67-70 | the factor starts at 0.75, grows by a two-thousandth with each clock reading and falls back every thousand |
| Backoff.Connector.Connect | src/source/postgres.rs:40-59 | connecting always succeeds, after exactly the outages that are left, sleeping 50 and then 100 milliseconds with jitter |
| ConflictResolution.WinnerIsFirstLatest | src/sync/mod.rs:48-58 | folding a stream leaves the earliest among the events with the greatest timestamp |
| ConflictResolution.ConvergesExactlyWithoutTies | src/sync/mod.rs:48-58 | replicas agree for every order of the events if and only if no two different events share the greatest timestamp |

## Left out

- RocksDB, Kafka, stdout, metrics and log output: I/O. The store is a map, sinks and dead letters are sequences; storage and send errors are premises of the delivery theorems.
- Wasm execution, the plugin registry and the JSON codec: the transformer is any partial function that keeps the offset, JSON is a datatype, and a key is its canonical text.
- The election loop, leases and heartbeats (`src/consensus`): one node and a timer; leadership at a pull is part of the step.
- Rate limiting, partition choice and the 100 ms pause inside the ingest loop: they delay or report and do not change what is delivered.
- Stream errors and a failed start end the ingest loop; the source yields none once connected, and the model has none.
- Crashes in the middle of a loop body: in the state machine only. `IngestTask.Restart` happens between two events.
- `process_chunks` runs its workers concurrently; `ProcessChunks` takes the interleaving as its schedule argument, and the lemmas quantify over all of them.
- IngestTask.Run: reads a finite log to its end, where the source never ends.
- ParallelSnapshots.PlanChunks: an overflow ends the loop with `None`, as it ends a debug build; a release build wraps around instead.
- RateLimiters.TokenBucketLimiter.Acquire: assumes the bucket's only user and a request that some retry will grant; `WaitingEndsExactly` says which requests those are, for all others the loop has no end (with a rate of zero the sleep itself panics).
- Float rounding and the range of `Duration`: reals, with the clock an input that does not go back.
- The two lock sections of `try_allow`: one step, since the second looks the tenant up again under the write lock.
- ConfluentRegistry.OneIdExactlyWithoutOverlap: that an overlap gives two ids holds up to 2^32 assigned ids. Ids wrap as in a release build; a debug build panics.
- The 64-bit sequence counter of the Postgres source: unbounded here, and logs are shorter than 2^64.
- SchemaRegistry.CheckCompatibility: error kinds only, without the field named in the message; which of several offending fields is reported follows the iteration order of the source.
- Nothing is proved of the Cassandra source, the command line, encryption and key management, `DlqRecord` formatting, `should_forward` and `register_peer`: thin or without a counterpart to relate them to.
