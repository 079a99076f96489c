# Verified models of ai-viewer's ingest, notification and parity cores

This project models the parts of ai-viewer whose correctness no finite set of examples settles, and proves what
they keep over every run. SQL tables are sequences, maps and sets of rows; a transaction is one step that commits or
rolls back; a fault of the database, a cancelled context, a reader that runs concurrently and a timer that fires late
are choices the proofs hold for, whichever way they fall.

## What is modelled

**Views over the ops table.** `PrimaryRows` has the op upsert and finalize. Four kinds of derived rows are kept in step
with it, each with a plain definition and the code's own deltas or dirty sets proved against it:

- `Catalog`, `CatalogMeaning`, `CatalogWriter`: the provider, model and tool tables as group-bys, kept by moving an op's contribution
  when its identity changes.
- `RollupRows`, `RollupMeaning`, `RollupFold`, `RollupMarks`, `RollupWriter`, `RollupProtocol`, `RollupBackfill`, `RollupParity`: hourly
  and daily rows as ordered folds per bucket, format, dimension and value; the carried buckets of several writers;
  batches, idle refreshes, repairs and a day-by-day rebuild in any interleaving; incremental equals rebuilt.
- `Aggregates`, `AggregatesMeaning`, `PricingBackfill`: turn and session sums, and the reprice pass.
- `Keyset`, `Fts`, `FtsRebuild`, `FtsLogs`: the full-text indexes of ops and logs, incrementally refreshed, rebuilt page
  by page while batches commit, or repaired for one source.

**Flush and retry.** `BatchCaches` and `FlushRuntime` have the per-batch caches, the transaction, the bounded retry, the
drop with a report and the durable cursor of a source's worker; `EventRows` what each event does to the rows; `Coalescer` has the flush that shares one transaction
among sources, with the caches its writers keep when it fails.

**The event hub.** `HubIds`, `HubRing`, `HubFeed`, `HubProtocol`, `HubCalls` and `Hub`: ids, the replay ring, the drop-oldest channel
with a concurrent reader, a state machine over every call, late timer and late removal hook, and the hub itself as a
class proved to make exactly that machine's steps.

**Session tree, liveness, extras.** `Resolver` links parents and roots; `TailLiveness` has the one-outstanding-request
heartbeat protocol and the compare-and-set rows; `ExtrasGraft` has the extras column under re-emits and synthetic starts.

**Parity evaluation.** `JsonPointer` evaluates pointers as sections 3 and 4 of RFC 6901 define them; `Snapshot` has the
ai-agent v2 extractor's traversal and the pointers it emits, `SnapshotArtifacts` that it makes
exactly the artifacts of the tree, `SnapshotPointers` that the pointers differ; `LineIndex` reads a line by scan or through a cached index.

Where the code updates state in place the model is a class or a loop, proved equal to a specification function; the
properties are lemmas about those functions. What the functions mean is said once more apart from them, column by
column over the stored rows or in terms of what was logged, and proved equivalent: the modules named `...Meaning`,
`EventRows`, `HubCalls` and `SnapshotArtifacts`, and the lemmas of that kind in the other modules.

## Where the code falls short

The models follow the code. These properties fail, and the lemma named gives the exact condition under which they hold:

- Rollup marks: sessions first seen through an event other than SessionStarted or OpStarted, and ops re-emitted in
  another hour so as to move or change a dimension, leave a bucket stale that nobody carries
  (`RollupMarks.MarksCoverExactly`, and bucket by bucket `RollupMarks.MarksBucketExactly`). The statements about whole
  runs are about each bucket that no committed event changes in one of these ways.
- The coalescer returns from a failed attempt without resetting the writers. A later suppressed attempt then forgets a
  bucket it never stored (`RollupProtocol.RetryWithoutReset`), and cached ids of rolled-back sessions or turns make some
  batch end differently (`BatchCaches.CachesHarmlessIff`, for one event `BatchCaches.CachedIsPlainIff`), often so that
  a batch of several sources can only be dropped (`BatchCaches.RetrySucceedsIff`, `Coalescing.RetryCommitsIff`).
- An idle refresh tests the rebuild flag before it opens its transaction, so it can run inside a rebuild and have its
  hour or day overwritten from the snapshot (`RollupParity.SlippedRefreshExactly`, `RollupParity.RelabelledStartIsLost`).
- A reprice pass issues its insert of a full batch while its cursor holds the store's one connection, so with a
  thousand or more ops to price it waits for itself until it is cancelled; and one LLM op with a model and tokens but no
  provider makes it fail. Either way nothing is repriced (`PricingBackfill.BackfillPricing`,
  `PricingBackfill.FullBatchBlocks`, `PricingBackfill.BlankProviderFails`).
- The rebuild of the log index fails, and with it the rebuild of all read models, when an indexable log is committed
  while it runs: such a log is indexed at once, and the rebuild inserts it again (`FtsLogs.LogRebuildFailsIff`).
- The removal hook is given only the id, and after the lock is released: it can drop the state of a subscription that
  was meanwhile added under the same id (`HubProtocol.HookMeetsNewcomer`, `HubProtocol.LateHook`).
- A resolver pass keeps signalling a parentless session whose stash names another stored session as root, although the
  table no longer changes (`Resolver.SecondPass`).
- A reprice leaves the catalog behind (`PricingBackfill.RepriceLeavesCatalog`).
- A log without a text message is given a pointer that does not lead to its text (`Snapshot.LogResolvesIff`).
- The line index fails a whole file for one overlong line, the scan only from that line on (`LineIndex.IndexIsScanIff`).
- The comment on Attach promises exactly the missed events, then live ones; what is still in the channel comes between
  them and is repeated (`HubProtocol.ReplayRepeatsQueued`).

## Model

| member | source | states |
|---|---|---|
| `PrimaryRows.ApplyKeepsUnique` | internal/ingest/writer.go:1228-1270 | An op upsert or finalize keeps row ids unique, keeps every row in its place and never deletes one |
| `PrimaryRows.EventWrites` | internal/ingest/writer.go:1228-1442 | An op start or finalize writes exactly the columns of its op's row that the statement names, each spelled out (coalesced identities, earliest start, status, end and duration when start and end are known and in order, cost), adds a row only for a start that finds none, and leaves every other row in its place |
| `Catalog.EffectiveIdentityIsStored` | internal/ingest/catalog_migrate.go:75-90 | The identity the migration is driven by is exactly the one the upsert stores, whatever the re-emit left empty |
| `Catalog.StartedKeepsView` | internal/ingest/catalog.go:87-145 | An OpStarted (new, re-emitted, or with a changed identity or kind) takes a table that is the group-by of ops to the group-by of the new ops; no catalog row disappears |
| `Catalog.FinalizedKeepsView` | internal/ingest/catalog_finalize.go:90-115 | A finalize, first or repeated or orphan, does the same by its difference, and adds no row |
| `Catalog.RunKeepsView` | internal/ingest/catalog.go:87-225 | Over every run of started and finalized events each catalog row is the sum over the ops whose current identity keys to it, and every such key has a row |
| `Catalog.EmptiedRowIsZero` | internal/ingest/catalog_migrate.go:146-157 | A row no op keys to any more stays, with every counter at zero |
| `Catalog.ReplayChangesNothing` | internal/ingest/catalog_migrate.go:102-189 | Emitting an event twice changes neither ops nor any catalog table |
| `Catalog.EachOpIsCountedOnce` | internal/ingest/catalog.go:116-121 | The call counts of a table add up to the number of ops that have a key in it |
| `CatalogMeaning.GroupSumMeans` | internal/ingest/catalog_finalize.go:29-75 | Each counter of a catalog row is the plain count or sum of its column over the ops that belong to it: failures are those with status failed, tools have no cache columns, providers no duration |
| `CatalogMeaning.RunMeans` | internal/ingest/catalog.go:87-225 | After any run of op events from an empty store a row is there for every provider, model or tool that an op names, and whatever row is there is that count and those sums over the ops as they are |
| `CatalogWriting.CatalogWriter.OnOpStarted` | internal/ingest/catalog.go:87-145 | The in-place remove, upsert and re-add on the three tables leave each exactly as the specification's step does |
| `CatalogWriting.CatalogWriter.OnOpFinalized` | internal/ingest/catalog.go:209-225 | The in-place finalize updates leave each table as the specification's step does |
| `CatalogWriting.OpWriter.ApplyBatch` | internal/ingest/writer.go:1083-1092 | A whole batch of op events leaves ops as specified and all three tables equal to their group-bys |
| `OrderedRows.FilterSort` | internal/ingest/rollup_backfill.go:346-367 | Restricting an ordered read to a window gives the same rows in the same order as ordering the window: one read per day folds like one read per bucket |
| `RollupRows.RowsForCell` | internal/ingest/rollup_backfill.go:224-263 | The rows of a bucket, format and dimension depend only on the ops and session starts in that bucket and format, in order, so a split of a day's read changes no fold |
| `RollupRows.HitIff` | internal/rollups/rollups.go:141-237 | A row exists exactly when some op or some session start of its bucket contributes to its dimension value |
| `RollupRows.FoldCounts` | internal/rollups/rollups.go:193-208 | The op count of a folded row is the number of ops that contribute to it |
| `RollupRows.BucketBounds` | internal/rollups/rollups.go:111-121 | A timestamp lies in the span of its bucket, negative timestamps included |
| `RollupRows.ClosedMeansWhole` | internal/ingest/rollup_refresh.go:56-65 | A timestamp's bucket is before an open bucket exactly when the timestamp is before that bucket's start |
| `RollupMeaning.RowMeans` | internal/rollups/rollups.go:141-237 | A row exists exactly when an op or a session start counts in it (hour or day, format, kind and value of the dimension spelled out), and its columns are the number of those ops, the sums of their four token columns, the number that failed, the summed durations of those that ended, their costs in the order read, and the number of those starts |
| `RollupMeaning.FactsAreTheOps` | internal/ingest/rollup_backfill.go:346-367 | The fold reads every op once, with its source's format and its session's agent and directory, by start time and then by row id |
| `RollupMeaning.FreshMeans` | internal/rollups/rollups.go:141-237 | So every row that the tables should hold is those counts and sums over the op and session tables |
| `RollupMeaning.EventWritesTables` | internal/ingest/writer.go:690-920 | What an event writes of the tables the rollups read: the labels of its session, only ever replaced by non-blank ones and not by a synthetic start when the row has its own, the earliest start, a stub at the event's time, and of the ops only what its op event writes |
| `RollupMeaning.MarkedTimesAre` | internal/ingest/writer.go:825-852 | Which start times an event marks: its own for a session or op start, the stored one for an op finalize, the old one of a session that moves back, and with new labels the session's and all its ops'; and no others |
| `RollupFold.Rollup` | internal/rollups/rollups.go:141-237 | One pass over ops and starts, with accumulators updated in place, yields exactly the defined rows; cost is an uninterpreted left fold, so nothing is assumed of float addition |
| `RollupMarks.MarksCoverExactly` | internal/ingest/writer.go:685-854 | An event marks, for both granularities, every bucket whose rows it changes if and only if it makes no session stub on a path that marks nothing and re-emits no op in another hour so as to move it or change a dimension |
| `RollupMarks.MarksBucketExactly` | internal/ingest/writer.go:685-854 | Bucket by bucket: an event changes an hour or day of a format without marking it if and only if it makes an unmarked stub that starts there, or re-emits from another bucket an op that was there |
| `RollupMarks.StubIsUnmarked` | internal/ingest/writer.go:1845-1876 | A stub session made on a path that marks nothing (a finalize, a log, a payload, a turn, an update without agent or cwd) leaves its start hour and its start day stale and unmarked |
| `RollupMarks.MoveIsUnmarked` | internal/ingest/writer.go:1279-1293 | An OpStarted re-emitted with a timestamp in another bucket, which moves the op there or changes a dimension of it, leaves the op's old bucket stale and unmarked |
| `RollupWriting.RollupWriter.ApplyBatch` | internal/ingest/writer.go:685-935 | Applying a batch to the tables and the carried sets marks exactly the buckets of the specification, for hours and days |
| `RollupWriting.RollupWriter.RecomputeBucket` | internal/ingest/rollup_refresh.go:158-178 | Delete, window read, fold and insert leave the bucket's groups of the format as defined and every other group untouched |
| `RollupWriting.RollupWriter.RefreshRollups` | internal/ingest/rollup_refresh.go:56-147 | The two passes over the carried sets recompute exactly the closed carried buckets and stage exactly those for removal |
| `RollupWriting.RollupWriter.PromoteMaterializedRollupBuckets` | internal/ingest/writer.go:578-585 | After a commit the bucket-by-bucket deletion leaves exactly the carried buckets that were not staged |
| `RollupWriting.RollupWriter.RefreshRollupsOnly` | internal/ingest/worker.go:276-315 | The idle refresh is one step of the protocol: recompute, commit and forget, or no change but the reset |
| `RollupWriting.RollupWriter.Flush` | internal/ingest/worker.go:82-221 | A batch flush is one step of the protocol: it commits rows, refresh and forgetting together, or rolls back and keeps only the marks |
| `RollupProtocol.StepCovers` | internal/ingest/rollup_refresh.go:116-178 | In any step (batch committed, rolled back or suppressed, idle refresh, per-bucket repair) of any of several writers, a bucket that was carried by some writer of its format or stored right is still so, unless the step commits an event that changes this bucket unmarked |
| `RollupProtocol.RunCovers` | internal/ingest/worker.go:276-315 | The same over every interleaving of such steps, for every bucket that no committed event of the run changes unmarked |
| `RollupProtocol.EmptyCovers` | internal/ingest/rollup_refresh.go:56-65 | An empty store starts out covered |
| `RollupProtocol.ForgottenIsStored` | internal/ingest/writer.go:571-585 | A writer forgets a bucket only in its own committed transaction, and then the bucket is stored right |
| `RollupProtocol.BatchRuns` | internal/ingest/worker.go:82-221 | A batch always gets its work done: committed, its rows land, and its writer carries what it carried and marked less the closed buckets, which are stored right if it refreshed; rolled back, no table changes and only the marks stay; other writers and other groups are untouched |
| `RollupProtocol.IdleRuns` | internal/ingest/worker.go:276-315 | An idle refresh that commits leaves every closed bucket its writer carried stored right and forgotten, and nothing else changed; one that rolls back or is suppressed changes nothing |
| `RollupProtocol.RepairRepairs` | internal/ingest/read_model_repair.go:193-208 | A committed repair of one bucket leaves its groups stored right and everything else as it was |
| `RollupProtocol.ClosedIsOver` | internal/ingest/rollup_refresh.go:56-65 | A bucket is closed at a clock reading exactly when its hour or day is over |
| `RollupProtocol.RetryWithoutReset` | internal/ingest/coalescer.go:341-348 | Without the reset after a failed attempt, a stale bucket only this writer carries is still covered after the retry if and only if read-model refresh is not suppressed by then |
| `RollupBackfill.DayRowsAreFresh` | internal/ingest/rollup_backfill.go:224-263 | For a closed bucket whose session starts are those of the snapshot, one day's ordered read with independent open-hour and open-day cutoffs yields exactly the bucket's defined rows |
| `RollupBackfill.DayRowsAreFold` | internal/ingest/rollup_backfill.go:224-263 | Whatever the snapshot holds, the day's read gives a closed bucket the fold over all ops with the snapshot's session starts |
| `RollupBackfill.FlushAt` | internal/ingest/rollup_backfill.go:492-516 | A day's flush writes only groups of that day, at both granularities |
| `RollupBackfill.UnlistedIsEmpty` | internal/ingest/rollup_backfill.go:280-312 | A closed bucket whose day is not on the list has no rows to store |
| `RollupBackfill.RebuildCovers` | internal/ingest/ingester.go:793-827 | A rebuild (truncate, snapshot, list of days, a transaction per day) interleaved in any way with batches that commit with refresh suppressed ends with every bucket closed at its cutoff carried or stored right, whatever the tables held before, if no event committed meanwhile changes it unmarked |
| `RollupParity.RebuiltIsRight` | internal/ingest/rollup_backfill.go:59-125 | A rebuild with nothing else running stores every closed bucket of every format as defined |
| `RollupParity.StepKeepsOnlyClosed` | internal/ingest/rollup_refresh.go:116-147 | While the clock does not run backwards no step stores rows of an open bucket |
| `RollupParity.RunKeepsOnlyClosed` | internal/ingest/rollup_refresh.go:116-147 | So no run whose clock readings are at most now leaves rows of a bucket that is open at now |
| `RollupParity.DrainedRunIsRebuilt` | internal/ingest/rollup_backfill.go:59-125 | After any run from the empty store with clock readings at most now, a group whose bucket is open, or is carried by nobody and was never changed unmarked, has exactly the rows a rebuild from scratch at now gives it, cost terms included |
| `RollupParity.DrainedTablesAreRebuilt` | internal/ingest/rollup_backfill.go:59-125 | Once every closed bucket is drained, the incremental hourly and daily tables are those of the rebuild, group for group |
| `RollupParity.SlippedRefreshExactly` | internal/ingest/worker.go:276-306 | An idle refresh that tested the rebuild flag before the rebuild raised it stores an hour or a day after the snapshot; then come any suppressed batches and other days' flushes, and then the flush of the bucket's day: it leaves the bucket carried or right if and only if a batch has marked the bucket since, or every row the flush writes for it counts as many session starts in the snapshot as there are by then |
| `RollupParity.RelabelledStartIsLost` | internal/ingest/worker.go:276-306 | An input: one session starts in the bucket, in the snapshot and by the time of the flush, but under another agent; the bucket is left wrong although the number of starts is the same |
| `RollupParity.UnchangedStartsAreKept` | internal/ingest/worker.go:276-306 | Whatever the tail-collapse does, the bucket is kept if by the time of the flush its session starts are those of the snapshot |
| `RollupParity.NothingWrittenIsKept` | internal/ingest/worker.go:276-306 | And if by then no op starts in it and no session did in the snapshot, however many do |
| `BatchCaches.CachedIsPlain` | internal/ingest/writer.go:1845-1876 | With caches that hold only stored sessions and turns, every event does exactly what it does with a SELECT and a turn insert each time, and the caches stay so |
| `BatchCaches.CachedIsPlainIff` | internal/ingest/writer.go:1160-1184 | For an event that succeeds without caches, the cached path gives the same tables if and only if it hits no cached session or turn that is not stored |
| `BatchCaches.CachesHarmlessIff` | internal/ingest/writer.go:1160-1184 | Caches give every batch, failing ones included, the result it has without them if and only if every session and turn they hold is stored |
| `BatchCaches.CachesFill` | internal/ingest/writer.go:1160-1184 | After a batch the caches hold, besides what they held, exactly the sessions its events resolved and the turns its op starts made |
| `EventRows.PlainDoes` | internal/ingest/writer.go:1000-1442 | What an event does to the sessions, turns, ops and log entries, row by row and column by column, and that it is refused exactly when it names no session or points to a parent op, turn or op that is not stored |
| `EventRows.LastFinalizeSettles` | internal/ingest/writer.go:1412-1431 | Whatever else a batch holds, an op stored before it ends with the status of its last finalize, or completed, and with its end when that is not before the start |
| `BatchCaches.RetrySucceedsIff` | internal/ingest/coalescer.go:341-348 | Through caches that a failed attempt filled, a batch applies if and only if it does without caches and every insert under a session or turn that is cached but not stored comes after an event that stores it |
| `FlushRuntime.BatchWriter.Apply` | internal/ingest/writer.go:603-683 | Dispatching one event through the in-place caches does what the specification of the cached event says |
| `FlushRuntime.BatchWriter.Flush` | internal/ingest/worker.go:82-131 | For a fault at any point: the transaction commits exactly when nothing fails, and then each event has done its part to the rows, the last finalize of every stored op stands, and the cursor is the batch's last one; otherwise tables and cursor are as before |
| `FlushRuntime.WorkerRuntime.FlushBatchWithWriteContext` | internal/ingest/worker_runtime.go:160-221 | Given what each attempt will meet: the batch is committed whole by the first attempt that does not fail, or dropped after exactly four failures with a report of its size, or kept with a replay-required report exactly when the context is found cancelled first |
| `FlushRuntime.WorkerRuntime.HandleEvent` | internal/ingest/worker_runtime.go:95-101 | Accepts one event; below the batch size it grows the batch and the timer is armed, at the size the batch is settled or kept and reported for replay; accepted events stay those committed, reported dropped or in the batch, in order |
| `FlushRuntime.WorkerRuntime.HandleTimer` | internal/ingest/worker_runtime.go:103-111 | The timer accepts nothing, settles the batch or keeps and reports it, and keeps the same account |
| `FlushRuntime.WorkerRuntime.HandleCancel` | internal/ingest/worker_runtime.go:80-85 | On cancellation the whole channel and a late event are accepted, in order, nothing is left unreported, and the same account holds |
| `FlushRuntime.WorkerRuntime.HandleClose` | internal/ingest/worker_runtime.go:87-93 | On a closed channel the batch is settled or kept and reported, and the same account holds |
| `FlushRuntime.CursorIsSafe` | internal/ingest/worker.go:426-461 | The durable cursor is that of a settled progress event: everything accepted before it is committed or reported dropped, and what is pending comes after it |
| `Coalescing.GroupBySource` | internal/ingest/coalescer.go:318-326 | The groups are the sources of the batch, in the order in which they first come up in it, each with exactly its own events in order |
| `Coalescing.FlushBatch` | internal/ingest/coalescer.go:302-371 | One transaction through the writers' caches, whatever they hold: committed, every registered source's events are applied in order and its writer is reset, and with backed caches each event has done its part to the source's rows and the last finalize of every stored op stands; failed, no table changes and the writers keep what the attempt cached up to where it stopped; without a database fault it commits exactly when every source's events apply |
| `Coalescing.SourcesStayApart` | internal/ingest/coalescer.go:298-301 | Over every run in which every writer's caches are backed when a flush begins, a source's tables are those of its own committed events alone, as if it had a worker of its own |
| `Coalescing.ResetKeepsSourcesApart` | internal/ingest/worker_runtime.go:185-221 | With a reset after every failed flush, as the worker runtime performs, that is every run, whatever fails and whoever is unregistered |
| `Coalescing.RetryCommitsIff` | internal/ingest/coalescer.go:341-348 | Without it: unless the database fails, a flush commits if and only if, for every registered source, its events apply without caches and none inserts under a session or turn that an attempt cached and that is not stored, before an event that stores it |
| `Resolver.SessionRoots` | internal/ingest/resolver.go:379-387 | The recursive query, as a worklist, terminates on every parent graph and returns exactly the sessions whose parent chain ends, each with the top of its chain |
| `Resolver.OneTop` | internal/ingest/resolver.go:379-387 | A parent chain has at most one top |
| `Resolver.SessionTree.LinkParents` | internal/ingest/resolver.go:321-349 | Row by row: every parentless session whose stash names, as parent, a stored session of its source gets exactly that parent and no other row or column changes; a session is signalled if and only if it was already, or it is a changed row, its new parent or its root |
| `Resolver.SessionTree.LinkExplicitRoots` | internal/ingest/resolver.go:353-374 | Every session that is its own root and whose stash names, as root, another stored session of its source gets exactly that root and no other row or column changes; the changed rows and their roots are signalled |
| `Resolver.SessionTree.LinkOrphans` | internal/ingest/resolver.go:321-409 | After a pass the named parents are set, and every session whose parent chain ends has the top of the chain as root whatever it had before; the others keep their root or take the stored session their stash names as root; exactly the rows that a statement changed, with their roots and (but for explicit roots) parents, are signalled |
| `Resolver.SecondPass` | internal/ingest/resolver.go:353-409 | A second pass leaves the sessions as they are, and signals some session if and only if some parentless session names another stored session as its root |
| `Aggregates.SumExchange` | internal/ingest/aggregates.go:57-83 | Summing a session's ops turn by turn and then over its turns is summing over its ops |
| `Aggregates.OpWriteHolds` | internal/ingest/writer.go:1279-1293 | An op write changes the sums of no turn and session other than the ones it marks |
| `Aggregates.RefreshIsRight` | internal/ingest/aggregates.go:17-83 | The refresh, turns first, makes every turn and session row right |
| `Aggregates.RunIsRight` | internal/ingest/aggregates.go:17-83 | After every flush, committed or rolled back, each turn's tokens, cost and op count are the sums over its ops, and each session's the sums over all its ops with the number of its turns and of its failed ops |
| `AggregatesMeaning.RunMeans` | internal/ingest/aggregates.go:39-83 | After every flush, in terms of the op rows alone: the ops are those that the committed events wrote, every session and turn an event names has a row, and each row's four token columns, cost and op count are the sums and the count over its ops, a session's turn and failure counts the numbers of its turns and of its ops with status failed |
| `Aggregates.AggregateStore.RefreshAggregates` | internal/ingest/aggregates.go:17-83 | The two in-place updates of the dirty rows give the specified refresh |
| `Aggregates.AggregateStore.FlushEvents` | internal/ingest/worker.go:82-131 | A flush applies its events and refreshes, or leaves everything as it was; the dirty sets are empty afterwards |
| `PricingBackfill.Repricer.StagePrices` | internal/ingest/pricing_backfill.go:51-104 | The scan completes if and only if every op to price has a provider and fewer than a batch of them get a price, and then the temp table holds exactly those ops with their prices, in order; it is stuck on its own connection if and only if a batch fills before a row that does not scan |
| `PricingBackfill.Repricer.UpdateOps` | internal/ingest/pricing_backfill.go:111-117 | The join gives each staged op its price and changes no other op |
| `PricingBackfill.BackfillPricing` | internal/ingest/pricing_backfill.go:34-134 | The pass gets anywhere if and only if every LLM op without cost, with tokens and a model, has a provider and fewer than an insert batch of them (1000 in the code) get a price; then it is the specified repricing, and stops before the cascade when nothing was priced; otherwise nothing is repriced |
| `PricingBackfill.RepriceWrites` | internal/ingest/pricing_backfill.go:51-173 | Row by row: if the pass gets through, exactly the LLM ops with a model and tokens and no cost whose price, for their start and their own four token counts, is not zero get that price; nothing else in any op changes, and of turns and sessions only costs; if not, nothing changes |
| `PricingBackfill.BlankProviderFails` | internal/ingest/writer.go:1244-1268 | An input: an LLM op started with a model and no provider and finalized with tokens and no cost is stored so that every later pass fails, whatever the pricer |
| `PricingBackfill.FullBatchBlocks` | internal/ingest/pricing_backfill.go:67-98 | An input: a backlog of n ops that all scan and all have a price is repriced if and only if n is smaller than the insert batch, because the insert of a full batch waits for the one connection that the open cursor holds |
| `PricingBackfill.RepriceKeepsRight` | internal/ingest/pricing_backfill.go:142-173 | If every turn and session column was right, all are right after a pass, the cost columns with the new prices if it got past its cursor |
| `PricingBackfill.RepriceLeavesCatalog` | internal/ingest/pricing_backfill.go:111-122 | With prices that are never negative, a right catalog table is right after a pass if and only if the pass got nowhere or no op it priced has a row in the table |
| `Keyset.PageIsPage` | internal/ingest/fts_backfill.go:123-131 | A keyset page holds the smallest keys above the cursor, each once and in order, and a short page leaves nothing behind |
| `Fts.WriteBehind` | internal/ingest/writer.go:1444-1452 | An op write leaves only its own, marked, op behind in the index |
| `Fts.FtsStore.ReindexOp` | internal/ingest/fts_refresh.go:85-109 | Delete and insert replace exactly the op's own entry with its final text; an op without a row changes nothing |
| `Fts.FtsStore.FlushOps` | internal/ingest/fts_refresh.go:68-78 | After every flush, committed or not, the index has one entry per op, equal to its projection |
| `Fts.FtsStore.BackfillFtsOps` | internal/ingest/fts_backfill.go:156-182 | With nothing committing meanwhile: for any page size the rebuild terminates, visits every op exactly once, never inserts over an existing entry, and ends with one entry per op equal to its projection |
| `Fts.OneProjection` | internal/ingest/fts_backfill.go:28-55 | The projection has one answer, so the incremental index and the rebuilt one are the same |
| `Fts.ProjectionMeans` | internal/ingest/fts_refresh.go:18-44 | The projection column by column: an entry for exactly the rowids of ops, with the op's name, model, provider, tool namespace and ids, and its error class and message with one space between when it has both |
| `Fts.FtsStore.RepairSourceFtsOps` | internal/ingest/fts_backfill.go:184-210 | The nested keyset repair visits every op of the source exactly once and counts them, makes each of their entries right and changes no entry of another source |
| `FtsRebuild.RebuildIndexes` | internal/ingest/fts_backfill.go:156-182 | However batches commit between the pages, and between loading a page and inserting it: no page is inserted over an existing entry, and at the end every op is indexed with its current text unless its source is marked for a repair |
| `FtsRebuild.RepairsComplete` | internal/ingest/ingester.go:785-792 | Repairing the marked sources, in any order, then makes the index one entry per op, equal to its projection |
| `FtsRebuild.RunCommits` | internal/ingest/fts_backfill.go:156-182 | The scan writes no op: the ops are those the commits wrote, and marked are the sources that committed |
| `FtsRebuild.ScanEnds` | internal/ingest/fts_backfill.go:156-182 | Left alone, the scan ends, from wherever it has got to |
| `FtsLogs.LogRebuildFailsIff` | internal/ingest/fts_backfill.go:433-463 | The log rebuild, with batches committing in between and indexing their own logs: once it has ended it has failed if and only if an indexable log was committed between the wipe and the loading of some page; otherwise every indexable log has its one entry |
| `FtsLogs.ScanEnds` | internal/ingest/fts_backfill.go:437-463 | Left alone, the log rebuild ends, one way or the other |
| `TailLiveness.OneOutstanding` | internal/ingest/tail_liveness.go:46-67 | At most one persist request per source is outstanding anywhere, and one is exactly when queuedUS is set |
| `TailLiveness.Liveness.Record` | internal/ingest/tail_liveness.go:48-67 | A heartbeat is recorded; a request is made exactly when none is outstanding and the last persisted one is old enough |
| `TailLiveness.Liveness.Offer` | internal/ingest/tail_liveness.go:89-96 | The request enters the bounded queue exactly when there is room, and is otherwise refused |
| `TailLiveness.Liveness.Clear` | internal/ingest/tail_liveness.go:98-106 | A refused request is forgotten and the source may ask again |
| `TailLiveness.Liveness.PersistTailHeartbeat` | internal/ingest/tail_liveness.go:185-225 | The write moves a source from stale to tailing or refreshes a tailing one, and notifies exactly once per change of state |
| `TailLiveness.Liveness.Finish` | internal/ingest/tail_liveness.go:108-128 | Persisted times never decrease; a heartbeat that came meanwhile and is far enough ahead is asked for at once |
| `TailLiveness.Liveness.StaleSources` | internal/ingest/tail_liveness.go:227-259 | The watchdog picks exactly the tailing sources heard from neither in the row nor live within the limit |
| `TailLiveness.StaleIff` | internal/ingest/tail_liveness.go:227-276 | A source is stale exactly when it is tailing and every time it was heard from, live or by the row's heartbeat, else its start, else its last change of state, is too long ago |
| `TailLiveness.RowMoves` | internal/ingest/tail_liveness.go:185-225 | Column by column what a heartbeat and the watchdog write, by the state they find |
| `TailLiveness.Liveness.Dequeue` | internal/ingest/tail_liveness.go:69-77 | The persistence loop takes a request from the queue; it stays the source's one outstanding request |
| `TailLiveness.Liveness.MarkTailStale` | internal/ingest/tail_liveness.go:278-308 | Only a source still tailing becomes stale, with one notification |
| `ExtrasGraft.EmitsKeepStash` | internal/ingest/writer.go:309-345 | Over any sequence of emits each stash key holds its most recent non-null value, as emitted or, if grafted, as SQLite reads it (a boolean becomes 1 or 0); every other member and field, nulls included, is exactly that of the last emit |
| `ExtrasGraft.SyntheticKeepsReal` | internal/ingest/writer.go:347-403 | A synthetic replay onto a row with real metadata changes no source-owned column and no extras member except linkage members that were blank |
| `ExtrasGraft.ReplaysKeepReal` | internal/ingest/writer.go:784-819 | The same over any number of synthetic replays |
| `ExtrasGraft.RestartWrites` | internal/ingest/writer.go:784-819 | A session start that meets a stored row, column by column: when it is a synthetic hint and the row has captured metadata it changes no label and no linkage it contradicts; otherwise it replaces the kind and every label it has; a parent once set stays, and the times only widen |
| `HubIds.ParseFormat` | internal/notify/id.go:7-9 | An id reads back as its number exactly while the number fits 64 bits |
| `HubIds.FormatParse` | internal/notify/id.go:16-25 | A text that reads as a number is that number's id with zeros in front, if any |
| `HubRing.ReplayRing.Append` | internal/notify/subscription.go:42-54 | The circular buffer holds the last min(n, capacity) events ever recorded, oldest first |
| `HubRing.ReplayRing.Ordered` | internal/notify/subscription.go:80-91 | Reading the buffer from its head gives its contents in order |
| `HubRing.ReplayFrom` | internal/notify/subscription.go:228-249 | The replay computed from the buffer is the one of its contents |
| `HubRing.ReplayIsExact` | internal/notify/subscription.go:200-249 | With growing ids a non-empty id is covered exactly when it lies between the oldest and the newest retained one, and then the replay is precisely the events ever delivered after it, in order; an empty id is covered, with nothing to replay |
| `HubFeed.PushConserves` | internal/notify/subscription.go:141-159 | Whatever the reader does meanwhile, a push queues the newest event, drops at most one event and only from a full channel; without a reader the channel keeps the newest events |
| `HubFeed.Counted` | internal/notify/subscription.go:141-159 | Delivered is consumed plus queued plus dropped |
| `HubFeed.SeenInOrder` | internal/notify/subscription.go:141-159 | What a client has seen or will see is an in-order subsequence of the deliveries |
| `HubFeed.Subscription.PushOut` | internal/notify/subscription.go:141-159 | The send-or-drop loop ends with a concurrent reader and does one push |
| `HubProtocol.RunAgrees` | internal/notify/hub.go:149-391 | Over every interleaving of calls, reads, late timers and removal hooks, which run after the lock is released: an object is created once, closed at most once, never sent to, attached or detached afterwards, has one consumer at a time, and a hook is called only when one is owed for a removal |
| `HubProtocol.CallbackRemoves` | internal/notify/hub.go:338-357 | A retention callback, even of a stopped timer, removes its subscription, and leaves its hook due, if and only if that very object is still registered and nobody attached since the detach that armed it; otherwise it changes nothing |
| `HubProtocol.RunClosesOnce` | internal/notify/hub.go:184-196 | In every state of every run each object ever created is registered or was closed exactly once; one closed by a removal has its hook due or has had it called once, one closed by a shutdown has none |
| `HubProtocol.HookMeetsNewcomer` | internal/notify/hub.go:171-179 | When a hook is due its id is registered if and only if the id was added again after the removal and that subscription has not been closed |
| `HubProtocol.LateHook` | internal/notify/hub.go:171-179 | An input: add, remove, add again, and only then the hook of the removal, which is given the id of the newcomer |
| `HubProtocol.RunNumbered` | internal/notify/hub.go:250-253 | Hub-minted ids grow along every subscription as long as the counter does not wrap |
| `HubProtocol.RunConserves` | internal/notify/hub.go:233-248 | Over every run delivered events are consumed, queued or dropped, in order, and the queue stays within its capacity |
| `HubProtocol.AttachReplays` | internal/notify/hub.go:274-293 | Attaching in any run replays exactly the events ever sent after the given id, or reports that it cannot; with no id there is nothing to replay and nothing missed |
| `HubProtocol.ReplayRepeatsQueued` | internal/notify/hub.go:264-270 | In any run, what a covered reconnect is sent (the replay, then the channel) repeats no event if and only if the channel holds nothing newer than the client's last id |
| `HubCalls.DeliverySends` | internal/notify/hub.go:233-253 | In any run, a delivery to a registered id of a hub that is not shut down, attached or not, sends one event to that subscription and none to any other, the newest in its channel: the given one, under its own id or the text of the 64-bit counter's next value, which it uses up; any other delivery changes nothing |
| `HubCalls.CallsAnswer` | internal/notify/hub.go:149-391 | In any run, whatever was done before, every other call acts exactly when the log of what was done says it may, and does exactly this: registers, removes, attaches, detaches and arms, calls the hook, takes from the channel, closes all |
| `HubClass.Hub.Add` | internal/notify/hub.go:152-162 | Adding is one step of the state machine |
| `HubClass.Hub.RemoveLocked` | internal/notify/hub.go:184-196 | Removal is one step of the state machine; the channel it closes is open |
| `HubClass.Hub.Remove` | internal/notify/hub.go:171-179 | The part under the lock is the removal step, and the hook is due exactly when a subscription was removed |
| `HubClass.Hub.CallHook` | internal/notify/hub.go:176-178 | Calling the hook later is a step of its own, allowed once per removal |
| `HubClass.Hub.Deliver` | internal/notify/hub.go:233-248 | Delivery is one step of the state machine and never sends on a closed channel; it answers true exactly when the id is registered and the hub is not shut down, and then one more event, the given one as it is numbered, has been sent to that subscription |
| `HubClass.Hub.Attach` | internal/notify/hub.go:274-293 | Attaching is one step of the state machine, with the status, channel and replay the code returns |
| `HubClass.Hub.Detach` | internal/notify/hub.go:300-330 | Detaching is one step of the state machine and arms at most one callback |
| `HubClass.Hub.Expire` | internal/notify/hub.go:338-357 | The part of the retention callback under the lock is one step of the state machine, and the hook is due exactly when it removes |
| `HubClass.Hub.Shutdown` | internal/notify/hub.go:376-391 | Shutting down, in any order of the map, is one step of the state machine |
| `HubClass.Hub.DroppedCount` | internal/notify/hub.go:361-369 | The count is the subscription's dropped events, and 0 for an unknown id |
| `JsonPointer.Compose` | internal/parity/canonical.go:3431-3451 | Evaluating p followed by q is evaluating q where p leads, with the same first error |
| `JsonPointer.UnescapeEscape` | internal/parity/canonical.go:3495-3515 | Unescaping inverts escaping, and an escaped token holds no slash |
| `JsonPointer.EscapeUnescape` | internal/parity/canonical.go:3495-3515 | A slash-free token that unescapes is the escape of what it stands for |
| `JsonPointer.ParseIndexIff` | internal/parity/canonical.go:3477-3493 | The texts accepted as array index n are exactly the decimal text of n, for n below 2^63 |
| `JsonPointer.Member` | internal/parity/canonical.go:3453-3475 | The pointer of an object member leads to it, or fails exactly when it is absent |
| `JsonPointer.Element` | internal/parity/canonical.go:3453-3475 | The pointer of an array element leads to it, or fails exactly when it is out of range |
| `JsonPointer.JsonPointerValue` | internal/parity/canonical.go:3431-3451 | The token loop computes the defined evaluation |
| `JsonPointer.UnescapeToken` | internal/parity/canonical.go:3495-3515 | The byte loop computes the defined unescaping |
| `JsonPointer.EscapesAre` | internal/parity/canonical.go:3495-3515 | Tilde zero stands for a tilde, tilde one for a slash, any other tilde is an error, and every other character stands for itself |
| `JsonPointer.StepAnswers` | internal/parity/canonical.go:3453-3493 | Which error or value a token gives on an object, on an array and on anything else |
| `Snapshot.SnapshotResolves` | internal/parity/aiagent_v2_source_structural.go:41-132 | Every pointer the extractor emits with a non-empty text or a payload, at any nesting of child sessions, turns, steps, operations and logs, leads in the snapshot document to exactly that value |
| `Snapshot.V2SnapshotResolves` | internal/parity/aiagent_v2_source_structural.go:41-48 | The same with the member names of the v2 format |
| `Snapshot.LogResolvesIff` | internal/parity/aiagent_v2_source_logs.go:9-14 | The pointer emitted for a log leads to its text if and only if the log has a message and it is text |
| `Snapshot.NumbersDiffer` | internal/parity/aiagent_v2_source_structural.go:106-132 | No two operations recorded for a turn, reasoning operations included, get the same number |
| `SnapshotPointers.V2PointersDiffer` | internal/parity/aiagent_v2_source_logs.go:35-58 | For every operation tree, at any nesting, no JSON pointer is emitted twice, so neither is a native artifact id made from one |
| `SnapshotArtifacts.ArtifactsAre` | internal/parity/aiagent_v2_source_structural.go:41-165 | Neither more nor fewer: an artifact is recorded if and only if it is one of a session somewhere in the tree, itself, a turn, a step (numbered from 10000), or an operation's boundary, inline payload, log, failure log or reasoning operation, each with its own pointer and numbers |
| `SnapshotArtifacts.OpDecodes` | internal/parity/aiagent_v2_source.go:264-296 | Which members of an operation's object its kind, status, error, reasoning, payloads and child session are |
| `SnapshotArtifacts.BlockDecodes` | internal/parity/aiagent_v2_source.go:246-262 | A turn's or step's operations are the elements of its list, and a printed index reads as its number |
| `SnapshotArtifacts.RecordableIff` | internal/parity/aiagent_v2_source_structural.go:41-44 | Recording fails if and only if some operation at some depth cannot be read, or one that is 32 child sessions deep has another |
| `Snapshot.SourceState.RecordSession` | internal/parity/aiagent_v2_source_structural.go:41-72 | The recursive recording appends exactly the specified artifacts, and fails if and only if a child session is nested deeper than the cap or some operation's payloads, references or attributes cannot be read |
| `Snapshot.SourceState.RecordOps` | internal/parity/aiagent_v2_source_structural.go:106-132 | The loop over operations appends their artifacts, reasoning operations and child sessions in order |
| `Snapshot.SourceState.RecordOp` | internal/parity/aiagent_v2_source_structural.go:134-165 | An operation that can be read appends its boundary, inline payloads, logs and failure log in order; one that cannot fails |
| `LineIndex.Reader.ReadLine` | internal/parity/canonical_reader.go:10-27 | Whatever the buffer size, the chunked read returns the first line left, or reports the end or a line over the cap |
| `LineIndex.ScanLine` | internal/parity/canonical.go:3313-3350 | The scan answers with the trimmed line, or not found, or over the limit, unless an overlong line comes no later than it |
| `LineIndex.BuildOffsets` | internal/parity/canonical.go:3262-3294 | The index lists where every line starts, and fails exactly when some line of the file is overlong |
| `LineIndex.IndexIsScan` | internal/parity/canonical.go:3235-3260 | For a file whose lines are under the cap the index and the scan agree on every line number, found or not |
| `LineIndex.IndexIsScanIff` | internal/parity/canonical.go:3262-3294 | In general they agree on line n if and only if no line is overlong or one no later than n is |
| `LineIndex.PayloadResolver.ReadFileSelector` | internal/parity/canonical.go:3214-3233 | Whatever was asked before and in whatever order, the answer through line cache, index and open file is the one the files give |
| `LineIndex.LinesJoin` | internal/parity/canonical.go:3274-3291 | The lines of a file, endings included, joined give back the file |
| `LineIndex.LinesAre` | internal/parity/canonical.go:3274-3291 | Every line but the last ends with its one newline, and no line is empty |
| `LineIndex.AnswersAre` | internal/parity/canonical.go:3235-3356 | What the scan and the index answer, told of the bytes: the text of line n without its LF, CR LF or CR, or which error and exactly when |
| `LineIndex.StartsLine` | internal/parity/canonical.go:3262-3294 | From the offset of line n on, the file consists of its remaining lines |
| `LineIndex.LineAnchorMeans` | internal/parity/canonical.go:3088-3097 | Which fragments name line n |

## Left out

- The tail collapse of rollup groups into `__other__` is a parameter of the protocol, applied to a group's folded rows; its own arithmetic is not modelled.
- Catalog first and last seen times, context maxima, and the session counts of agents and cwds, which count events and are not views of sessions.
- RollupProtocol.RunCovers: takes batches of one format each, one process lifetime, and a clock reading per step; a bucket that a committed event changes unmarked is covered again only from a step that marks or repairs it, which is where the lemma can start anew.
- RollupBackfill.RebuildCovers: takes ops with non-negative start times, for which SQLite's truncating division and the bucket arithmetic agree.
- RollupParity.SlippedRefreshExactly: takes a bucket whose rows are few enough for the tail-collapse to leave them alone; with the collapse there are `RollupParity.UnchangedStartsAreKept` and `RollupParity.NothingWrittenIsKept`, which go one way.
- RollupParity.DrainedTablesAreRebuilt: is about runs of batches, idle refreshes and repairs; a rebuild in the middle of a run is the subject of `RollupBackfill`.
- FlushRuntime.BatchWriter.Flush: leaves out read-model refresh, notify rows and pricing, which have their own modules, and the last sequence number and timestamp of source_progress.
- Coalescing.FlushBatch: leaves out what the worker's flush leaves out; the coalescer's timer, merging goroutines and shutdown are not modelled.
- Resolver.SessionTree.LinkOrphans: is the pass with sessions changed and the generation advanced; the skip gates, and the passes that link ops to child sessions, are not modelled.
- Aggregates.RunIsRight: does not model last_activity_ts; costs are exact reals.
- PricingBackfill.RepriceKeepsRight: says nothing of rollups, which a reprice also leaves as they are; a pass that the database fails after its UPDATE of ops is not modelled.
- Fts.FtsStore.BackfillFtsOps: is the rebuild with no batch committing meanwhile, as a loop; `FtsRebuild` has it as a state machine with batches in between. Source repairs during a rebuild are not modelled.
- FtsLogs.LogRebuildFailsIff: takes a log's being indexable as fixed when it is written, and ids handed out in order; the source-scoped repair of logs, which deletes before it inserts, is not modelled.
- Fts.FtsStore.RepairSourceFtsOps: takes ops whose sessions are stored, which the foreign key ensures.
- TailLiveness.Liveness.Record: takes a clock that is positive; the queue's order and the restart channels are not modelled.
- ExtrasGraft.EmitsKeepStash: takes an aiViewer member that is an object or absent.
- HubProtocol.CallbackRemoves: takes fewer than 2^64 detaches of one subscription; stopping a timer is not modelled, so every armed timer may fire.
- HubProtocol.AttachReplays: takes runs in which the hub numbers every event and its counter does not wrap; the removal hook is taken to be set.
- HubRing.ReplayIsExact: takes ids that parse and grow, which is what the hub mints.
- Snapshot.SnapshotResolves: takes documents whose member names match exactly (the decoder also accepts other letter case) and payload-file references as a given test on payloads; artifacts without a JSON pointer are not listed.
- Snapshot.SourceState.RecordSession: takes whether an operation's payload files, payload references and attributes can be read as a given test on operations.
- SnapshotArtifacts.ArtifactsAre: says which artifacts there are, not in which order; the order is what `Snapshot.SourceState.RecordSession` states.
- EventRows.PlainDoes: is about the columns that decide what a cache may skip; the other columns of ops are in `PrimaryRows.EventWrites`, the labels of sessions in `ExtrasGraft.RestartWrites` and `RollupMeaning.EventWritesTables`.
- LineIndex.PayloadResolver.ReadFileSelector: takes files that do not change while they are read and paths already cleaned and contained.
- Hash ids are their natural keys; the text order of hashes used by keyset scans is any order on them.
- A source's format is a function of the source; prices are a function of the query.
- SQLite itself, file and network I/O, gzip, JSON text, float rounding, logging, metrics and command-line flags.
- The source supervisor, adapters, redaction, text extraction, HTTP serving and the frontend.
