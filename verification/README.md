# Verified core of the SFTP utilities

This project models the parts of the repository that hold state, interleaving,
arithmetic or round trips, and proves what they keep. `dafny verify dfyconfig.toml`
checks all of it.

| files | what they model |
|---|---|
| `Ledger`, `ReportStore`, `LedgerRuns`, `LedgerRows`, `LedgerIndices`, `SealRuns`, `SealedRows`, `FlushRules`, `RecordHistory` | the report store: a class whose methods are proved against functions on a ledger value, then every run of that ledger with a two-phase flush, what its rows show, the seal beside the periodic flusher, what the sealed file says about downloads, when a flush takes a record, and what a record shows of its past |
| `MockServer`, `MockServerRuns`, `TrackedNames`, `RoundTrip`, `RoundTripSafety`, `RoundTripIds` | the mock server and its histories, and the whole upload, promotion, polling, attach and flush system as interleaved steps |
| `WaitForGraph`, `CycleKey`, `Deadlocks` | the deadlock search of the thread-dump analyzer |
| `Histogram`, `Percentiles`, `ConcurrentHistogram` | the latency histogram: buckets, percentiles, and concurrent adds as atomic steps |
| `RateLimiter` | token buckets and the map of them with idle eviction |
| `Scheduler`, `SchedulerRuns`, `SchedulerWaiting` | the schedule sweep, runs of its stages beside the HTTP handlers, and how long a due schedule waits |
| `VaultRefs`, `VaultMigration`, `MigrationMeaning` | vault markers, the bulk migration, and what it means to later runs |
| `Watcher`, `WatcherRuns` | the track-id watcher, and its interleavings |
| `DisablePolicy`, `Dispatcher` | retiring users, why a run stopped, pacing and picking |
| `Generator`, `JsonLog`, `JsonRecord` | generated names, the payload reader, and the C logger's JSON lines with an independent reader |
| `Collections`, `Modulo`, `Decimal` | shared facts |

Objects the source updates in place are classes here, and each method states its
whole new state by a function of the old one. Concurrency is a set of atomic steps;
the theorems quantify over every order of them. Clocks, random ids, the order a map
is visited in, and whether an operation outside the program succeeds are parameters.
Rates, tokens and quotas are real numbers.

## What the code does that its text does not say

Where code and comments differ the model follows the code.

- `DeadlockCycle`'s comment says a thread holds the lock listed with it; the code lists the lock it waits on (`threaddump-analyzer/internal/analyzer/analyzer.go:50-53`, `113-116`).
- Cycles are deduplicated by names joined with an arrow. Thread names that contain the arrow can make two deadlocks look like one (`Deadlocks.ArrowInNameLosesDeadlock`).
- The comments of `HasUploadByFilenameID` and `HasUploadByBasename` say an entry survives a flush; settled rows are pruned (`report.go:250-283`, `557-572`).
- An attach to a record that a flush has collected and not yet released succeeds and misses the row: the window opens at the collection, not at the write (`LedgerRows.AttachReachesItsRowIff`). The sealing flush is not kept apart from the periodic one; what one picks while the other holds it is streamed twice if both batches are written before the seal closes the file (`SealRuns.StreamedTwiceIff`).
- Sealing stamps the pending downloads so that no row is left without an explanation (`report.go:582-585`), but stamp and collection are two critical sections and the consumer of track ids is never waited for (`runner.go:484-499`, `1569-1583`): an id that lands in between leaves an unexplained row (`SealedRows.LateTrackHappens`, and exactly when in `SealedFileExplainedIff`).
- A poll that reaches a promoted file while its upload has no record in memory, too early or after the row was flushed, orphans it for good (`RoundTripSafety.ClaimedIffOnRecord`, `OrphanedForGoodIff`).
- The histogram's header promises 3 percent; that holds in the top two of 32 sub-buckets (`Percentiles.ThreePercentIff`), and 9/32 holds from 1 µs to 10 s.
- Only `POOL_EMPTY` and `PANIC` count toward disabling, not every failed operation as `sftp-loadtest/README.md:243-244` says.
- The upload semaphore is one for the run, users × streams, not one per user (`README.md:88-94`).
- The scheduler's gate against overlapping runs looks first and starts later; a manual start in between gives two active runs (`SchedulerRuns.StartsBesideActiveIff`).
- The dispatcher starts each minute with the first user (`runner.go:2031-2035`), so at fewer attempts a minute than users the last ones are never served (`Dispatcher.MinuteShare`).
- Reading a file is to drop its three entries and bound memory to files in flight (`server.go:54-62`, `268`, `320-327`); the two originals of a sender who is not paired stay (`MockServerRuns.ReadTakesOriginalsIff`).
- Recurring schedules that were due before startup are dropped, not advanced. A cancel that lands inside a sweep can be undone (`SchedulerRuns.CancelSticksIff`).
- Migration rewrites the schedules before it saves the vault (`MigrationMeaning.VaultFileLost`), and a user listed twice loses a password (`MigrationMeaning.RepeatedUserLosesPassword`).
- `itoa` of the least 64-bit value is a lone sign (`Generator.ItoaRoundTripIff`).

## Model

| member | source | states |
|---|---|---|
| `RoundTripSafety.NoMismatchEver` | sftp-loadtest/internal/runner/runner.go:1592-1864 | over every interleaving of uploads, records, promotions, watcher results, polls, claims, fetches, attaches and flush halves, with a byte-faithful server: no hash mismatch is ever counted, every row in memory or on disk with two hashes has equal ones, and the names the workers have acted on are exactly the completed, the orphaned and those in hand |
| `RoundTripSafety.AttachLandsOnItsUpload` | sftp-loadtest/internal/runner/runner.go:1740-1864 | the row an attach goes to is that of the upload whose stored bytes were fetched, under that upload's own user |
| `RoundTripSafety.LedgerStaysInOrder` | sftp-loadtest/internal/report/report.go:480-579 | in every reachable state of the whole system the three indices are exact, every streamed row with a track id is explained, and every upload is in memory or on disk exactly once |
| `RoundTripSafety.ClaimedIffOnRecord` | sftp-loadtest/internal/runner/runner.go:1740-1762 | a worker claims a promoted file exactly when its upload is on record and the record still in memory, and otherwise can only reject it |
| `RoundTripSafety.OrphanedForGoodIff` | sftp-loadtest/internal/runner/runner.go:1740-1764 | the first poll that acts on a file settles its fate: without a record in memory it is counted an orphan, and that worker never considers it again |
| `RoundTripSafety.EarlyPollRejects` | sftp-loadtest/internal/runner/runner.go:1740-1762 | in particular a file met before its upload is on record is rejected |
| `RoundTripSafety.NeverClaimedAgain` | sftp-loadtest/internal/runner/runner.go:1717-1764 | a name a worker has acted on is never considered again by it, so a file rejected too early stays an orphan |
| `RoundTripSafety.ReceiverFetchesIt` | sftp-loadtest/internal/runner/runner.go:1717-1830 | in every reachable state an upload about to be promoted can next be listed, claimed and fetched by a free worker of the user its sender is routed to, once its record is in memory, and what that worker gets is the bytes uploaded |
| `RoundTripIds.TrackIdsAreTheServers` | sftp-loadtest/internal/runner/runner.go:1569-1583 | in every reachable state the track id of every record and row, other than none or the word for a timeout, is one the server drew when it promoted the upload of that name |
| `RoundTripSafety.StepKeepsInv` | sftp-loadtest/internal/runner/runner.go:1592-1864 | no step of any party breaks the system invariant (files faithful, records true to their uploads, indices exact, names counted once) |
| `RoundTripSafety.RunInv` | sftp-loadtest/internal/runner/runner.go:1592-1864 | the invariant holds in every state of every run |
| `RoundTripSafety.ListedIsRecorded` | sftp-loadtest/internal/report/report.go:275-283 | whatever the basename index lists is an upload of this run that has been recorded |
| `LedgerRuns.NothingLostNothingTwice` | sftp-loadtest/internal/report/report.go:480-579 | for any interleaving of adds and attaches with one two-phase flusher, outside the write-to-commit window each upload is in memory and not on disk or released and on disk once; uploads = live + flushed; the recent tail is the last min(256, flushed) records in flush order |
| `LedgerRuns.StepKeeps` | sftp-loadtest/internal/report/report.go:480-579 | every add, attach, stamp, collect, write and release keeps the conservation invariant, inside the window too |
| `LedgerRuns.RunConserves` | sftp-loadtest/internal/report/report.go:480-579 | the conservation invariant holds throughout every run |
| `LedgerRuns.BatchMeaning` | sftp-loadtest/internal/report/report.go:484-511 | collecting picks every record the predicate calls final, each exactly once, in slot order, as the predicate left it, and no other |
| `LedgerRuns.ReleaseMeaning` | sftp-loadtest/internal/report/report.go:529-579 | committing a written batch empties exactly its slots, raises the flushed count by its length and keeps the recent tail the last records released |
| `LedgerRuns.LiveInOrder` | sftp-loadtest/internal/report/report.go:383-393 | the live records are listed in slot order, each at the place of its slot among the live, and no other |
| `LedgerRows.AttachReachesItsRowIff` | sftp-loadtest/internal/report/report.go:484-579 | over every run: the row a slot ends up with was picked after a successful attach, and so shows it, if and only if the flusher did not hold the slot, collected or written, when the attach landed; otherwise the row was fixed before |
| `LedgerRows.RowsAreAsPicked` | sftp-loadtest/internal/report/report.go:500-511 | every row on disk or in hand is the record of its slot as the predicate left it at some earlier collection |
| `LedgerRows.ReachedRowShowsIt` | sftp-loadtest/internal/report/report.go:204-248 | a row picked after the attach carries the download's result, unless a later attach to the slot replaced it |
| `LedgerRows.LateAttachMissesTheRow` | sftp-loadtest/internal/report/report.go:204-248 | an attach to a slot in hand reports success and leaves the batch as it was picked |
| `LedgerRows.HeldRowIsFinal` | sftp-loadtest/internal/report/report.go:513-573 | a row in hand reaches the disk unchanged and its slot is then emptied |
| `SealRuns.StreamedTwiceIff` | sftp-loadtest/internal/runner/runner.go:488-499 | over every run of the periodic flusher beside the sealing one, which then closes the file, with any writes failing: once both are idle a slot still in memory has no row; a released one has two if and only if one flusher picked it while the other held it and neither batch failed to be written, one otherwise; the flushed count exceeds the uploads released by exactly those with two |
| `SealRuns.HeldAtCloseNotTwice` | sftp-loadtest/internal/report/report.go:513-518 | a batch the periodic flusher has picked and not written when the seal closes the file fails: its slots end up with one row if released and none if still in memory, however often they were picked |
| `SealRuns.TwinStepKeeps` | sftp-loadtest/internal/report/report.go:480-579 | every step of either flusher, failed writes and the close included, and every change between, keeps the books: how often a slot is on disk or in hand is how often it was picked, less the failed |
| `SealRuns.TwoFlushersDuplicateIff` | sftp-loadtest/internal/runner/runner.go:488-499 | when the seal collects while a periodic flush, with any predicate, holds its batch, whatever changed in between: a slot is streamed twice exactly when that flush picked it and wrote its batch before the close, and then that batch is counted in excess |
| `LedgerIndices.IndicesAndRows` | sftp-loadtest/internal/runner/runner.go:1426-1471 | before sealing, with downloads on and distinct keys, the three indices hold exactly the live records' keys, each at its slot, and every flushed row with a track id carries a download end time or error |
| `SealedRows.SealedFileExplainedIff` | sftp-loadtest/internal/runner/runner.go:484-499 | over every run that stamps, later collects everything, and writes that batch, with periodic flushes, track ids, downloads and uploads landing anywhere: every upload on record at the seal's pick is in the file once or twice, and every row of the file is explained if and only if no track id landed between the stamp and the pick on a slot that no download or download error reached before the pick |
| `SealedRows.SealedRowUnexplainedIff` | sftp-loadtest/internal/report/report.go:582-610 | the seal's row of a slot has a track id and neither download end nor error if and only if a track id landed on that slot between the stamp and the pick, and no download end or error reached it before the pick |
| `SealedRows.LateTrackHappens` | sftp-loadtest/internal/runner/runner.go:1569-1583 | such a run: upload recorded, pending downloads stamped, track id attached, and the seal collects, writes and releases a row without explanation |
| `SealedRows.LateTrackIsUnexplained` | sftp-loadtest/internal/report/report.go:173-196 | whatever the ledger, a track id that lands between stamp and collection on a record with no track id, download end or error gets an unexplained row |
| `SealedRows.SealExplainsIff` | sftp-loadtest/internal/report/report.go:480-511 | the batch that takes everything is explained exactly when no record in memory has a pending download |
| `SealedRows.PendingHasLanded` | sftp-loadtest/internal/report/report.go:586-610 | in every state after the stamp a live record has a pending download only if a track id has landed on it since, and one that landed stays |
| `SealedRows.RunnersPredicatesOnlyStamp` | sftp-loadtest/internal/runner/runner.go:1426-1471 | neither of the two finality predicates removes a track id, a download end or an error |
| `LedgerIndices.IsRecordFinalIsRunFinality` | sftp-loadtest/internal/runner/runner.go:1426-1471 | what `isRecordFinal` may change: never a key, nothing of an undecided record, and what it calls final may leave the indices and is explained; when it calls a record final is `FlushRules.TakenIffSettled` |
| `FlushRules.TakenIffSettled` | sftp-loadtest/internal/runner/runner.go:1426-1471 | over every run of both flushers, with downloads or without: a periodic flush takes a slot if and only if it is in memory and, by what happened to it in the run, either no track id ever landed and its upload was recorded as failed, or one did and there is no download phase, or a download landed, or more than the grace has passed since the last track id landed |
| `FlushRules.MarkedIffPassed` | sftp-loadtest/internal/runner/runner.go:1461-1470 | such a flush marks a record as timed out exactly when that window has passed without a download and nothing explains it yet, and changes nothing else of any record |
| `FlushRules.TimedOutRowsHaveReasons` | sftp-loadtest/internal/runner/runner.go:1461-1470 | every row of the file that says `DOWNLOAD_TIMEOUT_LOCAL` belongs to a slot that a flush met more than the grace after a track id had landed on it, that the seal stamped, or whose download reported just that |
| `FlushRules.TimeoutsAreExplained` | sftp-loadtest/internal/runner/runner.go:1461-1470 | the same of every record in memory |
| `RecordHistory.RecordShowsItsPast` | sftp-loadtest/internal/report/report.go:156-378 | over every run a record in memory is its upload as it was added, with the last track id that landed, its time and its wait, a timeout as its error unless it had one, and the last download that landed: all its fields, the verdict on the hashes, and a mismatch as its error |
| `RecordHistory.TalliesCount` | sftp-loadtest/internal/report/report.go:204-248 | the verified and mismatch tallies are the numbers of downloads landed on a record in memory whose hash was equal to the upload's and was not |
| `RecordHistory.MinuteListsItsRecords` | sftp-loadtest/internal/report/report.go:456-471 | what is listed for a minute is exactly the records in memory that started in it, in the order they were added |
| `LedgerIndices.StepIndexed` | sftp-loadtest/internal/report/report.go:156-378 | every step the runner takes keeps the indices exact and the rows explained |
| `LedgerIndices.FindsWhatIsAskedIff` | sftp-loadtest/internal/report/report.go:204-378 | with exact indices an attach by user and name, by base name or by marker succeeds if and only if a record in memory is what it asks for, and it is then that record |
| `LedgerIndices.StillListedIff` | sftp-loadtest/internal/report/report.go:547-572 | a released record leaves the indices if its upload failed or its download ended or has an error, and stays listed otherwise; no attach reaches it either way |
| `SealRuns.SealTakesTheLive` | sftp-loadtest/internal/runner/runner.go:491-493 | the seal picks exactly the records still in memory, each once |
| `ReportStore.Store.AddUpload` | sftp-loadtest/internal/report/report.go:156-171 | appends the record, files it under all the indices that apply and raises the tallies |
| `ReportStore.Store.AttachTrackID` | sftp-loadtest/internal/report/report.go:173-196 | sets the track id, its time and its wait on the record filed under user and filename, or changes nothing if it is unknown or released |
| `ReportStore.Store.AttachDownload` | sftp-loadtest/internal/report/report.go:204-378 | one body for the three attach entry points: success exactly when the looked-up slot is still in memory, the download fields and the hash verdict set on that record alone, verified and mismatch counts raised accordingly |
| `ReportStore.Store.CollectFinalized` | sftp-loadtest/internal/report/report.go:484-511 | the part of a flush before the write: the batch of final rows, other records untouched |
| `ReportStore.Store.CommitFlushed` | sftp-loadtest/internal/report/report.go:529-579 | the part after the write: released slots, pruned index entries, counters and tail |
| `ReportStore.Store.WithBytes` | sftp-loadtest/internal/report/report.go:213-246 | the record with the download on it, a hash mismatch as its error, and whether both sides had a hash |
| `ReportStore.Store.ReleaseSlot` | sftp-loadtest/internal/report/report.go:542-573 | one written record leaves memory, and its index entries with it when nothing can change it any more |
| `ReportStore.Store.StampPendingDownloads` | sftp-loadtest/internal/report/report.go:586-610 | marks exactly the live records whose download is still pending, and counts them; an empty code marks none |
| `ReportStore.Store.Snapshot` | sftp-loadtest/internal/report/report.go:383-393 | exactly the live records, in order |
| `ReportStore.Store.LiveCount` | sftp-loadtest/internal/report/report.go:428-438 | the number of live records |
| `ReportStore.Store.SnapshotTail` | sftp-loadtest/internal/report/report.go:399-421 | the last n live records by start time, and none when n is not positive |
| `ReportStore.Store.RecordsInMinute` | sftp-loadtest/internal/report/report.go:456-471 | the live records added in that minute, in the order they were added |
| `MockServer.WriteHandle.WriteAt` | sftp-loadtest/internal/mocksftp/server.go:473-492 | a write grows the buffer with zeros as needed and overlays its bytes; the size is the furthest end written |
| `MockServer.LastWriteWins` | sftp-loadtest/internal/mocksftp/server.go:473-492 | after any sequence of writes each byte is that of the last write over it, and zero where none is |
| `MockServer.EndsAtFurthest` | sftp-loadtest/internal/mocksftp/server.go:473-492 | the assembled content ends exactly at the furthest write |
| `MockServer.ArrivalOrderIrrelevant` | sftp-loadtest/internal/mocksftp/server.go:473-492 | disjoint chunks give the same content in whatever order they arrive |
| `MockServer.MockFS.Filewrite` | sftp-loadtest/internal/mocksftp/server.go:346-358 | refused outside the inbox and for users set to fail; otherwise an empty, unfinished inbox entry and nothing else changed |
| `MockServer.MockFS.Close` | sftp-loadtest/internal/mocksftp/server.go:494-507 | closing finishes the entry with its size and content if it is still there |
| `MockServer.MockFS.Fileread` | sftp-loadtest/internal/mocksftp/server.go:309-344 | returns the stored bytes or as many zeros; an outbox read with eviction on removes the entry and the inbox and sent originals of every sender routed to the reader, and nothing else |
| `MockServer.MockFS.EvictRead` | sftp-loadtest/internal/mocksftp/server.go:328-336 | exactly the outbox entry read and the inbox and sent originals of every sender routed to the reader go, all else stays |
| `MockServer.MockFS.PromoteInboxes` | sftp-loadtest/internal/mocksftp/server.go:404-459 | every inbox upload finished at least the delay ago, and no other file, is promoted: it leaves its own name, and its bytes, id and size are under `name#id` in the sender's inbox and sent folder and in the outbox of the user the sender is routed to, his own when he is not paired; everything else stays; every new file is such a copy |
| `MockServerRuns.PromotedCopiesStay` | sftp-loadtest/internal/mocksftp/server.go:309-459 | over every history a copy made by a promotion keeps the upload's bytes, size and id, and is there, exactly until a read evicts it, unless something is written under its very name |
| `MockServerRuns.PromotedOnce` | sftp-loadtest/internal/mocksftp/server.go:404-459 | a name is promoted again only after it has been opened again |
| `MockServerRuns.ReadTakesOriginalsIff` | sftp-loadtest/internal/mocksftp/server.go:320-336 | a read of the receiver's copy takes the sender's inbox and sent copies with it if and only if the sender is paired |
| `MockServer.PromoteStep` | sftp-loadtest/internal/mocksftp/server.go:404-459 | one promotion keeps what earlier ones left and what later ones still need |
| `Deadlocks.DeadlocksOf` | threaddump-analyzer/internal/analyzer/analyzer.go:67-143 | every entry is a simple cycle of the wait-for graph with at least two threads, each waiting on the listed lock which the next one holds; no thread is in two entries; and every cycle is reported exactly when joined names tell the cycles apart |
| `Deadlocks.FindCycles` | threaddump-analyzer/internal/analyzer/analyzer.go:99-142 | whichever order nodes are visited in, the walks find exactly the simple cycles, each once |
| `Deadlocks.Walk` | threaddump-analyzer/internal/analyzer/analyzer.go:102-141 | one walk from an unmarked node marks its path done, adds at most one cycle, and leaves no cycle through marked nodes unreported |
| `Deadlocks.DeadEnd` | threaddump-analyzer/internal/analyzer/analyzer.go:102-141 | a walk that runs out of edges or into done nodes passes through no cycle |
| `Deadlocks.FoundCycle` | threaddump-analyzer/internal/analyzer/analyzer.go:110-121 | a walk that meets its own path has found exactly one new cycle: the path from there on |
| `Deadlocks.HolderByLock` | threaddump-analyzer/internal/analyzer/analyzer.go:69-74 | the holder map of the dump: for a lock held twice the last holder counts |
| `Deadlocks.HoldersMeaning` | threaddump-analyzer/internal/analyzer/analyzer.go:69-74 | a lock maps to a name exactly when that name is of the last thread listing it as held |
| `Deadlocks.WaitForGraphOf` | threaddump-analyzer/internal/analyzer/analyzer.go:75-89 | the wait-for graph of the dump |
| `Deadlocks.WaitsMeaning` | threaddump-analyzer/internal/analyzer/analyzer.go:75-89 | a name has an edge exactly when the last waiting thread of that name waits on a lock another name holds, and then that edge |
| `Deadlocks.WaitingOnMeaning` | threaddump-analyzer/internal/parser/parser.go:94-103 | the lock a thread waits on is that of its first entry that says it waits, in one of the three ways a dump says so, and none if there is no such entry |
| `Deadlocks.NoSelfWait` | threaddump-analyzer/internal/analyzer/analyzer.go:80-88 | a thread that waits on its own lock makes no edge |
| `Deadlocks.MarkDone` | threaddump-analyzer/internal/analyzer/analyzer.go:118-137 | marks exactly the nodes of the path |
| `Deadlocks.LocksOf` | threaddump-analyzer/internal/analyzer/analyzer.go:113-117 | position i is the lock thread i waits on |
| `Deadlocks.DedupeCycles` | threaddump-analyzer/internal/analyzer/analyzer.go:148-160 | keeps the first cycle of each key |
| `Deadlocks.SeparateKeysLoseNothing` | threaddump-analyzer/internal/analyzer/analyzer.go:148-160 | deduplication removes nothing but rotations when keys tell the cycles apart |
| `Deadlocks.CompleteOnlyIfSeparate` | threaddump-analyzer/internal/analyzer/analyzer.go:148-174 | and only then: two different cycles with one key always cost one of them |
| `Deadlocks.ArrowFreeDumpsSeparate` | threaddump-analyzer/internal/analyzer/analyzer.go:162-174 | dumps whose thread names contain no arrow lose no deadlock |
| `Deadlocks.ArrowInNameLosesDeadlock` | threaddump-analyzer/internal/analyzer/analyzer.go:162-174 | a concrete dump of two deadlocks whose keys coincide |
| `CycleKey.CanonicalCycleKey` | threaddump-analyzer/internal/analyzer/analyzer.go:162-174 | the names from the least one on, joined by arrows |
| `CycleKey.RotationsShareKey` | threaddump-analyzer/internal/analyzer/analyzer.go:162-174 | all rotations of one cycle have the same key |
| `CycleKey.ArrowFreeKeysSeparate` | threaddump-analyzer/internal/analyzer/analyzer.go:162-174 | arrow-free cycles with one key are rotations of each other |
| `CycleKey.JoinInjective` | threaddump-analyzer/internal/analyzer/analyzer.go:172-174 | without arrows in the names the joined text determines the list |
| `WaitForGraph.SharedNode` | threaddump-analyzer/internal/analyzer/analyzer.go:99-142 | with out-degree at most one, cycles that share a node are rotations of each other |
| `WaitForGraph.CycleStaysInClosed` | threaddump-analyzer/internal/analyzer/analyzer.go:102-141 | a cycle that meets a set no edge leaves lies inside it |
| `Percentiles.Accumulator.Add` | sftp-loadtest/internal/latency/histogram.go:50-68 | one more sample, clamped at zero, in its bucket, the count, the sum and the maximum |
| `Percentiles.Accumulator.Percentile` | sftp-loadtest/internal/latency/histogram.go:114-142 | a percentile from 0 to 1 lies in the bucket of a sample that is the exact one by counting: fewer than the fraction p of the samples are below it and at least that many are no larger; the least sample for p = 0 |
| `Percentiles.Accumulator.TakeSnapshot` | sftp-loadtest/internal/latency/histogram.go:91-110 | count, maximum and truncated mean of the samples, and four percentiles, each in the bucket of the exact one; zeros when there are none |
| `Percentiles.PercentileAccuracy` | sftp-loadtest/internal/latency/histogram.go:114-189 | whatever sample is the exact one by counting, the percentile lies within the bounds of its bucket, and within 9/32 of it for samples from 1 µs to 10 s |
| `Percentiles.PercentileInterpolates` | sftp-loadtest/internal/latency/histogram.go:114-142 | above 0 it is the whole part of the way through that bucket to the place, among the bucket's samples, of the one that brings the count up to the fraction p |
| `Percentiles.ExactIsRank` | sftp-loadtest/internal/latency/histogram.go:119-122 | the rank the scan asks for is that of the exact sample, and of no other value |
| `Percentiles.ExactExists` | sftp-loadtest/internal/latency/histogram.go:114-142 | every non-empty history has an exact sample for every p from 0 to 1 |
| `Percentiles.PercentileMonotone` | sftp-loadtest/internal/latency/histogram.go:114-142 | a higher percentile is never reported below a lower one |
| `Percentiles.ThreePercentIff` | sftp-loadtest/internal/latency/histogram.go:9-11 | the promised 3% error holds for every history in exactly the top two of the 32 sub-buckets of each decade |
| `Percentiles.ThreePercentFails` | sftp-loadtest/internal/latency/histogram.go:9-11 | one sample of 1 µs is reported as 1.281 µs |
| `Percentiles.RankInBucket` | sftp-loadtest/internal/latency/histogram.go:114-142 | the scan stops in the bucket of the exact sample of the wanted rank |
| `Percentiles.SortedHasRank` | sftp-loadtest/internal/latency/histogram.go:114-142 | rank t is position t-1 of the sorted samples |
| `Histogram.BucketIndex` | sftp-loadtest/internal/latency/histogram.go:147-172 | the decade loop and the clamped division give the bucket of the sample |
| `Histogram.BucketHoldsSample` | sftp-loadtest/internal/latency/histogram.go:147-189 | a sample lies within its bucket's bounds, except exactly in the two slivers left by truncated steps |
| `Histogram.BucketWidth` | sftp-loadtest/internal/latency/histogram.go:175-189 | no bucket is wider than 9/32 of its decade's start |
| `Histogram.BucketMonotone` | sftp-loadtest/internal/latency/histogram.go:147-172 | a slower sample never lands in an earlier bucket |
| `Histogram.BoundsOrdered` | sftp-loadtest/internal/latency/histogram.go:175-189 | buckets follow each other without overlap |
| `ConcurrentHistogram.ConcurrentSafety` | sftp-loadtest/internal/latency/histogram.go:50-142 | under every interleaving of atomic steps the buckets never hold fewer samples than the count, so a concurrent scan never falls out of its loop, and the CAS loop makes the maximum that of all completed adds |
| `ConcurrentHistogram.QuiescentIsSequential` | sftp-loadtest/internal/latency/histogram.go:50-68 | once no add is in flight the shared fields are those of the same samples added one at a time |
| `ConcurrentHistogram.StepKeeps` | sftp-loadtest/internal/latency/histogram.go:50-142 | no atomic step of any adder or reader breaks the invariant |
| `ConcurrentHistogram.RunKeeps` | sftp-loadtest/internal/latency/histogram.go:50-142 | the invariant holds at every moment of every run |
| `RateLimiter.TokenBucket.Allow` | sftp-loadtest/internal/web/security.go:205-228 | refill up to the capacity, then one token taken if there is one; the first request meets a full bucket |
| `RateLimiter.TokensInRange` | sftp-loadtest/internal/web/security.go:205-228 | tokens never leave the range from zero to the capacity |
| `RateLimiter.WindowBound` | sftp-loadtest/internal/web/security.go:205-228 | in any window the requests let through are at most capacity + refill × its length |
| `RateLimiter.WindowPotential` | sftp-loadtest/internal/web/security.go:205-228 | tokens on hand plus requests let through since the window began stay below that bound |
| `RateLimiter.SpacedNeverRefused` | sftp-loadtest/internal/web/security.go:205-228 | a request at least 1/refill after the one before it is never refused |
| `RateLimiter.Limiter.Serve` | sftp-loadtest/internal/web/security.go:235-295 | the client's bucket for the path decides; a path without a limit passes |
| `RateLimiter.Limiter.Evict` | sftp-loadtest/internal/web/security.go:240-254 | exactly the buckets idle for longer than ten minutes are removed |
| `RateLimiter.ConfiguredLimits` | sftp-loadtest/internal/web/security.go:134-154 | every configured bucket refills completely within the idle time that evicts it |
| `RateLimiter.KeyDeterminesPath` | sftp-loadtest/internal/web/security.go:255-288 | a bucket key belongs to one path |
| `RateLimiter.EvictionIsInvisible` | sftp-loadtest/internal/web/security.go:235-295 | on every history of requests and sweeps the evicting limiter decides as one that never evicts |
| `RateLimiter.EvictionSimulates` | sftp-loadtest/internal/web/security.go:235-295 | throughout, the two differ only in buckets that are full again |
| `RateLimiter.ClientWindowBound` | sftp-loadtest/internal/web/security.go:205-295 | end to end: per client and path the evicting limiter lets through at most capacity + refill × the window |
| `RateLimiter.EachHasItsOwnBucket` | sftp-loadtest/internal/web/security.go:205-295 | the whole limiter with its sweeps decides as one token bucket for each client and limited path that sees nothing but that client's requests to that path; other paths always pass |
| `Scheduler.ScheduleStore.Sweep` | sftp-loadtest/internal/web/schedule.go:334-391 | one pass over a listing: drop what was overdue at startup, stop at an active run, drop what fails to start, fire and settle one schedule |
| `Scheduler.ScheduleStore.Save` | sftp-loadtest/internal/web/schedule.go:92-108 | replaces the stored entry or, if the write fails, nothing |
| `Scheduler.ScheduleStore.Delete` | sftp-loadtest/internal/web/schedule.go:110-122 | removes the sanitized id; a refused id or a stuck file changes nothing |
| `Scheduler.OnlyPlainNamesPass` | sftp-loadtest/internal/web/schedule.go:80-90 | what may be removed for an id is exactly the file it names once the surrounding spaces are gone, and only if that is a visible plain file of the directory |
| `Scheduler.NextRun` | sftp-loadtest/internal/web/schedule.go:371-374 | the loop that advances a recurring schedule |
| `Scheduler.AdvanceLeast` | sftp-loadtest/internal/web/schedule.go:371-374 | it ends on the least later point of the schedule's own grid after now |
| `Scheduler.FiresTheEarliestDue` | sftp-loadtest/internal/web/schedule.go:334-391 | a sweep fires if and only if no run is active, the run starts and something listed is due; then the earliest due, never one not yet due or overdue at startup |
| `Scheduler.OverdueAtStartupDropped` | sftp-loadtest/internal/web/schedule.go:338-348 | every schedule that was overdue at startup is dropped by any sweep, recurring ones too |
| `Scheduler.OccurrenceSurvivesIff` | sftp-loadtest/internal/web/schedule.go:365-386 | a fired occurrence stays in the store exactly when its file cannot be removed and was not saved over |
| `Scheduler.SweepExplained` | sftp-loadtest/internal/web/schedule.go:334-391 | a sweep changes nothing but the entry it fires, to a time after now, and what it removes |
| `SchedulerRuns.EachOccurrenceFiresAtMostOnce` | sftp-loadtest/internal/web/schedule.go:334-391 | over every run in which a fired schedule's file is removed or saved over: no occurrence fires twice, none early or from before startup, and a repeat is due only after the sweep that fired the one before began |
| `SchedulerRuns.StuckFileFiresAgain` | sftp-loadtest/internal/web/schedule.go:382-386 | a one-shot schedule whose file cannot be removed fires at the next idle sweep again |
| `SchedulerRuns.StartsBesideActiveIff` | sftp-loadtest/internal/web/schedule.go:352-362 | a sweep that starts a run looked for an active one before, and starts beside one if and only if a run was started by hand since that look and has not ended |
| `SchedulerRuns.NeverBesideAnActiveRun` | sftp-loadtest/internal/web/schedule.go:352-362 | without a manual start in that window the scheduled run is the only one |
| `SchedulerRuns.ManualStartSlipsIn` | sftp-loadtest/internal/web/schedule.go:355-358 | with one, two runs are active at once |
| `SchedulerRuns.UninterruptedSweep` | sftp-loadtest/internal/web/schedule.go:334-391 | the stages of a sweep, with nothing between them, do what the whole sweep does |
| `SchedulerRuns.CancelSticksIff` | sftp-loadtest/internal/web/schedule.go:250-269 | a cancelled schedule can still fire exactly when a sweep under way has it next to fire, about to start, or started and recurring; otherwise no continuation fires it |
| `SchedulerRuns.CancelDuringSweepIsLost` | sftp-loadtest/internal/web/schedule.go:365-381 | a recurring schedule cancelled after a sweep has read it is fired and written back |
| `SchedulerWaiting.FiresWithin` | sftp-loadtest/internal/web/schedule.go:334-391 | with no new entries and no failed start a due schedule fires within as many idle sweeps as there are schedules due no later |
| `SchedulerWaiting.WithinTheStoreSize` | sftp-loadtest/internal/web/schedule.go:334-391 | which is at most the number of stored schedules |
| `SchedulerRuns.StepKeeps` | sftp-loadtest/internal/web/schedule.go:334-391 | every step keeps: stored and listed schedules are due after everything fired under their id |
| `VaultRefs.MarkerLeadsBack` | sftp-loadtest/internal/web/vault_migrate.go:173-182 | a marker leads back to its key exactly when the key holds a colon |
| `VaultRefs.ResolveCSV` | sftp-loadtest/internal/vault/refs.go:85-109 | row for row: a second cell that is a plaintext stays, a marker becomes the secret under its key or stays if there is none, every other cell stays; the text after a malformed row is dropped |
| `VaultMigration.ResolvedConfigIsMeant` | sftp-loadtest/internal/web/vault_refs.go:28-44 | resolution gives each of the nine fields what that very field stands for, plaintexts as they are and markers as the vault has them, and it is the only config that does |
| `VaultMigration.Vault.Set` | sftp-loadtest/internal/vault/vault.go:334-345 | stores a non-empty secret under a non-empty key, otherwise nothing |
| `VaultMigration.MoveScalar` | sftp-loadtest/internal/web/vault_migrate.go:133-145 | a plaintext field becomes its marker and is stored; blank and marker fields stay |
| `VaultMigration.MigrateCSV` | sftp-loadtest/internal/web/vault_migrate.go:189-217 | every plaintext password cell becomes a marker and is stored in row order, and is counted |
| `VaultMigration.MigrateConfig` | sftp-loadtest/internal/web/vault_migrate.go:146-155 | all nine fields in turn, and each plaintext, in a field or in the second cell of a row, gives way to `$vault:schedule:<id>/<field>`, everything else stays; what could not be read of a user list is lost |
| `VaultMigration.MovedConfigIsReplaced` | sftp-loadtest/internal/web/vault_migrate.go:182-217 | the same of the migrated config as a value |
| `VaultMigration.CsvCandidates` | sftp-loadtest/internal/web/vault_migrate.go:87-116 | one candidate per plaintext password row, under the key a migration writes and labelled with the list and the user |
| `VaultMigration.ScheduleCandidates` | sftp-loadtest/internal/web/vault_migrate.go:54-81 | in whatever order the map yields the user lists, the candidates' keys are those a migration writes, as often |
| `MigrationMeaning.Apply` | sftp-loadtest/internal/web/vault_migrate.go:123-165 | every listed schedule is rewritten if something in it moved and its file can be saved; the vault holds all that was stored and is saved if anything moved; the count is the number of plaintext credentials; the failures are the unsaved schedules |
| `MigrationMeaning.Scan` | sftp-loadtest/internal/web/vault_migrate.go:40-49 | the scan lists exactly the keys a migration writes, with the same multiplicity and count |
| `MigrationMeaning.MigrationKeepsMeaningIff` | sftp-loadtest/internal/web/vault_migrate.go:123-165 | after a migration every schedule gives a run, field by field and row by row, each plaintext it held and what each marker led to before, exactly when plaintexts that share a key are equal and old markers naming a freshly written key already led to that value; it does so whichever rewrites failed |
| `MigrationMeaning.MigrationKeepsCredentialsIff` | sftp-loadtest/internal/web/vault_migrate.go:123-217 | with slash-free ids: exactly when each user list gives a user one plaintext password and no old marker is redirected |
| `MigrationMeaning.SharedKeysAgreeIff` | sftp-loadtest/internal/web/vault_migrate.go:54-116 | with slash-free ids, keys clash only inside one user list |
| `MigrationMeaning.ConfigAgreesIff` | sftp-loadtest/internal/web/vault_refs.go:28-44 | a moved schedule gives back every credential in its own field exactly when each of its cells agrees |
| `MigrationMeaning.StoredMeaning` | sftp-loadtest/internal/web/vault_migrate.go:189-217 | a key holds afterwards one of the values written to it, or what it held before |
| `MigrationMeaning.SecondScanIsEmpty` | sftp-loadtest/internal/web/vault_migrate.go:54-81 | a rewritten schedule has nothing left to list or move |
| `MigrationMeaning.RepeatedUserLosesPassword` | sftp-loadtest/internal/web/vault_migrate.go:189-217 | a user list that gives one user two passwords never survives |
| `MigrationMeaning.VaultFileLost` | sftp-loadtest/internal/web/vault_migrate.go:154-163 | schedules are saved before the vault: if only they reach the disk, a moved credential resolves exactly when it was stored there already |
| `Watcher.PollWatcher.Register` | sftp-loadtest/internal/trackid/watcher.go:60-71 | adds the entry with its deadline; a key still pending is overwritten |
| `Watcher.PollWatcher.Expire` | sftp-loadtest/internal/trackid/watcher.go:87-104 | exactly the overdue entries leave, as many as fit are reported as timeouts, and the rest are handed on once each; a tick past every deadline leaves nothing pending |
| `Watcher.PollWatcher.Match` | sftp-loadtest/internal/trackid/watcher.go:106-139 | of one user's entries exactly those named in the listing leave and are reported, in order, as far as the channel has room |
| `Watcher.PrefixMapIsLastMatch` | sftp-loadtest/internal/trackid/watcher.go:118-124 | the prefix map agrees with scanning for the last `basename#id`; an empty basename or one with a '#' is never found |
| `WatcherRuns.EveryRegistrationIsAccountedFor` | sftp-loadtest/internal/trackid/watcher.go:60-140 | over every interleaving of registrations, ticks and a draining consumer: registrations = pending + delivered + queued + dropped + overwritten, results arrive in the order sent, no registration has two, no timeout is early |
| `WatcherRuns.NothingLostIff` | sftp-loadtest/internal/trackid/watcher.go:60-140 | every registration is pending or has exactly one result if and only if no name was registered again while pending |
| `WatcherRuns.UniqueNamesSuffice` | sftp-loadtest/internal/trackid/watcher.go:60-71 | names used once are never registered again while pending |
| `WatcherRuns.IdsWereListed` | sftp-loadtest/internal/trackid/watcher.go:106-139 | every id reported is the one a listing showed last for that very name |
| `WatcherRuns.DroppedOnlyWhenFull` | sftp-loadtest/internal/trackid/watcher.go:87-139 | a result is dropped exactly when 512 are waiting, and queued behind them otherwise |
| `WatcherRuns.WholeTickExpires` | sftp-loadtest/internal/trackid/watcher.go:87-104 | a whole tick, whatever order it scans in, leaves pending exactly the entries that are not overdue |
| `WatcherRuns.PendingCountMeaning` | sftp-loadtest/internal/trackid/watcher.go:178-182 | the count the drain waits on is the registrations without a result, less the overwritten; if none was, it is zero exactly when every registration has one |
| `WatcherRuns.StepKeeps` | sftp-loadtest/internal/trackid/watcher.go:60-140 | every step keeps that accounting |
| `WatcherRuns.ReRegisteredDuringTick` | sftp-loadtest/internal/trackid/watcher.go:126-138 | registering a name again while a tick looks it up loses the second registration |
| `DisablePolicy.Policy.OnFailureFor` | sftp-loadtest/internal/runner/runner.go:136-168 | one user's status changes, its times too, and true comes back exactly for the failure that disables |
| `DisablePolicy.Policy.OnSuccess` | sftp-loadtest/internal/runner/runner.go:115-124 | the counter of that user goes to zero and nothing else changes |
| `DisablePolicy.Policy.constructor` | sftp-loadtest/internal/runner/runner.go:84-103 | a negative threshold means never; users of both upload lists and of the download list start afresh |
| `DisablePolicy.DisabledOnceAndForCause` | sftp-loadtest/internal/runner/runner.go:136-168 | under every interleaving of the atomic steps at most one call reports the disabling, exactly when the user becomes disabled, and its failure ended a row of threshold account-level failures |
| `DisablePolicy.QuiescentDisabledIff` | sftp-loadtest/internal/runner/runner.go:136-168 | once no call is half way the user is disabled if and only if threshold failures with `POOL_EMPTY` or `PANIC` ever came in a row |
| `DisablePolicy.NeverReenabled` | sftp-loadtest/internal/runner/runner.go:156-166 | disabled never clears and is never reported again |
| `DisablePolicy.FeedbackNeverDisables` | sftp-loadtest/internal/runner/runner.go:192-199 | failures that are server feedback, as all those of download users are, never disable, however many |
| `DisablePolicy.StatusTells` | sftp-loadtest/internal/runner/runner.go:126-168 | after any calls one at a time: every failure counted, the row since the last success, the last failure's code and time, the last file named, and disabled, since when, by the first full row |
| `DisablePolicy.SuccessTooLate` | sftp-loadtest/internal/runner/runner.go:156-166 | a success between the last failure's increment and its decision does not save the user |
| `DisablePolicy.UninterruptedCall` | sftp-loadtest/internal/runner/runner.go:136-168 | a call nobody interrupts does what the sequential method says |
| `DisablePolicy.FirstReasonWins` | sftp-loadtest/internal/runner/runner.go:1536-1554 | whatever is claimed later, reason and detail are the first claim's, and dispatch ends up cancelled exactly when something was claimed |
| `Dispatcher.PickActiveUser` | sftp-loadtest/internal/runner/runner.go:1953-1965 | the first enabled user from the cursor, which moves past everyone looked at; none exactly when all are disabled |
| `Dispatcher.NormalDispatcher.OnTick` | sftp-loadtest/internal/runner/runner.go:2010-2069 | one tick: quota into the accumulator, whole part attempted, fraction carried, the turn back to the first user at a new minute; whose turn each attempt is follows in `RoundRobin` |
| `Dispatcher.NormalDispatcher.Attempt` | sftp-loadtest/internal/runner/runner.go:2036-2066 | one attempt: the user whose turn it is or a stop, then a slot or a counted skip; what any row of attempts does is `RoundRobin` and `SlotsDecide` |
| `Dispatcher.RoundRobin` | sftp-loadtest/internal/runner/runner.go:1953-2066 | every attempt of every run goes to the first enabled user after the one served last, or from user 0 on when a minute has begun |
| `Dispatcher.EvenTurns` | sftp-loadtest/internal/runner/runner.go:1953-2066 | while all users are enabled and no minute begins, the numbers of attempts of any two users differ by at most one |
| `Dispatcher.MinuteShare` | sftp-loadtest/internal/runner/runner.go:2031-2035 | a user's exact share of a minute's attempts, all users enabled; a user whose number is not below the number of attempts in the minute gets none |
| `Dispatcher.SlotsDecide` | sftp-loadtest/internal/runner/runner.go:2049-2066 | in every run an attempt becomes an upload if and only if fewer than users × streams uploads are launched and not back |
| `Dispatcher.AttemptsFollowTheQuotas` | sftp-loadtest/internal/runner/runner.go:1967-2072 | at every moment of every run launches + skips = attempts and in-flight uploads stay within users × streams; until it stops, attempts are the floor of the summed quotas, ramping or not |
| `Dispatcher.RateIsMet` | sftp-loadtest/internal/runner/runner.go:1967-2072 | a steady rate is met exactly at every whole minute, and no rate exceeds its ceiling |
| `Dispatcher.RampRises` | sftp-loadtest/internal/runner/runner.go:2018-2032 | a ramp never slows down and never passes its ceiling |
| `Dispatcher.RampSteps` | sftp-loadtest/internal/runner/runner.go:2018-2030 | before the first step the rate is the start rate, every step raises it by the step rate until it meets the ceiling, and within a step it does not change |
| `Dispatcher.NormalDispatcher.Pace` | sftp-loadtest/internal/runner/runner.go:2016-2030 | at every tick the quota is that of the ramp's rate at the elapsed time, or of the configured rate without a ramp |
| `Dispatcher.PatternCursor.NextPattern` | sftp-loadtest/internal/runner/runner.go:2151-2160 | the next pattern in turn; a single one without touching the cursor |
| `Dispatcher.PatternsServedEvenly` | sftp-loadtest/internal/runner/runner.go:2151-2160 | after any number of calls no pattern leads another by more than one |
| `Dispatcher.ServedExactly` | sftp-loadtest/internal/runner/runner.go:2151-2160 | how often each pattern has been served |
| `Dispatcher.ClientPool.Get` | sftp-loadtest/internal/runner/runner.go:1005-1028 | the first reachable slot from the round-robin start, an error exactly when all are unreachable, and the start moves on by one |
| `Generator.ExtractMarker` | sftp-loadtest/internal/generator/generator.go:95-119 | the token of the first marker, if twelve alphanumerics and the delimiter follow it, and nothing otherwise |
| `Generator.MarkerRecovered` | sftp-loadtest/internal/generator/generator.go:41-119 | whatever is put before and after a generated name and however its letters change case, the injected token comes back, provided the text before the numbers holds no marker |
| `Generator.MarkerRecoveredIff` | sftp-loadtest/internal/generator/generator.go:41-119 | exactly when: that text holds no marker, or its first marker happens to introduce the very same token |
| `Generator.FirstMarkerAfterNumbers` | sftp-loadtest/internal/generator/generator.go:48-62 | no marker can run over the edge of a number or start inside one |
| `Generator.ItoaInto` | sftp-loadtest/internal/generator/generator.go:121-141 | the backwards fill of a 24-byte buffer stays inside it |
| `Generator.ItoaRoundTripIff` | sftp-loadtest/internal/generator/generator.go:121-141 | the text reads back as the number for every 64-bit value but the least |
| `Generator.NameKeepsPattern` | sftp-loadtest/internal/generator/generator.go:48-62 | a generated name is what its pattern has before the star and the extension, the two numbers, the marker if any, and the pattern's extension |
| `Generator.NameWithoutExt` | sftp-loadtest/internal/generator/generator.go:48-62 | the same with `.txt` for a pattern without an extension |
| `Generator.SameNameIff` | sftp-loadtest/internal/generator/generator.go:48-62 | two names from one pattern are equal only if made at one time with one random number |
| `Generator.TokensAreThoseDrawn` | sftp-loadtest/internal/generator/generator.go:64-119 | what the extraction takes for a token is exactly what twelve random bytes can draw |
| `Generator.CaseIsLowered` | sftp-loadtest/internal/generator/generator.go:95-97 | two names lower to the same text exactly when they differ in the case of letters only |
| `Generator.FastReader.Read` | sftp-loadtest/internal/generator/generator.go:219-238 | whatever sizes are asked for, the reads together are the first size bytes of the repeated seed |
| `JsonLog.JsonStr` | sftp-admin/src/log.c:177-215 | writes within its bytes; the whole quoted text or an opening quote and as many whole escapes as fit |
| `JsonLog.PrintedWholeIff` | sftp-admin/src/log.c:177-215 | whole exactly when the escaped text and its quotes fit |
| `JsonLog.JsonKv` | sftp-admin/src/log.c:217-255 | one field within its bytes; a number or truth value whole or not at all |
| `JsonLog.Emit` | sftp-admin/src/log.c:257-318 | nothing for exactly the levels below the one in force; otherwise the record, every store inside the 4096-byte line |
| `JsonRecord.RecordIsOneLine` | sftp-admin/src/log.c:257-318 | a record, cut or not, is below 4096 bytes, ends in a newline and holds no other control byte |
| `JsonRecord.WholeIff` | sftp-admin/src/log.c:257-318 | nothing is cut exactly when the whole record with its terminator fits the line |
| `JsonRecord.StringRoundTrip` | sftp-admin/src/log.c:177-215 | printed whole, a string reads back under section 7 of RFC 8259 as what went in, whatever follows |
| `JsonRecord.RecordRoundTrip` | sftp-admin/src/log.c:257-318 | a record that was not cut reads back as exactly the fields logged |
| `JsonRecord.EmittedReadsBack` | sftp-admin/src/log.c:257-290 | an uncut record, read back, has the time, the level by its name, the origin or "core", the message or nothing and the process under their keys, and then the call's fields |

## Left out

- RoundTripSafety.NoMismatchEver: generated names are new, without a '#', and no two uploads share the text `user|name` the report files them under; the ids the watcher reports are not empty, though a listed `name#` would yield an empty one (`watcher.go:118-124`). The run is in track-id mode; filename mode shares the attach and marker models but has no whole-run system of its own.
- RoundTripSafety.LedgerStaysInOrder: an upload's record and its watcher registration are one step, and a download worker's listing is any sublist of its outbox.
- LedgerRuns.NothingLostNothingTwice: one flusher and no failed write; `SealRuns` has two flushers and a failing write as a step, after which the records stay in memory for a later flush.
- ReportStore.Store.CollectFinalized: the flush is split into its two critical sections; the rows are records, not the CSV text buildRow makes of them.
- ReportStore.Store.AddUpload: records are values in slots, so the source's sharing of records between slots and callers is not modelled.
- SealRuns.StreamedTwiceIff: a failed write leaves nothing in the file, as after a close; a disk that takes a part of a batch and then fails is not modelled, nor that the writer keeps such an error.
- SealedRows.SealedFileExplainedIff: a run whose seal fails to write its batch has no row for what was in memory, and `StreamedTwiceIff` counts it.
- SchedulerRuns.StartsBesideActiveIff: migrations, which rewrite schedules too, are not among the handlers.
- FlushRules.TakenIffSettled: one clock reading per flush instead of one per record, and a grace window of any length.
- ConcurrentHistogram.ConcurrentSafety: counters do not wrap at 2^64.
- Percentiles.PercentileAccuracy: interpolation over reals, without floating-point rounding.
- RateLimiter.EvictionIsInvisible: the clock never runs backwards, tokens are reals, and a request in flight while its bucket is evicted is one step.
- Scheduler.ScheduleStore.Sweep: the sort is known by its result, so the listing is a parameter; durations do not saturate, and `every` is the parsed interval rather than its text.
- MigrationMeaning.Apply: a CSV is the rows its reader yields and the text it stops at; quoting is encoding/csv's own. A failure is the schedule's id, without the error's text.
- Watcher.PollWatcher.Match: a listing is the base names in it; the path library's Base is not part of this model, nor are connections and redials.
- Dispatcher.NormalDispatcher.OnTick: attempts are counted in real arithmetic; the cursor does not wrap at 2^64.
- Dispatcher.ClientPool.Get: whether a slot can be reached is a parameter, and closing the pool is left out.
- Generator.ExtractMarker: lower-casing covers ASCII letters only.
- Generator.MarkerRecovered: letter case is ASCII; other letters are left alone, while the source's lower-casing may change them.
- Generator.FastReader.Read: the seed buffer is any non-empty sequence; how it is filled is random.
- JsonRecord.RecordRoundTrip: the reader takes a \u escape only when it names an ASCII character, since the writer uses no others.
- JsonLog.Emit: sinks, syslog priorities, the lock and the clock's text are outside the model.
- SSH, SFTP, FTP, TLS and HTTP, the vault's cryptography, SQLite, cluster fan-out, metrics averages, alerts, findings and user interfaces: calls into libraries or single-branch rules.
- GC-log, CPU and javacore parsing, thread pools, contention and stack signatures: line tolerance and counting with weak specifications.
- ReleaseHeavyState, CSV formatting, HashCounts: clearing, formatting and reading two counters.
