# Smoke monitoring, verified

A Dafny model of a distributed latency monitor: agents probe targets, ship the measurements to a
server over HTTP and spool them to disk when that fails; the server writes them to PostgreSQL.
`dafny verify dfyconfig.toml` checks every file.

## The delivery protocol

The protocol is modelled twice, and the two models are connected.

* `Delivery`, `DeliveryInvariant`, `DeliveryTheorems`: a step relation. Any number of flushes and
  replays are in flight at once, requests outlive the tasks that sent them, answers are lost, proxies
  answer before the server or instead of it, a commit may be reported as a failure, the disk refuses
  writes or rots, tasks are cancelled or fail and the agent dies. Everything given up is kept in a set
  named after the way it was lost. An inductive invariant over whole runs gives exactly-once storage and
  the absence of silent loss.
* `DeliveryRuns`, `DeliveryRecovery`, `DeliveryRestoration`: what can still be delivered from a state,
  exactly, and how every run can be brought to rest with all of it stored. `DeliveryProgress`: with a server
  that accepts, every order of events gets there, in a bounded number of them.
* `Shipping` and `Shipper`: the operations of `Shipper` as functions from state to state, and the
  class itself, with its buffer, its counters and its loops, proved to compute them. `SpoolQueue` and
  `SpoolDirectory` do the same for `Spool`, a mutable directory that refines a bounded queue of
  batches. `ShippingLaws`, `SpoolCounter`, `RetryLaws` and `ReplayLaws` hold for every sequence of
  operations; `FlushLaws` says, in requests, when a buffer goes out. The state carries a ledger of the
  measurements the program itself does not keep track of.
* `ShipperRefinement` and `ShipperHistories`: every sequence of operations of the shipper is a legal run of the
  protocol, with the same outcome for every measurement.

`KeyedTable`, `Storage`, `Outcomes` and `Ingest` are the server: the insert that skips known keys, the
transaction around it, and the ladder of checks from a request to its status. `SpoolText`, `TextLines`
and `SpoolFiles` are the spool file as text, its name, and the directory of such files.

## The rest of the agent

`Merge`, `TargetTree` and `TargetList` resolve the configuration against a "nearest node wins"
meaning; `Jobs` turns targets into jobs; `TickLoop` keeps their time; `Cycle` carries a job through
`fping`, the batch safety net and the counters to one measurement for each target; `Rounds` puts these
together, from an accepted configuration to one measurement for each enabled target; `RttStats`, `Loss`
and `Mtr` are the arithmetic; `Curl` the two report parsers.

## Where the code differs from what it says

* `ShipperStats.spooled` counts a batch whose spool file could not be written, and a stop without
  draining spools without counting: `SpoolCounter.SpooledIsHonest` says when the counter is right.
* `stop(drain=False)` leaves `queued` as it was: `ShippingLaws.StopLeavesQueuedStale`, and nothing else makes
  it wrong: `ShippingLaws.QueuedIsRightExactlyIf`.
* A cancelled flush takes its batch with it: `DeliveryRestoration.CancellationLosesExactlyIf` says when
  that loses a measurement for good.
* A gzip body whose stream is corrupt behind a good header raises an exception that the endpoint does not
  expect: the answer is 500, no counter moves, and the agent tries again a batch that it should drop:
  `Ingest.CountedExactlyIf` and `Ingest.HopelessIsRefusedExactlyIf`.
* `deep_merge` is not associative, so folding the probe defaults in last is not always the documented
  precedence: `Merge.AssociativeExactlyIf` and `TargetList.FinalOptions` give the exact conditions.
* A slot can be skipped without an overrun being counted: `TickLoop.SkipsUncountedExactlyIf` says when, and
  `TickLoop.SkipWithoutOverrun` shows a run.
* The packet count recovered from mtr's one-decimal loss is exact up to a thousand packets and not
  from 1001 on: `Loss.RecoveryIsExact` and `Loss.FirstFailure`.
* A `max_batch` below 1, or one that is not a number, makes `build_jobs` fail, for every batch and for no
  target on its own: `Jobs.ChunksPartition` and `Jobs.BuildJobs`.
* `TargetSpec.key` is ambiguous for some probe names with '#': `TargetList.KeysIdentify` says for which,
  `TargetList.ClashIsRefused` shows a tree that is refused.
* A batch is not always what its targets would get alone. One host name for which the lookup raises
  something other than an OSError makes every target of the batch an internal error; where the command
  fails, a host that does not resolve is reported with its failure; and the default fan-out reports a
  missing tool or a timeout as an internal error: `Cycle.BatchingIsTransparent` is exact,
  `Cycle.OneBadNameFailsTheBatch` shows the first.

## Model

| member | source | states |
|---|---|---|
| DeliveryTheorems.ExactlyOnce | src/smokeserver/storage/base.py:134-205 | in every reachable state of every run, with lost answers, commits reported as failures, retries and overlapping replays, each key is in its table once; each stored measurement has exactly one row with its time stamp and id, with its own success flag, columns and error message up to 2000 characters, and for each hop exactly one row with its number, its report and whether it is the last; there are no other rows, and everything acknowledged is stored |
| DeliveryTheorems.NoSilentLoss | src/smokeagent/shipper.py:130-230 | wherever a run stops, each submitted measurement is queued, in a flush under way, in a spool file, in the table, or in the set of its kind of loss |
| DeliveryTheorems.LossesHaveCauses | src/smokeagent/shipper.py:264-273 | each kind of loss occurs only in runs with its own cause: a permanent refusal of a request with that measurement, no spool, a refused write, a write over the cap of a spool with other files, a bad file, a cancellation, an exception, a crash |
| DeliveryTheorems.RejectedWereRefused | src/smokeagent/shipper.py:257-262 | whatever is recorded as rejected was in a request that was answered 400, 404, 413 or 422 |
| DeliveryTheorems.AckedWereTaken | src/smokeagent/shipper.py:257-258 | whatever is acknowledged was in a request that was answered by a status from 200 to 299 |
| Outcomes.OutcomesByStatus | src/smokeagent/shipper.py:252-262 | an attempt ships its batch if and only if a status from 200 to 299 came, gives it up if and only if that was 400, 404, 413 or 422, and is to be repeated on everything else |
| DeliveryTheorems.EvictedByOverflow | src/smokeagent/spool.py:131-156 | files are evicted only by a write that takes a spool with other files over its cap |
| DeliveryTheorems.HealthyRunsLoseInTwoWays | src/smokeagent/shipper.py:208-215 | with a working spool, readable files and no cancellation, crash or exception other than an HTTP error, only a permanent rejection or the spool cap loses data |
| DeliveryTheorems.RestMeansDelivered | src/smokeagent/shipper.py:171-185 | once nothing is queued, under way or spooled and nothing was lost, the table has one row for each submitted measurement and no other |
| DeliveryTheorems.OneRowEach | src/smokeserver/storage/postgres.py:352-358 | a table with unique keys that holds the rows of a set of identified measurements has as many rows as the set has members |
| DeliveryTheorems.TasksKeepTheirPlace | src/smokeagent/shipper.py:277-308 | no flush exceeds its attempts, and a replay, however late its answer, holds the oldest file of the spool or one that is gone |
| DeliveryTheorems.SpoolStaysBounded | src/smokeagent/spool.py:131-162 | the spool of any concurrent run is in order and within its cap, or down to one file |
| DeliveryRestoration.EveryRunRecovers | src/smokeagent/shipper.py:171-309 | from every reachable state some continuation without submissions or trouble comes to rest with everything stored that could be recovered |
| DeliveryRestoration.UnlostIsRecoverable | src/smokeagent/shipper.py:171-309 | with a spool and readable files, everything submitted and not lost can be recovered |
| DeliveryRecovery.EventBringsNothing | src/smokeagent/shipper.py:171-309 | no event brings back a measurement that is in none of the places it can be recovered from, unless it is submitted again |
| DeliveryRestoration.StorableExactlyIf | src/smokeagent/shipper.py:171-309 | after any run a measurement can still come to be stored, without being submitted again, if and only if it is stored, queued, in a readable file, in a request that may yet come to the server, whoever answered it, or with a flush that can retry |
| DeliveryRestoration.CancellationLosesExactlyIf | src/smokeagent/scheduler.py:189-195 | for every reachable state and live flush: after its cancellation a measurement of its batch is lost for good if and only if none of those other places has it |
| DeliveryRestoration.CrashLosesExactlyIf | src/smokeagent/shipper.py:64-71 | for every reachable state: after a crash a measurement is lost for good if and only if it is not stored, in a readable file, nor in a request that may yet come to the server |
| DeliveryRestoration.ProxyStopsExactlyIf | src/smokeagent/shipper.py:252-262 | a request that a proxy refuses without passing it on can store nothing any more, one that it passes on can |
| DeliveryRestoration.CancellationLosesForGood | src/smokeagent/shipper.py:100-109 | a measurement submitted, taken by a flush and cancelled with it is never stored by any continuation that does not submit it again |
| DeliveryInvariant.StepKeepsInvariant | src/smokeagent/shipper.py:171-309 | every event, in any reachable state, keeps the protocol invariant |
| DeliveryInvariant.RunsKeepInvariant | src/smokeagent/shipper.py:171-309 | so every legal run does |
| DeliveryInvariant.OpBalances | src/smokeagent/spool.py:42-95 | what a spool operation takes from the stored batches is exactly what arrived before and is not there after: nothing appears or disappears unnamed |
| DeliveryTheorems.AnswersAreTrue | src/smokeserver/app.py:233-278 | in every reachable state a request answered by a status from 200 to 299 has its whole batch in the table, hops included |
| DeliveryProgress.DeliveryIsInevitable | src/smokeagent/shipper.py:139-309 | after any run, with a server that accepts and events in any order: the number of events is bounded by the work that was left, spare replays apart; no other event is possible if and only if the agent is at rest; and then everything that could be recovered is stored, was rejected, or went with an evicted file |
| DeliveryProgress.EventsProgress | src/smokeagent/shipper.py:187-309 | every such event leaves less work, in flushes, replays, requests, files and buffer together, but for replays that will take no file, which add less than one round |
| DeliveryProgress.EventsKeep | src/smokeagent/shipper.py:187-309 | and no such event gives up a measurement that could be recovered, unless it is recorded as rejected or evicted |
| DeliveryProgress.RestExactlyIf | src/smokeagent/shipper.py:139-185 | something other than a spare replay can go forward if and only if the protocol is not at rest |
| ShipperHistories.SequentialRunsAreProtocolRuns | src/smokeagent/shipper.py:100-309 | every sequence of shipper operations is a legal run of the protocol with the same submissions, buffer and spool and no task left, whose acknowledged, stored and lost measurements, kind by kind, are those of the log of requests and of the ledger, and whose table has the rows of the accepted requests |
| ShipperHistories.SequentialNoSilentLoss | src/smokeagent/shipper.py:130-309 | at the end of any such sequence each submitted measurement is queued, in a spool file, in a request answered from 200 to 299, in one answered 400, 404, 413 or 422 and the ledger of rejections, or in the ledger of its kind of loss |
| ShipperRefinement.SendingIsMirrored | src/smokeagent/shipper.py:187-230 | the retry loop, attempt by attempt, is a sequence of protocol events with the same end: buffer, spool, what was acknowledged and what was lost |
| ShipperRefinement.ReplayIsMirrored | src/smokeagent/shipper.py:277-309 | so is a replay, file by file |
| KeyedTable.InsertAllIsUnion | src/smokeserver/storage/postgres.py:352-364 | where the key determines the row, inserting with the conflict rule gives exactly the union |
| KeyedTable.InsertAllKeepsStoredRows | src/smokeserver/storage/postgres.py:352-364 | an insert never rewrites, moves or removes a stored row |
| KeyedTable.InsertAllKeepsKeysUnique | src/smokeserver/storage/postgres.py:73 | the primary key stays one, whatever is inserted |
| KeyedTable.InsertAllIsIdempotent | src/smokeserver/storage/postgres.py:355-357 | inserting the same rows twice is inserting them once |
| KeyedTable.InsertIntoEmpty | src/smokeserver/storage/postgres.py:360-364 | an empty table takes a batch whole if and only if no key repeats in it |
| Storage.PostgresStore.WriteMeasurements | src/smokeserver/storage/postgres.py:283-301 | both tables change together or not at all; what was stored stays, new rows say of measurements and hops of the batch what they said, and every measurement of the batch has its row unless it is rolled back; the result is an error whenever the commit was not confirmed, even one that went through |
| Storage.ExecuteMany | src/smokeserver/storage/postgres.py:295-297 | row by row, the batch statement has the effect of the keyed insert |
| Storage.WriteStores | src/smokeserver/storage/postgres.py:283-301 | writing a batch, known or not, in whole or in part, adds exactly its measurements and their hops, each told in the columns of one row |
| Storage.RedeliveryIsNoOp | src/smokeserver/storage/postgres.py:355-357 | delivering a batch again, after anything else was written, changes neither table |
| Storage.HopsStoredWhole | src/smokeserver/storage/postgres.py:360-364 | the hops of a measurement are all stored if and only if their numbers differ |
| Storage.PlainInsertDuplicates | src/smokeserver/storage/clickhouse.py:262-275 | without a key any redelivery leaves a duplicate |
| Ingest.IngestServer.Ingest | src/smokeserver/app.py:141-278 | status, tables and counters of one request, for every order of failures, with those that escape to the middleware: a corrupt compressed stream, and a body whose sender disconnects |
| Ingest.OnlyGoodRequestsWrite | src/smokeserver/app.py:170-255 | the tables change only by a request with a known key that may write as the batch's agent and a whole body within the limit that decodes in a known version, and then the answer is 201 or 503; 400, 401, 403, 413 and 500 leave both tables as they were |
| Ingest.StatusExactlyIf | src/smokeserver/app.py:170-278 | for each status the exact condition under which it is the answer: the first check that fails decides |
| Ingest.CountersByStatus | src/smokeserver/app.py:174-262 | for each status the counter that moves; an accepted batch is counted with its measurements, its failed probes, its hop rows and its agent, and no other agent |
| Ingest.AnswerSpeaksTrue | src/smokeserver/app.py:230-278 | a success means the whole batch is in, a permanent refusal that nothing was written, any other answer one of the two but never a part |
| Ingest.PoisonIsPermanent | src/smokeagent/shipper.py:39-40 | an answer the agent treats as permanent comes back whatever the database does, and for every key that is let in |
| Ingest.ByAgentAddsUp | src/smokeserver/app.py:257-262 | over any sequence of requests the counts by agent add up to the measurements written |
| Ingest.CountedExactlyIf | src/smokeserver/app.py:174-262 | a request is in exactly one counter if and only if it is neither an accepted empty batch, nor cut off while its body is read, nor a corrupt stream, and those change no counter |
| Ingest.HopelessIsRefusedExactlyIf | src/smokeserver/app.py:202-211 | a request with a good key that no state of the database accepts is refused for good if and only if it does not escape to the middleware; one that does is tried again; neither writes anything |
| Ingest.EveryRequestIsCounted | src/smokeserver/app.py:174-262 | over any sequence of requests the counters account for all but those |
| SpoolQueue.EvictionIsLeast | src/smokeagent/spool.py:131-162 | the shortest prefix is dropped that brings the queue within its cap or down to its newest file |
| SpoolQueue.AppendGoesToTheTail | src/smokeagent/spool.py:42-67 | a batch goes to the tail, behind what is left of the older ones, and is itself never evicted |
| SpoolQueue.EverySpoolIsBounded | src/smokeagent/spool.py:131-142 | after any sequence of operations from an empty directory the files are in the order of writing and within the cap, or at most one |
| SpoolQueue.StepKeepsForm | src/smokeagent/spool.py:42-162 | each operation keeps that form |
| SpoolQueue.PeekFindsTheOldest | src/smokeagent/spool.py:75-92 | a peek returns the first deliverable file; what it removes before it was not deliverable |
| SpoolQueue.PeekTells | src/smokeagent/spool.py:75-92 | what is left by a peek begins with the first file that can be read and holds something |
| SpoolQueue.QuarantineTells | src/smokeagent/spool.py:82-89 | of the files before it the unreadable ones are kept aside, the empty ones not |
| SpoolQueue.RemoveTakesOne | src/smokeagent/spool.py:94-95 | in an ordered spool a removal takes one file and leaves the others in place |
| SpoolDirectory.ListingIsUnique | src/smokeagent/spool.py:71-73 | a directory has one ordered listing |
| SpoolDirectory.NewestIsListedLast | src/smokeagent/spool.py:49 | under a clock that only goes forward the listing is the order of writing |
| SpoolDirectory.ListingAfterRemoval | src/smokeagent/spool.py:94-95 | unlinking a file removes it from the listing and keeps the order of the others |
| SpoolDirectory.Spool.constructor | src/smokeagent/spool.py:34-38 | a spool may open over the files of an earlier run |
| SpoolDirectory.Spool.Files | src/smokeagent/spool.py:71-73 | the names, oldest first |
| SpoolDirectory.Spool.TotalSize | src/smokeagent/spool.py:119-126 | the bytes of all files, summed over the listing |
| SpoolDirectory.Spool.EnforceLimit | src/smokeagent/spool.py:131-162 | the loop over a running total drops exactly the files the least eviction drops, and counts them |
| SpoolDirectory.Spool.Append | src/smokeagent/spool.py:42-67 | the directory after a write, a refused write or an empty batch is the queue with the batch appended and the cap enforced |
| SpoolDirectory.Spool.PeekOldest | src/smokeagent/spool.py:75-92 | the loop that quarantines and deletes stops at the oldest deliverable batch, with the unreadable files set aside |
| SpoolDirectory.Spool.Remove | src/smokeagent/spool.py:94-95 | the queue without that name, missing or not |
| SpoolText.Read | src/smokeagent/spool.py:98-109 | the records of the lines that are not blank in order, or the number of the first bad line |
| SpoolText.DecodedTells | src/smokeagent/spool.py:98-109 | a file is read if and only if every line that is not blank is a record; the number of the bad line counts from one, and is the first |
| SpoolText.NameIs | src/smokeagent/spool.py:49 | a name is its stamp in twenty digits, a dash, the tag and the suffix |
| SpoolText.RoundTrip | src/smokeagent/spool.py:53-59 | reading a written file gives the batch back, for any codec whose records are single lines that read back when stripped |
| SpoolFiles.ListingIsByName | src/smokeagent/spool.py:71-73 | an order of the files is the sorted order of their names if and only if it is the listing of the directory by stamp |
| SpoolFiles.WritingIsReadable | src/smokeagent/spool.py:53-59 | a written batch is a readable body with that batch, the other files as they were |
| SpoolFiles.ReadableExactlyIf | src/smokeagent/spool.py:98-109 | a text is readable if and only if every line that is not blank decodes |
| SpoolText.PaddedOrder | src/smokeagent/spool.py:49 | below ten to the width, padded numbers sort as numbers and are distinct |
| SpoolText.NamesSortByStamp | src/smokeagent/spool.py:47-51 | file names sort by stamp whatever their random tags |
| SpoolText.WidthBoundsTheStamps | src/smokeagent/spool.py:49 | sorting by name is sorting by stamp for all stamps below a bound if and only if the bound is at most ten to the width |
| Shipper.Shipper.constructor | src/smokeagent/shipper.py:60-98 | a new shipper has an empty buffer and zero counters |
| Shipper.Shipper.Submit | src/smokeagent/shipper.py:130-143 | the measurements join the buffer, which goes out whole as soon as it reaches batch_max_size, and not before; the age is that of the oldest one |
| Shipper.Shipper.FlushLoopTick | src/smokeagent/shipper.py:157-165 | a buffer stamped batch_max_seconds ago or earlier goes out whole; a younger one, an unstamped one and an empty one wait, and at most one spool file is requested |
| Shipper.Shipper.Flush | src/smokeagent/shipper.py:171-185 | the buffer is emptied and requested, once to max_retries times, and after an answer from 200 to 299 at most 3 spool files, or 100 when draining |
| Shipper.Shipper.SendWithRetries | src/smokeagent/shipper.py:187-230 | the loop with its growing delay ends in the state and the answer of the recursive specification |
| Shipper.Shipper.SendOnce | src/smokeagent/shipper.py:232-262 | one request with the batch, or none without a client; shipped exactly by a status from 200 to 299, refused for good exactly by 400, 404, 413 or 422 |
| Shipper.Shipper.SpoolBatch | src/smokeagent/shipper.py:264-273 | a batch is spooled, refused by the disk and still counted, or dropped for want of a spool |
| Shipper.Shipper.ReplaySpool | src/smokeagent/shipper.py:277-309 | the loop settles file by file and returns the number the server took |
| Shipper.Shipper.Stop | src/smokeagent/shipper.py:100-119 | draining or spooling what is left, with or without a spool |
| FlushLaws.TickByAge | src/smokeagent/shipper.py:157-165 | a stamped buffer goes out in the first tick that finds it batch_max_seconds old, and in no earlier one |
| FlushLaws.TickWithoutStamp | src/smokeagent/shipper.py:158-160 | a stamp of zero reads as none: the buffer waits for ever unless the age asked for is not positive |
| FlushLaws.SubmittingFillsOrSends | src/smokeagent/shipper.py:130-143 | a full buffer is requested at once with what was added; otherwise nothing is |
| FlushLaws.FlushGoesOut | src/smokeagent/shipper.py:171-230 | the first new requests carry the buffer, at most max(1, max_retries) of them, and files come after them only once it was accepted |
| FlushLaws.ReplayRequestsFiles | src/smokeagent/shipper.py:277-309 | a replay requests at most so many batches, all of them from spool files, and leaves the buffer alone |
| FlushLaws.StoppingSendsOrSpools | src/smokeagent/shipper.py:100-119 | a draining stop sends the buffer; another makes it the newest spool file, if there is a spool and the disk writes; nothing is left to post with |
| ShippingLaws.NothingGoesUncounted | src/smokeagent/shipper.py:130-309 | over any sequence of operations, what was submitted and what the spool held add up with what became of it |
| ShippingLaws.CountersTellAll | src/smokeagent/shipper.py:44-53 | with a disk that takes every write and draining stops, the program's own counters satisfy both conservation equations |
| SpoolCounter.SpooledIsHonest | src/smokeagent/shipper.py:264-273 | the spooled counter is right after every call of a history if and only if no flush in it uses up its attempts with its spool file refused, and no stop without draining writes what is left |
| SpoolCounter.CallGap | src/smokeagent/shipper.py:113-115 | each call leaves the difference between counted and written as it was if and only if it is none of those: within a call nothing cancels |
| SpoolCounter.RefusedWriteIsCounted | src/smokeagent/shipper.py:272-273 | a history in which a refused write is counted as spooled |
| SpoolCounter.StopWritesUncounted | src/smokeagent/shipper.py:113-115 | a history in which a stop spools without counting |
| ShippingLaws.StopLeavesQueuedStale | src/smokeagent/shipper.py:113-115 | after a stop without draining, queued is right if and only if there was nothing to spool |
| ShippingLaws.RunsAreSound | src/smokeagent/shipper.py:139-178 | up to the first stop that spools without draining, with any disk, queued is the length of the buffer, its age is kept exactly while it is not empty, and no more was replayed than shipped |
| ShippingLaws.QueuedIsRightExactlyIf | src/smokeagent/shipper.py:100-178 | over any sequence of operations, with any disk, queued is the length of the buffer after every one if and only if no stop spools without draining |
| RetryLaws.EveryBatchIsResolved | src/smokeagent/shipper.py:187-230 | every batch is shipped, dropped as rejected, handed to the spool or dropped for want of one, decided by the first outcome that is not a retry among at most max(1, max_retries), and each case changes exactly its own counters |
| RetryLaws.AttemptsAreLogged | src/smokeagent/shipper.py:192-230 | the posts of a batch are the batch itself, once for each attempt, with the pauses between them; the buffer and the client stay as they are |
| RetryLaws.SleepIsBounded | src/smokeagent/shipper.py:187-227 | the time slept over one batch is at most the geometric sum of the delays between max(1, max_retries) attempts, in closed form, whatever the server answers |
| RetryLaws.DelayIsGeometric | src/smokeagent/shipper.py:189-227 | the delay after attempt a is retry_initial_delay, or none if that is negative, times the backoff to the power a - 1 |
| ReplayLaws.ReplayIsFifo | src/smokeagent/shipper.py:277-309 | the deliverable files are posted in order up to the first retry, and that file and all after it stay |
| ReplayLaws.AcceptingServerTakesBatches | src/smokeagent/shipper.py:283-293 | an accepting server takes min(k, n) of n deliverable files |
| ReplayLaws.ReplaysDrainTheSpool | src/smokeagent/shipper.py:163 | enough replays of k files leave nothing deliverable |
| TickLoop.Scheduler.RunJob | src/smokeagent/scheduler.py:197-243 | with the configured interval, but at least a second, and the jitter as a fraction of it: each start but the first takes the least multiple of the interval after the end of the cycle before it, and comes after that by exactly the jitter drawn and the wake-up; the skips add up to the slots that no start takes; the overruns counted are the cycles longer than that interval |
| TickLoop.StartsAreDetermined | src/smokeagent/scheduler.py:206-243 | these clauses leave a run no choice: two runs with the same cycles have the same starts |
| TickLoop.NextTickIsLeast | src/smokeagent/scheduler.py:225-233 | the next tick is the first instant of the grid strictly after now |
| TickLoop.SkipsExactlyWhenLate | src/smokeagent/scheduler.py:228-233 | slots are skipped if and only if the cycle ends a whole interval or more after its own slot |
| TickLoop.OverrunSkips | src/smokeagent/scheduler.py:217-233 | every overrun skips a slot |
| TickLoop.SkipsUncountedExactlyIf | src/smokeagent/scheduler.py:217-237 | after a cycle of any run a slot is skipped with no overrun counted if and only if the cycle takes at most the interval, but at least what the jitter and the wake-up before it have left of it |
| TickLoop.SkipWithoutOverrun | src/smokeagent/scheduler.py:217-237 | in every run with two given cycles, whose first pause draws all of the jitter, slot 2 is skipped and no overrun counted |
| TickLoop.NoMoreStartsThanSlots | src/smokeagent/scheduler.py:206-233 | by any instant the cycles started number at most the slots up to it |
| Jobs.ChunksPartition | src/smokeagent/scheduler.py:348-349 | for a list that is not empty, all chunks are non-empty if and only if the size is at least 1, and then they join to the list, full but for the last |
| Jobs.BuildGroup | src/smokeagent/scheduler.py:128-137 | the jobs of one group, or the failure on an empty chunk, exactly for sizes below 1 |
| Jobs.Collect | src/smokeagent/scheduler.py:112-121 | the dictionary filled target by target holds each signature once, in the order of first use, with its targets in order |
| Jobs.BuildJobs | src/smokeagent/scheduler.py:96-144 | it succeeds if and only if every enabled target has a known probe, accepted options and, in a batch, a limit that is a number of at least 1; a failure is that of an enabled target |
| Jobs.BuildableExactlyIf | src/smokeagent/scheduler.py:96-137 | what one target needs, in its options: a batch limit is needed only where batching applies, and a missing one will do |
| Jobs.PlanIsAPartition | src/smokeagent/scheduler.py:96-102 | every enabled target is in exactly one job, as often as it is configured |
| Jobs.PlanKeepsOrder | src/smokeagent/scheduler.py:112-119 | targets of one signature come out in their configured order |
| Jobs.PlanIsSound | src/smokeagent/scheduler.py:123-137 | the targets of a job agree on probe, interval and options, the options were accepted, and a batch has at most the configured number of targets, or 200 |
| Cycle.FirstRowIsFirst | src/smokeagent/probes/fping.py:172-178 | the row used for an address is the first one printed for it |
| Cycle.ParseBatch | src/smokeagent/probes/fping.py:160-214 | a result for exactly the wanted addresses with a row, from that row |
| Cycle.Resolve | src/smokeagent/probes/fping.py:114-130 | it fails if and only if some lookup raises something other than an OSError; otherwise the address map holds exactly the targets of each address, and the failures exactly those without one |
| Cycle.ProbeManyFping | src/smokeagent/probes/fping.py:110-146 | it fails if and only if a lookup throws, or there is an address and the command fails; otherwise every target has a result, and with unique names its own |
| Cycle.ProbeManyPlain | src/smokeagent/probes/base.py:147-163 | every target has a result, an exception being its own |
| Cycle.RunMany | src/smokeagent/probes/base.py:165-193 | whatever the probe does, every target has a result with a duration, and with unique names its own: what it would get alone if and only if the others do not disturb it, and the same as every other target at its address |
| Cycle.Run | src/smokeagent/probes/base.py:117-145 | a single target always has a result with a duration, and each kind of exception its own error type |
| Cycle.Scheduler.RunCycle | src/smokeagent/scheduler.py:245-291 | one measurement for each target, in order and at one time, appended to what was submitted, with unique names each with its own result; successes and failures add up over all cycles |
| Cycle.SuccessMeansReplies | src/smokeagent/probes/fping.py:180-213 | a target with an address succeeds if and only if no lookup of its batch throws, the command ran and the first row for the address has a reply, and its samples are the replies of that row |
| Cycle.AnswerAtAddress | src/smokeagent/probes/fping.py:180-233 | for a target with an address of a batch that ran: count packets sent, the replies of the first row, loss if it has none, and without a row the overrun or what the text explains |
| Cycle.FailureOfBatch | src/smokeagent/probes/base.py:165-182 | which error a failing batch gives each target: internal if a lookup throws, else that of the command if it is needed, else a missing address for those without one |
| Cycle.ExceptionsAreTold | src/smokeagent/probes/base.py:126-182 | which error each kind of exception becomes, alone, in a batch probe and in the default fan-out |
| Cycle.CycledAs | src/smokeagent/scheduler.py:249-253 | a single target is measured alone, several are as a batch |
| Cycle.SuccessesHaveNoError | src/smokeagent/scheduler.py:261-264 | the successes counted are the measurements without an error, the failures those with one |
| Cycle.BatchingIsTransparent | src/smokeagent/probes/fping.py:110-146 | a batch gives a target what it would get alone, up to the duration, if and only if: with no lookup that throws, the command ran, was not needed or failed for a target with an address; with one, it is the target's own or the target would have crashed anyway; in the default fan-out, the target's exception has no error type of its own |
| Cycle.SuccessNeedsEveryLookup | src/smokeagent/probes/fping.py:118-130 | a target that succeeds alone succeeds in a batch, with the same result, if and only if no lookup of the batch throws |
| Cycle.OneBadNameFailsTheBatch | src/smokeagent/probes/base.py:176-180 | a good host that succeeds alone is an internal error together with a host whose lookup throws |
| Rounds.EachTargetOnce | src/smokeagent/scheduler.py:245-291 | for an accepted configuration whose jobs can be built, the names in each job differ, and one cycle of every job, in any order, gives each enabled target exactly one measurement, with its own result, and nothing else |
| Merge.DeepMerge | src/smokecommon/configfile.py:88-102 | the recursive loop over the override computes the overlay of two mappings |
| Merge.LookupInOverlay | src/smokecommon/configfile.py:88-102 | what a merged value has at every path, in four cases |
| Merge.OverrideWins | src/smokecommon/configfile.py:91-93 | a leaf of the override, lists included, is in the result as it is |
| Merge.EmptyIsNeutral | src/smokecommon/configfile.py:95-102 | the empty mapping is neutral on both sides |
| Merge.OverlayIsIdempotent | src/smokecommon/configfile.py:95-102 | merging a value onto itself changes nothing |
| Merge.NothingLeft | src/smokecommon/configfile.py:96-101 | a merge is its override if and only if the override has every key of the base at every depth |
| Merge.AssociativeExactlyIf | src/smokecommon/configfile.py:88-102 | three merges associate if and only if, wherever something else stands between two mappings, the last one overrides all of the first |
| Merge.NotAssociative | src/smokecommon/configfile.py:98-101 | three mappings with a mapping, a scalar and a mapping under one key do not |
| Merge.DefaultsMayComeLast | src/smokeagent/config.py:303-316 | defaults folded in last agree with defaults folded in first, layer for layer, if and only if each layer associates with them |
| Merge.DefaultsLastExactlyIf | src/smokeagent/config.py:303-316 | defaults folded in last give what defaults folded in first give if and only if, wherever a layer replaced a mapping of the defaults and a later one put a mapping there again, the layers override all that the defaults have there |
| Merge.NearestLeafWins | src/smokecommon/configfile.py:91-93 | of several layers, the last one that has a leaf at a path and is not overridden there decides |
| TargetTree.Resolve | src/smokeagent/config.py:237-250 | the settings a node hands down are those of the nearest node that has them |
| TargetTree.Measured | src/smokeagent/config.py:252-276 | one target for each probe, with the options of the whole chain under the probe's own |
| TargetTree.SpecTells | src/smokeagent/config.py:252-276 | a target bears its node's name and host, its probe, the path of the ancestors, and its own probe options over those of the chain |
| TargetTree.TargetsTell | src/smokeagent/config.py:252-276 | a node without a host is no target; one with a host is one for each probe, in order |
| TargetTree.ProbesTell | src/smokeagent/config.py:237-250 | the probes of a node: its list, or the one it names unless that is nothing, or else the one inherited from the nearest node with exactly one |
| TargetTree.FaultExactlyIf | src/smokeagent/config.py:223-288 | for each complaint the exact condition under which a node gives rise to it, the first failing check deciding |
| TargetTree.FirstFaultIsFirst | src/smokeagent/config.py:281-284 | a tree is refused with the complaint of its first faulty node |
| TargetTree.PreOrder | src/smokeagent/config.py:281-284 | a node comes before its children, and the nodes below one child before those below the next |
| TargetTree.WalkTarget | src/smokeagent/config.py:223-288 | the walk returns, in pre-order, the targets each node means in the chain of its ancestors, or the first fault in that order |
| TargetTree.MeaningOfConcat | src/smokeagent/config.py:281-284 | the meaning of a list of nodes is that of its parts: siblings do not influence each other |
| TargetList.NearestNodeWins | src/smokeagent/config.py:245-250 | interval, enabled flag and probe come from the nearest node that sets them |
| TargetList.NoNodeSetsIt | src/smokeagent/config.py:199-204 | and from the root where none does |
| TargetList.CheckUnique | src/smokeagent/config.py:291-300 | it passes if and only if all keys differ, and otherwise names the first repeated one |
| TargetList.KeyIs | src/smokeagent/config.py:125-128 | the key of a target at the root and below it |
| TargetList.RepeatedKeys | src/smokeagent/config.py:291-300 | the key named is that of two targets, and those before the second have different keys |
| TargetList.KeySpellsThePath | src/smokeagent/config.py:125-128 | the key spells all names from the root and the probe |
| TargetList.KeysIdentify | src/smokeagent/config.py:125-128 | keys tell apart all places of a tree with probe names from a set if and only if no name of the set is another one's end after a # with text before it that can end a path |
| TargetList.KeysTellApart | src/smokeagent/config.py:291-300 | so targets with such probes have one key if and only if they are one node and one probe |
| TargetList.ClashCollides | src/smokeagent/config.py:125-128 | where probe names clash, there are two places with one key |
| TargetList.ClashIsRefused | src/smokeagent/config.py:291-300 | a tree of two different targets of different probes that is refused as holding one twice |
| TargetList.ApplyProbeDefaults | src/smokeagent/config.py:303-316 | every target is updated in place, or the list up to the first probe with bad defaults |
| TargetList.ParseTargets | src/smokeagent/config.py:193-210 | it accepts exactly the trees without a fault whose keys differ and whose defaults are mappings, and returns their meaning with the defaults, or else the first complaint |
| TargetList.ParsedExactlyIf | src/smokeagent/config.py:193-210 | why a configuration is refused, in order: no targets, a fault of the tree, two equal keys, defaults that are no mapping; otherwise each target gets its probe's defaults under its own options |
| TargetList.FinalOptions | src/smokeagent/config.py:306-316 | the final options are the defaults under all layers of the chain, and the documented precedence if and only if nothing that a layer dropped of the defaults is left uncovered |
| TargetList.DefaultsComeBack | src/smokeagent/config.py:306-316 | a target that gets a default back which its group had switched off |
| RttStats.BetweenNeighbours | src/smokecommon/models.py:55-60 | a percentile lies between the samples around its position |
| RttStats.PercentileIsMonotone | src/smokecommon/models.py:45-60 | percentiles do not decrease in q |
| RttStats.PercentileHitsSamples | src/smokecommon/models.py:55-59 | at k/(n-1) the percentile is the k-th sample |
| RttStats.PercentileEnds | src/smokecommon/models.py:45-60 | at 0 and 1 it is the least and the greatest |
| RttStats.PercentileIsLinear | src/smokecommon/models.py:55-60 | between two samples a percentile moves in a straight line |
| RttStats.MedianIsTheMiddle | src/smokecommon/models.py:55-60 | the median is the middle sample, or half way between the two in the middle |
| RttStats.SummaryTells | src/smokecommon/models.py:84-105 | each figure of the summary, from any ascending arrangement of the samples and from the samples as they came |
| RttStats.SumsIgnoreOrder | src/smokecommon/models.py:91-92 | mean and squared deviations do not depend on the order in which the samples are added |
| RttStats.SummaryIsOrdered | src/smokecommon/models.py:84-105 | min <= median <= p95 <= max and min <= average <= max, for every sample list |
| RttStats.MissingSamplesDoNotCount | src/smokecommon/models.py:86-88 | there is a summary if and only if some sample is present, and its ends are samples that enclose all others |
| RttStats.VarianceIsBounded | src/smokecommon/models.py:92 | the variance is at most (max - avg)(avg - min) |
| RttStats.JitterIsBounded | src/smokecommon/models.py:93-96 | for two samples or more, jitter <= max - min <= (n - 1) jitter |
| RttStats.OrderMattersForJitterOnly | src/smokecommon/models.py:89-105 | the summary of a permutation differs in the jitter only |
| RttStats.JitterDependsOnOrder | src/smokecommon/models.py:94 | and does differ for three samples in two orders |
| Loss.RecoveryIsExact | src/smokeagent/probes/mtr.py:231-233 | the count recovered is exact for everything mtr can print, one decimal nearest to the loss, if and only if at most a thousand packets were sent |
| Loss.FirstFailure | src/smokeagent/probes/mtr.py:231-233 | of 1001 packets 501 came back, 50.0 percent is printed, and 500 is recovered |
| Loss.LargeCountsDoNot | src/smokeagent/probes/mtr.py:231-233 | for every larger number some printed loss is read back wrongly |
| Loss.RecoveredIsNearest | src/smokeagent/probes/mtr.py:337-341 | the count recovered is the whole number nearest to the share not lost, the even one of two, and never negative |
| Loss.LossPctIsRounded | src/smokecommon/models.py:159-163 | the loss is the true percentage to four decimals, and there is none for a probe that sent nothing |
| Loss.ErrorIsBounded | src/smokeagent/probes/mtr.py:337-341 | for any figure within half a tenth of the loss, the error before rounding is at most sent / 2000 |
| Loss.LossDeterminesCount | src/smokecommon/models.py:159-163 | the loss rounded to four decimals determines the count if and only if at most a million packets were sent |
| Loss.SmallCountsSurvive | src/smokeagent/probes/mtr.py:337-341 | below a thousand packets any such figure, printable or not, gives the count back |
| Loss.LargeLossesCoincide | src/smokecommon/models.py:260-262 | beyond a million two neighbouring counts have one percentage |
| Mtr.CulpritIsFirstPersistent | src/smokeagent/probes/mtr.py:399-427 | a hop is blamed if and only if the last one is lossy, and it is the first whose loss persists: the fallback never decides |
| Mtr.CulpritInOnePass | src/smokeagent/probes/mtr.py:419-427 | one backward pass with a running minimum finds the same hop |
| Mtr.RateLimitingIsIgnored | src/smokeagent/probes/mtr.py:402-412 | raising the loss of a lossy hop before the culprit never changes the culprit |
| Curl.ParseLegacyReports | src/smokeagent/probes/curl.py:469-485 | the loop computes the reports of the lines |
| Curl.LegacyReportsAreRead | src/smokeagent/probes/curl.py:464-485 | printed reports come back in order, with lines of other output anywhere between, and trailing blanks removed |
| Curl.LegacyRoundTrip | src/smokeagent/probes/curl.py:464-485 | a printed report comes back unchanged if and only if no value ends in white space |
| Curl.ParseJsonReports | src/smokeagent/probes/curl.py:439-461 | the loop with its index terminates on every text and computes the scan |
| Curl.ScanInvertsOutput | src/smokeagent/probes/curl.py:439-461 | exactly the printed objects are returned, for any prefix-exact decoder and other output in which it finds nothing |
| Curl.BraceFreeIsInert | src/smokeagent/probes/curl.py:450-457 | in particular for output without braces |

## Left out

- HTTP, asyncio, gzip, pydantic and the FastAPI middleware appear only as outcomes (an answer, no answer, a body that decodes or not) and as the atomicity between awaits.
- Authentication, key hashing and agent authorization are inputs to the ingest step.
- `last_success_ts`, `last_error`, `write_seconds_total`, logs, Prometheus text, readiness and query endpoints are not modelled.
- A body that is cut off is a request with an answer nobody hears; in `Delivery` its sender may read that answer or none.
- The ClickHouse driver is not modelled; `Storage.PlainInsertDuplicates` states the one contrast: without a key, a redelivery duplicates.
- Real numbers stand for floats, so nothing is said about rounding errors other than the explicit `round`; the summary has the variance, whose square root the program stores.
- Time stamps of spool files strictly increase: a clock that goes back, and the random tag that separates equal stamps, are not modelled in `SpoolQueue` and `SpoolDirectory`. `SpoolText` proves that names sort by stamp whatever the tag.
- A spool write is atomic, as the rename makes it; leftovers of interrupted writes and errors while files are measured or removed are not modelled.
- Measurement ids are fresh: two submitted measurements with one time stamp and id are one measurement. Uuid generation is not modelled.
- The methods of the class Shipper run to the end one at a time. Overlapping operations are the subject of `Delivery`, which has no counters, because overlapping replays can count one file twice. Exceptions other than HTTP errors are events there, not here.
- The task that runs the flush loop, its period and its error handler are not modelled; `FlushLoopTick` is one turn of it.
- The one method build_jobs is four here, one for each loop. Equal signatures are taken to mean equal probe, interval and options.
- The class Scheduler is modelled twice, in Cycle for its counters and in TickLoop for its clock; the cycles of different jobs do not overlap in `Rounds`; the semaphore, the staggered first start and the cancellation of jobs are not modelled.
- Cycle.ParseBatch: does not model the regular expression that recognises a line of fping's table; lines come in as rows or noise.
- TargetList.ApplyProbeDefaults: does not model aliasing, because targets are values in an array that is updated in place, where the program updates objects in a list.
- TargetTree.WalkTarget: does not model a target's title, and the conversion of numbers and flags that are not of their type.
- Merge.DeepMerge: keys are visited in any order; the order of keys in the result is not modelled.
- Text handling stops at U+00A0: line breaks and white space beyond it are not modelled.
- The sequential shipper is matched by a run in which the server stores exactly what it acknowledges; runs in which a request is stored and its answer lost are the subject of `Delivery`.
- Curl.ParseJsonReports: the JSON grammar; the decoder is any function that consumes something and reads back what was printed.
- Environment interpolation, other configuration sections, the CLI, plugin loading, subprocesses, name resolution and the regular expressions for ping, dig, nc and mtr text are left out: little state, and their properties would repeat the patterns.
