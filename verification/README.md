# Verified model of the evaluation service

The service evaluates startup submissions. A run of an evaluation is one database row that many actors write: the
orchestrator starts it, four workers count themselves done on it, a finalizer scores it, a user may cancel it and a
clean-up job fails it when it is too old. Around that row stand the scoring pipeline, the two rate limiters, the
browser client with its token refresh, and a generic store with soft deletion and pages. This project models those
parts in Dafny and proves what they promise, for all inputs, all runs and all interleavings. To check it, run
`dafny verify dfyconfig.toml`.

| file | what it models |
|---|---|
| `RunModel.dfy`, `RunRepository.dfy` | the run row; the table with its compare-and-swap update |
| `RunTransactions.dfy` | every actor's transaction as one atomic step on the whole table |
| `RunInterleavings.dfy` | one row at the grain of separate reads and writes |
| `RunProgress.dfy` | a prepared run's progress under the workers' histories |
| `RunTriggers.dfy` | the limit on concurrent runs at the grain of separate counts and inserts |
| `RunActors.dfy`, `Finalizer.dfy` | the actors as methods on the table, tied to those steps |
| `WorkerTask.dfy`, `WorkerDelivery.dfy` | the workers under crashes and redelivery; one delivery in every way it can go, and the template method |
| `TokenRefresh.dfy` | the client's single-flight token refresh |
| `RateLimit.dfy` | both sliding-window limiters |
| `CrossCheck.dfy`, `Scoring.dfy`, `Fabrication.dfy`, `LlmJudge.dfy` | the scoring pipeline |
| `RecordStore.dfy`, `HardDeletion.dfy`, `ScoreStore.dfy`, `Cascade.dfy`, `Pagination.dfy` | the generic store, what hard deletion shows, append-only scores, cascades across tables, pages |
| `Rounding.dfy`, `Sequences.dfy`, `Sets.dfy`, `Wrappers.dfy` | helpers |

## Two grains of the run protocol

`EvaluationRunRepository.update_with_optimistic_lock` calls itself the only method that should update runs. The code
does not keep to that: cancel and the stale-run clean-up change the status without touching `version`, and workers
bump counters without it. So "an ended run stays ended" has two forms here, kept apart.

* In `RunTransactions`, every transaction is one atomic step. With all actors present, ended runs keep their outcome,
  the columns agree with the status, and no organization exceeds its limit.
* In `RunInterleavings`, a session reads the row in one step and writes it in another. A write hits an ended run if
  and only if it is stale in a sense that the log shows (`IsStaleWrite`); without stale writes everything above
  holds. Without cancel and clean-up no write is stale; with all actors but adjacent reads and writes none is either,
  and whole runs of the coarse model are such runs of the fine one (`TableRunsAreRowRuns`).
  `CancelIsOverwrittenByEarlierReader`, `CleanupIsOverwrittenByEarlierReader` and `CancelledRunRevived` show that the
  two hypotheses cannot be dropped together.

## Other promises that the code keeps only under a condition

* A redelivered worker task is harmless exactly if its last settlement was a completion with a non-empty output and
  the redelivery's own idempotency check does not fail (`RedeliveryIsIdempotentIffRemembered`). An empty output reads as
  "not done"; a time limit that strikes after the completion commit overwrites it; and so does a database error in the
  check itself, which stands inside the template's try block. Each is followed by a second count
  (`DisorderIsCountedTwice`).
* A sorted-set member is the timestamp itself, so equal timestamps collapse. For distinct timestamps no window holds
  more than `limit` admitted requests. In general the requests of one instant are all admitted, or only the first, or
  none, by the number of different times in the window before it (`AdmittedByTimesIff`, `ShareDecides`), and a window
  exceeds the limit exactly if the repeats of instants let through in full outnumber the places that the admitted
  instants leave (`WindowExceedsIff`).
* `check_rate_limit` records rejected requests, so its `retry_after`, meant as the moment the oldest entry leaves the
  window, is too early (`RetryAfterIsTooSoon`, with the exact moment).
* The cross-check has no idempotency check, so a redelivery stores its contradictions again and each costs once more
  (`RedeliveredCrossCheckHarmlessIff`).
* NaN passes the range test of `_validate_llm_output`. A judge on a run without scores stores nothing exactly if a
  used answer holds a NaN (`OnlyNaNIsRolledBack`). A malformed answer of the primary model leads to synthetic scores,
  not to the backup model, which is asked only when the call itself fails.
* `paginate_list` does not check its page number (`PagesBelowOne`).
* The limit on concurrent runs counts first and inserts later. It holds for undivided transactions and for triggers
  of an organization that do not overlap. In general an insert exceeds it exactly if since its count too many more runs
  began than ended (`InsertExceedsIff`), and with m triggers in flight at a time it is exceeded by at most m - 1
  (`OvershootBound`), which `RacingTriggers` reaches.
* The orchestrator's retry finds the run already failed, unless the failure write found no row or was lost
  (`RetryHelpsIff`). A trigger dispatches the task before its own transaction commits, so the former does happen
  (`RetryRepairsEarlyDelivery`).
* The finalizer counts the workers in one transaction and overwrites the counter in a later one. The counter is exact
  unless a worker completed in between (`EachWorkerCountedOnce`, `DisturbedRecount`).
* Hard deletion is invisible within a table exactly if no insert that goes through reuses a hard-deleted key
  (`HardDeletesAreInvisibleIff`). Across tables it is not: foreign keys cascade, and although the documentation of the
  scores and the schema's header speak of a trigger against deletion, the trigger covers updates only
  (alembic/versions/001_initial_schema.py:380-383). So scores stay exactly until their run, organization or an owner of
  the run is hard-deleted (`ScoreStaysIff`, and in terms of the operations alone `ScoreStaysWithItsOwners`), and live rows of an expired run vanish from default reads
  (`CascadeShowsIff`).

## Model

| member | source | states |
|---|---|---|
| RunModel.ProgressInRange | src/models/evaluation.py:206-211 | progress is never negative, and at most 100 exactly as long as the completed workers do not outnumber the assigned ones beyond rounding |
| RunProgress.ProgressIsNearest | src/models/evaluation.py:206-211 | progress is the completed share of the workers in per cent, to the nearest hundredth, and nought without workers |
| RunProgress.ProgressOfPreparedRun | src/workers/tasks/orchestrator.py:57-64 | a run as prepare leaves it, under any orderly history of the workers: a quarter of progress for each counted, never outside 0..100, 100 exactly when all four are counted, and with undisturbed recounts exactly when each type has completed |
| Rounding.RoundIsNearest | src/models/evaluation.py:211-211 | the rounding used throughout picks the nearest integer, the even one of two equally near |
| RunRepository.OneUpdatePerVersion | src/repositories/evaluation_run_repository.py:85-113 | of two updates that expect the same version the later one finds it consumed and changes nothing |
| RunRepository.RunTable.UpdateWithOptimisticLock | src/repositories/evaluation_run_repository.py:69-113 | succeeds exactly for a live row of the expected version, which it moves up by one; column by column the row then is as the change gives it or as it was, organization, creation and deletion time always as they were; a missing or deleted row is told from a conflict; on refusal nothing changes |
| RunRepository.RunTable.TransitionStatus | src/repositories/evaluation_run_repository.py:115-138 | under the same version check: only running sets the start time, only the three final statuses the completion time, and every other column is as the extra values give it or as it was |
| RunRepository.RunTable.Exists | src/repositories/base_repository.py:131-149 | true exactly if some version would let a locked update succeed; if false no locked update of whatever version changes anything, which is why the caller may report the row as missing |
| RunRepository.RunTable.CountActive | src/services/submission_service.py:231-243 | one more pending run makes the organization's active runs one more than this, so a count below the limit is exactly room for one; positive as soon as one run is active |
| RunTransactions.ActiveRunsOnlyShrink | src/services/submission_service.py:231-273 | no transaction but a trigger makes a run of an organization active |
| RunTransactions.TriggerKeepsLimit | src/services/submission_service.py:231-254 | a trigger never takes its or another organization over a limit that held |
| RunTransactions.CountingAddsUp | src/workers/tasks/base_task.py:268-303 | any number of worker bumps moves the two counters by the successes and the failures, and no other column, the version included |
| RunTriggers.StepKeepsInv | src/services/submission_service.py:231-273 | active runs are always those at the start plus those begun less those ended, and every count held by a trigger in flight is such a number |
| RunTriggers.InsertExceedsIff | src/services/submission_service.py:231-273 | in every run in which counts, inserts and all other transactions interleave, an insert exceeds the limit exactly if since its own count at least as many more runs began than ended as that count left room for |
| RunTriggers.WithoutCountNoInsert | src/services/submission_service.py:250-254 | a trigger that has tried its insert, was refused for want of room or was abandoned inserts nothing, whatever comes after, unless it counts again |
| RunTriggers.OvershootBound | src/services/submission_service.py:231-273 | with at most m triggers of an organization in flight at a time the limit is never exceeded by more than m - 1 |
| RunTriggers.NonOverlappingTriggersKeepLimit | src/services/submission_service.py:250-254 | triggers of one organization that do not overlap keep its limit, whatever else interleaves |
| RunTriggers.RacingTriggers | src/services/submission_service.py:231-273 | triggers that all count before any inserts are all let through; they keep the limit exactly if there was room for all, so the bound is reached |
| RunTriggers.TwoTriggersExceedLimitOfOne | src/services/submission_service.py:231-273 | a run from the empty table with a limit of one that ends with two active runs |
| RunTriggers.AdjacentCountAndInsert | src/services/submission_service.py:231-273 | count and insert back to back are the atomic trigger of the table model |
| RunTransactions.StepEvolves | src/workers/tasks/finalize.py:100-118 | whatever transaction runs, each row stays coherent, its version does not fall, and an ended run keeps status, completion time, score and message |
| RunTransactions.AtomicTransactionsAreSafe | src/services/submission_service.py:231-273 | over any sequence of transactions of all actors coherence, limits and the outcomes of ended runs are kept |
| RunTransactions.EveryReachableTableIsSafe | src/models/evaluation.py:76-120 | the same for every table reachable from the empty one and every later one: terminal is absorbing, completion time iff terminal, score iff completed, failed implies a message, active runs within the limit |
| RunInterleavings.StepKeepsInv | src/repositories/evaluation_run_repository.py:85-113 | each read, write, crash, clean-up, count and delete keeps the log invariant: every write found the version that counts the locked writes before it and came from a session that had read an unfinished run |
| RunInterleavings.VersionCountsLockedUpdates | src/repositories/evaluation_run_repository.py:85-98 | in every reachable state the version is one more than the number of successful locked updates |
| RunInterleavings.EachVersionCommitsOnce | src/repositories/evaluation_run_repository.py:85-113 | two successful locked updates never consumed the same version |
| RunInterleavings.CrashedSessionNeverWrites | src/workers/tasks/finalize.py:100-118 | a session that crashed between its read and its write writes nothing, whatever comes after, unless it reads again |
| RunInterleavings.EndedRunIsHitOnlyByStaleWrite | src/services/evaluation_service.py:267-293 | a write hits an ended run if and only if it is stale: a versioned one with any write since its read, a cancel with another write than a start of the run last since its read; only unversioned writes can have come between a versioned write and its read |
| RunInterleavings.FreshUnlessUnversioned | src/repositories/evaluation_run_repository.py:85-113 | a versioned write finds exactly the status that was read, if and only if nothing came between, if and only if no unversioned status write did |
| RunInterleavings.EndedStaysUntilStaleWrite | src/workers/tasks/finalize.py:100-118 | from an ended run on, the outcome stays until a first write that is itself recorded as hitting an ended run |
| RunInterleavings.SafeUnlessStale | src/workers/tasks/finalize.py:100-118 | without stale writes: ended runs keep their outcome, columns agree with the status, only the last write may end the run, at most one finalize commits |
| RunInterleavings.VersionedWritersAreNeverStale | src/workers/tasks/orchestrator.py:44-64 | prepare, finalize, fail, counters and soft deletes alone, redelivered and interleaved at will, make no stale write |
| RunInterleavings.VersionedWritersAreSafe | src/workers/tasks/finalize.py:100-118 | for those writers terminal is absorbing and the score is written at most once, over every interleaving of reads and writes |
| RunInterleavings.AdjacentEventsAreTheTransaction | src/services/evaluation_service.py:276-293 | on any table, one atomic transaction does to a row what its read and write events back to back do, or nothing if it does not touch the row |
| RunInterleavings.TableRunsAreRowRuns | src/services/evaluation_service.py:276-293 | over any sequence of transactions on any table, each row ends where the events of the transactions that touch it take it, without a stale write: the coarse model refines to the fine one |
| RunInterleavings.AtomicTransactionsAreNeverStale | src/services/evaluation_service.py:276-293 | with all actors but each transaction undivided no write is stale |
| RunInterleavings.CancelIsOverwrittenByEarlierReader | src/services/evaluation_service.py:291-293 | a whole cancel after a versioned session's read does not stop that session's write |
| RunInterleavings.CleanupIsOverwrittenByEarlierReader | src/workers/cleanup_worker.py:136-156 | the same for the stale-run clean-up |
| RunInterleavings.CancelledRunRevived | src/services/evaluation_service.py:291-293 | a reachable state in which a cancelled run is running again with its completion time left behind |
| Orchestrator.PrepareRun | src/workers/tasks/orchestrator.py:31-82 | exactly when each of the three outcomes occurs, the columns a prepared run has (running, started now, four workers, all else as it was), the error reported, and that a failure or database error after the status change rolls it back |
| Orchestrator.FailRun | src/workers/tasks/orchestrator.py:166-187 | an open run becomes failed with message and time and is else as it was, other runs are left alone, and so is the table if the write is lost |
| Orchestrator.EvaluateSubmission | src/workers/tasks/orchestrator.py:93-163 | skipped exactly for ended runs, dispatched exactly for open runs when all succeeds; otherwise the reported error is written to the run as the other actors have left it, unless that write is lost |
| Orchestrator.EvaluateWithRetry | src/workers/tasks/orchestrator.py:85-163 | for every table and whatever is committed between the two deliveries: there is a retry exactly after a failed first delivery, and it dispatches exactly if its own surroundings let it and the run is then open |
| Orchestrator.RetryHelpsIff | src/workers/tasks/orchestrator.py:159-187 | the retry finds the run open exactly if the first delivery's failure write found no row, or was lost while the run was open, and nothing closed the run afterwards |
| Orchestrator.FirstErrorIsFinal | src/workers/tasks/orchestrator.py:176-187 | a failure write that lands leaves its error and time on the run whatever undivided transactions follow; among divided ones `RunInterleavings.EndedStaysUntilStaleWrite` applies |
| Orchestrator.RetryRepairsEarlyDelivery | src/services/submission_service.py:275-280 | a first delivery before the trigger's commit fails for want of the row, and the retry dispatches |
| Orchestrator.RetryRepairsLostWrite | src/workers/tasks/orchestrator.py:186-187 | a database error that also swallows the failure write leaves the run open, and the retry dispatches |
| SubmissionService.TriggerEvaluation | src/services/submission_service.py:194-298 | exactly when each refusal occurs; refusals change nothing; success adds one pending run of version one that nobody has worked on, within the limit, and puts the submission under review |
| EvaluationService.CancelEvaluationRun | src/services/evaluation_service.py:267-306 | succeeds exactly for a live pending or running run of the organization; status and completion time change, the version and everything else stay |
| CleanupWorker.CleanupStaleRuns | src/workers/cleanup_worker.py:120-160 | pending and running runs created more than 24 hours ago, and only these, become failed with message and time and are counted; everything else stays |
| Finalizer.ComputeScore | src/workers/tasks/finalize.py:73-86 | the score formula, always in 0..1 |
| Finalizer.Finalize | src/workers/tasks/finalize.py:30-118 | with any transactions of others between its first and its last, completes exactly a run that is unfinished at both checks, with the score of the data first read and the counts given, and leaves its other columns and all other runs as those transactions left them |
| Finalizer.FirstScoreStands | src/workers/tasks/finalize.py:100-118 | after one finalizer completed the run, no later transactions and no second finalizer with other data change its score |
| WorkerTask.CountersMatchSettlements | src/workers/tasks/base_task.py:244-303 | completed plus failed workers always equal the settled attempts since the last recount, whatever crashed or interleaved |
| WorkerDelivery.WholeDeliveryEffect | src/workers/tasks/base_task.py:92-115 | a delivery that goes well either changes nothing, if an output is stored, or stores its output and is counted once |
| WorkerDelivery.RedeliveryIsIdempotentIffRemembered | src/workers/tasks/base_task.py:92-135 | after any history and in whatever way the redelivery goes, it leaves the rows as they are exactly if the last settlement was a completion with a non-empty output and its own check does not fail; a check that fails discards the stored output and counts a failure; without a stored output a delivery that returns is counted complete, again if it was before |
| WorkerTask.StepKeepsOnce | src/workers/tasks/base_task.py:92-135 | each step of an orderly history (no empty output, no failure after the commit, no failing check over a stored output; a recount's read and write are two steps) keeps: a worker's completions equal its completed rows, at most one, stored outputs stay, and the counter misses exactly the completions between the read and the write of the last recount |
| WorkerTask.EachWorkerCountedOnce | src/workers/tasks/finalize.py:90-118 | over any orderly interleaving with crashes, redeliveries and any number of recounts each worker type is counted complete at most once, the counter never exceeds the completions, equals them exactly if none fell between the last recount's read and write, and progress stays in 0..100 |
| WorkerTask.DisturbedRecount | src/workers/tasks/finalize.py:90-118 | a history in which a worker completes between a recount's two transactions and is missing from the counter |
| WorkerTask.CompletedOutputIsStable | src/workers/tasks/base_task.py:177-195 | in an orderly history, once completed, every later delivery finds the same output and no completion is added |
| WorkerDelivery.DisorderIsCountedTwice | src/workers/tasks/base_task.py:92-135 | an empty output, a failure after the completion commit, or a failing idempotency check over a stored output ends in two counts for one worker |
| WorkerDelivery.TaskStore.CheckIdempotent | src/workers/tasks/base_task.py:177-195 | fails exactly if its query does; else returns an output exactly if every delivery whose own check passes changes nothing, and nothing exactly if every delivery whose failure record is not lost is settled; the output is that of the completed row |
| WorkerDelivery.TaskStore.CreateWorkerResult | src/workers/tasks/base_task.py:199-242 | the worker's row is running and no longer answers a redelivery; an old row keeps its output and error, a new one is empty; other rows and both counters are untouched |
| WorkerDelivery.TaskStore.MarkCompleted | src/workers/tasks/base_task.py:244-274 | the completion counter moves by one and the failure counter not; a non-empty output is what the next idempotency check returns; an old error and other rows stay; without a row only the counter moves |
| WorkerDelivery.TaskStore.MarkFailed | src/workers/tasks/base_task.py:276-305 | the failure counter moves by one and the completion counter not; the row keeps its output but no longer answers a redelivery; the stored message is the first 2000 characters; other rows stay |
| WorkerDelivery.TaskStore.Run | src/workers/tasks/base_task.py:73-135 | for each way a delivery can go, an exception in the check, in the record, in execute(), in the completion transaction or after it, and with the failure record written or lost: reply, row, counters and dead letter; other workers' rows untouched; the rows are those of the transition system |
| WorkerDelivery.DeliveryEffect | src/workers/tasks/base_task.py:73-135 | each way a delivery can go is a path of the transition system over which the results on all histories are proved, with the rows that the template method leaves |
| WorkerDelivery.DeliverySettles | src/workers/tasks/base_task.py:92-135 | how many attempts each way of going settles in the counters, and which alone leave the rows as they are |
| TokenRefresh.StepKeepsInv | frontend/src/api/client.ts:43-114 | every handler step keeps the single flight, the queue of exactly the parked requests and the settlement ledger |
| TokenRefresh.RefreshIsSingleFlight | frontend/src/api/client.ts:50-67 | in every reachable state at most one refresh is in flight, a waiting request implies one, and the queue holds each waiting request once |
| TokenRefresh.EachParkedRequestIsSettledOnce | frontend/src/api/client.ts:20-32 | every wait is settled exactly once, in order, by the outcome of the refresh it waited on; none is left when no refresh runs |
| TokenRefresh.EventDecreasesMeasure | frontend/src/api/client.ts:50-110 | every event but a new request lowers a lexicographic measure, and refreshes are paid for by requests not yet marked |
| TokenRefresh.NoEndlessRefreshing | frontend/src/api/client.ts:50-66 | n requests cause at most n more refresh calls and a bounded number of events, even if the server answers 401 for ever |
| TokenRefresh.UnfinishedRequestsCanProceed | frontend/src/api/client.ts:50-110 | as long as a request has not ended some event can happen: nothing is stuck in the queue |
| TokenRefresh.QuietMeansDone | frontend/src/api/client.ts:50-110 | a run that only a new request could extend has ended every request |
| TokenRefresh.FirstUnauthorized | frontend/src/api/client.ts:50-67 | at any time a new request's first 401 starts a refresh, or waits for the one in flight |
| TokenRefresh.SendCauses | frontend/src/api/client.ts:55-97 | a step puts a request on the wire exactly if it is its first sending, the continuation of a resolved wait, or the end of its own successful refresh |
| TokenRefresh.SendsAreAccountedFor | frontend/src/api/client.ts:50-97 | the sends of a request are exactly one, plus one for each of its resolved waits, less one if the last of them has yet to be sent, plus one for each successful refresh of its own |
| TokenRefresh.ApiClient.ProcessQueueNow | frontend/src/api/client.ts:20-32 | every queued request is woken, or on error ended, with its mark kept; others are untouched and the queue is empty |
| TokenRefresh.ApiClient.OnResponse | frontend/src/api/client.ts:43-79 | what each kind of reply does to the request, the flag and the queue: end, wait at the end of the queue, lead a refresh marked, or end for want of a token; no other request changes and the invariant is kept |
| TokenRefresh.ApiClient.OnRefreshEnded | frontend/src/api/client.ts:81-110 | after a success the leader is on the wire again and every waiting request woken, after a failure all of them have ended; marks and other requests stay, nothing waits and no refresh runs |
| TokenRefresh.ApiClient.OnContinue | frontend/src/api/client.ts:55-60 | a woken request is sent again, and nothing else changes |
| RateLimit.StoredIsTheWindow | src/middleware/rate_limiter.py:62-76 | pruning and key expiry lose and keep nothing: the stored set is the full request history restricted to the window, for any slack in the expiry |
| RateLimit.LimitersDisagreeOnlyOnEqualTimestamps | src/rate_limit.py:41-68 | count-then-add and add-then-count decide alike except, exactly, on a timestamp already in a full set; never with strictly increasing timestamps |
| RateLimit.AdmittedByTimesIff | src/middleware/rate_limiter.py:62-99 | in any history: the first request of an instant is admitted exactly if fewer than `limit` different times lie in the window before it, a repeat exactly if at most `limit` - 2 do |
| RateLimit.ShareDecides | src/middleware/rate_limiter.py:62-99 | so of the requests of one instant all are admitted, or the first only, or none, by that number |
| RateLimit.WindowExceedsIff | src/middleware/rate_limiter.py:62-99 | in any history, by the request times alone: a window-long interval holds more than `limit` admitted requests exactly if the repeats of instants let through in full outnumber the places that the admitted instants, at most `limit`, leave |
| RateLimit.AdmittedIff | src/middleware/rate_limiter.py:62-99 | with strictly increasing timestamps a request is admitted exactly if the one `limit` places before it is at least a window older |
| RateLimit.EveryWindowObeysTheLimit | src/middleware/rate_limiter.py:62-99 | with strictly increasing timestamps no window-long interval, open at either end, holds more than `limit` admitted requests, over histories of any length |
| RateLimit.EveryWindowObeysTheLimitByTime | src/middleware/rate_limiter.py:62-99 | with repeated timestamps too, no window-long interval has admissions at more than `limit` different times |
| RateLimit.SameInstantIsAdmitted | src/middleware/rate_limiter.py:73-73 | for a history of one instant: all its requests are admitted from a limit of two on, and only the first at a limit of one |
| RateLimit.QuietAndBusyClients | src/middleware/rate_limiter.py:62-99 | after a quiet window a request passes if the limit is positive; a client whose preceding windows are all full never passes |
| RateLimit.RetryAfterIsTooSoon | src/rate_limit.py:59-68 | the exact moment from which a rejected client is admitted again, and that waiting for the announced one is not enough |
| RateLimit.WaitingAWindowIsEnough | src/middleware/rate_limiter.py:87-99 | the middleware's Retry-After, one window, is long enough exactly if the limit is positive |
| RateLimit.Oldest | src/rate_limit.py:62-65 | finds the least timestamp of the set |
| RateLimit.RedisStore.Dispatch | src/middleware/rate_limiter.py:47-105 | the stored set is pruned, extended and renewed entry by entry for every request, rejected ones too; 429 exactly when the earlier requests fill the limit; the remaining slots and the reset time |
| RateLimit.RedisStore.CheckRateLimit | src/rate_limit.py:25-75 | fails open without Redis and on an error before, after or beyond the pipeline; else the set is pruned, extended and renewed, and exceeded exactly when it then outgrows the limit, with the whole seconds, at least one, until the oldest entry leaves the window |
| CrossCheck.DetectContradiction | src/workers/tasks/cross_check.py:133-163 | reports a conflict exactly if some pair of positive numbers differs by more than a factor of three, with the severity of the pair found first |
| CrossCheck.CompareNumbers | src/workers/tasks/cross_check.py:149-156 | the division test equals the multiplication-only test on positive numbers |
| CrossCheck.ConflictIsSymmetric | src/workers/tasks/cross_check.py:141-163 | the verdict does not depend on which text comes first |
| CrossCheck.ExtremesDecide | src/workers/tasks/cross_check.py:145-152 | trying all pairs equals comparing the greatest positive number of one text with three times the least of the other, both ways |
| CrossCheck.SeverityDependsOnOrder | src/workers/tasks/cross_check.py:147-156 | two texts that get different severities in the two orders |
| CrossCheck.CheckPairs | src/workers/tasks/cross_check.py:85-130 | the nested loop records exactly the conflicting pairs of one category, each once, in lexicographic order, and shows the first twenty |
| CrossCheck.PairsIgnoreOrder | src/workers/tasks/cross_check.py:85-117 | any reordering of the claims yields the same number of contradictions |
| Scoring.AverageBetween | src/repositories/score_repository.py:93-120 | the weighted average lies between any bounds of the values, rounded alike |
| Scoring.AverageIgnoresOrder | src/repositories/score_repository.py:107-120 | the weighted average does not depend on row order |
| Scoring.AverageMonotone | src/repositories/score_repository.py:107-120 | the average does not fall when values rise |
| Scoring.BucketsPartition | src/repositories/contradiction_repository.py:94-111 | the four bucket counts sum to the number of contradictions, and the finalizer's penalty over buckets equals the cost of each contradiction, summed |
| Scoring.CostOfRatio | src/workers/tasks/cross_check.py:151-156 | the composed map from ratio through severity, rounding and bucket to penalty: free up to 4.05, then 0.01 up to 6.05, 0.03 up to 8.05, 0.05 above |
| Scoring.CostMonotoneInRatio | src/workers/tasks/finalize.py:75-83 | a greater disagreement never costs less |
| Scoring.ScoreInUnitInterval | src/workers/tasks/finalize.py:85-86 | by the final clamp alone the score is in 0..1, whatever rows and contradictions there are |
| Scoring.ScoreIsAverageLessCost | src/workers/tasks/finalize.py:75-86 | in exact arithmetic the second rounding and the upper clamp change nothing |
| Scoring.ScoreMonotoneInValues | src/workers/tasks/finalize.py:85-86 | the final score does not fall when a dimension's value rises |
| Scoring.ScoreAntitoneInContradictions | src/workers/tasks/finalize.py:75-86 | the final score does not rise when contradictions are added |
| Scoring.RedeliveredCrossCheckCosts | src/workers/tasks/cross_check.py:60-123 | k deliveries of the cross-check on the same claims cost k times the contradictions of one |
| Scoring.RedeliveredCrossCheckHarmlessIff | src/workers/tasks/cross_check.py:60-123 | two or more deliveries leave the final score as one does exactly if the contradictions cost nothing or the score was zero already |
| Fabrication.AssessClaimRisk | src/workers/tasks/fabrication.py:116-167 | the risk is the sum, capped at one, of 0.2 for a superlative, 0.15 and 0.1 for each round number by size, 0.2, 0.1 and 0.3 for the growth patterns and 0.15 for low confidence; the factors are those noted, in order |
| Fabrication.FactorsMean | src/workers/tasks/fabrication.py:129-162 | each factor is noted exactly if its signal is there; of the superlatives the first found, and it alone |
| Fabrication.AssessmentBounds | src/workers/tasks/fabrication.py:164-167 | risk is in 0..1 in steps of 0.05 and positive exactly if the factor list is not empty |
| Fabrication.LevelReflectsFlags | src/workers/tasks/fabrication.py:61-103 | a high level implies more than a fifth of the claims flagged, a low one at most six elevenths, and all flagged is never low |
| Fabrication.ClaimTable.ProcessClaim | src/workers/tasks/fabrication.py:64-91 | one round marks the row exactly if its risk is above one half and adds to the totals |
| Fabrication.ClaimTable.DetectFabrication | src/workers/tasks/fabrication.py:42-113 | claims of a risk above one half are marked, as disputed above 0.7, all others untouched; the summary has the level, the mean risk to four decimals, the number of flagged claims and the first ten in order, with the level bounds above |
| LlmJudge.ValidateLlmOutput | src/workers/tasks/llm_judge.py:324-345 | accepts exactly an output with, for each of the six dimensions, a value that is a number from nought to one or NaN |
| LlmJudge.BaseScoreIs | src/workers/tasks/llm_judge.py:352-365 | the base score falls from the mean confidence, a half without claims, by 0.05 for each of the first six contradictions and a fifth of the fabrication risk, but not below 0.1 |
| LlmJudge.BaseScoreMonotone | src/workers/tasks/llm_judge.py:352-365 | more contradictions or risk never raise it, more confidence never lowers it |
| LlmJudge.SyntheticValueIsNear | src/workers/tasks/llm_judge.py:370-372 | a synthetic value is the varied base score clipped to 0..1, to four decimals |
| LlmJudge.GenerateSyntheticScores | src/workers/tasks/llm_judge.py:348-381 | an output with a value for each dimension, made from the base score and its variation |
| LlmJudge.SyntheticIsValid | src/workers/tasks/llm_judge.py:348-381 | every synthetic output passes validation and the table's constraints, whatever the evidence |
| LlmJudge.ScoreTable.StoreScores | src/workers/tasks/llm_judge.py:217-235 | all dimensions are stored with their weights or none is, and exactly when each |
| LlmJudge.ScoreTable.RunLlmJudge | src/workers/tasks/llm_judge.py:177-235 | whatever the two models do, one valid output is chosen; one score per dimension in 0..1 with its weight is stored, or the table is unchanged; and for each case of error, malformed and valid answer which model is named |
| LlmJudge.OnlyNaNIsRolledBack | src/workers/tasks/llm_judge.py:339-341 | a chosen output fails the constraint exactly if a model's own answer holds a NaN |
| LlmJudge.NaNIsAcceptedAndRolledBack | src/workers/tasks/llm_judge.py:339-341 | an output of NaNs that is accepted and cannot be stored |
| LlmJudge.NoDefaultAfterJudge | src/workers/tasks/finalize.py:62-86 | for the scores that a judge stored, in whatever order they are read: the weights sum to one, the average exists and is the rounded weighted sum, the default is not taken, and the final score is that sum less the cost |
| HardDeletion.HardDeletesAreInvisibleIff | src/repositories/base_repository.py:165-209 | over any sequence of operations on a table, all creates, soft deletes and default reads are answered as if no hard delete had happened, exactly if no create that goes through uses a key that an earlier hard delete removed |
| HardDeletion.FirstReuseTells | src/repositories/base_repository.py:153-163 | the first such create is the first reply to differ: it succeeds with the hard deletes and is refused without them |
| HardDeletion.FreshKeysAreNoReuse | src/models/base.py:6-12 | with time-ordered keys that were never in use there is no such create |
| HardDeletion.ReusedKeyTells | src/repositories/base_repository.py:153-163 | the smallest instance: one soft-deleted row and an insert under its key |
| HardDeletion.RetainedUntilCutoff | src/repositories/base_repository.py:194-209 | over any run a soft-deleted row stays, with its first deletion time, exactly until a hard delete with a later cut-off, and no read sees it again |
| RecordStore.PrimaryKeyForEver | src/repositories/base_repository.py:153-163 | no run of operations repeats a key |
| RecordStore.GetReturnsTheRow | src/repositories/base_repository.py:53-81 | by rows: the look-up returns a row exactly if it is there, live, and has the key and, if asked for, the organization; nothing exactly if there is none |
| RecordStore.ExistsIff | src/repositories/base_repository.py:131-149 | true exactly if such a row is there |
| RecordStore.ListingIsOfTheOrganization | src/repositories/base_repository.py:83-129 | the total of a page is the number of the organization's live rows, and the page holds only such rows, at most its size |
| RecordStore.PagesListTheOrganization | src/repositories/base_repository.py:83-129 | the pages of the list, one after the other, are the organization's live rows, each once, newest first |
| RecordStore.Repository.CreateMany | src/repositories/base_repository.py:153-163 | goes through exactly if the keys differ from each other and from all in the table; then the new rows, undeleted, follow the old ones in order, else nothing changes |
| RecordStore.Repository.SoftDelete | src/repositories/base_repository.py:165-192 | true exactly if a live row with the key and, if given, the organization was there; that row alone is marked with the time, and is not found afterwards |
| RecordStore.Repository.HardDeleteExpired | src/repositories/base_repository.py:194-209 | removes exactly the rows deleted before the cut-off and counts them; live rows keep their order |
| ScoreStore.ScoresAreForEver | src/repositories/score_repository.py:34-72 | over any run of the repository's own operations the old table stays a prefix of the new one and no two scores share run and dimension |
| ScoreStore.CreatedScoreIsFound | src/repositories/score_repository.py:34-53 | after any run of the repository's own operations in which a score went through, alone or in a batch, it is there unchanged, and a second one for its slot is refused, by the look-up within the organization and by the index outside it |
| ScoreStore.CreateScoreIff | src/repositories/score_repository.py:34-53 | exactly when a single score is accepted |
| ScoreStore.BulkCreateIff | src/repositories/score_repository.py:55-65 | a batch is stored, after the old scores and in its order, exactly if its keys are free, its values and weights in range, its dimensions distinct and its slots free |
| ScoreStore.BatchCheckAndIndexDiffer | src/repositories/score_repository.py:55-65 | the batch check refuses what the index would take, and lets through what the index then refuses |
| ScoreStore.ScoreRepository.CreateScore | src/repositories/score_repository.py:34-53 | appends the score or changes nothing; a conflict exactly if the organization has one for the slot |
| ScoreStore.ScoreRepository.BulkCreateScores | src/repositories/score_repository.py:55-65 | appends all scores or none; a conflict exactly if a dimension repeats |
| ScoreStore.ScoreRepository.HardDeleteExpired | src/repositories/base_repository.py:194-209 | never finds a score to delete |
| Cascade.ScoreGoesIff | src/models/score.py:75-85 | one operation on any of the four tables removes a score exactly if it is a hard delete in which its run, its organization or an owner of its run has expired |
| Cascade.RunGoesIff | src/models/evaluation.py:119-136 | a hard delete removes a run exactly if the run, its submission or an organization of theirs has expired |
| Cascade.SubmissionGoesIff | src/models/submission.py:55-59 | the same for submissions |
| Cascade.OrganizationGoesIff | src/repositories/base_repository.py:194-209 | an organization goes exactly if it has expired in a hard delete of organizations |
| Cascade.EveryKeyResolves | src/models/score.py:75-85 | over any run on the four tables every foreign key finds its row: cascades leave no row without its owners |
| Cascade.ScoreNeedsItsOwners | src/models/score.py:75-85 | a score is admitted to its own rules exactly if its run and its organization are there |
| Cascade.RunNeedsItsOwners | src/models/evaluation.py:119-136 | the same for a run, its submission and its organization |
| Cascade.ScoreStaysIff | src/models/evaluation.py:119-136 | over any run on organizations, submissions, runs and scores a created score stays, unchanged, exactly as long as no hard delete finds one of its owners expired |
| Cascade.ScoreStaysWithItsOwners | src/models/evaluation.py:119-136 | the same by the operations and the owners' rows at the start alone: the score stays exactly if no owner is soft-deleted and then met by a hard delete of its table with a later cut-off |
| Cascade.StepKeepsConstraints | alembic/versions/001_initial_schema.py:285-305 | cascades and all other operations keep the primary key, the unique index and the check constraints of the scores |
| Cascade.CascadeShowsIff | src/repositories/base_repository.py:194-209 | for any child table and any rows a cascade takes: some default read shows it exactly if one of those rows was live |
| Cascade.RunDeletionShowsInScoresIff | src/workers/cleanup_worker.py:77-82 | a hard delete of runs shows in a default read of the scores exactly if a run with scores has expired |
| Cascade.ExpiredRunTakesItsScores | src/workers/cleanup_worker.py:77-82 | a live score of an expired run, and its removal |
| Pagination.PagesPartition | src/utils/pagination.py:58-71 | pages 1 to total_pages, one after the other, are the list |
| Pagination.PagesAreFull | src/utils/pagination.py:58-71 | every page before the last is full, the last is not empty, later ones are empty |
| Pagination.HasNextIff | src/utils/pagination.py:69-69 | has_next exactly if full pages up to here do not reach the end |
| Pagination.CeilDivIs | src/utils/pagination.py:58-58 | the page count is the quotient rounded up, for a negative size too |
| Pagination.RefusedIff | src/utils/pagination.py:57-58 | only a page size of nought on a non-empty list fails; the empty list has no pages |
| Pagination.FollowNext | src/utils/pagination.py:62-71 | following has_next from page 1 sees every item once, visits each page once and stops |
| Pagination.BothRoutesAgree | src/utils/pagination.py:18-44 | a page cut out by the database and wrapped equals the page cut out of the list |
| Pagination.PagesBelowOne | src/utils/pagination.py:59-71 | what pages 0 and below contain, and that they claim a next page except page 0 of an empty list |

## Left out

- Floating point: scores, ratios, severities and timestamps are exact reals, risks exact hundredths; rounding is to nearest, ties to even, on exact values.
- Text extraction: the numbers, keywords and growth patterns that regular expressions find are inputs.
- Postgres, Redis, Celery, HTTP: a table is a map or a sequence of rows, a sorted set a set of times with an expiry, a transaction an atomic step, redelivery a step that may happen at any time.
- TriggerEvaluation: the method runs count and insert undivided; `RunTriggers` divides them. Dispatch to the queue, the task id and the audit entry are not modelled.
- CancelEvaluationRun: revoking the Celery task and the audit entry are not modelled.
- Finalize: audit entry, webhook and statistics refresh are not modelled, nor a failing update of the submission's status, which the code swallows.
- CountActive: follows the count in the submission service; the repository's own count, which skips deleted rows, is not used there.
- CleanupStaleRuns: the maintenance task first runs a hard delete that imports an `EvaluationResult` model which the repository no longer defines, so as it stands the task fails before it reaches the stale runs; their clean-up is modelled as written, as if it were reached.
- EveryReachableTableIsSafe: hard deletion of whole runs is not a step there (`Cascade` has it), and limits are fixed during a run.
- EvaluateSubmission: a dispatch that fails after some of its messages were sent is not told from one that sent none.
- Cascade: users and configurations, whose deletion sets a column to null, and claims, contradictions and worker results, which go with their run like scores, have no tables of their own; `CascadeShowsIff` is stated for any such table.
- Run: Celery's decorated tasks bring their own `run`, which takes the place of the template method; the template is modelled as it is written to be used. Progress reports to Redis and the trimming of the dead-letter list are not modelled.
- EachWorkerCountedOnce: deliveries to one worker type are serial. No index keeps (run, worker type) unique, so two at the same time can both pass the check and even create two rows, after which look-ups by that pair fail; this is not modelled.
- ApiClient: redirects, local storage and request headers are not modelled; a handler runs to its next await without interruption, as in a browser.
- RunLlmJudge: prompt, token usage, cost and rationale are not modelled; the random variation and the evidence are inputs.
- DetectFabrication: a crash between two claims' updates is not modelled.
- PagesListTheOrganization: only the default order, newest first; rows of one instant keep the order of insertion, where the database may choose any. Extra filters are not modelled.
- ScoreRepository: `soft_delete` always refuses and is a case of `Perform`, not a method.
- RateLimit: requests of a key reach Redis in the order of their timestamps, as from one clock; how a key is derived from the request is not modelled.
- Login, lockout, tokens, encryption, uploads, caching, datasets, the four analysis tasks, metrics, migrations and the pages of the frontend are not part of this model.
