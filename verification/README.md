# Procintel background work: a verified model

Procintel moves procurement data through PostgreSQL-backed job tables, leases, retries and rate limiters, and decides
much of what users see with small fast algorithms: a preselection before a rule matcher, an alias index before a
gazetteer scan, a greedy comparison of document versions. This project models these parts in Dafny and proves what they
promise over every run, every interleaving and every input.

Two forms recur. Where the source updates state (limiters, job tables, cursors, reports), a class or a method with a loop
does the same steps and is proved equal to a specification function or predicate; the theorems about whole runs are
lemmas over that specification. Where the source computes a value, the model is a function with lemmas.

| file | what it models |
|---|---|
| Common.dfy | optional values, minimum and maximum, and lists without repetition, for the other files |
| TokenBucket.dfy, Clocks.dfy | the token bucket, on a clock that never runs backwards |
| SharedWindow.dfy, Stamps.dfy | the sliding window that processes share through a locked file |
| RequestLimiter.dfy | the in-memory request limiter with its bounded table of windows |
| EnrichmentQueue.dfy | the enrichment job table: every statement as a row transition |
| EnrichmentSweep.dfy | the round-robin sweep over that table, its budgets and its accounting |
| BidReminders.dfy | reminder delivery by several workers with leases fenced by claim times |
| Digests.dfy | alert digests: leased runs per local period and the events they cover |
| DigestCoverage.dfy | what digests cover when several workers deliver them |
| DocumentTerms.dfy | the comparison of two document versions |
| Preselection.dfy | the taxonomy preselection against the rule matcher |
| Gazetteer.dfy | the alias index against the gazetteer scan |
| Amounts.dfy | reading the number of a monetary amount |
| Backfill.dfy | date windows and the resumable backfill |
| CountryRotation.dfy | the daily choice of countries |
| MartRefresh.dfy | the mart refresh in dependency order |
| ColumnLetters.dfy | spreadsheet column letters |

## What the proofs found

- The retry delay of the enrichment queue has a cap of 24 hours that is never met: the exponent stops at ten, so no delay
  exceeds 1024 minutes (`EnrichmentQueue.RetryDelayDoubles`).
- Nor does the retry delay of reminders ever meet its cap of six hours (`BidReminders.RetryDelayDoubles`).
- A QUEUED job without attempts, which nothing can claim, comes not only from the recovery of a stale last lease but also
  from deferring a last attempt without a refund, and from opening a job with no attempts
  (`EnrichmentQueue.StrandedExactlyBy`).
- SUCCEEDED and permanent DEAD are left exactly by deferring the job or failing it with a block or for a cause that is not
  terminal for good (`EnrichmentQueue.SettledStaysIff`, over runs `EnrichmentQueue.SettledThroughoutIff`), and the
  statements let anybody send that. The scheduled ingest leaves succeeded jobs alone but defers others that it does not
  hold, if their provider is not inline or its budget is used up
  (services/ingestion/connectors/khmdhs/scheduled.py:238-258), and so revives permanently DEAD ones
  (`EnrichmentQueue.ScheduledIngestRevivesDead`). A SUCCEEDED job is revived by a worker whose lease went stale and whose
  call then finds the circuit open (`EnrichmentQueue.LateDeferRevivesSuccess`).
- That a row is locked iff running and within its attempts needs no lease discipline (`EnrichmentQueue.EveryRunIsBound`).
  That FAILED leaves attempts and DEAD is permanent or exhausted does not hold of every run, because a failure reads the
  counters in one statement and writes in another. `EnrichmentQueue.RunIsSafeIff` says exactly when it holds, and
  `EnrichmentQueue.HeldRunIsSafe` that lease holders whose limit is not raised in between keep it. A worker that reads
  after its lease was recovered, and writes when the next one has the last attempt, leaves a FAILED row that nothing can
  start (`EnrichmentQueue.LateFailureStrandsJob`); a limit that is raised in between leaves a DEAD row with attempts
  (`EnrichmentQueue.RaisedTooLateIsDead`).
- Reminder fencing needs no assumption that the workers' clocks differ: two claims of one reminder never carry the same
  time (`BidReminders.ClaimTimesIncrease`). A reminder whose last lease goes stale is never marked SENT and never
  marked FAILED (`BidReminders.LostExactlyByRecovery`, `BidReminders.LostForever`).
- The docstring of the digest sweep says "exactly once per local period". That holds for one worker
  (`Digests.DeliveredPeriodsPartition`). With several workers nothing is ever skipped (`DigestCoverage.NothingIsSkipped`),
  but each event is in exactly one delivered digest, and in the message that was sent for it, if and only if every recorded
  delivery passes two checks that the final update does not make (`DigestCoverage.DeliveredOnceAsSentIff`):
  its period begins at the last delivered end, and its attempt is still the attempt of the run. Without the first, two
  periods that are open at once, as around a local midnight, are both delivered and overlap although no lease expires
  (`DigestCoverage.OpenPeriodsOverlap`). Without the second, a worker that outlives its lease marks a longer, reclaimed
  period as delivered, and what only that one held is in no message (`DigestCoverage.LateWorkerHidesEvents`).
- The wait that the shared window returns is enough, undisturbed, exactly when the limit-th latest stamp leaves the window
  with the oldest one or within a hundredth of a second (`SharedWindow.OneWaitSufficesIff`). With one limit it always is
  (`SharedWindow.OneLimitNeedsOneWait`); with different limits on one file it need not be
  (`SharedWindow.MixedLimitsNeedMoreWaits`).
- The seconds that a refused request is told to wait are rounded down. Coming back then is too early exactly when the
  oldest stamp had more than a second left and not a whole number of seconds (`RequestLimiter.RefusedAgainIff`);
  `RequestLimiter.RetryAfterIsTooShort` is refused at 10.5, told 49 seconds, and refused again at 59.5.
- The alias index and the scan disagree for the three administrative hints (`Gazetteer.AdministrativeHintDisagrees`):
  exactly when an administrative place with a bonus, whose name only starts alike, is more popular by two than exact
  matches that are neither administrative nor have a bonus (`Gazetteer.IndexAgreesIff`).
- The preselection is documented as a safe superset of what the rules accept, but it tests the open acts of a process one
  by one, while the rules see the title of the process and the codes of all its acts. It cuts nothing that a rule accepts
  if and only if the open acts show all of that (`Preselection.PreselectionIsSafeIff`): some act is open, every code,
  up to its dash, begins a code of an open act, and every keyword that matches the title of the process has
  a pattern that matches the title of an open act. A notice under one code with an award under another is cut
  (`Preselection.AwardedCodeIsCut`), and so is a title with Latin accents, such as "aquisição", which the matcher strips
  and SQL does not (`Preselection.UnmatchedPatternCuts`).
- A grouped number is read exactly when its separators are not marks and spaces mixed (`Amounts.GroupedNumberIsReadIff`);
  "1.234 567" is found in a text and then dropped.
- A backfill whose range begins earlier than that of the runs before it, under the same key, never fetches the earlier
  days without restart, and reports them complete if they end by the cursor (`Backfill.EarlierDaysAreNeverFetched`).
- With errors passed over, a backfill can skip a day for good and still report "already complete"
  (`Backfill.ContinuingLosesADay`); `Backfill.NoGapIff` says exactly when a
  sequence of runs does not.

## Model

| member | source | states |
|---|---|---|
| TokenBuckets.LevelBound | packages/source_clients/rate_limit.py:35-42 | for any bucket and any attempts, the tokens on hand never exceed burst plus refill less what was granted, over every interval that ends there |
| TokenBuckets.IntervalBound | packages/source_clients/rate_limit.py:30-43 | between any attempt at s and any grant at t at most capacity + rate * (t - s) is granted |
| TokenBuckets.LevelIsTight | packages/source_clients/rate_limit.py:35-40 | from a full bucket the level is exactly the bound of some interval, so no token is lost |
| TokenBuckets.GrantedIffEveryIntervalAllows | packages/source_clients/rate_limit.py:35-42 | the bucket is the most permissive limiter with the interval bound: it grants exactly when no interval would exceed its allowance |
| TokenBuckets.TokensInRange | packages/source_clients/rate_limit.py:24-41 | with costs that are not negative the tokens stay between 0 and the capacity in every run |
| TokenBuckets.TokenBucket.Create | packages/source_clients/rate_limit.py:20-28 | a rate that is not positive is an error; the default burst is ten seconds of tokens and the bucket starts full |
| TokenBuckets.TokenBucket.Acquire | packages/source_clients/rate_limit.py:30-43 | a cost above the capacity is an error that changes nothing; every other call is granted after at most one sleep, which lasts exactly until the tokens suffice, and its attempts extend the history that the interval theorems are about |
| TokenBuckets.AccruesIff | packages/source_clients/rate_limit.py:36-43 | missing tokens have been refilled at a reading exactly when the wait for them is over by then |
| TokenBuckets.WaitIsExact | packages/source_clients/rate_limit.py:40-43 | after the wait for the missing tokens the bucket suffices for the cost, and at no earlier reading |
| TokenBuckets.TokenBucket.Pass | packages/source_clients/rate_limit.py:35-41 | one pass refills to the reading and spends exactly when the tokens suffice, as the specification of the run says |
| SharedWindow.WindowBound | packages/source_clients/shared_rate_limit.py:33-58 | for every interleaving and every initial content of the file, no interval (t - window, t] holds more than the limit of grants, although old stamps are discarded |
| SharedWindow.FileRemembersGrants | packages/source_clients/shared_rate_limit.py:45-57 | whatever the file held, it remembers every grant that can still count; from a file without stamps it remembers nothing else |
| SharedWindow.RefusedIffWindowFull | packages/source_clients/shared_rate_limit.py:44-58 | from a file without stamps a call is granted exactly when fewer than the limit of grants lie in the window |
| SharedWindow.LiveCounts | packages/source_clients/shared_rate_limit.py:45-57 | filtering and sorting keeps exactly the stamps inside the window, and a grant adds exactly one |
| SharedWindow.NoEarlierGrant | packages/source_clients/shared_rate_limit.py:46-58 | a refused call could not be granted before the oldest stored stamp leaves the window |
| SharedWindow.GrantedLaterIff | packages/source_clients/shared_rate_limit.py:44-58 | undisturbed, a refused call is granted at a later time exactly when the limit-th latest stamp that it saw has left the window |
| SharedWindow.OneWaitSufficesIff | packages/source_clients/shared_rate_limit.py:58-67 | the returned wait is enough exactly when that stamp leaves with the oldest one or within the least wait |
| SharedWindow.RetryAfterWait | packages/source_clients/shared_rate_limit.py:58-67 | after the returned wait fewer stamps are live if nobody reserved, so the loop makes progress even over an overfull file |
| SharedWindow.OneLimitNeedsOneWait | packages/source_clients/shared_rate_limit.py:44-67 | in every run of processes with one limit, a refused call is granted after the wait it was told, if nobody reserves meanwhile |
| SharedWindow.NeverOverfull | packages/source_clients/shared_rate_limit.py:51-57 | processes with one limit never store more live stamps than that limit |
| SharedWindow.MixedLimitsNeedMoreWaits | packages/source_clients/shared_rate_limit.py:58 | a file that two limits share and a returned wait that is too short |
| SharedWindow.SharedSlidingWindowLimiter.Create | packages/source_clients/shared_rate_limit.py:16-31 | limits and windows that are not positive are rejected |
| SharedWindow.SharedSlidingWindowLimiter.ReserveOrWait | packages/source_clients/shared_rate_limit.py:33-58 | one locked section changes the file as the specification of the interleaving says, and the wait is 0 exactly when it was granted |
| SharedWindow.SharedSlidingWindowLimiter.Acquire | packages/source_clients/shared_rate_limit.py:60-67 | a cost other than 1 is an error; among other processes that take the lock in between, all sections together are a run that ends with the grant, each sleep lasts as long as a refused section of that run told, with at most one sleep more than disturbed rounds if the file was not overfull, and alone with at most one sleep per stamp in the way |
| RequestLimiter.RefusedIffLogIsFull | apps/api/main.py:171-191 | while no request brings a new key when the allowed number of callers had admitted requests in the last minute, a request is refused exactly when one of its keys has the limit of admitted requests in (now - 60, now] in the full log |
| RequestLimiter.RunMirrorsLog | apps/api/main.py:141-191 | under the same room, which the log alone decides, every window holds exactly the admitted requests of its key in the last minute |
| RequestLimiter.RoomFits | apps/api/main.py:141-148 | that room in the log is room in the table: pruned, it takes every new key of the request |
| RequestLimiter.ExpireIsLive | apps/api/main.py:142-144 | the windows that outlive the first loop are exactly those with a stamp after the cutoff, unchanged |
| RequestLimiter.PruneIsExact | apps/api/main.py:141-148 | pruning leaves only windows with a stamp after the cutoff: all of them when they are not too many, otherwise as many as are allowed, each last used no earlier than any that goes |
| RequestLimiter.TableIsBounded | apps/api/main.py:141-148 | in every run the table holds at most the allowed keys and the overflow key besides |
| RequestLimiter.ChargesAllOrNothing | apps/api/main.py:175-190 | the effective keys are distinct; a refused request charges none of them, an admitted one each exactly once, and no other window changes |
| RequestLimiter.TouchedWindow | apps/api/main.py:176-183 | the per-key loop trims exactly the windows of the effective keys and opens no others |
| RequestLimiter.StrangerIsDecidedByOverflow | apps/api/main.py:176-190 | on a full table, a request with any keys is decided by the windows of its known keys and, for all new ones, by the window of all strangers, which an admitted request charges once; no new key gets a window |
| RequestLimiter.RunStaysWithinLimit | apps/api/main.py:171-191 | in every run the windows stay sorted and never hold more stamps than the limit |
| RequestLimiter.RefusedIffStaysFull | apps/api/main.py:184-188 | a request is refused exactly when one of its windows is full and keeps its oldest stamp |
| RequestLimiter.WaitSufficesIff | apps/api/main.py:186 | the announced wait outlasts the oldest stamp exactly when that has at most a second or a whole number of seconds left |
| RequestLimiter.RefusedAgainIff | apps/api/main.py:171-191 | a refused request that comes back undisturbed after the announced wait is refused again exactly when one of its full windows keeps its oldest stamp, and the announced one does exactly when more than a second and not a whole number of seconds were left |
| RequestLimiter.RetryAfterIsTooShort | apps/api/main.py:186 | a request that waits as it was told and is refused again |
| RequestLimiter.Limiter.Prune | apps/api/main.py:141-148 | drops exactly the windows without a stamp after the cutoff and, beyond the maximum, windows last used no later than any that stay; the windows that it compares are never empty |
| RequestLimiter.Limiter.TouchKeys | apps/api/main.py:175-183 | the loop over deques computes the specified table and effective keys |
| RequestLimiter.Limiter.Enforce | apps/api/main.py:171-191 | one request takes one step of the specified run, keeps the windows sorted and the table bounded, and answers with the specified wait or the specified remaining count |
| RequestLimiter.Limiter.Decide | apps/api/main.py:184-191 | the first full window decides the wait; otherwise every window of the request is charged and the fullest decides the remaining count |
| EnrichmentQueue.RetryDelayDoubles | services/ingestion/enrichment_queue.py:41-42 | the delay doubles with each of ten attempts and then stays at 1024 minutes, below the day that caps it |
| EnrichmentQueue.FailedRunsAgainIff | services/ingestion/enrichment_queue.py:204-240 | a failed job can be claimed at a time exactly when it has attempts left and that time is no earlier than 2^min(max(n, 1), 10) minutes after the failure, n attempts having been read; a blocked one from the failure on, once its provider is reactivated |
| EnrichmentQueue.FailedBecomes | services/ingestion/enrichment_queue.py:213-240 | blocked, dead or failed, finished or not, and permanent or not, exactly by the flags and the counters that were read |
| EnrichmentQueue.DeferredRunsAgainIff | services/ingestion/enrichment_queue.py:243-270 | a deferred job can be claimed again exactly when the given seconds are over, or without any when it could have been before, with its refunded attempt counted |
| EnrichmentQueue.ClaimsWait | services/ingestion/enrichment_queue.py:58-374 | over every run no claim or start of a job comes before the time that its last failure, timed deferral or opening has set |
| EnrichmentQueue.TimeStands | services/ingestion/enrichment_queue.py:58-374 | and until the next of these events the row shows that time |
| EnrichmentQueue.EnqueuedRunsAgainIff | services/ingestion/enrichment_queue.py:81-127 | a new or reopened job can be claimed from its enqueueing on; any other keeps its time and count under the new limit |
| EnrichmentQueue.ReopenedIsNew | services/ingestion/enrichment_queue.py:81-127 | reopening leaves the row that a first enqueueing would, but for its creation time |
| EnrichmentQueue.RecoveredRunsAgainIff | services/ingestion/enrichment_queue.py:351-374 | a running job can be claimed after a recovery exactly when its lock was older than the limit, its time has come and it has attempts left |
| EnrichmentQueue.RecoveryTouchesRunning | services/ingestion/enrichment_queue.py:351-374 | no other job is changed by a recovery |
| EnrichmentQueue.CompletedNeverRuns | services/ingestion/enrichment_queue.py:171-190 | a completed job is finished and cannot be claimed, whatever is reactivated |
| EnrichmentQueue.BlockedRunsAgainIff | services/ingestion/enrichment_worker.py:348-384 | blocking a provider blocks exactly its waiting jobs and those that wait for configuration; they can be claimed exactly when due with attempts left and the provider is reactivated |
| EnrichmentQueue.StartsIffClaimable | services/ingestion/enrichment_queue.py:141-168 | starting a job and claiming it without reactivation take the same rows at the same times |
| EnrichmentQueue.ReactivationAdds | services/ingestion/enrichment_queue.py:284-299 | reactivating providers adds exactly their blocked jobs |
| EnrichmentQueue.EveryRunIsDated | services/ingestion/enrichment_queue.py:58-374 | over every run the times and marks of a row fit its status |
| EnrichmentQueue.InClaimOrderIff | services/ingestion/enrichment_queue.py:303-316 | the claim order: priority, failures first, due time, age |
| EnrichmentQueue.SelectsAll | services/ingestion/enrichment_queue.py:281-318 | a selection below its limit has left no claimable row of the wanted providers out, and none that was skipped is in it |
| EnrichmentQueue.EveryRunIsBound | services/ingestion/enrichment_queue.py:58-374 | over every run, with or without leases, a row is locked iff RUNNING and 0 <= attempts <= max |
| EnrichmentQueue.FailIsSafeIff | services/ingestion/enrichment_queue.py:204-240 | a failure written on counters read before leaves FAILED with attempts and DEAD permanent or exhausted exactly under a guard on what was read and what the row says now |
| EnrichmentQueue.RunIsSafeIff | services/ingestion/enrichment_queue.py:58-374 | over every run, with or without leases, the rows keep that meaning throughout exactly when every failure is written under the guard |
| EnrichmentQueue.HeldRunIsSafe | services/ingestion/enrichment_queue.py:58-374 | they keep it over every run in which failures come from lease holders whose limit is not raised between reading and writing |
| EnrichmentQueue.LateFailureStrandsJob | services/ingestion/enrichment_queue.py:204-240 | a legal run of two workers that ends in a FAILED row without attempts |
| EnrichmentQueue.RaisedTooLateIsDead | services/ingestion/enrichment_queue.py:204-240 | a legal run of one lease holder and a re-enqueue that ends in a DEAD row with attempts, and not for a permanent error |
| EnrichmentQueue.EnqueueIsSafeIff | services/ingestion/enrichment_queue.py:82-127 | the attempt limits that a re-enqueue may set without breaking a row, exactly |
| EnrichmentQueue.AttemptsAreClaimsLessRefunds | services/ingestion/enrichment_queue.py:141-348 | the attempt count is the claims less the refunds since the job was last opened |
| EnrichmentQueue.SettledStaysIff | services/ingestion/enrichment_queue.py:171-270 | whoever sends the event, whatever it read: exactly which events take a SUCCEEDED or permanently DEAD job out of its state, and which turn one into the other |
| EnrichmentQueue.SettledThroughoutIff | services/ingestion/enrichment_queue.py:58-374 | over any run a job stays settled throughout exactly when no such event comes |
| EnrichmentQueue.SettledIsFinal | services/ingestion/enrichment_queue.py:58-374 | SUCCEEDED and permanent DEAD are never left while only lease holders finish that job |
| EnrichmentQueue.ScheduledIngestRevivesDead | services/ingestion/connectors/khmdhs/scheduled.py:228-263 | a settled job that the scheduled ingest meets stays settled unless it is permanently dead and its provider is not inline or its budget is used up; then it is queued again with its attempts |
| EnrichmentQueue.LateDeferRevivesSuccess | services/ingestion/enrichment_worker.py:449-460 | a legal run of two workers in which the late refund of the first puts the job that the second completed back into the queue, ready to run again |
| EnrichmentQueue.StrandedExactlyBy | services/ingestion/enrichment_queue.py:58-374 | over every run of lease holders, the three ways, and no others, in which a job becomes QUEUED without attempts left |
| EnrichmentQueue.StuckStep | services/ingestion/enrichment_queue.py:284-299 | an exhausted waiting job leaves that state exactly by a re-enqueue that raises its limit |
| EnrichmentQueue.StuckStaysStuck | services/ingestion/enrichment_queue.py:284-299 | such a job is never claimed again, over any run that does not raise its limit |
| EnrichmentQueue.SelectJobs | services/ingestion/enrichment_queue.py:281-318 | takes the first claimable rows by priority, failures first, then age, as many as the limit allows |
| EnrichmentQueue.JobTable.Enqueue | services/ingestion/enrichment_queue.py:45-138 | inserts, updates or reopens: only a DEAD row that is not permanent starts over |
| EnrichmentQueue.JobTable.Start | services/ingestion/enrichment_queue.py:141-168 | starts a due job with attempts left, tells whether it did, and changes nothing else |
| EnrichmentQueue.JobTable.Complete | services/ingestion/enrichment_queue.py:171-190 | the row becomes SUCCEEDED and unlocked whatever it was |
| EnrichmentQueue.JobTable.ReadCounters | services/ingestion/enrichment_queue.py:204-212 | the first statement of a failure reads the counters of the row, if there is one |
| EnrichmentQueue.JobTable.WriteFailure | services/ingestion/enrichment_queue.py:213-240 | the second one writes blocked, dead or failed, and the next time, on the strength of counters read before |
| EnrichmentQueue.JobTable.Fail | services/ingestion/enrichment_queue.py:193-240 | both with nothing in between; both blocks at once, or no such job, is an error that changes nothing |
| EnrichmentQueue.JobTable.Defer | services/ingestion/enrichment_queue.py:243-270 | the row is queued again, with its attempt refunded on request but never below 0 |
| EnrichmentQueue.JobTable.ClaimJobs | services/ingestion/enrichment_queue.py:273-348 | the row-by-row updates come to one claim of the selected rows, which were all claimable, of wanted providers and not skipped; below the limit every such row is claimed |
| EnrichmentQueue.JobTable.RecoverStale | services/ingestion/enrichment_queue.py:351-374 | exactly the stale RUNNING rows are queued again, and their number is returned |
| EnrichmentQueue.JobTable.BlockStatic | services/ingestion/enrichment_worker.py:348-384 | every waiting row of the provider is blocked, none is left, and their number is returned |
| EnrichmentSweep.SelectionBalance | services/ingestion/enrichment_worker.py:416-433 | while two providers stay eligible, the difference of their selection counts is an exact function of the cursor at both ends |
| EnrichmentSweep.SelectionsDifferByAtMostOne | services/ingestion/enrichment_worker.py:416-433 | over any such stretch neither is selected twice more than the other |
| EnrichmentSweep.OnceBetweenSelections | services/ingestion/enrichment_worker.py:416-433 | between two consecutive selections of one provider every provider still eligible is selected exactly once |
| EnrichmentSweep.EligibilityShrinks | services/ingestion/enrichment_worker.py:425-430 | a provider that is eligible at some turn was eligible at every earlier one |
| EnrichmentSweep.NoneSelectedIffNoneEligible | services/ingestion/enrichment_worker.py:420-435 | the search from the cursor fails exactly when no provider is eligible |
| EnrichmentSweep.TotalsAreOutcomes | services/ingestion/enrichment_worker.py:446-531 | over every run of turns each claimed job is in exactly one class and every counter is the number of its outcomes |
| EnrichmentSweep.TalliesSumToTotals | services/ingestion/enrichment_worker.py:341-346 | for each label the tallies of the providers sum to the outcomes, upstream blocks with those in bulk |
| EnrichmentSweep.ReportAddsUp | services/ingestion/enrichment_worker.py:400-531 | what a sweep reports balances: claimed is the sum of the classes, and upstream blocks are those before, one by one, and in bulk |
| EnrichmentSweep.BudgetsHold | services/ingestion/enrichment_worker.py:424-430 | a provider with a budget b has at most max(0, b) turns in which a call failed otherwise than for an open circuit, or succeeded and went out, and its counted attempts are exactly those turns |
| EnrichmentSweep.AttemptsAreSpent | services/ingestion/enrichment_worker.py:446-531 | over every run of turns the counted attempts of any provider are exactly the turns that cost one |
| EnrichmentSweep.EligibleIff | services/ingestion/enrichment_worker.py:425-430 | after any turns a provider may be selected exactly when it was available at the start, none of its turns ended with no job, an open circuit or an upstream error, and it has spent less than its budget |
| EnrichmentSweep.EligibleWhenChosen | services/ingestion/enrichment_worker.py:425-430 | a provider that is selected has spent less than its budget |
| EnrichmentSweep.OpenAtStartIff | services/ingestion/enrichment_worker.py:400-419 | at the start every provider may be selected but those with blocked jobs and those without budget |
| EnrichmentSweep.FirstTurn | services/ingestion/enrichment_worker.py:416-433 | the first turn of a sweep goes to the first provider of the order that may be selected |
| EnrichmentSweep.FirstTurnFinds | services/ingestion/enrichment_worker.py:387-415 | and finds what waits for providers that are down blocked, jobs locked for more than half an hour queued again, and every other job as it was |
| EnrichmentSweep.OutcomeDecides | services/ingestion/enrichment_worker.py:446-531 | the status, attempts and next time in which each outcome leaves its job |
| EnrichmentSweep.OutcomeSpares | services/ingestion/enrichment_worker.py:446-531 | other jobs stay as they are, but an upstream error blocks what waits for the provider |
| EnrichmentSweep.BulkCounts | services/ingestion/enrichment_worker.py:348-384 | the number reported as blocked in bulk is that of the other jobs that waited for the provider |
| EnrichmentSweep.LeftOverIff | services/ingestion/enrichment_worker.py:533-553 | the jobs counted as left over are those that need no more than an attempt and their time to be started |
| EnrichmentSweep.SweepExtendsRun | services/ingestion/enrichment_worker.py:387-531 | what a sweep does to the queue continues any run of lease holders, so all queue theorems hold across sweeps |
| EnrichmentSweep.SelectProvider | services/ingestion/enrichment_worker.py:420-433 | the loop over the offsets finds the first eligible provider from the cursor |
| EnrichmentSweep.Finish | services/ingestion/enrichment_worker.py:447-531 | each outcome ends the claimed job by its statement; an upstream error blocks what waits for the provider and counts it |
| EnrichmentSweep.TakeTurn | services/ingestion/enrichment_worker.py:436-531 | a turn finds no job exactly when nothing is wanted, and otherwise claims and ends the first wanted job |
| EnrichmentSweep.Preblock | services/ingestion/enrichment_worker.py:348-384 | the waiting jobs of the providers that are down are blocked, counted by provider, and summed |
| EnrichmentSweep.CountPending | services/ingestion/enrichment_worker.py:533-553 | the deferred total is the number of waiting jobs of the swept providers, split by provider |
| EnrichmentSweep.RunPending | services/ingestion/enrichment_worker.py:387-564 | the sweep is a chain of such turns on the queue, each by the provider that the selection names, ended by the limit or by want of an eligible provider, and it reports the state of that chain |
| BidReminders.RunIsSafe | services/bids/reminders.py:46-92 | over every interleaving attempts stay within 8, and leases, outcomes and times fit the status of the row |
| BidReminders.AttemptsAreClaims | services/bids/reminders.py:62-91 | the attempt count is the number of claims, at most 8, and the attempt time that of the latest claim |
| BidReminders.ClaimTimesIncrease | services/bids/reminders.py:46-91 | two claims of one reminder carry increasing times, whatever the clocks of the workers say |
| BidReminders.OnlyTheLatestClaimWrites | services/bids/reminders.py:175-183 | an outcome is written only under the latest claim, by the sweep that read the current attempt count |
| BidReminders.LateWorkerWritesNothing | services/bids/reminders.py:175-183 | a worker whose reminder was claimed again changes nothing |
| BidReminders.OutcomesAreFinal | services/bids/reminders.py:46-91 | SENT and FAILED rows never change |
| BidReminders.RetryDelayDoubles | services/bids/reminders.py:22-33 | the delay doubles from a minute on and never meets its cap of six hours in an attempt that leaves another one |
| BidReminders.LostExactlyByRecovery | services/bids/reminders.py:46-61 | a PENDING row with 8 attempts comes exactly from the recovery of its last lease |
| BidReminders.LostForever | services/bids/reminders.py:62-76 | such a row never changes again |
| BidReminders.SelectDue | services/bids/reminders.py:62-77 | the claimed reminders are the earliest due ones, as many as the limit leaves |
| BidReminders.DueIff | services/bids/reminders.py:46-77 | what a pass may claim, before its own recovery: due reminders of the tenant with attempts left, PENDING and not waiting for a retry, or in a delivery that began more than fifteen minutes ago |
| BidReminders.PassClaimsMeans | services/bids/reminders.py:62-92 | a pass claims such reminders only, the earliest first, and all of them when there is room |
| BidReminders.PassSpares | services/bids/reminders.py:46-61 | every other row stays as it is, but deliveries of the tenant older than fifteen minutes are PENDING again at once |
| BidReminders.IdentityStands | services/bids/reminders.py:46-183 | over every run a reminder keeps the tenant, the channel and the time it was made for |
| BidReminders.ReminderTable.RecoverAndClaim | services/bids/reminders.py:46-92 | the first transaction of a tenant is one claim event of the interleaving, on due rows only, the earliest first, and on all of them when there is room |
| BidReminders.ReminderTable.FinalizeRow | services/bids/reminders.py:154-183 | the last update is one finalise event: nothing without the lease, otherwise SENT, FAILED or PENDING with its next time |
| BidReminders.ReminderTable.DeliverClaimed | services/bids/reminders.py:117-184 | a claimed row is SENT exactly when it is in-app or its endpoint accepted, FAILED exactly when it is neither and there is no endpoint or this was attempt 8, and otherwise PENDING until min(60 * 2^(n - 1), 21600) seconds later; no other row changes, and those that end SENT, and the others, are counted |
| BidReminders.ReminderTable.DeliverTenant | services/bids/reminders.py:45-184 | one tenant's part recovers, claims within the room left, and ends each claimed reminder SENT, FAILED or PENDING by its channel, reply and attempts, counting those that end SENT |
| BidReminders.ReminderTable.DeliverDue | services/bids/reminders.py:35-187 | the tenants are served in order until one with claims uses up the limit; the counts are those of the claims and outcomes |
| BidReminders.PassMeans | services/bids/reminders.py:117-183 | what each claimed reminder of any pass becomes, in channels, replies, attempts and statuses only |
| Digests.DueOnOneDayIsOneSlot | services/alerts/digests.py:37-49 | due moments of a rule share a period exactly when they are on one local day, weekly digests included |
| Digests.DueIff | services/alerts/digests.py:44-49 | a rule is due from its digest time on, on the first local day of each of its periods; an immediate rule never is |
| Digests.PeriodsAreWeeks | services/alerts/digests.py:37-42 | weekly periods run from Monday to Sunday and daily ones are local days |
| Digests.OneSlotPerDueDay | services/alerts/digests.py:37-49 | two due moments of a rule get one run exactly when they are on one local day |
| Digests.SlotsBySchedule | services/alerts/digests.py:37-42 | runs of different schedules are never confused |
| Digests.LeaseLasts | services/alerts/digests.py:108-132 | a claimed period can be claimed again exactly when more than fifteen minutes have passed |
| Digests.ClaimableIff | services/alerts/digests.py:108-132 | a period can be claimed exactly when it has no run yet, or one that is pending, failed and due again, or stale |
| Digests.RetriedIff | services/alerts/digests.py:52-57 | a finished run can be claimed again exactly when it failed and min(300 * 2^(n - 1), 21600) seconds have passed |
| Digests.LastEndIsLatest | services/alerts/digests.py:181-189 | a period starts at the latest end of a delivered or partial run, or at the creation of the rule |
| Digests.DeliveredIsFinal | services/alerts/digests.py:108-132 | under every interleaving of claims and finishes a DELIVERED run never changes |
| Digests.OneRunPerSlot | services/alerts/digests.py:75-103 | there is never a second run for one period of a rule |
| Digests.SweepIsTwoSteps | services/alerts/digests.py:181-273 | what one worker does to a rule is one claim and, unless it crashes, one finish |
| Digests.SweepEffect | services/alerts/digests.py:181-273 | a sweep adds exactly the period from the last delivered end to now if it delivers, and nothing otherwise |
| Digests.DeliveredPeriodsPartition | services/alerts/digests.py:154-273 | for one worker, whatever failed or crashed, the delivered periods tile the time from the rule's creation to the last delivered end, and the reported counts are the events of that time |
| Digests.EachEventDeliveredOnce | services/alerts/digests.py:154-273 | every event up to the last delivered end lies in exactly one delivered digest |
| DigestCoverage.NothingIsSkipped | services/alerts/digests.py:181-273 | over every run of any number of workers, the delivered periods cover every moment up to the last delivered end, and no other |
| DigestCoverage.TilesAgainIff | services/alerts/digests.py:246-258 | one recorded delivery keeps the tiling exactly when its period begins at the last delivered end |
| DigestCoverage.TiledIff | services/alerts/digests.py:181-273 | over every run of any number of workers, the delivered periods tile the time since the creation of the rule exactly when every recorded delivery began there |
| DigestCoverage.RowsRemember | services/alerts/digests.py:108-144 | a run holds the period of its latest attempt, and every earlier attempt ended earlier |
| DigestCoverage.RecordedAsSentIff | services/alerts/digests.py:213-258 | the recorded period is the one in the message exactly when the attempt that sent it is still the attempt of the run |
| DigestCoverage.DeliveredOnceAsSentIff | services/alerts/digests.py:154-273 | with any number of workers, each event is in exactly one delivered digest and in its message exactly when every recorded delivery passes both checks |
| DigestCoverage.LateWorkerHidesEvents | services/alerts/digests.py:246-272 | for all times: a worker that outlives its lease records a period that it did not send, and the tiling covers what no message held |
| DigestCoverage.OpenPeriodsOverlap | services/alerts/digests.py:181-258 | for all times: two periods planned from one last end are both delivered and cover a moment twice, with every lease and attempt current |
| DigestCoverage.LateStepsAreARun | services/alerts/digests.py:154-273 | the first of these is a run that the exact condition speaks of |
| DigestCoverage.OpenStepsAreARun | services/alerts/digests.py:154-273 | and so is the second |
| DigestCoverage.TiedRetrySharesPeriod | services/alerts/digests.py:115-143 | a retry at the very time of the current claim, which the exact condition has to exclude, opens a new attempt with the same period |
| Digests.DigestTable.ClaimRun | services/alerts/digests.py:60-151 | creates or leases the run of a period exactly when it may, and returns its attempt number |
| Digests.DigestTable.FinishRun | services/alerts/digests.py:246-272 | records the outcome only while the run is RUNNING |
| Digests.DigestTable.ProcessRule | services/alerts/digests.py:180-273 | one due rule takes one sweep of the run that the coverage theorems are about |
| Digests.DigestTable.ProcessDue | services/alerts/digests.py:154-273 | every active digest rule that is due is swept once, no other run changes, and the result counts rules, digests and events |
| Digests.SweptOnlyWhenDue | services/alerts/digests.py:163-180 | the runs of a rule change only when it is active, due and its period may be claimed |
| Digests.SweptRun | services/alerts/digests.py:181-273 | what the sweep of a due rule leaves for its period: delivered, failed or running by the reply, from the last delivered end to now, with the events of that time counted |
| Digests.EventsInCounts | services/alerts/digests.py:190-200 | the events of a period are those after its start and up to its end |
| Digests.CountedMeans | services/alerts/digests.py:163-273 | what one rule adds to the result: one digest rule, one digest if one was sent or failed, and its events |
| Digests.TallyCounts | services/alerts/digests.py:163-273 | the result counts exactly the digest rules and the attempted digests |
| DocumentTerms.TermsAreConserved | services/documents/intelligence.py:207-252 | in every walking order, base terms less removed ones are as many as comparison terms less added ones |
| DocumentTerms.MatchesAreInjective | services/documents/intelligence.py:213-225 | no comparison term is matched twice |
| DocumentTerms.TakesIffSimilar | services/documents/intelligence.py:208-225 | a base term takes a term exactly when one that is still free has similarity 0.52 or more, and then a most similar one |
| DocumentTerms.SilentFrom | services/documents/intelligence.py:226-235 | a pair goes unreported exactly from a similarity of 0.985 on |
| DocumentTerms.ChangedAreReported | services/documents/intelligence.py:222-235 | what became of base terms is reported once each in document order: removed if it took nothing, otherwise changed into the very term it took, with their similarity |
| DocumentTerms.UntakenAreAdded | services/documents/intelligence.py:236-244 | exactly the comparison terms that no base term took are reported as added, once each in document order |
| DocumentTerms.ReportIsBoth | services/documents/intelligence.py:222-252 | the report is those two parts, in this order |
| DocumentTerms.ReportedAsOftenAsUntaken | services/documents/intelligence.py:236-244 | each comparison term is reported as added exactly as often as it stands where no base term took it |
| DocumentTerms.ReportedAsOftenAsChanged | services/documents/intelligence.py:222-235 | each base term is reported as removed or changed exactly as often as it stands in the document without taking a term of similarity 0.985 or more |
| DocumentTerms.SilentIffNearlyEqual | services/documents/intelligence.py:222-235 | so a base term goes unreported exactly when it, wherever it stands on that page, took such a term |
| DocumentTerms.PermutationHasNoChanges | services/documents/intelligence.py:207-252 | if one document is the other with its terms reordered, recased or on other pages, there are no changes, in every walking order |
| DocumentTerms.BestOf | services/documents/intelligence.py:210-221 | the walk finds a most similar remaining term, or none if all similarities are 0 |
| DocumentTerms.CompareTerms | services/documents/intelligence.py:193-252 | the changes are the report of a greedy matching: each base term in turn takes a most similar term that is still free, from 0.52 on |
| Preselection.NoRuleCutsIff | services/analytics/opportunity_scoring.py:284-315 | no rule cuts a process that it accepts exactly when the open acts show every code of the process, up to its dash, and a pattern match for every keyword that matches its title |
| Preselection.PreselectionIsSafeIff | services/analytics/opportunity_scoring.py:269-392 | the same condition is exact for lists of rules |
| Preselection.PreselectionIsSafe | services/analytics/opportunity_scoring.py:269-392 | so nothing is cut from a process whose acts are all open, one of them titled like the process, if SQL matches what the matcher matches in that title |
| Preselection.AwardedCodeIsCut | services/analytics/opportunity_scoring.py:284-351 | a notice and an award under different codes: a rule accepts the process and cuts it, whatever the lexical functions |
| Preselection.UnmatchedPatternCuts | db/migrations/23_lexical_title_search.sql:3-16 | a keyword that only the matcher finds in the title, as with Latin accents: its rule accepts the process and cuts it |
| Preselection.OwnScopeCovers | services/alerts/evaluate.py:203-245 | if the open acts show everything, the taxonomy part of a rule implies the selection by that rule alone, in every mode |
| Preselection.SelectionIsUnion | services/analytics/opportunity_scoring.py:284-294 | a list of rules selects exactly the processes that its rules would select one by one, and every open one when there is no rule |
| Preselection.RulePassesIff | services/analytics/opportunity_scoring.py:284-294 | a single rule selects every act if it has neither prefix nor pattern, and otherwise exactly those with a matched title or, unless it requires a keyword and has a pattern, a code under a prefix up to its dash |
| Preselection.CandidateScope | services/analytics/opportunity_scoring.py:68-90 | the scope holds exactly the patterns of all rules without repetition, or none as soon as one rule has none |
| Preselection.ModesCompose | services/alerts/evaluate.py:203-245 | each mode of the taxonomy part, as some or all of the rules that have one of its prefixes or keywords alone |
| Preselection.RuleAcceptsIff | services/alerts/evaluate.py:175-264 | a rule accepts exactly what its taxonomy part accepts and no exclusion hits, with a place, the parties and an amount in the range |
| Gazetteer.MatchPlace | services/geospatial/geonames.py:197-242 | the scan returns the result of the first place with the highest score |
| Gazetteer.BestIsFirstBest | services/geospatial/geonames.py:199-218 | the place taken is a match that none outscores and none before it equals |
| Gazetteer.PrefixMatchIff | services/geospatial/geonames.py:203-207 | a prefix match: query and alias have five characters or more and one goes on with a space where the other ends |
| Gazetteer.ResultAtLevel | services/geospatial/geonames.py:219-242 | the result names the place at its own level and its parents above it, and the text of the document for a locality |
| Gazetteer.BuildIndex | services/geospatial/geonames.py:245-252 | each alias leads to its places in gazetteer order, and no alias leads nowhere |
| Gazetteer.IndexAgreesWithScan | services/geospatial/geonames.py:255-262 | without an administrative hint, lookup and scan return the same result for every gazetteer, ties included |
| Gazetteer.IndexFindsBestExact | services/geospatial/geonames.py:255-262 | whatever the hint, the index finds the best exact match, ties broken as in the scan |
| Gazetteer.ExactBeatsPrefix | services/geospatial/geonames.py:201-214 | without an administrative hint every exact match outscores every prefix match |
| Gazetteer.AgreementIff | services/geospatial/geonames.py:201-218 | where there are exact matches, the scan takes the best of them exactly when no other match outranks them |
| Gazetteer.OutranksIff | services/geospatial/geonames.py:201-214 | where there are exact matches, another match ranks before all of them exactly under a guard on hint, class, bonus and popularity that needs no scores |
| Gazetteer.IndexAgreesIff | services/geospatial/geonames.py:255-262 | for every gazetteer, candidate and hint, lookup and scan return the same result exactly when that guard holds of no place |
| Gazetteer.OnlyAdministrativePlacesOutrank | services/geospatial/geonames.py:210-214 | only an administrative place with a feature bonus under an administrative hint can outrank an exact match, and by five points at most |
| Gazetteer.AdministrativeHintDisagrees | services/geospatial/geonames.py:210-218 | a gazetteer of two places for which lookup and scan return different results |
| Amounts.PrintThenNormalize | services/documents/amounts.py:63-72 | every amount with up to two decimals, printed with marks, spaces or nothing between its groups and either decimal mark, is read back as itself |
| Amounts.UsualNotations | services/documents/amounts.py:63-72 | 1.234,56 and 1,234.56 alike, plain numbers, and groups set apart by spaces or no-break spaces are read back as printed |
| Amounts.PrintedReads | services/documents/amounts.py:38-46 | as printed, an amount of a thousand or more with a separator satisfies the grouped grammar, and any other the plain one |
| Amounts.NeedsADigit | services/documents/amounts.py:63-68 | what is read begins with a digit |
| Amounts.GroupedReadingIsUnique | services/documents/amounts.py:45 | a grouped text splits into integer and decimals in one way only |
| Amounts.PlainReadingIsUnique | services/documents/amounts.py:46 | so does a plain text |
| Amounts.GrammarsAreDisjoint | services/documents/amounts.py:45-46 | no text is accepted by both grammars, so their order does not matter |
| Amounts.CutIsTheReading | services/documents/amounts.py:65-68 | the search for the decimals finds that one reading whenever there is one |
| Amounts.NormalizesIffAccepted | services/documents/amounts.py:63-72 | a number is read exactly when a grammar accepts it without its spaces |
| Amounts.DigitsAreTheNumber | services/documents/amounts.py:69-72 | the digits of a whole number have that number as their value |
| Amounts.GroupedNumberIsReadIff | services/documents/amounts.py:38-72 | of the grouped numbers found in a text, exactly those are read whose separators are not marks and spaces mixed |
| Amounts.UnmixedIsRead | services/documents/amounts.py:63-72 | and they are read with all their digits and their decimals |
| Amounts.PlainNumberIsRead | services/documents/amounts.py:38-72 | a plain number found in a text is always read, as itself |
| Backfill.WindowsTile | services/intelligence/eu_matching.py:105-116 | the windows partition the range, all of full size except perhaps the last |
| Backfill.TilesCoverOnce | services/intelligence/eu_matching.py:105-116 | every day of the range lies in exactly one window, and no other day in any |
| Backfill.DateWindows | services/intelligence/eu_matching.py:105-116 | an empty range or a size that is not positive is an error; otherwise the loop builds that partition |
| Backfill.NoGapBeforeCursor | scripts/backfill_ted_europe.py:80-146 | over any interrupted or restarted runs, with any ends and window sizes, every day up to the stored cursor has been ingested |
| Backfill.NoDayTwice | scripts/backfill_ted_europe.py:80-146 | without restarts each of those days was ingested exactly once, and no other day |
| Backfill.CompleteMeansComplete | scripts/backfill_ted_europe.py:87-90 | "already complete" is reported only when every day of the range has been ingested |
| Backfill.OneWindow | scripts/backfill_ted_europe.py:91-146 | what one window commits, and which outcomes end the run |
| Backfill.WindowsCompose | scripts/backfill_ted_europe.py:91-146 | a run over more windows is the run over the first ones, continued exactly when that did not end |
| Backfill.HaltsIff | scripts/backfill_ted_europe.py:91-146 | which outcomes end a run among its windows, with and without leave to pass over errors |
| Backfill.EndsRunIff | scripts/backfill_ted_europe.py:80-148 | without leave, the whole run ends with a country exactly when that does not reach its last day |
| Backfill.FullRunIngests | scripts/backfill_ted_europe.py:80-146 | a run without failure ingests each day up to its end once more: from the day after the cursor, or with restart from the first day again |
| Backfill.ContinuingIsSafeIff | scripts/backfill_ted_europe.py:91-146 | a run that passes over errors, on days not ingested before, leaves no gap exactly when no window that was not ingested comes at or before a committed one |
| Backfill.NoGapIff | scripts/backfill_ted_europe.py:80-146 | over any sequence of interrupted runs without restart, whether or not they pass over errors, no gap is left before the cursor exactly when no run passes over a window before one that it commits |
| Backfill.ContinuingLosesADay | scripts/backfill_ted_europe.py:91-146 | three windows after which a day is missing and the range is reported complete |
| Backfill.EarlierDaysAreNeverFetched | scripts/backfill_ted_europe.py:37-90 | a later run whose range begins earlier fetches none of the earlier days, and reports its range complete exactly when that ends by the cursor |
| Backfill.Store.RunOne | scripts/backfill_ted_europe.py:81-148 | one country advances as the specified run says, and the run ends there exactly when a window stops it |
| Backfill.Store.RunWindows | scripts/backfill_ted_europe.py:91-148 | the loop over the windows commits data and cursor together, window by window, for this country only |
| Backfill.Store.RunAll | scripts/backfill_ted_europe.py:80-148 | countries are advanced in order up to the first that ends the run, and the others keep their progress |
| CountryRotation.DailySelection | services/intelligence/eu_matching.py:94-102 | the countries of a day are distinct, as many as batch and configuration allow, and include every pinned one |
| CountryRotation.FairRotation | services/intelligence/eu_matching.py:97-102 | over any n consecutive days each of the n rotating countries has its day equally often, as often as a day has free places |
| CountryRotation.EachCountryEquallyOften | services/intelligence/eu_matching.py:99-102 | the same about the rotation alone, for any number of places |
| CountryRotation.SelectionPlaces | services/intelligence/eu_matching.py:99-101 | a rotating country is selected exactly when its place after the start is among the first, and at that place |
| CountryRotation.CountryAtPlace | services/intelligence/eu_matching.py:94-102 | the day lists the pinned countries and then the rotation from the country on whose index the day falls |
| CountryRotation.OrderIsKept | services/intelligence/eu_matching.py:94-96 | pinned and rotating countries keep the order of their first mention |
| CountryRotation.SmallBatch | services/intelligence/eu_matching.py:97-98 | a batch that the pinned countries fill takes the first of them, and a negative one leaves out the last |
| MartRefresh.RefreshAll | services/analytics/refresh.py:77-151 | one outcome per mart in order: refreshed iff neither it nor anything it depends on, over any number of steps, raises; skipped iff something below it raises, with exactly the direct dependencies that failed |
| MartRefresh.TaintSpreads | services/analytics/refresh.py:98-121 | failure along chains of dependencies is the failure of the mart itself or of one of its direct dependencies |
| MartRefresh.OrderIsTopological | services/analytics/refresh.py:30-48 | the order that is used lists each mart once, after its dependencies |
| MartRefresh.WhichMartsFail | services/analytics/refresh.py:30-48 | which marts fail for which failures: market_hhi with either of its two, renewal_signals with cycle_time_metrics, and every other mart by itself alone |
| ColumnLetters.ColumnName | services/exports/generate.py:101-105 | the loop ends and builds the letters of the specification |
| ColumnLetters.ColumnOfLetters | services/exports/generate.py:99-106 | decoding the letters gives back the column number, so distinct columns have distinct letters |
| ColumnLetters.LettersOfColumn | services/exports/generate.py:99-106 | every string of letters is the name of its column, so no name is left out |
| ColumnLetters.OrderIsShortlex | services/exports/generate.py:99-106 | columns are ordered as their names by length and then alphabet (cell references of section 18.18.7 of ECMA-376 Part 1) |

## Left out

- Databases, SQL text, row-level security and columns that no decision reads (payloads, error messages, update times): each
  statement is one row transition, and a transaction is one atomic step. Other sessions appear as rows that are locked.
- HTTP, S3, SMTP, OCR and PDF calls, and the providers behind the worker: how a call ends is an input.
- Floating point: clocks, tokens, stamps, scores and similarities are reals, so rounding and values such as NaN are not
  modelled; the rounding of a reported similarity to four places is left out.
- SharedWindow.SharedSlidingWindowLimiter.Acquire: the other processes disturb finitely many rounds, because under endless
  disturbance there is no bound on the waiting.
- SharedWindow.WindowBound: assumes whole locked sections; a process that is killed between truncating and writing leaves a
  file that forgets all stamps, and the bound, which holds for every initial file, starts anew from there.
- SharedWindow: one limit and one window size per run, except in the counterexample; creating directories and the file
  lock itself are assumed to work.
- RequestLimiter: the production branch that keeps its quota in PostgreSQL, the exempted paths and the HTTP headers.
- RequestLimiter.RefusedIffLogIsFull: assumes that no request brings a new key when the callers with admitted requests in
  the last minute fill the table, because there the code decides by the overflow window;
  RequestLimiter.StrangerIsDecidedByOverflow states what happens instead.
- RequestLimiter.RefusedAgainIff: assumes room in the table for the request and its retry, which comes after exactly the
  announced seconds.
- RequestLimiter.StrangerIsDecidedByOverflow: a table that the first new key of a request fills up is left to the
  specification of the per-key loop.
- RequestLimiter.Limiter.Prune: leaves open which of several equally old windows is evicted.
- EnrichmentQueue.AttemptsAreClaimsLessRefunds: assumes that only RUNNING jobs are finished or deferred, because the
  statements do not check it; EnrichmentQueue.EveryRunIsBound and EnrichmentQueue.RunIsSafeIff do without.
- EnrichmentQueue.SelectJobs: leaves open the order of rows that agree in all sort columns.
- EnrichmentSweep.RunPending: other sessions may hold rows locked but do not change the table during one sweep.
- BidReminders: edits and cancellations of reminders through the API; the delivery itself.
- Digests: the message shows at most twenty events and may be sent again after a crash between sending and recording;
  time zones and ISO week names are local day and week numbers; the status PARTIAL, which nothing in these functions
  writes, is only read.
- DigestCoverage.TiledIff: each claim is planned from a last delivered end that its worker read, then or earlier, and no
  clock is before the creation of the rule.
- DigestCoverage.RecordedAsSentIff: a failed run is retried later than it was claimed, not at the same moment; expired
  leases need no such assumption.
- DocumentTerms: splitting pages into sentences; the similarity lies between 0 and 1 and is 1 for texts that are equal up
  to case only.
- Preselection: the text normalisation, the word match, the patterns and their SQL match are functions about which nothing
  is assumed; LIKE wildcards inside prefixes; an act is open or not, which stands for its type, its eligibility, its date
  and, for the process, the contracts it has; limits on the number of candidates; NUTS codes in upper case.
- Gazetteer: the normalisation of names, coordinates and the confidence of the result; the capped logarithm is a function
  with values between 0 and 7; identifiers are unique, as the table demands.
- Amounts: finding amounts in a text, currencies and VAT markers; digits other than ASCII digits.
- Backfill: the ingest of a window is one outcome, and a window with failed records counts as not ingested.
- CountryRotation: trimming and upper-casing of country codes.
- CountryRotation.DailySelection: assumes a batch larger than the number of pinned countries;
  CountryRotation.SmallBatch states what happens otherwise.
- MartRefresh: the state rows with times and messages; which marts raise is an input.
- ColumnLetters: escaping and the rest of the workbook.
- Webhook, scoring, export and geocoding queues repeat the lease pattern; score formulas are bounded weighted sums.
