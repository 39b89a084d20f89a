# TaskHarbor verification

TaskHarbor is a job service: an API takes image uploads and schedules, PostgreSQL holds the queue, and
any number of workers claim jobs under leases, resize images, and publish the results. This project
models the parts of it that have to be right under concurrency, and proves what they promise.

Check everything with `dafny verify dfyconfig.toml`.

## The model

**The queue as a protocol.** `Rows.dfy` holds the tables as values. `Steps.dfy` describes every
transaction as one atomic step with a clock value of its own: an error leaves the tables as they were.
`Database.dfy` is the repositories as they work, statement by statement over mutable tables with
rollback, each method proved equal to its step. Steps can follow each other in any order; a call with a
claim is possible only if a worker received that claim. Token and worker-id collisions are answered
with a constraint violation.

**Invariant and guarantee.** `AttemptLedger.dfy` relates the status of a job to its attempts.
`Invariants.dfy` states what every reachable state satisfies (`Inv`) and what holds between any two
states of a run (`Guarantee`); `Preservation.dfy` proves that every step keeps both, for arbitrary
clocks. `Histories.dfy`, `Outcomes.dfy`, `Progress.dfy` and `ClaimOrder.dfy` draw the consequences for
whole runs: shape of rows, fencing, cancellation against completion, leases, retries, progress with
crashing workers, the order of claims, idempotent creation.
`Effects.dfy` says which calls are accepted, which row they take, what they write, column by column, that
nothing else changes, and what follows for the runs after them.

**The worker as a client.** `Manifest.dfy` adds the output files and the worker tasks that write them,
as a machine whose moves any number of tasks, reclaimers and retention runs interleave. `WorkerTask.dfy`
is the worker's program for one claim, call by call, with arbitrary moves of others and renewals of its
own lease between any two calls, and after the last one. `Renewals.dfy` explains how a task can publish
and still be told that its claim was lost.

**The scheduler.** `Slots.dfy` has the two closed forms, `SlotLaws.dfy` what they compute, and
`Scheduler.dfy` the cursor, the recorded slots and the tick loop over whole runs.

**The rest.** `RateLimit.dfy` (sliding window against full history), `Fingerprint.dfy` (length-prefixed
stream and its decoder), `Submission.dfy` (lookup, limit, creation), `Upload.dfy` (chunked accounting),
`Storage.dfy` and `Cleanup.dfy` (keys, clean-up, usage), `Maintenance.dfy` (the sweep under concurrent
commits).

## Where the code does not do what one would expect

- A renewal that answers ClaimLost overrides an Ok from processing, and the attempt's files are then
  removed (apps/worker/src/lib.rs:312-315, 542-543). There are three causes. Renewal checks the worker's
  heartbeat and completion does not (`OverriddenOkLosesTheFile`); processing is not polled while a renewal
  is awaited, so a renewal can land behind the completion's commit, where it is refused although the worker
  is live (`LateRenewalLosesTheFile`); and a completion that began within the lease can be overtaken by a
  renewal that began when the lease was over (`OverlappingRenewalLosesTheFile`). `LostRenewalExplained`: in
  every run a task that published was told that its claim was lost if and only if one of its renewals has
  one of these causes; if its own clocks do not go back only the first two remain
  (`OrderedClocksExplained`). `CleanUpBreaksExactly` says exactly when a move takes a published file, and
  `PublishedFilesAreStored` that nothing else can.
- An edit of a schedule reads its clock in a separate query before the UPDATE
  (crates/adapters/src/schedule_repository.rs:460-463), and a tick before its transaction (525-531). Ticks
  with clocks that go back do no harm (`TickKeepsSlots`). An accepted edit keeps recorded slots behind the
  cursor if and only if none of the schedule's slots on the new grid lies after its clock
  (`EditKeepsExactly`, `NextIsAboveExactly`); with such edits slots never collide, whatever the clocks of
  the ticks (`SlotsNeverCollide`); after any other a tick of that schedule collides (`UnsafeEditCollides`,
  `StaleEditCollides`).
- Maintenance reads references before active prefixes (apps/worker/src/lib.rs:456-463), so an attempt
  that publishes in between is in neither read (`ReferencesFirstLeavesAGap`). An output is missed by both
  exactly if it became referenced between them or its attempt was claimed after the second
  (`MissedExactly`); in the other order the first case is covered (`PrefixesFirstCatchOutputs`). Attempts
  may run for any time: what was running at the second read is kept, what had ended unreferenced is never
  named again, what was claimed later is newer than the cutoff. Only for uploads, and for outputs published
  between the reads, does the grace period matter: it is enough if it exceeds the time from a file to its
  row plus the time from the reference read to the cutoff (`RunMaintenance`), and not otherwise
  (`BoundIsNeeded`, `BoundIsNeededForOutputs`).
- Completing an image job after a cancellation request is answered ClaimLost, not a state conflict
  (crates/adapters/src/image_repository.rs:759-790); the worker's conflict branch after completion can
  therefore never be taken (`CompleteImageAnswer`, `ProcessImages`).
- The rate limiter reads its clock before it takes the lock (apps/api/src/rate_limit.rs:26-27), so calls
  can be served with clocks in the wrong order, and then a window can hold more than the limit
  (`OutOfOrderOverflow`). With clocks that lag by at most d, no window shorter than the configured one by
  d does (`NoWindowOverflows`), and no longer window is safe (`LongerWindowsOverflow`). The verdict is the
  one of the full history unless an accepted call lies within d of the edge of its window
  (`VerdictAgrees`, `ForgottenTooEarly`, `RememberedTooLong`). A caller with such a clock that waits the
  returned delay can be rejected again; waiting d longer is enough (`WaitingHelps`, `WaitingLess`).
- Which limit an oversized upload is told about can depend on how it was split; `SplitDecidesExactly`
  gives the sizes for which it does not. Whether it passes never does (`SplitDoesNotDecide`).

## Model

| member | source | states |
|---|---|---|
| Repositories.Database.CreateImage | crates/adapters/src/image_repository.rs:212-304 | Statement by statement equal to CreateImageStep: replay returns the job, another fingerprint is a conflict, otherwise job and input rows are added together |
| Repositories.Database.InsertInputRows | crates/adapters/src/image_repository.rs:283-296 | The insert loop writes one input row per file, in order, with fresh identities, and reports how many |
| Repositories.Database.ClaimNext | crates/adapters/src/postgres.rs:226-407 | Lock, number, update, insert and load with rollback equal ClaimStep: the tables change only when a claim is returned |
| Repositories.Database.Renew | crates/adapters/src/worker_repository.rs:386-419 | The guarded UPDATE equals RenewStep: claim, job state and heartbeat all checked, otherwise ClaimLost and no change |
| Repositories.Database.RecordEncoding | crates/adapters/src/image_repository.rs:412-439 | The guarded UPDATE equals EncodingStep |
| Repositories.Database.UpdateProgress | crates/adapters/src/image_repository.rs:361-410 | Attempt row first, then job row; a refusing job row undoes the attempt row |
| Repositories.Database.CompleteDemo | crates/adapters/src/postgres.rs:410-473 | Attempt and job close together or not at all, with the error of the statement that refused |
| Repositories.Database.CompleteImage | crates/adapters/src/image_repository.rs:441-492 | Lock, row-by-row publishing loop and both updates equal CompleteImageStep; any refusal rolls all output rows back |
| Repositories.Database.CancellationRequested | crates/adapters/src/lifecycle_repository.rs:142-172 | The join of the held attempt with its job, decoded status by status, answers as the step does: yes, no, or ClaimLost |
| Repositories.Database.FinishCancelled | crates/adapters/src/lifecycle_repository.rs:174-228 | Attempt and job are cancelled together or not at all |
| Repositories.Database.RecordFailure | crates/adapters/src/lifecycle_repository.rs:230-318 | Attempt failed, job requeued or failed, together or not at all |
| Repositories.Database.ReclaimNext | crates/adapters/src/worker_repository.rs:428-609 | The attempt whose lease ran out first is closed and one of three finishers settles its job; none of the checks on affected rows ever fails |
| Repositories.Database.RequestCancel | crates/adapters/src/lifecycle_repository.rs:334-390 | The CASE update equals RequestCancelStep: waiting jobs end, running ones are asked to stop, succeeded and failed ones conflict |
| Repositories.Database.ManualRetry | crates/adapters/src/lifecycle_repository.rs:404-510 | A new job and copies of the input rows are added, or the call conflicts |
| Repositories.Database.RegisterWorker | crates/adapters/src/worker_repository.rs:203-249 | Insert and read back equal RegisterStep: a valid registration adds one row, a repeated id is refused, the read back never fails |
| Repositories.Database.HeartbeatWorker | crates/adapters/src/worker_repository.rs:261-285 | The heartbeat of a worker that has not stopped is moved; a stopped or unknown one conflicts |
| Repositories.Database.StopWorker | crates/adapters/src/worker_repository.rs:287-299 | The UPDATE with COALESCE equals StopStep: the first stop time is kept, a stop before the start is undone |
| Repositories.Database.ExpireOutputs | crates/adapters/src/maintenance_repository.rs:96-131 | Output rows past retention are deleted and their jobs stamped in one step; the deleted keys are returned |
| Repositories.Database.CreateSchedule | crates/adapters/src/schedule_repository.rs:292-340 | The schedule row, then input row by input row, equal CreateScheduleStep: the cursor is the anchor and the files are all there, in order |
| Repositories.Database.UpdateSchedule | crates/adapters/src/schedule_repository.rs:477-523 | The guarded UPDATE over all rows equals UpdateScheduleStep: only the row with the id and owner is re-armed; without one the answer is none |
| Repositories.Database.MaterializeNext | crates/adapters/src/schedule_repository.rs:532-725 | Job, input rows, occurrence and cursor change together; a recorded slot rolls everything back, and the check on copied rows never does |
| Repositories.Database.Perform | crates/adapters/src/postgres.rs:55-473 | Any call of any client, statement by statement, takes the tables exactly to the step that the invariants are proved about |
| Steps.FindKey | crates/adapters/src/image_repository.rs:236-245 | The lookup finds a job of the owner with the key, or there is none |
| Steps.NextCandidate | crates/adapters/src/postgres.rs:237-264 | The candidate is eligible and strictly before every other eligible job by priority rank, available_at and id; none only if nothing is eligible |
| Steps.NextExpired | crates/adapters/src/worker_repository.rs:433-452 | The candidate has an expired lease and an owned job and comes before every other such attempt by lease expiry and id; none only if there is none |
| Steps.NextDue | crates/adapters/src/schedule_repository.rs:537-563 | The candidate is enabled and due and comes before every other such schedule by next slot and id; none only if no schedule is due |
| AttemptLedger.MaxNumberIsCount | crates/adapters/src/postgres.rs:277-286 | MAX(attempt_number) equals the number of attempts, whenever numbers were given in order |
| AttemptLedger.LatestIsUnique | crates/adapters/src/postgres.rs:277-363 | An attempt that has not failed carries the highest number, and every other attempt of its job is older and failed |
| AttemptLedger.CloseTogether | crates/adapters/src/lifecycle_repository.rs:174-318 | Closing a running attempt and its job together keeps statuses, numbers and limits in agreement |
| AttemptLedger.StartNext | crates/adapters/src/postgres.rs:301-363 | Starting the next attempt of a waiting job keeps them in agreement |
| AttemptLedger.RestateJob | crates/adapters/src/lifecycle_repository.rs:334-390 | A change of the job row alone keeps them in agreement when the latest attempt agrees with the new status |
| AttemptLedger.StatusMatchesAttempts | crates/adapters/src/postgres.rs:277-363 | Running or cancel_requested if and only if exactly one running attempt; numbers are 1 to n; the running one is n, the others failed |
| Invariants.GuaranteeTransitive | apps/worker/src/lib.rs:616-756 | What one step guarantees holds across any number of steps, so it can stand for interference between two calls |
| Invariants.LoadInputsInOrder | crates/adapters/src/image_repository.rs:528-560 | Loading a job with input items 0 to total-1 gives exactly those rows in order |
| Preservation.RewritePair | crates/adapters/src/lifecycle_repository.rs:174-318 | Any legal rewrite of a running attempt and its job keeps the whole invariant and the guarantee |
| Preservation.InsertOutputsEffect | crates/adapters/src/image_repository.rs:663-726 | A publishing loop that succeeds inserted exactly one row per output, for an input of the same job and item, no item twice |
| Preservation.Pigeonhole | crates/adapters/src/image_repository.rs:447-458 | n different item indexes below n are all of them |
| Preservation.ManifestCovers | crates/adapters/src/image_repository.rs:447-492 | A manifest with as many outputs as inputs covers every item |
| Preservation.NextNumber | crates/adapters/src/postgres.rs:277-291 | The next number is one more than the attempts used and is within the limit for every waiting job |
| Preservation.CreateDemoKeeps | crates/adapters/src/postgres.rs:55-91 | Adding a demo job keeps invariant and guarantee |
| Preservation.FailureKeeps | crates/adapters/src/lifecycle_repository.rs:230-318 | So does a failure recorded with a genuine claim, at any clock value |
| Preservation.ReclaimKeeps | crates/adapters/src/worker_repository.rs:428-523 | So does a reclaim, at any clock value |
| Preservation.CompleteImageKeeps | crates/adapters/src/image_repository.rs:441-492 | So does publishing |
| Preservation.RequestCancelKeeps | crates/adapters/src/lifecycle_repository.rs:334-390 | So does a cancellation request |
| Preservation.ClaimKeeps | crates/adapters/src/postgres.rs:226-407 | So does a claim |
| Preservation.CreateImageKeeps | crates/adapters/src/image_repository.rs:212-304 | So does an idempotent creation |
| Preservation.ManualRetryKeeps | crates/adapters/src/lifecycle_repository.rs:404-510 | So does a manual retry |
| Preservation.TickKeeps | crates/adapters/src/schedule_repository.rs:532-725 | So does a schedule tick, including at most one active job per schedule |
| Preservation.ExpireKeeps | crates/adapters/src/maintenance_repository.rs:96-131 | So does retention |
| Preservation.StepKeeps | crates/adapters/src/lifecycle_repository.rs:142-510 | Every step of every client keeps invariant and guarantee, with a clock of its own |
| Preservation.RunKeeps | crates/adapters/src/lifecycle_repository.rs:142-510 | The invariant holds in every state of every run, and the guarantee between any two |
| Histories.ReachableAttempts | crates/adapters/src/postgres.rs:277-363 | In every reachable state: status and running attempt correspond, numbers are gapless, n within the limit, queued means none, retry_waiting means some left |
| Histories.ReachableRows | crates/adapters/src/lifecycle_repository.rs:174-390 | In every reachable state the optional columns follow the status, and a running attempt's progress is its job's |
| Histories.ProgressOnlyGrows | crates/adapters/src/image_repository.rs:361-410 | While one attempt runs, its job's progress never falls and stays within the total |
| Histories.ManifestIsBijection | crates/adapters/src/image_repository.rs:441-492 | Output rows exist exactly for the items of a published job, one per item, all from its only succeeded attempt, each naming its own input |
| Histories.ExpiryIsWhole | crates/adapters/src/maintenance_repository.rs:96-131 | Retention takes the outputs of a published job exactly when its time is over, all at once with the stamp, and returns their keys |
| Histories.Fencing | crates/adapters/src/image_repository.rs:361-439 | Once a claim's attempt has left the running state, in every later state every call with the claim changes nothing and reports ClaimLost |
| Histories.LeaseExpiryFences | crates/adapters/src/image_repository.rs:759-790 | From the moment its lease has run out every call with a claim, the cancellation read and encoding times included, is refused with its exact answer and changes nothing, even before anyone reclaims it |
| Histories.CancellationWins | crates/adapters/src/lifecycle_repository.rs:334-390 | After a cancellation request no completion ever succeeds, and the job can only end cancelled |
| Histories.CompletionWins | crates/adapters/src/postgres.rs:410-473 | After a completion the job stays succeeded and a cancellation or retry is a conflict |
| Histories.TerminalIsFinal | crates/adapters/src/lifecycle_repository.rs:334-390 | A terminal job row never changes again, apart from the retention stamp |
| Histories.ConflictMeansCancellation | crates/adapters/src/image_repository.rs:361-410 | For a genuine claim a write conflicts if and only if the claim is held and a cancellation was requested |
| Histories.PublishingSucceeds | crates/adapters/src/image_repository.rs:663-726 | Outputs that name their inputs, each item once and not yet published, are all inserted |
| Histories.CompleteImageAnswer | crates/adapters/src/image_repository.rs:441-492 | Completing with the collected outputs succeeds if and only if the claim is held and the job runs; an earlier cancellation is answered ClaimLost |
| Histories.ReplaysFindTheJob | crates/adapters/src/image_repository.rs:176-260 | After any run a request under an existing key returns that job or conflicts, and changes nothing |
| Histories.CreationStoresTheKey | crates/adapters/src/image_repository.rs:212-304 | A first creation stores the key and is then the only job under it |
| Histories.CreatedOnce | crates/adapters/src/image_repository.rs:212-304 | Once a keyed request was answered with a job, after any run the same key gives that job for the same fingerprint and a conflict for any other, and changes nothing |
| Outcomes.LeaseProtects | crates/adapters/src/worker_repository.rs:428-452 | Whatever other clients do, an attempt keeps running and its claim is held until its lease runs out |
| Outcomes.GrantProtects | crates/adapters/src/worker_repository.rs:386-419 | A claim, and each renewal, protects the attempt for the lease time of its worker |
| Outcomes.AfterFailure | crates/adapters/src/lifecycle_repository.rs:230-318 | The attempt fails with the reported kind at the clock of the call; which failures retry, when the job is eligible again, and that its next claim carries the next number |
| Outcomes.AfterReclaim | crates/adapters/src/worker_repository.rs:428-609 | Which reclaims retry, fail or cancel, and when a retried job is eligible again |
| Outcomes.NoClaimBefore | crates/adapters/src/postgres.rs:237-264 | In every run in which claims read clocks before available_at a waiting job gets no attempt and can only be cancelled |
| Outcomes.BackoffIsWaited | crates/adapters/src/lifecycle_repository.rs:230-318 | After a transient failure the job rests for its whole backoff in every run |
| Outcomes.StoppedForGood | crates/adapters/src/worker_repository.rs:261-299 | In no later state does a stopped worker get a claim, a renewal, or a heartbeat of any length, and its row never changes |
| Outcomes.RetryRepeatsTheJob | crates/adapters/src/lifecycle_repository.rs:433-500 | A manual retry repeats work, limits and files of its source, which it leaves alone |
| Outcomes.OccurrenceRepeatsTheSchedule | crates/adapters/src/schedule_repository.rs:589-660 | A tick's job has the settings, priority and files of its schedule and is due at the recorded slot |
| Effects.ProgressIsWritten | crates/adapters/src/image_repository.rs:371-404 | An accepted report is written to attempt and job, never goes back, and changes nothing else |
| Effects.EncodingIsWritten | crates/adapters/src/image_repository.rs:412-439 | An accepted encoding time is added to the attempt, and nothing else changes |
| Effects.EncodingTimeAddsUp | crates/adapters/src/image_repository.rs:412-439 | Over any run the encoding time of an attempt grows by exactly the accepted reports for it |
| Effects.RenewalIsWritten | crates/adapters/src/worker_repository.rs:386-419 | A renewal moves the lease to the worker's lease time from now, and changes nothing else |
| Effects.CompletionIsWritten | crates/adapters/src/image_repository.rs:441-492 | A completion of either kind closes attempt and job at its clock with full progress and a result of its kind, and changes no other job or attempt |
| Effects.FailureIsWritten | crates/adapters/src/lifecycle_repository.rs:230-318 | A failure closes the attempt with its own kind and leaves the job waiting from nothing, or failed at its clock |
| Effects.CancellationIsWritten | crates/adapters/src/lifecycle_repository.rs:174-228 | A finished cancellation closes attempt and job at its clock; the time of the request stays |
| Effects.ReclaimIsWritten | crates/adapters/src/worker_repository.rs:428-609 | A reclaim closes attempt and job at its clock, as a transient failure or as the requested cancellation, and changes no other row |
| Effects.WhenCallsAreAccepted | crates/adapters/src/worker_repository.rs:386-419 | Which calls with a genuine claim are accepted, exactly: the attempt runs, its lease is not over, and the job has the status that the call needs; a renewal also needs a live worker |
| Effects.ClaimIsWritten | crates/adapters/src/postgres.rs:287-399 | A claim appends one attempt with the next number, the worker's lease time from now and nothing done, and hands out what it wrote; a job keeps the time of its first start |
| Effects.ClaimTakesTheFirst | crates/adapters/src/postgres.rs:237-264 | A claim takes the waiting job whose time has come and that precedes all others: high before normal before low, earlier before later, smaller id first; none only if there is none |
| Effects.ReclaimTakesTheFirst | crates/adapters/src/worker_repository.rs:433-452 | A reclaim takes the running attempt whose lease ran out first, and none only if no lease has run out |
| Effects.TickTakesTheFirst | crates/adapters/src/schedule_repository.rs:537-563 | A tick takes the enabled schedule whose slot came first, and none only if none has come |
| Effects.OwnersAreApart | crates/adapters/src/lifecycle_repository.rs:355-430 | A request about somebody else's job or schedule finds nothing and changes nothing, and one about an own job never finds nothing |
| Effects.WhenRequestsAreAccepted | crates/adapters/src/lifecycle_repository.rs:341-430 | Every job that has not succeeded or failed can be cancelled, exactly the failed and cancelled ones can be retried, and all else is a conflict |
| Effects.RequestIsWritten | crates/adapters/src/lifecycle_repository.rs:341-368 | An accepted request cancels a waiting job at once, asks a running one to stop, and changes nothing when repeated |
| Effects.RequestWins | crates/adapters/src/lifecycle_repository.rs:334-390 | In every run after an accepted request no claim completes the job, and it is cancelled or will be |
| Effects.RetryIsWritten | crates/adapters/src/lifecycle_repository.rs:433-466 | A retry is queued and available at its clock, with its source's work, priority, size, owner and limit and nothing else |
| Effects.CreationIsWritten | crates/adapters/src/image_repository.rs:262-296 | A created job has the work, priority, time, size, owner and key of its request and its files in order; no other row changes |
| Effects.WhenJobsAreCreated | crates/adapters/src/image_repository.rs:212-260 | A job is created if and only if the request is valid and no job of the owner has its key; otherwise nothing changes |
| Effects.RequestedForLater | crates/adapters/src/image_repository.rs:262-276 | A job requested for later gets no attempt in any run in which claims read earlier clocks |
| Effects.DemoIsWritten | crates/adapters/src/postgres.rs:55-91 | A demo job is queued now with the fixed delay, and nothing else changes |
| Effects.WorkersAreWritten | crates/adapters/src/worker_repository.rs:203-299 | Registrations, heartbeats and stops write their worker row with times from now, and nothing else |
| Effects.WhenWorkersAreAccepted | crates/adapters/src/worker_repository.rs:203-299 | When registrations, heartbeats and stops are accepted, exactly; otherwise nothing changes |
| Effects.HeartbeatIsWorthItsTime | crates/adapters/src/worker_repository.rs:261-285 | In every run without another heartbeat or a stop a worker can claim at clocks before the end of its time and can neither claim nor renew at others |
| Effects.StopStops | crates/adapters/src/worker_repository.rs:287-299 | After an accepted stop the worker never again gets a claim, a renewal or a heartbeat, and the first stop time stays |
| Effects.ScheduleIsWritten | crates/adapters/src/schedule_repository.rs:292-340 | A new schedule is enabled, has the settings and files of its request, and is due at its anchor |
| Effects.EditIsWritten | crates/adapters/src/schedule_repository.rs:477-523 | An edit replaces the settings and re-arms the schedule; owner, files and every other schedule stay |
| Effects.WhenSchedulesAreAccepted | crates/adapters/src/schedule_repository.rs:292-523 | When schedules are created and edited, exactly; otherwise nothing changes |
| Effects.EveryStampIsTheClock | crates/adapters/src/lifecycle_repository.rs:142-510 | Every time that any step writes into a stamp column was empty before, or is a heartbeat, and is the clock of that step |
| Effects.EndedAt | crates/adapters/src/postgres.rs:410-473 | In every run a job that has ended did so at one event and carries its clock as finished_at for good |
| Effects.PublishedIsKept | crates/adapters/src/maintenance_repository.rs:96-131 | What is published stays published, row by row, in every run in which retention comes before its time is over |
| Effects.CompletionIsKept | crates/adapters/src/maintenance_repository.rs:96-131 | From an accepted completion on, every output keeps its row and key for the whole retention period |
| Progress.MeasureDrops | crates/adapters/src/worker_repository.rs:428-523 | A measure of attempts left and status rank never grows, drops at every change of status or new attempt, and is zero exactly for terminal jobs |
| Progress.ClaimAnswer | crates/adapters/src/postgres.rs:287-291 | What a claim answers in every reachable state; "no remaining attempts" is never the answer |
| Progress.SomethingToDo | apps/worker/src/lib.rs:203-221 | While a job is not terminal, a late enough clock finds something to reclaim or to claim |
| Progress.CrashOnlyDrive | apps/worker/src/lib.rs:185-221 | With every worker crashing after its claim, reclaiming and claiming with one live worker ends every job within a bounded number of rounds |
| Progress.ReclaimAll | apps/worker/src/lib.rs:395-399 | The reclaim loop ends and closes exactly the running attempts whose lease had run out, touching no other |
| Progress.BackoffDoubles | crates/adapters/src/lifecycle_repository.rs:549-555 | The backoff starts at one second, doubles, and is capped at sixty |
| ClaimOrder.ClaimOne | crates/adapters/src/postgres.rs:226-264 | A live worker with a fresh token claims the first job in queue order, or there is none |
| ClaimOrder.ClaimUpTo | apps/worker/src/lib.rs:228-263 | The claim loop takes eligible jobs in strict queue order, each once, up to its limit, leaves only later ones, and takes all when below the limit |
| Manifest.MoveKeeps | apps/worker/src/lib.rs:537-555 | Every move of tasks, reclaimers and retention keeps: published keys are stored unless their task had lost its claim |
| Manifest.PlayKeeps | apps/worker/src/lib.rs:278-332 | So does every run |
| Manifest.PublishedFilesAreStored | apps/worker/src/lib.rs:312-315 | In every run a published output without a file was published by a task that a renewal had told its claim was lost |
| Manifest.OnlyTheOverriddenOkBreaks | apps/worker/src/lib.rs:537-555 | The only move that can take a published file is the clean-up of such a task |
| Manifest.CleanUpBreaksExactly | apps/worker/src/lib.rs:312-315 | For a stored published output the next move removes the file if and only if it is that clean-up and the renewal was lost |
| Manifest.OverriddenOkLosesTheFile | apps/worker/src/lib.rs:312-315 | A concrete run in which a lapsed heartbeat refuses the renewal, completion succeeds, and the published output loses its file |
| Renewals.LateRenewalLosesTheFile | apps/worker/src/lib.rs:296-318 | A concrete run in which the worker is live, publishes, and loses the file to a renewal one second behind the commit |
| Renewals.RefusalCauses | crates/adapters/src/worker_repository.rs:386-419 | A renewal is refused if and only if the task has published, its worker is not live, or its claim is not held and never will be |
| Renewals.DoomedForGood | apps/worker/src/lib.rs:278-332 | A task that has not published and no longer holds its claim never publishes, in any run in which its own clocks do not go back |
| Renewals.LostRenewalExplained | apps/worker/src/lib.rs:296-318 | In every run, at any clocks, a task that published was told its claim was lost if and only if one of its renewals came after the publish, while its worker was not live, or at a clock at which the lease was over |
| Renewals.OrderedClocksExplained | apps/worker/src/lib.rs:296-318 | With own clocks that do not go back the third cause is no cause |
| Renewals.OverlappingRenewalLosesTheFile | apps/worker/src/lib.rs:296-318 | A concrete run in which a renewal that began at the end of the lease is served before a completion that began within it, and the published file is lost |
| Renewals.ClosedForGood | apps/worker/src/lib.rs:278-332 | A task whose attempt runs no more and that has not published never publishes, at any clocks |
| Renewals.MissingFileExplained | apps/worker/src/lib.rs:312-315 | In every run a published output without its file goes back to a renewal of its task with one of the three causes |
| Manifest.PublishKeeps | crates/adapters/src/image_repository.rs:441-492 | Publishing adds only rows whose files the task has stored |
| WorkerTask.World.Pause | apps/worker/src/lib.rs:296-329 | Arbitrary moves of others and renewals of the own lease between two calls keep the task's phase and the guarantee |
| WorkerTask.World.CancellationRequested | crates/adapters/src/lifecycle_repository.rs:142-172 | After a requested cancellation the answer is never "no", whatever happened in between |
| WorkerTask.World.FinishCancelled | crates/adapters/src/lifecycle_repository.rs:174-228 | After a requested cancellation the answer is Ok with the attempt cancelled, or ClaimLost; never a conflict |
| WorkerTask.World.RecordFailure | crates/adapters/src/lifecycle_repository.rs:230-318 | Ok means the attempt failed with the reported kind; a conflict implies a requested cancellation |
| WorkerTask.World.UpdateProgress | crates/adapters/src/image_repository.rs:361-410 | Ok means the attempt has at least the reported progress; a conflict implies a requested cancellation |
| WorkerTask.World.Complete | crates/adapters/src/postgres.rs:410-473 | Ok ends the attempt; a conflict implies a requested cancellation |
| WorkerTask.World.CompleteImageJob | crates/adapters/src/image_repository.rs:441-492 | The collected manifest is answered Ok with the attempt ended, or ClaimLost; never a conflict |
| WorkerTask.World.CleanupAttemptOutputs | apps/worker/src/lib.rs:828-838 | No file of the attempt is left, and the database is untouched |
| WorkerTask.World.FinishIfCancelRequested | apps/worker/src/lib.rs:802-826 | Yes means the attempt was cancelled on request; "no" is impossible after a requested cancellation; otherwise ClaimLost |
| WorkerTask.World.RecordImageFailure | apps/worker/src/lib.rs:758-800 | Ok means the attempt failed with the given kind, or was cancelled on request; otherwise ClaimLost; no conflict escapes |
| WorkerTask.World.StopOnTrouble | apps/worker/src/lib.rs:669-711 | An encoder failure is recorded with its own kind, a full budget as permanent, an unmeasured usage as transient |
| WorkerTask.World.ProcessImage | apps/worker/src/lib.rs:629-718 | One input: go on with its output stored, stop with the attempt ended as what happened, or stop with ClaimLost; a cancellation requested before the input, or by the time it was encoded, stops the program |
| WorkerTask.World.ProcessImages | apps/worker/src/lib.rs:616-756 | The whole loop and the completion: Ok only when the attempt has ended, published, cancelled on request or failed as what happened; every finished input has been reported as progress; the branch for a conflict after completion is never taken |
| WorkerTask.World.ProcessClaimedInner | apps/worker/src/lib.rs:557-613 | Both kinds of work: Ok only when the attempt has ended, published, cancelled on request or failed as what happened, otherwise ClaimLost; no conflict escapes |
| WorkerTask.World.FinishClaimedResult | apps/worker/src/lib.rs:537-555 | A lost claim has its files removed and is not an error; any other result is passed on and nothing changes |
| WorkerTask.World.ProcessWithLeaseRenewal | apps/worker/src/lib.rs:278-332 | Never fails, with renewals possible up to the moment the result is looked at; at the end the attempt has ended or its claim was lost; unless it published, none of its files is left; a published manifest is stored unless a renewal was lost |
| SlotLaws.LatestDueSlotIsWalk | crates/adapters/src/schedule_repository.rs:813-839 | The closed form equals stepping one interval at a time; for representable dates the only error is a next slot past the last date |
| SlotLaws.LatestDueSlotIsGreatest | crates/adapters/src/schedule_repository.rs:813-839 | The slot is the greatest one not after now, and the count is the number of slots before it |
| SlotLaws.NextSlotAfterIsFirst | crates/adapters/src/schedule_repository.rs:841-862 | The closed form equals stepping; the conversions cannot fail for representable dates |
| SlotLaws.NextSlotAfterIsLeast | crates/adapters/src/schedule_repository.rs:841-862 | The slot lies on the anchor's grid and is the least one after now |
| SlotLaws.FormsAgree | crates/adapters/src/schedule_repository.rs:813-862 | On a due cursor on the anchor's grid both forms give the same next slot and refuse the same dates |
| SlotLaws.WholeSeconds | crates/adapters/src/schedule_repository.rs:824-827 | Dividing whole seconds gives the same count as dividing nanoseconds |
| Scheduler.TickEffect | crates/adapters/src/schedule_repository.rs:532-725 | A tick records one slot of the schedule due first and moves its cursor to the slot after it, or changes nothing |
| Scheduler.DueSlotIsNew | crates/adapters/src/schedule_repository.rs:569-571 | With no recorded slot ahead of a cursor a tick at any clock never collides |
| Scheduler.TickKeepsSlots | crates/adapters/src/schedule_repository.rs:525-725 | A tick at any clock, earlier than others or not, keeps recorded slots behind the cursors and cursors above them |
| Scheduler.EditKeepsExactly | crates/adapters/src/schedule_repository.rs:460-523 | An accepted edit keeps recorded slots behind the cursor if and only if none of the schedule's lies on the new grid and after its clock |
| Scheduler.EditKeepsAboveExactly | crates/adapters/src/schedule_repository.rs:477-523 | It keeps the cursors above all recorded slots if and only if the slot at which it arms is above the schedule's |
| Scheduler.NextIsAboveExactly | crates/adapters/src/schedule_repository.rs:841-862 | The slot at which it arms is above a slot of its grid if and only if that slot is not after its clock |
| Scheduler.AheadCollides | crates/adapters/src/schedule_repository.rs:569-571 | A recorded slot ahead of a cursor makes every tick from its time to the next slot violate uniqueness, once its schedule is the next one due |
| Scheduler.UnsafeEditCollides | crates/adapters/src/schedule_repository.rs:460-523 | After any edit outside that condition there is a recorded slot at whose time a tick of that schedule violates uniqueness |
| Scheduler.SlotsNeverCollide | crates/adapters/src/schedule_repository.rs:525-725 | In every run whose edits meet the condition, whatever the clocks of its ticks, slots are recorded once and no tick violates uniqueness |
| Scheduler.AtomicEditsNeverCollide | crates/adapters/src/schedule_repository.rs:460-523 | Edits that are not behind the ticks before them meet it, and the cursors then stay strictly above every recorded slot |
| Scheduler.StaleEditCollides | crates/adapters/src/schedule_repository.rs:460-463 | A concrete run: an edit with a clock one microsecond before the tick makes the next tick violate uniqueness |
| Scheduler.TickAnswer | crates/adapters/src/schedule_repository.rs:532-571 | A tick fails if and only if the next slot of the first due schedule is past the last date |
| Scheduler.OneActiveJob | crates/adapters/src/schedule_repository.rs:578-590 | In every run at most one job per schedule is not terminal, and with one present a tick creates nothing |
| Scheduler.CreatesUnlessBusy | crates/adapters/src/schedule_repository.rs:578-590 | A tick creates a job for its schedule if and only if no job created for that schedule is still open, whatever the other schedules are doing |
| Scheduler.RetryIsNoOverlap | crates/adapters/src/lifecycle_repository.rs:433-466 | A manual retry carries no schedule and never blocks a slot |
| Scheduler.Conservation | crates/adapters/src/schedule_repository.rs:676-715 | Between two edits the cursor moves by exactly the slots its occurrences stand for |
| Scheduler.EverySlotOnce | crates/adapters/src/schedule_repository.rs:676-715 | Every slot the cursor passed between two edits is accounted for by exactly one occurrence |
| Scheduler.NothingBelowTheCursor | crates/adapters/src/schedule_repository.rs:676-715 | Later occurrences stand only for slots from the cursor on |
| Scheduler.TickAll | apps/worker/src/lib.rs:205-226 | The tick loop at one instant handles exactly the due schedules, each once, by cursor and id, creates a job for exactly those that were not busy, and stops |
| RateLimit.RateLimiter.PruneAll | apps/api/src/rate_limit.rs:28-35 | The nested loops pop exactly the expired front of every deque |
| RateLimit.RateLimiter.Retain | apps/api/src/rate_limit.rs:28-36 | Pruning and retaining leave the non-empty pruned deques |
| RateLimit.RateLimiter.Check | apps/api/src/rate_limit.rs:25-51 | At any clock, in order or not, the class answers and changes as one more call of the served sequence |
| RateLimit.EveryRunIsBounded | apps/api/src/rate_limit.rs:38-50 | In every served sequence at most 1024 keys are tracked, each with at most limit attempts, at any clocks |
| RateLimit.OrderedRunIsLawful | apps/api/src/rate_limit.rs:25-51 | With clocks in order every served sequence leaves a lawful history, in which every call was accepted by the full history before it |
| RateLimit.VerdictAgrees | apps/api/src/rate_limit.rs:25-51 | With clocks that lag by at most d the verdict is the one of the full history, unless an accepted call lies within d of the edge of its window; d is zero for clocks in order |
| RateLimit.ForgottenTooEarly | apps/api/src/rate_limit.rs:28-35 | Anywhere in the upper half of that band a burst is forgotten too early and the verdict differs |
| RateLimit.RememberedTooLong | apps/api/src/rate_limit.rs:28-35 | Anywhere in the lower half it is remembered too long and the verdict differs |
| RateLimit.PrunedIsRecent | apps/api/src/rate_limit.rs:28-35 | On an ordered history popping fronts leaves exactly the young calls |
| RateLimit.Decided | apps/api/src/rate_limit.rs:37-50 | The decision on the pruned map is the decision on the history |
| RateLimit.NoWindowOverflows | apps/api/src/rate_limit.rs:25-51 | With clocks that lag by at most d, no window shorter than the configured one by d, wherever it ends, holds more accepted calls of a key than the limit |
| RateLimit.LongerWindowsOverflow | apps/api/src/rate_limit.rs:26-51 | For every limit, window and d there is such a run in which a window longer by one holds one more than the limit |
| RateLimit.OutOfOrderOverflow | apps/api/src/rate_limit.rs:26-27 | Clocks 10, 11, 21, 19 under a limit of two and a window of 10: all accepted, and three lie in one window |
| RateLimit.TrackedFits | apps/api/src/rate_limit.rs:38-40 | No lawful history tracks more than 1024 keys |
| RateLimit.WaitingHelps | apps/api/src/rate_limit.rs:25-51 | In every served sequence, at any clocks, a caller whose clock lags by at most d is accepted after the returned delay plus d, with no call in between, unless the limit is zero |
| RateLimit.WaitingLess | apps/api/src/rate_limit.rs:26-47 | For every limit, window and d there is a sequence in which one less is not enough |
| RateLimit.NoEarlier | apps/api/src/rate_limit.rs:25-51 | In every served sequence, at any clocks, a caller rejected for its own calls is rejected again before the delay has passed |
| RateLimit.HistoryWaits | apps/api/src/rate_limit.rs:41-47 | On an ordered lawful history waiting the delay leads to acceptance by the full history |
| RateLimit.HistoryNoEarlier | apps/api/src/rate_limit.rs:42-46 | And a caller rejected for its own calls is accepted no earlier |
| Fingerprint.FingerprintPart | apps/api/src/upload.rs:480-483 | One part adds its length in eight bytes and its bytes |
| Fingerprint.FingerprintRequest | apps/api/src/upload.rs:456-478 | Feeding the digest field by field and input by input gives the request's preimage |
| Fingerprint.BigEndianReads | apps/api/src/upload.rs:456-478 | Fixed-width big-endian bytes read back |
| Fingerprint.SplitsConcat | apps/api/src/upload.rs:480-483 | A stream of length-prefixed parts splits into exactly those parts |
| Fingerprint.RoundTrip | apps/api/src/upload.rs:456-478 | The stream decodes to the request, all but the storage keys |
| Fingerprint.SameStreamMeansSameRequest | apps/api/src/upload.rs:456-478 | Two requests share a stream if and only if they agree on everything but storage keys |
| Fingerprint.LookupComparesRequests | crates/adapters/src/image_repository.rs:176-210 | Collisions aside, a lookup under an existing key finds the job if and only if the requests agree |
| Submission.Submit | apps/api/src/upload.rs:48-95 | With other clients and the sweep between lookup, limit check and creation: an accepted answer is the only job under the key; an existing job is found or conflicts, whatever the limit; a new job is created as requested, only below the limit at the count, and the limit refuses only from there on; no invalid request creates a job; if answered by the deadline of its files, every staged file that a row names is there; replay, earlier conflict and limit leave none |
| Submission.LookUp | apps/api/src/upload.rs:54-67 | The lookup finds a job that had the key before, or conflicts with it, whatever happened since |
| Submission.Create | apps/api/src/upload.rs:80-94 | Creation answers with the only job under the key or a conflict, or adds the job as requested, naming only staged files |
| Submission.CreateImageJob | apps/api/src/upload.rs:19-95 | The whole request: if answered by the deadline of its files they are all kept, or all removed with no row naming any; a request that cannot be staged leaves none |
| Submission.CreationAnswers | crates/adapters/src/image_repository.rs:212-304 | Creation answers with the only job under the key, or conflicts with it |
| Upload.Batch.WriteAll | apps/api/src/upload.rs:423-426 | Every single write leaves file, batch and budget within their bounds |
| Upload.Batch.WriteImageField | apps/api/src/upload.rs:366-439 | A file passes if and only if its bytes are not empty and fit the three bounds; what was written stays within them even on failure |
| Upload.Batch.StageImages | apps/api/src/upload.rs:266-332 | The image fields pass if and only if the usage measured before (441-453) is below the budget, each has a file name, and their one to ten contents fit and pass inspection; they are then stored byte for byte; a failure is for what is wrong with the first field that cannot be staged, and leaves what was written within the bounds |
| Upload.SplitDoesNotDecide | apps/api/src/upload.rs:366-439 | The same bytes split differently pass or fail alike, with the same size |
| Upload.SplitDecidesExactly | apps/api/src/upload.rs:366-439 | The answer to a file is the same for every split if and only if its size meets a condition on the room left under the budget and the batch limit |
| Upload.RevealingAnswer | apps/api/src/upload.rs:366-439 | Otherwise a split of two chunks is told about another limit than the file in one chunk |
| Storage.ProtectsByComponents | crates/adapters/src/storage.rs:223-229 | The string test protects a path if and only if the prefix is a prefix of its components |
| Storage.RenderIsInjective | crates/adapters/src/storage.rs:38-47 | Different paths have different keys |
| Storage.AttemptPrefixCovers | crates/adapters/src/storage.rs:38-47 | An attempt's prefix covers exactly its own output keys, and output keys are never shared |
| Cleanup.LocalStorage.CleanupDirectory | crates/adapters/src/storage.rs:201-246 | The recursive walk leaves exactly the files that do not go and the directories that hold one; its report is the drop in files and bytes |
| Cleanup.LocalStorage.DirectoryUsage | crates/adapters/src/storage.rs:179-199 | The worklist returns the bytes of all files in the tree and fails if and only if they exceed u64 |
| Cleanup.KeepsExactly | crates/adapters/src/storage.rs:101-123 | A whole clean-up keeps a file if and only if it is referenced, lies under a protected prefix by components, or is newer than the cutoff |
| Cleanup.EmptyDirectory | crates/adapters/src/storage.rs:215-217 | A directory is empty after its clean-up if and only if no file below it stays |
| Maintenance.NewReferences | crates/adapters/src/maintenance_repository.rs:62-73 | A step makes a key referenced only by introducing it; retries and ticks copy keys that are referenced already |
| Maintenance.Site.RunMaintenance | apps/worker/src/lib.rs:441-470 | Under concurrent commits, with attempts of any length, if the file-to-row time of uploads and of outputs published between the reads and the read-to-cutoff time together stay below the grace period, no file is deleted while a row names it, none that was deleted is named before it is written again, and every named file that was ever written is there unless another party removed it; and what retention gave up, and every file there from the start that neither read protects and that is as old as the cutoff, is gone or was written again |
| Maintenance.SweptIsBuried | apps/worker/src/lib.rs:456-470 | What neither read protects and is not newer than the cutoff is named by no row and never will be: running attempts are kept, ended ones settled, later ones too young |
| Maintenance.ClosedIsNeverNamed | crates/adapters/src/maintenance_repository.rs:75-94 | An output whose attempt ended without being referenced is never named again |
| Maintenance.CommitLeavesBuried | apps/worker/src/lib.rs:456-470 | No commit that is prompt for uploads names a key that the sweep has removed, however late its outputs are |
| Maintenance.BoundIsNeeded | apps/worker/src/lib.rs:456-470 | Whenever the two times together reach the grace period, an uploaded file whose row commits promptly can be deleted while that row names it |
| Maintenance.BoundIsNeededForOutputs | apps/worker/src/lib.rs:456-470 | So can, in every state with a held claim, each of its outputs that is published promptly between the two reads |
| Maintenance.SlowAttempt | crates/adapters/src/worker_repository.rs:386-419 | For every delay such a state is reached: heartbeats and renewals keep a claim for as long as its worker likes |
| Maintenance.NewOutputWasRunning | crates/adapters/src/maintenance_repository.rs:75-94 | An output that became referenced between two states belonged to an attempt that was running, or not yet claimed, in the first |
| Maintenance.MissedExactly | apps/worker/src/lib.rs:456-463 | An output referenced when the sweep comes to it is missed by both reads if and only if it became referenced between them or its attempt was claimed after the second |
| Maintenance.PrefixesFirstCatchOutputs | apps/worker/src/lib.rs:456-463 | Reading prefixes first would protect every such output without any assumption on how promptly rows follow files |
| Maintenance.ReferencesFirstLeavesAGap | apps/worker/src/lib.rs:456-463 | A concrete run in which an attempt publishes between the two reads and is in neither, so its file is deleted unless it is newer than the cutoff; in the other order it is kept |

## Left out

- Repositories.Database: each transaction is one atomic step; row locks, SKIP LOCKED passing over a locked candidate, isolation levels, connection failures and ambiguous commits are not modelled.
- Repositories.Database.UpdateSchedule: the clock query and the UPDATE are one step; the clock value is a parameter, so a stale one is covered.
- Steps.FailureStep: instants are unbounded integers of nanoseconds; PostgreSQL's microsecond rounding, and the overflow of a retry time next to the last representable date, are not modelled.
- Steps.TickStep: names, display data, image sizes, checksums, created_at and updated_at columns are not part of the rows; neither are elapsed-time columns (duration_ms, queue_wait_ms, result_duration_ms), whose conversions only fail beyond i64. An interval of zero, which the table constraint excludes, answers InvalidData where the source would divide by zero.
- Steps.RequestCancelStep: answers with the job's identity where the source reads the whole record back; the read in a second query is not modelled.
- Manifest.Do: removing a tree or a file always succeeds, encoding writes its one file or nothing, and the maintenance sweep is a model of its own (Maintenance); storage errors during clean-up are only logged by the source.
- WorkerTask.World: sleeping, durations, logging, task joining, draining on shutdown and heartbeat pacing are not modelled; renewals come at arbitrary moments instead of at an interval.
- WorkerTask.World.OthersMove: the environment is replayed on the tables as a whole; it stands for other processes, not for code of this one.
- Progress.CrashOnlyDrive: the clock is advanced far enough in each round; no bound on real time is proved.
- Fingerprint.LookupComparesRequests: SHA-256 is an arbitrary function assumed not to collide on the two streams compared; text is taken as its UTF-8 bytes.
- Upload.Batch.StageImages: multipart parsing and the text fields of the form (apps/api/src/upload.rs:173-265, 314-324) are not modelled; of a file name only its presence matters, and inspection is an arbitrary predicate on the bytes.
- Submission.CreateImageJob: removing a batch always succeeds; the source ignores a failure, and maintenance then collects the files.
- Submission.Submit: a request that takes longer than the deadline of its files is promised nothing about them, since the sweep may take them before the row commits (Maintenance.BoundIsNeeded); the upload lock of one API process is not relied on; the limit on active jobs is checked against a count that others may make stale, and no bound on active jobs is claimed.
- Cleanup.LocalStorage.CleanupDirectory: trees of plain files and directories without symbolic links, listed at the start of each directory; other writers during the walk are covered on keys by Maintenance. The unchecked sums over subdirectories are exact integers here, which agrees with u64 as long as the tree's bytes fit u64.
- Maintenance.Site.RunMaintenance: that the row of an upload, and of an output published between the two reads, follows its file promptly is an assumption on the other parties; the age of a file is read in the same instant in which it is deleted; session purging and metrics are not modelled.
- Storage.Render: path resolution against traversal, backslashes and names that are not UTF-8.
- HTTP routing, JSON, authentication, sessions and CSRF, the dashboard, migrations machinery, row decoding and enum parsing, image decoding and JPEG encoding, configuration parsing, backup and benchmark scripts.
