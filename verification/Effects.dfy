/** What an answer promises about the rows: which columns a call that was accepted has written, with
    which values, that every other row is as it was, and what this means for the runs that follow.
  */
module Effects {
  import opened Rows
  import opened Slots
  import opened Steps
  import opened AttemptLedger
  import opened Invariants
  import opened Preservation
  import opened Histories
  import opened Outcomes
  import Maintenance

  // ---------------------------------------------------------------- frames

  /** One attempt and one job may differ, and nothing else. */
  ghost predicate OnlyRows(t: Tables, u: Tables, job: nat, attempt: nat) {
    && u == t.(jobs := u.jobs, attempts := u.attempts)
    && job < |t.jobs| == |u.jobs| && attempt < |t.attempts| == |u.attempts|
    && (forall j: nat :: j < |t.jobs| && j != job ==> u.jobs[j] == t.jobs[j])
    && (forall a: nat :: a < |t.attempts| && a != attempt ==> u.attempts[a] == t.attempts[a])
  }

  /** One attempt may differ, and nothing else. */
  ghost predicate OnlyAttempt(t: Tables, u: Tables, attempt: nat) {
    && u == t.(attempts := u.attempts) && attempt < |t.attempts| == |u.attempts|
    && (forall a: nat :: a < |t.attempts| && a != attempt ==> u.attempts[a] == t.attempts[a])
  }

  /** The attempt has ended now, for the given reason. */
  predicate EndedNow(before: Attempt, after: Attempt, status: AttemptStatus, reason: Option<ErrorKind>, now: Time) {
    && before.status.Running? && !status.Running?
    && after == before.(status := status, errorKind := reason, finishedAt := Some(now),
                        progress := if status.Succeeded? then before.total else before.progress)
  }

  // ---------------------------------------------------------------- calls made with a claim

  /** An accepted report is written to the attempt and to its job; a report never goes back. */
  lemma ProgressIsWritten(t: Tables, c: Claim, completed: nat, now: Time)
    requires ProgressStep(t, c, completed, now).1.Ok?
    ensures var u := ProgressStep(t, c, completed, now).0;
            && OnlyRows(t, u, c.job, c.attempt)
            && t.attempts[c.attempt].progress <= completed <= t.attempts[c.attempt].total
            && u.attempts[c.attempt] == t.attempts[c.attempt].(progress := completed)
            && u.jobs[c.job] == t.jobs[c.job].(progress := completed)
  {
  }

  lemma EncodingIsWritten(t: Tables, c: Claim, ms: nat, now: Time)
    requires EncodingStep(t, c, ms, now).1.Ok?
    ensures var u := EncodingStep(t, c, ms, now).0;
            && OnlyAttempt(t, u, c.attempt)
            && u.attempts[c.attempt] == t.attempts[c.attempt].(encodingMs := t.attempts[c.attempt].encodingMs + ms)
  {
  }

  /** A renewal moves the lease to the worker's lease time from now, and nothing else. */
  lemma RenewalIsWritten(t: Tables, c: Claim, now: Time)
    requires RenewStep(t, c, now).1.Ok?
    ensures var (u, r) := RenewStep(t, c, now);
            && OnlyAttempt(t, u, c.attempt) && c.worker in t.workers
            && r.value == now + t.workers[c.worker].leaseSeconds * SECOND
            && u.attempts[c.attempt] == t.attempts[c.attempt].(leaseExpiresAt := r.value)
  {
  }

  /** A completion closes both rows at its clock: full progress, a result of its own kind, no failure. */
  lemma CompletionIsWritten(t: Tables, c: Claim, outputs: seq<PendingOutput>, now: Time)
    ensures var (u, r) := CompleteDemoStep(t, c, now);
            r.Ok? ==>
              && OnlyRows(t, u, c.job, c.attempt) && t.jobs[c.job].work.DemoDelay?
              && EndedNow(t.attempts[c.attempt], u.attempts[c.attempt], AttemptStatus.Succeeded, None, now)
              && Succeeded(t.jobs[c.job], u.jobs[c.job], DemoDelayCompleted, now)
    ensures var (u, r) := CompleteImageStep(t, c, outputs, now);
            r.Ok? ==>
              && OnlyRows(t, u.(artifacts := t.artifacts, nextArtifact := t.nextArtifact), c.job, c.attempt) && t.jobs[c.job].work.ImageResize?
              && EndedNow(t.attempts[c.attempt], u.attempts[c.attempt], AttemptStatus.Succeeded, None, now)
              && Succeeded(t.jobs[c.job], u.jobs[c.job], ImagesResized(|outputs|), now)
  {
    hide InsertOutputs;
  }

  predicate Succeeded(before: Job, after: Job, note: ResultNote, now: Time) {
    && before.status.Running?
    && after == before.(status := JobStatus.Succeeded, finishedAt := Some(now), progress := before.total, result := Some(note), failure := None)
  }

  /** A failure closes the attempt with its own kind and leaves the job waiting or failed. */
  lemma FailureIsWritten(t: Tables, c: Claim, kind: FailureKind, message: string, now: Time)
    requires Inv(t) && FailureStep(t, c, kind, message, now).1.Ok?
    ensures var (u, r) := FailureStep(t, c, kind, message, now);
            && OnlyRows(t, u, c.job, c.attempt)
            && EndedNow(t.attempts[c.attempt], u.attempts[c.attempt], AttemptStatus.Failed, Some(FailedWith(kind)), now)
            && AfterAFailure(t.jobs[c.job], u.jobs[c.job], r.value, message, now)
  {
    JobFacts(t, c.job);
    hide Inv, RetryBackoffSeconds;
  }

  /** A job that failed in an attempt either waits for its next one, starting from nothing, or has
      failed now. */
  predicate AfterAFailure(before: Job, after: Job, disposition: Disposition, message: string, now: Time) {
    && before.status.Running?
    && match disposition
       case RetryScheduled(at) =>
         after == before.(status := JobStatus.RetryWaiting, availableAt := at, progress := 0, failure := Some(message))
       case JobFailed => after == before.(status := JobStatus.Failed, finishedAt := Some(now), failure := Some(message))
       case JobCancelled => false
  }

  /** The job was cancelled now; the time of the request stays. */
  predicate CancelledNow(before: Job, after: Job, now: Time) {
    before.status.CancelRequested? && after == before.(status := JobStatus.Cancelled, finishedAt := Some(now))
  }

  lemma CancellationIsWritten(t: Tables, c: Claim, now: Time)
    requires Inv(t) && FinishCancelledStep(t, c, now).1.Ok?
    ensures var u := FinishCancelledStep(t, c, now).0;
            && OnlyRows(t, u, c.job, c.attempt)
            && EndedNow(t.attempts[c.attempt], u.attempts[c.attempt], AttemptStatus.Cancelled, Some(CancelledByUser), now)
            && CancelledNow(t.jobs[c.job], u.jobs[c.job], now)
  {
    JobFacts(t, c.job);
    hide Inv;
  }

  /** A reclaim closes both rows at its clock: a lost lease is a transient failure, unless a cancellation
      was requested, which is carried out. */
  lemma ReclaimIsWritten(t: Tables, now: Time)
    requires Inv(t) && ReclaimStep(t, now).1.Ok? && ReclaimStep(t, now).1.value.Some?
    ensures var (u, r) := ReclaimStep(t, now);
            var reclaimed := r.value.value;
            var (j, a) := (reclaimed.job, reclaimed.attempt);
            && OnlyRows(t, u, j, a) && t.attempts[a].job == j && t.attempts[a].worker == reclaimed.worker
            && if t.jobs[j].status.CancelRequested?
               then && reclaimed.disposition == JobCancelled && CancelledNow(t.jobs[j], u.jobs[j], now)
                    && EndedNow(t.attempts[a], u.attempts[a], AttemptStatus.Cancelled, Some(CancelledByUser), now)
               else && AfterAFailure(t.jobs[j], u.jobs[j], reclaimed.disposition, LEASE_EXPIRED_MESSAGE, now)
                    && EndedNow(t.attempts[a], u.attempts[a], AttemptStatus.Failed, Some(FailedWith(Transient)), now)
  {
    var a := NextExpired(t, |t.attempts|, now).value;
    RunningAttempt(t, a);
    JobFacts(t, t.attempts[a].job);
    hide Inv, NextExpired, RetryBackoffSeconds;
  }

  /** Which calls with a genuine claim are accepted.  Only the status of the claim's own rows, the clock
      and, for a renewal, the worker's row decide: the attempt runs and its lease is not over. */
  lemma WhenCallsAreAccepted(t: Tables, c: Claim, n: nat, kind: FailureKind, message: string, now: Time)
    requires Inv(t) && c in t.claims
    ensures c.attempt < |t.attempts| && c.job < |t.jobs|
    ensures var holds := t.attempts[c.attempt].status.Running? && now < t.attempts[c.attempt].leaseExpiresAt;
            var job := t.jobs[c.job];
            && (EncodingStep(t, c, n, now).1.Ok? <==> holds)
            && (ProgressStep(t, c, n, now).1.Ok? <==> holds && job.status.Running? && job.progress <= n <= job.total)
            && (FailureStep(t, c, kind, message, now).1.Ok? <==> holds && job.status.Running?)
            && (FinishCancelledStep(t, c, now).1.Ok? <==> holds && job.status.CancelRequested?)
            && (CompleteDemoStep(t, c, now).1.Ok? <==> holds && job.status.Running? && job.work.DemoDelay?)
            && CancellationRequested(t, c, now) == (if holds then Ok(job.status.CancelRequested?) else Err(ClaimLost))
            && (RenewStep(t, c, now).1.Ok? <==>
                  holds && c.worker in t.workers && t.workers[c.worker].stoppedAt.None? && now < t.workers[c.worker].heartbeatExpiresAt)
  {
    GenuineClaim(t, c);
    if t.attempts[c.attempt].status.Running? {
      RunningAttempt(t, c.attempt);
    }
    hide Inv, RetryBackoffSeconds;
  }

  // ---------------------------------------------------------------- claiming

  /** A claim appends a running attempt of the claimed job, with the worker's lease time from now and
      nothing done yet, and hands out what it wrote; the job runs, keeping the time of its first start. */
  lemma ClaimIsWritten(t: Tables, worker: nat, now: Time, token: nat)
    requires Inv(t) && ClaimStep(t, worker, now, token).1.Ok? && ClaimStep(t, worker, now, token).1.value.Some?
    ensures var (u, r) := ClaimStep(t, worker, now, token);
            var c := r.value.value;
            && u == t.(jobs := u.jobs, attempts := u.attempts, claims := t.claims + {c})
            && c.job < |t.jobs| == |u.jobs| && u.jobs == t.jobs[c.job := u.jobs[c.job]] && worker in t.workers
            && u.attempts == t.attempts + [Attempt(c.job, c.number, AttemptStatus.Running, 0, t.jobs[c.job].total, now, None, worker, token,
                                                   now + t.workers[worker].leaseSeconds * SECOND, 0, None)]
            && u.jobs[c.job] == t.jobs[c.job].(
                 status := JobStatus.Running, failure := None,
                 startedAt := if t.jobs[c.job].startedAt.None? then Some(now) else t.jobs[c.job].startedAt)
            && c.attempt == |t.attempts| && c.worker == worker && c.token == token && c.maxAttempts == t.jobs[c.job].maxAttempts
            && c.number == Used(t.attempts, c.job) + 1 && c.leaseExpiresAt == u.attempts[c.attempt].leaseExpiresAt
            && (c.work.DemoWork? <==> t.jobs[c.job].work.DemoDelay?)
  {
    var j := NextCandidate(t.jobs, |t.jobs|, now).value;
    JobFacts(t, j);
    UsedIsMax(t, j);
    hide Inv, NextCandidate, LoadInputs, MaxNumber;
  }

  lemma UsedIsMax(t: Tables, j: nat)
    requires Inv(t)
    ensures MaxNumber(t.attempts, |t.attempts|, j) == Used(t.attempts, j)
  {
    hide MaxNumber;
    forall k: nat | k < |t.attempts|
      ensures t.attempts[k].number == Count(t.attempts, k, t.attempts[k].job) + 1
    {
      assert AttemptFits(t.jobs, t.attempts, k);
    }
    MaxNumberIsCount(t.attempts, |t.attempts|, j);
  }

  // ---------------------------------------------------------------- which row is taken

  /** High before normal before low, then the earlier time, then the smaller id. */
  predicate Precedes(a: Job, i: nat, b: Job, j: nat) {
    || (a.priority.High? && !b.priority.High?)
    || (a.priority.Normal? && b.priority.Low?)
    || (a.priority == b.priority && (a.availableAt < b.availableAt || (a.availableAt == b.availableAt && i < j)))
  }

  /** A job that waits, and whose time has come. */
  predicate Ready(job: Job, now: Time) {
    (job.status.Queued? || job.status.RetryWaiting?) && job.availableAt <= now
  }

  /** A claim takes the ready job that precedes all others, and answers none only if there is none. */
  lemma ClaimTakesTheFirst(t: Tables, worker: nat, now: Time, token: nat)
    ensures var r := ClaimStep(t, worker, now, token).1;
            && (r == Ok(None) <==> forall j: nat :: j < |t.jobs| ==> !Ready(t.jobs[j], now))
            && (r.Ok? && r.value.Some? ==>
                  var c := r.value.value.job;
                  c < |t.jobs| && Ready(t.jobs[c], now)
                  && forall j: nat :: j < |t.jobs| && j != c && Ready(t.jobs[j], now) ==> Precedes(t.jobs[c], c, t.jobs[j], j))
  {
    hide MaxNumber, LoadInputs;
  }

  /** The lease of a running attempt is over. */
  predicate Overdue(a: Attempt, now: Time) {
    a.status.Running? && a.leaseExpiresAt <= now
  }

  /** A reclaim takes the overdue attempt whose lease ran out first, and none only if there is none. */
  lemma ReclaimTakesTheFirst(t: Tables, now: Time)
    requires Inv(t)
    ensures var r := ReclaimStep(t, now).1;
            && r.Ok? && (r.value.None? <==> forall a: nat :: a < |t.attempts| ==> !Overdue(t.attempts[a], now))
            && (r.value.Some? ==>
                  var c := r.value.value.attempt;
                  c < |t.attempts| && Overdue(t.attempts[c], now)
                  && forall a: nat :: a < |t.attempts| && a != c && Overdue(t.attempts[a], now) ==>
                       || t.attempts[c].leaseExpiresAt < t.attempts[a].leaseExpiresAt
                       || (t.attempts[c].leaseExpiresAt == t.attempts[a].leaseExpiresAt && c < a))
  {
    forall a: nat | a < |t.attempts|
      ensures Expired(t, a, now) <==> Overdue(t.attempts[a], now)
    {
      if t.attempts[a].status.Running? {
        RunningAttempt(t, a);
      }
    }
    hide Inv, RetryBackoffSeconds;
  }

  /** A schedule that is enabled, and whose next slot has come. */
  predicate SlotDue(s: Schedule, now: Time) {
    s.enabled && s.next <= now
  }

  /** A tick takes the enabled schedule whose slot came first, and none only if there is none. */
  lemma TickTakesTheFirst(t: Tables, now: Time)
    ensures var r := TickStep(t, now).1;
            && (r == Ok(None) <==> forall i: nat :: i < |t.schedules| ==> !SlotDue(t.schedules[i], now))
            && (r.Ok? && r.value.Some? ==>
                  var c := r.value.value.schedule;
                  c < |t.schedules| && SlotDue(t.schedules[c], now)
                  && forall i: nat :: i < |t.schedules| && i != c && SlotDue(t.schedules[i], now) ==>
                       t.schedules[c].next < t.schedules[i].next || (t.schedules[c].next == t.schedules[i].next && c < i))
  {
    hide LatestDueSlot, InsertInputs, SlotRecorded, Overlaps;
  }

  // ---------------------------------------------------------------- requests about jobs

  /** The caller sees the row: an operator sees every row, an owner only its own. */
  predicate Sees(caller: Option<nat>, owner: nat) {
    caller.None? || caller.value == owner
  }

  /** A call about a job or schedule of somebody else finds nothing and changes nothing, and a call
      about a job that the caller does see never finds nothing. */
  lemma OwnersAreApart(t: Tables, id: nat, caller: Option<nat>, edit: ScheduleEdit, now: Time)
    ensures RequestCancelStep(t, id, caller, now).1 == Ok(None) <==> !(id < |t.jobs| && Sees(caller, t.jobs[id].owner))
    ensures ManualRetryStep(t, id, caller, now).1 == Ok(None) <==> !(id < |t.jobs| && Sees(caller, t.jobs[id].owner))
    ensures !(id < |t.jobs| && Sees(caller, t.jobs[id].owner)) ==>
              RequestCancelStep(t, id, caller, now).0 == t && ManualRetryStep(t, id, caller, now).0 == t
    ensures !(id < |t.schedules| && Sees(caller, t.schedules[id].owner)) ==>
              var (u, r) := UpdateScheduleStep(t, id, edit, caller, now); u == t && (r.Ok? ==> r == Ok(None))
    ensures id < |t.schedules| && Sees(caller, t.schedules[id].owner) ==> UpdateScheduleStep(t, id, edit, caller, now).1 != Ok(None)
  {
    hide NextSlotAfter, CopyInputs;
  }

  /** Which requests about a job that the caller sees are accepted: every job that has not succeeded or
      failed can be cancelled, and exactly the failed and cancelled ones can be retried. */
  lemma WhenRequestsAreAccepted(t: Tables, j: nat, caller: Option<nat>, now: Time)
    requires j < |t.jobs| && Sees(caller, t.jobs[j].owner)
    ensures RequestCancelStep(t, j, caller, now).1 == if t.jobs[j].status.Succeeded? || t.jobs[j].status.Failed? then Err(StateConflict) else Ok(Some(j))
    ensures ManualRetryStep(t, j, caller, now).1
            == if t.jobs[j].status.Failed? || t.jobs[j].status.Cancelled? then Ok(Some(|t.jobs|)) else Err(StateConflict)
  {
    hide CopyInputs;
  }

  /** What a request to cancel does when it is accepted: a waiting job is cancelled at once, a running
      one is asked to stop, and a repeated request changes nothing. */
  lemma RequestIsWritten(t: Tables, j: nat, caller: Option<nat>, now: Time)
    requires Inv(t) && RequestCancelStep(t, j, caller, now).1.Ok? && RequestCancelStep(t, j, caller, now).1.value.Some?
    ensures var (u, r) := RequestCancelStep(t, j, caller, now);
            && r == Ok(Some(j)) && j < |t.jobs| == |u.jobs| && u == t.(jobs := t.jobs[j := u.jobs[j]])
            && match t.jobs[j].status
               case Queued => u.jobs[j] == t.jobs[j].(status := JobStatus.Cancelled, cancelRequestedAt := Some(now), finishedAt := Some(now))
               case RetryWaiting => u.jobs[j] == t.jobs[j].(status := JobStatus.Cancelled, cancelRequestedAt := Some(now),
                                                            finishedAt := Some(now), failure := None)
               case Running => u.jobs[j] == t.jobs[j].(status := JobStatus.CancelRequested, cancelRequestedAt := Some(now))
               case CancelRequested => u == t
               case Cancelled => u == t
               case _ => false
  {
    JobFacts(t, j);
    hide Inv;
    assert t.jobs[j := t.jobs[j]] == t.jobs;
  }

  /** A request that was accepted wins: in every run after it no claim completes the job, and the job
      is cancelled or will be. */
  lemma RequestWins(t: Tables, j: nat, caller: Option<nat>, at: Time, events: seq<Event>, c: Claim, outputs: seq<PendingOutput>, now: Time)
    requires Inv(t) && RequestCancelStep(t, j, caller, at).1 == Ok(Some(j)) && c.job == j
    ensures var u := Run(RequestCancelStep(t, j, caller, at).0, events);
            && j < |u.jobs| && (u.jobs[j].status.CancelRequested? || u.jobs[j].status.Cancelled?)
            && (!t.jobs[j].status.Running? && !t.jobs[j].status.CancelRequested? ==> u.jobs[j].status.Cancelled?)
            && CompleteDemoStep(u, c, now).0 == u && CompleteDemoStep(u, c, now).1.Err?
            && CompleteImageStep(u, c, outputs, now).0 == u && CompleteImageStep(u, c, outputs, now).1.Err?
  {
    hide Inv, Guarantee, Run, RequestCancelStep, CompleteDemoStep, CompleteImageStep;
    var s := RequestCancelStep(t, j, caller, at).0;
    RequestIsWritten(t, j, caller, at);
    RequestCancelKeeps(t, j, caller, at);
    RunKeeps(s, events);
    JobLater(s, Run(s, events), j);
    OnlyRunningCompletes(Run(s, events), c, outputs, now);
  }

  lemma OnlyRunningCompletes(t: Tables, c: Claim, outputs: seq<PendingOutput>, now: Time)
    requires !JobHas(t, c.job, JobStatus.Running)
    ensures CompleteDemoStep(t, c, now).0 == t && CompleteDemoStep(t, c, now).1.Err?
    ensures CompleteImageStep(t, c, outputs, now).0 == t && CompleteImageStep(t, c, outputs, now).1.Err?
  {
  }

  /** A retry is queued now, with its source's work, priority, size, owner and limit, and nothing else. */
  lemma RetryIsWritten(t: Tables, j: nat, caller: Option<nat>, now: Time)
    requires ManualRetryStep(t, j, caller, now).1.Ok? && ManualRetryStep(t, j, caller, now).1.value.Some?
    ensures var (u, r) := ManualRetryStep(t, j, caller, now);
            && r == Ok(Some(|t.jobs|)) && j < |t.jobs|
            && u == t.(jobs := u.jobs, artifacts := u.artifacts, nextArtifact := u.nextArtifact)
            && var s := t.jobs[j];
               u.jobs == t.jobs + [Job(s.work, JobStatus.Queued, s.priority, now, 0, s.total, s.maxAttempts, None, None, None, None, None,
                                       Some(j), s.owner, None, None, None)]
  {
    hide CopyInputs;
  }

  // ---------------------------------------------------------------- creation

  /** A job that was created has what the request asked for, is queued, and is available at the time
      requested, or now; its files are its input rows, in order, and no other row changes. */
  lemma CreationIsWritten(t: Tables, r: ImageRequest, now: Time)
    requires Inv(t) && CreateImageStep(t, r, now).1 == Ok(|t.jobs|)
    ensures var u := CreateImageStep(t, r, now).0;
            && 1 <= |r.inputs| <= 10 && 1 <= r.maxWidth <= 8192 && 1 <= r.jpegQuality <= 100
            && u == t.(jobs := u.jobs, artifacts := u.artifacts, nextArtifact := u.nextArtifact)
            && u.jobs == t.jobs + [Job(ImageResize(r.maxWidth, r.jpegQuality), JobStatus.Queued, r.priority,
                                       match r.availableAt case Some(at) => at case None => now,
                                       0, |r.inputs|, 3, None, None, None, None, None, None, r.owner, r.idempotency, None, None)]
            && (forall i: nat :: Slot(|t.jobs|, Input, i) in u.artifacts <==> i < |r.inputs|)
            && (forall i: nat :: i < |r.inputs| ==> u.artifacts[Slot(|t.jobs|, Input, i)].key == InputKey(r.inputs[i].batch, r.inputs[i].file))
            && (forall s: Slot :: s.job != |t.jobs| ==> (s in u.artifacts <==> s in t.artifacts))
            && (forall s :: s in t.artifacts ==> s in u.artifacts && u.artifacts[s] == t.artifacts[s])
  {
    NoRowsYet(t);
    FoundIsOld(t, r);
    hide Inv, InsertInputs, FindIdempotent;
    InsertInputsEffect(t.artifacts, t.nextArtifact, |t.jobs|, r.inputs, |r.inputs|);
  }

  lemma FoundIsOld(t: Tables, r: ImageRequest)
    ensures r.idempotency.Some? ==>
              var found := FindIdempotent(t, r.owner, r.idempotency.value);
              found.Ok? && found.value.Some? ==> found.value.value < |t.jobs|
  {
  }

  /** When a job is created: the request is valid, and no job of the owner has its key. */
  lemma WhenJobsAreCreated(t: Tables, r: ImageRequest, now: Time)
    ensures CreateImageStep(t, r, now).1 == Ok(|t.jobs|) <==>
              && 1 <= |r.inputs| <= 10 && 1 <= r.maxWidth <= 8192 && 1 <= r.jpegQuality <= 100
              && (r.idempotency.Some? ==>
                    && 1 <= |r.idempotency.value.key| <= 128 && |r.idempotency.value.fingerprint| == 32
                    && forall j: nat :: j < |t.jobs| ==> !Keyed(t.jobs[j], r.owner, r.idempotency.value.key))
    ensures CreateImageStep(t, r, now).1 != Ok(|t.jobs|) ==> CreateImageStep(t, r, now).0 == t
  {
    FoundIsOld(t, r);
    hide InsertInputs;
  }

  /** So a job requested for later is not claimed before: in every run in which claims read earlier
      clocks it gets no attempt. */
  lemma RequestedForLater(t: Tables, r: ImageRequest, now: Time, at: Time, events: seq<Event>)
    requires Inv(t) && CreateImageStep(t, r, now).1 == Ok(|t.jobs|) && r.availableAt == Some(at)
    requires forall k :: 0 <= k < |events| && events[k].ClaimNext? ==> events[k].now < at
    ensures var u := Run(CreateImageStep(t, r, now).0, events);
            WaitsUntil(u, |t.jobs|, at) && Used(u.attempts, |t.jobs|) == 0
  {
    CreationIsWritten(t, r, now);
    CreateImageKeeps(t, r, now);
    hide CreateImageStep, Run, Guarantee;
    var s := CreateImageStep(t, r, now).0;
    JobFacts(s, |t.jobs|);
    hide Inv;
    NoClaimBefore(s, |t.jobs|, at, events);
  }

  lemma DemoIsWritten(t: Tables, now: Time)
    ensures CreateDemoStep(t, now)
            == (t.(jobs := t.jobs + [Job(DemoDelay(500), JobStatus.Queued, Normal, now, 0, 1, 3, None, None, None, None, None, None, 1, None, None, None)]),
                Ok(|t.jobs|))
  {
  }

  // ---------------------------------------------------------------- workers

  /** A registration and a heartbeat keep a worker alive for their time from now, and change nothing
      else; a stop takes effect now, the first one for good. */
  lemma WorkersAreWritten(t: Tables, r: Registration, w: nat, ttl: nat, now: Time)
    ensures RegisterStep(t, r, now).1.Ok? ==>
              && r.id !in t.workers && 1 <= r.limit <= 64 && 2 <= r.leaseSeconds <= 3600 && 2 <= r.heartbeatSeconds <= 3600
              && RegisterStep(t, r, now).0
                 == t.(workers := t.workers[r.id := WorkerRow(r.limit, r.leaseSeconds, now, now, now + r.heartbeatSeconds * SECOND, None)])
    ensures HeartbeatStep(t, w, ttl, now).1.Ok? ==>
              && w in t.workers && 2 <= ttl <= 3600
              && HeartbeatStep(t, w, ttl, now).0
                 == t.(workers := t.workers[w := t.workers[w].(lastHeartbeatAt := now, heartbeatExpiresAt := now + ttl * SECOND)])
    ensures StopStep(t, w, now).1.Ok? ==>
              && w in t.workers && StopStep(t, w, now).0 == t.(workers := StopStep(t, w, now).0.workers)
              && StopStep(t, w, now).0.workers
                 == t.workers[w := t.workers[w].(stoppedAt := if t.workers[w].stoppedAt.None? then Some(now) else t.workers[w].stoppedAt)]
  {
    assert w in t.workers ==> t.workers[w := t.workers[w]] == t.workers;
  }

  /** And when they are accepted. */
  lemma WhenWorkersAreAccepted(t: Tables, r: Registration, w: nat, ttl: nat, now: Time)
    ensures RegisterStep(t, r, now).1.Ok? <==>
              r.id !in t.workers && 1 <= r.limit <= 64 && 2 <= r.leaseSeconds <= 3600 && 2 <= r.heartbeatSeconds <= 3600
    ensures HeartbeatStep(t, w, ttl, now).1.Ok? <==> w in t.workers && t.workers[w].stoppedAt.None? && 2 <= ttl <= 3600
    ensures StopStep(t, w, now).1.Ok? <==> w in t.workers && (t.workers[w].stoppedAt.Some? || t.workers[w].startedAt <= now)
    ensures RegisterStep(t, r, now).1.Err? ==> RegisterStep(t, r, now).0 == t
    ensures HeartbeatStep(t, w, ttl, now).1.Err? ==> HeartbeatStep(t, w, ttl, now).0 == t
    ensures StopStep(t, w, now).1.Err? ==> StopStep(t, w, now).0 == t
  {
  }

  /** An event that is neither a heartbeat nor a stop of worker w. */
  predicate LeavesWorker(e: Event, w: nat) {
    !(e.Heartbeat? && e.worker == w) && !(e.Stop? && e.worker == w)
  }

  lemma StepLeavesWorker(t: Tables, e: Event, w: nat)
    requires w in t.workers && LeavesWorker(e, w)
    ensures w in Apply(t, e).workers && Apply(t, e).workers[w] == t.workers[w]
  {
    hide InsertInputs, InsertOutputs, CopyInputs, LoadInputs, NextCandidate, NextExpired, NextDue, MaxNumber, FindKey,
         LatestDueSlot, NextSlotAfter, Held, Overlaps, SlotRecorded;
  }

  lemma {:induction false} RunLeavesWorker(t: Tables, events: seq<Event>, w: nat)
    requires w in t.workers && forall k :: 0 <= k < |events| ==> LeavesWorker(events[k], w)
    ensures w in Run(t, events).workers && Run(t, events).workers[w] == t.workers[w]
    decreases |events|
  {
    hide Apply, LeavesWorker;
    if events != [] {
      StepLeavesWorker(t, events[0], w);
      RunLeavesWorker(Apply(t, events[0]), events[1..], w);
    }
  }

  /** A heartbeat is worth its time, exactly: in every run without another heartbeat or a stop of the
      worker, it can claim and renew at clocks before that time and at no others. */
  lemma HeartbeatIsWorthItsTime(t: Tables, w: nat, ttl: nat, at: Time, events: seq<Event>, now: Time, token: nat, c: Claim)
    requires HeartbeatStep(t, w, ttl, at).1.Ok? && c.worker == w
    requires forall k :: 0 <= k < |events| ==> LeavesWorker(events[k], w)
    ensures var u := Run(HeartbeatStep(t, w, ttl, at).0, events);
            && (now < at + ttl * SECOND ==> ClaimStep(u, w, now, token).1 != Err(StateConflict))
            && (now >= at + ttl * SECOND ==>
                  && ClaimStep(u, w, now, token).0 == u && !(ClaimStep(u, w, now, token).1.Ok? && ClaimStep(u, w, now, token).1.value.Some?)
                  && RenewStep(u, c, now) == (u, Err(ClaimLost)))
  {
    hide Run, NextCandidate, MaxNumber, LoadInputs, LeavesWorker;
    RunLeavesWorker(HeartbeatStep(t, w, ttl, at).0, events, w);
  }

  /** A stop that was accepted stops: in no later state does the worker get a claim, a renewal or a
      heartbeat. */
  lemma StopStops(t: Tables, w: nat, at: Time, events: seq<Event>, now: Time, token: nat, c: Claim, ttl: nat)
    requires StopStep(t, w, at).1.Ok? && c.worker == w
    ensures var u := Run(StopStep(t, w, at).0, events);
            && w in u.workers && u.workers[w].stoppedAt.Some?
            && (t.workers[w].stoppedAt.None? ==> u.workers[w].stoppedAt == Some(at))
            && ClaimStep(u, w, now, token).0 == u && !(ClaimStep(u, w, now, token).1.Ok? && ClaimStep(u, w, now, token).1.value.Some?)
            && RenewStep(u, c, now) == (u, Err(ClaimLost))
            && HeartbeatStep(u, w, ttl, now).0 == u && HeartbeatStep(u, w, ttl, now).1.Err?
  {
    hide Run, ClaimStep, RenewStep, HeartbeatStep;
    StoppedForGood(StopStep(t, w, at).0, w, events, now, token, c);
  }

  // ---------------------------------------------------------------- schedules

  /** A new schedule is enabled, has the settings and files of its request, and is due at its anchor. */
  lemma ScheduleIsWritten(t: Tables, r: ScheduleRequest)
    requires CreateScheduleStep(t, r).1.Ok?
    ensures CreateScheduleStep(t, r)
            == (t.(schedules := t.schedules + [Schedule(true, r.interval, r.anchor, r.anchor, r.priority, r.maxWidth, r.jpegQuality, r.owner, r.inputs)]),
                Ok(|t.schedules|))
    ensures 1 <= |r.inputs| <= 10 && 1 <= r.maxWidth <= 8192 && 1 <= r.jpegQuality <= 100 && 60 <= r.interval <= 31_536_000
  {
  }

  /** An edit replaces the settings and re-arms the schedule; owner and files stay. */
  lemma EditIsWritten(t: Tables, id: nat, edit: ScheduleEdit, caller: Option<nat>, now: Time)
    requires UpdateScheduleStep(t, id, edit, caller, now).1 == Ok(Some(id))
    ensures var u := UpdateScheduleStep(t, id, edit, caller, now).0;
            && id < |t.schedules| && NextSlotAfter(edit.anchor, edit.interval, now).Ok?
            && u == t.(schedules := t.schedules[id := Schedule(
                         edit.enabled, edit.interval, edit.anchor, NextSlotAfter(edit.anchor, edit.interval, now).value,
                         edit.priority, edit.maxWidth, edit.jpegQuality, t.schedules[id].owner, t.schedules[id].inputs)])
            && 1 <= edit.maxWidth <= 8192 && 1 <= edit.jpegQuality <= 100 && 60 <= edit.interval <= 31_536_000
  {
    hide NextSlotAfter;
  }

  /** When schedules are created and edited; an edit can also fail because its next slot is past the last
      date. */
  lemma WhenSchedulesAreAccepted(t: Tables, r: ScheduleRequest, id: nat, edit: ScheduleEdit, caller: Option<nat>, now: Time)
    ensures CreateScheduleStep(t, r).1.Ok? <==>
              60 <= r.interval <= 31_536_000 && 1 <= |r.inputs| <= 10 && 1 <= r.maxWidth <= 8192 && 1 <= r.jpegQuality <= 100
    ensures UpdateScheduleStep(t, id, edit, caller, now).1 == Ok(Some(id)) <==>
              && 60 <= edit.interval <= 31_536_000 && 1 <= edit.maxWidth <= 8192 && 1 <= edit.jpegQuality <= 100
              && id < |t.schedules| && Sees(caller, t.schedules[id].owner) && NextSlotAfter(edit.anchor, edit.interval, now).Ok?
    ensures CreateScheduleStep(t, r).1.Err? ==> CreateScheduleStep(t, r).0 == t
    ensures UpdateScheduleStep(t, id, edit, caller, now).1 != Ok(Some(id)) ==> UpdateScheduleStep(t, id, edit, caller, now).0 == t
  {
    hide NextSlotAfter;
  }

  // ---------------------------------------------------------------- every stamp is a clock

  function ClockOf(e: Event): Time
    requires !e.CreateSchedule?
  {
    e.now
  }

  /** Whatever stamp of a job has changed was empty before and is the given clock now. */
  predicate JobStamps(before: Job, after: Job, now: Time) {
    && (after.startedAt != before.startedAt ==> before.startedAt.None? && after.startedAt == Some(now))
    && (after.finishedAt != before.finishedAt ==> before.finishedAt.None? && after.finishedAt == Some(now))
    && (after.cancelRequestedAt != before.cancelRequestedAt ==> before.cancelRequestedAt.None? && after.cancelRequestedAt == Some(now))
    && (after.outputsExpiredAt != before.outputsExpiredAt ==> before.outputsExpiredAt.None? && after.outputsExpiredAt == Some(now))
  }

  predicate AttemptStamps(before: Attempt, after: Attempt, now: Time) {
    && after.startedAt == before.startedAt
    && (after.finishedAt != before.finishedAt ==> before.finishedAt.None? && after.finishedAt == Some(now))
  }

  predicate WorkerStamps(before: WorkerRow, after: WorkerRow, now: Time) {
    && after.startedAt == before.startedAt
    && (after.lastHeartbeatAt != before.lastHeartbeatAt ==> after.lastHeartbeatAt == now)
    && (after.stoppedAt != before.stoppedAt ==> before.stoppedAt.None? && after.stoppedAt == Some(now))
  }

  /** A job that has just been added has no stamp yet. */
  predicate Unstamped(job: Job) {
    job.startedAt.None? && job.finishedAt.None? && job.cancelRequestedAt.None? && job.outputsExpiredAt.None?
  }

  ghost predicate StampedBy(t: Tables, u: Tables, now: Time) {
    && |t.jobs| <= |u.jobs| && |t.attempts| <= |u.attempts|
    && (forall j: nat :: j < |t.jobs| ==> JobStamps(t.jobs[j], u.jobs[j], now))
    && (forall j: nat :: |t.jobs| <= j < |u.jobs| ==> Unstamped(u.jobs[j]))
    && (forall a: nat :: a < |t.attempts| ==> AttemptStamps(t.attempts[a], u.attempts[a], now))
    && (forall a: nat :: |t.attempts| <= a < |u.attempts| ==> u.attempts[a].startedAt == now && u.attempts[a].finishedAt.None?)
    && (forall w :: w in t.workers ==> w in u.workers && WorkerStamps(t.workers[w], u.workers[w], now))
    && (forall w :: w in u.workers && w !in t.workers ==>
          u.workers[w].startedAt == now && u.workers[w].lastHeartbeatAt == now && u.workers[w].stoppedAt.None?)
  }

  lemma ReportStamps(t: Tables, e: Event)
    requires Inv(t) && (e.Renew? || e.RecordEncoding? || e.UpdateProgress?)
    ensures StampedBy(t, Perform(t, e), e.now)
  {
    hide Inv;
  }

  /** Rewriting an open job and its running attempt, each with the clock as its only new stamp. */
  lemma PairStamps(t: Tables, u: Tables, job: nat, attempt: nat, now: Time)
    requires |u.jobs| == |t.jobs| && |u.attempts| == |t.attempts| && u.workers == t.workers && job < |t.jobs| && attempt < |t.attempts|
    requires forall j: nat :: j < |t.jobs| && j != job ==> u.jobs[j] == t.jobs[j]
    requires forall a: nat :: a < |t.attempts| && a != attempt ==> u.attempts[a] == t.attempts[a]
    requires JobStamps(t.jobs[job], u.jobs[job], now) && AttemptStamps(t.attempts[attempt], u.attempts[attempt], now)
    ensures StampedBy(t, u, now)
  {
  }

  lemma Open(t: Tables, c: Claim, now: Time)
    requires Inv(t) && c in t.claims && Held(t, c, now)
    ensures t.attempts[c.attempt].finishedAt.None? && c.job < |t.jobs| && t.jobs[c.job].finishedAt.None?
  {
    GenuineClaim(t, c);
    RunningAttempt(t, c.attempt);
    JobFacts(t, c.job);
  }

  lemma CompletionStamps(t: Tables, c: Claim, outputs: seq<PendingOutput>, now: Time)
    requires Inv(t) && c in t.claims
    ensures StampedBy(t, CompleteDemoStep(t, c, now).0, now) && StampedBy(t, CompleteImageStep(t, c, outputs, now).0, now)
  {
    hide Inv, InsertOutputs, StampedBy;
    NothingStamped(t, now);
    if Held(t, c, now) {
      Open(t, c, now);
      CompletionIsWritten(t, c, outputs, now);
      if CompleteDemoStep(t, c, now).1.Ok? {
        PairStamps(t, CompleteDemoStep(t, c, now).0, c.job, c.attempt, now);
      }
      if CompleteImageStep(t, c, outputs, now).1.Ok? {
        PairStamps(t, CompleteImageStep(t, c, outputs, now).0, c.job, c.attempt, now);
      }
    }
  }

  lemma FailureStamps(t: Tables, c: Claim, kind: FailureKind, message: string, now: Time)
    requires Inv(t) && c in t.claims
    ensures StampedBy(t, FailureStep(t, c, kind, message, now).0, now) && StampedBy(t, FinishCancelledStep(t, c, now).0, now)
  {
    hide Inv, RetryBackoffSeconds, StampedBy;
    NothingStamped(t, now);
    if Held(t, c, now) {
      Open(t, c, now);
      if FailureStep(t, c, kind, message, now).1.Ok? {
        FailureIsWritten(t, c, kind, message, now);
        PairStamps(t, FailureStep(t, c, kind, message, now).0, c.job, c.attempt, now);
      }
      if FinishCancelledStep(t, c, now).1.Ok? {
        CancellationIsWritten(t, c, now);
        PairStamps(t, FinishCancelledStep(t, c, now).0, c.job, c.attempt, now);
      }
    }
  }

  lemma EndingStamps(t: Tables, e: Event)
    requires Inv(t) && Possible(t, e) && (e.CompleteDemo? || e.CompleteImage? || e.RecordFailure? || e.FinishCancelled?)
    ensures StampedBy(t, Perform(t, e), e.now)
  {
    hide Inv, StampedBy, CompleteDemoStep, CompleteImageStep, FailureStep, FinishCancelledStep;
    match e
    case CompleteDemo(c, now) => CompletionStamps(t, c, [], now);
    case CompleteImage(c, outputs, now) => CompletionStamps(t, c, outputs, now);
    case RecordFailure(c, kind, message, now) => FailureStamps(t, c, kind, message, now);
    case FinishCancelled(c, now) => FailureStamps(t, c, Transient, "", now);
  }

  lemma ClaimStamps(t: Tables, worker: nat, now: Time, token: nat)
    requires Inv(t)
    ensures StampedBy(t, ClaimStep(t, worker, now, token).0, now)
  {
    hide Inv, LoadInputs, MaxNumber, NextCandidate;
    var found := NextCandidate(t.jobs, |t.jobs|, now);
    if found.Some? {
      JobFacts(t, found.value);
    }
  }

  lemma ReclaimStamps(t: Tables, now: Time)
    requires Inv(t)
    ensures StampedBy(t, ReclaimStep(t, now).0, now)
  {
    hide Inv, NextExpired, RetryBackoffSeconds;
    var found := NextExpired(t, |t.attempts|, now);
    if found.Some? {
      RunningAttempt(t, found.value);
    }
  }

  lemma RequestStamps(t: Tables, job: nat, caller: Option<nat>, now: Time)
    requires Inv(t)
    ensures StampedBy(t, RequestCancelStep(t, job, caller, now).0, now)
  {
    hide Inv;
    if job < |t.jobs| {
      JobFacts(t, job);
    }
  }

  lemma QueueStamps(t: Tables, e: Event)
    requires Inv(t) && OnQueue(e)
    ensures StampedBy(t, Perform(t, e), e.now)
  {
    hide Inv, ClaimStep, ReclaimStep, RequestCancelStep;
    match e
    case ClaimNext(w, now, token) => ClaimStamps(t, w, now, token);
    case Reclaim(now) => ReclaimStamps(t, now);
    case RequestCancel(j, caller, now) => RequestStamps(t, j, caller, now);
    case Expire(_, _) =>
  }

  lemma CreationStamps(t: Tables, e: Event)
    requires e.CreateDemo? || e.CreateImage? || e.ManualRetry? || e.TickSchedules?
    ensures StampedBy(t, Perform(t, e), e.now)
  {
    hide InsertInputs, CopyInputs, LatestDueSlot, NextDue, FindKey, Overlaps, SlotRecorded;
  }

  lemma UpkeepStamps(t: Tables, e: Event)
    requires e.Register? || e.Heartbeat? || e.Stop? || e.UpdateSchedule?
    ensures StampedBy(t, Perform(t, e), e.now)
  {
    hide NextSlotAfter;
  }

  lemma NothingStamped(t: Tables, now: Time)
    ensures StampedBy(t, t, now)
  {
  }

  /** Every stamp that a step sets was empty before, or is a heartbeat, and is the clock of that step: the
      start, the end, the request to cancel and the expiry of a job, the start and the end of an attempt,
      and the start, the heartbeat and the stop of a worker. */
  lemma EveryStampIsTheClock(t: Tables, e: Event)
    requires Inv(t) && !e.CreateSchedule?
    ensures StampedBy(t, Apply(t, e), ClockOf(e))
  {
    hide Inv, Perform, StampedBy;
    if !Possible(t, e) {
      NothingStamped(t, e.now);
    } else if e.Renew? || e.RecordEncoding? || e.UpdateProgress? {
      ReportStamps(t, e);
    } else if UsesClaim(e) {
      EndingStamps(t, e);
    } else if OnQueue(e) {
      QueueStamps(t, e);
    } else if e.Register? || e.Heartbeat? || e.Stop? || e.UpdateSchedule? {
      UpkeepStamps(t, e);
    } else {
      CreationStamps(t, e);
    }
  }

  // ---------------------------------------------------------------- when a job ended

  lemma NewJobsAreOpen(t: Tables, e: Event, j: nat)
    requires Inv(t) && |t.jobs| <= j < |Apply(t, e).jobs|
    ensures !Terminal(Apply(t, e).jobs[j].status)
  {
    hide Inv, Apply, Guarantee;
    StepKeeps(t, e);
    JobFacts(Apply(t, e), j);
    if e.CreateSchedule? {
      hide Inv;
      OnlyASchedule(t, e);
    } else {
      EveryStampIsTheClock(t, e);
    }
  }

  lemma OnlyASchedule(t: Tables, e: Event)
    requires e.CreateSchedule?
    ensures Apply(t, e).jobs == t.jobs && Apply(t, e).attempts == t.attempts
  {
  }

  /** In every run a job that has ended did so at one event, and carries the clock of that event as the
      time of its end, for good. */
  lemma {:induction false} EndedAt(t: Tables, events: seq<Event>, j: nat) returns (k: nat)
    requires Inv(t) && j < |Run(t, events).jobs| && Terminal(Run(t, events).jobs[j].status)
    requires j < |t.jobs| ==> !Terminal(t.jobs[j].status)
    ensures k < |events| && !events[k].CreateSchedule?
    ensures var before, after := Run(t, events[..k]), Run(t, events[..k + 1]);
            && j < |before.jobs| && !Terminal(before.jobs[j].status)
            && j < |after.jobs| && Terminal(after.jobs[j].status)
            && Run(t, events).jobs[j].finishedAt == after.jobs[j].finishedAt == Some(ClockOf(events[k]))
    decreases |events|
  {
    hide Inv, Apply, Guarantee, Run;
    if events == [] {
      RunNothing(t);
      assert false;
    }
    var e, u := events[0], Apply(t, events[0]);
    StepKeeps(t, e);
    RunStep(t, events);
    if j < |u.jobs| && Terminal(u.jobs[j].status) {
      k := 0;
      EndsHere(t, e, j);
      RunNothing(t);
      assert events[..0] == [] && events[..1] == [e];
      RunOne(t, e);
      TerminalIsFinal(u, j, events[1..]);
    } else {
      var l := EndedAt(u, events[1..], j);
      k := l + 1;
      RunStep(t, events[..k]);
      RunStep(t, events[..k + 1]);
      assert events[..k][1..] == events[1..][..l] && events[..k + 1][1..] == events[1..][..l + 1];
    }
  }

  lemma RunNothing(t: Tables)
    ensures Run(t, []) == t
  {
  }

  lemma RunStep(t: Tables, events: seq<Event>)
    requires events != []
    ensures Run(t, events) == Run(Apply(t, events[0]), events[1..])
  {
  }

  lemma RunOne(t: Tables, e: Event)
    ensures Run(t, [e]) == Apply(t, e)
  {
    hide Apply;
    assert [e][1..] == [];
    assert Run(Apply(t, e), []) == Apply(t, e);
  }

  lemma EndsHere(t: Tables, e: Event, j: nat)
    requires Inv(t) && j < |Apply(t, e).jobs| && Terminal(Apply(t, e).jobs[j].status)
    requires j < |t.jobs| ==> !Terminal(t.jobs[j].status)
    ensures j < |t.jobs| && !e.CreateSchedule? && Apply(t, e).jobs[j].finishedAt == Some(ClockOf(e))
  {
    hide Inv, Apply, Guarantee;
    StepKeeps(t, e);
    if j >= |t.jobs| {
      NewJobsAreOpen(t, e, j);
    } else if e.CreateSchedule? {
      OnlyASchedule(t, e);
    } else {
      EveryStampIsTheClock(t, e);
      JobFacts(t, j);
      JobFacts(Apply(t, e), j);
      assert JobStamps(t.jobs[j], Apply(t, e).jobs[j], e.now);
    }
  }

  // ---------------------------------------------------------------- published outputs are kept

  /** Retention that leaves a job finished at the given time alone. */
  predicate LeavesOutputs(e: Event, at: Time) {
    e.Expire? ==> e.now < at + e.retentionSeconds * SECOND
  }

  /** The job is published and ended at the given time. */
  predicate PublishedAt(t: Tables, j: nat, at: Time) {
    j < |t.jobs| && Published(t.jobs[j]) && t.jobs[j].finishedAt == Some(at)
  }

  ghost predicate OutputsStay(t: Tables, u: Tables, j: nat) {
    forall i: nat :: Slot(j, Output, i) in t.artifacts ==>
      Slot(j, Output, i) in u.artifacts && u.artifacts[Slot(j, Output, i)] == t.artifacts[Slot(j, Output, i)]
  }

  lemma StepKeepsPublished(t: Tables, e: Event, j: nat, at: Time)
    requires Inv(t) && PublishedAt(t, j, at) && LeavesOutputs(e, at)
    ensures PublishedAt(Apply(t, e), j, at)
  {
    hide Inv, Guarantee, Apply;
    StepKeeps(t, e);
    JobLater(t, Apply(t, e), j);
    OnlyRetentionExpires(t, e, j);
  }

  lemma OnlyRetentionExpires(t: Tables, e: Event, j: nat)
    requires j < |t.jobs| && t.jobs[j].outputsExpiredAt.None?
    ensures j < |Apply(t, e).jobs|
    ensures Apply(t, e).jobs[j].outputsExpiredAt.Some? ==> e.Expire? && PastRetention(t.jobs[j], e.retentionSeconds, e.now)
  {
    hide InsertInputs, InsertOutputs, CopyInputs, LoadInputs, NextCandidate, NextExpired, NextDue, MaxNumber, FindKey,
         LatestDueSlot, NextSlotAfter, Overlaps, SlotRecorded, RetryBackoffSeconds;
  }

  lemma StepKeepsOutputs(t: Tables, e: Event, j: nat)
    requires Inv(t) && Inv(Apply(t, e)) && j < |t.jobs| <= |Apply(t, e).jobs| && t.jobs[j].total == Apply(t, e).jobs[j].total
    requires Published(t.jobs[j]) && Published(Apply(t, e).jobs[j])
    ensures OutputsStay(t, Apply(t, e), j)
  {
    hide Inv, Apply;
    ManifestIsBijection(t, j);
    ManifestIsBijection(Apply(t, e), j);
    if e.CompleteImage? {
      PublishingKeepsRows(t, e);
    } else {
      Maintenance.OutputRowsStay(t, e);
    }
  }

  lemma PublishingKeepsRows(t: Tables, e: Event)
    requires e.CompleteImage?
    ensures forall s :: s in t.artifacts ==> s in Apply(t, e).artifacts && Apply(t, e).artifacts[s] == t.artifacts[s]
  {
    var (u, r) := CompleteImageStep(t, e.claim, e.outputs, e.now);
    if r.Ok? {
      InsertOutputsEffect(t.artifacts, t.nextArtifact, e.claim.job, e.claim.attempt, e.outputs, u.artifacts);
    }
    hide InsertOutputs;
  }

  lemma JobsRemain(t: Tables, u: Tables)
    requires Guarantee(t, u)
    ensures |t.jobs| <= |u.jobs|
  {
  }

  /** What was published stays published, row by row, in every run in which retention looks at it before
      its time is over. */
  lemma {:induction false} PublishedIsKept(t: Tables, j: nat, at: Time, events: seq<Event>)
    requires Inv(t) && PublishedAt(t, j, at)
    requires forall k :: 0 <= k < |events| ==> LeavesOutputs(events[k], at)
    ensures var u := Run(t, events);
            PublishedAt(u, j, at) && u.jobs[j].total == t.jobs[j].total && OutputsStay(t, u, j)
    decreases |events|
  {
    hide Inv, Guarantee, Apply, LeavesOutputs, Published;
    if events != [] {
      var u := Apply(t, events[0]);
      StepKeeps(t, events[0]);
      JobsRemain(t, u);
      JobLater(t, u, j);
      StepKeepsPublished(t, events[0], j, at);
      StepKeepsOutputs(t, events[0], j);
      PublishedIsKept(u, j, at, events[1..]);
    }
  }

  /** A manifest is kept for the whole retention period from its completion: after an accepted
      completion every item has its output row, under the key that was published, in every run in which
      retention comes before the period is over. */
  lemma CompletionIsKept(t: Tables, c: Claim, outputs: seq<PendingOutput>, at: Time, events: seq<Event>, k: nat)
    requires Inv(t) && c in t.claims && CompleteImageStep(t, c, outputs, at).1.Ok? && k < |outputs|
    requires forall l :: 0 <= l < |events| ==> LeavesOutputs(events[l], at)
    ensures var u := Run(CompleteImageStep(t, c, outputs, at).0, events);
            var s := Slot(c.job, Output, outputs[k].item);
            && PublishedAt(u, c.job, at) && s in u.artifacts && u.artifacts[s].key == outputs[k].key
            && u.artifacts[s].attempt == Some(c.attempt) && u.artifacts[s].source == Some(outputs[k].source)
  {
    hide Inv, Run, Guarantee;
    var s := CompleteImageStep(t, c, outputs, at).0;
    CompleteImageKeeps(t, c, outputs, at);
    CompletionIsWritten(t, c, outputs, at);
    GenuineClaim(t, c);
    NotExpiredYet(t, c.job);
    InsertOutputsEffect(t.artifacts, t.nextArtifact, c.job, c.attempt, outputs, s.artifacts);
    assert OutputInserted(t.artifacts, t.nextArtifact, c.job, c.attempt, outputs, s.artifacts, k);
    hide CompleteImageStep;
    PublishedIsKept(s, c.job, at, events);
  }

  lemma NotExpiredYet(t: Tables, j: nat)
    requires Inv(t) && j < |t.jobs| && !Terminal(t.jobs[j].status)
    ensures t.jobs[j].outputsExpiredAt.None?
  {
    JobFacts(t, j);
  }

  // ---------------------------------------------------------------- encoding time

  /** What an event adds to the encoding time of attempt a. */
  function Added(t: Tables, e: Event, a: nat): nat {
    if e.RecordEncoding? && e.claim.attempt == a && Possible(t, e) && EncodingStep(t, e.claim, e.ms, e.now).1.Ok? then e.ms else 0
  }

  function AddedByRun(t: Tables, events: seq<Event>, a: nat): nat
    decreases |events|
  {
    if events == [] then 0 else Added(t, events[0], a) + AddedByRun(Apply(t, events[0]), events[1..], a)
  }

  lemma CallAdds(t: Tables, e: Event, a: nat)
    requires UsesClaim(e) && Possible(t, e) && a < |t.attempts|
    ensures a < |Perform(t, e).attempts| && Perform(t, e).attempts[a].encodingMs == t.attempts[a].encodingMs + Added(t, e, a)
  {
    hide InsertOutputs, RetryBackoffSeconds;
  }

  lemma OthersAddNothing(t: Tables, e: Event, a: nat)
    requires !UsesClaim(e) && a < |t.attempts|
    ensures a < |Perform(t, e).attempts| && Perform(t, e).attempts[a].encodingMs == t.attempts[a].encodingMs
  {
    hide InsertInputs, CopyInputs, LoadInputs, NextCandidate, NextExpired, NextDue, MaxNumber, FindKey,
         LatestDueSlot, NextSlotAfter, Overlaps, SlotRecorded, RetryBackoffSeconds, ClaimedRow;
  }

  lemma StepAdds(t: Tables, e: Event, a: nat)
    requires a < |t.attempts|
    ensures a < |Apply(t, e).attempts| && Apply(t, e).attempts[a].encodingMs == t.attempts[a].encodingMs + Added(t, e, a)
  {
    hide Perform;
    if UsesClaim(e) {
      if Possible(t, e) {
        CallAdds(t, e, a);
      }
    } else {
      OthersAddNothing(t, e, a);
    }
  }

  /** Over any run the encoding time of an attempt grows by exactly the accepted reports for it. */
  lemma {:induction false} EncodingTimeAddsUp(t: Tables, events: seq<Event>, a: nat)
    requires a < |t.attempts|
    ensures a < |Run(t, events).attempts|
    ensures Run(t, events).attempts[a].encodingMs == t.attempts[a].encodingMs + AddedByRun(t, events, a)
    decreases |events|
  {
    hide Apply, Added;
    if events != [] {
      StepAdds(t, events[0], a);
      EncodingTimeAddsUp(Apply(t, events[0]), events[1..], a);
    }
  }
}
