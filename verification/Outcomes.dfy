/** What the answer of one call means for the calls that come after it: a lease protects its attempt,
    a failure decides when and with which number the job runs again, a stopped worker stays stopped,
    and a retry or an occurrence repeats its source.
  */
module Outcomes {
  import opened Rows
  import opened Slots
  import opened Steps
  import opened AttemptLedger
  import opened Invariants
  import opened Preservation
  import opened Histories

  // ---------------------------------------------------------------- leases

  /** An event that can neither use a claim of attempt a nor reclaim it before its lease runs out. */
  predicate Respects(e: Event, a: nat, lease: Time) {
    (UsesClaim(e) ==> e.claim.attempt != a) && (e.Reclaim? ==> e.now < lease)
  }

  lemma StepRespectsLease(t: Tables, e: Event, a: nat)
    requires Inv(t) && a < |t.attempts| && t.attempts[a].status.Running?
    requires Respects(e, a, t.attempts[a].leaseExpiresAt)
    ensures a < |Apply(t, e).attempts| && Apply(t, e).attempts[a] == t.attempts[a]
  {
    hide Inv, InsertInputs, InsertOutputs, CopyInputs, LoadInputs, NextCandidate, NextExpired, NextDue, MaxNumber, FindKey,
         LatestDueSlot, NextSlotAfter;
  }

  /** Whatever others do, an attempt keeps running, and its claim is held, until its lease runs out. */
  lemma {:induction false} LeaseProtects(t: Tables, c: Claim, events: seq<Event>, now: Time)
    requires Inv(t) && c in t.claims && t.attempts[c.attempt].status.Running?
    requires forall k :: 0 <= k < |events| ==> Respects(events[k], c.attempt, t.attempts[c.attempt].leaseExpiresAt)
    requires now < t.attempts[c.attempt].leaseExpiresAt
    ensures Held(Run(t, events), c, now)
    decreases |events|
  {
    GenuineClaim(t, c);
    if events != [] {
      var u := Apply(t, events[0]);
      StepKeeps(t, events[0]);
      StepRespectsLease(t, events[0], c.attempt);
      assert c in u.claims;
      hide Inv, Guarantee, Apply;
      LeaseProtects(u, c, events[1..], now);
    }
  }

  /** A claim protects its attempt for the lease time of the worker, and so does each renewal. */
  lemma GrantProtects(t: Tables, c: Claim, worker: nat, at: Time, token: nat, events: seq<Event>, now: Time)
    requires Inv(t) && worker in t.workers && now < at + t.workers[worker].leaseSeconds * SECOND
    requires ClaimStep(t, worker, at, token).1 == Ok(Some(c))
             || (c in t.claims && c.worker == worker && RenewStep(t, c, at).1.Ok?)
    requires forall k :: 0 <= k < |events| ==> Respects(events[k], c.attempt, at + t.workers[worker].leaseSeconds * SECOND)
    ensures ClaimStep(t, worker, at, token).1 == Ok(Some(c)) ==> Held(Run(ClaimStep(t, worker, at, token).0, events), c, now)
    ensures c in t.claims && RenewStep(t, c, at).1.Ok? && c.worker == worker ==> Held(Run(RenewStep(t, c, at).0, events), c, now)
  {
    hide Inv, Run, NextCandidate, MaxNumber, LoadInputs;
    if ClaimStep(t, worker, at, token).1 == Ok(Some(c)) {
      ClaimKeeps(t, worker, at, token);
      LeaseProtects(ClaimStep(t, worker, at, token).0, c, events, now);
    }
    if c in t.claims && RenewStep(t, c, at).1.Ok? && c.worker == worker {
      RenewKeeps(t, c, at);
      LeaseProtects(RenewStep(t, c, at).0, c, events, now);
    }
  }

  // ---------------------------------------------------------------- after a failure

  /** The attempt fails with the kind it was reported with.  A transient failure with attempts left
      sends the job back into the queue after the backoff, and its next claim carries the next number;
      any other failure ends the job. */
  lemma AfterFailure(t: Tables, c: Claim, kind: FailureKind, message: string, now: Time, worker: nat, later: Time, token: nat)
    requires Inv(t) && c in t.claims && FailureStep(t, c, kind, message, now).1.Ok?
    ensures var (u, r) := FailureStep(t, c, kind, message, now);
            && c.job < |u.jobs| && u.jobs[c.job].failure == Some(message)
            && c.attempt < |t.attempts| == |u.attempts|
            && u.attempts[c.attempt] == t.attempts[c.attempt].(
                 status := AttemptStatus.Failed, errorKind := Some(FailedWith(kind)), finishedAt := Some(now))
            && match r.value
               case RetryScheduled(at) =>
                 && kind.Transient? && c.number < c.maxAttempts && at == now + RetryBackoffSeconds(c.number) * SECOND
                 && (Eligible(u.jobs[c.job], later) <==> at <= later)
                 && var claimed := ClaimStep(u, worker, later, token).1;
                    (claimed.Ok? && claimed.value.Some? && claimed.value.value.job == c.job ==> claimed.value.value.number == c.number + 1)
               case JobFailed => (kind.Permanent? || c.number == c.maxAttempts) && u.jobs[c.job].status.Failed?
               case JobCancelled => false
  {
    GenuineClaim(t, c);
    RunningAttempt(t, c.attempt);
    JobFacts(t, c.job);
    FailureKeeps(t, c, kind, message, now);
    var u := FailureStep(t, c, kind, message, now).0;
    NextNumber(u, c.job);
    CountSame(t.attempts, u.attempts, |t.attempts|, c.job);
    hide Inv, Guarantee, NextCandidate, LoadInputs, RetryBackoffSeconds;
  }

  /** Reclaiming treats a lost lease like a transient failure, except that a requested cancellation
      is carried out instead. */
  lemma AfterReclaim(t: Tables, now: Time, later: Time)
    requires Inv(t) && ReclaimStep(t, now).1.Ok? && ReclaimStep(t, now).1.value.Some?
    ensures var (u, r) := ReclaimStep(t, now);
            var reclaimed := r.value.value;
            && reclaimed.attempt < |t.attempts| && reclaimed.job == t.attempts[reclaimed.attempt].job < |t.jobs| == |u.jobs|
            && t.attempts[reclaimed.attempt].status.Running? && t.attempts[reclaimed.attempt].leaseExpiresAt <= now
            && var n := t.attempts[reclaimed.attempt].number;
               var job := u.jobs[reclaimed.job];
               match reclaimed.disposition
               case JobCancelled => t.jobs[reclaimed.job].status.CancelRequested? && job.status.Cancelled?
               case RetryScheduled(at) =>
                 && t.jobs[reclaimed.job].status.Running? && n < job.maxAttempts
                 && at == now + RetryBackoffSeconds(n) * SECOND && (Eligible(job, later) <==> at <= later)
                 && job.failure == Some(LEASE_EXPIRED_MESSAGE)
               case JobFailed => t.jobs[reclaimed.job].status.Running? && n == job.maxAttempts && job.status.Failed?
  {
    var a := NextExpired(t, |t.attempts|, now).value;
    RunningAttempt(t, a);
    hide Inv, NextExpired, RetryBackoffSeconds;
  }

  // ---------------------------------------------------------------- waiting

  /** A job waits until a given time, or was cancelled while it waited. */
  predicate WaitsUntil(t: Tables, j: nat, at: Time) {
    && j < |t.jobs|
    && (((t.jobs[j].status.Queued? || t.jobs[j].status.RetryWaiting?) && t.jobs[j].availableAt == at) || t.jobs[j].status.Cancelled?)
  }

  /** The calls that go by the claim of a running attempt do not concern a waiting job. */
  lemma RunningElsewhere(t: Tables, e: Event, j: nat, at: Time)
    requires Inv(t) && WaitsUntil(t, j, at)
    ensures UsesClaim(e) && Possible(t, e) && Held(t, e.claim, e.now) ==> e.claim.job != j
    ensures forall a: nat :: a < |t.attempts| && t.attempts[a].status.Running? ==> t.attempts[a].job != j
  {
    forall a: nat | a < |t.attempts| && t.attempts[a].status.Running?
      ensures t.attempts[a].job != j
    {
      RunningAttempt(t, a);
    }
  }

  lemma CallLeavesRow(t: Tables, e: Event, j: nat)
    requires UsesClaim(e) && j < |t.jobs| && (Held(t, e.claim, e.now) ==> e.claim.job != j)
    ensures j < |Perform(t, e).jobs| && Perform(t, e).jobs[j] == t.jobs[j]
  {
    hide InsertOutputs, RetryBackoffSeconds;
  }

  predicate OnQueue(e: Event) {
    e.ClaimNext? || e.Reclaim? || e.RequestCancel? || e.Expire?
  }

  lemma AppendsLeaveRow(t: Tables, e: Event, j: nat)
    requires !UsesClaim(e) && !OnQueue(e) && j < |t.jobs|
    ensures j < |Perform(t, e).jobs| && Perform(t, e).jobs[j] == t.jobs[j]
  {
    hide InsertInputs, CopyInputs, LatestDueSlot, NextSlotAfter, NextDue, FindKey, Overlaps, SlotRecorded;
  }

  lemma QueueWaits(t: Tables, e: Event, j: nat, at: Time)
    requires OnQueue(e) && WaitsUntil(t, j, at) && (e.ClaimNext? ==> e.now < at)
    requires forall a: nat :: a < |t.attempts| && t.attempts[a].status.Running? ==> t.attempts[a].job != j
    ensures WaitsUntil(Perform(t, e), j, at)
  {
    hide LoadInputs, MaxNumber, NextCandidate, NextExpired, RetryBackoffSeconds;
  }

  lemma RowWaits(t: Tables, e: Event, j: nat, at: Time)
    requires Inv(t) && WaitsUntil(t, j, at) && (e.ClaimNext? ==> e.now < at)
    ensures WaitsUntil(Apply(t, e), j, at)
  {
    hide Inv, Perform, Held;
    RunningElsewhere(t, e, j, at);
    if !Possible(t, e) {
      return;
    }
    if UsesClaim(e) {
      CallLeavesRow(t, e, j);
    } else if OnQueue(e) {
      QueueWaits(t, e, j, at);
    } else {
      AppendsLeaveRow(t, e, j);
    }
  }

  lemma AttemptsWait(t: Tables, e: Event, j: nat, at: Time)
    requires Inv(t) && WaitsUntil(t, j, at) && (e.ClaimNext? ==> e.now < at)
    ensures var u := Apply(t, e);
            && |t.attempts| <= |u.attempts|
            && (forall a: nat :: a < |t.attempts| ==> u.attempts[a].job == t.attempts[a].job)
            && (forall a: nat :: |t.attempts| <= a < |u.attempts| ==> u.attempts[a].job != j)
  {
    hide Inv, Apply, WaitsUntil;
    StepKeeps(t, e);
    AttemptsOnlyByClaims(t, e);
    if e.ClaimNext? {
      ClaimedElsewhere(t, e, j, at);
    }
    var u := Apply(t, e);
    assert |t.attempts| <= |u.attempts| && forall a: nat :: a < |t.attempts| ==> AttemptEvolves(t.attempts[a], u.attempts[a]);
  }

  lemma AttemptsOnlyByClaims(t: Tables, e: Event)
    ensures !e.ClaimNext? ==> |Apply(t, e).attempts| == |t.attempts|
  {
    hide InsertInputs, InsertOutputs, CopyInputs, LoadInputs, MaxNumber, FindKey, LatestDueSlot, NextSlotAfter, RetryBackoffSeconds,
         NextCandidate, NextExpired, NextDue, Overlaps, SlotRecorded;
  }

  lemma ClaimedElsewhere(t: Tables, e: Event, j: nat, at: Time)
    requires WaitsUntil(t, j, at) && e.ClaimNext? && e.now < at
    ensures forall a: nat :: |t.attempts| <= a < |Apply(t, e).attempts| ==> Apply(t, e).attempts[a].job != j
  {
    hide LoadInputs, MaxNumber, NextCandidate;
  }

  lemma StepWaits(t: Tables, e: Event, j: nat, at: Time)
    requires Inv(t) && WaitsUntil(t, j, at) && (e.ClaimNext? ==> e.now < at)
    ensures WaitsUntil(Apply(t, e), j, at) && Used(Apply(t, e).attempts, j) == Used(t.attempts, j)
  {
    hide Inv, Apply, WaitsUntil;
    RowWaits(t, e, j, at);
    AttemptsWait(t, e, j, at);
    UsedSame(t.attempts, Apply(t, e).attempts, |Apply(t, e).attempts|, j);
  }

  lemma {:induction false} UsedSame(before: seq<Attempt>, after: seq<Attempt>, n: nat, j: nat)
    requires |before| <= n <= |after|
    requires forall a: nat :: a < |before| ==> after[a].job == before[a].job
    requires forall a: nat :: |before| <= a < |after| ==> after[a].job != j
    ensures Count(after, n, j) == Used(before, j)
  {
    if n == |before| {
      CountSame(after, before, n, j);
    } else {
      UsedSame(before, after, n - 1, j);
    }
  }

  /** No job is claimed before it is available: whatever happens to the queue, as long as claims read
      earlier clocks the waiting job gets no attempt and can only be cancelled. */
  lemma {:induction false} NoClaimBefore(t: Tables, j: nat, at: Time, events: seq<Event>)
    requires Inv(t) && WaitsUntil(t, j, at)
    requires forall k :: 0 <= k < |events| && events[k].ClaimNext? ==> events[k].now < at
    ensures WaitsUntil(Run(t, events), j, at) && Used(Run(t, events).attempts, j) == Used(t.attempts, j)
    decreases |events|
  {
    hide Inv, Guarantee, Apply, WaitsUntil;
    if events != [] {
      StepKeeps(t, events[0]);
      StepWaits(t, events[0], j, at);
      NoClaimBefore(Apply(t, events[0]), j, at, events[1..]);
    }
  }

  /** After a transient failure the job rests for its whole backoff, in every run. */
  lemma BackoffIsWaited(t: Tables, c: Claim, kind: FailureKind, message: string, now: Time, at: Time, events: seq<Event>)
    requires Inv(t) && c in t.claims && FailureStep(t, c, kind, message, now).1 == Ok(RetryScheduled(at))
    requires forall k :: 0 <= k < |events| && events[k].ClaimNext? ==> events[k].now < at
    ensures var u := Run(FailureStep(t, c, kind, message, now).0, events);
            at == now + RetryBackoffSeconds(c.number) * SECOND && WaitsUntil(u, c.job, at) && Used(u.attempts, c.job) == c.number
  {
    hide Inv, Guarantee, Run, RetryBackoffSeconds, FailureStep, WaitsUntil, Used;
    FailureKeeps(t, c, kind, message, now);
    RestsAfterFailure(t, c, kind, message, now, at);
    NoClaimBefore(FailureStep(t, c, kind, message, now).0, c.job, at, events);
  }

  lemma RestsAfterFailure(t: Tables, c: Claim, kind: FailureKind, message: string, now: Time, at: Time)
    requires Inv(t) && c in t.claims && FailureStep(t, c, kind, message, now).1 == Ok(RetryScheduled(at))
    ensures var u := FailureStep(t, c, kind, message, now).0;
            at == now + RetryBackoffSeconds(c.number) * SECOND && WaitsUntil(u, c.job, at) && Used(u.attempts, c.job) == c.number
  {
    hide Inv, Guarantee, RetryBackoffSeconds;
    GenuineClaim(t, c);
    RunningAttempt(t, c.attempt);
    CountSame(t.attempts, FailureStep(t, c, kind, message, now).0.attempts, |t.attempts|, c.job);
  }

  // ---------------------------------------------------------------- stopped workers

  predicate StoppedRow(t: Tables, w: nat) {
    w in t.workers && t.workers[w].stoppedAt.Some?
  }

  lemma StepKeepsStopped(t: Tables, e: Event, w: nat)
    requires StoppedRow(t, w)
    ensures StoppedRow(Apply(t, e), w) && Apply(t, e).workers[w] == t.workers[w]
  {
    hide InsertInputs, InsertOutputs, CopyInputs, LoadInputs, NextCandidate, NextExpired, NextDue, MaxNumber, FindKey,
         LatestDueSlot, NextSlotAfter;
  }

  /** A stopped worker stays stopped: in no later state does it get a claim or a renewal. */
  lemma {:induction false} StoppedForGood(t: Tables, w: nat, events: seq<Event>, now: Time, token: nat, c: Claim)
    requires StoppedRow(t, w) && c.worker == w
    ensures var u := Run(t, events);
            && StoppedRow(u, w) && u.workers[w] == t.workers[w]
            && !(ClaimStep(u, w, now, token).1.Ok? && ClaimStep(u, w, now, token).1.value.Some?)
            && ClaimStep(u, w, now, token).0 == u
            && RenewStep(u, c, now) == (u, Err(ClaimLost))
            && (forall ttl: nat :: HeartbeatStep(u, w, ttl, now) == (u, Err(if ValidSeconds(ttl) then StateConflict else InvalidData)))
    decreases |events|
  {
    hide Apply, NextCandidate, MaxNumber, LoadInputs;
    if events != [] {
      StepKeepsStopped(t, events[0], w);
      StoppedForGood(Apply(t, events[0]), w, events[1..], now, token, c);
    }
  }

  // ---------------------------------------------------------------- copies of a job

  /** The inputs of two jobs are the same files, item by item. */
  ghost predicate SameFiles(p: map<Slot, Artifact>, from: nat, q: map<Slot, Artifact>, to: nat) {
    && (forall i: nat :: Slot(from, Input, i) in p <==> Slot(to, Input, i) in q)
    && (forall i: nat :: Slot(from, Input, i) in p && Slot(to, Input, i) in q ==>
          q[Slot(to, Input, i)].key == p[Slot(from, Input, i)].key)
  }

  /** A manual retry is a new queued job with the work, the files and the limits of its source, which
      stays as it is; it starts without attempts and without the source's idempotency key. */
  lemma RetryRepeatsTheJob(t: Tables, job: nat, caller: Option<nat>, now: Time)
    requires Inv(t) && ManualRetryStep(t, job, caller, now).1.Ok? && ManualRetryStep(t, job, caller, now).1.value.Some?
    ensures var (u, r) := ManualRetryStep(t, job, caller, now);
            var n := r.value.value;
            && n == |t.jobs| && |u.jobs| == n + 1 && u.jobs[..n] == t.jobs && u.attempts == t.attempts
            && (t.jobs[job].status.Failed? || t.jobs[job].status.Cancelled?)
            && u.jobs[n].status.Queued? && u.jobs[n].work == t.jobs[job].work && u.jobs[n].total == t.jobs[job].total
            && u.jobs[n].maxAttempts == t.jobs[job].maxAttempts && u.jobs[n].owner == t.jobs[job].owner
            && u.jobs[n].priority == t.jobs[job].priority && u.jobs[n].idempotency.None? && Used(u.attempts, n) == 0
            && SameFiles(t.artifacts, job, u.artifacts, n)
  {
    hide Inv, Guarantee, CopyInputs;
    var u := ManualRetryStep(t, job, caller, now).0;
    RetriedFiles(t, u, job);
    ManualRetryKeeps(t, job, caller, now);
    JobFacts(u, |t.jobs|);
  }

  lemma RetriedFiles(t: Tables, u: Tables, job: nat)
    requires Inv(t) && job < |t.jobs|
    requires (u.artifacts, u.nextArtifact) == CopyInputs(t.artifacts, t.nextArtifact, job, |t.jobs|, MAX_FILES_PER_JOB)
    ensures SameFiles(t.artifacts, job, u.artifacts, |t.jobs|)
  {
    JobFacts(t, job);
    ManifestIsBijection(t, job);
    NoRowsYet(t);
    var total := if IsImage(t.jobs, job) then t.jobs[job].total else 0;
    CopyInputsEffect(t.artifacts, t.nextArtifact, job, |t.jobs|, total, MAX_FILES_PER_JOB);
    hide Inv, CopyInputs;
  }

  /** The job created by a tick has the settings and the files of its schedule and is due at the slot. */
  lemma OccurrenceRepeatsTheSchedule(t: Tables, now: Time)
    requires Inv(t) && TickStep(t, now).1.Ok? && TickStep(t, now).1.value.Some? && TickStep(t, now).1.value.value.job.Some?
    ensures var (u, r) := TickStep(t, now);
            var tick := r.value.value;
            var n := tick.job.value;
            && n == |t.jobs| && |u.jobs| == n + 1 && u.jobs[..n] == t.jobs && tick.schedule < |t.schedules|
            && var s := t.schedules[tick.schedule];
               && u.jobs[n].status.Queued? && u.jobs[n].work == ImageResize(s.maxWidth, s.jpegQuality)
               && u.jobs[n].availableAt == tick.slot && u.jobs[n].origin == Some(Origin(tick.schedule, tick.slot))
               && u.jobs[n].owner == s.owner && u.jobs[n].total == |s.inputs| && u.jobs[n].priority == s.priority
               && u.jobs[n].maxAttempts == 3 && u.jobs[n].idempotency.None? && u.jobs[n].retryOf.None?
               && (forall i: nat :: Slot(n, Input, i) in u.artifacts <==> i < |s.inputs|)
               && (forall i: nat :: i < |s.inputs| ==> u.artifacts[Slot(n, Input, i)].key == InputKey(s.inputs[i].batch, s.inputs[i].file))
               && u.occurrences == t.occurrences + [Occurrence(tick.schedule, tick.slot, Some(n), tick.coalesced)]
  {
    NoRowsYet(t);
    var i := TickStep(t, now).1.value.value.schedule;
    InsertInputsEffect(t.artifacts, t.nextArtifact, |t.jobs|, t.schedules[i].inputs, |t.schedules[i].inputs|);
    hide Inv, InsertInputs, LatestDueSlot, Overlaps, SlotRecorded;
  }
}
