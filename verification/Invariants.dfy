/** What every reachable state satisfies, and what every step guarantees between two states. */
module Invariants {
  import opened Rows
  import opened Slots
  import opened Steps
  import opened AttemptLedger

  // ---------------------------------------------------------------- one state

  /** Which optional columns of a job are set is decided by its status. */
  predicate JobFits(job: Job) {
    && (job.finishedAt.Some? <==> Terminal(job.status))
    && (job.result.Some? <==> job.status.Succeeded?)
    && (job.failure.Some? <==> job.status.Failed? || job.status.RetryWaiting?)
    && (job.cancelRequestedAt.Some? <==> job.status.CancelRequested? || job.status.Cancelled?)
    && (job.outputsExpiredAt.Some? ==> Terminal(job.status))
    && job.progress <= job.total
    && (job.status.Queued? || job.status.RetryWaiting? ==> job.progress == 0)
    && (job.status.Succeeded? ==> job.progress == job.total)
    && 1 <= job.maxAttempts <= MAX_ATTEMPTS
    && (job.work.DemoDelay? ==> job.total == 1)
    && (job.work.ImageResize? ==> 1 <= job.total <= MAX_FILES_PER_JOB)
  }

  predicate AttemptRowFits(a: Attempt) {
    && (a.finishedAt.Some? <==> !a.status.Running?)
    && (match a.status
        case Running => a.errorKind.None?
        case Succeeded => a.errorKind.None?
        case Failed => a.errorKind.Some? && a.errorKind.value.FailedWith?
        case Cancelled => a.errorKind == Some(CancelledByUser))
    && a.progress <= a.total
    && (a.status.Succeeded? ==> a.progress == a.total)
  }

  /** While a job is owned, its progress is its running attempt's. */
  predicate InStep(job: Job, a: Attempt) {
    a.total == job.total && (a.status.Running? ==> a.progress == job.progress)
  }

  ghost predicate RowsFit(jobs: seq<Job>, attempts: seq<Attempt>) {
    && (forall j: nat :: j < |jobs| ==> JobFits(jobs[j]))
    && (forall a: nat :: a < |attempts| ==> AttemptRowFits(attempts[a]))
    && (forall a: nat :: a < |attempts| ==> attempts[a].job < |jobs| && InStep(jobs[attempts[a].job], attempts[a]))
  }

  predicate IsImage(jobs: seq<Job>, j: nat) {
    j < |jobs| && jobs[j].work.ImageResize?
  }

  /** An input row belongs to an item of an image job and is an uploaded file. */
  predicate InputRowFits(jobs: seq<Job>, slot: Slot, row: Artifact) {
    && IsImage(jobs, slot.job) && slot.item < jobs[slot.job].total
    && row.attempt.None? && row.source.None? && row.key.InputKey?
  }

  /** An output row belongs to a succeeded job whose outputs have not expired, was published by the
      succeeded attempt of that job, and names the input row with its item index. */
  predicate OutputRowFits(jobs: seq<Job>, attempts: seq<Attempt>, artifacts: map<Slot, Artifact>, slot: Slot, row: Artifact) {
    && IsImage(jobs, slot.job) && slot.item < jobs[slot.job].total
    && jobs[slot.job].status.Succeeded? && jobs[slot.job].outputsExpiredAt.None?
    && row.attempt.Some? && row.attempt.value < |attempts|
    && attempts[row.attempt.value].job == slot.job && attempts[row.attempt.value].status.Succeeded?
    && Slot(slot.job, Input, slot.item) in artifacts
    && row.source == Some(artifacts[Slot(slot.job, Input, slot.item)].id)
  }

  predicate Published(job: Job) {
    job.work.ImageResize? && job.status.Succeeded? && job.outputsExpiredAt.None?
  }

  ghost predicate ArtifactsFit(jobs: seq<Job>, attempts: seq<Attempt>, artifacts: map<Slot, Artifact>, next: nat) {
    && (forall s :: s in artifacts && s.kind.Input? ==> InputRowFits(jobs, s, artifacts[s]))
    && (forall s :: s in artifacts && s.kind.Output? ==> OutputRowFits(jobs, attempts, artifacts, s, artifacts[s]))
    && (forall j: nat, i: nat :: IsImage(jobs, j) && i < jobs[j].total ==> Slot(j, Input, i) in artifacts)
    && (forall j: nat, i: nat :: j < |jobs| && Published(jobs[j]) && i < jobs[j].total ==> Slot(j, Output, i) in artifacts)
    && (forall s :: s in artifacts ==> artifacts[s].id < next)
    && (forall r, s :: r in artifacts && s in artifacts && artifacts[r].id == artifacts[s].id ==> r == s)
  }

  /** A claim repeats the columns of its attempt and of its job. */
  predicate ClaimFits(t: Tables, c: Claim) {
    && c.attempt < |t.attempts| && c.job < |t.jobs|
    && t.attempts[c.attempt].job == c.job
    && t.attempts[c.attempt].number == c.number
    && t.attempts[c.attempt].worker == c.worker
    && t.attempts[c.attempt].token == c.token
    && t.jobs[c.job].maxAttempts == c.maxAttempts
    && (c.work.DemoWork? <==> t.jobs[c.job].work.DemoDelay?)
    && (c.work.ImageWork? ==> c.work.inputs == LoadInputs(t.artifacts, c.job, MAX_FILES_PER_JOB)
                              && |c.work.inputs| == t.jobs[c.job].total)
  }

  ghost predicate ClaimsFit(t: Tables) {
    && (forall c :: c in t.claims ==> ClaimFits(t, c))
    && (forall c, d :: c in t.claims && d in t.claims && c.attempt == d.attempt ==> c == d)
  }

  predicate ScheduleFits(s: Schedule) {
    ValidInterval(s.interval) && ValidSettings(s.maxWidth, s.jpegQuality) && 1 <= |s.inputs| <= MAX_FILES_PER_JOB
  }

  /** At most one job of a schedule is not terminal. */
  ghost predicate OriginsFit(jobs: seq<Job>, schedules: seq<Schedule>, occurrences: seq<Occurrence>) {
    && (forall i: nat :: i < |schedules| ==> ScheduleFits(schedules[i]))
    && (forall j: nat :: j < |jobs| && jobs[j].origin.Some? ==> jobs[j].origin.value.schedule < |schedules|)
    && (forall i: nat, j: nat, k: nat ::
          (j < |jobs| && k < |jobs| && ActiveFor(jobs[j], i) && ActiveFor(jobs[k], i)) ==> j == k)
    && (forall o: nat :: o < |occurrences| ==> occurrences[o].schedule < |schedules|)
    && (forall o: nat :: o < |occurrences| && occurrences[o].job.Some? ==>
          && occurrences[o].job.value < |jobs|
          && jobs[occurrences[o].job.value].origin == Some(Origin(occurrences[o].schedule, occurrences[o].slot)))
  }

  predicate SameRequest(a: Job, b: Job) {
    && a.idempotency.Some? && b.idempotency.Some?
    && a.owner == b.owner && a.idempotency.value.key == b.idempotency.value.key
  }

  /** One owner and one idempotency key name at most one job. */
  ghost predicate KeysFit(jobs: seq<Job>) {
    && (forall j: nat :: j < |jobs| && jobs[j].idempotency.Some? ==> ValidIdempotency(jobs[j].idempotency.value))
    && (forall j: nat, k: nat :: j < |jobs| && k < |jobs| && SameRequest(jobs[j], jobs[k]) ==> j == k)
  }

  ghost predicate Inv(t: Tables) {
    && LedgerFits(t.jobs, t.attempts)
    && RowsFit(t.jobs, t.attempts)
    && ArtifactsFit(t.jobs, t.attempts, t.artifacts, t.nextArtifact)
    && ClaimsFit(t)
    && OriginsFit(t.jobs, t.schedules, t.occurrences)
    && KeysFit(t.jobs)
  }

  // ---------------------------------------------------------------- two states

  /** The statuses a job may have later: terminal statuses are final, and a requested cancellation
      can only end in a cancelled job. */
  predicate StatusMoves(before: JobStatus, after: JobStatus) {
    match before
    case Queued => true
    case RetryWaiting => !after.Queued?
    case Running => !after.Queued?
    case CancelRequested => after.CancelRequested? || after.Cancelled?
    case _ => after == before
  }

  predicate JobEvolves(before: Job, after: Job) {
    && after.work == before.work && after.priority == before.priority && after.total == before.total
    && after.maxAttempts == before.maxAttempts && after.retryOf == before.retryOf && after.owner == before.owner
    && after.idempotency == before.idempotency && after.origin == before.origin
    && StatusMoves(before.status, after.status)
    && (before.cancelRequestedAt.Some? ==> after.cancelRequestedAt == before.cancelRequestedAt)
    && (before.outputsExpiredAt.Some? ==> after.outputsExpiredAt == before.outputsExpiredAt)
    && (Terminal(before.status) ==> after.(outputsExpiredAt := before.outputsExpiredAt) == before)
  }

  /** A finished attempt is never written again, and progress only grows. */
  predicate AttemptEvolves(before: Attempt, after: Attempt) {
    && after.job == before.job && after.number == before.number && after.total == before.total
    && after.worker == before.worker && after.token == before.token && after.startedAt == before.startedAt
    && before.progress <= after.progress
    && (!before.status.Running? ==> after == before)
  }

  predicate JobsEvolve(before: seq<Job>, after: seq<Job>) {
    |before| <= |after| && forall j: nat :: j < |before| ==> JobEvolves(before[j], after[j])
  }

  predicate AttemptsEvolve(before: seq<Attempt>, after: seq<Attempt>) {
    |before| <= |after| && forall a: nat :: a < |before| ==> AttemptEvolves(before[a], after[a])
  }

  /** The input rows of the first n jobs are the same in both tables. */
  predicate SameInputs(n: nat, before: map<Slot, Artifact>, after: map<Slot, Artifact>) {
    && (forall s :: s in before && s.kind.Input? && s.job < n ==> s in after && after[s] == before[s])
    && (forall s :: s in after && s.kind.Input? && s.job < n ==> s in before)
  }

  ghost predicate Guarantee(before: Tables, after: Tables) {
    && JobsEvolve(before.jobs, after.jobs)
    && AttemptsEvolve(before.attempts, after.attempts)
    && SameInputs(|before.jobs|, before.artifacts, after.artifacts)
    && before.claims <= after.claims
    && before.occurrences <= after.occurrences
    && |before.schedules| <= |after.schedules|
    && (forall i: nat :: i < |before.schedules| ==> after.schedules[i].inputs == before.schedules[i].inputs)
  }

  lemma GuaranteeReflexive(t: Tables)
    ensures Guarantee(t, t)
  {
  }

  lemma GuaranteeTransitive(s: Tables, t: Tables, u: Tables)
    requires Guarantee(s, t) && Guarantee(t, u)
    ensures Guarantee(s, u)
  {
    forall j: nat | j < |s.jobs|
      ensures JobEvolves(s.jobs[j], u.jobs[j])
    {
      assert JobEvolves(s.jobs[j], t.jobs[j]) && JobEvolves(t.jobs[j], u.jobs[j]);
    }
    forall a: nat | a < |s.attempts|
      ensures AttemptEvolves(s.attempts[a], u.attempts[a])
    {
      assert AttemptEvolves(s.attempts[a], t.attempts[a]) && AttemptEvolves(t.attempts[a], u.attempts[a]);
    }
    forall i: nat | i < |s.schedules|
      ensures u.schedules[i].inputs == s.schedules[i].inputs
    {
      assert t.schedules[i].inputs == s.schedules[i].inputs;
    }
  }

  // ---------------------------------------------------------------- what evolution keeps

  lemma {:induction false} LoadInputsSame(p: map<Slot, Artifact>, q: map<Slot, Artifact>, job: nat, n: nat)
    requires forall i: nat :: Slot(job, Input, i) in p <==> Slot(job, Input, i) in q
    requires forall i: nat :: Slot(job, Input, i) in p ==> p[Slot(job, Input, i)] == q[Slot(job, Input, i)]
    ensures LoadInputs(p, job, n) == LoadInputs(q, job, n)
  {
    if n > 0 {
      LoadInputsSame(p, q, job, n - 1);
    }
  }

  /** Loading the inputs of an image job gives its items in order. */
  lemma {:induction false} LoadInputsInOrder(artifacts: map<Slot, Artifact>, job: nat, total: nat, n: nat)
    requires forall i: nat :: Slot(job, Input, i) in artifacts <==> i < total
    ensures |LoadInputs(artifacts, job, n)| == if n <= total then n else total
    ensures forall i: nat :: i < |LoadInputs(artifacts, job, n)| ==>
              LoadInputs(artifacts, job, n)[i] == InputRow(artifacts[Slot(job, Input, i)].id, i, artifacts[Slot(job, Input, i)].key)
  {
    if n > 0 {
      LoadInputsInOrder(artifacts, job, total, n - 1);
    }
  }

  lemma ClaimsKept(t: Tables, u: Tables)
    requires ClaimsFit(t) && Guarantee(t, u) && u.claims == t.claims
    ensures ClaimsFit(u)
  {
    forall c | c in u.claims
      ensures ClaimFits(u, c)
    {
      assert ClaimFits(t, c);
      assert JobEvolves(t.jobs[c.job], u.jobs[c.job]) && AttemptEvolves(t.attempts[c.attempt], u.attempts[c.attempt]);
      LoadInputsSame(t.artifacts, u.artifacts, c.job, MAX_FILES_PER_JOB);
    }
  }

  lemma OriginsKept(before: seq<Job>, after: seq<Job>, schedules: seq<Schedule>, occurrences: seq<Occurrence>)
    requires OriginsFit(before, schedules, occurrences)
    requires JobsEvolve(before, after)
    requires forall j: nat :: |before| <= j < |after| ==> after[j].origin.None?
    ensures OriginsFit(after, schedules, occurrences)
  {
    forall i: nat, j: nat, k: nat | j < |after| && k < |after| && ActiveFor(after[j], i) && ActiveFor(after[k], i)
      ensures j == k
    {
      assert JobEvolves(before[j], after[j]) && JobEvolves(before[k], after[k]);
      assert ActiveFor(before[j], i) && ActiveFor(before[k], i);
    }
    forall o: nat | o < |occurrences| && occurrences[o].job.Some?
      ensures occurrences[o].job.value < |after|
      ensures after[occurrences[o].job.value].origin == Some(Origin(occurrences[o].schedule, occurrences[o].slot))
    {
      var j := occurrences[o].job.value;
      assert JobEvolves(before[j], after[j]);
    }
    forall j: nat | j < |after| && after[j].origin.Some?
      ensures after[j].origin.value.schedule < |schedules|
    {
      assert JobEvolves(before[j], after[j]);
    }
  }

  lemma KeysKept(before: seq<Job>, after: seq<Job>)
    requires KeysFit(before)
    requires JobsEvolve(before, after)
    requires forall j: nat :: |before| <= j < |after| ==> after[j].idempotency.None?
    ensures KeysFit(after)
  {
    forall j: nat | j < |before|
      ensures after[j].idempotency == before[j].idempotency && after[j].owner == before[j].owner
    {
      assert JobEvolves(before[j], after[j]);
    }
    forall j: nat, k: nat | j < |after| && k < |after| && SameRequest(after[j], after[k])
      ensures j == k
    {
      assert j < |before| && k < |before|;
      assert SameRequest(before[j], before[k]);
    }
  }

  /** Artifact rows stay right when no job newly publishes or expires its outputs. */
  lemma ArtifactsKept(t: Tables, u: Tables)
    requires ArtifactsFit(t.jobs, t.attempts, t.artifacts, t.nextArtifact)
    requires JobsEvolve(t.jobs, u.jobs) && |u.jobs| == |t.jobs| && AttemptsEvolve(t.attempts, u.attempts)
    requires u.artifacts == t.artifacts && u.nextArtifact == t.nextArtifact
    requires forall j: nat :: j < |t.jobs| ==> u.jobs[j].outputsExpiredAt == t.jobs[j].outputsExpiredAt
    requires forall j: nat :: j < |t.jobs| && Published(u.jobs[j]) ==> Published(t.jobs[j])
    ensures ArtifactsFit(u.jobs, u.attempts, u.artifacts, u.nextArtifact)
  {
    forall j: nat | j < |t.jobs|
      ensures u.jobs[j].work == t.jobs[j].work && u.jobs[j].total == t.jobs[j].total
    {
      assert JobEvolves(t.jobs[j], u.jobs[j]);
    }
    forall s | s in t.artifacts && s.kind.Output?
      ensures OutputRowFits(u.jobs, u.attempts, u.artifacts, s, u.artifacts[s])
    {
      var row := t.artifacts[s];
      assert OutputRowFits(t.jobs, t.attempts, t.artifacts, s, row);
      assert JobEvolves(t.jobs[s.job], u.jobs[s.job]);
      assert AttemptEvolves(t.attempts[row.attempt.value], u.attempts[row.attempt.value]);
    }
    forall s | s in t.artifacts && s.kind.Input?
      ensures InputRowFits(u.jobs, s, u.artifacts[s])
    {
      assert InputRowFits(t.jobs, s, t.artifacts[s]);
    }
  }
}
