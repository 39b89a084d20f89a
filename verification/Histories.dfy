/** What the invariant and the guarantee say about whole runs of the queue. */
module Histories {
  import opened Rows
  import opened Slots
  import opened Steps
  import opened AttemptLedger
  import opened Invariants
  import opened Preservation

  // ---------------------------------------------------------------- shape of every reachable state

  /** In every reachable state a job is running or being cancelled exactly when it has exactly one
      running attempt; its attempt numbers are 1 to n, the running one is n, the others failed. */
  lemma ReachableAttempts(events: seq<Event>, j: nat)
    requires j < |Run(EMPTY, events).jobs|
    ensures var t := Run(EMPTY, events);
            var n := Used(t.attempts, j);
            && (t.jobs[j].status.Running? || t.jobs[j].status.CancelRequested? <==> exists a: nat :: RunningFor(t.attempts, j, a))
            && (forall a: nat, b: nat :: RunningFor(t.attempts, j, a) && RunningFor(t.attempts, j, b) ==> a == b)
            && (forall a: nat :: RunningFor(t.attempts, j, a) ==> t.attempts[a].number == n)
            && (forall a: nat :: a < |t.attempts| && t.attempts[a].job == j && t.attempts[a].number < n ==> t.attempts[a].status.Failed?)
            && (forall k: nat :: HasNumber(t.attempts, j, k) <==> 1 <= k <= n)
            && (forall a: nat, b: nat :: (a < |t.attempts| && b < |t.attempts| && t.attempts[a].job == t.attempts[b].job == j
                                          && t.attempts[a].number == t.attempts[b].number) ==> a == b)
            && n <= t.jobs[j].maxAttempts
            && (t.jobs[j].status.Queued? ==> n == 0)
            && (t.jobs[j].status.RetryWaiting? ==> n < t.jobs[j].maxAttempts)
  {
    hide Inv, Guarantee, Run, LedgerFits, HasNumber, RunningFor, JobFits;
    var t := Run(EMPTY, events);
    EmptyFits();
    RunKeeps(EMPTY, events);
    Split(t);
    StatusMatchesAttempts(t.jobs, t.attempts, j);
    JobFacts(t, j);
    OlderFailed(t.jobs, t.attempts, j);
  }

  lemma OlderFailed(jobs: seq<Job>, attempts: seq<Attempt>, j: nat)
    requires LedgerFits(jobs, attempts)
    ensures forall a: nat :: a < |attempts| && attempts[a].job == j && attempts[a].number < Used(attempts, j) ==> attempts[a].status.Failed?
  {
    forall a: nat | a < |attempts| && attempts[a].job == j && attempts[a].number < Used(attempts, j)
      ensures attempts[a].status.Failed?
    {
      assert AttemptFits(jobs, attempts, a);
    }
  }

  /** In every reachable state the optional columns of a job follow its status, and a running
      attempt's progress is its job's. */
  lemma ReachableRows(events: seq<Event>, j: nat)
    requires j < |Run(EMPTY, events).jobs|
    ensures var t := Run(EMPTY, events);
            var job := t.jobs[j];
            && (job.finishedAt.Some? <==> Terminal(job.status))
            && (job.result.Some? <==> job.status.Succeeded?)
            && (job.failure.Some? <==> job.status.Failed? || job.status.RetryWaiting?)
            && (job.cancelRequestedAt.Some? <==> job.status.CancelRequested? || job.status.Cancelled?)
            && (forall a: nat :: RunningFor(t.attempts, j, a) ==>
                  t.attempts[a].progress == job.progress && t.attempts[a].total == job.total)
  {
    var t := Run(EMPTY, events);
    EmptyFits();
    RunKeeps(EMPTY, events);
    JobFacts(t, j);
    forall a: nat | RunningFor(t.attempts, j, a)
      ensures t.attempts[a].progress == t.jobs[j].progress && t.attempts[a].total == t.jobs[j].total
    {
      RunningAttempt(t, a);
    }
  }

  /** While the same attempt runs, the progress of its job only grows. */
  lemma ProgressOnlyGrows(t: Tables, events: seq<Event>, j: nat, a: nat)
    requires Inv(t) && j < |t.jobs| && RunningFor(t.attempts, j, a)
    requires RunningFor(Run(t, events).attempts, j, a)
    ensures var u := Run(t, events);
            j < |u.jobs| && t.jobs[j].progress <= u.jobs[j].progress <= u.jobs[j].total == t.jobs[j].total
  {
    RunKeeps(t, events);
    var u := Run(t, events);
    RunningAttempt(t, a);
    RunningAttempt(u, a);
    assert AttemptEvolves(t.attempts[a], u.attempts[a]);
    assert JobEvolves(t.jobs[j], u.jobs[j]);
  }

  /** The output rows of a job: all items of a published job, none of any other.  Each comes from the
      one succeeded attempt of the job and names the input row of its own item. */
  lemma ManifestIsBijection(t: Tables, j: nat)
    requires Inv(t) && j < |t.jobs|
    ensures forall i: nat :: Slot(j, Input, i) in t.artifacts <==> IsImage(t.jobs, j) && i < t.jobs[j].total
    ensures forall i: nat :: Slot(j, Output, i) in t.artifacts <==> Published(t.jobs[j]) && i < t.jobs[j].total
    ensures forall i: nat :: Slot(j, Output, i) in t.artifacts ==>
              && t.artifacts[Slot(j, Output, i)].source == Some(t.artifacts[Slot(j, Input, i)].id)
              && t.artifacts[Slot(j, Output, i)].attempt.Some?
              && SucceededFor(t, j, t.artifacts[Slot(j, Output, i)].attempt.value)
    ensures forall a: nat, b: nat :: SucceededFor(t, j, a) && SucceededFor(t, j, b) ==> a == b
    ensures forall i: nat, k: nat :: (Slot(j, Input, i) in t.artifacts && Slot(j, Input, k) in t.artifacts
              && t.artifacts[Slot(j, Input, i)].id == t.artifacts[Slot(j, Input, k)].id) ==> i == k
  {
    forall i: nat
      ensures Slot(j, Input, i) in t.artifacts <==> IsImage(t.jobs, j) && i < t.jobs[j].total
    {
      assert Slot(j, Input, i) in t.artifacts ==> InputRowFits(t.jobs, Slot(j, Input, i), t.artifacts[Slot(j, Input, i)]);
    }
    forall i: nat
      ensures Slot(j, Output, i) in t.artifacts <==> Published(t.jobs[j]) && i < t.jobs[j].total
      ensures Slot(j, Output, i) in t.artifacts ==>
                && t.artifacts[Slot(j, Output, i)].source == Some(t.artifacts[Slot(j, Input, i)].id)
                && t.artifacts[Slot(j, Output, i)].attempt.Some?
                && SucceededFor(t, j, t.artifacts[Slot(j, Output, i)].attempt.value)
    {
      var s := Slot(j, Output, i);
      assert s in t.artifacts ==> OutputRowFits(t.jobs, t.attempts, t.artifacts, s, t.artifacts[s]);
    }
    forall a: nat, b: nat | SucceededFor(t, j, a) && SucceededFor(t, j, b)
      ensures a == b
    {
      if a != b {
        LatestIsUnique(t.jobs, t.attempts, a, b);
      }
    }
  }

  predicate SucceededFor(t: Tables, j: nat, a: nat) {
    a < |t.attempts| && t.attempts[a].job == j && t.attempts[a].status.Succeeded?
  }

  /** Expiry takes the outputs of a published job exactly when its retention is over, all of them in
      the step that stamps the job, and returns their keys; a job is stamped at most once. */
  lemma ExpiryIsWhole(t: Tables, retentionSeconds: nat, now: Time, j: nat)
    requires Inv(t) && j < |t.jobs|
    ensures var (u, keys) := ExpireStep(t, retentionSeconds, now);
            && j < |u.jobs|
            && (u.jobs[j] != t.jobs[j] ==> t.jobs[j].outputsExpiredAt.None? && u.jobs[j] == t.jobs[j].(outputsExpiredAt := Some(now)))
            && (Published(t.jobs[j]) ==>
                  && t.jobs[j].finishedAt.Some?
                  && (Published(u.jobs[j]) <==> t.jobs[j].finishedAt.value > now - retentionSeconds * SECOND))
            && (forall i: nat :: Slot(j, Output, i) in u.artifacts <==> Slot(j, Output, i) in t.artifacts && Published(u.jobs[j]))
            && (forall i: nat :: Slot(j, Output, i) in t.artifacts && !Published(u.jobs[j]) ==> t.artifacts[Slot(j, Output, i)].key in keys)
  {
    var u := ExpireStep(t, retentionSeconds, now).0;
    ExpireKeeps(t, retentionSeconds, now);
    JobFacts(t, j);
    ManifestIsBijection(t, j);
    ManifestIsBijection(u, j);
  }

  // ---------------------------------------------------------------- fencing

  /** Every call that a claim can make at a given time answers ClaimLost and changes nothing.
      Completing with the other kind of completion, or with the wrong number of outputs, is refused
      before the claim is looked at. */
  ghost predicate RefusedAt(t: Tables, c: Claim, now: Time) {
    && RenewStep(t, c, now) == (t, Err(ClaimLost))
    && (forall ms: nat :: EncodingStep(t, c, ms, now) == (t, Err(ClaimLost)))
    && (forall n: nat :: ProgressStep(t, c, n, now) == (t, Err(ClaimLost)))
    && CancellationRequested(t, c, now) == Err(ClaimLost)
    && FinishCancelledStep(t, c, now) == (t, Err(ClaimLost))
    && (forall kind: FailureKind, m: string :: FailureStep(t, c, kind, m, now) == (t, Err(ClaimLost)))
    && CompleteDemoStep(t, c, now) == (t, Err(if c.work.DemoWork? then ClaimLost else InvalidData))
    && (forall outputs: seq<PendingOutput> ::
          CompleteImageStep(t, c, outputs, now)
          == (t, Err(if c.work.ImageWork? && |outputs| == |c.work.inputs| then ClaimLost else InvalidData)))
  }

  ghost predicate LockedOut(t: Tables, c: Claim) {
    forall now: Time :: RefusedAt(t, c, now)
  }

  /** Once the attempt of a claim has left the running state the claim is locked out for good,
      whatever happens to the job and its newer attempts, and the attempt row never changes again. */
  lemma Fencing(t: Tables, c: Claim, events: seq<Event>)
    requires Inv(t) && c in t.claims
    requires !t.attempts[c.attempt].status.Running?
    ensures var u := Run(t, events);
            c.attempt < |u.attempts| && u.attempts[c.attempt] == t.attempts[c.attempt] && LockedOut(u, c)
  {
    hide Inv, Guarantee, Run, RefusedAt;
    GenuineClaim(t, c);
    RunKeeps(t, events);
    var u := Run(t, events);
    AttemptLater(t, u, c.attempt);
    forall now: Time
      ensures RefusedAt(u, c, now)
    {
      UnheldIsRefused(u, c, now);
    }
  }

  /** A claim whose lease has run out is refused by every call that carries a later time, even
      before anyone reclaims the attempt. */
  lemma LeaseExpiryFences(t: Tables, c: Claim, now: Time)
    requires Inv(t) && c in t.claims && t.attempts[c.attempt].leaseExpiresAt <= now
    ensures RefusedAt(t, c, now)
  {
    hide Inv;
    UnheldIsRefused(t, c, now);
  }

  lemma UnheldIsRefused(t: Tables, c: Claim, now: Time)
    requires !Held(t, c, now)
    ensures RefusedAt(t, c, now)
  {
  }

  // ---------------------------------------------------------------- cancelling against completing

  /** A requested cancellation wins: no claim can complete the job any more, in any later state, and
      the only terminal status left to it is cancelled. */
  lemma CancellationWins(t: Tables, j: nat, events: seq<Event>, c: Claim, outputs: seq<PendingOutput>, now: Time)
    requires Inv(t) && j < |t.jobs| && t.jobs[j].status.CancelRequested?
    requires c.job == j
    ensures var u := Run(t, events);
            && j < |u.jobs|
            && (u.jobs[j].status.CancelRequested? || u.jobs[j].status.Cancelled?)
            && CompleteDemoStep(u, c, now).0 == u && CompleteDemoStep(u, c, now).1.Err?
            && CompleteImageStep(u, c, outputs, now).0 == u && CompleteImageStep(u, c, outputs, now).1.Err?
  {
    hide Inv, Guarantee, Run, InsertOutputs;
    RunKeeps(t, events);
    var u := Run(t, events);
    JobLater(t, u, j);
  }

  /** A completion wins: the job stays succeeded, and a request to cancel it is a conflict. */
  lemma CompletionWins(t: Tables, j: nat, events: seq<Event>, now: Time)
    requires Inv(t) && j < |t.jobs| && t.jobs[j].status.Succeeded?
    ensures var u := Run(t, events);
            && j < |u.jobs| && u.jobs[j].status.Succeeded? && u.jobs[j].finishedAt == t.jobs[j].finishedAt
            && RequestCancelStep(u, j, None, now) == (u, Err(StateConflict))
            && ManualRetryStep(u, j, None, now) == (u, Err(StateConflict))
  {
    hide Inv, Guarantee, Run;
    RunKeeps(t, events);
    var u := Run(t, events);
    JobLater(t, u, j);
  }

  /** Terminal jobs are never reopened: only the retention stamp of such a row can still change. */
  lemma TerminalIsFinal(t: Tables, j: nat, events: seq<Event>)
    requires Inv(t) && j < |t.jobs| && Terminal(t.jobs[j].status)
    ensures var u := Run(t, events);
            j < |u.jobs| && u.jobs[j].(outputsExpiredAt := t.jobs[j].outputsExpiredAt) == t.jobs[j]
  {
    RunKeeps(t, events);
    assert JobEvolves(t.jobs[j], Run(t, events).jobs[j]);
  }

  // ---------------------------------------------------------------- when a call conflicts

  /** For a genuine claim, a conflict always means that a cancellation was requested: the job half
      of a write can refuse for no other reason. */
  lemma ConflictMeansCancellation(t: Tables, c: Claim, n: nat, kind: FailureKind, message: string, now: Time)
    requires Inv(t) && c in t.claims
    ensures ProgressStep(t, c, n, now).1 == Err(StateConflict) <==>
              && Held(t, c, now) && t.attempts[c.attempt].progress <= n <= t.attempts[c.attempt].total
              && t.jobs[c.job].status.CancelRequested?
    ensures FailureStep(t, c, kind, message, now).1 == Err(StateConflict) <==>
              Held(t, c, now) && t.jobs[c.job].status.CancelRequested?
    ensures c.work.DemoWork? ==>
              (CompleteDemoStep(t, c, now).1 == Err(StateConflict) <==> Held(t, c, now) && t.jobs[c.job].status.CancelRequested?)
    ensures FinishCancelledStep(t, c, now).1 == Err(StateConflict) <==>
              Held(t, c, now) && t.jobs[c.job].status.Running?
  {
    GenuineClaim(t, c);
    if Held(t, c, now) {
      RunningAttempt(t, c.attempt);
    }
    hide Inv;
  }

  /** The outputs a worker collects for its claim: one per input, with the input's identity and item. */
  ghost predicate Matches(inputs: seq<InputRow>, outputs: seq<PendingOutput>) {
    |outputs| == |inputs|
    && forall k: nat :: k < |inputs| ==> outputs[k].source == inputs[k].id && outputs[k].item == inputs[k].item
  }

  lemma {:induction false} PublishingSucceeds(
      artifacts: map<Slot, Artifact>, next: nat, job: nat, attempt: nat, outputs: seq<PendingOutput>)
    requires forall k: nat :: k < |outputs| ==>
               && Slot(job, Input, outputs[k].item) in artifacts && artifacts[Slot(job, Input, outputs[k].item)].id == outputs[k].source
               && Slot(job, Output, outputs[k].item) !in artifacts
    requires forall k: nat, l: nat :: k < l < |outputs| ==> outputs[k].item != outputs[l].item
    ensures InsertOutputs(artifacts, next, job, attempt, outputs).Ok?
    decreases |outputs|
  {
    if outputs != [] {
      var o, rest := outputs[0], outputs[1..];
      var once := artifacts[Slot(job, Output, o.item) := Artifact(next, Some(attempt), Some(o.source), o.key)];
      forall k: nat | k < |rest|
        ensures rest[k] == outputs[k + 1] && rest[k].item != o.item
      {
      }
      PublishingSucceeds(once, next + 1, job, attempt, rest);
    }
  }

  /** Completing with the collected outputs succeeds exactly when the claim is held and no
      cancellation was requested; a cancellation that got in first is answered ClaimLost. */
  lemma CompleteImageAnswer(t: Tables, c: Claim, outputs: seq<PendingOutput>, now: Time)
    requires Inv(t) && c in t.claims && c.work.ImageWork? && Matches(c.work.inputs, outputs)
    ensures CompleteImageStep(t, c, outputs, now).1
            == if Held(t, c, now) && t.jobs[c.job].status.Running? then Ok(()) else Err(ClaimLost)
  {
    GenuineClaim(t, c);
    if Held(t, c, now) && t.jobs[c.job].status.Running? {
      InputsOfImage(t, c.job);
      JobFacts(t, c.job);
      LoadInputsInOrder(t.artifacts, c.job, t.jobs[c.job].total, MAX_FILES_PER_JOB);
      ManifestIsBijection(t, c.job);
      hide Inv;
      forall k: nat | k < |outputs|
        ensures outputs[k].item == k && outputs[k].source == t.artifacts[Slot(c.job, Input, k)].id
      {
        assert outputs[k].item == c.work.inputs[k].item;
      }
      PublishingSucceeds(t.artifacts, t.nextArtifact, c.job, c.attempt, outputs);
    }
  }

  // ---------------------------------------------------------------- idempotent creation

  predicate Keyed(job: Job, owner: nat, key: string) {
    job.owner == owner && job.idempotency.Some? && job.idempotency.value.key == key
  }

  /** One owner and key name one job: after any run, creation and lookup with that key return the
      job when the fingerprint matches, conflict when it does not, and change nothing either way. */
  lemma ReplaysFindTheJob(t: Tables, j: nat, events: seq<Event>, r: ImageRequest, now: Time)
    requires Inv(t) && j < |t.jobs|
    requires ValidImageRequest(r) && r.idempotency.Some? && Keyed(t.jobs[j], r.owner, r.idempotency.value.key)
    ensures var u := Run(t, events);
            && j < |u.jobs| && Keyed(u.jobs[j], r.owner, r.idempotency.value.key)
            && (forall k: nat :: k < |u.jobs| && Keyed(u.jobs[k], r.owner, r.idempotency.value.key) ==> k == j)
            && (if t.jobs[j].idempotency.value.fingerprint == r.idempotency.value.fingerprint
                then CreateImageStep(u, r, now) == (u, Ok(j)) && FindIdempotent(u, r.owner, r.idempotency.value) == Ok(Some(j))
                else CreateImageStep(u, r, now) == (u, Err(IdempotencyConflict))
                     && FindIdempotent(u, r.owner, r.idempotency.value) == Err(IdempotencyConflict))
  {
    hide Inv, Guarantee, Run, KeysFit;
    RunKeeps(t, events);
    var u := Run(t, events);
    JobLater(t, u, j);
    Split(u);
    forall k: nat | k < |u.jobs| && Keyed(u.jobs[k], r.owner, r.idempotency.value.key)
      ensures k == j
    {
      OnlyOne(u.jobs, k, j);
    }
  }

  lemma AttemptLater(t: Tables, u: Tables, a: nat)
    requires Guarantee(t, u) && a < |t.attempts|
    ensures a < |u.attempts| && AttemptEvolves(t.attempts[a], u.attempts[a])
  {
  }

  lemma JobLater(t: Tables, u: Tables, j: nat)
    requires Guarantee(t, u) && j < |t.jobs|
    ensures j < |u.jobs| && JobEvolves(t.jobs[j], u.jobs[j])
  {
  }

  lemma OnlyOne(jobs: seq<Job>, j: nat, k: nat)
    requires KeysFit(jobs) && j < |jobs| && k < |jobs| && SameRequest(jobs[j], jobs[k])
    ensures j == k
  {
  }

  /** A first creation stores the request under its key, so the lemma above covers every later call. */
  lemma CreationStoresTheKey(t: Tables, r: ImageRequest, now: Time)
    requires ValidImageRequest(r) && r.idempotency.Some?
    requires FindIdempotent(t, r.owner, r.idempotency.value) == Ok(None)
    ensures var (u, answer) := CreateImageStep(t, r, now);
            && answer == Ok(|t.jobs|) && |u.jobs| == |t.jobs| + 1
            && Keyed(u.jobs[|t.jobs|], r.owner, r.idempotency.value.key)
            && u.jobs[|t.jobs|].idempotency == r.idempotency
            && (forall k: nat :: k < |t.jobs| ==> !Keyed(t.jobs[k], r.owner, r.idempotency.value.key))
  {
    hide InsertInputs;
  }

  /** Creation is idempotent end to end: once a request with a key was answered with a job, then after
      any run a request of the same owner under the same key is answered with that job if it carries the
      same fingerprint and conflicts otherwise, and either way nothing changes. */
  lemma CreatedOnce(t: Tables, r: ImageRequest, now: Time, events: seq<Event>, again: ImageRequest, later: Time)
    requires Inv(t) && ValidImageRequest(r) && r.idempotency.Some? && ValidImageRequest(again) && again.idempotency.Some?
    requires again.owner == r.owner && again.idempotency.value.key == r.idempotency.value.key
    requires CreateImageStep(t, r, now).1.Ok?
    ensures var (s, first) := CreateImageStep(t, r, now);
            var u := Run(s, events);
            CreateImageStep(u, again, later)
            == (u, if again.idempotency == r.idempotency then Ok(first.value) else Err(IdempotencyConflict))
  {
    hide Inv, Guarantee, Run;
    var (s, first) := CreateImageStep(t, r, now);
    CreateImageKeeps(t, r, now);
    AnswerCarriesTheKey(t, r, now);
    hide CreateImageStep;
    ReplaysFindTheJob(s, first.value, events, again, later);
  }

  lemma AnswerCarriesTheKey(t: Tables, r: ImageRequest, now: Time)
    requires r.idempotency.Some? && CreateImageStep(t, r, now).1.Ok?
    ensures var (s, first) := CreateImageStep(t, r, now);
            && first.value < |s.jobs| && Keyed(s.jobs[first.value], r.owner, r.idempotency.value.key)
            && s.jobs[first.value].idempotency == r.idempotency
  {
    hide InsertInputs;
  }
}
