/** Every step keeps the invariant and the guarantee, for arbitrary clock values, and so does every
    run.  Steps are grouped by what they change: a job together with its running attempt, a job
    alone, a new attempt, a new job, retention.
  */
module Preservation {
  import opened Rows
  import opened Sets
  import opened Slots
  import opened Steps
  import opened AttemptLedger
  import opened Invariants

  // ---------------------------------------------------------------- a job and its running attempt

  /** The two tables after a job and its running attempt were rewritten together. */
  lemma RewriteRows(t: Tables, a: nat, job: Job, attempt: Attempt)
    requires Inv(t)
    requires a < |t.attempts| && t.attempts[a].status.Running? && t.attempts[a].job < |t.jobs|
    requires JobEvolves(t.jobs[t.attempts[a].job], job) && AttemptEvolves(t.attempts[a], attempt)
    requires Agree(job.status, attempt.status) && UsedFits(job, Used(t.attempts, attempt.job))
    requires JobFits(job) && AttemptRowFits(attempt) && InStep(job, attempt)
    ensures LedgerFits(t.jobs[attempt.job := job], t.attempts[a := attempt])
    ensures RowsFit(t.jobs[attempt.job := job], t.attempts[a := attempt])
    ensures JobsEvolve(t.jobs, t.jobs[attempt.job := job]) && AttemptsEvolve(t.attempts, t.attempts[a := attempt])
  {
    var jobs, attempts := t.jobs[attempt.job := job], t.attempts[a := attempt];
    CloseTogether(t.jobs, t.attempts, a, job, attempt);
    forall b: nat | b < |attempts|
      ensures attempts[b].job < |jobs| && InStep(jobs[attempts[b].job], attempts[b])
    {
      assert InStep(t.jobs[t.attempts[b].job], t.attempts[b]);
      if b != a && t.attempts[b].job == attempt.job {
        LatestIsUnique(t.jobs, t.attempts, a, b);
      }
    }
  }

  lemma RewritePair(t: Tables, u: Tables, a: nat, job: Job, attempt: Attempt)
    requires Inv(t)
    requires a < |t.attempts| && t.attempts[a].status.Running? && t.attempts[a].job < |t.jobs|
    requires JobEvolves(t.jobs[t.attempts[a].job], job) && AttemptEvolves(t.attempts[a], attempt)
    requires u == t.(jobs := t.jobs[attempt.job := job], attempts := t.attempts[a := attempt])
    requires Agree(job.status, attempt.status) && UsedFits(job, Used(t.attempts, attempt.job))
    requires JobFits(job) && AttemptRowFits(attempt) && InStep(job, attempt)
    requires !Published(job) && job.outputsExpiredAt == t.jobs[attempt.job].outputsExpiredAt
    ensures Inv(u) && Guarantee(t, u)
  {
    hide Inv, LedgerFits, RowsFit, ArtifactsFit, ClaimsFit, OriginsFit, KeysFit, JobFits, UsedFits, AttemptRowFits, InStep;
    Split(t);
    RewriteRows(t, a, job, attempt);
    ArtifactsKept(t, u);
    ClaimsKept(t, u);
    OriginsKept(t.jobs, u.jobs, t.schedules, t.occurrences);
    KeysKept(t.jobs, u.jobs);
    Join(u);
  }

  /** A running attempt is the latest of a job that is running or being cancelled. */
  lemma RunningAttempt(t: Tables, a: nat)
    requires Inv(t)
    requires a < |t.attempts| && t.attempts[a].status.Running?
    ensures t.attempts[a].job < |t.jobs|
    ensures t.attempts[a].number == Used(t.attempts, t.attempts[a].job) > 0
    ensures var job := t.jobs[t.attempts[a].job];
            && (job.status.Running? || job.status.CancelRequested?)
            && UsedFits(job, t.attempts[a].number) && JobFits(job)
            && AttemptRowFits(t.attempts[a]) && InStep(job, t.attempts[a])
  {
    assert AttemptFits(t.jobs, t.attempts, a);
    CountGrows(t.attempts, a, |t.attempts|, t.attempts[a].job);
  }

  lemma Split(t: Tables)
    requires Inv(t)
    ensures LedgerFits(t.jobs, t.attempts) && RowsFit(t.jobs, t.attempts)
    ensures ArtifactsFit(t.jobs, t.attempts, t.artifacts, t.nextArtifact)
    ensures ClaimsFit(t) && OriginsFit(t.jobs, t.schedules, t.occurrences) && KeysFit(t.jobs)
  {
    hide LedgerFits, RowsFit, ArtifactsFit, ClaimsFit, OriginsFit, KeysFit;
  }

  lemma Join(t: Tables)
    requires LedgerFits(t.jobs, t.attempts) && RowsFit(t.jobs, t.attempts)
    requires ArtifactsFit(t.jobs, t.attempts, t.artifacts, t.nextArtifact)
    requires ClaimsFit(t) && OriginsFit(t.jobs, t.schedules, t.occurrences) && KeysFit(t.jobs)
    ensures Inv(t)
  {
    hide LedgerFits, RowsFit, ArtifactsFit, ClaimsFit, OriginsFit, KeysFit;
  }

  lemma GenuineClaim(t: Tables, c: Claim)
    requires Inv(t) && c in t.claims
    ensures ClaimFits(t, c)
  {
  }

  lemma JobFacts(t: Tables, j: nat)
    requires Inv(t) && j < |t.jobs|
    ensures JobFits(t.jobs[j]) && UsedFits(t.jobs[j], Used(t.attempts, j))
  {
  }

  lemma RenewKeeps(t: Tables, c: Claim, now: Time)
    requires Inv(t)
    ensures Inv(RenewStep(t, c, now).0) && Guarantee(t, RenewStep(t, c, now).0)
  {
    hide Inv, Guarantee;
    GuaranteeReflexive(t);
    var (u, r) := RenewStep(t, c, now);
    if r.Ok? {
      RunningAttempt(t, c.attempt);
      RewritePair(t, u, c.attempt, t.jobs[c.job], u.attempts[c.attempt]);
    }
  }

  lemma EncodingKeeps(t: Tables, c: Claim, ms: nat, now: Time)
    requires Inv(t)
    ensures Inv(EncodingStep(t, c, ms, now).0) && Guarantee(t, EncodingStep(t, c, ms, now).0)
  {
    hide Inv, Guarantee;
    GuaranteeReflexive(t);
    var (u, r) := EncodingStep(t, c, ms, now);
    if r.Ok? {
      RunningAttempt(t, c.attempt);
      RewritePair(t, u, c.attempt, t.jobs[c.job], u.attempts[c.attempt]);
    }
  }

  lemma ProgressKeeps(t: Tables, c: Claim, completed: nat, now: Time)
    requires Inv(t)
    ensures Inv(ProgressStep(t, c, completed, now).0) && Guarantee(t, ProgressStep(t, c, completed, now).0)
  {
    hide Inv, Guarantee;
    GuaranteeReflexive(t);
    var (u, r) := ProgressStep(t, c, completed, now);
    if r.Ok? {
      RunningAttempt(t, c.attempt);
      RewritePair(t, u, c.attempt, u.jobs[c.job], u.attempts[c.attempt]);
    }
  }

  lemma CompleteDemoKeeps(t: Tables, c: Claim, now: Time)
    requires Inv(t)
    ensures Inv(CompleteDemoStep(t, c, now).0) && Guarantee(t, CompleteDemoStep(t, c, now).0)
  {
    hide Inv, Guarantee;
    GuaranteeReflexive(t);
    var (u, r) := CompleteDemoStep(t, c, now);
    if r.Ok? {
      RunningAttempt(t, c.attempt);
      RewritePair(t, u, c.attempt, u.jobs[c.job], u.attempts[c.attempt]);
    }
  }

  lemma FinishCancelledKeeps(t: Tables, c: Claim, now: Time)
    requires Inv(t)
    ensures Inv(FinishCancelledStep(t, c, now).0) && Guarantee(t, FinishCancelledStep(t, c, now).0)
  {
    hide Inv, Guarantee;
    GuaranteeReflexive(t);
    var (u, r) := FinishCancelledStep(t, c, now);
    if r.Ok? {
      RunningAttempt(t, c.attempt);
      RewritePair(t, u, c.attempt, u.jobs[c.job], u.attempts[c.attempt]);
    }
  }

  /** The claim must be genuine: the retry decision is taken on the claim's own columns. */
  lemma FailureKeeps(t: Tables, c: Claim, kind: FailureKind, message: string, now: Time)
    requires Inv(t) && c in t.claims
    ensures Inv(FailureStep(t, c, kind, message, now).0) && Guarantee(t, FailureStep(t, c, kind, message, now).0)
  {
    hide Inv, Guarantee;
    GuaranteeReflexive(t);
    var (u, r) := FailureStep(t, c, kind, message, now);
    if r.Ok? {
      RunningAttempt(t, c.attempt);
      GenuineClaim(t, c);
      RewritePair(t, u, c.attempt, u.jobs[c.job], u.attempts[c.attempt]);
    }
  }

  lemma ReclaimKeeps(t: Tables, now: Time)
    requires Inv(t)
    ensures Inv(ReclaimStep(t, now).0) && Guarantee(t, ReclaimStep(t, now).0)
  {
    hide Inv, Guarantee;
    GuaranteeReflexive(t);
    var found := NextExpired(t, |t.attempts|, now);
    if found.Some? {
      var a, u := found.value, ReclaimStep(t, now).0;
      RunningAttempt(t, a);
      RewritePair(t, u, a, u.jobs[t.attempts[a].job], u.attempts[a]);
    }
  }

  // ---------------------------------------------------------------- publishing a manifest

  /** Publishing inserts exactly the given outputs, each for an input row of its item, each item once. */
  ghost predicate Publishes(
      artifacts: map<Slot, Artifact>, next: nat, job: nat, attempt: nat, outputs: seq<PendingOutput>, after: map<Slot, Artifact>)
  {
    && (forall s :: s in artifacts ==> s in after && after[s] == artifacts[s])
    && (forall k: nat :: k < |outputs| ==> OutputInserted(artifacts, next, job, attempt, outputs, after, k))
    && (forall s :: s in after && s !in artifacts ==>
          next <= after[s].id < next + |outputs| && s == Slot(job, Output, outputs[after[s].id - next].item))
  }

  ghost predicate OutputInserted(
      artifacts: map<Slot, Artifact>, next: nat, job: nat, attempt: nat, outputs: seq<PendingOutput>, after: map<Slot, Artifact>, k: nat)
    requires k < |outputs|
  {
    var o := outputs[k];
    && Slot(job, Input, o.item) in artifacts && artifacts[Slot(job, Input, o.item)].id == o.source
    && Slot(job, Output, o.item) !in artifacts && Slot(job, Output, o.item) in after
    && after[Slot(job, Output, o.item)] == Artifact(next + k, Some(attempt), Some(o.source), o.key)
  }

  lemma {:induction false} InsertOutputsEffect(
      artifacts: map<Slot, Artifact>, next: nat, job: nat, attempt: nat, outputs: seq<PendingOutput>, after: map<Slot, Artifact>)
    requires InsertOutputs(artifacts, next, job, attempt, outputs) == Ok(after)
    ensures Publishes(artifacts, next, job, attempt, outputs, after)
    decreases |outputs|
  {
    if outputs != [] {
      var o, rest := outputs[0], outputs[1..];
      var slot := Slot(job, Output, o.item);
      var once := artifacts[slot := Artifact(next, Some(attempt), Some(o.source), o.key)];
      InsertOutputsEffect(once, next + 1, job, attempt, rest, after);
      forall k: nat | k < |outputs|
        ensures OutputInserted(artifacts, next, job, attempt, outputs, after, k)
      {
        if k > 0 {
          assert OutputInserted(once, next + 1, job, attempt, rest, after, k - 1);
        }
      }
    }
  }

  /** n different numbers below n are all the numbers below n. */
  lemma {:induction false} Pigeonhole(items: seq<nat>, n: nat, missing: nat)
    requires |items| == n && missing < n
    requires forall k: nat :: k < n ==> items[k] < n
    requires forall k: nat, l: nat :: k < l < n ==> items[k] != items[l]
    ensures missing in items
  {
    var all, seen := Below(n), set k: nat | k < n :: items[k];
    DistinctCount(items, n);
    assert seen <= all;
    if missing !in items {
      assert seen <= all - {missing};
      SubsetSize(seen, all - {missing});
      assert false;
    }
  }

  function Below(n: nat): (s: set<nat>)
    ensures |s| == n && forall i: nat :: i in s <==> i < n
  {
    if n == 0 then {} else Below(n - 1) + {n - 1}
  }

  lemma {:induction false} DistinctCount(items: seq<nat>, n: nat)
    requires n <= |items|
    requires forall k: nat, l: nat :: k < l < |items| ==> items[k] != items[l]
    ensures |set k: nat | k < n :: items[k]| == n
  {
    if n > 0 {
      DistinctCount(items, n - 1);
      assert (set k: nat | k < n :: items[k]) == (set k: nat | k < n - 1 :: items[k]) + {items[n - 1]};
    }
  }

  /** A manifest with as many outputs as the job has inputs covers every item exactly once. */
  lemma ManifestCovers(t: Tables, c: Claim, outputs: seq<PendingOutput>, after: map<Slot, Artifact>, item: nat)
    requires Inv(t) && c.job < |t.jobs| && item < t.jobs[c.job].total
    requires |outputs| == t.jobs[c.job].total
    requires Publishes(t.artifacts, t.nextArtifact, c.job, c.attempt, outputs, after)
    ensures exists k: nat :: k < |outputs| && outputs[k].item == item
  {
    var items: seq<nat> := seq(|outputs|, k requires 0 <= k < |outputs| => outputs[k].item);
    forall k: nat | k < |items|
      ensures items[k] < |items|
    {
      assert OutputInserted(t.artifacts, t.nextArtifact, c.job, c.attempt, outputs, after, k);
      assert InputRowFits(t.jobs, Slot(c.job, Input, outputs[k].item), t.artifacts[Slot(c.job, Input, outputs[k].item)]);
    }
    forall k: nat, l: nat | k < l < |items|
      ensures items[k] != items[l]
    {
      assert OutputInserted(t.artifacts, t.nextArtifact, c.job, c.attempt, outputs, after, k);
      assert OutputInserted(t.artifacts, t.nextArtifact, c.job, c.attempt, outputs, after, l);
    }
    Pigeonhole(items, |items|, item);
    var k: nat :| k < |items| && items[k] == item;
  }

  lemma PublishedRow(t: Tables, u: Tables, c: Claim, outputs: seq<PendingOutput>, s: Slot)
    requires Inv(t) && c.job < |t.jobs| && c.job < |u.jobs| && |t.jobs| == |u.jobs|
    requires JobsEvolve(t.jobs, u.jobs) && AttemptsEvolve(t.attempts, u.attempts)
    requires u.jobs[c.job].status.Succeeded? && u.jobs[c.job].outputsExpiredAt.None?
    requires forall j: nat :: j < |t.jobs| && j != c.job ==> u.jobs[j] == t.jobs[j]
    requires t.jobs[c.job].status.Running?
    requires c.attempt < |u.attempts| && u.attempts[c.attempt].job == c.job && u.attempts[c.attempt].status.Succeeded?
    requires Publishes(t.artifacts, t.nextArtifact, c.job, c.attempt, outputs, u.artifacts)
    requires s in u.artifacts
    ensures s.kind.Input? ==> InputRowFits(u.jobs, s, u.artifacts[s])
    ensures s.kind.Output? ==> OutputRowFits(u.jobs, u.attempts, u.artifacts, s, u.artifacts[s])
  {
    assert JobEvolves(t.jobs[c.job], u.jobs[c.job]);
    if s in t.artifacts {
      assert s.kind.Input? ==> InputRowFits(t.jobs, s, t.artifacts[s]);
      assert s.kind.Output? ==> OutputRowFits(t.jobs, t.attempts, t.artifacts, s, t.artifacts[s]);
      if s.kind.Output? {
        var a := t.artifacts[s].attempt.value;
        assert AttemptEvolves(t.attempts[a], u.attempts[a]);
      }
    } else {
      var k := u.artifacts[s].id - t.nextArtifact;
      assert OutputInserted(t.artifacts, t.nextArtifact, c.job, c.attempt, outputs, u.artifacts, k);
      assert InputRowFits(t.jobs, Slot(c.job, Input, s.item), t.artifacts[Slot(c.job, Input, s.item)]);
    }
  }

  /** No two rows share an identity after publishing. */
  lemma PublishedIds(t: Tables, u: Tables, c: Claim, outputs: seq<PendingOutput>)
    requires Inv(t)
    requires Publishes(t.artifacts, t.nextArtifact, c.job, c.attempt, outputs, u.artifacts)
    requires u.nextArtifact == t.nextArtifact + |outputs|
    ensures forall s :: s in u.artifacts ==> u.artifacts[s].id < u.nextArtifact
    ensures forall r, s :: r in u.artifacts && s in u.artifacts && u.artifacts[r].id == u.artifacts[s].id ==> r == s
  {
    assert forall s :: s in t.artifacts ==> t.artifacts[s].id < t.nextArtifact;
    assert forall r, s :: r in t.artifacts && s in t.artifacts && t.artifacts[r].id == t.artifacts[s].id ==> r == s;
    hide Inv, OutputInserted;
  }

  lemma PublishedArtifacts(t: Tables, u: Tables, c: Claim, outputs: seq<PendingOutput>)
    requires Inv(t) && c.job < |t.jobs| && |t.jobs| == |u.jobs| && t.jobs[c.job].status.Running?
    requires JobsEvolve(t.jobs, u.jobs) && AttemptsEvolve(t.attempts, u.attempts)
    requires u.jobs[c.job].status.Succeeded? && u.jobs[c.job].outputsExpiredAt.None?
    requires forall j: nat :: j < |t.jobs| && j != c.job ==> u.jobs[j] == t.jobs[j]
    requires c.attempt < |u.attempts| && u.attempts[c.attempt].job == c.job && u.attempts[c.attempt].status.Succeeded?
    requires Publishes(t.artifacts, t.nextArtifact, c.job, c.attempt, outputs, u.artifacts)
    requires |outputs| == t.jobs[c.job].total && u.nextArtifact == t.nextArtifact + |outputs|
    ensures ArtifactsFit(u.jobs, u.attempts, u.artifacts, u.nextArtifact)
  {
    forall s | s in u.artifacts
      ensures s.kind.Input? ==> InputRowFits(u.jobs, s, u.artifacts[s])
      ensures s.kind.Output? ==> OutputRowFits(u.jobs, u.attempts, u.artifacts, s, u.artifacts[s])
    {
      PublishedRow(t, u, c, outputs, s);
    }
    PublishedIds(t, u, c, outputs);
    assert JobEvolves(t.jobs[c.job], u.jobs[c.job]);
    forall i: nat | i < t.jobs[c.job].total
      ensures Slot(c.job, Output, i) in u.artifacts
    {
      ManifestCovers(t, c, outputs, u.artifacts, i);
      var k: nat :| k < |outputs| && outputs[k].item == i;
      assert OutputInserted(t.artifacts, t.nextArtifact, c.job, c.attempt, outputs, u.artifacts, k);
    }
    forall j: nat, i: nat | IsImage(u.jobs, j) && i < u.jobs[j].total
      ensures Slot(j, Input, i) in u.artifacts
    {
      assert IsImage(t.jobs, j);
    }
  }

  lemma CompleteImageKeeps(t: Tables, c: Claim, outputs: seq<PendingOutput>, now: Time)
    requires Inv(t) && c in t.claims
    ensures Inv(CompleteImageStep(t, c, outputs, now).0) && Guarantee(t, CompleteImageStep(t, c, outputs, now).0)
  {
    hide Inv, Guarantee, InsertOutputs;
    GuaranteeReflexive(t);
    var (u, r) := CompleteImageStep(t, c, outputs, now);
    if r.Ok? {
      RunningAttempt(t, c.attempt);
      RewriteRows(t, c.attempt, u.jobs[c.job], u.attempts[c.attempt]);
      InsertOutputsEffect(t.artifacts, t.nextArtifact, c.job, c.attempt, outputs, u.artifacts);
      GenuineClaim(t, c);
      JobFacts(t, c.job);
      PublishedArtifacts(t, u, c, outputs);
      PublishedKeeps(t, u);
    }
  }

  /** The remaining parts of the invariant need only that rows evolved and input rows stayed. */
  lemma PublishedKeeps(t: Tables, u: Tables)
    requires Inv(t)
    requires LedgerFits(u.jobs, u.attempts) && RowsFit(u.jobs, u.attempts)
    requires ArtifactsFit(u.jobs, u.attempts, u.artifacts, u.nextArtifact)
    requires JobsEvolve(t.jobs, u.jobs) && AttemptsEvolve(t.attempts, u.attempts) && |u.jobs| == |t.jobs|
    requires forall s :: s in t.artifacts ==> s in u.artifacts && u.artifacts[s] == t.artifacts[s]
    requires forall s :: s in u.artifacts && s !in t.artifacts ==> s.kind.Output?
    requires u.claims == t.claims && u.schedules == t.schedules && u.occurrences == t.occurrences
    ensures Inv(u) && Guarantee(t, u)
  {
    hide LedgerFits, RowsFit, ArtifactsFit;
    ClaimsKept(t, u);
    OriginsKept(t.jobs, u.jobs, t.schedules, t.occurrences);
    KeysKept(t.jobs, u.jobs);
  }

  // ---------------------------------------------------------------- a job alone

  lemma RewriteJob(t: Tables, u: Tables, j: nat, job: Job)
    requires Inv(t) && j < |t.jobs|
    requires u == t.(jobs := t.jobs[j := job])
    requires JobEvolves(t.jobs[j], job) && JobFits(job) && UsedFits(job, Used(t.attempts, j))
    requires forall s: AttemptStatus :: Agree(t.jobs[j].status, s) ==> Agree(job.status, s)
    requires job.progress == t.jobs[j].progress && !Published(job) && job.outputsExpiredAt == t.jobs[j].outputsExpiredAt
    ensures Inv(u) && Guarantee(t, u)
  {
    hide Inv, LedgerFits, RowsFit, ArtifactsFit, ClaimsFit, OriginsFit, KeysFit, JobFits, UsedFits;
    Split(t);
    RestateJob(t.jobs, t.attempts, j, job);
    RestatedRows(t, j, job);
    ArtifactsKept(t, u);
    ClaimsKept(t, u);
    OriginsKept(t.jobs, u.jobs, t.schedules, t.occurrences);
    KeysKept(t.jobs, u.jobs);
    Join(u);
  }

  lemma RestatedRows(t: Tables, j: nat, job: Job)
    requires Inv(t) && j < |t.jobs| && JobFits(job) && job.progress == t.jobs[j].progress && job.total == t.jobs[j].total
    ensures RowsFit(t.jobs[j := job], t.attempts)
  {
    assert RowsFit(t.jobs, t.attempts);
    hide Inv, JobFits, AttemptRowFits;
    forall b: nat | b < |t.attempts|
      ensures t.attempts[b].job < |t.jobs| && InStep(t.jobs[j := job][t.attempts[b].job], t.attempts[b])
    {
      assert InStep(t.jobs[t.attempts[b].job], t.attempts[b]);
    }
  }

  lemma RequestCancelKeeps(t: Tables, job: nat, owner: Option<nat>, now: Time)
    requires Inv(t)
    ensures Inv(RequestCancelStep(t, job, owner, now).0) && Guarantee(t, RequestCancelStep(t, job, owner, now).0)
  {
    hide Inv, Guarantee;
    GuaranteeReflexive(t);
    var (u, r) := RequestCancelStep(t, job, owner, now);
    if r.Ok? && r.value.Some? {
      JobFacts(t, job);
      RewriteJob(t, u, job, u.jobs[job]);
    }
  }

  // ---------------------------------------------------------------- a new attempt

  /** The number of the next attempt is one more than the attempts used, and never exceeds the
      limit, so claiming cannot fail for lack of attempts. */
  lemma NextNumber(t: Tables, j: nat)
    requires Inv(t) && j < |t.jobs|
    ensures MaxNumber(t.attempts, |t.attempts|, j) == Used(t.attempts, j)
    ensures t.jobs[j].status.Queued? || t.jobs[j].status.RetryWaiting? ==> Used(t.attempts, j) < t.jobs[j].maxAttempts
  {
    forall a: nat | a < |t.attempts|
      ensures t.attempts[a].number == Count(t.attempts, a, t.attempts[a].job) + 1
    {
      assert AttemptFits(t.jobs, t.attempts, a);
    }
    MaxNumberIsCount(t.attempts, |t.attempts|, j);
    assert UsedFits(t.jobs[j], Used(t.attempts, j)) && JobFits(t.jobs[j]);
  }

  lemma StartedRows(t: Tables, j: nat, job: Job, attempt: Attempt)
    requires Inv(t) && j < |t.jobs| && (t.jobs[j].status.Queued? || t.jobs[j].status.RetryWaiting?)
    requires JobEvolves(t.jobs[j], job) && job.status.Running? && JobFits(job) && job.progress == 0
    requires attempt.job == j && attempt.status.Running? && AttemptRowFits(attempt)
    requires attempt.number == Used(t.attempts, j) + 1 <= job.maxAttempts && attempt.total == job.total && attempt.progress == 0
    ensures LedgerFits(t.jobs[j := job], t.attempts + [attempt])
    ensures RowsFit(t.jobs[j := job], t.attempts + [attempt])
  {
    var jobs, attempts := t.jobs[j := job], t.attempts + [attempt];
    StartNext(t.jobs, t.attempts, j, job, attempt);
    forall b: nat | b < |attempts|
      ensures attempts[b].job < |jobs| && InStep(jobs[attempts[b].job], attempts[b])
    {
      if b < |t.attempts| {
        assert InStep(t.jobs[t.attempts[b].job], t.attempts[b]) && AttemptFits(t.jobs, t.attempts, b);
      }
    }
  }

  lemma StartAttempt(t: Tables, u: Tables, j: nat, job: Job, attempt: Attempt, c: Claim)
    requires Inv(t) && j < |t.jobs| && (t.jobs[j].status.Queued? || t.jobs[j].status.RetryWaiting?)
    requires JobEvolves(t.jobs[j], job) && job.status.Running? && JobFits(job) && job.progress == 0
    requires job.outputsExpiredAt == t.jobs[j].outputsExpiredAt
    requires attempt.job == j && attempt.status.Running? && AttemptRowFits(attempt)
    requires attempt.number == Used(t.attempts, j) + 1 <= job.maxAttempts && attempt.total == job.total && attempt.progress == 0
    requires u == t.(jobs := t.jobs[j := job], attempts := t.attempts + [attempt], claims := t.claims + {c})
    requires c.attempt == |t.attempts| && ClaimFits(u, c)
    ensures Inv(u) && Guarantee(t, u)
  {
    hide Inv, LedgerFits, RowsFit, ArtifactsFit, ClaimsFit, OriginsFit, KeysFit, JobFits, AttemptRowFits, ClaimFits;
    Split(t);
    StartedRows(t, j, job, attempt);
    ArtifactsKept(t, u);
    OriginsKept(t.jobs, u.jobs, t.schedules, t.occurrences);
    KeysKept(t.jobs, u.jobs);
    OneMoreClaim(t, u, c);
    Join(u);
  }

  lemma OneMoreClaim(t: Tables, u: Tables, c: Claim)
    requires ClaimsFit(t) && Guarantee(t, u) && u.claims == t.claims + {c}
    requires c.attempt == |t.attempts| && ClaimFits(u, c)
    ensures ClaimsFit(u)
  {
    var v := u.(claims := t.claims);
    assert Guarantee(t, v);
    ClaimsKept(t, v);
    hide Guarantee, LoadInputs;
    forall d | d in t.claims
      ensures ClaimFits(u, d) && d.attempt != c.attempt
    {
      assert ClaimFits(t, d) && ClaimFits(v, d);
    }
  }

  lemma ClaimKeeps(t: Tables, worker: nat, now: Time, token: nat)
    requires Inv(t)
    ensures Inv(ClaimStep(t, worker, now, token).0) && Guarantee(t, ClaimStep(t, worker, now, token).0)
  {
    hide Inv, Guarantee;
    GuaranteeReflexive(t);
    var (u, r) := ClaimStep(t, worker, now, token);
    if r.Ok? && r.value.Some? {
      var c, j := r.value.value, r.value.value.job;
      NextNumber(t, j);
      JobFacts(t, j);
      if t.jobs[j].work.ImageResize? {
        InputsOfImage(t, j);
      }
      StartAttempt(t, u, j, u.jobs[j], u.attempts[c.attempt], c);
    }
  }

  /** The input rows of an image job are its items 0 to total - 1. */
  lemma InputsOfImage(t: Tables, j: nat)
    requires Inv(t) && IsImage(t.jobs, j)
    ensures forall i: nat :: Slot(j, Input, i) in t.artifacts <==> i < t.jobs[j].total
    ensures |LoadInputs(t.artifacts, j, MAX_FILES_PER_JOB)| == t.jobs[j].total
  {
    forall i: nat
      ensures Slot(j, Input, i) in t.artifacts <==> i < t.jobs[j].total
    {
      if Slot(j, Input, i) in t.artifacts {
        assert InputRowFits(t.jobs, Slot(j, Input, i), t.artifacts[Slot(j, Input, i)]);
      }
    }
    assert JobFits(t.jobs[j]);
    LoadInputsInOrder(t.artifacts, j, t.jobs[j].total, MAX_FILES_PER_JOB);
  }

  // ---------------------------------------------------------------- a new job

  lemma {:induction false} InsertInputsEffect(artifacts: map<Slot, Artifact>, next: nat, job: nat, files: seq<InputFile>, n: nat)
    requires n <= |files|
    ensures var after := InsertInputs(artifacts, next, job, files, n);
            && (forall i: nat :: i < n ==> Slot(job, Input, i) in after)
            && (forall i: nat :: i < n ==>
                  after[Slot(job, Input, i)] == Artifact(next + i, None, None, InputKey(files[i].batch, files[i].file)))
            && (forall s :: s in artifacts && !(s.job == job && s.kind.Input?) ==> s in after && after[s] == artifacts[s])
            && (forall s :: s in after ==> s in artifacts || (s.job == job && s.kind.Input? && s.item < n))
  {
    if n > 0 {
      InsertInputsEffect(artifacts, next, job, files, n - 1);
    }
  }

  /** The state of a copy of the first m inputs of a job. */
  ghost predicate Copied(artifacts: map<Slot, Artifact>, next: nat, from: nat, to: nat, m: nat, after: map<Slot, Artifact>)
    requires forall i: nat :: i < m ==> Slot(from, Input, i) in artifacts
  {
    && (forall i: nat :: i < m ==> Slot(to, Input, i) in after)
    && (forall i: nat :: i < m ==>
          after[Slot(to, Input, i)] == Artifact(next + i, None, None, artifacts[Slot(from, Input, i)].key))
    && (forall s :: s in artifacts && !(s.job == to && s.kind.Input?) ==> s in after && after[s] == artifacts[s])
    && (forall s :: s in after ==> s in artifacts || (s.job == to && s.kind.Input? && s.item < m))
  }

  lemma OneMoreCopy(artifacts: map<Slot, Artifact>, next: nat, from: nat, to: nat, m: nat, after: map<Slot, Artifact>)
    requires forall i: nat :: i <= m ==> Slot(from, Input, i) in artifacts
    requires Copied(artifacts, next, from, to, m, after)
    ensures Copied(artifacts, next, from, to, m + 1,
                   after[Slot(to, Input, m) := Artifact(next + m, None, None, artifacts[Slot(from, Input, m)].key)])
  {
  }

  lemma {:induction false} CopyInputsEffect(artifacts: map<Slot, Artifact>, next: nat, from: nat, to: nat, total: nat, n: nat)
    requires from != to && forall i: nat :: Slot(from, Input, i) in artifacts <==> i < total
    ensures var (after, id) := CopyInputs(artifacts, next, from, to, n);
            var m := if n < total then n else total;
            id == next + m && Copied(artifacts, next, from, to, m, after)
  {
    hide Copied;
    if n == 0 {
      NoCopies(artifacts, next, from, to);
    } else {
      CopyInputsEffect(artifacts, next, from, to, total, n - 1);
      if n <= total {
        OneMoreCopy(artifacts, next, from, to, n - 1, CopyInputs(artifacts, next, from, to, n - 1).0);
      }
    }
  }

  lemma NoCopies(artifacts: map<Slot, Artifact>, next: nat, from: nat, to: nat)
    ensures Copied(artifacts, next, from, to, 0, artifacts)
  {
  }

  /** The rows added for a new job are the input rows of its items, with fresh identities. */
  ghost predicate AddsInputs(t: Tables, u: Tables, job: Job) {
    var n := if job.work.ImageResize? then job.total else 0;
    && u.nextArtifact == t.nextArtifact + n
    && (forall i: nat :: i < n ==>
          && Slot(|t.jobs|, Input, i) in u.artifacts
          && u.artifacts[Slot(|t.jobs|, Input, i)].id == t.nextArtifact + i
          && InputRowFits(t.jobs + [job], Slot(|t.jobs|, Input, i), u.artifacts[Slot(|t.jobs|, Input, i)]))
    && (forall s :: s in t.artifacts ==> s in u.artifacts && u.artifacts[s] == t.artifacts[s])
    && (forall s :: s in u.artifacts && s !in t.artifacts ==> s.job == |t.jobs| && s.kind.Input? && s.item < n)
  }

  /** No artifact row names a job that does not exist yet. */
  lemma NoRowsYet(t: Tables)
    requires Inv(t)
    ensures forall s :: s in t.artifacts ==> s.job < |t.jobs|
  {
    forall s | s in t.artifacts
      ensures s.job < |t.jobs|
    {
      if s.kind.Input? {
        assert InputRowFits(t.jobs, s, t.artifacts[s]);
      } else {
        assert OutputRowFits(t.jobs, t.attempts, t.artifacts, s, t.artifacts[s]);
      }
    }
  }

  lemma AddedRow(t: Tables, u: Tables, job: Job, s: Slot)
    requires ArtifactsFit(t.jobs, t.attempts, t.artifacts, t.nextArtifact) && s in u.artifacts
    requires u.jobs == t.jobs + [job] && u.attempts == t.attempts && AddsInputs(t, u, job)
    ensures s.kind.Input? ==> InputRowFits(u.jobs, s, u.artifacts[s])
    ensures s.kind.Output? ==> OutputRowFits(u.jobs, u.attempts, u.artifacts, s, u.artifacts[s])
  {
    hide ArtifactsFit;
    if s in t.artifacts {
      RowBefore(t, s);
    }
  }

  lemma AddedItems(t: Tables, u: Tables, job: Job)
    requires ArtifactsFit(t.jobs, t.attempts, t.artifacts, t.nextArtifact) && job.status.Queued?
    requires u.jobs == t.jobs + [job] && AddsInputs(t, u, job)
    ensures forall j: nat, i: nat :: IsImage(u.jobs, j) && i < u.jobs[j].total ==> Slot(j, Input, i) in u.artifacts
    ensures forall j: nat, i: nat :: j < |u.jobs| && Published(u.jobs[j]) && i < u.jobs[j].total ==> Slot(j, Output, i) in u.artifacts
  {
    hide InputRowFits, OutputRowFits;
    forall j: nat, i: nat | IsImage(u.jobs, j) && i < u.jobs[j].total
      ensures Slot(j, Input, i) in u.artifacts
    {
      if j < |t.jobs| {
        assert IsImage(t.jobs, j);
      }
    }
  }

  lemma AddedIdentities(t: Tables, u: Tables, job: Job)
    requires ArtifactsFit(t.jobs, t.attempts, t.artifacts, t.nextArtifact) && AddsInputs(t, u, job)
    ensures forall s :: s in u.artifacts ==> u.artifacts[s].id < u.nextArtifact
    ensures forall r, s :: r in u.artifacts && s in u.artifacts && u.artifacts[r].id == u.artifacts[s].id ==> r == s
  {
    hide InputRowFits, OutputRowFits, IsImage, Published;
  }

  lemma AddedArtifacts(t: Tables, u: Tables, job: Job)
    requires Inv(t) && job.status.Queued?
    requires u.jobs == t.jobs + [job] && u.attempts == t.attempts && AddsInputs(t, u, job)
    ensures ArtifactsFit(u.jobs, u.attempts, u.artifacts, u.nextArtifact)
  {
    hide Inv, AddsInputs, InputRowFits, OutputRowFits, IsImage, Published;
    Split(t);
    AddedItems(t, u, job);
    AddedIdentities(t, u, job);
    forall s | s in u.artifacts
      ensures s.kind.Input? ==> InputRowFits(u.jobs, s, u.artifacts[s])
      ensures s.kind.Output? ==> OutputRowFits(u.jobs, u.attempts, u.artifacts, s, u.artifacts[s])
    {
      AddedRow(t, u, job, s);
    }
  }

  /** Everything but the uniqueness of schedules and keys, for a new queued job. */
  lemma AddedJob(t: Tables, u: Tables, job: Job)
    requires Inv(t) && job.status.Queued? && JobFits(job)
    requires u.jobs == t.jobs + [job] && u.attempts == t.attempts && u.claims == t.claims && AddsInputs(t, u, job)
    requires t.occurrences <= u.occurrences && |t.schedules| <= |u.schedules|
    requires forall i: nat :: i < |t.schedules| ==> u.schedules[i].inputs == t.schedules[i].inputs
    ensures LedgerFits(u.jobs, u.attempts) && RowsFit(u.jobs, u.attempts)
    ensures ArtifactsFit(u.jobs, u.attempts, u.artifacts, u.nextArtifact)
    ensures Guarantee(t, u) && ClaimsFit(u)
  {
    AddJob(t.jobs, t.attempts, job);
    AddedArtifacts(t, u, job);
    NoRowsYet(t);
    forall b: nat | b < |t.attempts|
      ensures u.attempts[b].job < |u.jobs| && InStep(u.jobs[t.attempts[b].job], t.attempts[b])
    {
      assert InStep(t.jobs[t.attempts[b].job], t.attempts[b]);
    }
    ClaimsKept(t, u);
  }

  lemma AddedJobKeeps(t: Tables, u: Tables, job: Job)
    requires Inv(t) && job.status.Queued? && JobFits(job)
    requires u.jobs == t.jobs + [job] && u.attempts == t.attempts && u.claims == t.claims && AddsInputs(t, u, job)
    requires t.occurrences <= u.occurrences && |t.schedules| <= |u.schedules|
    requires forall i: nat :: i < |t.schedules| ==> u.schedules[i].inputs == t.schedules[i].inputs
    requires OriginsFit(u.jobs, u.schedules, u.occurrences) && KeysFit(u.jobs)
    ensures Inv(u) && Guarantee(t, u)
  {
    AddedJob(t, u, job);
  }

  /** A job of no schedule and with no key leaves the uniqueness of both alone. */
  lemma PlainJob(t: Tables, job: Job)
    requires Inv(t) && job.status.Queued? && job.origin.None?
    ensures OriginsFit(t.jobs + [job], t.schedules, t.occurrences)
    ensures job.idempotency.None? ==> KeysFit(t.jobs + [job])
  {
    OriginsKept(t.jobs, t.jobs + [job], t.schedules, t.occurrences);
    if job.idempotency.None? {
      KeysKept(t.jobs, t.jobs + [job]);
    }
  }

  lemma CreateDemoKeeps(t: Tables, now: Time)
    requires Inv(t)
    ensures Inv(CreateDemoStep(t, now).0) && Guarantee(t, CreateDemoStep(t, now).0)
  {
    hide Inv, Guarantee;
    var u := CreateDemoStep(t, now).0;
    PlainJob(t, u.jobs[|t.jobs|]);
    AddedJobKeeps(t, u, u.jobs[|t.jobs|]);
  }

  lemma FreshKey(jobs: seq<Job>, job: Job)
    requires KeysFit(jobs)
    requires job.idempotency.Some? ==> ValidIdempotency(job.idempotency.value)
    requires forall j: nat :: j < |jobs| ==> !SameRequest(jobs[j], job)
    ensures KeysFit(jobs + [job])
  {
    var after := jobs + [job];
    forall j: nat, k: nat | j < |after| && k < |after| && SameRequest(after[j], after[k])
      ensures j == k
    {
      if j < |jobs| && k < |jobs| {
        assert SameRequest(jobs[j], jobs[k]);
      }
    }
  }

  lemma CreateImageKeeps(t: Tables, r: ImageRequest, now: Time)
    requires Inv(t)
    ensures Inv(CreateImageStep(t, r, now).0) && Guarantee(t, CreateImageStep(t, r, now).0)
  {
    hide Inv, Guarantee, LedgerFits, RowsFit, ArtifactsFit, ClaimsFit, OriginsFit, KeysFit, InsertInputs;
    Split(t);
    GuaranteeReflexive(t);
    var u := CreateImageStep(t, r, now).0;
    if u != t {
      var job := u.jobs[|t.jobs|];
      InsertInputsEffect(t.artifacts, t.nextArtifact, |t.jobs|, r.inputs, |r.inputs|);
      NoRowsYet(t);
      PlainJob(t, job);
      FreshKey(t.jobs, job);
      AddedJobKeeps(t, u, job);
    }
  }

  lemma CopiedInputs(t: Tables, u: Tables, job: nat, copy: Job)
    requires Inv(t) && job < |t.jobs| && copy.work == t.jobs[job].work && copy.total == t.jobs[job].total
    requires (u.artifacts, u.nextArtifact) == CopyInputs(t.artifacts, t.nextArtifact, job, |t.jobs|, MAX_FILES_PER_JOB)
    ensures AddsInputs(t, u, copy)
  {
    NoRowsYet(t);
    JobFacts(t, job);
    var total := if t.jobs[job].work.ImageResize? then t.jobs[job].total else 0;
    forall i: nat
      ensures Slot(job, Input, i) in t.artifacts <==> i < total
    {
      if t.jobs[job].work.ImageResize? {
        InputsOfImage(t, job);
      } else {
        NoDemoInputs(t, job, i);
      }
    }
    CopyInputsEffect(t.artifacts, t.nextArtifact, job, |t.jobs|, total, MAX_FILES_PER_JOB);
    forall i: nat | i < total
      ensures InputRowFits(t.jobs + [copy], Slot(|t.jobs|, Input, i), u.artifacts[Slot(|t.jobs|, Input, i)])
    {
      assert InputRowFits(t.jobs, Slot(job, Input, i), t.artifacts[Slot(job, Input, i)]);
    }
  }

  lemma NoDemoInputs(t: Tables, job: nat, i: nat)
    requires Inv(t) && job < |t.jobs| && t.jobs[job].work.DemoDelay?
    ensures Slot(job, Input, i) !in t.artifacts
  {
    assert Slot(job, Input, i) in t.artifacts ==> InputRowFits(t.jobs, Slot(job, Input, i), t.artifacts[Slot(job, Input, i)]);
  }

  lemma ManualRetryKeeps(t: Tables, job: nat, owner: Option<nat>, now: Time)
    requires Inv(t)
    ensures Inv(ManualRetryStep(t, job, owner, now).0) && Guarantee(t, ManualRetryStep(t, job, owner, now).0)
  {
    hide Inv, Guarantee, CopyInputs;
    GuaranteeReflexive(t);
    var (u, r) := ManualRetryStep(t, job, owner, now);
    if r.Ok? && r.value.Some? {
      JobFacts(t, job);
      CopiedInputs(t, u, job, u.jobs[|t.jobs|]);
      PlainJob(t, u.jobs[|t.jobs|]);
      AddedJobKeeps(t, u, u.jobs[|t.jobs|]);
    }
  }

  lemma DueSchedule(t: Tables, i: nat)
    requires Inv(t) && i < |t.schedules|
    ensures ScheduleFits(t.schedules[i])
  {
  }

  /** A recorded slot keeps the schedules right: the job it may create is its schedule's only active one. */
  lemma RecordedSlot(t: Tables, i: nat, s: Schedule, occurrence: Occurrence, job: Job)
    requires Inv(t) && i < |t.schedules| && ScheduleFits(s)
    requires occurrence.schedule == i && job.origin == Some(Origin(i, occurrence.slot))
    ensures occurrence.job.None? ==> OriginsFit(t.jobs, t.schedules[i := s], t.occurrences + [occurrence])
    ensures occurrence.job == Some(|t.jobs|) && !Overlaps(t.jobs, i)
            ==> OriginsFit(t.jobs + [job], t.schedules[i := s], t.occurrences + [occurrence])
  {
    if occurrence.job == Some(|t.jobs|) && !Overlaps(t.jobs, i) {
      assert forall j: nat :: j < |t.jobs| ==> !ActiveFor(t.jobs[j], i);
      var jobs := t.jobs + [job];
      forall h: nat, j: nat, k: nat | j < |jobs| && k < |jobs| && ActiveFor(jobs[j], h) && ActiveFor(jobs[k], h)
        ensures j == k
      {
        if j < |t.jobs| && k < |t.jobs| {
          assert ActiveFor(t.jobs[j], h) && ActiveFor(t.jobs[k], h);
        }
      }
    }
  }

  lemma SkippedTickKeeps(t: Tables, u: Tables)
    requires Inv(t)
    requires u == t.(schedules := u.schedules, occurrences := u.occurrences)
    requires t.occurrences <= u.occurrences && |t.schedules| <= |u.schedules|
    requires forall i: nat :: i < |t.schedules| ==> u.schedules[i].inputs == t.schedules[i].inputs
    requires OriginsFit(u.jobs, u.schedules, u.occurrences)
    ensures Inv(u) && Guarantee(t, u)
  {
    ClaimsKept(t, u);
  }

  lemma CreatedTickKeeps(t: Tables, u: Tables, i: nat, s: Schedule, occurrence: Occurrence, job: Job)
    requires Inv(t) && i < |t.schedules| && ScheduleFits(s) && s.inputs == t.schedules[i].inputs
    requires occurrence.schedule == i && occurrence.job == Some(|t.jobs|) && !Overlaps(t.jobs, i)
    requires job == OccurrenceJob(t.schedules[i], i, occurrence.slot) && ScheduleFits(t.schedules[i])
    requires u == t.(jobs := t.jobs + [job],
                     artifacts := InsertInputs(t.artifacts, t.nextArtifact, |t.jobs|, s.inputs, |s.inputs|),
                     nextArtifact := t.nextArtifact + |s.inputs|,
                     schedules := t.schedules[i := s],
                     occurrences := t.occurrences + [occurrence])
    ensures Inv(u) && Guarantee(t, u)
  {
    hide Inv, Guarantee, LedgerFits, RowsFit, ArtifactsFit, ClaimsFit, OriginsFit, KeysFit, InsertInputs, Overlaps;
    Split(t);
    RecordedSlot(t, i, s, occurrence, job);
    InsertInputsEffect(t.artifacts, t.nextArtifact, |t.jobs|, s.inputs, |s.inputs|);
    NoRowsYet(t);
    KeysKept(t.jobs, u.jobs);
    AddedJobKeeps(t, u, job);
  }

  lemma TickKeeps(t: Tables, now: Time)
    requires Inv(t)
    ensures Inv(TickStep(t, now).0) && Guarantee(t, TickStep(t, now).0)
  {
    hide Inv, Guarantee, OriginsFit, InsertInputs, LatestDueSlot, Overlaps, SlotRecorded;
    GuaranteeReflexive(t);
    var (u, r) := TickStep(t, now);
    if r.Ok? && r.value.Some? {
      var i := r.value.value.schedule;
      var s, n := u.schedules[i], |t.occurrences|;
      DueSchedule(t, i);
      var job := OccurrenceJob(t.schedules[i], i, r.value.value.slot);
      if r.value.value.job.Some? {
        CreatedTickKeeps(t, u, i, s, u.occurrences[n], job);
      } else {
        RecordedSlot(t, i, s, u.occurrences[n], job);
        SkippedTickKeeps(t, u);
      }
    }
  }

  // ---------------------------------------------------------------- retention

  lemma ExpiredJobs(t: Tables, retentionSeconds: nat, now: Time)
    requires Inv(t)
    ensures var u := ExpireStep(t, retentionSeconds, now).0;
            && u == t.(jobs := u.jobs, artifacts := u.artifacts)
            && JobsEvolve(t.jobs, u.jobs) && |u.jobs| == |t.jobs|
            && (forall j: nat :: j < |t.jobs| ==> JobFits(u.jobs[j]) && u.jobs[j].(outputsExpiredAt := None) == t.jobs[j].(outputsExpiredAt := None))
  {
    hide Inv, JobFits, JobEvolves, PastRetention, UsedFits;
    var u := ExpireStep(t, retentionSeconds, now).0;
    forall j: nat | j < |t.jobs|
      ensures JobEvolves(t.jobs[j], u.jobs[j]) && JobFits(u.jobs[j])
      ensures u.jobs[j].(outputsExpiredAt := None) == t.jobs[j].(outputsExpiredAt := None)
    {
      JobFacts(t, j);
      StampedJob(t.jobs[j], retentionSeconds, now);
    }
  }

  lemma StampedJob(job: Job, retentionSeconds: nat, now: Time)
    requires JobFits(job)
    ensures JobEvolves(job, StampExpired(job, retentionSeconds, now)) && JobFits(StampExpired(job, retentionSeconds, now))
  {
  }

  /** Jobs that differ in their retention stamp only agree with the same attempts. */
  lemma StampedLedger(t: Tables, jobs: seq<Job>)
    requires Inv(t) && |jobs| == |t.jobs|
    requires forall j: nat :: j < |t.jobs| ==> JobFits(jobs[j]) && jobs[j].(outputsExpiredAt := None) == t.jobs[j].(outputsExpiredAt := None)
    ensures LedgerFits(jobs, t.attempts) && RowsFit(jobs, t.attempts)
  {
    assert LedgerFits(t.jobs, t.attempts) && RowsFit(t.jobs, t.attempts);
    hide Inv, JobFits, AttemptRowFits;
    forall j: nat | j < |t.jobs|
      ensures UsedFits(jobs[j], Used(t.attempts, j))
    {
      assert UsedFits(t.jobs[j], Used(t.attempts, j));
    }
    forall a: nat | a < |t.attempts|
      ensures AttemptFits(jobs, t.attempts, a) && InStep(jobs[t.attempts[a].job], t.attempts[a])
    {
      assert AttemptFits(t.jobs, t.attempts, a) && InStep(t.jobs[t.attempts[a].job], t.attempts[a]);
    }
  }

  lemma ExpiredRow(t: Tables, retentionSeconds: nat, now: Time, s: Slot)
    requires ArtifactsFit(t.jobs, t.attempts, t.artifacts, t.nextArtifact)
    requires s in ExpireStep(t, retentionSeconds, now).0.artifacts
    ensures var u := ExpireStep(t, retentionSeconds, now).0;
            && s in t.artifacts && u.artifacts[s] == t.artifacts[s]
            && (s.kind.Input? ==> InputRowFits(u.jobs, s, u.artifacts[s]))
            && (s.kind.Output? ==> OutputRowFits(u.jobs, u.attempts, u.artifacts, s, u.artifacts[s]))
  {
    hide ArtifactsFit;
    RowBefore(t, s);
    if s.kind.Output? {
      RowBefore(t, Slot(s.job, Input, s.item));
    }
  }

  lemma RowBefore(t: Tables, s: Slot)
    requires ArtifactsFit(t.jobs, t.attempts, t.artifacts, t.nextArtifact) && s in t.artifacts
    ensures s.kind.Input? ==> InputRowFits(t.jobs, s, t.artifacts[s])
    ensures s.kind.Output? ==> OutputRowFits(t.jobs, t.attempts, t.artifacts, s, t.artifacts[s])
  {
  }

  lemma ExpiredItem(t: Tables, retentionSeconds: nat, now: Time, j: nat, i: nat)
    requires ArtifactsFit(t.jobs, t.attempts, t.artifacts, t.nextArtifact)
    requires j < |t.jobs| && i < t.jobs[j].total && (Published(t.jobs[j]) ==> JobFits(t.jobs[j]))
    ensures var u := ExpireStep(t, retentionSeconds, now).0;
            && j < |u.jobs| && u.jobs[j].total == t.jobs[j].total
            && (IsImage(u.jobs, j) ==> Slot(j, Input, i) in u.artifacts)
            && (Published(u.jobs[j]) ==> Slot(j, Output, i) in u.artifacts)
  {
    assert IsImage(t.jobs, j) ==> Slot(j, Input, i) in t.artifacts;
    assert Published(t.jobs[j]) ==> Slot(j, Output, i) in t.artifacts;
    hide ArtifactsFit;
  }

  lemma ExpiredArtifacts(t: Tables, retentionSeconds: nat, now: Time)
    requires Inv(t)
    ensures var u := ExpireStep(t, retentionSeconds, now).0;
            ArtifactsFit(u.jobs, u.attempts, u.artifacts, u.nextArtifact)
  {
    hide Inv, ExpireStep, JobFits, UsedFits, InputRowFits, OutputRowFits, Published, IsImage;
    Split(t);
    ExpiredJobs(t, retentionSeconds, now);
    var u := ExpireStep(t, retentionSeconds, now).0;
    forall s | s in u.artifacts
      ensures s in t.artifacts && u.artifacts[s] == t.artifacts[s]
      ensures s.kind.Input? ==> InputRowFits(u.jobs, s, u.artifacts[s])
      ensures s.kind.Output? ==> OutputRowFits(u.jobs, u.attempts, u.artifacts, s, u.artifacts[s])
    {
      ExpiredRow(t, retentionSeconds, now, s);
    }
    forall j: nat, i: nat | j < |t.jobs| && i < t.jobs[j].total
      ensures u.jobs[j].total == t.jobs[j].total
      ensures IsImage(u.jobs, j) ==> Slot(j, Input, i) in u.artifacts
      ensures Published(u.jobs[j]) ==> Slot(j, Output, i) in u.artifacts
    {
      JobFacts(t, j);
      ExpiredItem(t, retentionSeconds, now, j, i);
    }
    ImagesExist(u.jobs);
  }

  lemma ImagesExist(jobs: seq<Job>)
    ensures forall j: nat :: IsImage(jobs, j) ==> j < |jobs|
  {
  }

  lemma ExpiredInputs(t: Tables, retentionSeconds: nat, now: Time)
    ensures SameInputs(|t.jobs|, t.artifacts, ExpireStep(t, retentionSeconds, now).0.artifacts)
  {
  }

  /** Retention deletes all outputs of a job in the step that stamps the job. */
  lemma ExpireKeeps(t: Tables, retentionSeconds: nat, now: Time)
    requires Inv(t)
    ensures Inv(ExpireStep(t, retentionSeconds, now).0) && Guarantee(t, ExpireStep(t, retentionSeconds, now).0)
  {
    hide ExpireStep, LedgerFits, RowsFit, ArtifactsFit, JobFits, SameInputs;
    var u := ExpireStep(t, retentionSeconds, now).0;
    ExpiredJobs(t, retentionSeconds, now);
    StampedLedger(t, u.jobs);
    ExpiredArtifacts(t, retentionSeconds, now);
    ExpiredInputs(t, retentionSeconds, now);
    OriginsKept(t.jobs, u.jobs, t.schedules, t.occurrences);
    KeysKept(t.jobs, u.jobs);
    ClaimsKept(t, u);
  }

  // ---------------------------------------------------------------- every step, every run

  lemma StepKeeps(t: Tables, e: Event)
    requires Inv(t)
    ensures Inv(Apply(t, e)) && Guarantee(t, Apply(t, e))
  {
    hide Inv, Guarantee, CreateDemoStep, CreateImageStep, ClaimStep, RenewStep, EncodingStep, ProgressStep, CompleteDemoStep,
         CompleteImageStep, FailureStep, FinishCancelledStep, ReclaimStep, RequestCancelStep, ManualRetryStep, ExpireStep, TickStep,
         CreateScheduleStep, UpdateScheduleStep, RegisterStep, HeartbeatStep, StopStep;
    GuaranteeReflexive(t);
    if Possible(t, e) {
      match e
      case CreateDemo(now) => CreateDemoKeeps(t, now);
      case CreateImage(r, now) => CreateImageKeeps(t, r, now);
      case ClaimNext(w, now, token) => ClaimKeeps(t, w, now, token);
      case Renew(c, now) => RenewKeeps(t, c, now);
      case RecordEncoding(c, ms, now) => EncodingKeeps(t, c, ms, now);
      case UpdateProgress(c, n, now) => ProgressKeeps(t, c, n, now);
      case CompleteDemo(c, now) => CompleteDemoKeeps(t, c, now);
      case CompleteImage(c, outputs, now) => CompleteImageKeeps(t, c, outputs, now);
      case RecordFailure(c, kind, message, now) => FailureKeeps(t, c, kind, message, now);
      case FinishCancelled(c, now) => FinishCancelledKeeps(t, c, now);
      case Reclaim(now) => ReclaimKeeps(t, now);
      case RequestCancel(j, caller, now) => RequestCancelKeeps(t, j, caller, now);
      case ManualRetry(j, caller, now) => ManualRetryKeeps(t, j, caller, now);
      case Expire(retention, now) => ExpireKeeps(t, retention, now);
      case TickSchedules(now) => TickKeeps(t, now);
      case Register(r, now) => RegisterKeeps(t, r, now);
      case Heartbeat(w, ttl, now) => HeartbeatKeeps(t, w, ttl, now);
      case Stop(w, now) => StopKeeps(t, w, now);
      case CreateSchedule(r) => CreateScheduleKeeps(t, r);
      case UpdateSchedule(id, edit, caller, now) => UpdateScheduleKeeps(t, id, edit, caller, now);
    }
  }

  lemma WorkersKeep(t: Tables, u: Tables)
    requires Inv(t)
    requires u == t.(workers := u.workers)
    ensures Inv(u) && Guarantee(t, u)
  {
    ClaimsKept(t, u);
  }

  lemma RegisterKeeps(t: Tables, r: Registration, now: Time)
    requires Inv(t)
    ensures Inv(RegisterStep(t, r, now).0) && Guarantee(t, RegisterStep(t, r, now).0)
  {
    hide Inv, Guarantee;
    WorkersKeep(t, RegisterStep(t, r, now).0);
  }

  lemma HeartbeatKeeps(t: Tables, worker: nat, ttlSeconds: nat, now: Time)
    requires Inv(t)
    ensures Inv(HeartbeatStep(t, worker, ttlSeconds, now).0) && Guarantee(t, HeartbeatStep(t, worker, ttlSeconds, now).0)
  {
    hide Inv, Guarantee;
    WorkersKeep(t, HeartbeatStep(t, worker, ttlSeconds, now).0);
  }

  lemma StopKeeps(t: Tables, worker: nat, now: Time)
    requires Inv(t)
    ensures Inv(StopStep(t, worker, now).0) && Guarantee(t, StopStep(t, worker, now).0)
  {
    hide Inv, Guarantee;
    WorkersKeep(t, StopStep(t, worker, now).0);
  }

  lemma SchedulesKeep(t: Tables, u: Tables)
    requires Inv(t)
    requires u == t.(schedules := u.schedules)
    requires |t.schedules| <= |u.schedules| && forall i: nat :: i < |u.schedules| ==> ScheduleFits(u.schedules[i])
    requires forall i: nat :: i < |t.schedules| ==> u.schedules[i].inputs == t.schedules[i].inputs
    ensures Inv(u) && Guarantee(t, u)
  {
    ClaimsKept(t, u);
  }

  lemma AllSchedulesFit(t: Tables)
    requires Inv(t)
    ensures forall i: nat :: i < |t.schedules| ==> ScheduleFits(t.schedules[i])
  {
  }

  lemma CreateScheduleKeeps(t: Tables, r: ScheduleRequest)
    requires Inv(t)
    ensures Inv(CreateScheduleStep(t, r).0) && Guarantee(t, CreateScheduleStep(t, r).0)
  {
    hide Inv, Guarantee;
    AllSchedulesFit(t);
    GuaranteeReflexive(t);
    SchedulesKeep(t, CreateScheduleStep(t, r).0);
  }

  lemma UpdateScheduleKeeps(t: Tables, id: nat, edit: ScheduleEdit, owner: Option<nat>, now: Time)
    requires Inv(t)
    ensures Inv(UpdateScheduleStep(t, id, edit, owner, now).0) && Guarantee(t, UpdateScheduleStep(t, id, edit, owner, now).0)
  {
    hide Inv, Guarantee, NextSlotAfter;
    AllSchedulesFit(t);
    GuaranteeReflexive(t);
    SchedulesKeep(t, UpdateScheduleStep(t, id, edit, owner, now).0);
  }

  /** The invariant holds in every state of every run, and the guarantee between any two. */
  lemma {:induction false} RunKeeps(t: Tables, events: seq<Event>)
    requires Inv(t)
    ensures Inv(Run(t, events)) && Guarantee(t, Run(t, events))
    decreases |events|
  {
    GuaranteeReflexive(t);
    if events != [] {
      StepKeeps(t, events[0]);
      RunKeeps(Apply(t, events[0]), events[1..]);
      GuaranteeTransitive(t, Apply(t, events[0]), Run(t, events));
    }
  }

  lemma EmptyFits()
    ensures Inv(EMPTY)
  {
  }
}
