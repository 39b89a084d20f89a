/** Every job ends: a measure of each job drops at every change of its status, and as long as some
    job is not terminal, reclaiming or claiming with a live worker makes the next change.
  */
module Progress {
  import opened Rows
  import opened Slots
  import opened Steps
  import opened Repositories
  import opened AttemptLedger
  import opened Invariants
  import opened Preservation

  // ---------------------------------------------------------------- the measure

  function StatusRank(status: JobStatus): nat {
    match status
    case Running => 3
    case Queued => 2
    case RetryWaiting => 2
    case CancelRequested => 1
    case _ => 0
  }

  /** Attempts left first, then the rank of the status; 0 exactly for terminal jobs. */
  function Measure(t: Tables, j: nat): nat
    requires j < |t.jobs|
  {
    var left := t.jobs[j].maxAttempts - Used(t.attempts, j);
    if Terminal(t.jobs[j].status) then 0
    else if left < 0 then StatusRank(t.jobs[j].status)
    else 4 * left + StatusRank(t.jobs[j].status)
  }

  lemma UsedGrows(t: Tables, u: Tables, j: nat)
    requires AttemptsEvolve(t.attempts, u.attempts)
    ensures Used(t.attempts, j) <= Used(u.attempts, j)
    ensures |t.attempts| == |u.attempts| ==> Used(t.attempts, j) == Used(u.attempts, j)
  {
    forall k: nat | k < |t.attempts|
      ensures u.attempts[k].job == t.attempts[k].job
    {
      assert AttemptEvolves(t.attempts[k], u.attempts[k]);
    }
    CountSame(t.attempts, u.attempts, |t.attempts|, j);
    CountGrows(u.attempts, |t.attempts|, |u.attempts|, j);
  }

  /** A job that waits for a retry cannot run again without a new attempt: its latest one failed. */
  lemma WaitingNeedsAttempt(t: Tables, u: Tables, j: nat)
    requires Inv(t) && Inv(u) && Guarantee(t, u)
    requires j < |t.jobs| && t.jobs[j].status.RetryWaiting? && Used(t.attempts, j) == Used(u.attempts, j)
    ensures u.jobs[j].status.RetryWaiting? || Terminal(u.jobs[j].status)
  {
    JobFacts(t, j);
    var a := NumberIsTaken(t.attempts, |t.attempts|, j, Used(t.attempts, j));
    assert AttemptFits(t.jobs, t.attempts, a) && AttemptFits(u.jobs, u.attempts, a);
    assert AttemptEvolves(t.attempts[a], u.attempts[a]);
    assert JobEvolves(t.jobs[j], u.jobs[j]);
  }

  /** Between any two states of a run the measure of a job never grows, and it drops whenever the
      status is not the same or an attempt was started in between. */
  lemma MeasureDrops(t: Tables, u: Tables, j: nat)
    requires Inv(t) && Inv(u) && Guarantee(t, u) && j < |t.jobs|
    ensures j < |u.jobs| && Measure(u, j) <= Measure(t, j)
    ensures u.jobs[j].status != t.jobs[j].status ==> Measure(u, j) < Measure(t, j)
    ensures !Terminal(t.jobs[j].status) && Used(u.attempts, j) > Used(t.attempts, j) ==> Measure(u, j) < Measure(t, j)
    ensures Measure(t, j) == 0 <==> Terminal(t.jobs[j].status)
  {
    UsedGrows(t, u, j);
    JobFacts(t, j);
    JobFacts(u, j);
    assert JobEvolves(t.jobs[j], u.jobs[j]);
    if t.jobs[j].status.RetryWaiting? && Used(u.attempts, j) == Used(t.attempts, j) {
      WaitingNeedsAttempt(t, u, j);
    }
    hide Inv, Guarantee;
  }

  function Total(t: Tables, n: nat): nat
    requires n <= |t.jobs|
  {
    if n == 0 then 0 else Total(t, n - 1) + Measure(t, n - 1)
  }

  lemma {:induction false} TotalDrops(t: Tables, u: Tables, n: nat, j: nat)
    requires Inv(t) && Inv(u) && Guarantee(t, u) && n <= |t.jobs| && n <= |u.jobs|
    ensures Total(u, n) <= Total(t, n)
    ensures j < n && u.jobs[j].status != t.jobs[j].status ==> Total(u, n) < Total(t, n)
  {
    hide Inv, Guarantee, Measure;
    if n > 0 {
      TotalDrops(t, u, n - 1, j);
      MeasureDrops(t, u, n - 1);
    }
  }

  // ---------------------------------------------------------------- something can always be done

  /** What claiming can answer: a job exactly when one is eligible, the worker is live and the token
      is fresh.  "Job has no remaining attempts" is never the answer. */
  lemma ClaimAnswer(t: Tables, worker: nat, now: Time, token: nat)
    requires Inv(t)
    ensures var candidate := NextCandidate(t.jobs, |t.jobs|, now);
            var r := ClaimStep(t, worker, now, token).1;
            && (candidate.None? ==> r == Ok(None))
            && (candidate.Some? && !Live(t, worker, now) ==> r == Err(StateConflict))
            && (candidate.Some? && Live(t, worker, now) && TokenUsed(t.attempts, token) ==> r == Err(ConstraintViolation))
            && (candidate.Some? && Live(t, worker, now) && !TokenUsed(t.attempts, token) ==>
                  r.Ok? && r.value.Some? && r.value.value.job == candidate.value)
    ensures ClaimStep(t, worker, now, token).1 != Err(InvalidData)
  {
    var candidate := NextCandidate(t.jobs, |t.jobs|, now);
    if candidate.Some? {
      NextNumber(t, candidate.value);
      if t.jobs[candidate.value].work.ImageResize? {
        InputsOfImage(t, candidate.value);
      }
    }
    hide Inv;
  }

  /** The clock is past every lease of a running attempt and past every waiting time. */
  predicate Overdue(t: Tables, now: Time) {
    && (forall a: nat :: a < |t.attempts| ==> t.attempts[a].leaseExpiresAt <= now)
    && (forall j: nat :: j < |t.jobs| ==> t.jobs[j].availableAt <= now)
  }

  /** While a job is not terminal, a late enough clock finds an attempt to reclaim or a job to claim. */
  lemma SomethingToDo(t: Tables, j: nat, now: Time)
    requires Inv(t) && Overdue(t, now)
    requires j < |t.jobs| && !Terminal(t.jobs[j].status)
    ensures NextExpired(t, |t.attempts|, now).Some? || NextCandidate(t.jobs, |t.jobs|, now).Some?
  {
    if t.jobs[j].status.Running? || t.jobs[j].status.CancelRequested? {
      StatusMatchesAttempts(t.jobs, t.attempts, j);
      var a: nat :| RunningFor(t.attempts, j, a);
      assert Expired(t, a, now);
    } else {
      assert Eligible(t.jobs[j], now);
    }
  }

  lemma ReclaimChanges(t: Tables, now: Time)
    requires Inv(t) && NextExpired(t, |t.attempts|, now).Some?
    ensures var u := ReclaimStep(t, now).0;
            Inv(u) && Guarantee(t, u) && |u.jobs| == |t.jobs| && u.workers == t.workers && Total(u, |u.jobs|) < Total(t, |t.jobs|)
  {
    hide Inv, Guarantee, NextExpired;
    ReclaimKeeps(t, now);
    var u := ReclaimStep(t, now).0;
    var a := NextExpired(t, |t.attempts|, now).value;
    RunningAttempt(t, a);
    TotalDrops(t, u, |t.jobs|, t.attempts[a].job);
  }

  lemma ClaimChanges(t: Tables, worker: nat, now: Time, token: nat)
    requires Inv(t) && NextCandidate(t.jobs, |t.jobs|, now).Some? && Live(t, worker, now) && !TokenUsed(t.attempts, token)
    ensures var u := ClaimStep(t, worker, now, token).0;
            Inv(u) && Guarantee(t, u) && |u.jobs| == |t.jobs| && u.workers == t.workers && Total(u, |u.jobs|) < Total(t, |t.jobs|)
  {
    hide Inv, Guarantee, NextCandidate, MaxNumber, LoadInputs;
    ClaimAnswer(t, worker, now, token);
    ClaimKeeps(t, worker, now, token);
    TotalDrops(t, ClaimStep(t, worker, now, token).0, |t.jobs|, NextCandidate(t.jobs, |t.jobs|, now).value);
  }

  // ---------------------------------------------------------------- driving the queue

  function FreshToken(attempts: seq<Attempt>, n: nat): (token: nat)
    requires n <= |attempts|
    ensures forall a: nat :: a < n ==> attempts[a].token < token
  {
    if n == 0 then 0
    else
      var rest := FreshToken(attempts, n - 1);
      if attempts[n - 1].token < rest then rest else attempts[n - 1].token + 1
  }

  function Later(x: Time, y: Time): Time {
    if x < y then y else x
  }

  function LatestLease(attempts: seq<Attempt>, n: nat, start: Time): (r: Time)
    requires n <= |attempts|
    ensures r >= start && forall a: nat :: a < n ==> attempts[a].leaseExpiresAt <= r
  {
    if n == 0 then start else Later(LatestLease(attempts, n - 1, start), attempts[n - 1].leaseExpiresAt)
  }

  function LatestStart(jobs: seq<Job>, n: nat, start: Time): (r: Time)
    requires n <= |jobs|
    ensures r >= start && forall j: nat :: j < n ==> jobs[j].availableAt <= r
  {
    if n == 0 then start else Later(LatestStart(jobs, n - 1, start), jobs[n - 1].availableAt)
  }

  function FirstOpen(jobs: seq<Job>, n: nat): (r: Option<nat>)
    requires n <= |jobs|
    ensures r.Some? ==> r.value < n && !Terminal(jobs[r.value].status)
    ensures r.None? ==> forall j: nat :: j < n ==> Terminal(jobs[j].status)
  {
    if n == 0 then None
    else if !Terminal(jobs[n - 1].status) then Some(n - 1)
    else FirstOpen(jobs, n - 1)
  }

  /** One round: reclaim if a lease has run out, claim otherwise.  Something changes for the better. */
  method Round(db: Database, worker: nat, now: Time)
    requires Inv(db.State()) && Live(db.State(), worker, now) && Overdue(db.State(), now)
    requires FirstOpen(db.jobs, |db.jobs|).Some?
    modifies db
    ensures Inv(db.State()) && Guarantee(old(db.State()), db.State())
    ensures |db.jobs| == |old(db.jobs)| && db.workers == old(db.workers)
    ensures Total(db.State(), |db.jobs|) < old(Total(db.State(), |db.jobs|))
  {
    hide Inv, Guarantee, Overdue, ClaimStep, ReclaimStep, Live;
    ghost var t := db.State();
    SomethingToDo(t, FirstOpen(db.jobs, |db.jobs|).value, now);
    var expired := NextExpired(db.State(), |db.attempts|, now);
    if expired.Some? {
      ReclaimChanges(t, now);
      var reclaimed := db.ReclaimNext(now);
    } else {
      var token := FreshToken(db.attempts, |db.attempts|);
      FreshIsUnused(db.attempts, token);
      ClaimChanges(t, worker, now, token);
      var claimed := db.ClaimNext(worker, now, token);
    }
  }

  /** Every worker crashes right after each claim and makes no call with it.  Still, advancing the
      clock, sending one worker's heartbeat, reclaiming and claiming ends every job, in at most as
      many rounds as the measure says, and never fails. */
  method CrashOnlyDrive(db: Database, worker: nat, start: Time) returns (rounds: nat, now: Time)
    requires Inv(db.State())
    requires worker in db.workers && db.workers[worker].stoppedAt.None?
    modifies db
    ensures Inv(db.State()) && Guarantee(old(db.State()), db.State()) && |db.jobs| == |old(db.jobs)|
    ensures forall j: nat :: j < |db.jobs| ==> Terminal(db.jobs[j].status)
    ensures rounds <= old(Total(db.State(), |db.jobs|)) && start <= now
  {
    hide Inv, Guarantee, Overdue, Live, Total;
    ghost var before := db.State();
    rounds, now := 0, start;
    GuaranteeReflexive(before);
    while FirstOpen(db.jobs, |db.jobs|).Some?
      invariant Inv(db.State()) && Guarantee(before, db.State()) && |db.jobs| == |before.jobs|
      invariant worker in db.workers && db.workers[worker].stoppedAt.None?
      invariant rounds + Total(db.State(), |db.jobs|) <= Total(before, |before.jobs|) && start <= now
      decreases Total(db.State(), |db.jobs|)
    {
      now := LatestStart(db.jobs, |db.jobs|, LatestLease(db.attempts, |db.attempts|, now));
      ghost var s := db.State();
      var beat := BeatOnce(db, worker, now);
      ghost var t := db.State();
      AllOverdue(t, now);
      GuaranteeTransitive(before, s, t);
      Round(db, worker, now);
      GuaranteeTransitive(before, t, db.State());
      rounds := rounds + 1;
    }
  }

  lemma AllOverdue(t: Tables, now: Time)
    requires forall a: nat :: a < |t.attempts| ==> t.attempts[a].leaseExpiresAt <= now
    requires forall j: nat :: j < |t.jobs| ==> t.jobs[j].availableAt <= now
    ensures Overdue(t, now)
  {
  }

  lemma FreshIsUnused(attempts: seq<Attempt>, token: nat)
    requires forall a: nat :: a < |attempts| ==> attempts[a].token < token
    ensures !TokenUsed(attempts, token)
  {
  }

  method BeatOnce(db: Database, worker: nat, now: Time) returns (r: Result<()>)
    requires Inv(db.State())
    requires worker in db.workers && db.workers[worker].stoppedAt.None?
    modifies db
    ensures r.Ok? && Inv(db.State()) && Guarantee(old(db.State()), db.State())
    ensures db.State() == old(db.State()).(workers := db.workers)
    ensures worker in db.workers && db.workers[worker].stoppedAt.None? && Live(db.State(), worker, now)
    ensures Total(db.State(), |db.jobs|) == old(Total(db.State(), |db.jobs|))
  {
    ghost var t := db.State();
    r := db.HeartbeatWorker(worker, 2, now);
    WorkersKeep(t, db.State());
    SameTotal(t, db.State(), |db.jobs|);
  }

  lemma {:induction false} SameTotal(t: Tables, u: Tables, n: nat)
    requires t.jobs == u.jobs && t.attempts == u.attempts && n <= |t.jobs|
    ensures Total(t, n) == Total(u, n)
  {
    if n > 0 {
      SameTotal(t, u, n - 1);
    }
  }

  // ---------------------------------------------------------------- retry waiting

  lemma {:induction false} PowerIsLarge(n: nat)
    ensures Power(n) >= n + 1
  {
    if n > 0 {
      PowerIsLarge(n - 1);
    }
  }

  lemma {:induction false} PowerGrows(m: nat, n: nat)
    requires m <= n
    ensures Power(m) <= Power(n)
    decreases n
  {
    if m < n {
      PowerGrows(m, n - 1);
    }
  }

  /** The waiting time starts at one second, doubles with every attempt, and is capped at sixty. */
  lemma BackoffDoubles(n: nat)
    requires n >= 1
    ensures RetryBackoffSeconds(1) == 1
    ensures RetryBackoffSeconds(n + 1) == (if 2 * RetryBackoffSeconds(n) < 60 then 2 * RetryBackoffSeconds(n) else 60)
    ensures RetryBackoffSeconds(n) <= RetryBackoffSeconds(n + 1) <= 60
  {
    assert Power(6) == 64;
    if n >= 7 {
      PowerGrows(6, if n - 1 < 31 then n - 1 else 31);
      PowerGrows(6, if n < 31 then n else 31);
    }
  }

  // ---------------------------------------------------------------- the reclaim loop

  predicate ReclaimedOne(reclaimed: seq<Reclaimed>, a: nat) {
    exists k: nat :: k < |reclaimed| && reclaimed[k].attempt == a
  }

  /** Reclaims until no lease has expired.  It ends, and it closes exactly the running attempts whose
      lease had run out; every other attempt is untouched. */
  method ReclaimAll(db: Database, now: Time) returns (reclaimed: seq<Reclaimed>)
    requires Inv(db.State())
    modifies db
    ensures Inv(db.State()) && Guarantee(old(db.State()), db.State()) && |db.attempts| == |old(db.attempts)|
    ensures forall a: nat :: a < |db.attempts| ==>
              if old(db.attempts)[a].status.Running? && old(db.attempts)[a].leaseExpiresAt <= now
              then ReclaimedOne(reclaimed, a) && !db.attempts[a].status.Running?
              else db.attempts[a] == old(db.attempts)[a] && !ReclaimedOne(reclaimed, a)
  {
    ghost var before := db.State();
    reclaimed := [];
    GuaranteeReflexive(before);
    hide Inv, Guarantee, NextExpired;
    while true
      invariant Inv(db.State()) && Guarantee(before, db.State()) && |db.attempts| == |before.attempts|
      invariant ClosedSoFar(before.attempts, db.attempts, reclaimed, now)
      decreases Total(db.State(), |db.jobs|)
    {
      ghost var t := db.State();
      var r := ReclaimOnce(db, now);
      if r.None? {
        NothingExpired(before, t, reclaimed, now);
        return;
      }
      GuaranteeTransitive(before, t, db.State());
      OneMoreReclaimed(before.attempts, t.attempts, db.attempts, reclaimed, r.value, now);
      reclaimed := reclaimed + [r.value];
    }
  }

  /** Reclaimed attempts were expired and are closed; the others are as before. */
  ghost predicate ClosedSoFar(before: seq<Attempt>, after: seq<Attempt>, reclaimed: seq<Reclaimed>, now: Time) {
    |after| == |before|
    && forall a: nat :: a < |before| ==>
         if ReclaimedOne(reclaimed, a)
         then before[a].status.Running? && before[a].leaseExpiresAt <= now && !after[a].status.Running?
         else after[a] == before[a]
  }

  method ReclaimOnce(db: Database, now: Time) returns (r: Option<Reclaimed>)
    requires Inv(db.State())
    modifies db
    ensures Inv(db.State()) && Guarantee(old(db.State()), db.State()) && |db.attempts| == |old(db.attempts)|
    ensures r.None? ==> db.State() == old(db.State()) && NextExpired(db.State(), |db.attempts|, now).None?
    ensures r.Some? ==>
              && r.value.attempt < |db.attempts|
              && old(db.attempts)[r.value.attempt].status.Running? && old(db.attempts)[r.value.attempt].leaseExpiresAt <= now
              && !db.attempts[r.value.attempt].status.Running?
              && db.attempts == old(db.attempts)[r.value.attempt := db.attempts[r.value.attempt]]
              && Total(db.State(), |db.jobs|) < old(Total(db.State(), |db.jobs|))
  {
    hide Inv, Guarantee;
    ghost var t := db.State();
    ReclaimKeeps(t, now);
    if NextExpired(t, |t.attempts|, now).Some? {
      ReclaimChanges(t, now);
    }
    var answer := db.ReclaimNext(now);
    r := answer.value;
  }

  lemma OneMoreReclaimed(before: seq<Attempt>, attempts: seq<Attempt>, after: seq<Attempt>, reclaimed: seq<Reclaimed>, r: Reclaimed, now: Time)
    requires ClosedSoFar(before, attempts, reclaimed, now)
    requires r.attempt < |attempts| && attempts[r.attempt].status.Running? && attempts[r.attempt].leaseExpiresAt <= now
    requires |after| == |attempts| && !after[r.attempt].status.Running? && after == attempts[r.attempt := after[r.attempt]]
    ensures ClosedSoFar(before, after, reclaimed + [r], now)
  {
    var more := reclaimed + [r];
    assert more[|reclaimed|] == r;
    forall a: nat
      ensures ReclaimedOne(more, a) <==> ReclaimedOne(reclaimed, a) || a == r.attempt
    {
      if ReclaimedOne(reclaimed, a) {
        var k: nat :| k < |reclaimed| && reclaimed[k].attempt == a;
        assert more[k].attempt == a;
      }
    }
  }

  /** A running attempt whose lease has run out can always be reclaimed, so none is left. */
  lemma NothingExpired(before: Tables, t: Tables, reclaimed: seq<Reclaimed>, now: Time)
    requires Inv(t) && ClosedSoFar(before.attempts, t.attempts, reclaimed, now)
    requires NextExpired(t, |t.attempts|, now).None?
    ensures forall a: nat :: a < |t.attempts| ==>
              if before.attempts[a].status.Running? && before.attempts[a].leaseExpiresAt <= now
              then ReclaimedOne(reclaimed, a) && !t.attempts[a].status.Running?
              else t.attempts[a] == before.attempts[a] && !ReclaimedOne(reclaimed, a)
  {
    forall a: nat | a < |t.attempts| && t.attempts[a].status.Running?
      ensures t.attempts[a].leaseExpiresAt > now
    {
      RunningAttempt(t, a);
      assert !Expired(t, a, now);
    }
    hide Inv, NextExpired;
  }
}
