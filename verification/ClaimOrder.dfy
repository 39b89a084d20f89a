/** The claim loop of the worker: at one instant and with no other writer, it takes the eligible jobs
    in queue order, each once, until the worker is full or none is left. */
module ClaimOrder {
  import opened Rows
  import opened Steps
  import opened Repositories
  import opened Invariants
  import opened Preservation
  import opened Progress

  predicate Claims(claimed: seq<Claim>, j: nat) {
    exists k: nat :: k < |claimed| && claimed[k].job == j
  }

  /** The claimed jobs were eligible and are in strict queue order. */
  ghost predicate InOrder(jobs: seq<Job>, claimed: seq<Claim>, now: Time) {
    && (forall k: nat :: k < |claimed| ==> claimed[k].job < |jobs| && Eligible(jobs[claimed[k].job], now))
    && (forall i: nat, k: nat :: i < k < |claimed| ==>
          Before(jobs[claimed[i].job], claimed[i].job, jobs[claimed[k].job], claimed[k].job))
  }

  /** Every eligible job that was not claimed comes after all that were. */
  ghost predicate LeavesLater(jobs: seq<Job>, claimed: seq<Claim>, now: Time) {
    forall j: nat, k: nat :: (j < |jobs| && Eligible(jobs[j], now) && !Claims(claimed, j) && k < |claimed| && claimed[k].job < |jobs|)
                             ==> Before(jobs[claimed[k].job], claimed[k].job, jobs[j], j)
  }

  ghost predicate TakesAll(jobs: seq<Job>, claimed: seq<Claim>, now: Time) {
    forall j: nat :: j < |jobs| && Eligible(jobs[j], now) ==> Claims(claimed, j)
  }

  /** The jobs table after some claims: claimed jobs run, all others are as before. */
  ghost predicate OnlyClaimed(before: seq<Job>, after: seq<Job>, claimed: seq<Claim>) {
    && |after| == |before|
    && (forall j: nat :: j < |before| && !Claims(claimed, j) ==> after[j] == before[j])
    && (forall j: nat :: j < |before| && Claims(claimed, j) ==> after[j].status.Running?)
  }

  /** One claim by a live worker with a fresh token: the first candidate, or nothing. */
  method ClaimOne(db: Database, worker: nat, now: Time) returns (c: Option<Claim>)
    requires Inv(db.State()) && Live(db.State(), worker, now)
    modifies db
    ensures Inv(db.State()) && Guarantee(old(db.State()), db.State()) && db.workers == old(db.workers)
    ensures c.None? <==> NextCandidate(old(db.jobs), |old(db.jobs)|, now).None?
    ensures c.None? ==> db.State() == old(db.State())
    ensures c.Some? ==> c.value in db.claims && NextCandidate(old(db.jobs), |old(db.jobs)|, now) == Some(c.value.job)
    ensures c.Some? ==> db.jobs == old(db.jobs)[c.value.job := ClaimedRow(old(db.jobs)[c.value.job], now)]
  {
    hide Inv, Guarantee, NextCandidate, MaxNumber, LoadInputs, Live, TokenUsed;
    ghost var t := db.State();
    var token := FreshToken(db.attempts, |db.attempts|);
    FreshIsUnused(db.attempts, token);
    ClaimAnswer(t, worker, now, token);
    ClaimKeeps(t, worker, now, token);
    ClaimAside(t, worker, now, token);
    var r := db.ClaimNext(worker, now, token);
    c := r.value;
  }

  lemma ClaimAside(t: Tables, worker: nat, now: Time, token: nat)
    ensures var (u, r) := ClaimStep(t, worker, now, token);
            && u.workers == t.workers
            && if r.Ok? && r.value.Some?
               then && NextCandidate(t.jobs, |t.jobs|, now) == Some(r.value.value.job) && r.value.value in u.claims
                    && u.jobs == t.jobs[r.value.value.job := ClaimedRow(t.jobs[r.value.value.job], now)]
               else u == t
  {
    hide NextCandidate, MaxNumber, LoadInputs;
  }

  method ClaimUpTo(db: Database, worker: nat, now: Time, limit: nat) returns (claimed: seq<Claim>)
    requires Inv(db.State()) && Live(db.State(), worker, now)
    modifies db
    ensures Inv(db.State()) && Guarantee(old(db.State()), db.State())
    ensures |claimed| <= limit && forall k: nat :: k < |claimed| ==> claimed[k] in db.claims
    ensures InOrder(old(db.jobs), claimed, now) && LeavesLater(old(db.jobs), claimed, now)
    ensures |claimed| < limit ==> TakesAll(old(db.jobs), claimed, now)
    ensures OnlyClaimed(old(db.jobs), db.jobs, claimed)
  {
    hide Inv, Guarantee, InOrder, LeavesLater, OnlyClaimed, TakesAll, NextCandidate;
    ghost var before := db.State();
    claimed := [];
    NothingYet(before, now);
    while |claimed| < limit
      invariant Inv(db.State()) && Guarantee(before, db.State()) && db.workers == before.workers
      invariant |claimed| <= limit && forall k: nat :: k < |claimed| ==> claimed[k] in db.claims
      invariant InOrder(before.jobs, claimed, now) && LeavesLater(before.jobs, claimed, now)
      invariant OnlyClaimed(before.jobs, db.jobs, claimed)
      decreases limit - |claimed|
    {
      ghost var t := db.State();
      var c := ClaimOne(db, worker, now);
      if c.None? {
        NothingLeft(before.jobs, t.jobs, claimed, now);
        return;
      }
      GuaranteeTransitive(before, t, db.State());
      ClaimsGrow(t, db.State());
      OneMore(before.jobs, t.jobs, claimed, c.value, now);
      claimed := claimed + [c.value];
    }
  }

  lemma NothingYet(t: Tables, now: Time)
    ensures Guarantee(t, t)
    ensures InOrder(t.jobs, [], now) && LeavesLater(t.jobs, [], now) && OnlyClaimed(t.jobs, t.jobs, [])
  {
  }

  lemma ClaimsGrow(t: Tables, u: Tables)
    requires Guarantee(t, u)
    ensures t.claims <= u.claims
  {
  }

  lemma NothingLeft(before: seq<Job>, jobs: seq<Job>, claimed: seq<Claim>, now: Time)
    requires OnlyClaimed(before, jobs, claimed) && NextCandidate(jobs, |jobs|, now).None?
    ensures TakesAll(before, claimed, now)
  {
    StillEligible(before, jobs, claimed, now);
  }

  /** Among the jobs left, eligibility is as it was before the loop. */
  lemma StillEligible(before: seq<Job>, jobs: seq<Job>, claimed: seq<Claim>, now: Time)
    requires OnlyClaimed(before, jobs, claimed)
    ensures forall j: nat :: j < |before| ==> (Eligible(jobs[j], now) <==> Eligible(before[j], now) && !Claims(claimed, j))
  {
  }

  lemma OneMore(before: seq<Job>, jobs: seq<Job>, claimed: seq<Claim>, c: Claim, now: Time)
    requires OnlyClaimed(before, jobs, claimed) && InOrder(before, claimed, now) && LeavesLater(before, claimed, now)
    requires NextCandidate(jobs, |jobs|, now) == Some(c.job)
    ensures InOrder(before, claimed + [c], now) && LeavesLater(before, claimed + [c], now)
    ensures OnlyClaimed(before, jobs[c.job := ClaimedRow(jobs[c.job], now)], claimed + [c])
  {
    StillEligible(before, jobs, claimed, now);
    var more := claimed + [c];
    assert more[|claimed|] == c;
    assert Claims(more, c.job);
    forall j: nat
      ensures Claims(more, j) <==> Claims(claimed, j) || j == c.job
    {
      if Claims(claimed, j) {
        var k: nat :| k < |claimed| && claimed[k].job == j;
        assert more[k].job == j;
      }
    }
  }
}
