/** The agreement between a job's status and its attempts: what a row of jobs may say given the
    rows of job_attempts.  The lemmas here are about the two tables alone; each covers one way in
    which a transaction changes them together.
  */
module AttemptLedger {
  import opened Rows
  import opened Steps

  /** How many of the first n attempts belong to a job. */
  function Count(attempts: seq<Attempt>, n: nat, job: nat): (c: nat)
    requires n <= |attempts|
    ensures c <= n
  {
    if n == 0 then 0 else Count(attempts, n - 1, job) + if attempts[n - 1].job == job then 1 else 0
  }

  function Used(attempts: seq<Attempt>, job: nat): nat {
    Count(attempts, |attempts|, job)
  }

  /** What the status of a job says about the status of its latest attempt. */
  predicate Agree(job: JobStatus, attempt: AttemptStatus) {
    match attempt
    case Running => job.Running? || job.CancelRequested?
    case Succeeded => job.Succeeded?
    case Failed => job.RetryWaiting? || job.Failed? || job.Cancelled?
    case Cancelled => job.Cancelled?
  }

  /** What the status of a job says about how many attempts it has used. */
  predicate UsedFits(job: Job, used: nat) {
    && used <= job.maxAttempts
    && (job.status.Queued? ==> used == 0)
    && (job.status.RetryWaiting? ==> 0 < used < job.maxAttempts)
    && (job.status.Running? || job.status.CancelRequested? || job.status.Succeeded? || job.status.Failed? ==> used > 0)
  }

  ghost predicate AttemptFits(jobs: seq<Job>, attempts: seq<Attempt>, a: nat)
    requires a < |attempts|
  {
    var row := attempts[a];
    && row.job < |jobs|
    && row.number == Count(attempts, a, row.job) + 1
    && (if row.number < Used(attempts, row.job) then row.status.Failed? else Agree(jobs[row.job].status, row.status))
  }

  ghost predicate LedgerFits(jobs: seq<Job>, attempts: seq<Attempt>) {
    && (forall a: nat :: a < |attempts| ==> AttemptFits(jobs, attempts, a))
    && (forall j: nat :: j < |jobs| ==> UsedFits(jobs[j], Used(attempts, j)))
  }

  // ---------------------------------------------------------------- counting

  lemma {:induction false} CountSame(p: seq<Attempt>, q: seq<Attempt>, n: nat, job: nat)
    requires n <= |p| && n <= |q|
    requires forall k: nat :: k < n ==> p[k].job == q[k].job
    ensures Count(p, n, job) == Count(q, n, job)
  {
    if n > 0 {
      CountSame(p, q, n - 1, job);
    }
  }

  lemma {:induction false} CountGrows(attempts: seq<Attempt>, m: nat, n: nat, job: nat)
    requires m <= n <= |attempts|
    ensures Count(attempts, m, job) <= Count(attempts, n, job)
    ensures m < n && attempts[m].job == job ==> Count(attempts, m, job) < Count(attempts, n, job)
    decreases n - m
  {
    if m < n {
      CountGrows(attempts, m + 1, n, job);
    }
  }

  lemma {:induction false} CountNone(attempts: seq<Attempt>, n: nat, job: nat)
    requires n <= |attempts|
    requires forall k: nat :: k < n ==> attempts[k].job != job
    ensures Count(attempts, n, job) == 0
  {
    if n > 0 {
      CountNone(attempts, n - 1, job);
    }
  }

  /** Under the ledger the largest attempt number is the number of attempts. */
  lemma {:induction false} MaxNumberIsCount(attempts: seq<Attempt>, n: nat, job: nat)
    requires n <= |attempts|
    requires forall k: nat :: k < n ==> attempts[k].number == Count(attempts, k, attempts[k].job) + 1
    ensures MaxNumber(attempts, n, job) == Count(attempts, n, job)
  {
    if n > 0 {
      MaxNumberIsCount(attempts, n - 1, job);
    }
  }

  /** A job has one attempt of each number, and a running attempt is the latest one. */
  lemma LatestIsUnique(jobs: seq<Job>, attempts: seq<Attempt>, a: nat, b: nat)
    requires LedgerFits(jobs, attempts)
    requires a < |attempts| && b < |attempts| && a != b
    requires attempts[a].job == attempts[b].job && !attempts[a].status.Failed?
    ensures attempts[a].number == Used(attempts, attempts[a].job)
    ensures b < a && attempts[b].number < attempts[a].number && attempts[b].status.Failed?
  {
    var j := attempts[a].job;
    assert AttemptFits(jobs, attempts, a) && AttemptFits(jobs, attempts, b);
    CountGrows(attempts, a, |attempts|, j);
    CountGrows(attempts, b, |attempts|, j);
    if a < b {
      CountGrows(attempts, a, b, j);
    } else {
      CountGrows(attempts, b, a, j);
    }
  }

  // ---------------------------------------------------------------- the ways the tables change

  /** A row of jobs and the row of its running attempt are rewritten together. */
  lemma CloseTogether(jobs: seq<Job>, attempts: seq<Attempt>, a: nat, job: Job, attempt: Attempt)
    requires LedgerFits(jobs, attempts)
    requires a < |attempts| && attempts[a].status.Running?
    requires attempt.job == attempts[a].job && attempt.number == attempts[a].number
    requires attempts[a].job < |jobs| && Agree(job.status, attempt.status)
    requires UsedFits(job, Used(attempts, attempt.job))
    ensures LedgerFits(jobs[attempt.job := job], attempts[a := attempt])
  {
    var jobs', attempts' := jobs[attempt.job := job], attempts[a := attempt];
    forall b: nat | b < |attempts'|
      ensures AttemptFits(jobs', attempts', b)
    {
      assert AttemptFits(jobs, attempts, b) && AttemptFits(jobs, attempts, a);
      var j := attempts[b].job;
      CountSame(attempts, attempts', b, j);
      CountSame(attempts, attempts', |attempts|, j);
      if b != a && j == attempt.job {
        LatestIsUnique(jobs, attempts, a, b);
      }
    }
    forall j: nat | j < |jobs'|
      ensures UsedFits(jobs'[j], Used(attempts', j))
    {
      CountSame(attempts, attempts', |attempts|, j);
    }
  }

  /** Only a row of jobs is rewritten, to a status its latest attempt agrees with as well. */
  lemma RestateJob(jobs: seq<Job>, attempts: seq<Attempt>, j: nat, job: Job)
    requires LedgerFits(jobs, attempts)
    requires j < |jobs|
    requires forall s: AttemptStatus :: Agree(jobs[j].status, s) ==> Agree(job.status, s)
    requires UsedFits(job, Used(attempts, j))
    ensures LedgerFits(jobs[j := job], attempts)
  {
    var jobs' := jobs[j := job];
    forall b: nat | b < |attempts|
      ensures AttemptFits(jobs', attempts, b)
    {
      assert AttemptFits(jobs, attempts, b);
    }
  }

  /** A waiting job starts its next attempt. */
  lemma StartNext(jobs: seq<Job>, attempts: seq<Attempt>, j: nat, job: Job, attempt: Attempt)
    requires LedgerFits(jobs, attempts)
    requires j < |jobs| && (jobs[j].status.Queued? || jobs[j].status.RetryWaiting?)
    requires job.status.Running? && job.maxAttempts == jobs[j].maxAttempts
    requires attempt.job == j && attempt.status.Running? && attempt.number == Used(attempts, j) + 1 <= job.maxAttempts
    ensures LedgerFits(jobs[j := job], attempts + [attempt])
  {
    var jobs', attempts' := jobs[j := job], attempts + [attempt];
    forall i: nat
      ensures Used(attempts', i) == Used(attempts, i) + if i == j then 1 else 0
    {
      CountSame(attempts, attempts', |attempts|, i);
    }
    forall b: nat | b < |attempts'|
      ensures AttemptFits(jobs', attempts', b)
    {
      CountSame(attempts, attempts', b, attempts'[b].job);
      if b < |attempts| {
        assert AttemptFits(jobs, attempts, b);
        CountGrows(attempts, b, |attempts|, attempts[b].job);
      }
    }
  }

  /** A queued job is added. */
  lemma AddJob(jobs: seq<Job>, attempts: seq<Attempt>, job: Job)
    requires LedgerFits(jobs, attempts)
    requires job.status.Queued?
    ensures LedgerFits(jobs + [job], attempts)
  {
    var jobs' := jobs + [job];
    forall b: nat | b < |attempts|
      ensures AttemptFits(jobs', attempts, b)
    {
      assert AttemptFits(jobs, attempts, b);
    }
    forall b: nat | b < |attempts|
      ensures attempts[b].job != |jobs|
    {
      assert AttemptFits(jobs, attempts, b);
    }
    CountNone(attempts, |attempts|, |jobs|);
  }

  // ---------------------------------------------------------------- what the ledger says

  predicate RunningFor(attempts: seq<Attempt>, job: nat, a: nat) {
    a < |attempts| && attempts[a].job == job && attempts[a].status.Running?
  }

  ghost predicate HasNumber(attempts: seq<Attempt>, job: nat, k: nat) {
    exists a: nat :: a < |attempts| && attempts[a].job == job && attempts[a].number == k
  }

  /** The k-th attempt of a job, for k from 1 to the number it has used. */
  lemma {:induction false} NumberIsTaken(attempts: seq<Attempt>, n: nat, job: nat, k: nat) returns (a: nat)
    requires n <= |attempts| && 1 <= k <= Count(attempts, n, job)
    ensures a < n && attempts[a].job == job && Count(attempts, a, job) + 1 == k
  {
    if attempts[n - 1].job == job && Count(attempts, n - 1, job) + 1 == k {
      a := n - 1;
    } else {
      a := NumberIsTaken(attempts, n - 1, job, k);
    }
  }

  /** A job is running or being cancelled exactly when it has a running attempt, that attempt is
      then the only one and carries the highest number, and the numbers run from 1 without gaps. */
  lemma StatusMatchesAttempts(jobs: seq<Job>, attempts: seq<Attempt>, j: nat)
    requires LedgerFits(jobs, attempts)
    requires j < |jobs|
    ensures jobs[j].status.Running? || jobs[j].status.CancelRequested? <==> exists a: nat :: RunningFor(attempts, j, a)
    ensures forall a: nat, b: nat :: RunningFor(attempts, j, a) && RunningFor(attempts, j, b) ==> a == b
    ensures forall a: nat :: RunningFor(attempts, j, a) ==> attempts[a].number == Used(attempts, j)
    ensures forall a: nat, b: nat ::
              (RunningFor(attempts, j, a) && b < |attempts| && attempts[b].job == j && b != a)
              ==> (attempts[b].status.Failed? && attempts[b].number < attempts[a].number)
    ensures forall k: nat :: HasNumber(attempts, j, k) <==> 1 <= k <= Used(attempts, j)
    ensures forall a: nat :: a < |attempts| && attempts[a].job == j ==> 1 <= attempts[a].number <= Used(attempts, j) <= jobs[j].maxAttempts
    ensures forall a: nat, b: nat ::
              (a < |attempts| && b < |attempts| && attempts[a].job == attempts[b].job == j && attempts[a].number == attempts[b].number)
              ==> a == b
    ensures jobs[j].status.Queued? ==> forall a: nat :: a < |attempts| ==> attempts[a].job != j
    ensures jobs[j].status.RetryWaiting? ==> 0 < Used(attempts, j) < jobs[j].maxAttempts
  {
    assert UsedFits(jobs[j], Used(attempts, j));
    forall a: nat | a < |attempts| && attempts[a].job == j
      ensures AttemptFits(jobs, attempts, a) && 1 <= attempts[a].number <= Used(attempts, j)
    {
      CountGrows(attempts, a, |attempts|, j);
    }
    forall k: nat | 1 <= k <= Used(attempts, j)
      ensures HasNumber(attempts, j, k)
    {
      var a := NumberIsTaken(attempts, |attempts|, j, k);
      assert AttemptFits(jobs, attempts, a);
    }
    if jobs[j].status.Running? || jobs[j].status.CancelRequested? {
      var a := NumberIsTaken(attempts, |attempts|, j, Used(attempts, j));
      assert AttemptFits(jobs, attempts, a);
      assert RunningFor(attempts, j, a);
    }
    forall a: nat, b: nat | RunningFor(attempts, j, a) && b < |attempts| && attempts[b].job == j && b != a
      ensures attempts[b].status.Failed? && attempts[b].number < attempts[a].number
    {
      LatestIsUnique(jobs, attempts, a, b);
    }
    forall a: nat, b: nat | a < b < |attempts| && attempts[a].job == attempts[b].job == j
      ensures attempts[a].number < attempts[b].number
    {
      assert AttemptFits(jobs, attempts, a) && AttemptFits(jobs, attempts, b);
      CountGrows(attempts, a, b, j);
    }
  }
}
