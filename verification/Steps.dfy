/** What each repository transaction does to the tables when it commits, and what it answers.

    Every function here is one atomic step: it decides first and changes the tables only on the
    answer Ok, so an error is a transaction that was rolled back.  Each step has its own `now`.
  */
module Steps {
  import opened Rows
  import opened Slots

  // ---------------------------------------------------------------- small readings

  predicate JobHas(t: Tables, job: nat, status: JobStatus) {
    job < |t.jobs| && t.jobs[job].status == status
  }

  /** The WHERE clause that every claim-guarded statement shares. */
  predicate Held(t: Tables, c: Claim, now: Time) {
    && c.attempt < |t.attempts|
    && t.attempts[c.attempt].job == c.job
    && t.attempts[c.attempt].status.Running?
    && t.attempts[c.attempt].worker == c.worker
    && t.attempts[c.attempt].token == c.token
    && t.attempts[c.attempt].leaseExpiresAt > now
  }

  predicate Live(t: Tables, worker: nat, now: Time) {
    worker in t.workers && t.workers[worker].stoppedAt.None? && t.workers[worker].heartbeatExpiresAt > now
  }

  /** MAX(attempt_number) over the first n attempts of a job, or 0. */
  function MaxNumber(attempts: seq<Attempt>, n: nat, job: nat): nat
    requires n <= |attempts|
  {
    if n == 0 then 0
    else
      var rest := MaxNumber(attempts, n - 1, job);
      if attempts[n - 1].job == job && attempts[n - 1].number > rest then attempts[n - 1].number else rest
  }

  predicate OwnedBy(job: Job, owner: Option<nat>) {
    owner.None? || job.owner == owner.value
  }

  /** 1 << min(attempt - 1, 31), capped at 60 seconds. */
  function RetryBackoffSeconds(attemptNumber: nat): nat {
    var shift := if attemptNumber == 0 then 0 else attemptNumber - 1;
    var power := Power(if shift < 31 then shift else 31);
    if power < 60 then power else 60
  }

  function Power(n: nat): nat {
    if n == 0 then 1 else 2 * Power(n - 1)
  }

  // ---------------------------------------------------------------- creating jobs

  function NewJob(work: Work, priority: Priority, availableAt: Time, total: nat, owner: nat): Job {
    Job(work, JobStatus.Queued, priority, availableAt, 0, total, DEFAULT_MAX_ATTEMPTS, None, None,
        None, None, None, None, owner, None, None, None)
  }

  function CreateDemoStep(t: Tables, now: Time): (Tables, Result<nat>) {
    (t.(jobs := t.jobs + [NewJob(DemoDelay(DEMO_DELAY_MS), Normal, now, 1, DEFAULT_OWNER)]), Ok(|t.jobs|))
  }

  datatype ImageRequest = ImageRequest(
    owner: nat,
    maxWidth: nat,
    jpegQuality: nat,
    availableAt: Option<Time>,
    priority: Priority,
    inputs: seq<InputFile>,
    idempotency: Option<Idempotency>)

  predicate ValidSettings(maxWidth: nat, jpegQuality: nat) {
    1 <= maxWidth <= MAX_OUTPUT_WIDTH && 1 <= jpegQuality <= 100
  }

  predicate ValidIdempotency(i: Idempotency) {
    1 <= |i.key| <= 128 && |i.fingerprint| == 32
  }

  predicate ValidImageRequest(r: ImageRequest) {
    && 1 <= |r.inputs| <= MAX_FILES_PER_JOB
    && ValidSettings(r.maxWidth, r.jpegQuality)
    && (r.idempotency.Some? ==> ValidIdempotency(r.idempotency.value))
  }

  /** The first of the first n jobs with this owner and idempotency key. */
  function FindKey(jobs: seq<Job>, n: nat, owner: nat, key: string): (r: Option<nat>)
    requires n <= |jobs|
    ensures r.Some? ==> r.value < n && jobs[r.value].owner == owner
                        && jobs[r.value].idempotency.Some? && jobs[r.value].idempotency.value.key == key
    ensures r.None? ==> forall j: nat :: j < n && jobs[j].owner == owner && jobs[j].idempotency.Some?
                                         ==> jobs[j].idempotency.value.key != key
  {
    if n == 0 then None
    else
      var rest := FindKey(jobs, n - 1, owner, key);
      if rest.Some? then rest
      else if jobs[n - 1].owner == owner && jobs[n - 1].idempotency.Some? && jobs[n - 1].idempotency.value.key == key
      then Some(n - 1) else None
  }

  /** The lookup that precedes creation: a replay finds its job, a mismatch is a conflict. */
  function FindIdempotent(t: Tables, owner: nat, i: Idempotency): Result<Option<nat>> {
    if !ValidIdempotency(i) then Err(InvalidData)
    else match FindKey(t.jobs, |t.jobs|, owner, i.key)
      case None => Ok(None)
      case Some(j) =>
        if t.jobs[j].idempotency.value.fingerprint != i.fingerprint then Err(IdempotencyConflict) else Ok(Some(j))
  }

  /** Inserts the first n files as the input rows of a job. */
  function InsertInputs(artifacts: map<Slot, Artifact>, next: nat, job: nat, files: seq<InputFile>, n: nat): map<Slot, Artifact>
    requires n <= |files|
  {
    if n == 0 then artifacts
    else
      InsertInputs(artifacts, next, job, files, n - 1)
      [Slot(job, Input, n - 1) := Artifact(next + n - 1, None, None, InputKey(files[n - 1].batch, files[n - 1].file))]
  }

  function CreateImageStep(t: Tables, r: ImageRequest, now: Time): (Tables, Result<nat>) {
    if !ValidImageRequest(r) then (t, Err(InvalidData))
    else
      var found := if r.idempotency.Some? then FindIdempotent(t, r.owner, r.idempotency.value) else Ok(None);
      if found.Err? then (t, Err(found.error))
      else if found.value.Some? then (t, Ok(found.value.value))
      else
        var at := if r.availableAt.Some? then r.availableAt.value else now;
        var job := NewJob(ImageResize(r.maxWidth, r.jpegQuality), r.priority, at, |r.inputs|, r.owner)
                   .(idempotency := r.idempotency);
        (t.(jobs := t.jobs + [job],
            artifacts := InsertInputs(t.artifacts, t.nextArtifact, |t.jobs|, r.inputs, |r.inputs|),
            nextArtifact := t.nextArtifact + |r.inputs|),
         Ok(|t.jobs|))
  }

  // ---------------------------------------------------------------- claiming

  function Rank(p: Priority): nat {
    match p case High => 0 case Normal => 1 case Low => 2
  }

  /** ORDER BY priority rank, available_at, id. */
  predicate Before(a: Job, i: nat, b: Job, j: nat) {
    || Rank(a.priority) < Rank(b.priority)
    || (Rank(a.priority) == Rank(b.priority) && a.availableAt < b.availableAt)
    || (Rank(a.priority) == Rank(b.priority) && a.availableAt == b.availableAt && i < j)
  }

  predicate Eligible(job: Job, now: Time) {
    (job.status.Queued? || job.status.RetryWaiting?) && job.availableAt <= now
  }

  /** The first eligible job in queue order among the first n. */
  function NextCandidate(jobs: seq<Job>, n: nat, now: Time): (r: Option<nat>)
    requires n <= |jobs|
    ensures r.Some? ==> r.value < n && Eligible(jobs[r.value], now)
    ensures r.Some? ==> forall j: nat :: j < n && Eligible(jobs[j], now) && j != r.value
                                         ==> Before(jobs[r.value], r.value, jobs[j], j)
    ensures r.None? ==> forall j: nat :: j < n ==> !Eligible(jobs[j], now)
  {
    if n == 0 then None
    else
      var best := NextCandidate(jobs, n - 1, now);
      if !Eligible(jobs[n - 1], now) then best
      else if best.None? || Before(jobs[n - 1], n - 1, jobs[best.value], best.value) then Some(n - 1)
      else best
  }

  /** The input rows of a job among the first n items, in item order. */
  function LoadInputs(artifacts: map<Slot, Artifact>, job: nat, n: nat): (r: seq<InputRow>)
    ensures |r| <= n
  {
    if n == 0 then []
    else
      var rest := LoadInputs(artifacts, job, n - 1);
      var slot := Slot(job, Input, n - 1);
      if slot in artifacts then rest + [InputRow(artifacts[slot].id, n - 1, artifacts[slot].key)] else rest
  }

  predicate TokenUsed(attempts: seq<Attempt>, token: nat) {
    exists a: nat :: a < |attempts| && attempts[a].token == token
  }

  function ClaimedRow(job: Job, now: Time): Job {
    job.(status := JobStatus.Running,
         startedAt := if job.startedAt.Some? then job.startedAt else Some(now),
         progress := 0, result := None, failure := None, finishedAt := None)
  }

  function ClaimStep(t: Tables, worker: nat, now: Time, token: nat): (Tables, Result<Option<Claim>>) {
    match NextCandidate(t.jobs, |t.jobs|, now)
    case None => (t, Ok(None))
    case Some(j) =>
      var job := t.jobs[j];
      var number := MaxNumber(t.attempts, |t.attempts|, j) + 1;
      if number > job.maxAttempts then (t, Err(InvalidData))
      else if !Live(t, worker, now) then (t, Err(StateConflict))
      else if TokenUsed(t.attempts, token) then (t, Err(ConstraintViolation))
      else
        var inputs := LoadInputs(t.artifacts, j, MAX_FILES_PER_JOB);
        if job.work.ImageResize? && |inputs| != job.total then (t, Err(InvalidData))
        else
          var lease := now + t.workers[worker].leaseSeconds * SECOND;
          var attempt := Attempt(j, number, AttemptStatus.Running, 0, job.total, now, None, worker, token, lease, 0, None);
          var claim := Claim(j, |t.attempts|, number, job.maxAttempts, worker, token, lease,
                             if job.work.DemoDelay? then DemoWork else ImageWork(inputs));
          (t.(jobs := t.jobs[j := ClaimedRow(job, now)],
              attempts := t.attempts + [attempt],
              claims := t.claims + {claim}),
           Ok(Some(claim)))
  }

  // ---------------------------------------------------------------- calls made with a claim

  function RenewStep(t: Tables, c: Claim, now: Time): (Tables, Result<Time>) {
    if && Held(t, c, now) && Live(t, c.worker, now)
       && (JobHas(t, c.job, JobStatus.Running) || JobHas(t, c.job, JobStatus.CancelRequested))
    then
      var lease := now + t.workers[c.worker].leaseSeconds * SECOND;
      (t.(attempts := t.attempts[c.attempt := t.attempts[c.attempt].(leaseExpiresAt := lease)]), Ok(lease))
    else (t, Err(ClaimLost))
  }

  function EncodingStep(t: Tables, c: Claim, ms: nat, now: Time): (Tables, Result<()>) {
    if !Held(t, c, now) then (t, Err(ClaimLost))
    else
      var a := t.attempts[c.attempt];
      (t.(attempts := t.attempts[c.attempt := a.(encodingMs := a.encodingMs + ms)]), Ok(()))
  }

  function ProgressStep(t: Tables, c: Claim, completed: nat, now: Time): (Tables, Result<()>) {
    if !Held(t, c, now) || !(t.attempts[c.attempt].progress <= completed <= t.attempts[c.attempt].total)
    then (t, Err(ClaimLost))
    else if !JobHas(t, c.job, JobStatus.Running) || !(t.jobs[c.job].progress <= completed <= t.jobs[c.job].total)
    then (t, Err(StateConflict))
    else
      (t.(jobs := t.jobs[c.job := t.jobs[c.job].(progress := completed)],
          attempts := t.attempts[c.attempt := t.attempts[c.attempt].(progress := completed)]),
       Ok(()))
  }

  function FinishedAttempt(a: Attempt, status: AttemptStatus, errorKind: Option<ErrorKind>, now: Time): Attempt {
    a.(status := status, finishedAt := Some(now), errorKind := errorKind,
       progress := if status.Succeeded? then a.total else a.progress)
  }

  function SucceededJob(job: Job, note: ResultNote, now: Time): Job {
    job.(status := JobStatus.Succeeded, progress := job.total, result := Some(note), failure := None, finishedAt := Some(now))
  }

  function CompleteDemoStep(t: Tables, c: Claim, now: Time): (Tables, Result<()>) {
    if !c.work.DemoWork? then (t, Err(InvalidData))
    else if !Held(t, c, now) then (t, Err(ClaimLost))
    else if !JobHas(t, c.job, JobStatus.Running) || !t.jobs[c.job].work.DemoDelay? then (t, Err(StateConflict))
    else
      (t.(jobs := t.jobs[c.job := SucceededJob(t.jobs[c.job], DemoDelayCompleted, now)],
          attempts := t.attempts[c.attempt := FinishedAttempt(t.attempts[c.attempt], AttemptStatus.Succeeded, None, now)]),
       Ok(()))
  }

  /** Publishes a manifest row by row: each output must name an input row of the same job with the
      same item index, and no item may be published twice. */
  function InsertOutputs(artifacts: map<Slot, Artifact>, next: nat, job: nat, attempt: nat, outputs: seq<PendingOutput>)
    : Result<map<Slot, Artifact>>
    decreases |outputs|
  {
    if outputs == [] then Ok(artifacts)
    else
      var o := outputs[0];
      var source := Slot(job, Input, o.item);
      var slot := Slot(job, Output, o.item);
      if source !in artifacts || artifacts[source].id != o.source then Err(StateConflict)
      else if slot in artifacts then Err(ConstraintViolation)
      else InsertOutputs(artifacts[slot := Artifact(next, Some(attempt), Some(o.source), o.key)],
                         next + 1, job, attempt, outputs[1..])
  }

  function CompleteImageStep(t: Tables, c: Claim, outputs: seq<PendingOutput>, now: Time): (Tables, Result<()>) {
    if !c.work.ImageWork? || |outputs| != |c.work.inputs| then (t, Err(InvalidData))
    else if !Held(t, c, now) || !JobHas(t, c.job, JobStatus.Running) then (t, Err(ClaimLost))
    else
      var published := InsertOutputs(t.artifacts, t.nextArtifact, c.job, c.attempt, outputs);
      if published.Err? then (t, Err(published.error))
      else if !t.jobs[c.job].work.ImageResize? then (t, Err(StateConflict))
      else
        (t.(jobs := t.jobs[c.job := SucceededJob(t.jobs[c.job], ImagesResized(|outputs|), now)],
            attempts := t.attempts[c.attempt := FinishedAttempt(t.attempts[c.attempt], AttemptStatus.Succeeded, None, now)],
            artifacts := published.value,
            nextArtifact := t.nextArtifact + |outputs|),
         Ok(()))
  }

  function CancellationRequested(t: Tables, c: Claim, now: Time): Result<bool> {
    if !Held(t, c, now) || c.job >= |t.jobs| then Err(ClaimLost)
    else match t.jobs[c.job].status
      case Running => Ok(false)
      case CancelRequested => Ok(true)
      case _ => Err(ClaimLost)
  }

  function CancelledJob(job: Job, now: Time): Job {
    job.(status := JobStatus.Cancelled, result := None, failure := None, finishedAt := Some(now))
  }

  function FailedJob(job: Job, message: string, now: Time): Job {
    job.(status := JobStatus.Failed, failure := Some(message), result := None, finishedAt := Some(now))
  }

  function RetryingJob(job: Job, message: string, availableAt: Time): Job {
    job.(status := JobStatus.RetryWaiting, availableAt := availableAt, progress := 0,
         failure := Some(message), result := None, finishedAt := None)
  }

  function FinishCancelledStep(t: Tables, c: Claim, now: Time): (Tables, Result<()>) {
    if !Held(t, c, now) then (t, Err(ClaimLost))
    else if !JobHas(t, c.job, JobStatus.CancelRequested) then (t, Err(StateConflict))
    else
      (t.(jobs := t.jobs[c.job := CancelledJob(t.jobs[c.job], now)],
          attempts := t.attempts[c.attempt := FinishedAttempt(t.attempts[c.attempt], AttemptStatus.Cancelled, Some(CancelledByUser), now)]),
       Ok(()))
  }

  function FailureStep(t: Tables, c: Claim, kind: FailureKind, message: string, now: Time): (Tables, Result<Disposition>) {
    if !Held(t, c, now) then (t, Err(ClaimLost))
    else if !JobHas(t, c.job, JobStatus.Running) then (t, Err(StateConflict))
    else
      var retry := kind.Transient? && c.number < c.maxAttempts;
      var at := now + RetryBackoffSeconds(c.number) * SECOND;
      var job := if retry then RetryingJob(t.jobs[c.job], message, at) else FailedJob(t.jobs[c.job], message, now);
      (t.(jobs := t.jobs[c.job := job],
          attempts := t.attempts[c.attempt := FinishedAttempt(t.attempts[c.attempt], AttemptStatus.Failed, Some(FailedWith(kind)), now)]),
       Ok(if retry then RetryScheduled(at) else JobFailed))
  }

  // ---------------------------------------------------------------- reclaiming, cancelling, retrying

  predicate Expired(t: Tables, a: nat, now: Time)
    requires a < |t.attempts|
  {
    && t.attempts[a].status.Running?
    && t.attempts[a].leaseExpiresAt <= now
    && (JobHas(t, t.attempts[a].job, JobStatus.Running) || JobHas(t, t.attempts[a].job, JobStatus.CancelRequested))
  }

  /** ORDER BY lease_expires_at, id. */
  predicate ExpiresBefore(t: Tables, a: nat, b: nat)
    requires a < |t.attempts| && b < |t.attempts|
  {
    || t.attempts[a].leaseExpiresAt < t.attempts[b].leaseExpiresAt
    || (t.attempts[a].leaseExpiresAt == t.attempts[b].leaseExpiresAt && a < b)
  }

  /** The first expired attempt in that order among the first n. */
  function NextExpired(t: Tables, n: nat, now: Time): (r: Option<nat>)
    requires n <= |t.attempts|
    ensures r.Some? ==> r.value < n && Expired(t, r.value, now)
    ensures r.Some? ==> forall a: nat :: a < n && Expired(t, a, now) && a != r.value ==> ExpiresBefore(t, r.value, a)
    ensures r.None? ==> forall a: nat :: a < n ==> !Expired(t, a, now)
  {
    if n == 0 then None
    else
      var best := NextExpired(t, n - 1, now);
      if !Expired(t, n - 1, now) then best
      else if best.None? || t.attempts[n - 1].leaseExpiresAt < t.attempts[best.value].leaseExpiresAt then Some(n - 1)
      else best
  }

  function ReclaimStep(t: Tables, now: Time): (Tables, Result<Option<Reclaimed>>) {
    match NextExpired(t, |t.attempts|, now)
    case None => (t, Ok(None))
    case Some(a) =>
      var row := t.attempts[a];
      var job := t.jobs[row.job];
      var cancelling := job.status.CancelRequested?;
      var attempt := if cancelling
                     then FinishedAttempt(row, AttemptStatus.Cancelled, Some(CancelledByUser), now)
                     else FinishedAttempt(row, AttemptStatus.Failed, Some(FailedWith(Transient)), now);
      var at := now + RetryBackoffSeconds(row.number) * SECOND;
      var retry := !cancelling && row.number < job.maxAttempts;
      var job' := if cancelling then CancelledJob(job, now)
                  else if retry then RetryingJob(job, LEASE_EXPIRED_MESSAGE, at)
                  else FailedJob(job, LEASE_EXPIRED_MESSAGE, now);
      var disposition := if cancelling then JobCancelled else if retry then RetryScheduled(at) else JobFailed;
      (t.(jobs := t.jobs[row.job := job'], attempts := t.attempts[a := attempt]),
       Ok(Some(Reclaimed(row.job, a, row.worker, disposition))))
  }

  function CancelRequestRow(job: Job, now: Time): Job {
    var waiting := job.status.Queued? || job.status.RetryWaiting?;
    job.(status := if waiting then JobStatus.Cancelled else if job.status.Running? then JobStatus.CancelRequested else job.status,
         cancelRequestedAt := if job.cancelRequestedAt.Some? then job.cancelRequestedAt else Some(now),
         finishedAt := if waiting then Some(now) else job.finishedAt,
         failure := if waiting then None else job.failure)
  }

  function RequestCancelStep(t: Tables, job: nat, owner: Option<nat>, now: Time): (Tables, Result<Option<nat>>) {
    if job >= |t.jobs| || !OwnedBy(t.jobs[job], owner) then (t, Ok(None))
    else if t.jobs[job].status.Succeeded? || t.jobs[job].status.Failed? then (t, Err(StateConflict))
    else (t.(jobs := t.jobs[job := CancelRequestRow(t.jobs[job], now)]), Ok(Some(job)))
  }

  /** Copies the input rows of one job, among the first n items, to another. */
  function CopyInputs(artifacts: map<Slot, Artifact>, next: nat, from: nat, to: nat, n: nat): (map<Slot, Artifact>, nat) {
    if n == 0 then (artifacts, next)
    else
      var (rest, id) := CopyInputs(artifacts, next, from, to, n - 1);
      var source := Slot(from, Input, n - 1);
      if source in artifacts
      then (rest[Slot(to, Input, n - 1) := Artifact(id, None, None, artifacts[source].key)], id + 1)
      else (rest, id)
  }

  function ManualRetryStep(t: Tables, job: nat, owner: Option<nat>, now: Time): (Tables, Result<Option<nat>>) {
    if job >= |t.jobs| || !OwnedBy(t.jobs[job], owner) then (t, Ok(None))
    else if !t.jobs[job].status.Failed? && !t.jobs[job].status.Cancelled? then (t, Err(StateConflict))
    else
      var source := t.jobs[job];
      var copy := NewJob(source.work, source.priority, now, source.total, source.owner)
                  .(maxAttempts := source.maxAttempts, retryOf := Some(job));
      var (artifacts, next) := CopyInputs(t.artifacts, t.nextArtifact, job, |t.jobs|, MAX_FILES_PER_JOB);
      (t.(jobs := t.jobs + [copy], artifacts := artifacts, nextArtifact := next), Ok(Some(|t.jobs|)))
  }

  // ---------------------------------------------------------------- workers

  datatype Registration = Registration(id: nat, limit: nat, leaseSeconds: nat, heartbeatSeconds: nat)

  predicate ValidSeconds(seconds: nat) {
    2 <= seconds <= 3600
  }

  function RegisterStep(t: Tables, r: Registration, now: Time): (Tables, Result<()>) {
    if !(1 <= r.limit <= 64) || !ValidSeconds(r.leaseSeconds) || !ValidSeconds(r.heartbeatSeconds)
    then (t, Err(InvalidData))
    else if r.id in t.workers then (t, Err(ConstraintViolation))
    else
      var row := WorkerRow(r.limit, r.leaseSeconds, now, now, now + r.heartbeatSeconds * SECOND, None);
      (t.(workers := t.workers[r.id := row]), Ok(()))
  }

  function HeartbeatStep(t: Tables, worker: nat, ttlSeconds: nat, now: Time): (Tables, Result<()>) {
    if !ValidSeconds(ttlSeconds) then (t, Err(InvalidData))
    else if worker !in t.workers || t.workers[worker].stoppedAt.Some? then (t, Err(StateConflict))
    else
      var row := t.workers[worker].(lastHeartbeatAt := now, heartbeatExpiresAt := now + ttlSeconds * SECOND);
      (t.(workers := t.workers[worker := row]), Ok(()))
  }

  function StopStep(t: Tables, worker: nat, now: Time): (Tables, Result<()>) {
    if worker !in t.workers then (t, Err(StateConflict))
    else
      var row := t.workers[worker];
      if row.stoppedAt.Some? then (t, Ok(()))
      else if now < row.startedAt then (t, Err(ConstraintViolation))
      else (t.(workers := t.workers[worker := row.(stoppedAt := Some(now))]), Ok(()))
  }

  // ---------------------------------------------------------------- retention

  /** Terminal for at least the retention period. */
  predicate PastRetention(job: Job, retentionSeconds: nat, now: Time) {
    Terminal(job.status) && job.finishedAt.Some? && job.finishedAt.value <= now - retentionSeconds * SECOND
  }

  predicate ExpiringSlot(t: Tables, slot: Slot, retentionSeconds: nat, now: Time) {
    slot.kind.Output? && slot.job < |t.jobs| && PastRetention(t.jobs[slot.job], retentionSeconds, now)
  }

  function StampExpired(job: Job, retentionSeconds: nat, now: Time): Job {
    if PastRetention(job, retentionSeconds, now) && job.outputsExpiredAt.None?
    then job.(outputsExpiredAt := Some(now)) else job
  }

  function ExpireStep(t: Tables, retentionSeconds: nat, now: Time): (Tables, set<Key>) {
    (t.(jobs := seq(|t.jobs|, j requires 0 <= j < |t.jobs| => StampExpired(t.jobs[j], retentionSeconds, now)),
        artifacts := map slot | slot in t.artifacts && !ExpiringSlot(t, slot, retentionSeconds, now) :: t.artifacts[slot]),
     set slot | slot in t.artifacts && ExpiringSlot(t, slot, retentionSeconds, now) :: t.artifacts[slot].key)
  }

  // ---------------------------------------------------------------- schedules

  datatype ScheduleRequest = ScheduleRequest(
    owner: nat, interval: nat, anchor: Time, priority: Priority, maxWidth: nat, jpegQuality: nat, inputs: seq<InputFile>)

  datatype ScheduleEdit = ScheduleEdit(
    enabled: bool, interval: nat, anchor: Time, priority: Priority, maxWidth: nat, jpegQuality: nat)

  function CreateScheduleStep(t: Tables, r: ScheduleRequest): (Tables, Result<nat>) {
    if !ValidInterval(r.interval) || !ValidSettings(r.maxWidth, r.jpegQuality) || !(1 <= |r.inputs| <= MAX_FILES_PER_JOB)
    then (t, Err(InvalidData))
    else
      var row := Schedule(true, r.interval, r.anchor, r.anchor, r.priority, r.maxWidth, r.jpegQuality, r.owner, r.inputs);
      (t.(schedules := t.schedules + [row]), Ok(|t.schedules|))
  }

  function UpdateScheduleStep(t: Tables, id: nat, edit: ScheduleEdit, owner: Option<nat>, now: Time): (Tables, Result<Option<nat>>) {
    if !ValidInterval(edit.interval) || !ValidSettings(edit.maxWidth, edit.jpegQuality) then (t, Err(InvalidData))
    else
      var next := NextSlotAfter(edit.anchor, edit.interval, now);
      if next.Err? then (t, Err(next.error))
      else if id >= |t.schedules| || (owner.Some? && t.schedules[id].owner != owner.value) then (t, Ok(None))
      else
        var row := t.schedules[id].(enabled := edit.enabled, interval := edit.interval, anchor := edit.anchor, next := next.value,
                                    priority := edit.priority, maxWidth := edit.maxWidth, jpegQuality := edit.jpegQuality);
        (t.(schedules := t.schedules[id := row]), Ok(Some(id)))
  }

  predicate ScheduleDue(s: Schedule, now: Time) {
    s.enabled && s.next <= now
  }

  /** ORDER BY next_run_at, id. */
  predicate DueBefore(schedules: seq<Schedule>, i: nat, j: nat)
    requires i < |schedules| && j < |schedules|
  {
    schedules[i].next < schedules[j].next || (schedules[i].next == schedules[j].next && i < j)
  }

  /** The first due schedule in that order among the first n. */
  function NextDue(schedules: seq<Schedule>, n: nat, now: Time): (r: Option<nat>)
    requires n <= |schedules|
    ensures r.Some? ==> r.value < n && ScheduleDue(schedules[r.value], now)
    ensures r.Some? ==> forall i: nat :: i < n && ScheduleDue(schedules[i], now) && i != r.value ==> DueBefore(schedules, r.value, i)
    ensures r.None? ==> forall i: nat :: i < n ==> !ScheduleDue(schedules[i], now)
  {
    if n == 0 then None
    else
      var best := NextDue(schedules, n - 1, now);
      if !ScheduleDue(schedules[n - 1], now) then best
      else if best.None? || schedules[n - 1].next < schedules[best.value].next then Some(n - 1)
      else best
  }

  predicate ActiveFor(job: Job, schedule: nat) {
    job.origin.Some? && job.origin.value.schedule == schedule && !Terminal(job.status)
  }

  predicate Overlaps(jobs: seq<Job>, schedule: nat) {
    exists j: nat :: j < |jobs| && ActiveFor(jobs[j], schedule)
  }

  predicate SlotRecorded(occurrences: seq<Occurrence>, schedule: nat, slot: Time) {
    exists o: nat :: o < |occurrences| && occurrences[o].schedule == schedule && occurrences[o].slot == slot
  }

  function OccurrenceJob(s: Schedule, schedule: nat, slot: Time): Job {
    NewJob(ImageResize(s.maxWidth, s.jpegQuality), s.priority, slot, |s.inputs|, s.owner)
    .(origin := Some(Origin(schedule, slot)))
  }

  function TickStep(t: Tables, now: Time): (Tables, Result<Option<Tick>>) {
    match NextDue(t.schedules, |t.schedules|, now)
    case None => (t, Ok(None))
    case Some(i) =>
      var s := t.schedules[i];
      if s.interval == 0 then (t, Err(InvalidData))
      else
        var due := LatestDueSlot(s.next, s.interval, now);
        if due.Err? then (t, Err(due.error))
        else if !(1 <= |s.inputs| <= MAX_FILES_PER_JOB) then (t, Err(InvalidData))
        else
          var slot := due.value.slot;
          if SlotRecorded(t.occurrences, i, slot) then (t, Err(ConstraintViolation))
          else
            var schedules := t.schedules[i := s.(next := due.value.next)];
            if Overlaps(t.jobs, i)
            then
              (t.(schedules := schedules,
                  occurrences := t.occurrences + [Occurrence(i, slot, None, due.value.coalesced)]),
               Ok(Some(Tick(i, slot, None, due.value.coalesced))))
            else
              (t.(jobs := t.jobs + [OccurrenceJob(s, i, slot)],
                  artifacts := InsertInputs(t.artifacts, t.nextArtifact, |t.jobs|, s.inputs, |s.inputs|),
                  nextArtifact := t.nextArtifact + |s.inputs|,
                  schedules := schedules,
                  occurrences := t.occurrences + [Occurrence(i, slot, Some(|t.jobs|), due.value.coalesced)]),
               Ok(Some(Tick(i, slot, Some(|t.jobs|), due.value.coalesced))))
  }

  // ---------------------------------------------------------------- runs

  datatype Event =
    | CreateDemo(now: Time)
    | CreateImage(image: ImageRequest, now: Time)
    | ClaimNext(worker: nat, now: Time, token: nat)
    | Renew(claim: Claim, now: Time)
    | RecordEncoding(claim: Claim, ms: nat, now: Time)
    | UpdateProgress(claim: Claim, completed: nat, now: Time)
    | CompleteDemo(claim: Claim, now: Time)
    | CompleteImage(claim: Claim, outputs: seq<PendingOutput>, now: Time)
    | RecordFailure(claim: Claim, kind: FailureKind, message: string, now: Time)
    | FinishCancelled(claim: Claim, now: Time)
    | Reclaim(now: Time)
    | RequestCancel(job: nat, caller: Option<nat>, now: Time)
    | ManualRetry(job: nat, caller: Option<nat>, now: Time)
    | Register(registration: Registration, now: Time)
    | Heartbeat(worker: nat, ttlSeconds: nat, now: Time)
    | Stop(worker: nat, now: Time)
    | Expire(retentionSeconds: nat, now: Time)
    | CreateSchedule(schedule: ScheduleRequest)
    | UpdateSchedule(id: nat, edit: ScheduleEdit, caller: Option<nat>, now: Time)
    | TickSchedules(now: Time)

  predicate UsesClaim(e: Event) {
    || e.Renew? || e.RecordEncoding? || e.UpdateProgress? || e.CompleteDemo? || e.CompleteImage?
    || e.RecordFailure? || e.FinishCancelled?
  }

  /** Nobody can make a call with a claim that no worker ever received. */
  predicate Possible(t: Tables, e: Event) {
    UsesClaim(e) ==> e.claim in t.claims
  }

  function Perform(t: Tables, e: Event): Tables {
    match e
    case CreateDemo(now) => CreateDemoStep(t, now).0
    case CreateImage(r, now) => CreateImageStep(t, r, now).0
    case ClaimNext(w, now, token) => ClaimStep(t, w, now, token).0
    case Renew(c, now) => RenewStep(t, c, now).0
    case RecordEncoding(c, ms, now) => EncodingStep(t, c, ms, now).0
    case UpdateProgress(c, n, now) => ProgressStep(t, c, n, now).0
    case CompleteDemo(c, now) => CompleteDemoStep(t, c, now).0
    case CompleteImage(c, outputs, now) => CompleteImageStep(t, c, outputs, now).0
    case RecordFailure(c, kind, message, now) => FailureStep(t, c, kind, message, now).0
    case FinishCancelled(c, now) => FinishCancelledStep(t, c, now).0
    case Reclaim(now) => ReclaimStep(t, now).0
    case RequestCancel(j, caller, now) => RequestCancelStep(t, j, caller, now).0
    case ManualRetry(j, caller, now) => ManualRetryStep(t, j, caller, now).0
    case Register(r, now) => RegisterStep(t, r, now).0
    case Heartbeat(w, ttl, now) => HeartbeatStep(t, w, ttl, now).0
    case Stop(w, now) => StopStep(t, w, now).0
    case Expire(retention, now) => ExpireStep(t, retention, now).0
    case CreateSchedule(r) => CreateScheduleStep(t, r).0
    case UpdateSchedule(id, edit, caller, now) => UpdateScheduleStep(t, id, edit, caller, now).0
    case TickSchedules(now) => TickStep(t, now).0
  }

  function Apply(t: Tables, e: Event): Tables {
    if Possible(t, e) then Perform(t, e) else t
  }

  function Run(t: Tables, events: seq<Event>): Tables
    decreases |events|
  {
    if events == [] then t else Run(Apply(t, events[0]), events[1..])
  }
}
