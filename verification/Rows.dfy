/** The rows of the PostgreSQL schema and the values exchanged with its callers.

    Jobs, attempts, schedules and occurrences are never deleted, so each of those tables is a
    sequence and a row's identity is its position.  Artifact rows are deleted by retention; they
    are kept under their unique key (job, kind, item).  Instants are integers of nanoseconds.
  */
module Rows {

  type Time = int

  const SECOND: int := 1_000_000_000

  const DEFAULT_MAX_ATTEMPTS: nat := 3
  const MAX_ATTEMPTS: nat := 10
  const MAX_FILES_PER_JOB: nat := 10
  const MAX_OUTPUT_WIDTH: nat := 8192
  const DEMO_DELAY_MS: nat := 500
  const DEFAULT_OWNER: nat := 1

  const LEASE_EXPIRED_MESSAGE: string := "worker lease expired before completion"

  datatype Option<+T> = None | Some(value: T)

  /** The errors of the repositories.  A constraint violation is the database's own error; like
      every other error it rolls the transaction back. */
  datatype Error = ClaimLost | StateConflict | InvalidData | IdempotencyConflict | ConstraintViolation

  datatype Result<+T> = Ok(value: T) | Err(error: Error)

  datatype JobStatus = Queued | Running | RetryWaiting | CancelRequested | Succeeded | Failed | Cancelled

  predicate Terminal(status: JobStatus) {
    status.Succeeded? || status.Failed? || status.Cancelled?
  }

  datatype AttemptStatus = Running | Succeeded | Failed | Cancelled

  datatype FailureKind = Transient | Permanent

  datatype ErrorKind = FailedWith(kind: FailureKind) | CancelledByUser

  datatype Priority = High | Normal | Low

  datatype Work = DemoDelay(delayMs: nat) | ImageResize(maxWidth: nat, jpegQuality: nat)

  datatype ResultNote = DemoDelayCompleted | ImagesResized(count: nat)

  datatype Idempotency = Idempotency(key: string, fingerprint: seq<int>)

  /** The schedule slot a job was created for. */
  datatype Origin = Origin(schedule: nat, slot: Time)

  datatype Job = Job(
    work: Work,
    status: JobStatus,
    priority: Priority,
    availableAt: Time,
    progress: nat,
    total: nat,
    maxAttempts: nat,
    result: Option<ResultNote>,
    failure: Option<string>,
    cancelRequestedAt: Option<Time>,
    startedAt: Option<Time>,
    finishedAt: Option<Time>,
    retryOf: Option<nat>,
    owner: nat,
    idempotency: Option<Idempotency>,
    origin: Option<Origin>,
    outputsExpiredAt: Option<Time>)

  datatype Attempt = Attempt(
    job: nat,
    number: nat,
    status: AttemptStatus,
    progress: nat,
    total: nat,
    startedAt: Time,
    finishedAt: Option<Time>,
    worker: nat,
    token: nat,
    leaseExpiresAt: Time,
    encodingMs: nat,
    errorKind: Option<ErrorKind>)

  /** A storage key: an uploaded file, or the output of one attempt for one input. */
  datatype Key = InputKey(batch: nat, file: nat) | OutputKey(job: nat, attempt: nat, input: nat)

  datatype InputFile = InputFile(batch: nat, file: nat)

  datatype Kind = Input | Output

  /** The columns of the constraint UNIQUE (job_id, kind, item_index). */
  datatype Slot = Slot(job: nat, kind: Kind, item: nat)

  datatype Artifact = Artifact(id: nat, attempt: Option<nat>, source: Option<nat>, key: Key)

  datatype WorkerRow = WorkerRow(
    limit: nat,
    leaseSeconds: nat,
    startedAt: Time,
    lastHeartbeatAt: Time,
    heartbeatExpiresAt: Time,
    stoppedAt: Option<Time>)

  /** A schedule together with its rows of schedule_inputs, in item order. */
  datatype Schedule = Schedule(
    enabled: bool,
    interval: nat,
    anchor: Time,
    next: Time,
    priority: Priority,
    maxWidth: nat,
    jpegQuality: nat,
    owner: nat,
    inputs: seq<InputFile>)

  /** A recorded slot: the job created for it, or none when it was skipped for overlap. */
  datatype Occurrence = Occurrence(schedule: nat, slot: Time, job: Option<nat>, coalesced: nat)

  datatype InputRow = InputRow(id: nat, item: nat, key: Key)

  datatype ClaimedWork = DemoWork | ImageWork(inputs: seq<InputRow>)

  /** What claim_next hands to a worker. */
  datatype Claim = Claim(
    job: nat,
    attempt: nat,
    number: nat,
    maxAttempts: nat,
    worker: nat,
    token: nat,
    leaseExpiresAt: Time,
    work: ClaimedWork)

  datatype PendingOutput = PendingOutput(source: nat, item: nat, key: Key)

  datatype Disposition = RetryScheduled(availableAt: Time) | JobFailed | JobCancelled

  datatype Reclaimed = Reclaimed(job: nat, attempt: nat, worker: nat, disposition: Disposition)

  datatype Tick = Tick(schedule: nat, slot: Time, job: Option<nat>, coalesced: nat)

  /** The whole database.  The last component is not a table: it holds every claim value that a
      worker has received, which is what makes a call with a claim possible at all. */
  datatype Tables = Tables(
    jobs: seq<Job>,
    attempts: seq<Attempt>,
    artifacts: map<Slot, Artifact>,
    nextArtifact: nat,
    workers: map<nat, WorkerRow>,
    schedules: seq<Schedule>,
    occurrences: seq<Occurrence>,
    claims: set<Claim>)

  const EMPTY: Tables := Tables([], [], map[], 0, map[], [], [], {})
}
