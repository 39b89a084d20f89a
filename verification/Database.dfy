/** The repositories as they work: transactions of several statements over the tables, which check
    the rows each statement affected and roll everything back when a check fails.  Every method is
    proved to be the single atomic step that module Steps describes.
  */
module Repositories {
  import opened Rows
  import opened Slots
  import opened Steps

  class Database {
    var jobs: seq<Job>
    var attempts: seq<Attempt>
    var artifacts: map<Slot, Artifact>
    var nextArtifact: nat
    var workers: map<nat, WorkerRow>
    var schedules: seq<Schedule>
    var occurrences: seq<Occurrence>
    var claims: set<Claim>

    constructor ()
      ensures State() == EMPTY
    {
      jobs, attempts, artifacts, nextArtifact := [], [], map[], 0;
      workers, schedules, occurrences, claims := map[], [], [], {};
    }

    function State(): Tables
      reads this
    {
      Tables(jobs, attempts, artifacts, nextArtifact, workers, schedules, occurrences, claims)
    }

    method Rollback(saved: Tables)
      modifies this
      ensures State() == saved
    {
      jobs, attempts, artifacts, nextArtifact := saved.jobs, saved.attempts, saved.artifacts, saved.nextArtifact;
      workers, schedules, occurrences, claims := saved.workers, saved.schedules, saved.occurrences, saved.claims;
    }

    /** The end of a transaction whose row counts have been checked. */
    method End(saved: Tables, committed: bool)
      modifies this
      ensures State() == if committed then old(State()) else saved
    {
      if !committed {
        Rollback(saved);
      }
    }

    method CreateDemo(now: Time) returns (r: Result<nat>)
      modifies this
      ensures (State(), r) == CreateDemoStep(old(State()), now)
    {
      r := Ok(|jobs|);
      jobs := jobs + [NewJob(DemoDelay(DEMO_DELAY_MS), Normal, now, 1, DEFAULT_OWNER)];
    }

    /** The rows of insert_input_artifact, one statement per file; returns how many were inserted. */
    method InsertInputRows(job: nat, files: seq<InputFile>) returns (inserted: nat)
      modifies this`artifacts, this`nextArtifact
      ensures inserted == |files|
      ensures artifacts == InsertInputs(old(artifacts), old(nextArtifact), job, files, |files|)
      ensures nextArtifact == old(nextArtifact) + |files|
    {
      inserted := 0;
      while inserted < |files|
        invariant 0 <= inserted <= |files|
        invariant nextArtifact == old(nextArtifact) + inserted
        invariant artifacts == InsertInputs(old(artifacts), old(nextArtifact), job, files, inserted)
      {
        artifacts := artifacts[Slot(job, Input, inserted) :=
          Artifact(nextArtifact, None, None, InputKey(files[inserted].batch, files[inserted].file))];
        nextArtifact := nextArtifact + 1;
        inserted := inserted + 1;
      }
    }

    method CreateImage(request: ImageRequest, now: Time) returns (r: Result<nat>)
      modifies this
      ensures (State(), r) == CreateImageStep(old(State()), request, now)
    {
      if !ValidImageRequest(request) {
        return Err(InvalidData);
      }
      if request.idempotency.Some? {
        var found := FindKey(jobs, |jobs|, request.owner, request.idempotency.value.key);
        if found.Some? {
          if jobs[found.value].idempotency.value.fingerprint != request.idempotency.value.fingerprint {
            return Err(IdempotencyConflict);
          }
          return Ok(found.value);
        }
      }
      var job := |jobs|;
      var at := if request.availableAt.Some? then request.availableAt.value else now;
      jobs := jobs + [NewJob(ImageResize(request.maxWidth, request.jpegQuality), request.priority, at, |request.inputs|, request.owner)
                      .(idempotency := request.idempotency)];
      var inserted := InsertInputRows(job, request.inputs);
      r := Ok(job);
    }

    method ClaimNext(worker: nat, now: Time, token: nat) returns (r: Result<Option<Claim>>)
      modifies this
      ensures (State(), r) == ClaimStep(old(State()), worker, now, token)
    {
      var saved := State();
      var candidate := NextCandidate(jobs, |jobs|, now);
      if candidate.None? {
        return Ok(None);
      }
      var id := candidate.value;
      var job := jobs[id];
      var number := MaxNumber(attempts, |attempts|, id) + 1;
      if number > job.maxAttempts {
        return Err(InvalidData);
      }
      jobs := jobs[id := ClaimedRow(job, now)];
      if !Live(saved, worker, now) {
        Rollback(saved);
        return Err(StateConflict);
      }
      if TokenUsed(attempts, token) {
        Rollback(saved);
        return Err(ConstraintViolation);
      }
      var attempt := |attempts|;
      var lease := now + workers[worker].leaseSeconds * SECOND;
      attempts := attempts + [Attempt(id, number, AttemptStatus.Running, 0, job.total, now, None, worker, token, lease, 0, None)];
      var work := DemoWork;
      if job.work.ImageResize? {
        var inputs := LoadInputs(artifacts, id, MAX_FILES_PER_JOB);
        if |inputs| != job.total {
          Rollback(saved);
          return Err(InvalidData);
        }
        work := ImageWork(inputs);
      }
      var claim := Claim(id, attempt, number, job.maxAttempts, worker, token, lease, work);
      claims := claims + {claim};
      r := Ok(Some(claim));
    }

    method Renew(c: Claim, now: Time) returns (r: Result<Time>)
      modifies this
      ensures (State(), r) == RenewStep(old(State()), c, now)
    {
      if !Held(State(), c, now) || !Live(State(), c.worker, now)
         || !(JobHas(State(), c.job, JobStatus.Running) || JobHas(State(), c.job, JobStatus.CancelRequested)) {
        return Err(ClaimLost);
      }
      var lease := now + workers[c.worker].leaseSeconds * SECOND;
      attempts := attempts[c.attempt := attempts[c.attempt].(leaseExpiresAt := lease)];
      r := Ok(lease);
    }

    method RecordEncoding(c: Claim, ms: nat, now: Time) returns (r: Result<()>)
      modifies this
      ensures (State(), r) == EncodingStep(old(State()), c, ms, now)
    {
      if !Held(State(), c, now) {
        return Err(ClaimLost);
      }
      var a := attempts[c.attempt];
      attempts := attempts[c.attempt := a.(encodingMs := a.encodingMs + ms)];
      r := Ok(());
    }

    /** The attempt row first, then the job row; a job that refuses undoes the attempt. */
    method UpdateProgress(c: Claim, completed: nat, now: Time) returns (r: Result<()>)
      modifies this
      ensures (State(), r) == ProgressStep(old(State()), c, completed, now)
    {
      var saved := State();
      if !Held(saved, c, now) || !(attempts[c.attempt].progress <= completed <= attempts[c.attempt].total) {
        return Err(ClaimLost);
      }
      attempts := attempts[c.attempt := attempts[c.attempt].(progress := completed)];
      if !JobHas(State(), c.job, JobStatus.Running) || !(jobs[c.job].progress <= completed <= jobs[c.job].total) {
        Rollback(saved);
        return Err(StateConflict);
      }
      jobs := jobs[c.job := jobs[c.job].(progress := completed)];
      r := Ok(());
    }

    method CompleteDemo(c: Claim, now: Time) returns (r: Result<()>)
      modifies this
      ensures (State(), r) == CompleteDemoStep(old(State()), c, now)
    {
      if !c.work.DemoWork? {
        return Err(InvalidData);
      }
      var saved := State();
      if !Held(saved, c, now) {
        return Err(ClaimLost);
      }
      attempts := attempts[c.attempt := FinishedAttempt(attempts[c.attempt], AttemptStatus.Succeeded, None, now)];
      if !JobHas(State(), c.job, JobStatus.Running) || !jobs[c.job].work.DemoDelay? {
        Rollback(saved);
        return Err(StateConflict);
      }
      jobs := jobs[c.job := SucceededJob(jobs[c.job], DemoDelayCompleted, now)];
      r := Ok(());
    }

    /** Locks the claim, publishes the outputs one row at a time, then closes attempt and job. */
    method CompleteImage(c: Claim, outputs: seq<PendingOutput>, now: Time) returns (r: Result<()>)
      modifies this
      ensures (State(), r) == CompleteImageStep(old(State()), c, outputs, now)
    {
      if !c.work.ImageWork? || |outputs| != |c.work.inputs| {
        return Err(InvalidData);
      }
      var saved := State();
      if !Held(saved, c, now) || !JobHas(saved, c.job, JobStatus.Running) {
        return Err(ClaimLost);
      }
      ghost var published := InsertOutputs(artifacts, nextArtifact, c.job, c.attempt, outputs);
      var i := 0;
      while i < |outputs|
        invariant 0 <= i <= |outputs|
        invariant State() == saved.(artifacts := artifacts, nextArtifact := saved.nextArtifact + i)
        invariant InsertOutputs(artifacts, nextArtifact, c.job, c.attempt, outputs[i..]) == published
      {
        var o := outputs[i];
        assert outputs[i..][1..] == outputs[i + 1..];
        var source := Slot(c.job, Input, o.item);
        if source !in artifacts || artifacts[source].id != o.source {
          Rollback(saved);
          return Err(StateConflict);
        }
        var slot := Slot(c.job, Output, o.item);
        if slot in artifacts {
          Rollback(saved);
          return Err(ConstraintViolation);
        }
        artifacts := artifacts[slot := Artifact(nextArtifact, Some(c.attempt), Some(o.source), o.key)];
        nextArtifact := nextArtifact + 1;
        i := i + 1;
      }
      attempts := attempts[c.attempt := FinishedAttempt(attempts[c.attempt], AttemptStatus.Succeeded, None, now)];
      if !jobs[c.job].work.ImageResize? {
        Rollback(saved);
        return Err(StateConflict);
      }
      jobs := jobs[c.job := SucceededJob(jobs[c.job], ImagesResized(|outputs|), now)];
      r := Ok(());
    }

    /** The join of attempt and job rows that belong to a held claim: the state of the job, if any. */
    method SelectClaimedJobState(c: Claim, now: Time) returns (state: Option<JobStatus>)
      ensures state == if Held(State(), c, now) && c.job < |jobs| then Some(jobs[c.job].status) else None
    {
      state := None;
      var a := 0;
      while a < |attempts|
        invariant 0 <= a <= |attempts|
        invariant state == if c.attempt < a && Held(State(), c, now) && c.job < |jobs| then Some(jobs[c.job].status) else None
      {
        var row := attempts[a];
        if a == c.attempt && row.job == c.job && row.status.Running? && row.worker == c.worker && row.token == c.token
           && row.leaseExpiresAt > now {
          var j := 0;
          while j < |jobs|
            invariant 0 <= j <= |jobs|
            invariant state == if c.job < j then Some(jobs[c.job].status) else None
          {
            if j == c.job {
              state := Some(jobs[j].status);
            }
            j := j + 1;
          }
        }
        a := a + 1;
      }
    }

    method CancellationRequested(c: Claim, now: Time) returns (r: Result<bool>)
      ensures r == Steps.CancellationRequested(State(), c, now)
    {
      var state := SelectClaimedJobState(c, now);
      match state
      case Some(Running) => r := Ok(false);
      case Some(CancelRequested) => r := Ok(true);
      case _ => r := Err(ClaimLost);
    }

    method FinishCancelled(c: Claim, now: Time) returns (r: Result<()>)
      modifies this
      ensures (State(), r) == FinishCancelledStep(old(State()), c, now)
    {
      var saved := State();
      if !Held(saved, c, now) {
        return Err(ClaimLost);
      }
      attempts := attempts[c.attempt := FinishedAttempt(attempts[c.attempt], AttemptStatus.Cancelled, Some(CancelledByUser), now)];
      if !JobHas(State(), c.job, JobStatus.CancelRequested) {
        Rollback(saved);
        return Err(StateConflict);
      }
      jobs := jobs[c.job := CancelledJob(jobs[c.job], now)];
      r := Ok(());
    }

    method RecordFailure(c: Claim, kind: FailureKind, message: string, now: Time) returns (r: Result<Disposition>)
      modifies this
      ensures (State(), r) == FailureStep(old(State()), c, kind, message, now)
    {
      var saved := State();
      if !Held(saved, c, now) {
        return Err(ClaimLost);
      }
      attempts := attempts[c.attempt := FinishedAttempt(attempts[c.attempt], AttemptStatus.Failed, Some(FailedWith(kind)), now)];
      if !JobHas(State(), c.job, JobStatus.Running) {
        Rollback(saved);
        return Err(StateConflict);
      }
      if kind.Transient? && c.number < c.maxAttempts {
        var at := now + RetryBackoffSeconds(c.number) * SECOND;
        jobs := jobs[c.job := RetryingJob(jobs[c.job], message, at)];
        r := Ok(RetryScheduled(at));
      } else {
        jobs := jobs[c.job := FailedJob(jobs[c.job], message, now)];
        r := Ok(JobFailed);
      }
    }

    /** UPDATE of an expired attempt that is still running; returns the number of rows affected. */
    method CloseExpired(a: nat, job: nat, status: AttemptStatus, kind: ErrorKind, now: Time) returns (affected: nat)
      modifies this`attempts
      ensures affected == if a < |old(attempts)| && old(attempts)[a].job == job && old(attempts)[a].status.Running?
                             && old(attempts)[a].leaseExpiresAt <= now then 1 else 0
      ensures attempts == if affected == 1 then old(attempts)[a := FinishedAttempt(old(attempts)[a], status, Some(kind), now)]
                          else old(attempts)
    {
      affected := 0;
      if a < |attempts| && attempts[a].job == job && attempts[a].status.Running? && attempts[a].leaseExpiresAt <= now {
        attempts := attempts[a := FinishedAttempt(attempts[a], status, Some(kind), now)];
        affected := 1;
      }
    }

    method FinishReclaimedCancel(job: nat, now: Time) returns (affected: nat)
      modifies this`jobs
      ensures affected == if job < |old(jobs)| && old(jobs)[job].status.CancelRequested? then 1 else 0
      ensures jobs == if affected == 1 then old(jobs)[job := CancelledJob(old(jobs)[job], now)] else old(jobs)
    {
      affected := 0;
      if job < |jobs| && jobs[job].status.CancelRequested? {
        jobs := jobs[job := CancelledJob(jobs[job], now)];
        affected := 1;
      }
    }

    method ScheduleReclaimedRetry(job: nat, now: Time, availableAt: Time) returns (affected: nat)
      modifies this`jobs
      ensures affected == if job < |old(jobs)| && old(jobs)[job].status.Running? && now <= availableAt then 1 else 0
      ensures jobs == if affected == 1 then old(jobs)[job := RetryingJob(old(jobs)[job], LEASE_EXPIRED_MESSAGE, availableAt)]
                      else old(jobs)
    {
      affected := 0;
      if job < |jobs| && jobs[job].status.Running? && now <= availableAt {
        jobs := jobs[job := RetryingJob(jobs[job], LEASE_EXPIRED_MESSAGE, availableAt)];
        affected := 1;
      }
    }

    method FailReclaimedJob(job: nat, now: Time) returns (affected: nat)
      modifies this`jobs
      ensures affected == if job < |old(jobs)| && old(jobs)[job].status.Running? then 1 else 0
      ensures jobs == if affected == 1 then old(jobs)[job := FailedJob(old(jobs)[job], LEASE_EXPIRED_MESSAGE, now)] else old(jobs)
    {
      affected := 0;
      if job < |jobs| && jobs[job].status.Running? {
        jobs := jobs[job := FailedJob(jobs[job], LEASE_EXPIRED_MESSAGE, now)];
        affected := 1;
      }
    }

    /** Closes the attempt whose lease ran out first, then lets one of three finishers close or
        requeue its job.  Each UPDATE must affect one row or all is undone; that it equals the step
        says that in no state any of these checks fails. */
    method ReclaimNext(now: Time) returns (r: Result<Option<Reclaimed>>)
      modifies this
      ensures (State(), r) == ReclaimStep(old(State()), now)
      ensures r.Ok?
    {
      var saved := State();
      var candidate := NextExpired(saved, |attempts|, now);
      if candidate.None? {
        return Ok(None);
      }
      var a := candidate.value;
      var row := attempts[a];
      var job := jobs[row.job];
      var cancelling := job.status.CancelRequested?;
      var status := if cancelling then AttemptStatus.Cancelled else AttemptStatus.Failed;
      var kind := if cancelling then CancelledByUser else FailedWith(Transient);
      var closed := CloseExpired(a, row.job, status, kind, now);
      var settled, disposition := 0, JobFailed;
      if closed == 1 {
        if cancelling {
          settled := FinishReclaimedCancel(row.job, now);
          disposition := JobCancelled;
        } else if row.number < job.maxAttempts {
          var at := now + RetryBackoffSeconds(row.number) * SECOND;
          settled := ScheduleReclaimedRetry(row.job, now, at);
          disposition := RetryScheduled(at);
        } else {
          settled := FailReclaimedJob(row.job, now);
        }
      }
      End(saved, closed == 1 && settled == 1);
      if closed != 1 || settled != 1 {
        return Err(StateConflict);
      }
      r := Ok(Some(Reclaimed(row.job, a, row.worker, disposition)));
    }

    method RequestCancel(job: nat, owner: Option<nat>, now: Time) returns (r: Result<Option<nat>>)
      modifies this
      ensures (State(), r) == RequestCancelStep(old(State()), job, owner, now)
    {
      if job < |jobs| && OwnedBy(jobs[job], owner) && !jobs[job].status.Succeeded? && !jobs[job].status.Failed? {
        jobs := jobs[job := CancelRequestRow(jobs[job], now)];
        return Ok(Some(job));
      }
      if job < |jobs| && OwnedBy(jobs[job], owner) {
        return Err(StateConflict);
      }
      r := Ok(None);
    }

    method ManualRetry(job: nat, owner: Option<nat>, now: Time) returns (r: Result<Option<nat>>)
      modifies this
      ensures (State(), r) == ManualRetryStep(old(State()), job, owner, now)
    {
      if job >= |jobs| || !OwnedBy(jobs[job], owner) {
        return Ok(None);
      }
      if !jobs[job].status.Failed? && !jobs[job].status.Cancelled? {
        return Err(StateConflict);
      }
      var source, id := jobs[job], |jobs|;
      jobs := jobs + [NewJob(source.work, source.priority, now, source.total, source.owner)
                      .(maxAttempts := source.maxAttempts, retryOf := Some(job))];
      var copied := CopyInputs(artifacts, nextArtifact, job, id, MAX_FILES_PER_JOB);
      artifacts, nextArtifact := copied.0, copied.1;
      r := Ok(Some(id));
    }

    /** Inserts the row and reads it back. */
    method RegisterWorker(registration: Registration, now: Time) returns (r: Result<()>)
      modifies this
      ensures (State(), r) == RegisterStep(old(State()), registration, now)
    {
      if !(1 <= registration.limit <= 64) || !ValidSeconds(registration.leaseSeconds) || !ValidSeconds(registration.heartbeatSeconds) {
        return Err(InvalidData);
      }
      if registration.id in workers {
        return Err(ConstraintViolation);
      }
      var expires := now + registration.heartbeatSeconds * SECOND;
      workers := workers[registration.id := WorkerRow(registration.limit, registration.leaseSeconds, now, now, expires, None)];
      if registration.id !in workers {
        return Err(StateConflict);
      }
      r := Ok(());
    }

    method HeartbeatWorker(worker: nat, ttlSeconds: nat, now: Time) returns (r: Result<()>)
      modifies this
      ensures (State(), r) == HeartbeatStep(old(State()), worker, ttlSeconds, now)
    {
      if !ValidSeconds(ttlSeconds) {
        return Err(InvalidData);
      }
      if worker !in workers || workers[worker].stoppedAt.Some? {
        return Err(StateConflict);
      }
      workers := workers[worker := workers[worker].(lastHeartbeatAt := now, heartbeatExpiresAt := now + ttlSeconds * SECOND)];
      r := Ok(());
    }

    /** UPDATE with COALESCE: the first stop time stays.  A new row that violates the table's check on
        stop times is undone. */
    method StopWorker(worker: nat, now: Time) returns (r: Result<()>)
      modifies this
      ensures (State(), r) == StopStep(old(State()), worker, now)
    {
      var saved := State();
      var affected := 0;
      if worker in workers {
        var row := workers[worker];
        workers := workers[worker := row.(stoppedAt := if row.stoppedAt.Some? then row.stoppedAt else Some(now))];
        if row.stoppedAt.None? && workers[worker].stoppedAt.value < row.startedAt {
          Rollback(saved);
          return Err(ConstraintViolation);
        }
        assert row.stoppedAt.Some? ==> workers == saved.workers;
        affected := 1;
      }
      if affected != 1 {
        return Err(StateConflict);
      }
      r := Ok(());
    }

    /** One DELETE and one UPDATE with the same condition, in one transaction. */
    method ExpireOutputs(retentionSeconds: nat, now: Time) returns (keys: set<Key>)
      modifies this
      ensures (State(), keys) == ExpireStep(old(State()), retentionSeconds, now)
    {
      var saved := State();
      keys := set slot | slot in artifacts && ExpiringSlot(saved, slot, retentionSeconds, now) :: artifacts[slot].key;
      artifacts := map slot | slot in artifacts && !ExpiringSlot(saved, slot, retentionSeconds, now) :: artifacts[slot];
      var j := 0;
      while j < |jobs|
        invariant 0 <= j <= |jobs| == |saved.jobs|
        invariant State() == saved.(artifacts := artifacts, jobs := jobs)
        invariant artifacts == ExpireStep(saved, retentionSeconds, now).0.artifacts
        invariant forall k :: 0 <= k < j ==> jobs[k] == StampExpired(saved.jobs[k], retentionSeconds, now)
        invariant forall k :: j <= k < |jobs| ==> jobs[k] == saved.jobs[k]
      {
        jobs := jobs[j := StampExpired(jobs[j], retentionSeconds, now)];
        j := j + 1;
      }
      assert jobs == ExpireStep(saved, retentionSeconds, now).0.jobs;
    }

    /** The schedule row first, then one row of schedule_inputs per file, then the read back. */
    method CreateSchedule(request: ScheduleRequest) returns (r: Result<nat>)
      modifies this
      ensures (State(), r) == CreateScheduleStep(old(State()), request)
    {
      if !ValidInterval(request.interval) || !ValidSettings(request.maxWidth, request.jpegQuality)
         || !(1 <= |request.inputs| <= MAX_FILES_PER_JOB) {
        return Err(InvalidData);
      }
      var id := |schedules|;
      var row := Schedule(true, request.interval, request.anchor, request.anchor, request.priority,
                          request.maxWidth, request.jpegQuality, request.owner, []);
      schedules := schedules + [row];
      var item := 0;
      while item < |request.inputs|
        invariant 0 <= item <= |request.inputs|
        invariant State() == old(State()).(schedules := old(schedules) + [row.(inputs := request.inputs[..item])])
      {
        assert request.inputs[..item] + [request.inputs[item]] == request.inputs[..item + 1];
        schedules := schedules[id := schedules[id].(inputs := schedules[id].inputs + [request.inputs[item]])];
        assert schedules == old(schedules) + [row.(inputs := request.inputs[..item + 1])];
        item := item + 1;
      }
      assert request.inputs[..item] == request.inputs;
      if id >= |schedules| {
        return Err(StateConflict);
      }
      r := Ok(id);
    }

    /** A guarded UPDATE; no affected row means that the caller sees no such schedule. */
    method UpdateSchedule(id: nat, edit: ScheduleEdit, owner: Option<nat>, now: Time) returns (r: Result<Option<nat>>)
      modifies this
      ensures (State(), r) == UpdateScheduleStep(old(State()), id, edit, owner, now)
    {
      if !ValidInterval(edit.interval) || !ValidSettings(edit.maxWidth, edit.jpegQuality) {
        return Err(InvalidData);
      }
      var next := NextSlotAfter(edit.anchor, edit.interval, now);
      if next.Err? {
        return Err(next.error);
      }
      var affected := 0;
      var i := 0;
      while i < |schedules|
        invariant 0 <= i <= |schedules| == |old(schedules)|
        invariant affected == if id < i && (owner.None? || old(schedules)[id].owner == owner.value) then 1 else 0
        invariant State() == if affected == 1 then UpdateScheduleStep(old(State()), id, edit, owner, now).0 else old(State())
      {
        if i == id && (owner.None? || schedules[i].owner == owner.value) {
          schedules := schedules[i := schedules[i].(
            enabled := edit.enabled, interval := edit.interval, anchor := edit.anchor, next := next.value,
            priority := edit.priority, maxWidth := edit.maxWidth, jpegQuality := edit.jpegQuality)];
          affected := affected + 1;
        }
        i := i + 1;
      }
      if affected == 0 {
        return Ok(None);
      }
      r := Ok(Some(id));
    }

    /** Materializes the latest slot of the schedule that is due first.  The check on the number of
        copied inputs never fails; a slot recorded before undoes everything. */
    method MaterializeNext(now: Time) returns (r: Result<Option<Tick>>)
      modifies this
      ensures (State(), r) == TickStep(old(State()), now)
    {
      var saved := State();
      var candidate := NextDue(schedules, |schedules|, now);
      if candidate.None? {
        return Ok(None);
      }
      var id := candidate.value;
      var s := schedules[id];
      if s.interval == 0 {
        return Err(InvalidData);
      }
      var due := LatestDueSlot(s.next, s.interval, now);
      if due.Err? {
        return Err(due.error);
      }
      if !(1 <= |s.inputs| <= MAX_FILES_PER_JOB) {
        return Err(InvalidData);
      }
      var slot := due.value.slot;
      var created, complete := None, true;
      if !Overlaps(jobs, id) {
        created := Some(|jobs|);
        jobs := jobs + [OccurrenceJob(s, id, slot)];
        var copied := InsertInputRows(|jobs| - 1, s.inputs);
        complete := copied == |s.inputs|;
      }
      if !complete || SlotRecorded(occurrences, id, slot) {
        Rollback(saved);
        return Err(if complete then ConstraintViolation else StateConflict);
      }
      occurrences := occurrences + [Occurrence(id, slot, created, due.value.coalesced)];
      schedules := schedules[id := s.(next := due.value.next)];
      r := Ok(Some(Tick(id, slot, created, due.value.coalesced)));
    }

    /** Any one call made with a claim. */
    method PerformCall(e: Event)
      requires UsesClaim(e)
      modifies this
      ensures State() == Steps.Perform(old(State()), e)
    {
      hide RenewStep, EncodingStep, ProgressStep, CompleteDemoStep, CompleteImageStep, FailureStep, FinishCancelledStep;
      match e
      case Renew(c, now) => var r := Renew(c, now);
      case RecordEncoding(c, ms, now) => var r := RecordEncoding(c, ms, now);
      case UpdateProgress(c, n, now) => var r := UpdateProgress(c, n, now);
      case CompleteDemo(c, now) => var r := CompleteDemo(c, now);
      case CompleteImage(c, outputs, now) => var r := CompleteImage(c, outputs, now);
      case RecordFailure(c, kind, message, now) => var r := RecordFailure(c, kind, message, now);
      case FinishCancelled(c, now) => var r := FinishCancelled(c, now);
    }

    predicate Upkeep(e: Event) {
      e.Register? || e.Heartbeat? || e.Stop? || e.CreateSchedule? || e.UpdateSchedule? || e.TickSchedules?
    }

    /** Any one call about workers and schedules. */
    method PerformUpkeep(e: Event)
      requires Upkeep(e)
      modifies this
      ensures State() == Steps.Perform(old(State()), e)
    {
      hide RegisterStep, HeartbeatStep, StopStep, CreateScheduleStep, UpdateScheduleStep, TickStep;
      match e
      case Register(registration, now) => var r := RegisterWorker(registration, now);
      case Heartbeat(w, ttl, now) => var r := HeartbeatWorker(w, ttl, now);
      case Stop(w, now) => var r := StopWorker(w, now);
      case CreateSchedule(request) => var r := CreateSchedule(request);
      case UpdateSchedule(id, edit, caller, now) => var r := UpdateSchedule(id, edit, caller, now);
      case TickSchedules(now) => var r := MaterializeNext(now);
    }

    /** Any one call of any client. */
    method Perform(e: Event)
      modifies this
      ensures State() == Apply(old(State()), e)
    {
      if UsesClaim(e) {
        if e.claim in claims {
          PerformCall(e);
        }
        return;
      }
      if Upkeep(e) {
        PerformUpkeep(e);
        return;
      }
      hide CreateDemoStep, CreateImageStep, ClaimStep, ReclaimStep, RequestCancelStep, ManualRetryStep, ExpireStep;
      match e
      case CreateDemo(now) => var r := CreateDemo(now);
      case CreateImage(request, now) => var r := CreateImage(request, now);
      case ClaimNext(w, now, token) => var r := ClaimNext(w, now, token);
      case Reclaim(now) => var r := ReclaimNext(now);
      case RequestCancel(j, caller, now) => var r := RequestCancel(j, caller, now);
      case ManualRetry(j, caller, now) => var r := ManualRetry(j, caller, now);
      case Expire(retention, now) => var keys := ExpireOutputs(retention, now);
    }
  }
}
