/** The database together with the stored output files and the worker tasks that write them.

    A task owns the attempt of its claim.  It encodes its inputs one by one, then either publishes
    or gives up; a task that gave up, or that lost its claim, removes the tree of its attempt.
    Reclaimers remove the trees of attempts they closed, and retention removes the files of the
    rows it deleted.  Other parties may take any number of moves between two moves of a task, and a
    task that crashed simply makes no further move.
  */
module Manifest {
  import opened Rows
  import opened Slots
  import opened Steps
  import opened AttemptLedger
  import opened Invariants
  import opened Preservation
  import opened Histories

  datatype Phase = Encoding(done: nat) | GivenUp | Done

  datatype Task = Task(claim: Claim, phase: Phase, renewalLost: bool)

  datatype System = System(db: Tables, files: set<Key>, tasks: map<nat, Task>, expired: set<Key>)

  function InputCount(c: Claim): nat {
    if c.work.ImageWork? then |c.work.inputs| else 0
  }

  /** The key under which a task stores the output for its k-th input. */
  function OutputOf(c: Claim, k: nat): Key
    requires k < InputCount(c)
  {
    OutputKey(c.job, c.attempt, c.work.inputs[k].id)
  }

  /** The manifest of a task: one output per input, in order. */
  function Collected(c: Claim, n: nat): (r: seq<PendingOutput>)
    requires n <= InputCount(c)
  {
    seq(n, k requires 0 <= k < n => PendingOutput(c.work.inputs[k].id, c.work.inputs[k].item, OutputOf(c, k)))
  }

  /** Removes everything under outputs/job-j/attempt-a. */
  function RemoveTree(files: set<Key>, job: nat, attempt: nat): set<Key> {
    set k | k in files && !(k.OutputKey? && k.job == job && k.attempt == attempt)
  }

  datatype Move =
    | Foreign(event: Event)
    | Start(worker: nat, now: Time, token: nat)
    | Call(task: nat, event: Event)
    | Encode(task: nat)
    | GiveUp(task: nat)
    | Publish(task: nat, now: Time)
    | Clean(task: nat)
    | SweepReclaimed(attempt: nat)
    | RemoveExpired(key: Key)

  /** The calls a task makes with its own claim besides publishing.  A failure or a cancellation is
      recorded only after the task gave up. */
  predicate OwnCall(task: Task, e: Event) {
    && UsesClaim(e) && e.claim == task.claim
    && !e.CompleteDemo? && !e.CompleteImage?
    && (e.RecordFailure? || e.FinishCancelled? ==> task.phase.GivenUp?)
  }

  predicate Enabled(s: System, m: Move) {
    match m
    case Foreign(e) => !UsesClaim(e) && !e.ClaimNext?
    case Start(_, _, _) => true
    case Call(a, e) => a in s.tasks && OwnCall(s.tasks[a], e)
    case Encode(a) => a in s.tasks && s.tasks[a].phase.Encoding? && s.tasks[a].phase.done < InputCount(s.tasks[a].claim)
    case GiveUp(a) => a in s.tasks && !s.tasks[a].phase.Done?
    case Publish(a, _) => a in s.tasks && s.tasks[a].phase == Encoding(InputCount(s.tasks[a].claim))
    case Clean(a) => a in s.tasks && !s.tasks[a].phase.Encoding? && (s.tasks[a].phase == Done ==> s.tasks[a].renewalLost)
    case SweepReclaimed(a) => a < |s.db.attempts| && (s.db.attempts[a].status.Failed? || s.db.attempts[a].status.Cancelled?)
    case RemoveExpired(k) => k in s.expired
  }

  function PublishEvent(c: Claim, now: Time): Event {
    if c.work.DemoWork? then CompleteDemo(c, now) else CompleteImage(c, Collected(c, InputCount(c)), now)
  }

  function PublishAnswer(t: Tables, c: Claim, now: Time): Result<()> {
    if c.work.DemoWork? then CompleteDemoStep(t, c, now).1
    else CompleteImageStep(t, c, Collected(c, InputCount(c)), now).1
  }

  function Do(s: System, m: Move): System
    requires Enabled(s, m)
  {
    match m
    case Foreign(e) =>
      s.(db := Apply(s.db, e),
         expired := if e.Expire? then s.expired + ExpireStep(s.db, e.retentionSeconds, e.now).1 else s.expired)
    case Start(w, now, token) =>
      var (db, r) := ClaimStep(s.db, w, now, token);
      if r.Ok? && r.value.Some? then s.(db := db, tasks := s.tasks[r.value.value.attempt := Task(r.value.value, Encoding(0), false)])
      else s
    case Call(a, e) =>
      var lost := e.Renew? && RenewStep(s.db, e.claim, e.now).1 == Err(ClaimLost);
      s.(db := Apply(s.db, e), tasks := s.tasks[a := s.tasks[a].(renewalLost := s.tasks[a].renewalLost || lost)])
    case Encode(a) =>
      var task := s.tasks[a];
      s.(files := s.files + {OutputOf(task.claim, task.phase.done)},
         tasks := s.tasks[a := task.(phase := Encoding(task.phase.done + 1))])
    case GiveUp(a) => s.(tasks := s.tasks[a := s.tasks[a].(phase := GivenUp)])
    case Publish(a, now) =>
      var task := s.tasks[a];
      if PublishAnswer(s.db, task.claim, now).Ok?
      then s.(db := Apply(s.db, PublishEvent(task.claim, now)), tasks := s.tasks[a := task.(phase := Done)])
      else s
    case Clean(a) => s.(files := RemoveTree(s.files, s.tasks[a].claim.job, a))
    case SweepReclaimed(a) => s.(files := RemoveTree(s.files, s.db.attempts[a].job, a))
    case RemoveExpired(k) => s.(files := s.files - {k})
  }

  function Advance(s: System, m: Move): System {
    if Enabled(s, m) then Do(s, m) else s
  }

  function Play(s: System, moves: seq<Move>): System
    decreases |moves|
  {
    if moves == [] then s else Play(Advance(s, moves[0]), moves[1..])
  }

  const BOOT: System := System(EMPTY, {}, map[], {})

  // ---------------------------------------------------------------- the invariant

  /** While its attempt runs, the outputs a task has encoded are stored; only a task that published
      owns a succeeded attempt. */
  ghost predicate TaskFits(s: System, a: nat, task: Task) {
    && task.claim in s.db.claims && task.claim.attempt == a && a < |s.db.attempts|
    && (s.db.attempts[a].status.Succeeded? <==> task.phase == Done)
    && (task.phase.Encoding? ==>
          && task.phase.done <= InputCount(task.claim)
          && (s.db.attempts[a].status.Running? ==> forall k: nat :: k < task.phase.done ==> OutputOf(task.claim, k) in s.files))
  }

  ghost predicate TasksFit(s: System) {
    && (forall a :: a in s.tasks ==> TaskFits(s, a, s.tasks[a]))
    && (forall c :: c in s.db.claims ==> c.attempt in s.tasks && s.tasks[c.attempt].claim == c)
    && (forall a: nat :: a < |s.db.attempts| ==> a in s.tasks)
  }

  /** An output row carries the key its attempt wrote for its source. */
  predicate KeyFits(slot: Slot, row: Artifact) {
    row.attempt.Some? && row.source.Some? && row.key == OutputKey(slot.job, row.attempt.value, row.source.value)
  }

  /** Every published key names a stored file, unless the task that published it was told by a
      renewal that its claim was lost. */
  ghost predicate StoredUnlessLost(s: System) {
    forall slot :: slot in s.db.artifacts && slot.kind.Output? ==>
      && KeyFits(slot, s.db.artifacts[slot])
      && s.db.artifacts[slot].attempt.value in s.tasks
      && (s.db.artifacts[slot].key in s.files || s.tasks[s.db.artifacts[slot].attempt.value].renewalLost)
  }

  /** A key returned by retention belongs to a job whose outputs are gone for good. */
  ghost predicate ExpiredFit(s: System) {
    forall k :: k in s.expired ==> k.OutputKey? && k.job < |s.db.jobs| && s.db.jobs[k.job].outputsExpiredAt.Some?
  }

  ghost predicate SystemInv(s: System) {
    Inv(s.db) && TasksFit(s) && StoredUnlessLost(s) && ExpiredFit(s)
  }

  // ---------------------------------------------------------------- quiet steps

  /** A step that neither claims nor completes: attempts stay succeeded or not, the claims stay, and
      output rows stay as they are except that retention may delete some. */
  ghost predicate Quiet(t: Tables, u: Tables) {
    && |u.attempts| == |t.attempts| && u.claims == t.claims
    && (forall a: nat :: a < |t.attempts| ==> (u.attempts[a].status.Succeeded? <==> t.attempts[a].status.Succeeded?))
    && (forall s :: s in u.artifacts && s.kind.Output? ==> s in t.artifacts && u.artifacts[s] == t.artifacts[s])
  }

  predicate IsQuiet(e: Event) {
    !e.ClaimNext? && !e.CompleteDemo? && !e.CompleteImage?
  }

  lemma QuietInserts(t: Tables, files: seq<InputFile>, n: nat)
    requires n <= |files|
    ensures forall s :: s in InsertInputs(t.artifacts, t.nextArtifact, |t.jobs|, files, n) && s.kind.Output? ==>
              s in t.artifacts && InsertInputs(t.artifacts, t.nextArtifact, |t.jobs|, files, n)[s] == t.artifacts[s]
  {
    InsertInputsEffect(t.artifacts, t.nextArtifact, |t.jobs|, files, n);
  }

  lemma {:induction false} QuietCopies(artifacts: map<Slot, Artifact>, next: nat, from: nat, to: nat, n: nat)
    ensures var after := CopyInputs(artifacts, next, from, to, n).0;
            forall s :: s in after && s.kind.Output? ==> s in artifacts && after[s] == artifacts[s]
  {
    if n > 0 {
      QuietCopies(artifacts, next, from, to, n - 1);
    }
  }

  lemma QuietCreation(t: Tables, r: ImageRequest, now: Time)
    ensures Quiet(t, CreateImageStep(t, r, now).0)
  {
    hide InsertInputs, FindIdempotent;
    QuietInserts(t, r.inputs, |r.inputs|);
  }

  lemma QuietRetry(t: Tables, job: nat, caller: Option<nat>, now: Time)
    ensures Quiet(t, ManualRetryStep(t, job, caller, now).0)
  {
    hide CopyInputs;
    QuietCopies(t.artifacts, t.nextArtifact, job, |t.jobs|, MAX_FILES_PER_JOB);
  }

  lemma QuietTick(t: Tables, now: Time)
    ensures Quiet(t, TickStep(t, now).0)
  {
    hide InsertInputs, LatestDueSlot, NextDue, Overlaps, SlotRecorded;
    var due := NextDue(t.schedules, |t.schedules|, now);
    if due.Some? {
      QuietInserts(t, t.schedules[due.value].inputs, |t.schedules[due.value].inputs|);
    }
  }

  lemma QuietExpire(t: Tables, retentionSeconds: nat, now: Time)
    ensures Quiet(t, ExpireStep(t, retentionSeconds, now).0)
  {
  }

  lemma QuietReclaim(t: Tables, now: Time)
    ensures Quiet(t, ReclaimStep(t, now).0)
  {
    hide NextExpired;
  }

  lemma QuietCall(t: Tables, e: Event)
    requires UsesClaim(e) && IsQuiet(e)
    ensures Quiet(t, Perform(t, e))
  {
  }

  lemma QuietStep(t: Tables, e: Event)
    requires IsQuiet(e)
    ensures Quiet(t, Apply(t, e))
  {
    hide CreateImageStep, ManualRetryStep, TickStep, ExpireStep, ReclaimStep, NextSlotAfter, ClaimStep, CompleteImageStep,
         CompleteDemoStep, RenewStep, EncodingStep, ProgressStep, FailureStep, FinishCancelledStep;
    match e
    case CreateImage(r, now) => QuietCreation(t, r, now);
    case ManualRetry(j, caller, now) => QuietRetry(t, j, caller, now);
    case TickSchedules(now) => QuietTick(t, now);
    case Expire(retention, now) => QuietExpire(t, retention, now);
    case Reclaim(now) => QuietReclaim(t, now);
    case _ =>
      if UsesClaim(e) {
        QuietCall(t, e);
      }
  }

  // ---------------------------------------------------------------- each move keeps the invariant

  predicate SameTasks(before: map<nat, Task>, after: map<nat, Task>) {
    && after.Keys == before.Keys
    && forall a :: a in before ==>
         && after[a].claim == before[a].claim && after[a].phase == before[a].phase
         && (before[a].renewalLost ==> after[a].renewalLost)
  }

  predicate Gone(t: Tables, k: Key) {
    k.OutputKey? && k.job < |t.jobs| && t.jobs[k.job].outputsExpiredAt.Some?
  }

  lemma RunningBefore(t: Tables, u: Tables, a: nat)
    requires Guarantee(t, u) && a < |t.attempts|
    ensures a < |u.attempts| && (u.attempts[a].status.Running? ==> t.attempts[a].status.Running?)
  {
    assert AttemptEvolves(t.attempts[a], u.attempts[a]);
  }

  lemma GoneForGood(t: Tables, u: Tables, k: Key)
    requires Guarantee(t, u) && Gone(t, k)
    ensures Gone(u, k)
  {
    assert JobEvolves(t.jobs[k.job], u.jobs[k.job]);
  }

  lemma QuietKeeps(s: System, u: System)
    requires SystemInv(s) && Inv(u.db) && Guarantee(s.db, u.db) && Quiet(s.db, u.db)
    requires u.files == s.files && SameTasks(s.tasks, u.tasks)
    requires forall k :: k in u.expired ==> k in s.expired || Gone(u.db, k)
    ensures SystemInv(u)
  {
    hide Inv, Guarantee;
    forall a | a in u.tasks
      ensures TaskFits(u, a, u.tasks[a])
    {
      assert TaskFits(s, a, s.tasks[a]);
      RunningBefore(s.db, u.db, a);
    }
    forall k | k in u.expired
      ensures Gone(u.db, k)
    {
      if k in s.expired {
        GoneForGood(s.db, u.db, k);
      }
    }
  }

  /** Retention returns the keys of rows whose jobs it has stamped. */
  lemma ExpiredKeys(s: System, retentionSeconds: nat, now: Time)
    requires SystemInv(s)
    ensures var (u, keys) := ExpireStep(s.db, retentionSeconds, now);
            forall k :: k in keys ==> Gone(u, k)
  {
  }

  lemma ForeignKeeps(s: System, e: Event)
    requires SystemInv(s) && Enabled(s, Foreign(e))
    ensures SystemInv(Do(s, Foreign(e)))
  {
    hide SystemInv, Inv, Guarantee, Quiet;
    DatabaseFits(s);
    StepKeeps(s.db, e);
    QuietStep(s.db, e);
    if e.Expire? {
      ExpiredKeys(s, e.retentionSeconds, e.now);
    }
    hide ExpireStep, Perform;
    QuietKeeps(s, Do(s, Foreign(e)));
  }

  lemma DatabaseFits(s: System)
    requires SystemInv(s)
    ensures Inv(s.db)
  {
  }

  lemma CallKeeps(s: System, a: nat, e: Event)
    requires SystemInv(s) && Enabled(s, Call(a, e))
    ensures SystemInv(Do(s, Call(a, e)))
  {
    hide SystemInv, Inv, Guarantee, Quiet, Perform, RenewStep;
    DatabaseFits(s);
    StepKeeps(s.db, e);
    QuietStep(s.db, e);
    QuietKeeps(s, Do(s, Call(a, e)));
  }

  /** A successful claim appends a running attempt and adds its claim. */
  lemma ClaimEffect(t: Tables, worker: nat, now: Time, token: nat)
    ensures var (u, r) := ClaimStep(t, worker, now, token);
            if r.Ok? && r.value.Some?
            then && r.value.value.attempt == |t.attempts| && |u.attempts| == |t.attempts| + 1 && t.attempts <= u.attempts
                 && u.attempts[|t.attempts|].status.Running?
                 && u.claims == t.claims + {r.value.value} && u.artifacts == t.artifacts
            else u == t
  {
    hide NextCandidate, MaxNumber, LoadInputs;
  }

  lemma StartedTasks(s: System, u: System, c: Claim)
    requires TasksFit(s) && c.attempt == |s.db.attempts|
    requires |u.db.attempts| == |s.db.attempts| + 1 && s.db.attempts <= u.db.attempts && u.db.attempts[c.attempt].status.Running?
    requires u.db.claims == s.db.claims + {c} && u.files == s.files
    requires u.tasks == s.tasks[c.attempt := Task(c, Encoding(0), false)]
    ensures TasksFit(u)
  {
    forall a | a in u.tasks
      ensures TaskFits(u, a, u.tasks[a])
    {
      if a != c.attempt {
        assert TaskFits(s, a, s.tasks[a]);
      }
    }
    forall d | d in s.db.claims
      ensures d.attempt != c.attempt
    {
      assert TaskFits(s, d.attempt, s.tasks[d.attempt]);
    }
  }

  lemma StartKeeps(s: System, worker: nat, now: Time, token: nat)
    requires SystemInv(s)
    ensures SystemInv(Do(s, Start(worker, now, token)))
  {
    hide Inv, Guarantee, ClaimStep, TasksFit;
    var u := Do(s, Start(worker, now, token));
    ClaimKeeps(s.db, worker, now, token);
    ClaimEffect(s.db, worker, now, token);
    if u != s {
      var c := ClaimStep(s.db, worker, now, token).1.value.value;
      StartedTasks(s, u, c);
      NoTaskYet(s);
      forall k | k in u.expired
        ensures Gone(u.db, k)
      {
        GoneForGood(s.db, u.db, k);
      }
    }
  }

  lemma NoTaskYet(s: System)
    requires TasksFit(s)
    ensures |s.db.attempts| !in s.tasks
  {
    assert |s.db.attempts| in s.tasks ==> TaskFits(s, |s.db.attempts|, s.tasks[|s.db.attempts|]);
  }

  /** The tasks stay right when one task, still encoding, has stored one more output. */
  lemma EncodedTasks(s: System, a: nat)
    requires TasksFit(s) && Enabled(s, Encode(a))
    ensures TasksFit(Do(s, Encode(a)))
  {
    var u := Do(s, Encode(a));
    forall b | b in u.tasks
      ensures TaskFits(u, b, u.tasks[b])
    {
      assert TaskFits(s, b, s.tasks[b]);
      hide TasksFit, InputCount;
    }
    forall c | c in u.db.claims
      ensures c.attempt in u.tasks && u.tasks[c.attempt].claim == c
    {
    }
  }

  lemma EncodeKeeps(s: System, a: nat)
    requires SystemInv(s) && Enabled(s, Encode(a))
    ensures SystemInv(Do(s, Encode(a)))
  {
    hide Inv, TasksFit, OutputOf;
    EncodedTasks(s, a);
  }

  lemma GiveUpKeeps(s: System, a: nat)
    requires SystemInv(s) && Enabled(s, GiveUp(a))
    ensures SystemInv(Do(s, GiveUp(a)))
  {
    hide Inv;
    var u := Do(s, GiveUp(a));
    forall b | b in u.tasks
      ensures TaskFits(u, b, u.tasks[b])
    {
      assert TaskFits(s, b, s.tasks[b]);
    }
  }

  /** A file may go when its attempt neither runs nor succeeded, when its task stopped encoding
      without publishing or after losing its claim, or when its job's outputs have expired. */
  predicate Removable(s: System, k: Key) {
    && k.OutputKey?
    && (|| (k.attempt < |s.db.attempts| && (s.db.attempts[k.attempt].status.Failed? || s.db.attempts[k.attempt].status.Cancelled?))
        || (k.attempt in s.tasks && Enabled(s, Clean(k.attempt)))
        || Gone(s.db, k))
  }

  lemma OutputRow(s: System, slot: Slot)
    requires SystemInv(s) && slot in s.db.artifacts && slot.kind.Output?
    ensures slot.job < |s.db.jobs| && s.db.jobs[slot.job].outputsExpiredAt.None?
    ensures KeyFits(slot, s.db.artifacts[slot])
    ensures var a := s.db.artifacts[slot].attempt.value;
            && a < |s.db.attempts| && s.db.attempts[a].status.Succeeded? && s.db.attempts[a].job == slot.job
            && a in s.tasks && s.tasks[a].phase == Done
  {
    assert OutputRowFits(s.db.jobs, s.db.attempts, s.db.artifacts, slot, s.db.artifacts[slot]);
    var a := s.db.artifacts[slot].attempt.value;
    assert TaskFits(s, a, s.tasks[a]);
  }

  /** An attempt that runs keeps its job from expiring. */
  lemma RunningIsNotGone(s: System, a: nat)
    requires SystemInv(s) && a < |s.db.attempts| && s.db.attempts[a].status.Running?
    ensures s.db.attempts[a].job < |s.db.jobs| && s.db.jobs[s.db.attempts[a].job].outputsExpiredAt.None?
  {
    RunningAttempt(s.db, a);
  }

  lemma ClaimOfTask(s: System, a: nat)
    requires SystemInv(s) && a in s.tasks
    ensures TaskFits(s, a, s.tasks[a]) && ClaimFits(s.db, s.tasks[a].claim)
  {
    GenuineClaim(s.db, s.tasks[a].claim);
  }

  lemma RemovalKeepsTasks(s: System, files: set<Key>, a: nat)
    requires SystemInv(s) && files <= s.files
    requires forall k :: k in s.files && k !in files ==> Removable(s, k)
    requires a in s.tasks
    ensures TaskFits(s.(files := files), a, s.tasks[a])
  {
    ClaimOfTask(s, a);
    var task := s.tasks[a];
    if s.db.attempts[a].status.Running? && task.phase.Encoding? {
      RunningIsNotGone(s, a);
      hide SystemInv;
      forall k: nat | k < task.phase.done
        ensures OutputOf(task.claim, k) in files
      {
        assert OutputOf(task.claim, k) in s.files;
        assert !Removable(s, OutputOf(task.claim, k));
      }
    }
  }

  lemma RemovalKeeps(s: System, files: set<Key>)
    requires SystemInv(s) && files <= s.files
    requires forall k :: k in s.files && k !in files ==> Removable(s, k)
    ensures SystemInv(s.(files := files))
  {
    hide Inv, TaskFits;
    var u := s.(files := files);
    forall a | a in u.tasks
      ensures TaskFits(u, a, u.tasks[a])
    {
      RemovalKeepsTasks(s, files, a);
    }
    forall slot | slot in u.db.artifacts && slot.kind.Output?
      ensures u.db.artifacts[slot].key in u.files || u.tasks[u.db.artifacts[slot].attempt.value].renewalLost
    {
      OutputRow(s, slot);
    }
  }

  lemma RemovedIsRemovable(s: System, m: Move, k: Key)
    requires SystemInv(s) && Enabled(s, m) && (m.Clean? || m.SweepReclaimed? || m.RemoveExpired?)
    requires k in s.files && k !in Do(s, m).files
    ensures Removable(s, k)
  {
    hide Inv;
  }

  lemma CleanKeeps(s: System, m: Move)
    requires SystemInv(s) && Enabled(s, m) && (m.Clean? || m.SweepReclaimed? || m.RemoveExpired?)
    ensures SystemInv(Do(s, m))
  {
    hide Inv;
    var files := Do(s, m).files;
    forall k | k in s.files && k !in files
      ensures Removable(s, k)
    {
      RemovedIsRemovable(s, m, k);
    }
    RemovalKeeps(s, files);
  }

  /** Publishing adds rows whose keys were all stored by the task itself. */
  lemma PublishedKeys(t: Tables, c: Claim, now: Time, files: set<Key>)
    requires CompleteImageStep(t, c, Collected(c, InputCount(c)), now).1.Ok?
    requires forall k: nat :: k < InputCount(c) ==> OutputOf(c, k) in files
    ensures var u := CompleteImageStep(t, c, Collected(c, InputCount(c)), now).0;
            forall s :: s in u.artifacts && s.kind.Output? && !(s in t.artifacts && u.artifacts[s] == t.artifacts[s]) ==>
              KeyFits(s, u.artifacts[s]) && u.artifacts[s].attempt == Some(c.attempt) && u.artifacts[s].key in files
  {
    var outputs := Collected(c, InputCount(c));
    var u := CompleteImageStep(t, c, outputs, now).0;
    InsertOutputsEffect(t.artifacts, t.nextArtifact, c.job, c.attempt, outputs, u.artifacts);
    forall s | s in u.artifacts && s !in t.artifacts
      ensures KeyFits(s, u.artifacts[s]) && u.artifacts[s].attempt == Some(c.attempt) && u.artifacts[s].key in files
    {
      var k := u.artifacts[s].id - t.nextArtifact;
      assert OutputInserted(t.artifacts, t.nextArtifact, c.job, c.attempt, outputs, u.artifacts, k);
      assert outputs[k].key == OutputOf(c, k);
    }
  }

  /** What publishing does to the attempts and to the tables the tasks depend on. */
  lemma PublishEffect(t: Tables, c: Claim, now: Time)
    requires c in t.claims && PublishAnswer(t, c, now).Ok?
    ensures var u := Apply(t, PublishEvent(c, now));
            && c.attempt < |t.attempts| && t.attempts[c.attempt].status.Running?
            && |u.attempts| == |t.attempts| && u.claims == t.claims
            && u.attempts[c.attempt].status.Succeeded?
            && (forall a: nat :: a < |t.attempts| && a != c.attempt ==> u.attempts[a] == t.attempts[a])
            && (c.work.DemoWork? ==> u.artifacts == t.artifacts)
            && (c.work.ImageWork? ==> u == CompleteImageStep(t, c, Collected(c, InputCount(c)), now).0)
  {
    hide InsertOutputs;
  }

  lemma PublishedTasks(s: System, u: System, a: nat)
    requires TasksFit(s) && Enabled(s, Publish(a, 0))
    requires |u.db.attempts| == |s.db.attempts| && u.db.claims == s.db.claims && u.files == s.files
    requires a < |s.db.attempts| && u.db.attempts[a].status.Succeeded?
    requires forall b: nat :: b < |s.db.attempts| && b != a ==> u.db.attempts[b] == s.db.attempts[b]
    requires u.tasks == s.tasks[a := s.tasks[a].(phase := Done)]
    ensures TasksFit(u)
  {
    forall b | b in u.tasks
      ensures TaskFits(u, b, u.tasks[b])
    {
      assert TaskFits(s, b, s.tasks[b]);
      hide TasksFit;
    }
  }

  lemma PublishedRowsStored(s: System, u: System, a: nat, now: Time)
    requires StoredUnlessLost(s) && a in s.tasks && TaskFits(s, a, s.tasks[a]) && Enabled(s, Publish(a, now))
    requires PublishAnswer(s.db, s.tasks[a].claim, now).Ok?
    requires u == Do(s, Publish(a, now))
    ensures StoredUnlessLost(u)
  {
    var task := s.tasks[a];
    hide Apply, PublishAnswer, CompleteImageStep;
    PublishEffect(s.db, task.claim, now);
    if task.claim.work.ImageWork? {
      ImageAnswer(s.db, task.claim, now);
      PublishedKeys(s.db, task.claim, now, s.files);
    }
    hide KeyFits, TaskFits;
  }

  lemma Parts(s: System)
    requires SystemInv(s)
    ensures Inv(s.db) && TasksFit(s) && StoredUnlessLost(s) && ExpiredFit(s)
  {
    hide Inv, TasksFit, StoredUnlessLost, ExpiredFit;
  }

  lemma Whole(s: System)
    requires Inv(s.db) && TasksFit(s) && StoredUnlessLost(s) && ExpiredFit(s)
    ensures SystemInv(s)
  {
    hide Inv, TasksFit, StoredUnlessLost, ExpiredFit;
  }

  lemma ExpiredStays(s: System, u: System)
    requires ExpiredFit(s) && Guarantee(s.db, u.db) && u.expired == s.expired
    ensures ExpiredFit(u)
  {
    hide Guarantee;
    forall k | k in u.expired
      ensures Gone(u.db, k)
    {
      GoneForGood(s.db, u.db, k);
    }
  }

  lemma PublishKeeps(s: System, a: nat, now: Time)
    requires SystemInv(s) && Enabled(s, Publish(a, now))
    ensures SystemInv(Do(s, Publish(a, now)))
  {
    hide SystemInv, Inv, Guarantee, Apply, PublishAnswer, TasksFit, StoredUnlessLost, TaskFits, ExpiredFit;
    var u := Do(s, Publish(a, now));
    var task := s.tasks[a];
    Parts(s);
    if PublishAnswer(s.db, task.claim, now).Ok? {
      TaskOfClaim(s, a);
      PublishedRowsStored(s, u, a, now);
      StepKeeps(s.db, PublishEvent(task.claim, now));
      PublishEffect(s.db, task.claim, now);
      PublishedTasks(s, u, a);
      ExpiredStays(s, u);
      Whole(u);
    }
  }

  lemma TaskOfClaim(s: System, a: nat)
    requires TasksFit(s) && a in s.tasks
    ensures s.tasks[a].claim.attempt == a < |s.db.attempts| && s.tasks[a].claim in s.db.claims && TaskFits(s, a, s.tasks[a])
  {
    assert TaskFits(s, a, s.tasks[a]);
  }

  lemma ImageAnswer(t: Tables, c: Claim, now: Time)
    requires c.work.ImageWork?
    ensures PublishAnswer(t, c, now) == CompleteImageStep(t, c, Collected(c, InputCount(c)), now).1
  {
  }

  lemma MoveKeeps(s: System, m: Move)
    requires SystemInv(s)
    ensures SystemInv(Advance(s, m))
  {
    hide SystemInv;
    if Enabled(s, m) {
      match m
      case Foreign(e) => ForeignKeeps(s, e);
      case Start(w, now, token) => StartKeeps(s, w, now, token);
      case Call(a, e) => CallKeeps(s, a, e);
      case Encode(a) => EncodeKeeps(s, a);
      case GiveUp(a) => GiveUpKeeps(s, a);
      case Publish(a, now) => PublishKeeps(s, a, now);
      case _ => CleanKeeps(s, m);
    }
  }

  lemma {:induction false} PlayKeeps(s: System, moves: seq<Move>)
    requires SystemInv(s)
    ensures SystemInv(Play(s, moves))
    decreases |moves|
  {
    hide SystemInv, Advance;
    if moves != [] {
      MoveKeeps(s, moves[0]);
      PlayKeeps(Advance(s, moves[0]), moves[1..]);
    }
  }

  lemma BootFits()
    ensures SystemInv(BOOT)
  {
  }

  // ---------------------------------------------------------------- what it means for the manifest

  ghost predicate Dangling(s: System, slot: Slot) {
    slot in s.db.artifacts && slot.kind.Output? && s.db.artifacts[slot].key !in s.files
  }

  /** In every run a published output whose file is missing was published by a task that had been
      told by a renewal that its claim was lost, and that returned Ok all the same. */
  lemma PublishedFilesAreStored(moves: seq<Move>, slot: Slot)
    requires Dangling(Play(BOOT, moves), slot)
    ensures var s := Play(BOOT, moves);
            && s.db.artifacts[slot].attempt.Some? && s.db.artifacts[slot].attempt.value in s.tasks
            && var task := s.tasks[s.db.artifacts[slot].attempt.value];
               task.renewalLost && task.phase == Done && task.claim.job == slot.job
  {
    BootFits();
    PlayKeeps(BOOT, moves);
    var s := Play(BOOT, moves);
    OutputRow(s, slot);
    ClaimOfTask(s, s.db.artifacts[slot].attempt.value);
  }

  /** The only move that can take the file of a published output is the clean-up of a task that
      published after losing its claim. */
  lemma OnlyTheOverriddenOkBreaks(s: System, m: Move, slot: Slot)
    requires SystemInv(s) && !Dangling(s, slot)
    requires Dangling(Advance(s, m), slot)
    ensures m.Clean? && m.task in s.tasks && s.tasks[m.task].phase == Done && s.tasks[m.task].renewalLost
    ensures slot in s.db.artifacts && s.db.artifacts[slot].attempt == Some(m.task)
  {
    hide SystemInv, Inv, Apply, ExpireStep, ClaimStep, RenewStep;
    match m
    case Foreign(e) => QuietStep(s.db, e);
    case Call(_, e) => QuietStep(s.db, e);
    case Start(w, now, token) => ClaimEffect(s.db, w, now, token);
    case Publish(b, now) => PublishLoses(s, b, now, slot);
    case RemoveExpired(k) =>
      OutputRow(s, slot);
      ExpiredIsGone(s, k);
    case _ =>
      OutputRow(s, slot);
  }

  /** And it does take it: for a published output with its file, the next move removes the file
      exactly when it is the clean-up of the publishing task after a renewal reported the claim lost. */
  lemma CleanUpBreaksExactly(s: System, m: Move, slot: Slot)
    requires SystemInv(s) && slot in s.db.artifacts && slot.kind.Output? && !Dangling(s, slot)
    ensures s.db.artifacts[slot].attempt.Some? && s.db.artifacts[slot].attempt.value in s.tasks
    ensures var a := s.db.artifacts[slot].attempt.value;
            Dangling(Advance(s, m), slot) <==> m == Clean(a) && s.tasks[a].renewalLost
  {
    hide SystemInv, Apply, ExpireStep, ClaimStep, RenewStep, PublishAnswer, Perform, RemoveTree;
    OutputRow(s, slot);
    var a := s.db.artifacts[slot].attempt.value;
    if Dangling(Advance(s, m), slot) {
      hide Advance, Dangling, Enabled;
      OnlyTheOverriddenOkBreaks(s, m, slot);
    } else if m == Clean(a) && s.tasks[a].renewalLost {
      CleanUpTakes(s, a, slot);
    }
  }

  lemma CleanUpTakes(s: System, a: nat, slot: Slot)
    requires SystemInv(s) && slot in s.db.artifacts && slot.kind.Output? && s.db.artifacts[slot].attempt == Some(a)
    requires a in s.tasks && s.tasks[a].renewalLost
    ensures Dangling(Advance(s, Clean(a)), slot)
  {
    hide SystemInv;
    OutputRow(s, slot);
    ClaimOfTask(s, a);
  }

  lemma ExpiredIsGone(s: System, k: Key)
    requires SystemInv(s) && k in s.expired
    ensures Gone(s.db, k)
  {
  }

  lemma PublishLoses(s: System, a: nat, now: Time, slot: Slot)
    requires SystemInv(s) && Enabled(s, Publish(a, now)) && !Dangling(s, slot)
    ensures !Dangling(Do(s, Publish(a, now)), slot)
  {
    hide SystemInv, TasksFit, Inv, Apply, PublishAnswer, CompleteImageStep, KeyFits;
    var c := s.tasks[a].claim;
    Parts(s);
    TaskOfClaim(s, a);
    if PublishAnswer(s.db, c, now).Ok? {
      PublishEffect(s.db, c, now);
      if c.work.ImageWork? {
        ImageAnswer(s.db, c, now);
        PublishedKeys(s.db, c, now, s.files);
      }
    }
  }

  // ---------------------------------------------------------------- and it does happen

  const UPLOAD: ImageRequest := ImageRequest(1, 100, 80, None, Normal, [InputFile(1, 0)], None)
  const CLAIMED: Claim := Claim(0, 0, 1, DEFAULT_MAX_ATTEMPTS, 7, 0, 60 * SECOND, ImageWork([InputRow(0, 0, InputKey(1, 0))]))

  /** The heartbeat of worker 7 lapses before its renewal, though its lease still has 20 seconds. */
  const LAPSED_HEARTBEAT: seq<Move> := [
    Foreign(Register(Registration(7, 1, 60, 30), 0)),
    Foreign(CreateImage(UPLOAD, 0)),
    Start(7, 0, 0),
    Encode(0),
    Call(0, Renew(CLAIMED, 40 * SECOND)),
    Publish(0, 50 * SECOND),
    Clean(0)
  ]

  function Uploaded(): System {
    Advance(Advance(BOOT, LAPSED_HEARTBEAT[0]), LAPSED_HEARTBEAT[1])
  }

  function Prepared(): System {
    Advance(Advance(Uploaded(), LAPSED_HEARTBEAT[2]), LAPSED_HEARTBEAT[3])
  }

  lemma UploadedState()
    ensures var s := Uploaded();
            && s.db == EMPTY.(jobs := [NewJob(ImageResize(100, 80), Normal, 0, 1, 1)],
                              artifacts := map[Slot(0, Input, 0) := Artifact(0, None, None, InputKey(1, 0))],
                              nextArtifact := 1,
                              workers := map[7 := WorkerRow(1, 60, 0, 0, 30 * SECOND, None)])
            && s.tasks == map[] && s.files == {}
  {
    assert InsertInputs(map[], 0, 0, UPLOAD.inputs, 0) == map[];
  }

  lemma ClaimedUpload(t: Tables)
    requires |t.jobs| == 1 && t.jobs[0] == NewJob(ImageResize(100, 80), Normal, 0, 1, 1) && t.attempts == []
    requires t.artifacts == map[Slot(0, Input, 0) := Artifact(0, None, None, InputKey(1, 0))]
    requires t.workers == map[7 := WorkerRow(1, 60, 0, 0, 30 * SECOND, None)] && t.claims == {}
    ensures var (u, r) := ClaimStep(t, 7, 0, 0);
            && r == Ok(Some(CLAIMED)) && u.claims == {CLAIMED} && u.artifacts == t.artifacts && u.workers == t.workers
            && u.attempts == [Attempt(0, 1, AttemptStatus.Running, 0, 1, 0, None, 7, 0, 60 * SECOND, 0, None)]
            && |u.jobs| == 1 && u.jobs[0].status.Running? && u.jobs[0].work == ImageResize(100, 80)
  {
    assert NextCandidate(t.jobs, 0, 0) == None;
    LoadInputsInOrder(t.artifacts, 0, 1, MAX_FILES_PER_JOB);
    assert LoadInputs(t.artifacts, 0, MAX_FILES_PER_JOB) == [InputRow(0, 0, InputKey(1, 0))];
    hide LoadInputs;
  }

  lemma PreparedState()
    ensures var s := Prepared();
            && |s.db.jobs| == 1 && s.db.jobs[0].status.Running? && s.db.jobs[0].work == ImageResize(100, 80)
            && s.db.attempts == [Attempt(0, 1, AttemptStatus.Running, 0, 1, 0, None, 7, 0, 60 * SECOND, 0, None)]
            && s.db.artifacts == map[Slot(0, Input, 0) := Artifact(0, None, None, InputKey(1, 0))]
            && s.db.workers == map[7 := WorkerRow(1, 60, 0, 0, 30 * SECOND, None)]
            && s.db.claims == {CLAIMED}
            && s.tasks == map[0 := Task(CLAIMED, Encoding(1), false)] && s.files == {OutputKey(0, 0, 0)}
  {
    hide Uploaded, ClaimStep, InsertInputs;
    UploadedState();
    ClaimedUpload(Uploaded().db);
    var s := Advance(Uploaded(), LAPSED_HEARTBEAT[2]);
    assert s.tasks == map[0 := Task(CLAIMED, Encoding(0), false)];
  }

  lemma RenewalRefused()
    ensures Advance(Prepared(), LAPSED_HEARTBEAT[4]) == Prepared().(tasks := map[0 := Task(CLAIMED, Encoding(1), true)])
  {
    PreparedState();
    hide Prepared;
  }

  /** A held claim with one input completes with the one output it collected. */
  lemma CompletesOne(t: Tables, now: Time)
    requires Held(t, CLAIMED, now) && JobHas(t, 0, JobStatus.Running) && t.jobs[0].work.ImageResize?
    requires t.artifacts == map[Slot(0, Input, 0) := Artifact(0, None, None, InputKey(1, 0))]
    ensures var (u, answer) := CompleteImageStep(t, CLAIMED, Collected(CLAIMED, InputCount(CLAIMED)), now);
            && answer.Ok? && Slot(0, Output, 0) in u.artifacts && u.artifacts[Slot(0, Output, 0)].key == OutputKey(0, 0, 0)
  {
    var outputs := Collected(CLAIMED, InputCount(CLAIMED));
    assert outputs == [PendingOutput(0, 0, OutputKey(0, 0, 0))];
    hide InsertOutputs, Collected, InputCount;
    PublishingSucceeds(t.artifacts, t.nextArtifact, 0, 0, outputs);
    var after := InsertOutputs(t.artifacts, t.nextArtifact, 0, 0, outputs).value;
    InsertOutputsEffect(t.artifacts, t.nextArtifact, 0, 0, outputs, after);
    assert OutputInserted(t.artifacts, t.nextArtifact, 0, 0, outputs, after, 0);
  }

  lemma StillHeld()
    ensures var s := Advance(Prepared(), LAPSED_HEARTBEAT[4]);
            && Held(s.db, CLAIMED, 50 * SECOND) && JobHas(s.db, 0, JobStatus.Running) && s.db.jobs[0].work.ImageResize?
            && s.db.artifacts == map[Slot(0, Input, 0) := Artifact(0, None, None, InputKey(1, 0))]
            && CLAIMED in s.db.claims && s.tasks == map[0 := Task(CLAIMED, Encoding(1), true)]
  {
    PreparedState();
    RenewalRefused();
    hide Prepared, Advance;
  }

  lemma CompletionAccepted()
    ensures var u := Advance(Advance(Prepared(), LAPSED_HEARTBEAT[4]), LAPSED_HEARTBEAT[5]);
            && 0 in u.tasks && u.tasks[0] == Task(CLAIMED, Done, true)
            && Slot(0, Output, 0) in u.db.artifacts && u.db.artifacts[Slot(0, Output, 0)].key == OutputKey(0, 0, 0)
  {
    hide Prepared, Advance, CompleteImageStep, PublishAnswer, Held, JobHas, Collected;
    StillHeld();
    var s := Advance(Prepared(), LAPSED_HEARTBEAT[4]);
    CompletesOne(s.db, 50 * SECOND);
    ImageAnswer(s.db, CLAIMED, 50 * SECOND);
    PublishTaken(s, 50 * SECOND);
  }

  lemma CleanTaken(s: System)
    requires 0 in s.tasks && s.tasks[0] == Task(CLAIMED, Done, true)
    requires Slot(0, Output, 0) in s.db.artifacts && s.db.artifacts[Slot(0, Output, 0)].key == OutputKey(0, 0, 0)
    ensures Dangling(Advance(s, Clean(0)), Slot(0, Output, 0))
  {
  }

  lemma PublishTaken(s: System, now: Time)
    requires 0 in s.tasks && s.tasks[0].claim == CLAIMED && Enabled(s, Publish(0, now))
    requires CLAIMED in s.db.claims && PublishAnswer(s.db, CLAIMED, now).Ok?
    ensures Advance(s, Publish(0, now)).tasks == s.tasks[0 := s.tasks[0].(phase := Done)]
    ensures Advance(s, Publish(0, now)).db == CompleteImageStep(s.db, CLAIMED, Collected(CLAIMED, InputCount(CLAIMED)), now).0
  {
    PublishEffect(s.db, CLAIMED, now);
    hide CompleteImageStep;
  }

  /** A renewal refused for a lapsed heartbeat, a completion that checks no heartbeat, and the
      clean-up that follows the overridden Ok: the published output has no file. */
  lemma OverriddenOkLosesTheFile()
    ensures Dangling(Play(BOOT, LAPSED_HEARTBEAT), Slot(0, Output, 0))
  {
    CompletionAccepted();
    var s6 := Advance(Advance(Prepared(), LAPSED_HEARTBEAT[4]), LAPSED_HEARTBEAT[5]);
    CleanTaken(s6);
    hide Prepared, Play, Advance, Dangling;
    PlaySeven(Advance(s6, LAPSED_HEARTBEAT[6]));
  }

  lemma PlaySeven(last: System)
    requires last == Advance(Advance(Advance(Prepared(), LAPSED_HEARTBEAT[4]), LAPSED_HEARTBEAT[5]), LAPSED_HEARTBEAT[6])
    ensures Play(BOOT, LAPSED_HEARTBEAT) == last
  {
    hide Advance;
    PlayFrom(BOOT, LAPSED_HEARTBEAT, 0);
    PlayFrom(Advance(BOOT, LAPSED_HEARTBEAT[0]), LAPSED_HEARTBEAT, 1);
    var s2 := Advance(Advance(BOOT, LAPSED_HEARTBEAT[0]), LAPSED_HEARTBEAT[1]);
    assert s2 == Uploaded();
    PlayFrom(s2, LAPSED_HEARTBEAT, 2);
    PlayFrom(Advance(s2, LAPSED_HEARTBEAT[2]), LAPSED_HEARTBEAT, 3);
    PlayFrom(Prepared(), LAPSED_HEARTBEAT, 4);
    var s5 := Advance(Prepared(), LAPSED_HEARTBEAT[4]);
    PlayFrom(s5, LAPSED_HEARTBEAT, 5);
    PlayFrom(Advance(s5, LAPSED_HEARTBEAT[5]), LAPSED_HEARTBEAT, 6);
    assert LAPSED_HEARTBEAT[7..] == [];
  }

  lemma PlayFrom(s: System, moves: seq<Move>, k: nat)
    requires k < |moves|
    ensures Play(s, moves[k..]) == Play(Advance(s, moves[k]), moves[k + 1..])
  {
    assert moves[k..][1..] == moves[k + 1..];
  }
}
