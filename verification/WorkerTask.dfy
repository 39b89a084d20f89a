/** The worker's run of one claim, as a client of the queue.

    Between any two of its calls other parties make any number of moves, each with a clock of its
    own, and the lease of the claim may be renewed any number of times.  The program is written call
    by call; every call is a move of the machine in module Manifest.
  */
module WorkerTask {
  import opened Rows
  import opened Slots
  import opened Steps
  import opened Repositories
  import opened AttemptLedger
  import opened Invariants
  import opened Preservation
  import opened Histories
  import opened Manifest

  // ---------------------------------------------------------------- facts that survive interference

  /** The task of a claim exists, in a state that satisfies the invariant. */
  ghost predicate Mine(s: System, c: Claim) {
    SystemInv(s) && c.attempt in s.tasks && s.tasks[c.attempt].claim == c
  }

  /** The attempt of a claim is no longer running. */
  predicate Ended(t: Tables, c: Claim) {
    c.attempt < |t.attempts| && !t.attempts[c.attempt].status.Running?
  }

  /** A cancellation of the claim's job was requested and did not come too late. */
  predicate CancelSeen(t: Tables, c: Claim) {
    c.job < |t.jobs| && (t.jobs[c.job].status.CancelRequested? || t.jobs[c.job].status.Cancelled?)
  }

  /** The attempt of the claim failed, and was recorded with the given kind. */
  predicate FailedAs(t: Tables, c: Claim, kind: FailureKind) {
    c.attempt < |t.attempts| && t.attempts[c.attempt].status.Failed? && t.attempts[c.attempt].errorKind == Some(FailedWith(kind))
  }

  /** The attempt of the claim was cancelled on request. */
  predicate StoppedOnRequest(t: Tables, c: Claim) {
    c.attempt < |t.attempts| && t.attempts[c.attempt].status.Cancelled? && CancelSeen(t, c)
  }

  /** At least so many inputs have been reported as done. */
  predicate Reported(t: Tables, c: Claim, n: nat) {
    c.attempt < |t.attempts| && n <= t.attempts[c.attempt].progress
  }

  lemma NothingReported(s: System, c: Claim)
    requires Mine(s, c)
    ensures Reported(s.db, c, 0)
  {
    MineMeansGenuine(s, c);
  }

  lemma Survives(t: Tables, u: Tables, c: Claim)
    requires Guarantee(t, u)
    ensures Ended(t, c) ==> Ended(u, c)
    ensures CancelSeen(t, c) ==> CancelSeen(u, c)
    ensures forall kind :: FailedAs(t, c, kind) ==> FailedAs(u, c, kind)
    ensures StoppedOnRequest(t, c) ==> StoppedOnRequest(u, c)
    ensures forall n: nat :: Reported(t, c, n) ==> Reported(u, c, n)
  {
    if c.attempt < |t.attempts| {
      assert AttemptEvolves(t.attempts[c.attempt], u.attempts[c.attempt]);
    }
    if CancelSeen(t, c) {
      assert JobEvolves(t.jobs[c.job], u.jobs[c.job]);
    }
  }

  /** Any move of the machine keeps the guarantee between its databases. */
  lemma MoveGuarantees(s: System, m: Move)
    requires SystemInv(s)
    ensures Guarantee(s.db, Advance(s, m).db)
  {
    hide SystemInv, Inv, Guarantee, Apply, ClaimStep, RenewStep, ExpireStep, PublishAnswer;
    DatabaseFits(s);
    GuaranteeReflexive(s.db);
    if Enabled(s, m) {
      match m
      case Foreign(e) => StepKeeps(s.db, e);
      case Start(w, now, token) => ClaimKeeps(s.db, w, now, token);
      case Call(a, e) => StepKeeps(s.db, e);
      case Publish(a, now) => StepKeeps(s.db, PublishEvent(s.tasks[a].claim, now));
      case _ =>
    }
  }

  /** The moves that only the task itself makes. */
  predicate OwnMove(m: Move, a: nat) {
    || (m.Call? && m.task == a) || (m.Encode? && m.task == a) || (m.GiveUp? && m.task == a)
    || (m.Publish? && m.task == a) || (m.Clean? && m.task == a)
  }

  lemma OthersLeaveTheTask(s: System, m: Move, a: nat)
    requires SystemInv(s) && a in s.tasks && !OwnMove(m, a)
    ensures var u := Advance(s, m); a in u.tasks && u.tasks[a] == s.tasks[a]
  {
    hide SystemInv, TasksFit, Apply, ClaimStep, RenewStep, ExpireStep, PublishAnswer;
    Parts(s);
    NoTaskYet(s);
    if m.Start? {
      ClaimEffect(s.db, m.worker, m.now, m.token);
    }
  }

  predicate NoFiles(files: set<Key>, c: Claim) {
    forall k :: k in files ==> !(k.OutputKey? && k.job == c.job && k.attempt == c.attempt)
  }

  /** No other task writes below the prefix of this attempt. */
  lemma OthersAddNoFiles(s: System, m: Move, c: Claim)
    requires Mine(s, c) && !OwnMove(m, c.attempt) && NoFiles(s.files, c)
    ensures NoFiles(Advance(s, m).files, c)
  {
    hide SystemInv, Apply, ClaimStep, RenewStep, ExpireStep, PublishAnswer, TasksFit;
    Parts(s);
    if m.Encode? && Enabled(s, m) {
      TaskOfClaim(s, m.task);
    }
  }

  lemma OwnMoveKeepsMine(s: System, m: Move, c: Claim)
    requires Mine(s, c) && OwnMove(m, c.attempt)
    ensures Mine(Advance(s, m), c) && Guarantee(s.db, Advance(s, m).db)
  {
    hide SystemInv, Guarantee, Apply, RenewStep, PublishAnswer;
    MoveKeeps(s, m);
    MoveGuarantees(s, m);
  }

  lemma MineMeansGenuine(s: System, c: Claim)
    requires Mine(s, c)
    ensures Inv(s.db) && c in s.db.claims && ClaimFits(s.db, c) && c.attempt < |s.db.attempts|
  {
    ClaimOfTask(s, c.attempt);
  }

  // ---------------------------------------------------------------- what the answers mean

  /** The two readings of cancellation_requested: "no" only without a requested cancellation. */
  lemma CancellationAnswer(s: System, c: Claim, now: Time)
    requires Mine(s, c)
    ensures var r := CancellationRequested(s.db, c, now);
            && (r == Err(ClaimLost) || r == Ok(true) || r == Ok(false))
            && (r == Ok(true) ==> CancelSeen(s.db, c))
            && (CancelSeen(s.db, c) ==> r != Ok(false))
  {
  }

  lemma FinishCancelledAnswer(s: System, c: Claim, now: Time)
    requires Mine(s, c) && CancelSeen(s.db, c)
    ensures var (u, r) := FinishCancelledStep(s.db, c, now); r == Err(ClaimLost) || (r == Ok(()) && Ended(u, c) && StoppedOnRequest(u, c))
  {
    hide SystemInv, Inv;
    MineMeansGenuine(s, c);
    if Held(s.db, c, now) {
      RunningAttempt(s.db, c.attempt);
    }
  }

  lemma FailureAnswer(s: System, c: Claim, kind: FailureKind, message: string, now: Time)
    requires Mine(s, c)
    ensures var (u, r) := FailureStep(s.db, c, kind, message, now);
            && (r.Ok? ==> Ended(u, c) && FailedAs(u, c, kind))
            && (r.Err? ==> r.error == ClaimLost || (r.error == StateConflict && CancelSeen(u, c)))
  {
    hide SystemInv, Inv;
    MineMeansGenuine(s, c);
    ConflictMeansCancellation(s.db, c, 0, kind, message, now);
  }

  lemma ProgressAnswer(s: System, c: Claim, completed: nat, now: Time)
    requires Mine(s, c)
    ensures var (u, r) := ProgressStep(s.db, c, completed, now);
            && (r.Ok? ==> Reported(u, c, completed))
            && (r.Err? ==> r.error == ClaimLost || (r.error == StateConflict && CancelSeen(u, c)))
  {
    hide SystemInv, Inv;
    MineMeansGenuine(s, c);
    ConflictMeansCancellation(s.db, c, completed, Transient, "", now);
  }

  lemma DemoAnswer(s: System, c: Claim, now: Time)
    requires Mine(s, c) && c.work.DemoWork?
    ensures var (u, r) := CompleteDemoStep(s.db, c, now);
            && (r.Ok? ==> r == Ok(()) && Ended(u, c))
            && (r.Err? ==> r.error == ClaimLost || (r.error == StateConflict && CancelSeen(u, c)))
  {
    hide SystemInv, Inv;
    MineMeansGenuine(s, c);
    ConflictMeansCancellation(s.db, c, 0, Transient, "", now);
  }

  lemma ImageJobAnswer(s: System, c: Claim, now: Time)
    requires Mine(s, c) && c.work.ImageWork?
    ensures var (u, r) := CompleteImageStep(s.db, c, Collected(c, InputCount(c)), now);
            (r == Ok(()) && Ended(u, c)) || r == Err(ClaimLost)
  {
    hide SystemInv, Inv, InsertOutputs;
    MineMeansGenuine(s, c);
    CompleteImageAnswer(s.db, c, Collected(c, InputCount(c)), now);
  }

  // ---------------------------------------------------------------- the worker

  predicate OkOrLost(r: Result<()>) {
    r == Ok(()) || r == Err(ClaimLost)
  }

  lemma StoppedEndsAs(t: Tables, c: Claim, what: Happened)
    ensures StoppedOnRequest(t, c) ==> EndsAs(t, c, what)
  {
  }

  lemma RecordedEndsAs(t: Tables, c: Claim, what: Happened, kind: FailureKind)
    requires what == NotEncoded(kind) || (what == BudgetExceeded && kind.Permanent?) || (what == UsageUnknown && kind.Transient?)
    ensures FailedAs(t, c, kind) || StoppedOnRequest(t, c) ==> EndsAs(t, c, what)
  {
  }

  lemma NeverConflicts(r: Result<()>)
    requires OkOrLost(r)
    ensures r != Err(StateConflict)
  {
  }

  datatype Encoded = Written | NotWritten(kind: FailureKind, message: string)

  datatype Usage = WithinBudget | OverBudget | NotMeasured

  /** What made the program stop with an input, apart from a cancellation. */
  datatype Happened = Nothing | NotEncoded(kind: FailureKind) | BudgetExceeded | UsageUnknown

  /** The encoder's own kind; a full budget is permanent, an unmeasured usage is not. */
  predicate EndsAs(t: Tables, c: Claim, what: Happened) {
    || StoppedOnRequest(t, c)
    || match what
       case Nothing => false
       case NotEncoded(kind) => FailedAs(t, c, kind)
       case BudgetExceeded => FailedAs(t, c, Permanent)
       case UsageUnknown => FailedAs(t, c, Transient)
  }

  function HappenedTo(outcome: Encoded, usage: Usage): Happened {
    if outcome.NotWritten? then NotEncoded(outcome.kind)
    else if usage.OverBudget? then BudgetExceeded
    else if usage.NotMeasured? then UsageUnknown
    else Nothing
  }

  /** A task that gave up has left no file. */
  predicate Tidy(s: System, c: Claim) {
    c.attempt in s.tasks && s.tasks[c.attempt].phase == GivenUp ==> NoFiles(s.files, c)
  }

  /** From one state of the world to a later one: the task kept its claim and has the given phase,
      the database evolved, a lost renewal is not forgotten, and nothing appears that was cleaned. */
  ghost predicate Later(s: System, u: System, c: Claim, phase: Phase) {
    && Mine(u, c) && Guarantee(s.db, u.db)
    && u.tasks[c.attempt].phase == phase
    && (c.attempt in s.tasks && s.tasks[c.attempt].renewalLost ==> u.tasks[c.attempt].renewalLost)
    && (Tidy(s, c) ==> Tidy(u, c))
  }

  lemma LaterStays(s: System, c: Claim)
    requires Mine(s, c)
    ensures Later(s, s, c, s.tasks[c.attempt].phase)
  {
    GuaranteeReflexive(s.db);
  }

  lemma LaterTransitive(s: System, t: System, u: System, c: Claim, p: Phase, q: Phase)
    requires Later(s, t, c, p) && Later(t, u, c, q)
    ensures Later(s, u, c, q)
    ensures CancelSeen(s.db, c) ==> CancelSeen(t.db, c)
    ensures CancelSeen(t.db, c) ==> CancelSeen(u.db, c)
    ensures Ended(t.db, c) ==> Ended(u.db, c)
    ensures forall n: nat :: Reported(t.db, c, n) ==> Reported(u.db, c, n)
  {
    GuaranteeTransitive(s.db, t.db, u.db);
    Survives(s.db, t.db, c);
    Survives(t.db, u.db, c);
  }

  class World {
    const db: Database
    var files: set<Key>
    var tasks: map<nat, Task>
    var expired: set<Key>

    constructor ()
      ensures State() == BOOT && fresh(db)
    {
      db := new Database();
      files, tasks, expired := {}, map[], {};
    }

    function State(): System
      reads this, db
    {
      System(db.State(), files, tasks, expired)
    }

    /** Whatever other parties and the renewal timer of this task do before its next call: any number
        of moves in any order. */
    method Pause(c: Claim)
      requires Mine(State(), c)
      modifies this, db
      ensures Later(old(State()), State(), c, old(tasks[c.attempt].phase))
    {
      ghost var start, phase := State(), tasks[c.attempt].phase;
      LaterStays(start, c);
      hide Mine, Later;
      var moves: nat := *;
      while moves > 0
        invariant Later(start, State(), c, phase)
        decreases moves
      {
        ghost var s := State();
        LaterIsMine(start, s, c, phase);
        var move: Move := *;
        var renews: bool := *;
        if renews && !tasks[c.attempt].renewalLost {
          Renew(c);
          LaterTransitive(start, s, State(), c, phase, phase);
        } else if !OwnMove(move, c.attempt) {
          OthersMove(move, c);
          LaterTransitive(start, s, State(), c, phase, phase);
        }
        moves := moves - 1;
      }
    }

    /** A move of anyone but the task of c: the environment of the worker. */
    method OthersMove(m: Move, c: Claim)
      requires Mine(State(), c) && !OwnMove(m, c.attempt)
      modifies this, db
      ensures Later(old(State()), State(), c, old(tasks[c.attempt].phase))
    {
      hide SystemInv, Guarantee, Advance, OwnMove;
      ghost var s := State();
      MoveKeeps(s, m);
      MoveGuarantees(s, m);
      OthersLeaveTheTask(s, m, c.attempt);
      if NoFiles(s.files, c) {
        OthersAddNoFiles(s, m, c);
      }
      var next := Advance(State(), m);
      db.Rollback(next.db);
      files, tasks, expired := next.files, next.tasks, next.expired;
    }

    /** One tick of the renewal timer. */
    method Renew(c: Claim)
      requires Mine(State(), c)
      modifies this, db
      ensures Later(old(State()), State(), c, old(tasks[c.attempt].phase))
    {
      var now: Time := *;
      ghost var s := State();
      hide SystemInv, Later, RenewStep;
      OwnCallKeeps(s, Steps.Renew(c, now), c);
      var r := db.Renew(c, now);
      tasks := tasks[c.attempt := tasks[c.attempt].(renewalLost := tasks[c.attempt].renewalLost || r == Err(ClaimLost))];
    }

    // -------------------------------------------------------------- single calls

    method CancellationRequested(c: Claim) returns (r: Result<bool>)
      requires Mine(State(), c)
      modifies this, db
      ensures Later(old(State()), State(), c, old(tasks[c.attempt].phase))
      ensures r == Err(ClaimLost) || r == Ok(true) || r == Ok(false)
      ensures r == Ok(true) ==> CancelSeen(db.State(), c)
      ensures old(CancelSeen(db.State(), c)) ==> r != Ok(false)
    {
      hide SystemInv, Guarantee, Ended, CancelSeen, Steps.CancellationRequested;
      ghost var start, phase := State(), tasks[c.attempt].phase;
      Pause(c);
      LaterIsMine(start, State(), c, phase);
      LaterSurvives(start, State(), c, phase);
      var now: Time := *;
      CancellationAnswer(State(), c, now);
      r := db.CancellationRequested(c, now);
    }

    method FinishCancelled(c: Claim) returns (r: Result<()>)
      requires Mine(State(), c) && tasks[c.attempt].phase == GivenUp && CancelSeen(db.State(), c)
      modifies this, db
      ensures Later(old(State()), State(), c, GivenUp)
      ensures r == Err(ClaimLost) || (r == Ok(()) && Ended(db.State(), c) && StoppedOnRequest(db.State(), c))
    {
      hide SystemInv, Guarantee, Ended, CancelSeen, StoppedOnRequest, FinishCancelledStep;
      ghost var start := State();
      Pause(c);
      ghost var s := State();
      LaterIsMine(start, s, c, GivenUp);
      LaterSurvives(start, s, c, GivenUp);
      var now: Time := *;
      FinishCancelledAnswer(s, c, now);
      CallKeepsLater(s, Event.FinishCancelled(c, now), c);
      r := db.FinishCancelled(c, now);
      LaterTransitive(start, s, State(), c, GivenUp, GivenUp);
    }

    method RecordFailure(c: Claim, kind: FailureKind, message: string) returns (r: Result<Disposition>)
      requires Mine(State(), c) && tasks[c.attempt].phase == GivenUp
      modifies this, db
      ensures Later(old(State()), State(), c, GivenUp)
      ensures r.Ok? ==> Ended(db.State(), c) && FailedAs(db.State(), c, kind)
      ensures r.Err? ==> r.error == ClaimLost || (r.error == StateConflict && CancelSeen(db.State(), c))
    {
      hide SystemInv, Guarantee, Ended, CancelSeen, FailedAs, FailureStep;
      ghost var start := State();
      Pause(c);
      ghost var s := State();
      LaterIsMine(start, s, c, GivenUp);
      var now: Time := *;
      FailureAnswer(s, c, kind, message, now);
      CallKeepsLater(s, Event.RecordFailure(c, kind, message, now), c);
      r := db.RecordFailure(c, kind, message, now);
      LaterTransitive(start, s, State(), c, GivenUp, GivenUp);
    }

    method RecordEncoding(c: Claim, ms: nat) returns (r: Result<()>)
      requires Mine(State(), c)
      modifies this, db
      ensures Later(old(State()), State(), c, old(tasks[c.attempt].phase))
      ensures r.Ok? || r == Err(ClaimLost)
    {
      hide SystemInv, Guarantee, Ended, CancelSeen;
      ghost var start, phase := State(), tasks[c.attempt].phase;
      Pause(c);
      ghost var s := State();
      LaterIsMine(start, s, c, phase);
      var now: Time := *;
      CallKeepsLater(s, Event.RecordEncoding(c, ms, now), c);
      r := db.RecordEncoding(c, ms, now);
      LaterTransitive(start, s, State(), c, phase, phase);
    }

    method UpdateProgress(c: Claim, completed: nat) returns (r: Result<()>)
      requires Mine(State(), c)
      modifies this, db
      ensures Later(old(State()), State(), c, old(tasks[c.attempt].phase))
      ensures r.Ok? ==> Reported(db.State(), c, completed)
      ensures r.Err? ==> r.error == ClaimLost || (r.error == StateConflict && CancelSeen(db.State(), c))
    {
      hide SystemInv, Guarantee, Ended, CancelSeen, Reported, ProgressStep;
      ghost var start, phase := State(), tasks[c.attempt].phase;
      Pause(c);
      ghost var s := State();
      LaterIsMine(start, s, c, phase);
      var now: Time := *;
      ProgressAnswer(s, c, completed, now);
      CallKeepsLater(s, Event.UpdateProgress(c, completed, now), c);
      r := db.UpdateProgress(c, completed, now);
      LaterTransitive(start, s, State(), c, phase, phase);
    }

    method Complete(c: Claim) returns (r: Result<()>)
      requires Mine(State(), c) && c.work.DemoWork? && tasks[c.attempt].phase == Encoding(0)
      modifies this, db
      ensures Later(old(State()), State(), c, if r.Ok? then Done else Encoding(0))
      ensures r.Ok? ==> r == Ok(()) && Ended(db.State(), c)
      ensures r.Err? ==> r.error == ClaimLost || (r.error == StateConflict && CancelSeen(db.State(), c))
    {
      hide SystemInv, Guarantee, Ended, CancelSeen, CompleteDemoStep, CompleteImageStep;
      ghost var start := State();
      Pause(c);
      ghost var s := State();
      LaterIsMine(start, s, c, Encoding(0));
      var now: Time := *;
      DemoAnswer(s, c, now);
      PublishKeepsLater(s, c, now);
      r := db.CompleteDemo(c, now);
      if r.Ok? {
        tasks := tasks[c.attempt := tasks[c.attempt].(phase := Done)];
      }
      LaterTransitive(start, s, State(), c, Encoding(0), if r.Ok? then Done else Encoding(0));
    }

    method CompleteImageJob(c: Claim, outputs: seq<PendingOutput>) returns (r: Result<()>)
      requires Mine(State(), c) && c.work.ImageWork? && tasks[c.attempt].phase == Encoding(InputCount(c))
      requires outputs == Collected(c, InputCount(c))
      modifies this, db
      ensures Later(old(State()), State(), c, if r.Ok? then Done else Encoding(InputCount(c)))
      ensures OkOrLost(r) && (r.Ok? ==> r == Ok(()) && Ended(db.State(), c))
      ensures r.Err? ==> r.error == ClaimLost || (r.error == StateConflict && CancelSeen(db.State(), c))
    {
      hide SystemInv, Guarantee, Ended, CancelSeen, CompleteDemoStep, CompleteImageStep;
      ghost var start, phase := State(), tasks[c.attempt].phase;
      Pause(c);
      ghost var s := State();
      LaterIsMine(start, s, c, phase);
      var now: Time := *;
      ImageJobAnswer(s, c, now);
      PublishKeepsLater(s, c, now);
      r := db.CompleteImage(c, outputs, now);
      if r.Ok? {
        tasks := tasks[c.attempt := tasks[c.attempt].(phase := Done)];
      }
      LaterTransitive(start, s, State(), c, phase, if r.Ok? then Done else phase);
    }

    /** Encodes one input: either its output file is stored under its key, or nothing is. */
    method ResizeToJpeg(c: Claim, k: nat) returns (outcome: Encoded)
      requires Mine(State(), c) && c.work.ImageWork? && k < |c.work.inputs| && tasks[c.attempt].phase == Encoding(k)
      modifies this, db
      ensures Later(old(State()), State(), c, if outcome.Written? then Encoding(k + 1) else Encoding(k))
    {
      hide SystemInv, Guarantee, Ended, CancelSeen, Apply;
      ghost var start := State();
      Pause(c);
      ghost var s := State();
      LaterIsMine(start, s, c, Encoding(k));
      LaterStays(s, c);
      outcome := *;
      OwnMoveKeepsMine(s, Encode(c.attempt), c);
      if outcome.Written? {
        files := files + {OutputOf(c, k)};
        tasks := tasks[c.attempt := tasks[c.attempt].(phase := Encoding(k + 1))];
        assert State() == Advance(s, Encode(c.attempt));
      }
      LaterTransitive(start, s, State(), c, Encoding(k), if outcome.Written? then Encoding(k + 1) else Encoding(k));
    }

    /** Gives up and removes the tree of the attempt. */
    method CleanupAttemptOutputs(c: Claim)
      requires Mine(State(), c) && (tasks[c.attempt].phase == Done ==> tasks[c.attempt].renewalLost)
      modifies this, db
      ensures Later(old(State()), State(), c, if old(tasks[c.attempt].phase) == Done then Done else GivenUp)
      ensures NoFiles(files, c)
      ensures db.State() == old(db.State())
    {
      hide SystemInv, Guarantee, Ended, CancelSeen, Apply;
      ghost var s := State();
      GuaranteeReflexive(s.db);
      if tasks[c.attempt].phase != Done {
        OwnMoveKeepsMine(s, GiveUp(c.attempt), c);
        tasks := tasks[c.attempt := tasks[c.attempt].(phase := GivenUp)];
        assert State() == Advance(s, GiveUp(c.attempt));
      }
      ghost var t := State();
      OwnMoveKeepsMine(t, Clean(c.attempt), c);
      files := RemoveTree(files, c.job, c.attempt);
      assert State() == Advance(t, Clean(c.attempt));
    }

    // -------------------------------------------------------------- the program

    /** Asks whether to stop; if so removes the attempt's files and closes the attempt.  After a
        requested cancellation the answer is never "no". */
    method FinishIfCancelRequested(c: Claim) returns (r: Result<bool>)
      requires Mine(State(), c) && tasks[c.attempt].phase != Done
      modifies this, db
      ensures r == Ok(true) || r == Ok(false) || r == Err(ClaimLost)
      ensures Mine(State(), c) && tasks[c.attempt].phase != Done && Later(old(State()), State(), c, tasks[c.attempt].phase)
      ensures r == Ok(true) ==> Ended(db.State(), c) && StoppedOnRequest(db.State(), c) && tasks[c.attempt].phase == GivenUp
      ensures r == Ok(false) ==> tasks[c.attempt].phase == old(tasks[c.attempt].phase)
      ensures tasks[c.attempt].phase == old(tasks[c.attempt].phase) || tasks[c.attempt].phase == GivenUp
      ensures old(CancelSeen(db.State(), c)) ==> r != Ok(false)
    {
      hide SystemInv, Guarantee, Ended, CancelSeen;
      ghost var start, phase := State(), tasks[c.attempt].phase;
      var requested := CancellationRequested(c);
      if requested.Err? || !requested.value {
        return requested;
      }
      ghost var s := State();
      CleanupAttemptOutputs(c);
      LaterTransitive(start, s, State(), c, phase, GivenUp);
      ghost var t := State();
      var finished := FinishCancelled(c);
      LaterTransitive(start, t, State(), c, GivenUp, GivenUp);
      if finished.Err? {
        return Err(finished.error);
      }
      return Ok(true);
    }

    /** Removes the attempt's files and records the failure with its kind; if a cancellation came first,
        closes the attempt as cancelled instead. */
    method RecordImageFailure(c: Claim, kind: FailureKind, message: string) returns (r: Result<()>)
      requires Mine(State(), c) && tasks[c.attempt].phase != Done
      modifies this, db
      ensures Mine(State(), c) && tasks[c.attempt].phase != Done && Later(old(State()), State(), c, tasks[c.attempt].phase)
      ensures (r == Ok(()) && Ended(db.State(), c)) || r == Err(ClaimLost)
      ensures tasks[c.attempt].phase == GivenUp
      ensures r.Ok? ==> FailedAs(db.State(), c, kind) || StoppedOnRequest(db.State(), c)
    {
      hide SystemInv, Guarantee, Ended, CancelSeen, FailedAs, StoppedOnRequest;
      ghost var start := State();
      CleanupAttemptOutputs(c);
      ghost var s := State();
      var failure := RecordFailure(c, kind, message);
      LaterTransitive(start, s, State(), c, GivenUp, GivenUp);
      if failure.Ok? {
        return Ok(());
      }
      if failure.error != StateConflict {
        return Err(failure.error);
      }
      ghost var t := State();
      var stopped := FinishIfCancelRequested(c);
      LaterTransitive(start, t, State(), c, GivenUp, tasks[c.attempt].phase);
      if stopped.Err? {
        return Err(stopped.error);
      }
      if !stopped.value {
        return Err(StateConflict);
      }
      return Ok(());
    }

    /** The loop over the inputs, and the completion.  Its branch for a conflict is never taken.  Every
        input that is finished has been reported, and a failure is recorded as what it was. */
    method ProcessImages(c: Claim) returns (r: Result<()>, ghost what: Happened, ghost finished: nat)
      requires Mine(State(), c) && c.work.ImageWork? && tasks[c.attempt].phase == Encoding(0)
      modifies this, db
      ensures Mine(State(), c) && Later(old(State()), State(), c, tasks[c.attempt].phase)
      ensures (r == Ok(()) && Ended(db.State(), c) && !tasks[c.attempt].phase.Encoding?)
              || (r == Err(ClaimLost) && tasks[c.attempt].phase != Done)
      ensures r.Ok? ==> tasks[c.attempt].phase == Done || EndsAs(db.State(), c, what)
      ensures Reported(db.State(), c, finished)
      ensures tasks[c.attempt].phase == Done ==> finished == InputCount(c)
      ensures tasks[c.attempt].phase.Encoding? ==> finished <= tasks[c.attempt].phase.done <= finished + 1
    {
      hide SystemInv, Guarantee, Ended, CancelSeen, Later, OkOrLost, StoppedOnRequest, EndsAs, Reported, FailedAs;
      ghost var start := State();
      LaterStays(start, c);
      NothingReported(start, c);
      var outputs: seq<PendingOutput> := [];
      var completed := 0;
      what, finished := Nothing, 0;
      while completed < |c.work.inputs|
        invariant completed <= |c.work.inputs| && outputs == Collected(c, completed)
        invariant Mine(State(), c) && tasks[c.attempt].phase == Encoding(completed)
        invariant Later(start, State(), c, Encoding(completed))
        invariant finished == completed && Reported(db.State(), c, completed)
      {
        ghost var s := State();
        var step, reason, encoded := ProcessImage(c, completed);
        LaterTransitive(start, s, State(), c, Encoding(completed), tasks[c.attempt].phase);
        what := reason;
        if step.Some? {
          r := step.value;
          return;
        }
        outputs := outputs + [PendingOutput(c.work.inputs[completed].id, c.work.inputs[completed].item, OutputOf(c, completed))];
        completed := completed + 1;
        s := State();
        var progress := UpdateProgress(c, completed);
        LaterIsMine(s, State(), c, Encoding(completed));
        LaterTransitive(start, s, State(), c, Encoding(completed), Encoding(completed));
        if progress.Err? {
          r := Err(progress.error);
          if progress.error == StateConflict {
            s := State();
            var stopped := FinishIfCancelRequested(c);
            LaterTransitive(start, s, State(), c, Encoding(completed), tasks[c.attempt].phase);
            StoppedEndsAs(db.State(), c, what);
            r := if stopped.Err? then Err(stopped.error) else if stopped.value then Ok(()) else r;
          }
          return;
        }
        finished := completed;
      }
      ghost var s, phase := State(), Encoding(completed);
      var stopped := FinishIfCancelRequested(c);
      LaterTransitive(start, s, State(), c, phase, tasks[c.attempt].phase);
      StoppedEndsAs(db.State(), c, what);
      if stopped.Err? || stopped.value {
        r := if stopped.Err? then Err(stopped.error) else Ok(());
        return;
      }
      s := State();
      var completion := CompleteImageJob(c, outputs);
      LaterIsMine(s, State(), c, if completion.Ok? then Done else phase);
      LaterTransitive(start, s, State(), c, phase, tasks[c.attempt].phase);
      r := completion;
      if completion == Err(StateConflict) {
        s := State();
        stopped := FinishIfCancelRequested(c);
        LaterTransitive(start, s, State(), c, phase, tasks[c.attempt].phase);
        StoppedEndsAs(db.State(), c, what);
        r := if stopped.Err? then Err(stopped.error) else if stopped.value then Ok(()) else completion;
      }
      NeverConflicts(completion);
    }

    /** Records what went wrong with an input, if anything did. */
    method StopOnTrouble(c: Claim, outcome: Encoded, usage: Usage) returns (r: Option<Result<()>>)
      requires Mine(State(), c) && tasks[c.attempt].phase != Done
      modifies this, db
      ensures Mine(State(), c) && Later(old(State()), State(), c, tasks[c.attempt].phase)
      ensures r.None? <==> HappenedTo(outcome, usage) == Nothing
      ensures r.None? ==> State() == old(State())
      ensures r.Some? ==> tasks[c.attempt].phase == GivenUp && ((r.value == Ok(()) && Ended(db.State(), c)) || r.value == Err(ClaimLost))
      ensures r.Some? && r.value.Ok? ==> EndsAs(db.State(), c, HappenedTo(outcome, usage))
    {
      hide SystemInv, Guarantee, Ended, CancelSeen, Later, StoppedOnRequest, EndsAs, FailedAs;
      ghost var what := HappenedTo(outcome, usage);
      LaterStays(State(), c);
      if outcome.NotWritten? {
        var failed := RecordImageFailure(c, outcome.kind, outcome.message);
        RecordedEndsAs(db.State(), c, what, outcome.kind);
        return Some(failed);
      }
      if usage.OverBudget? {
        var failed := RecordImageFailure(c, Permanent, "storage budget exceeded while writing output");
        RecordedEndsAs(db.State(), c, what, Permanent);
        return Some(failed);
      }
      if usage.NotMeasured? {
        var failed := RecordImageFailure(c, Transient, "storage usage could not be measured");
        RecordedEndsAs(db.State(), c, what, Transient);
        return Some(failed);
      }
      return None;
    }

    /** One input up to its second cancellation check: None to go on with the loop, or the result
        with which the program stops.  A failure is recorded as what it was, and a cancellation stops the
        program if it was requested before the input began, or by the time it was encoded. */
    method ProcessImage(c: Claim, k: nat) returns (r: Option<Result<()>>, ghost what: Happened, ghost encoded: Tables)
      requires Mine(State(), c) && c.work.ImageWork? && k < |c.work.inputs| && tasks[c.attempt].phase == Encoding(k)
      modifies this, db
      ensures Mine(State(), c) && Later(old(State()), State(), c, tasks[c.attempt].phase) && tasks[c.attempt].phase != Done
      ensures r.None? ==> tasks[c.attempt].phase == Encoding(k + 1) && what == Nothing
      ensures r.Some? ==> (r.value == Ok(()) && Ended(db.State(), c) && tasks[c.attempt].phase == GivenUp) || r.value == Err(ClaimLost)
      ensures r.Some? && r.value.Ok? ==> EndsAs(db.State(), c, what)
      ensures old(CancelSeen(db.State(), c)) ==> r.Some?
      ensures r.None? ==> !CancelSeen(encoded, c) && Guarantee(encoded, db.State())
      ensures tasks[c.attempt].phase.Encoding? ==> k <= tasks[c.attempt].phase.done <= k + 1
    {
      hide SystemInv, Guarantee, Ended, CancelSeen, Later, StoppedOnRequest, EndsAs, FailedAs;
      ghost var start := State();
      what, encoded := Nothing, db.State();
      var stopped := FinishIfCancelRequested(c);
      StoppedEndsAs(db.State(), c, what);
      if stopped.Err? || stopped.value {
        r := Some(if stopped.Err? then Err(stopped.error) else Ok(()));
        return;
      }
      ghost var s := State();
      var outcome := ResizeToJpeg(c, k);
      ghost var phase := if outcome.Written? then Encoding(k + 1) else Encoding(k);
      LaterIsMine(s, State(), c, phase);
      LaterTransitive(start, s, State(), c, Encoding(k), phase);
      s := State();
      var ms: nat := *;
      var recorded := RecordEncoding(c, ms);
      LaterIsMine(s, State(), c, phase);
      LaterTransitive(start, s, State(), c, phase, phase);
      if recorded.Err? {
        r := Some(Err(recorded.error));
        return;
      }
      s := State();
      var usage: Usage := *;
      what := HappenedTo(outcome, usage);
      r := StopOnTrouble(c, outcome, usage);
      LaterTransitive(start, s, State(), c, phase, tasks[c.attempt].phase);
      if r.Some? {
        return;
      }
      s := State();
      encoded := s.db;
      stopped := FinishIfCancelRequested(c);
      LaterTransitive(start, s, State(), c, phase, tasks[c.attempt].phase);
      LaterGuarantees(s, State(), c, tasks[c.attempt].phase);
      StoppedEndsAs(db.State(), c, what);
      r := if stopped.Err? then Some(Err(stopped.error)) else if stopped.value then Some(Ok(())) else None;
    }

    /** The whole run of a claim: Ok only when the claim's attempt has ended, published, cancelled on
        request, or failed as what happened; otherwise ClaimLost. */
    method ProcessClaimedInner(c: Claim) returns (r: Result<()>, ghost what: Happened)
      requires Mine(State(), c) && tasks[c.attempt].phase == Encoding(0)
      modifies this, db
      ensures Mine(State(), c) && Later(old(State()), State(), c, tasks[c.attempt].phase)
      ensures (r == Ok(()) && Ended(db.State(), c) && !tasks[c.attempt].phase.Encoding?)
              || (r == Err(ClaimLost) && tasks[c.attempt].phase != Done)
      ensures r.Ok? ==> tasks[c.attempt].phase == Done || EndsAs(db.State(), c, what)
    {
      hide SystemInv, Guarantee, Ended, CancelSeen, Later, StoppedOnRequest, EndsAs, FailedAs, Reported;
      what := Nothing;
      if c.work.ImageWork? {
        ghost var finished;
        r, what, finished := ProcessImages(c);
        return;
      }
      ghost var start := State();
      var stopped := FinishIfCancelRequested(c);
      StoppedEndsAs(db.State(), c, what);
      if stopped.Err? || stopped.value {
        r := if stopped.Err? then Err(stopped.error) else Ok(());
        return;
      }
      ghost var s := State();
      r := Complete(c);
      LaterIsMine(s, State(), c, if r.Ok? then Done else Encoding(0));
      LaterTransitive(start, s, State(), c, Encoding(0), tasks[c.attempt].phase);
      if r == Err(StateConflict) {
        s := State();
        stopped := FinishIfCancelRequested(c);
        LaterTransitive(start, s, State(), c, Encoding(0), tasks[c.attempt].phase);
        StoppedEndsAs(db.State(), c, what);
        r := if stopped.Err? then Err(stopped.error) else if stopped.value then Ok(()) else r;
      }
    }

    /** A lost claim has its files removed and is not an error. */
    method FinishClaimedResult(c: Claim, result: Result<()>) returns (r: Result<()>)
      requires Mine(State(), c)
      requires result == Err(ClaimLost) && tasks[c.attempt].phase == Done ==> tasks[c.attempt].renewalLost
      modifies this, db
      ensures Mine(State(), c) && Later(old(State()), State(), c, tasks[c.attempt].phase)
      ensures r == if result == Err(ClaimLost) then Ok(()) else result
      ensures db.State() == old(db.State())
      ensures if result == Err(ClaimLost) then NoFiles(files, c) else State() == old(State())
    {
      LaterStays(State(), c);
      hide SystemInv, Guarantee;
      if result == Err(ClaimLost) {
        CleanupAttemptOutputs(c);
        return Ok(());
      }
      r := result;
    }

    /** Processing under lease renewal, as the worker spawns it.  The renewal can land after the last
        call of the program and before its result is looked at.  It never fails; at its end the
        attempt has ended or its claim was lost; unless it published, none of its files is left; and a
        manifest that it published keeps its files unless a renewal had reported the claim lost. */
    method ProcessWithLeaseRenewal(c: Claim) returns (r: Result<()>)
      requires Mine(State(), c) && tasks[c.attempt].phase == Encoding(0)
      modifies this, db
      ensures Mine(State(), c) && Guarantee(old(db.State()), db.State())
      ensures r == Ok(())
      ensures Ended(db.State(), c) || NoFiles(files, c)
      ensures tasks[c.attempt].phase != Done || tasks[c.attempt].renewalLost ==> NoFiles(files, c)
      ensures tasks[c.attempt].phase == Done && !tasks[c.attempt].renewalLost ==> ManifestStored(State(), c)
    {
      hide SystemInv, Guarantee, ManifestStored, NoFiles;
      ghost var start := State();
      var processed, what := ProcessClaimedInner(c);
      ghost var s, phase := State(), tasks[c.attempt].phase;
      Pause(c);
      LaterTransitive(start, s, State(), c, phase, phase);
      var result := if tasks[c.attempt].renewalLost && processed.Ok? then Err(ClaimLost) else processed;
      s := State();
      r := FinishClaimedResult(c, result);
      LaterTransitive(start, s, State(), c, phase, tasks[c.attempt].phase);
      if !tasks[c.attempt].renewalLost {
        StoredManifest(State(), c);
      }
    }
  }

  /** The outputs that the attempt of a claim published all have their files. */
  ghost predicate ManifestStored(s: System, c: Claim) {
    forall slot :: slot in s.db.artifacts && slot.kind.Output? && s.db.artifacts[slot].attempt == Some(c.attempt) ==>
      s.db.artifacts[slot].key in s.files
  }

  lemma StoredManifest(s: System, c: Claim)
    requires Mine(s, c) && !s.tasks[c.attempt].renewalLost
    ensures ManifestStored(s, c)
  {
    hide Inv, TasksFit, ExpiredFit;
  }

  lemma LaterSurvives(s: System, u: System, c: Claim, phase: Phase)
    requires Later(s, u, c, phase)
    ensures CancelSeen(s.db, c) ==> CancelSeen(u.db, c)
    ensures Ended(s.db, c) ==> Ended(u.db, c)
  {
    Survives(s.db, u.db, c);
  }

  lemma LaterGuarantees(s: System, u: System, c: Claim, phase: Phase)
    requires Later(s, u, c, phase)
    ensures Guarantee(s.db, u.db)
  {
  }

  lemma LaterIsMine(s: System, u: System, c: Claim, phase: Phase)
    requires Later(s, u, c, phase)
    ensures Mine(u, c) && c.attempt in u.tasks && u.tasks[c.attempt].phase == phase && u.tasks[c.attempt].claim == c
  {
  }

  /** A call made with the own claim: the database takes the step, the task keeps its phase. */
  lemma OwnCallKeeps(s: System, e: Event, c: Claim)
    requires Mine(s, c) && OwnCall(s.tasks[c.attempt], e)
    ensures var lost := e.Renew? && RenewStep(s.db, e.claim, e.now).1 == Err(ClaimLost);
            var task := s.tasks[c.attempt];
            Later(s, s.(db := Perform(s.db, e), tasks := s.tasks[c.attempt := task.(renewalLost := task.renewalLost || lost)]),
                  c, task.phase)
  {
    hide SystemInv, Inv, Guarantee, Perform, RenewStep;
    MineMeansGenuine(s, c);
    OwnMoveKeepsMine(s, Call(c.attempt, e), c);
  }

  lemma CallKeepsLater(s: System, e: Event, c: Claim)
    requires Mine(s, c) && OwnCall(s.tasks[c.attempt], e) && !e.Renew?
    ensures Later(s, s.(db := Perform(s.db, e)), c, s.tasks[c.attempt].phase)
  {
    hide SystemInv, Later, Perform, OwnCall, RenewStep;
    OwnCallKeeps(s, e, c);
    assert s.tasks[c.attempt := s.tasks[c.attempt]] == s.tasks;
  }

  lemma PublishKeepsLater(s: System, c: Claim, now: Time)
    requires Mine(s, c) && s.tasks[c.attempt].phase == Encoding(InputCount(c))
    ensures var u := Perform(s.db, PublishEvent(c, now));
            if PublishAnswer(s.db, c, now).Ok?
            then Later(s, s.(db := u, tasks := s.tasks[c.attempt := s.tasks[c.attempt].(phase := Done)]), c, Done)
            else u == s.db && Later(s, s, c, s.tasks[c.attempt].phase)
  {
    hide SystemInv, Guarantee, CompleteDemoStep, CompleteImageStep;
    MineMeansGenuine(s, c);
    LaterStays(s, c);
    OwnMoveKeepsMine(s, Publish(c.attempt, now), c);
    PublishRefused(s.db, c, now);
  }

  lemma PublishRefused(t: Tables, c: Claim, now: Time)
    ensures PublishAnswer(t, c, now).Err? ==> Perform(t, PublishEvent(c, now)) == t
  {
    hide InsertOutputs;
  }
}
