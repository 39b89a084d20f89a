/** How a task can publish and still be told by a renewal that its claim was lost.

    Renewal and processing take turns within one task: while a renewal is awaited, processing does not
    move, and a result that is already there has not been looked at yet.  A renewal can therefore be
    refused before the task publishes, or after.
  */
module Renewals {
  import opened Rows
  import opened Slots
  import opened Steps
  import opened AttemptLedger
  import opened Invariants
  import opened Preservation
  import opened Histories
  import opened Manifest
  import opened WorkerTask

  // ---------------------------------------------------------------- a renewal behind the commit

  /** The heartbeat of worker 7 lasts until 30 s; the renewal comes one second after the commit. */
  const LATE_RENEWAL: seq<Move> := [
    LAPSED_HEARTBEAT[0], LAPSED_HEARTBEAT[1], LAPSED_HEARTBEAT[2], LAPSED_HEARTBEAT[3],
    Publish(0, 10 * SECOND),
    Call(0, Renew(CLAIMED, 11 * SECOND)),
    Clean(0)
  ]

  lemma PublishedAtTen()
    ensures var s := Advance(Prepared(), LATE_RENEWAL[4]);
            && s.tasks == map[0 := Task(CLAIMED, Done, false)] && CLAIMED in s.db.claims
            && Slot(0, Output, 0) in s.db.artifacts && s.db.artifacts[Slot(0, Output, 0)].key == OutputKey(0, 0, 0)
            && s.db.workers == map[7 := WorkerRow(1, 60, 0, 0, 30 * SECOND, None)]
            && |s.db.attempts| == 1 && s.db.attempts[0].status.Succeeded?
  {
    hide Prepared, Advance, CompleteImageStep, PublishAnswer, Held, JobHas, Collected;
    ReadyAtTen();
    var s := Prepared();
    CompletesOne(s.db, 10 * SECOND);
    ImageAnswer(s.db, CLAIMED, 10 * SECOND);
    PublishTaken(s, 10 * SECOND);
    ClosedByPublish(s.db, 10 * SECOND);
  }

  lemma ReadyAtTen()
    ensures var s := Prepared();
            && Held(s.db, CLAIMED, 10 * SECOND) && JobHas(s.db, 0, JobStatus.Running) && s.db.jobs[0].work.ImageResize?
            && s.db.artifacts == map[Slot(0, Input, 0) := Artifact(0, None, None, InputKey(1, 0))]
            && s.db.workers == map[7 := WorkerRow(1, 60, 0, 0, 30 * SECOND, None)]
            && CLAIMED in s.db.claims && |s.db.attempts| == 1 && s.tasks == map[0 := Task(CLAIMED, Encoding(1), false)]
            && Enabled(s, Publish(0, 10 * SECOND))
  {
    PreparedState();
    hide Prepared;
  }

  /** Publishing closes the attempt and leaves the workers and the claims alone. */
  lemma ClosedByPublish(t: Tables, now: Time)
    requires CompleteImageStep(t, CLAIMED, Collected(CLAIMED, InputCount(CLAIMED)), now).1.Ok? && |t.attempts| == 1
    ensures var u := CompleteImageStep(t, CLAIMED, Collected(CLAIMED, InputCount(CLAIMED)), now).0;
            && |u.attempts| == 1 && u.attempts[0].status.Succeeded? && u.claims == t.claims && u.workers == t.workers
  {
    hide InsertOutputs, Collected;
  }

  lemma RefusedAtEleven()
    ensures var s := Advance(Prepared(), LATE_RENEWAL[4]);
            Advance(s, LATE_RENEWAL[5]) == s.(tasks := map[0 := Task(CLAIMED, Done, true)]) && Live(s.db, 7, 11 * SECOND)
  {
    PublishedAtTen();
    hide Prepared, Advance;
    var s := Advance(Prepared(), LATE_RENEWAL[4]);
    RefusalTaken(s);
  }

  lemma RefusalTaken(s: System)
    requires s.tasks == map[0 := Task(CLAIMED, Done, false)] && CLAIMED in s.db.claims
    requires |s.db.attempts| == 1 && s.db.attempts[0].status.Succeeded?
    ensures Advance(s, LATE_RENEWAL[5]) == s.(tasks := map[0 := Task(CLAIMED, Done, true)])
  {
  }

  /** The worker is live, the task publishes under a held lease, and its next renewal is refused all
      the same, because the attempt has succeeded: the clean-up then takes the published file. */
  lemma LateRenewalLosesTheFile()
    ensures Dangling(Play(BOOT, LATE_RENEWAL), Slot(0, Output, 0))
    ensures Live(Play(BOOT, LATE_RENEWAL[..5]).db, 7, 11 * SECOND)
  {
    hide Prepared, Play, Advance, Dangling, Live;
    PublishedAtTen();
    RefusedAtEleven();
    CleanTaken(Advance(Advance(Prepared(), LATE_RENEWAL[4]), LATE_RENEWAL[5]));
    PlayLate();
  }

  lemma PlayLate()
    ensures Play(BOOT, LATE_RENEWAL[..5]) == Advance(Prepared(), LATE_RENEWAL[4])
    ensures Play(BOOT, LATE_RENEWAL) == Advance(Advance(Advance(Prepared(), LATE_RENEWAL[4]), LATE_RENEWAL[5]), LATE_RENEWAL[6])
  {
    hide Prepared, Play, Advance;
    var s5 := Advance(Prepared(), LATE_RENEWAL[4]);
    var s6 := Advance(s5, LATE_RENEWAL[5]);
    PlayPrepared(LATE_RENEWAL);
    PlayPrepared(LATE_RENEWAL[..5]);
    PlayFrom(Prepared(), LATE_RENEWAL, 4);
    PlayFrom(s5, LATE_RENEWAL, 5);
    PlayFrom(s6, LATE_RENEWAL, 6);
    PlayEnd(Advance(s6, LATE_RENEWAL[6]), LATE_RENEWAL, 7);
    PlayFrom(Prepared(), LATE_RENEWAL[..5], 4);
    PlayEnd(s5, LATE_RENEWAL[..5], 5);
  }

  lemma PlayEnd(s: System, moves: seq<Move>, n: nat)
    requires n == |moves|
    ensures Play(s, moves[n..]) == s
  {
  }

  lemma PlayPrepared(moves: seq<Move>)
    requires |moves| >= 4 && moves[..4] == LAPSED_HEARTBEAT[..4]
    ensures Play(BOOT, moves) == Play(Prepared(), moves[4..])
  {
    hide Advance, Play;
    forall k | 0 <= k < 4
      ensures moves[k] == LAPSED_HEARTBEAT[k]
    {
      assert moves[k] == moves[..4][k] == LAPSED_HEARTBEAT[..4][k];
    }
    assert moves[0..] == moves;
    PlayFrom(BOOT, moves, 0);
    PlayFrom(Advance(BOOT, moves[0]), moves, 1);
    PlayFrom(Uploaded(), moves, 2);
    PlayFrom(Advance(Uploaded(), moves[2]), moves, 3);
  }

  // ---------------------------------------------------------------- when a renewal is refused

  /** The clock of a call that task a makes with its own claim. */
  function OwnClock(m: Move, a: nat): Option<Time> {
    if m.Call? && m.task == a && UsesClaim(m.event) then Some(m.event.now)
    else if m.Publish? && m.task == a then Some(m.now)
    else None
  }

  predicate ClocksFrom(moves: seq<Move>, a: nat, at: Time) {
    forall k :: 0 <= k < |moves| && OwnClock(moves[k], a).Some? ==> at <= OwnClock(moves[k], a).value
  }

  /** The calls of task a read a clock that does not go back.  A call's clock is the start of its
      transaction, so a renewal that overlaps a completion can break this. */
  predicate ClocksOrdered(moves: seq<Move>, a: nat) {
    forall i, k :: 0 <= i < k < |moves| && OwnClock(moves[i], a).Some? && OwnClock(moves[k], a).Some? ==>
      OwnClock(moves[i], a).value <= OwnClock(moves[k], a).value
  }

  predicate IsRenewal(s: System, m: Move, a: nat) {
    m.Call? && m.task == a && m.event.Renew? && Enabled(s, m)
  }

  /** Task a has not published, and from the given time on its claim is not held. */
  predicate Doomed(s: System, a: nat, at: Time) {
    && a in s.tasks && s.tasks[a].phase != Done && a < |s.db.attempts|
    && (s.db.attempts[a].status.Running? ==> s.db.attempts[a].leaseExpiresAt <= at)
  }

  /** The three causes of a refusal: the task has published, its worker is not live, or the claim is
      not held and never will be. */
  lemma RefusalCauses(s: System, a: nat, m: Move)
    requires SystemInv(s) && IsRenewal(s, m, a)
    ensures RenewStep(s.db, m.event.claim, m.event.now).1 == Err(ClaimLost) <==>
              || s.tasks[a].phase == Done
              || !Live(s.db, s.tasks[a].claim.worker, m.event.now)
              || Doomed(s, a, m.event.now)
  {
    ClaimOfTask(s, a);
    if s.db.attempts[a].status.Running? {
      RunningAttempt(s.db, a);
    }
    hide SystemInv;
  }

  lemma UnheldChangesNothing(t: Tables, e: Event)
    requires UsesClaim(e) && !Held(t, e.claim, e.now)
    ensures Perform(t, e) == t
  {
  }

  lemma PublishingHolds(t: Tables, c: Claim, now: Time)
    requires PublishAnswer(t, c, now).Ok?
    ensures Held(t, c, now)
  {
    hide InsertOutputs;
  }

  /** Nobody but a renewal with the attempt's own claim moves its lease. */
  lemma OthersKeepTheLease(t: Tables, e: Event, a: nat)
    requires a < |t.attempts| && (UsesClaim(e) ==> e.claim.attempt != a)
    ensures var u := Apply(t, e);
            a < |u.attempts| && (u.attempts[a].status.Running? ==> u.attempts[a] == t.attempts[a])
  {
    hide InsertInputs, InsertOutputs, CopyInputs, LoadInputs, NextCandidate, NextExpired, NextDue, MaxNumber, FindKey,
         LatestDueSlot, NextSlotAfter;
  }

  /** An attempt that is no longer running never is again, so its task is doomed at any clocks. */
  predicate Closed(s: System, a: nat) {
    a < |s.db.attempts| && !s.db.attempts[a].status.Running?
  }

  lemma DoomedOnMove(s: System, m: Move, a: nat, at: Time)
    requires SystemInv(s) && Doomed(s, a, at)
    requires OwnClock(m, a).Some? && !Closed(s, a) ==> at <= OwnClock(m, a).value
    ensures Doomed(Advance(s, m), a, at) && (Closed(s, a) ==> Closed(Advance(s, m), a))
  {
    hide SystemInv, Apply, ExpireStep, RenewStep, PublishAnswer, ClaimStep, Perform;
    DatabaseFits(s);
    ClaimOfTask(s, a);
    if Enabled(s, m) {
      match m
      case Foreign(e) => OthersKeepTheLease(s.db, e, a);
      case Start(w, now, token) => DoomedOnStart(s, w, now, token, a, at);
      case Call(b, e) =>
        if b == a {
          DoomedOnCall(s, e, a, at);
        } else {
          ClaimOfTask(s, b);
          OthersKeepTheLease(s.db, e, a);
        }
      case Publish(b, now) =>
        DoomedOnPublish(s, b, now, a, at);
      case _ =>
    }
  }

  lemma DoomedOnCall(s: System, e: Event, a: nat, at: Time)
    requires SystemInv(s) && Doomed(s, a, at) && Enabled(s, Call(a, e)) && (!Closed(s, a) ==> at <= e.now)
    ensures Doomed(Do(s, Call(a, e)), a, at) && (Closed(s, a) ==> Closed(Do(s, Call(a, e)), a))
  {
    hide SystemInv, Perform, RenewStep;
    ClaimOfTask(s, a);
    UnheldChangesNothing(s.db, e);
  }

  lemma DoomedOnStart(s: System, w: nat, now: Time, token: nat, a: nat, at: Time)
    requires SystemInv(s) && Doomed(s, a, at)
    ensures Doomed(Do(s, Start(w, now, token)), a, at) && (Closed(s, a) ==> Closed(Do(s, Start(w, now, token)), a))
  {
    hide SystemInv, ClaimStep;
    ClaimEffect(s.db, w, now, token);
  }

  lemma DoomedOnPublish(s: System, b: nat, now: Time, a: nat, at: Time)
    requires SystemInv(s) && Doomed(s, a, at) && Enabled(s, Publish(b, now))
    requires b == a && !Closed(s, a) ==> at <= now
    ensures Doomed(Do(s, Publish(b, now)), a, at) && (Closed(s, a) ==> Closed(Do(s, Publish(b, now)), a))
  {
    hide SystemInv, Apply, PublishAnswer;
    ClaimOfTask(s, b);
    var c := s.tasks[b].claim;
    if PublishAnswer(s.db, c, now).Ok? {
      PublishingHolds(s.db, c, now);
      PublishEffect(s.db, c, now);
    }
  }

  lemma {:induction false} DoomedForGood(s: System, moves: seq<Move>, a: nat, at: Time)
    requires SystemInv(s) && Doomed(s, a, at) && ClocksFrom(moves, a, at)
    ensures Doomed(Play(s, moves), a, at)
    decreases |moves|
  {
    hide SystemInv, Doomed, Advance;
    if moves != [] {
      DoomedOnMove(s, moves[0], a, at);
      MoveKeeps(s, moves[0]);
      assert moves[0] in moves;
      DoomedForGood(Advance(s, moves[0]), moves[1..], a, at);
    }
  }

  lemma {:induction false} ClosedForGood(s: System, moves: seq<Move>, a: nat, at: Time)
    requires SystemInv(s) && Doomed(s, a, at) && Closed(s, a)
    ensures Doomed(Play(s, moves), a, at)
    decreases |moves|
  {
    hide SystemInv, Doomed, Closed, Advance;
    if moves != [] {
      DoomedOnMove(s, moves[0], a, at);
      MoveKeeps(s, moves[0]);
      ClosedForGood(Advance(s, moves[0]), moves[1..], a, at);
    }
  }

  // ---------------------------------------------------------------- over whole runs

  lemma {:induction false} PlaySplit(s: System, moves: seq<Move>, n: nat)
    requires n <= |moves|
    ensures Play(s, moves) == Play(Play(s, moves[..n]), moves[n..])
    decreases |moves|
  {
    hide Advance;
    if n > 0 {
      PlaySplit(Advance(s, moves[0]), moves[1..], n - 1);
      assert moves[..n][1..] == moves[1..][..n - 1];
    } else {
      assert moves[n..] == moves;
    }
  }

  /** The state before move n of a run from the empty system. */
  function At(moves: seq<Move>, n: nat): System
    requires n <= |moves|
  {
    Play(BOOT, moves[..n])
  }

  lemma AtFits(moves: seq<Move>, n: nat)
    requires n <= |moves|
    ensures SystemInv(At(moves, n))
  {
    hide SystemInv, Advance;
    BootFits();
    PlayKeeps(BOOT, moves[..n]);
  }

  lemma AtNext(moves: seq<Move>, n: nat)
    requires n < |moves|
    ensures At(moves, n + 1) == Advance(At(moves, n), moves[n])
  {
    hide Advance;
    var first := moves[..n + 1];
    PlaySplit(BOOT, first, n);
    assert first[..n] == moves[..n] && first[n..] == [moves[n]];
  }

  predicate Told(s: System, a: nat) {
    a in s.tasks && s.tasks[a].renewalLost
  }

  /** A task is told once a renewal of its own is refused, and it stays told. */
  lemma ToldByMove(s: System, m: Move, a: nat)
    requires SystemInv(s)
    ensures Told(Advance(s, m), a) <==>
              Told(s, a) || (IsRenewal(s, m, a) && RenewStep(s.db, m.event.claim, m.event.now).1 == Err(ClaimLost))
  {
    hide SystemInv, TasksFit, Apply, ExpireStep, RenewStep, PublishAnswer, ClaimStep;
    Parts(s);
    NoTaskYet(s);
    if m.Start? {
      ClaimEffect(s.db, m.worker, m.now, m.token);
    }
  }

  /** A renewal of task a that comes after its publish, or while its worker is not live. */
  predicate Overrides(s: System, m: Move, a: nat) {
    IsRenewal(s, m, a) && (s.tasks[a].phase == Done || !Live(s.db, s.tasks[a].claim.worker, m.event.now))
  }

  /** A renewal of task a at a clock at which the lease of its running attempt is over. */
  predicate Outlived(s: System, m: Move, a: nat) {
    && IsRenewal(s, m, a) && a < |s.db.attempts|
    && s.db.attempts[a].status.Running? && s.db.attempts[a].leaseExpiresAt <= m.event.now
  }

  lemma {:induction false} FirstRefusal(moves: seq<Move>, a: nat, n: nat) returns (i: nat)
    requires n <= |moves| && Told(At(moves, n), a)
    ensures i < n && IsRenewal(At(moves, i), moves[i], a)
    ensures RenewStep(At(moves, i).db, moves[i].event.claim, moves[i].event.now).1 == Err(ClaimLost)
  {
    hide At, SystemInv, Told, RenewStep, IsRenewal;
    if n == 0 {
      NobodyIsTold(moves, a);
    } else {
      AtFits(moves, n - 1);
      AtNext(moves, n - 1);
      ToldByMove(At(moves, n - 1), moves[n - 1], a);
      if Told(At(moves, n - 1), a) {
        i := FirstRefusal(moves, a, n - 1);
      } else {
        i := n - 1;
      }
    }
  }

  lemma NobodyIsTold(moves: seq<Move>, a: nat)
    ensures !Told(At(moves, 0), a)
  {
  }

  lemma {:induction false} StaysTold(moves: seq<Move>, a: nat, i: nat, n: nat)
    requires i <= n <= |moves| && Told(At(moves, i), a)
    ensures Told(At(moves, n), a)
    decreases n
  {
    hide At, SystemInv, Told;
    if i < n {
      StaysTold(moves, a, i, n - 1);
      AtFits(moves, n - 1);
      AtNext(moves, n - 1);
      ToldByMove(At(moves, n - 1), moves[n - 1], a);
    }
  }

  /** In every run, at any clocks, a task that published was told that its claim was lost exactly when
      one of its renewals came after the publish, while its worker was not live, or at a clock at which
      the lease was over. */
  lemma LostRenewalExplained(moves: seq<Move>, a: nat)
    requires a in Play(BOOT, moves).tasks && Play(BOOT, moves).tasks[a].phase == Done
    ensures Play(BOOT, moves).tasks[a].renewalLost <==>
              exists i: nat :: i < |moves| && (Overrides(At(moves, i), moves[i], a) || Outlived(At(moves, i), moves[i], a))
  {
    hide Play, SystemInv, At, Overrides, Outlived;
    WholeRun(moves);
    if Told(Play(BOOT, moves), a) {
      var i := FirstRefusal(moves, a, |moves|);
      RefusalHasACause(moves, a, i);
    }
    forall i: nat | i < |moves| && (Overrides(At(moves, i), moves[i], a) || Outlived(At(moves, i), moves[i], a))
      ensures Told(Play(BOOT, moves), a)
    {
      CauseIsTold(moves, a, i);
    }
  }

  lemma WholeRun(moves: seq<Move>)
    ensures At(moves, |moves|) == Play(BOOT, moves)
  {
    assert moves[..|moves|] == moves;
  }

  lemma CauseIsTold(moves: seq<Move>, a: nat, i: nat)
    requires i < |moves| && (Overrides(At(moves, i), moves[i], a) || Outlived(At(moves, i), moves[i], a))
    ensures Told(Play(BOOT, moves), a)
  {
    hide Play, SystemInv, At, Told;
    AtFits(moves, i);
    CauseRefuses(At(moves, i), moves[i], a);
    AtNext(moves, i);
    ToldByMove(At(moves, i), moves[i], a);
    StaysTold(moves, a, i + 1, |moves|);
    WholeRun(moves);
  }

  lemma CauseRefuses(s: System, m: Move, a: nat)
    requires SystemInv(s) && (Overrides(s, m, a) || Outlived(s, m, a))
    ensures IsRenewal(s, m, a) && RenewStep(s.db, m.event.claim, m.event.now).1 == Err(ClaimLost)
  {
    hide SystemInv, IsRenewal, Live, RenewStep;
    RenewalIsCall(s, m, a);
    RefusalCauses(s, a, m);
  }

  lemma RenewalIsCall(s: System, m: Move, a: nat)
    requires IsRenewal(s, m, a)
    ensures m.Call? && m.event.Renew? && a in s.tasks
  {
  }

  /** A task that published in the end had not lost its attempt at any of its refused renewals. */
  lemma RefusalHasACause(moves: seq<Move>, a: nat, i: nat)
    requires i < |moves| && IsRenewal(At(moves, i), moves[i], a)
    requires a in Play(BOOT, moves).tasks && Play(BOOT, moves).tasks[a].phase == Done
    requires RenewStep(At(moves, i).db, moves[i].event.claim, moves[i].event.now).1 == Err(ClaimLost)
    ensures Overrides(At(moves, i), moves[i], a) || Outlived(At(moves, i), moves[i], a)
  {
    hide SystemInv, Play, At, Live, RenewStep, Enabled, OwnCall;
    var s, now := At(moves, i), moves[i].event.now;
    AtFits(moves, i);
    RefusalCauses(s, a, moves[i]);
    if Doomed(s, a, now) && Closed(s, a) {
      SplitAt(moves, i);
      ClosedForGood(s, moves[i..], a, now);
    }
  }

  lemma SplitAt(moves: seq<Move>, i: nat)
    requires i <= |moves|
    ensures Play(BOOT, moves) == Play(At(moves, i), moves[i..])
  {
    hide Advance;
    PlaySplit(BOOT, moves, i);
  }

  /** With own clocks that do not go back the third cause is no cause: the task would not publish. */
  lemma OrderedClocksExplained(moves: seq<Move>, a: nat)
    requires ClocksOrdered(moves, a)
    requires a in Play(BOOT, moves).tasks && Play(BOOT, moves).tasks[a].phase == Done
    ensures Play(BOOT, moves).tasks[a].renewalLost <==> exists i: nat :: i < |moves| && Overrides(At(moves, i), moves[i], a)
  {
    hide Play, SystemInv, At, Overrides, Outlived, ClocksOrdered;
    LostRenewalExplained(moves, a);
    forall i: nat | i < |moves| && Outlived(At(moves, i), moves[i], a)
      ensures Overrides(At(moves, i), moves[i], a)
    {
      OutlivedInOrder(moves, a, i);
    }
  }

  lemma OutlivedInOrder(moves: seq<Move>, a: nat, i: nat)
    requires ClocksOrdered(moves, a) && i < |moves| && Outlived(At(moves, i), moves[i], a)
    requires a in Play(BOOT, moves).tasks && Play(BOOT, moves).tasks[a].phase == Done
    ensures Overrides(At(moves, i), moves[i], a)
  {
    hide SystemInv, Play, At, Live, Enabled, ClocksFrom, ClocksOrdered, OwnCall;
    ClockOfRenewal(moves, a, i);
    AtFits(moves, i);
    RenewalIsCall(At(moves, i), moves[i], a);
    if At(moves, i).tasks[a].phase != Done {
      SplitAt(moves, i);
      DoomedForGood(At(moves, i), moves[i..], a, moves[i].event.now);
    }
  }

  lemma ClockOfRenewal(moves: seq<Move>, a: nat, i: nat)
    requires ClocksOrdered(moves, a) && i < |moves| && moves[i].Call? && moves[i].task == a && moves[i].event.Renew?
    ensures ClocksFrom(moves[i..], a, moves[i].event.now)
  {
    assert OwnClock(moves[i], a) == Some(moves[i].event.now);
  }

  /** The same for a published output without its file. */
  lemma MissingFileExplained(moves: seq<Move>, slot: Slot)
    requires Dangling(Play(BOOT, moves), slot)
    ensures var a := Play(BOOT, moves).db.artifacts[slot].attempt;
            a.Some? && exists i: nat :: i < |moves| && (Overrides(At(moves, i), moves[i], a.value) || Outlived(At(moves, i), moves[i], a.value))
  {
    hide Play, Overrides, Outlived, Advance, At;
    PublishedFilesAreStored(moves, slot);
    LostRenewalExplained(moves, Play(BOOT, moves).db.artifacts[slot].attempt.value);
  }

  // ---------------------------------------------------------------- a renewal that overlaps the completion

  /** The completion began at 50 s, within the lease; a renewal that began at 60 s, when the lease was
      over, was served before it. */
  const OVERLAPPING: seq<Move> := [
    LAPSED_HEARTBEAT[0], LAPSED_HEARTBEAT[1], LAPSED_HEARTBEAT[2], LAPSED_HEARTBEAT[3],
    Foreign(Heartbeat(7, 3600, 0)),
    Call(0, Renew(CLAIMED, 60 * SECOND)),
    Publish(0, 50 * SECOND),
    Clean(0)
  ]

  lemma LongHeartbeat()
    ensures var s := Advance(Prepared(), OVERLAPPING[4]);
            && Held(s.db, CLAIMED, 50 * SECOND) && JobHas(s.db, 0, JobStatus.Running) && s.db.jobs[0].work.ImageResize?
            && s.db.artifacts == map[Slot(0, Input, 0) := Artifact(0, None, None, InputKey(1, 0))]
            && CLAIMED in s.db.claims && s.tasks == map[0 := Task(CLAIMED, Encoding(1), false)]
            && Live(s.db, 7, 60 * SECOND) && !Held(s.db, CLAIMED, 60 * SECOND)
  {
    PreparedState();
    hide Prepared;
  }

  lemma UnheldIsTold(s: System)
    requires s.tasks == map[0 := Task(CLAIMED, Encoding(1), false)] && CLAIMED in s.db.claims && !Held(s.db, CLAIMED, 60 * SECOND)
    ensures Advance(s, OVERLAPPING[5]) == s.(tasks := map[0 := Task(CLAIMED, Encoding(1), true)])
  {
    hide Held;
  }

  lemma PublishedLate()
    ensures var s := Advance(Advance(Advance(Prepared(), OVERLAPPING[4]), OVERLAPPING[5]), OVERLAPPING[6]);
            && 0 in s.tasks && s.tasks[0] == Task(CLAIMED, Done, true)
            && Slot(0, Output, 0) in s.db.artifacts && s.db.artifacts[Slot(0, Output, 0)].key == OutputKey(0, 0, 0)
  {
    hide Prepared, Advance, CompleteImageStep, PublishAnswer, Held, JobHas, Collected, Live;
    LongHeartbeat();
    var s5 := Advance(Prepared(), OVERLAPPING[4]);
    UnheldIsTold(s5);
    var s6 := Advance(s5, OVERLAPPING[5]);
    CompletesOne(s6.db, 50 * SECOND);
    ImageAnswer(s6.db, CLAIMED, 50 * SECOND);
    PublishTaken(s6, 50 * SECOND);
  }

  /** So the third cause does occur: the worker is live at both clocks, the completion is within the
      lease, and the published file is lost. */
  lemma OverlappingRenewalLosesTheFile()
    ensures Dangling(Play(BOOT, OVERLAPPING), Slot(0, Output, 0))
    ensures Live(Play(BOOT, OVERLAPPING[..5]).db, 7, 60 * SECOND) && !ClocksOrdered(OVERLAPPING, 0)
  {
    hide Prepared, Play, Advance, Dangling, Live, Held, JobHas;
    LongHeartbeat();
    PublishedLate();
    ClocksGoBack();
    CleanTaken(Advance(Advance(Advance(Prepared(), OVERLAPPING[4]), OVERLAPPING[5]), OVERLAPPING[6]));
    PlayOverlapping();
  }

  lemma ClocksGoBack()
    ensures !ClocksOrdered(OVERLAPPING, 0)
  {
    assert OwnClock(OVERLAPPING[5], 0) == Some(60 * SECOND) && OwnClock(OVERLAPPING[6], 0) == Some(50 * SECOND);
  }

  lemma PlayOverlapping()
    ensures Play(BOOT, OVERLAPPING[..5]) == Advance(Prepared(), OVERLAPPING[4])
    ensures Play(BOOT, OVERLAPPING)
            == Advance(Advance(Advance(Advance(Prepared(), OVERLAPPING[4]), OVERLAPPING[5]), OVERLAPPING[6]), OVERLAPPING[7])
  {
    hide Prepared, Play, Advance;
    var s5 := Advance(Prepared(), OVERLAPPING[4]);
    var s6 := Advance(s5, OVERLAPPING[5]);
    var s7 := Advance(s6, OVERLAPPING[6]);
    PlayPrepared(OVERLAPPING);
    PlayPrepared(OVERLAPPING[..5]);
    PlayFrom(Prepared(), OVERLAPPING, 4);
    PlayFrom(s5, OVERLAPPING, 5);
    PlayFrom(s6, OVERLAPPING, 6);
    PlayFrom(s7, OVERLAPPING, 7);
    PlayEnd(Advance(s7, OVERLAPPING[7]), OVERLAPPING, 8);
    PlayFrom(Prepared(), OVERLAPPING[..5], 4);
    PlayEnd(s5, OVERLAPPING[..5], 5);
  }
}
