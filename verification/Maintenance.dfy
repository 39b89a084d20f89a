/** The maintenance sweep under concurrent commits: it reads the references, then the prefixes of
    running attempts, takes its cutoff, and deletes file by file while other parties write files and
    commit rows.
  */
module Maintenance {
  import opened Rows
  import opened Slots
  import opened Steps
  import opened AttemptLedger
  import opened Invariants
  import opened Preservation
  import opened Histories
  import opened Manifest

  // ---------------------------------------------------------------- references

  function FileKey(f: InputFile): Key {
    InputKey(f.batch, f.file)
  }

  function FileKeys(files: seq<InputFile>): set<Key> {
    set f | f in files :: FileKey(f)
  }

  function ScheduleKeys(schedules: seq<Schedule>, n: nat): set<Key>
    requires n <= |schedules|
  {
    if n == 0 then {} else ScheduleKeys(schedules, n - 1) + FileKeys(schedules[n - 1].inputs)
  }

  function RowKeys(artifacts: map<Slot, Artifact>): set<Key> {
    set s | s in artifacts :: artifacts[s].key
  }

  /** storage_references: the keys of all artifact rows and of all schedule inputs. */
  function References(t: Tables): set<Key> {
    RowKeys(t.artifacts) + ScheduleKeys(t.schedules, |t.schedules|)
  }

  /** active_attempt_output_prefixes: the running attempts. */
  function ActiveAttempts(t: Tables): set<nat> {
    set a: nat | a < |t.attempts| && t.attempts[a].status.Running?
  }

  function PublishedKeySet(outputs: seq<PendingOutput>): set<Key> {
    set o | o in outputs :: o.key
  }

  /** The keys for which an event may add the first row. */
  function Introduced(e: Event): set<Key> {
    match e
    case CreateImage(r, _) => FileKeys(r.inputs)
    case CreateSchedule(r) => FileKeys(r.inputs)
    case CompleteImage(_, outputs, _) => PublishedKeySet(outputs)
    case _ => {}
  }

  lemma {:induction false} ScheduleKeysHold(schedules: seq<Schedule>, n: nat, i: nat)
    requires i < n <= |schedules|
    ensures FileKeys(schedules[i].inputs) <= ScheduleKeys(schedules, n)
  {
    if i < n - 1 {
      ScheduleKeysHold(schedules, n - 1, i);
    }
  }

  lemma {:induction false} ScheduleKeysSame(before: seq<Schedule>, after: seq<Schedule>, n: nat)
    requires n <= |before| && n <= |after| && forall i: nat :: i < n ==> after[i].inputs == before[i].inputs
    ensures ScheduleKeys(after, n) == ScheduleKeys(before, n)
  {
    if n > 0 {
      ScheduleKeysSame(before, after, n - 1);
    }
  }

  lemma InsertedKeys(artifacts: map<Slot, Artifact>, next: nat, job: nat, files: seq<InputFile>)
    ensures RowKeys(InsertInputs(artifacts, next, job, files, |files|)) <= RowKeys(artifacts) + FileKeys(files)
  {
    InsertedKeysUpTo(artifacts, next, job, files, |files|);
  }

  lemma {:induction false} InsertedKeysUpTo(artifacts: map<Slot, Artifact>, next: nat, job: nat, files: seq<InputFile>, n: nat)
    requires n <= |files|
    ensures RowKeys(InsertInputs(artifacts, next, job, files, n)) <= RowKeys(artifacts) + FileKeys(files)
  {
    if n > 0 {
      InsertedKeysUpTo(artifacts, next, job, files, n - 1);
      assert files[n - 1] in files;
    }
  }

  lemma {:induction false} CopiedKeys(artifacts: map<Slot, Artifact>, next: nat, from: nat, to: nat, n: nat)
    ensures RowKeys(CopyInputs(artifacts, next, from, to, n).0) <= RowKeys(artifacts)
  {
    if n > 0 {
      CopiedKeys(artifacts, next, from, to, n - 1);
    }
  }

  lemma PublishedKeysOnly(t: Tables, c: Claim, outputs: seq<PendingOutput>, now: Time)
    ensures RowKeys(CompleteImageStep(t, c, outputs, now).0.artifacts) <= RowKeys(t.artifacts) + PublishedKeySet(outputs)
  {
    var (u, r) := CompleteImageStep(t, c, outputs, now);
    if r.Ok? {
      InsertOutputsEffect(t.artifacts, t.nextArtifact, c.job, c.attempt, outputs, u.artifacts);
      forall s | s in u.artifacts && s !in t.artifacts
        ensures u.artifacts[s].key in PublishedKeySet(outputs)
      {
        var k := u.artifacts[s].id - t.nextArtifact;
        assert OutputInserted(t.artifacts, t.nextArtifact, c.job, c.attempt, outputs, u.artifacts, k);
        assert outputs[k] in outputs;
      }
    }
  }

  lemma ExpiredRows(t: Tables, retentionSeconds: nat, now: Time)
    ensures RowKeys(ExpireStep(t, retentionSeconds, now).0.artifacts) <= RowKeys(t.artifacts)
  {
  }

  lemma SchedulesKeepKeys(t: Tables, u: Tables)
    requires Guarantee(t, u) && |u.schedules| == |t.schedules|
    ensures ScheduleKeys(u.schedules, |u.schedules|) == ScheduleKeys(t.schedules, |t.schedules|)
  {
    ScheduleKeysSame(t.schedules, u.schedules, |t.schedules|);
  }

  lemma CreatedRows(t: Tables, r: ImageRequest, now: Time)
    ensures var u := CreateImageStep(t, r, now).0;
            RowKeys(u.artifacts) <= RowKeys(t.artifacts) + FileKeys(r.inputs) && u.schedules == t.schedules
  {
    InsertedKeys(t.artifacts, t.nextArtifact, |t.jobs|, r.inputs);
    hide InsertInputs, FindIdempotent, RowKeys, FileKeys;
  }

  lemma RetriedRows(t: Tables, job: nat, caller: Option<nat>, now: Time)
    ensures var u := ManualRetryStep(t, job, caller, now).0;
            RowKeys(u.artifacts) <= RowKeys(t.artifacts) && u.schedules == t.schedules
  {
    CopiedKeys(t.artifacts, t.nextArtifact, job, |t.jobs|, MAX_FILES_PER_JOB);
    hide CopyInputs, RowKeys;
  }

  lemma TickedRows(t: Tables, now: Time)
    ensures var u := TickStep(t, now).0;
            RowKeys(u.artifacts) <= RowKeys(t.artifacts) + ScheduleKeys(t.schedules, |t.schedules|) && |u.schedules| == |t.schedules|
  {
    var due := NextDue(t.schedules, |t.schedules|, now);
    if due.Some? {
      InsertedKeys(t.artifacts, t.nextArtifact, |t.jobs|, t.schedules[due.value].inputs);
      ScheduleKeysHold(t.schedules, |t.schedules|, due.value);
    }
    hide InsertInputs, RowKeys, FileKeys, ScheduleKeys, NextDue, LatestDueSlot, Overlaps, SlotRecorded;
  }

  lemma CallRows(t: Tables, e: Event)
    requires UsesClaim(e) && !e.CompleteImage?
    ensures Perform(t, e).artifacts == t.artifacts && Perform(t, e).schedules == t.schedules
  {
  }

  lemma ReclaimedRows(t: Tables, now: Time)
    ensures ReclaimStep(t, now).0.artifacts == t.artifacts && ReclaimStep(t, now).0.schedules == t.schedules
  {
    hide NextExpired;
  }

  lemma ClaimedRows(t: Tables, worker: nat, now: Time, token: nat)
    ensures ClaimStep(t, worker, now, token).0.artifacts == t.artifacts && ClaimStep(t, worker, now, token).0.schedules == t.schedules
  {
    hide NextCandidate, MaxNumber, LoadInputs;
  }

  /** What a step does to the artifact rows and the number of schedules. */
  lemma RowKeysAfter(t: Tables, e: Event)
    ensures RowKeys(Apply(t, e).artifacts) <= References(t) + Introduced(e)
    ensures !e.CreateSchedule? ==> |Apply(t, e).schedules| == |t.schedules|
  {
    hide RowKeys, FileKeys, ScheduleKeys, CreateImageStep, ManualRetryStep, CompleteImageStep, CompleteDemoStep, ExpireStep, TickStep,
         ReclaimStep, ClaimStep, RenewStep, EncodingStep, ProgressStep, FailureStep, FinishCancelledStep, NextSlotAfter;
    match e
    case CreateImage(r, now) => CreatedRows(t, r, now);
    case ManualRetry(j, caller, now) => RetriedRows(t, j, caller, now);
    case CompleteImage(c, outputs, now) =>
      PublishedKeysOnly(t, c, outputs, now);
      SchedulesAside(t, c, outputs, now);
    case Expire(retention, now) =>
      ExpiredRows(t, retention, now);
      ExpireAside(t, retention, now);
    case TickSchedules(now) => TickedRows(t, now);
    case Reclaim(now) => ReclaimedRows(t, now);
    case ClaimNext(w, now, token) => ClaimedRows(t, w, now, token);
    case _ =>
      if UsesClaim(e) {
        CallRows(t, e);
      }
  }

  lemma SchedulesAside(t: Tables, c: Claim, outputs: seq<PendingOutput>, now: Time)
    ensures CompleteImageStep(t, c, outputs, now).0.schedules == t.schedules
  {
    hide InsertOutputs;
  }

  lemma ExpireAside(t: Tables, retentionSeconds: nat, now: Time)
    ensures ExpireStep(t, retentionSeconds, now).0.schedules == t.schedules
  {
  }

  /** A key becomes referenced only by a row that introduces it: retries and schedule ticks copy keys
      that are referenced already. */
  lemma NewReferences(t: Tables, e: Event)
    requires Inv(t)
    ensures References(Apply(t, e)) <= References(t) + Introduced(e)
  {
    hide Inv, RowKeys, Apply, Guarantee, FileKeys, ScheduleKeys;
    var u := Apply(t, e);
    StepKeeps(t, e);
    RowKeysAfter(t, e);
    if e.CreateSchedule? {
      CreatedScheduleKeys(t, e.schedule);
    } else {
      SchedulesKeepKeys(t, u);
    }
  }

  lemma CreatedScheduleKeys(t: Tables, r: ScheduleRequest)
    ensures var u := Apply(t, CreateSchedule(r));
            ScheduleKeys(u.schedules, |u.schedules|) <= ScheduleKeys(t.schedules, |t.schedules|) + FileKeys(r.inputs)
  {
    var u := CreateScheduleStep(t, r).0;
    ScheduleKeysSame(t.schedules, u.schedules, |t.schedules|);
  }

  // ---------------------------------------------------------------- rows are committed promptly

  /** Publishing names the outputs by the attempt and the source, as the worker does. */
  predicate NamedByAttempt(e: Event) {
    e.CompleteImage? ==> forall o :: o in e.outputs ==> o.key == OutputKey(e.claim.job, e.claim.attempt, o.source)
  }

  ghost predicate KeysNamed(t: Tables) {
    forall s :: s in t.artifacts && s.kind.Output? ==> KeyFits(s, t.artifacts[s])
  }

  lemma NamesKept(t: Tables, e: Event)
    requires KeysNamed(t) && NamedByAttempt(e)
    ensures KeysNamed(Apply(t, e))
  {
    if e.CompleteImage? {
      var (u, r) := CompleteImageStep(t, e.claim, e.outputs, e.now);
      if Possible(t, e) && r.Ok? {
        InsertOutputsEffect(t.artifacts, t.nextArtifact, e.claim.job, e.claim.attempt, e.outputs, u.artifacts);
        forall s | s in u.artifacts && s.kind.Output? && s !in t.artifacts
          ensures KeyFits(s, u.artifacts[s])
        {
          var k := u.artifacts[s].id - t.nextArtifact;
          assert OutputInserted(t.artifacts, t.nextArtifact, e.claim.job, e.claim.attempt, e.outputs, u.artifacts, k);
          assert e.outputs[k] in e.outputs;
        }
      }
      hide CompleteImageStep;
    } else {
      OutputRowsStay(t, e);
      hide Apply;
    }
  }

  lemma OutputRowsStay(t: Tables, e: Event)
    requires !e.CompleteImage?
    ensures var u := Apply(t, e);
            forall s :: s in u.artifacts && s.kind.Output? ==> s in t.artifacts && u.artifacts[s] == t.artifacts[s]
  {
    if IsQuiet(e) {
      QuietStep(t, e);
    }
    hide InsertInputs, CopyInputs, InsertOutputs, ExpireStep;
  }

  /** A key that retention returned is never referenced again. */
  lemma GoneIsUnreferenced(t: Tables, k: Key)
    requires Inv(t) && KeysNamed(t) && Gone(t, k)
    ensures k !in References(t)
  {
    forall s | s in t.artifacts
      ensures t.artifacts[s].key != k
    {
      if s.kind.Output? {
        assert OutputRowFits(t.jobs, t.attempts, t.artifacts, s, t.artifacts[s]);
        assert KeyFits(s, t.artifacts[s]);
      } else {
        assert InputRowFits(t.jobs, s, t.artifacts[s]);
      }
    }
    OnlyInputs(t.schedules, |t.schedules|);
  }

  lemma {:induction false} OnlyInputs(schedules: seq<Schedule>, n: nat)
    requires n <= |schedules|
    ensures forall k :: k in ScheduleKeys(schedules, n) ==> k.InputKey?
  {
    if n > 0 {
      OnlyInputs(schedules, n - 1);
    }
  }

  lemma ExpireReturnsGone(t: Tables, retentionSeconds: nat, now: Time)
    requires Inv(t) && KeysNamed(t)
    ensures var (u, keys) := ExpireStep(t, retentionSeconds, now); forall k :: k in keys ==> Gone(u, k)
  {
  }

  // ---------------------------------------------------------------- the sweep

  /** What the sweep relies on: the row that first names an uploaded file commits at most `within` after
      the file was last written.  Of a row that first names an output this is expected only if it
      commits between the two reads of the sweep; an attempt may run for as long as it likes. */
  predicate Prompt(t: Tables, written: map<Key, Time>, clock: Time, within: nat, e: Event, reading: bool) {
    forall k :: k in Introduced(e) && k !in References(t) && k in written && (k.InputKey? || reading) ==> clock - written[k] <= within
  }

  /** What the sweep deletes: neither read has the key, and the file is as old as the cutoff. */
  predicate Swept(k: Key, written: map<Key, Time>, references: set<Key>, active: set<nat>, cutoff: Time) {
    k in written && k !in references && !(k.OutputKey? && k.attempt in active) && written[k] <= cutoff
  }

  /** The attempt was claimed and runs no more. */
  predicate Closed(t: Tables, a: nat) {
    a < |t.attempts| && !t.attempts[a].status.Running?
  }

  /** No row names the key, and none can before it is written again: the file was uploaded too long ago
      for a prompt row, or its attempt runs no more. */
  predicate Buried(t: Tables, written: map<Key, Time>, clock: Time, within: nat, k: Key) {
    && k !in References(t)
    && (if k.InputKey? then k in written && written[k] + within < clock else Closed(t, k.attempt))
  }

  ghost predicate AllBuried(t: Tables, written: map<Key, Time>, clock: Time, within: nat, keys: set<Key>) {
    forall k :: k in keys ==> Buried(t, written, clock, within, k)
  }

  /** An output whose attempt has ended without being referenced is never named again. */
  lemma ClosedIsNeverNamed(t: Tables, u: Tables, k: Key)
    requires Inv(t) && Inv(u) && Guarantee(t, u) && KeysNamed(t) && KeysNamed(u)
    requires k.OutputKey? && k !in References(t) && Closed(t, k.attempt)
    ensures k !in References(u) && Closed(u, k.attempt)
  {
    hide Inv, KeysNamed, References, Guarantee;
    RunningBefore(t, u, k.attempt);
    if k in References(u) {
      NewOutputWasRunning(t, u, k);
    }
  }

  /** A prompt commit names no buried key. */
  lemma CommitLeavesBuried(t: Tables, written: map<Key, Time>, clock: Time, within: nat, e: Event, k: Key)
    requires Inv(t) && KeysNamed(t) && NamedByAttempt(e) && Prompt(t, written, clock, within, e, false)
    requires Buried(t, written, clock, within, k)
    ensures Buried(Apply(t, e), written, clock, within, k)
  {
    hide Inv, KeysNamed, Apply, References, Introduced, Guarantee, NamedByAttempt;
    StepKeeps(t, e);
    NamesKept(t, e);
    NewReferences(t, e);
    if k.OutputKey? {
      ClosedIsNeverNamed(t, Apply(t, e), k);
    }
  }

  // ---------------------------------------------------------------- what a sweep knows

  /** How far the sweep is: it has read the references at some time, and then the prefixes of the
      attempts that were running in the tables it saw then. */
  datatype Sweep = Idle | Reading(references: set<Key>, at: Time) | Deleting(references: set<Key>, at: Time, seen: Tables)

  /** Uploaded files that have become referenced since the first read were written no earlier than
      `within` before it; so were the outputs, if they are to be considered. */
  ghost predicate Covered(t: Tables, written: map<Key, Time>, within: nat, references: set<Key>, at: Time, outputs: bool) {
    forall k :: k in References(t) && k !in references && k in written && (k.InputKey? || outputs) ==> written[k] >= at - within
  }

  /** Outputs of attempts that were not claimed yet are younger than the first read. */
  ghost predicate Young(seen: Tables, written: map<Key, Time>, at: Time) {
    forall k :: k in written && k.OutputKey? && k.attempt >= |seen.attempts| ==> written[k] >= at
  }

  ghost predicate Knows(t: Tables, written: map<Key, Time>, clock: Time, within: nat, w: Sweep) {
    match w
    case Idle => true
    case Reading(references, at) => at <= clock && Covered(t, written, within, references, at, true)
    case Deleting(references, at, seen) =>
      && at <= clock && Inv(seen) && KeysNamed(seen) && Guarantee(seen, t)
      && Covered(seen, written, within, references, at, true) && Covered(t, written, within, references, at, false)
      && Young(seen, written, at)
  }

  lemma CommitCovered(t: Tables, written: map<Key, Time>, clock: Time, within: nat, references: set<Key>, at: Time, outputs: bool, e: Event)
    requires Inv(t) && Covered(t, written, within, references, at, outputs) && Prompt(t, written, clock, within, e, outputs) && at <= clock
    ensures Covered(Apply(t, e), written, within, references, at, outputs)
  {
    hide Inv, Apply, References, Introduced;
    NewReferences(t, e);
  }

  /** A prompt commit of another party keeps everything that the sweep relies on. */
  lemma Committed(t: Tables, written: map<Key, Time>, clock: Time, within: nat, w: Sweep, e: Event, removed: set<Key>)
    requires Inv(t) && KeysNamed(t) && NamedByAttempt(e) && Prompt(t, written, clock, within, e, w.Reading?)
    requires AllBuried(t, written, clock, within, removed) && Knows(t, written, clock, within, w)
    ensures var u := Apply(t, e);
            Inv(u) && KeysNamed(u) && Guarantee(t, u) && AllBuried(u, written, clock, within, removed) && Knows(u, written, clock, within, w)
  {
    hide Inv, KeysNamed, Apply, Guarantee, Covered, Buried, Prompt, NamedByAttempt, Young;
    StepKeeps(t, e);
    NamesKept(t, e);
    PromptForInputs(t, written, clock, within, e, w.Reading?);
    match w {
      case Idle =>
      case Reading(references, at) => CommitCovered(t, written, clock, within, references, at, true, e);
      case Deleting(references, at, seen) =>
        CommitCovered(t, written, clock, within, references, at, false, e);
        GuaranteeTransitive(seen, t, Apply(t, e));
    }
    forall k | k in removed
      ensures Buried(Apply(t, e), written, clock, within, k)
    {
      CommitLeavesBuried(t, written, clock, within, e, k);
    }
  }

  lemma PromptForInputs(t: Tables, written: map<Key, Time>, clock: Time, within: nat, e: Event, reading: bool)
    requires Prompt(t, written, clock, within, e, reading)
    ensures Prompt(t, written, clock, within, e, false)
  {
  }

  /** A file written now spoils nothing that is known. */
  lemma WrittenKnows(t: Tables, written: map<Key, Time>, clock: Time, within: nat, w: Sweep, k: Key)
    requires Knows(t, written, clock, within, w)
    ensures Knows(t, written[k := clock], clock, within, w)
  {
    hide Inv, KeysNamed, References, Guarantee;
  }

  lemma LaterKnows(t: Tables, written: map<Key, Time>, clock: Time, later: Time, within: nat, w: Sweep)
    requires Knows(t, written, clock, within, w) && clock <= later
    ensures Knows(t, written, later, within, w)
  {
    hide Inv, KeysNamed, Covered, Guarantee, Young;
  }

  lemma JustRead(t: Tables, written: map<Key, Time>, clock: Time, within: nat)
    ensures Knows(t, written, clock, within, Reading(References(t), clock))
  {
  }

  /** Since some time the file was removed, or written again. */
  predicate Away(k: Key, present: set<Key>, written: map<Key, Time>, since: Time) {
    k !in present || (k in written && written[k] >= since)
  }

  /** What was written before is as it was, or was written again since. */
  ghost predicate Rewritten(before: map<Key, Time>, after: map<Key, Time>, since: Time) {
    forall k :: k in before ==> k in after && (after[k] == before[k] || after[k] >= since)
  }

  lemma NothingRewritten(written: map<Key, Time>, since: Time)
    ensures Rewritten(written, written, since)
  {
  }

  lemma WriteRewrites(before: map<Key, Time>, after: map<Key, Time>, since: Time, k: Key, clock: Time)
    requires Rewritten(before, after, since) && since <= clock
    ensures Rewritten(before, after[k := clock], since)
  {
  }

  lemma RewrittenAgain(s: map<Key, Time>, t: map<Key, Time>, u: map<Key, Time>, since: Time, later: Time)
    requires Rewritten(s, t, since) && Rewritten(t, u, later) && since <= later
    ensures Rewritten(s, u, since)
  {
  }

  /** A file that could have been swept, and cannot now, is not there or was written again. */
  lemma SweptBefore(before: map<Key, Time>, after: map<Key, Time>, since: Time, present: set<Key>, k: Key,
                    references: set<Key>, active: set<nat>, cutoff: Time)
    requires Rewritten(before, after, since) && Swept(k, before, references, active, cutoff)
    requires !(k in present && Swept(k, after, references, active, cutoff))
    ensures Away(k, present, after, since)
  {
  }

  ghost predicate AllClaimed(t: Tables, written: map<Key, Time>) {
    forall k :: k in written && k.OutputKey? ==> k.attempt < |t.attempts|
  }

  lemma ReadAgain(t: Tables, written: map<Key, Time>, clock: Time, within: nat, references: set<Key>, at: Time)
    requires Inv(t) && KeysNamed(t) && AllClaimed(t, written) && Knows(t, written, clock, within, Reading(references, at))
    ensures Knows(t, written, clock, within, Deleting(references, at, t))
  {
    GuaranteeReflexive(t);
    hide Inv, KeysNamed, References, Guarantee;
  }

  lemma MoreClaimed(t: Tables, u: Tables, written: map<Key, Time>)
    requires AllClaimed(t, written) && Guarantee(t, u)
    ensures AllClaimed(u, written)
  {
  }

  /** What the sweep deletes is buried.  An output is kept if its attempt was running at the second read;
      if the attempt was claimed later, its file is newer than the cutoff; if it had ended by then and
      was referenced, its row was prompt, and if it had ended unreferenced, no row names it ever. */
  lemma SweptIsBuried(t: Tables, written: map<Key, Time>, clock: Time, within: nat, references: set<Key>, at: Time, seen: Tables,
                      cutoff: Time, k: Key)
    requires Inv(t) && KeysNamed(t) && Knows(t, written, clock, within, Deleting(references, at, seen)) && cutoff < at - within
    requires Swept(k, written, references, ActiveAttempts(seen), cutoff)
    ensures Buried(t, written, clock, within, k)
  {
    hide Inv, KeysNamed, References, Guarantee;
    if k.OutputKey? {
      assert k.attempt < |seen.attempts|;
      assert k !in References(seen);
      ClosedIsNeverNamed(seen, t, k);
    }
  }

  /** The database and the storage: when each key was last written, the files that are there, and those
      that other parties removed. */
  class Site {
    var db: Tables
    var clock: Time
    var written: map<Key, Time>
    var present: set<Key>
    var dropped: set<Key>
    const within: nat

    constructor (within: nat)
      ensures this.within == within && Valid()
    {
      this.within := within;
      db, clock, written, present, dropped := EMPTY, 0, map[], {}, {};
      new;
      EmptyFits();
    }

    /** The files that maintenance removed: written once, not there, and not dropped by others. */
    function Removed(): set<Key>
      reads this
    {
      written.Keys - present - dropped
    }

    ghost predicate Valid()
      reads this
    {
      && Inv(db) && KeysNamed(db) && AllClaimed(db, written)
      && present <= written.Keys && present !! dropped && AllBuried(db, written, clock, within, Removed())
    }

    /** What has been reported as removed is removed, or was written again since. */
    ghost predicate ReportFits(report: set<Key>, since: Time)
      reads this
    {
      since <= clock && forall k :: k in report ==> k in Removed() || (k in written && written[k] >= since)
    }

    /** What is away is not there, or was written again since. */
    ghost predicate AwayFits(away: set<Key>, since: Time)
      reads this
    {
      forall k :: k in away ==> Away(k, present, written, since)
    }

    /** What others leave as it is for a sweep that has come to some point. */
    ghost predicate Stands(w: Sweep, report: set<Key>, away: set<Key>, since: Time)
      reads this
    {
      Valid() && Knows(db, written, clock, within, w) && ReportFits(report, since) && AwayFits(away, since)
    }

    /** Other parties: time passes, but not beyond a deadline; rows are committed, promptly; files
        are written or removed. */
    method Others(deadline: Option<Time>, w: Sweep, ghost report: set<Key>, ghost away: set<Key>, ghost since: Time)
      requires Stands(w, report, away, since)
      modifies this
      ensures Stands(w, report, away, since) && Guarantee(old(db), db) && old(clock) <= clock
      ensures Rewritten(old(written), written, old(clock))
      ensures deadline.Some? && old(clock) <= deadline.value ==> clock <= deadline.value
    {
      hide Stands, Guarantee, Rewritten;
      ghost var start, files, begin := db, written, clock;
      NothingRewritten(written, clock);
      GuaranteeReflexive(start);
      var moves: nat := *;
      while moves > 0
        invariant Stands(w, report, away, since) && Guarantee(start, db) && begin <= clock
        invariant Rewritten(files, written, begin)
        invariant deadline.Some? && old(clock) <= deadline.value ==> clock <= deadline.value
        decreases moves
      {
        var passed: int := *;
        var event: Event := *;
        var key: Key := *;
        var choice: nat := *;
        if choice == 0 && passed >= 0 {
          if deadline.None? || clock + passed <= deadline.value {
            Wait(passed, w, report, away, since);
          }
        } else if choice == 1 {
          ghost var t := db;
          Commit(event, w, report, away, since);
          GuaranteeTransitive(start, t, db);
        } else if choice == 2 {
          WriteRewrites(files, written, begin, key, clock);
          Write(key, w, report, away, since);
        } else {
          Drop(key, w, report, away, since);
        }
        moves := moves - 1;
      }
    }

    method Wait(passed: nat, w: Sweep, ghost report: set<Key>, ghost away: set<Key>, ghost since: Time)
      requires Stands(w, report, away, since)
      modifies this`clock
      ensures Stands(w, report, away, since) && clock == old(clock) + passed
    {
      hide Inv, KeysNamed, References, Closed, Knows, AllClaimed;
      LaterKnows(db, written, clock, clock + passed, within, w);
      clock := clock + passed;
    }

    /** A transaction of another party, if it is prompt. */
    method Commit(e: Event, w: Sweep, ghost report: set<Key>, ghost away: set<Key>, ghost since: Time)
      requires Stands(w, report, away, since)
      modifies this`db
      ensures Stands(w, report, away, since) && Guarantee(old(db), db)
    {
      hide Inv, KeysNamed, References, Apply, Knows, Prompt, NamedByAttempt, Buried, Guarantee, AllClaimed;
      GuaranteeReflexive(db);
      if NamedByAttempt(e) && Prompt(db, written, clock, within, e, w.Reading?) {
        Committed(db, written, clock, within, w, e, Removed());
        MoreClaimed(db, Apply(db, e), written);
        db := Apply(db, e);
      }
    }

    /** A file is uploaded, or an attempt that was claimed writes an output. */
    method Write(k: Key, w: Sweep, ghost report: set<Key>, ghost away: set<Key>, ghost since: Time)
      requires Stands(w, report, away, since)
      modifies this`written, this`present, this`dropped
      ensures Stands(w, report, away, since) && (written == old(written) || written == old(written)[k := clock])
    {
      hide Inv, KeysNamed, References, Closed, Knows;
      if k.OutputKey? && k.attempt >= |db.attempts| {
        return;
      }
      ghost var removed := Removed();
      WrittenKnows(db, written, clock, within, w, k);
      written, present, dropped := written[k := clock], present + {k}, dropped - {k};
      assert Removed() == removed - {k};
    }

    /** Another party removes a file. */
    method Drop(k: Key, w: Sweep, ghost report: set<Key>, ghost away: set<Key>, ghost since: Time)
      requires Stands(w, report, away, since)
      modifies this`present, this`dropped
      ensures Stands(w, report, away, since)
    {
      hide Inv, KeysNamed, References, AllBuried, Knows, AllClaimed;
      ghost var removed := Removed();
      if k in present {
        present, dropped := present - {k}, dropped + {k};
        assert Removed() == removed;
      }
    }

    /** Deletes one file.  Nothing refers to it at this moment, and nothing will before it is written
        again. */
    method Delete(k: Key, w: Sweep, ghost report: set<Key>, ghost away: set<Key>, ghost since: Time)
      requires Stands(w, report, away, since) && k in present && Buried(db, written, clock, within, k)
      modifies this`present
      ensures Stands(w, report + {k}, away + {k}, since) && present == old(present) - {k}
    {
      hide Inv, KeysNamed, References, Buried, Knows, AllClaimed;
      ghost var removed := Removed();
      present := present - {k};
      assert Removed() <= removed + {k};
      assert removed <= Removed();
    }

    /** A row that names a key names a file that is there, that another party removed, or that was
        never written; and a reported file that nobody wrote again is gone and unreferenced. */
    lemma StoredOrDropped(report: set<Key>, away: set<Key>, since: Time)
      requires Stands(Idle, report, away, since)
      ensures AwayFits(away, since)
      ensures Valid() && References(db) * written.Keys <= present + dropped
      ensures forall k :: k in report && k in written && written[k] < since ==> k !in present && k !in References(db)
    {
      hide Inv, KeysNamed, References, Closed, AllClaimed, Knows;
      forall k | k in Removed()
        ensures k !in present && k !in References(db)
      {
        assert Buried(db, written, clock, within, k);
      }
      forall k | k in References(db) * written.Keys
        ensures k in present + dropped
      {
        assert k !in Removed();
      }
    }

    /** Expires outputs, then removes unreferenced files that are older than the grace period, if the
        time from the reference read to the cutoff and the time from a file to its row together stay
        below the grace period.  Every deletion meets the precondition of Delete, so in no later state
        does a row name a file that is missing because of the sweep.  And it does remove: the outputs that
        retention gave up, and whatever both reads leave unprotected and was there, as old as the cutoff,
        from the start, are gone or were written again. */
    method RunMaintenance(retentionSeconds: nat, grace: nat, spent: nat)
      returns (report: set<Key>, ghost now: Time, ghost first: Tables, ghost second: Tables, ghost cutoff: Time)
      requires Valid() && within + spent < grace
      modifies this
      ensures Valid()
      ensures References(db) * written.Keys <= present + dropped
      ensures forall k :: k in report && k in written && written[k] < old(clock) ==> k !in present && k !in References(db)
      ensures Guarantee(old(db), first) && Guarantee(first, second) && Guarantee(second, db) && old(clock) - grace <= cutoff
      ensures forall k :: k in ExpireStep(old(db), retentionSeconds, now).1 ==> Away(k, present, written, old(clock))
      ensures forall k :: k in old(present) && Swept(k, old(written), References(first), ActiveAttempts(second), cutoff) ==>
                Away(k, present, written, old(clock))
    {
      hide Stands, Inv, KeysNamed, References, ActiveAttempts, Buried, ExpireStep, Guarantee, Swept, Rewritten;
      ghost var since, files, there, start := clock, written, present, db;
      ghost var away;
      NothingReported(since);
      report, away, now := RemoveExpired(retentionSeconds, since);
      ghost var expired := away;
      ghost var t, begin, mid := db, clock, written;

      Others(None, Idle, report, away, since);
      GuaranteeTransitive(start, t, db);
      RewrittenAgain(files, mid, written, since, begin);
      var references, at := References(db), clock;
      first := db;
      var w := Reading(references, at);
      StartsReading(report, away, since);
      mid := written;
      Others(Some(at + spent), w, report, away, since);
      RewrittenAgain(files, mid, written, since, at);
      var active, seen := ActiveAttempts(db), db;
      second := db;
      StartsDeleting(references, at, report, away, since);
      w := Deleting(references, at, seen);
      begin, mid := clock, written;
      Others(Some(at + spent), w, report, away, since);
      RewrittenAgain(files, mid, written, since, begin);
      var limit := clock - grace;
      cutoff := limit;
      var listing := present;
      MoreAway(w, report, away, there - listing, since);
      away := away + (there - listing);
      while listing != {}
        invariant Stands(w, report, away, since) && limit < at - within && since <= clock
        invariant Guarantee(second, db) && Rewritten(files, written, since) && expired <= away
        invariant forall k :: k in there && k !in listing && Swept(k, files, references, active, limit) ==> k in away
        decreases |listing|
      {
        t, begin, mid := db, clock, written;
        Others(None, w, report, away, since);
        GuaranteeTransitive(second, t, db);
        RewrittenAgain(files, mid, written, since, begin);
        var k :| k in listing;
        if k in present && Swept(k, written, references, active, limit) {
          GoesUnnamed(w, report, away, since, limit, k);
          Delete(k, w, report, away, since);
          report, away := report + {k}, away + {k};
        } else if Swept(k, files, references, active, limit) {
          SweptBefore(files, written, since, present, k, references, active, limit);
          MoreAway(w, report, away, {k}, since);
          away := away + {k};
        }
        listing := listing - {k};
      }
      ForgetsTheSweep(w, report, away, since);
      StoredOrDropped(report, away, since);
    }

    lemma MoreAway(w: Sweep, report: set<Key>, away: set<Key>, more: set<Key>, since: Time)
      requires Stands(w, report, away, since) && forall k :: k in more ==> Away(k, present, written, since)
      ensures Stands(w, report, away + more, since)
    {
      hide Valid, Knows, ReportFits;
    }

    lemma NothingReported(since: Time)
      requires Valid() && since <= clock
      ensures Stands(Idle, {}, {}, since)
    {
      hide Valid;
    }

    lemma StartsReading(report: set<Key>, away: set<Key>, since: Time)
      requires Stands(Idle, report, away, since)
      ensures Stands(Reading(References(db), clock), report, away, since)
    {
      hide Valid, ReportFits, Knows, References;
      JustRead(db, written, clock, within);
    }

    lemma StartsDeleting(references: set<Key>, at: Time, report: set<Key>, away: set<Key>, since: Time)
      requires Stands(Reading(references, at), report, away, since)
      ensures Stands(Deleting(references, at, db), report, away, since)
    {
      hide Inv, KeysNamed, ReportFits, Knows, AllBuried, AllClaimed;
      ReadAgain(db, written, clock, within, references, at);
    }

    lemma ForgetsTheSweep(w: Sweep, report: set<Key>, away: set<Key>, since: Time)
      requires Stands(w, report, away, since)
      ensures Stands(Idle, report, away, since)
    {
      hide Valid, ReportFits;
    }

    lemma GoesUnnamed(w: Sweep, report: set<Key>, away: set<Key>, since: Time, cutoff: Time, k: Key)
      requires w.Deleting? && Stands(w, report, away, since) && cutoff < w.at - within
      requires Swept(k, written, w.references, ActiveAttempts(w.seen), cutoff)
      ensures Buried(db, written, clock, within, k)
    {
      hide Inv, KeysNamed, ReportFits, Knows, AllBuried, Buried, Swept, ActiveAttempts;
      SweptIsBuried(db, written, clock, within, w.references, w.at, w.seen, cutoff, k);
    }

    /** The first half: stamps the jobs past retention and removes the outputs they had. */
    method RemoveExpired(retentionSeconds: nat, ghost since: Time) returns (report: set<Key>, ghost away: set<Key>, ghost now: Time)
      requires Stands(Idle, {}, {}, since) && since <= clock
      modifies this
      ensures Stands(Idle, report, away, since) && Guarantee(old(db), db) && since <= clock
      ensures Rewritten(old(written), written, since)
      ensures away == ExpireStep(old(db), retentionSeconds, now).1
    {
      hide Stands, Inv, KeysNamed, References, Closed, ExpireStep, Guarantee, Rewritten;
      report, away := {}, {};
      ghost var start, files := db, written;
      NothingRewritten(written, since);
      var keys;
      keys, now := ExpireOutputs(retentionSeconds, since);
      ghost var all := keys;
      while keys != {}
        invariant Stands(Idle, report, away, since) && since <= clock && Guarantee(start, db) && Rewritten(files, written, since)
        invariant forall k :: k in keys ==> k.OutputKey? && k !in References(db) && Closed(db, k.attempt)
        invariant keys <= all && away == all - keys
        decreases |keys|
      {
        var k :| k in keys;
        ghost var t, begin, mid := db, clock, written;
        KeepsItsWord(Idle, report, away, since);
        Others(None, Idle, report, away, since);
        GuaranteeTransitive(start, t, db);
        RewrittenAgain(files, mid, written, since, begin);
        KeepsItsWord(Idle, report, away, since);
        StayUnnamed(t, db, keys);
        if k in present {
          Delete(k, Idle, report, away, since);
          report := report + {k};
        } else {
          MoreAway(Idle, report, away, {k}, since);
        }
        away := away + {k};
        keys := keys - {k};
      }
    }

    lemma KeepsItsWord(w: Sweep, report: set<Key>, away: set<Key>, since: Time)
      requires Stands(w, report, away, since)
      ensures Inv(db) && KeysNamed(db)
    {
      hide Inv, KeysNamed;
    }

    method ExpireOutputs(retentionSeconds: nat, ghost since: Time) returns (keys: set<Key>, ghost clockRead: Time)
      requires Stands(Idle, {}, {}, since)
      modifies this`db
      ensures Stands(Idle, {}, {}, since)
      ensures keys == ExpireStep(old(db), retentionSeconds, clockRead).1 && Guarantee(old(db), db)
      ensures forall k :: k in keys ==> k.OutputKey? && k !in References(db) && Closed(db, k.attempt)
    {
      hide Inv, KeysNamed, References, Closed, ExpireStep, Buried, Guarantee, AllClaimed;
      var now: Time := *;
      clockRead := now;
      ExpireReturnsUnnamed(db, retentionSeconds, now);
      Committed(db, written, clock, within, Idle, Expire(retentionSeconds, now), Removed());
      MoreClaimed(db, ExpireStep(db, retentionSeconds, now).0, written);
      var expired := ExpireStep(db, retentionSeconds, now);
      db, keys := expired.0, expired.1;
    }
  }

  lemma StayUnnamed(t: Tables, u: Tables, keys: set<Key>)
    requires Inv(t) && Inv(u) && Guarantee(t, u) && KeysNamed(t) && KeysNamed(u)
    requires forall k :: k in keys ==> k.OutputKey? && k !in References(t) && Closed(t, k.attempt)
    ensures forall k :: k in keys ==> k.OutputKey? && k !in References(u) && Closed(u, k.attempt)
  {
    hide Inv, KeysNamed, References, Closed, Guarantee;
    forall k | k in keys
      ensures k !in References(u) && Closed(u, k.attempt)
    {
      ClosedIsNeverNamed(t, u, k);
    }
  }

  /** The keys that retention returns belong to attempts that have succeeded, and no row names them any
      more. */
  lemma ExpireReturnsUnnamed(t: Tables, retentionSeconds: nat, now: Time)
    requires Inv(t) && KeysNamed(t)
    ensures var (u, keys) := ExpireStep(t, retentionSeconds, now);
            forall k :: k in keys ==> k.OutputKey? && k !in References(u) && Closed(u, k.attempt)
  {
    var (u, keys) := ExpireStep(t, retentionSeconds, now);
    ExpireKeeps(t, retentionSeconds, now);
    NamesKept(t, Expire(retentionSeconds, now));
    ExpireReturnsGone(t, retentionSeconds, now);
    forall k | k in keys
      ensures k.OutputKey? && k !in References(u) && Closed(u, k.attempt)
    {
      GoneIsUnreferenced(u, k);
      ExpiredIsClosed(t, retentionSeconds, now, k);
      hide Inv, KeysNamed, References, Closed, ExpireStep;
    }
  }

  lemma ExpiredIsClosed(t: Tables, retentionSeconds: nat, now: Time, k: Key)
    requires Inv(t) && KeysNamed(t) && k in ExpireStep(t, retentionSeconds, now).1
    ensures k.OutputKey? && Closed(ExpireStep(t, retentionSeconds, now).0, k.attempt)
  {
    var s :| s in t.artifacts && ExpiringSlot(t, s, retentionSeconds, now) && t.artifacts[s].key == k;
    assert OutputRowFits(t.jobs, t.attempts, t.artifacts, s, t.artifacts[s]);
    assert KeyFits(s, t.artifacts[s]);
  }

  // ---------------------------------------------------------------- the bound

  /** The bound on the grace period cannot be relaxed.  Whenever the two delays together reach the grace
      period, an uploaded file whose row commits promptly, right after the reference read, can be deleted
      while that row refers to it. */
  lemma BoundIsNeeded(within: nat, spent: nat, grace: nat)
    requires within + spent >= grace
    ensures var k := InputKey(1, 0);
            var written := map[k := 0];
            var commit := CreateImage(UPLOAD, within);
            var t := Apply(EMPTY, commit);
            && Prompt(EMPTY, written, within, within, commit, true)
            && Swept(k, written, References(EMPTY), ActiveAttempts(t), within + spent - grace)
            && k in References(t)
  {
    hide ActiveAttempts;
    var commit := CreateImage(UPLOAD, within);
    var t := Apply(EMPTY, commit);
    var row := Slot(0, Input, 0);
    assert InsertInputs(map[], 0, 0, UPLOAD.inputs, 0) == map[];
    assert row in t.artifacts && t.artifacts[row].key == InputKey(1, 0);
    assert t.artifacts[row].key in RowKeys(t.artifacts);
  }

  /** Nor can it for outputs: in every state in which a claim is held, each of its outputs, if written
      long enough before and published promptly between the two reads, can be deleted while its row
      refers to it. */
  lemma BoundIsNeededForOutputs(t: Tables, c: Claim, i: nat, within: nat, spent: nat, grace: nat)
    requires Inv(t) && KeysNamed(t) && c in t.claims && i < InputCount(c) && within + spent >= grace
    requires Held(t, c, within) && JobHas(t, c.job, JobStatus.Running)
    ensures var k := OutputOf(c, i);
            var written := map[k := 0];
            var commit := CompleteImage(c, Collected(c, InputCount(c)), within);
            var u := Apply(t, commit);
            && NamedByAttempt(commit) && Prompt(t, written, within, within, commit, true)
            && Swept(k, written, References(t), ActiveAttempts(u), within + spent - grace)
            && k !in References(t) && k in References(u)
  {
    hide Inv, KeysNamed, References, Apply, Collected, CompleteImageStep;
    var outputs, k := Collected(c, InputCount(c)), OutputOf(c, i);
    RunningIsUnnamed(t, c, i, within);
    CollectedNames(c, within);
    CompleteImageAnswer(t, c, outputs, within);
    ImageAnswer(t, c, within);
    PublishEffect(t, c, within);
    PublishedIsReferenced(t, c, i, within);
    PromptAtTheLimit(t, k, within, c, outputs);
  }

  lemma PromptAtTheLimit(t: Tables, k: Key, within: nat, c: Claim, outputs: seq<PendingOutput>)
    ensures Prompt(t, map[k := 0], within, within, CompleteImage(c, outputs, within), true)
  {
    hide References;
  }

  lemma CollectedNames(c: Claim, now: Time)
    ensures NamedByAttempt(CompleteImage(c, Collected(c, InputCount(c)), now))
    ensures c.work.ImageWork? ==> Matches(c.work.inputs, Collected(c, InputCount(c)))
  {
  }

  /** The outputs of an attempt that runs are not named yet. */
  lemma RunningIsUnnamed(t: Tables, c: Claim, i: nat, now: Time)
    requires Inv(t) && KeysNamed(t) && i < InputCount(c) && Held(t, c, now)
    ensures OutputOf(c, i) !in References(t)
  {
    hide Inv, KeysNamed, References;
    if OutputOf(c, i) in References(t) {
      var s := RowOfKey(t, OutputOf(c, i));
    }
  }

  lemma PublishedIsReferenced(t: Tables, c: Claim, i: nat, now: Time)
    requires c in t.claims && i < InputCount(c)
    requires CompleteImageStep(t, c, Collected(c, InputCount(c)), now).1.Ok?
    ensures OutputOf(c, i) in References(Apply(t, CompleteImage(c, Collected(c, InputCount(c)), now)))
  {
    var outputs := Collected(c, InputCount(c));
    var u := CompleteImageStep(t, c, outputs, now).0;
    InsertOutputsEffect(t.artifacts, t.nextArtifact, c.job, c.attempt, outputs, u.artifacts);
    assert OutputInserted(t.artifacts, t.nextArtifact, c.job, c.attempt, outputs, u.artifacts, i);
    assert u.artifacts[Slot(c.job, Output, outputs[i].item)].key in RowKeys(u.artifacts);
  }

  /** A state that worker 7 has kept going: the lease of its attempt runs until the given time. */
  predicate Leased(t: Tables, lease: Time) {
    && CLAIMED in t.claims && JobHas(t, 0, JobStatus.Running)
    && |t.attempts| == 1 && Held(t, CLAIMED, lease - 1) && t.attempts[0].leaseExpiresAt == lease
    && 7 in t.workers && t.workers[7].stoppedAt.None? && t.workers[7].leaseSeconds == 60
  }

  ghost predicate Going(t: Tables, lease: Time) {
    Inv(t) && KeysNamed(t) && Leased(t, lease)
  }

  /** A heartbeat and a renewal, half a minute before the lease runs out. */
  function Round(lease: Time): seq<Event> {
    [Heartbeat(7, 60, lease - 30 * SECOND), Renew(CLAIMED, lease - 30 * SECOND)]
  }

  lemma RoundLeases(t: Tables, lease: Time)
    requires Leased(t, lease)
    ensures Leased(Apply(Apply(t, Round(lease)[0]), Round(lease)[1]), lease + 30 * SECOND)
  {
    var u := Apply(t, Round(lease)[0]);
    assert u == t.(workers := u.workers) && Live(u, 7, lease - 30 * SECOND) && u.workers[7].leaseSeconds == 60;
    assert Held(u, CLAIMED, lease - 30 * SECOND);
  }

  lemma RunOfTwo(t: Tables, e: Event, f: Event)
    ensures Run(t, [e, f]) == Apply(Apply(t, e), f)
  {
    hide Apply;
    assert [e, f][1..] == [f] && [f][1..] == [];
    assert Run(Apply(t, e), [f]) == Run(Apply(Apply(t, e), f), []);
  }

  lemma RoundKeepsGoing(t: Tables, lease: Time)
    requires Going(t, lease)
    ensures Going(Run(t, Round(lease)), lease + 30 * SECOND)
  {
    hide Inv, KeysNamed, Leased, Apply, Run, Guarantee;
    RoundLeases(t, lease);
    var e, f := Round(lease)[0], Round(lease)[1];
    RunOfTwo(t, e, f);
    StepKeeps(t, e);
    NamesKept(t, e);
    StepKeeps(Apply(t, e), f);
    NamesKept(Apply(t, e), f);
  }

  function Rounds(n: nat): seq<Event> {
    if n == 0 then [] else Rounds(n - 1) + Round((60 + 30 * (n - 1)) * SECOND)
  }

  lemma {:induction false} RunSplit(t: Tables, first: seq<Event>, second: seq<Event>)
    ensures Run(t, first + second) == Run(Run(t, first), second)
    decreases |first|
  {
    hide Apply;
    if first == [] {
      assert first + second == second;
    } else {
      assert (first + second)[1..] == first[1..] + second;
      RunSplit(Apply(t, first[0]), first[1..], second);
    }
  }

  lemma {:induction false} RoundsKeepGoing(n: nat)
    ensures Going(Run(Prepared().db, Rounds(n)), (60 + 30 * n) * SECOND)
    decreases n
  {
    hide Going, Run, Round, Prepared;
    if n == 0 {
      PreparedIsGoing();
    } else {
      RoundsKeepGoing(n - 1);
      RunSplit(Prepared().db, Rounds(n - 1), Round((60 + 30 * (n - 1)) * SECOND));
      RoundKeepsGoing(Run(Prepared().db, Rounds(n - 1)), (60 + 30 * (n - 1)) * SECOND);
    }
  }

  lemma PreparedIsGoing()
    ensures Going(Run(Prepared().db, Rounds(0)), 60 * SECOND)
  {
    hide Prepared, Leased, SystemInv, Inv, KeysNamed;
    PreparedFits();
    DatabaseFits(Prepared());
    PreparedRows();
    assert Run(Prepared().db, Rounds(0)) == Prepared().db;
  }

  lemma PreparedRows()
    ensures Leased(Prepared().db, 60 * SECOND) && KeysNamed(Prepared().db)
  {
    PreparedState();
    hide Prepared;
  }

  /** For every delay there is such a state, reached in a run: the attempt whose output was written at time
      zero still holds its claim when it publishes after the delay. */
  lemma SlowAttempt(within: nat) returns (events: seq<Event>)
    ensures var t := Run(Prepared().db, events);
            && Inv(t) && KeysNamed(t) && CLAIMED in t.claims && 0 < InputCount(CLAIMED)
            && Held(t, CLAIMED, within) && JobHas(t, 0, JobStatus.Running)
  {
    events := Rounds(within);
    RoundsKeepGoing(within);
    hide Run, Rounds, Prepared, Inv, KeysNamed;
  }

  // ---------------------------------------------------------------- the order of the two reads

  predicate AllNamed(events: seq<Event>) {
    forall k :: 0 <= k < |events| ==> NamedByAttempt(events[k])
  }

  lemma {:induction false} RunNamesKept(t: Tables, events: seq<Event>)
    requires KeysNamed(t) && AllNamed(events)
    ensures KeysNamed(Run(t, events))
    decreases |events|
  {
    hide KeysNamed, Apply;
    if events != [] {
      NamesKept(t, events[0]);
      RunNamesKept(Apply(t, events[0]), events[1..]);
    }
  }

  /** The row that carries an output key. */
  lemma RowOfKey(t: Tables, k: Key) returns (s: Slot)
    requires Inv(t) && KeysNamed(t) && k.OutputKey? && k in References(t)
    ensures s in t.artifacts && s.kind.Output? && t.artifacts[s].key == k && s.job == k.job
    ensures k.attempt < |t.attempts| && t.attempts[k.attempt].status.Succeeded? && t.attempts[k.attempt].job == s.job
    ensures s.job < |t.jobs| && Published(t.jobs[s.job]) && s.item < t.jobs[s.job].total
    ensures Slot(s.job, Input, s.item) in t.artifacts && t.artifacts[Slot(s.job, Input, s.item)].id == k.input
  {
    OnlyInputs(t.schedules, |t.schedules|);
    s :| s in t.artifacts && t.artifacts[s].key == k;
    assert s.kind.Input? ==> InputRowFits(t.jobs, s, t.artifacts[s]);
    assert OutputRowFits(t.jobs, t.attempts, t.artifacts, s, t.artifacts[s]);
    assert KeyFits(s, t.artifacts[s]);
  }

  /** A published job whose succeeded attempt is known carries that attempt's key for every item. */
  lemma KeyOfItem(t: Tables, j: nat, item: nat, a: nat)
    requires Inv(t) && KeysNamed(t) && j < |t.jobs| && Published(t.jobs[j]) && item < t.jobs[j].total && SucceededFor(t, j, a)
    ensures Slot(j, Input, item) in t.artifacts && OutputKey(j, a, t.artifacts[Slot(j, Input, item)].id) in References(t)
  {
    ManifestIsBijection(t, j);
    var s := Slot(j, Output, item);
    assert KeyFits(s, t.artifacts[s]);
    assert t.artifacts[s].key in RowKeys(t.artifacts);
  }

  /** An output that became referenced between two states was being produced in the first one: its
      attempt was running then, or had not been claimed yet. */
  lemma NewOutputWasRunning(t: Tables, u: Tables, k: Key)
    requires Inv(t) && Inv(u) && Guarantee(t, u) && KeysNamed(t) && KeysNamed(u)
    requires k.OutputKey? && k in References(u) && k !in References(t)
    ensures k.attempt in ActiveAttempts(t) || k.attempt >= |t.attempts|
  {
    var s := RowOfKey(u, k);
    var a := k.attempt;
    if a < |t.attempts| {
      assert AttemptEvolves(t.attempts[a], u.attempts[a]);
      if t.attempts[a].status.Succeeded? {
        assert AttemptFits(t.jobs, t.attempts, a) && AttemptFits(u.jobs, u.attempts, a);
        assert t.attempts[a].job == s.job < |t.jobs|;
        assert JobEvolves(t.jobs[s.job], u.jobs[s.job]);
        LatestSucceeded(t, a);
        KeyOfItem(t, s.job, s.item, a);
      }
    }
    hide Inv, References, KeysNamed;
  }

  lemma LatestSucceeded(t: Tables, a: nat)
    requires Inv(t) && a < |t.attempts| && t.attempts[a].status.Succeeded?
    ensures t.attempts[a].job < |t.jobs| && t.jobs[t.attempts[a].job].status.Succeeded?
  {
    assert AttemptFits(t.jobs, t.attempts, a);
    CountGrows(t.attempts, a, |t.attempts|, t.attempts[a].job);
  }

  /** In the order of the source, references first and prefixes second: an output that is referenced
      when the sweep comes to its file is in neither read exactly when it became referenced between
      the two, or its attempt was claimed after the second. */
  lemma MissedExactly(t: Tables, first: seq<Event>, second: seq<Event>, k: Key)
    requires Inv(t) && KeysNamed(t) && AllNamed(first) && AllNamed(second)
    requires k.OutputKey? && k in References(Run(Run(t, first), second))
    ensures var u := Run(t, first);
            k !in References(t) && k.attempt !in ActiveAttempts(u)
            <==> (k !in References(t) && k in References(u)) || k.attempt >= |u.attempts|
  {
    var u, v := Run(t, first), Run(Run(t, first), second);
    RunKeeps(t, first);
    RunKeeps(u, second);
    RunNamesKept(t, first);
    RunNamesKept(u, second);
    hide Run, Inv, Guarantee, References, KeysNamed;
    if k in References(u) {
      var s := RowOfKey(u, k);
    } else {
      NewOutputWasRunning(u, v, k);
    }
    if k in References(t) {
      var s := RowOfKey(t, k);
      FewerAttempts(t, u);
    }
  }

  lemma FewerAttempts(t: Tables, u: Tables)
    requires Guarantee(t, u)
    ensures |t.attempts| <= |u.attempts|
  {
  }

  /** Were the prefixes read first and the references second, every output that is referenced later
      but was not in the reference read would belong to a protected attempt or to one claimed after
      the prefix read: no promptness would be needed for outputs. */
  lemma PrefixesFirstCatchOutputs(t: Tables, first: seq<Event>, second: seq<Event>, k: Key)
    requires Inv(t) && KeysNamed(t) && AllNamed(first) && AllNamed(second)
    requires k.OutputKey? && k in References(Run(Run(t, first), second)) && k !in References(Run(t, first))
    ensures k.attempt in ActiveAttempts(t) || k.attempt >= |t.attempts|
  {
    var u, v := Run(t, first), Run(Run(t, first), second);
    RunKeeps(t, first);
    RunKeeps(u, second);
    RunNamesKept(t, first);
    RunNamesKept(u, second);
    hide Run, Inv, Guarantee, References, KeysNamed;
    NewOutputWasRunning(u, v, k);
    if k.attempt < |t.attempts| {
      RunningBefore(t, u, k.attempt);
    }
  }

  /** In the order of the source an attempt can publish between the two reads: its output is in
      neither, and the sweep deletes its file unless it was written after the cutoff. */
  lemma ReferencesFirstLeavesAGap(written: map<Key, Time>, cutoff: Time)
    ensures var t := Advance(Prepared(), LAPSED_HEARTBEAT[4]).db;
            var u := Advance(Advance(Prepared(), LAPSED_HEARTBEAT[4]), LAPSED_HEARTBEAT[5]).db;
            var k := OutputKey(0, 0, 0);
            && k !in References(t) && k in References(u) && 0 !in ActiveAttempts(u) && 0 in ActiveAttempts(t)
            && (k in written ==> (Swept(k, written, References(t), ActiveAttempts(u), cutoff) <==> written[k] <= cutoff))
            && !Swept(k, written, References(u), ActiveAttempts(t), cutoff)
  {
    hide Prepared, Advance, SystemInv, Held, JobHas, References, ActiveAttempts;
    StillHeld();
    CompletionAccepted();
    PublishedFits();
    NotReferencedYet(Advance(Prepared(), LAPSED_HEARTBEAT[4]).db);
    HeldIsActive(Advance(Prepared(), LAPSED_HEARTBEAT[4]).db, CLAIMED, 50 * SECOND);
    ReferencedNow(Advance(Advance(Prepared(), LAPSED_HEARTBEAT[4]), LAPSED_HEARTBEAT[5]));
  }

  lemma HeldIsActive(t: Tables, c: Claim, now: Time)
    requires Held(t, c, now)
    ensures c.attempt in ActiveAttempts(t)
  {
  }

  lemma NotReferencedYet(t: Tables)
    requires t.artifacts == map[Slot(0, Input, 0) := Artifact(0, None, None, InputKey(1, 0))]
    ensures OutputKey(0, 0, 0) !in References(t)
  {
    OnlyInputs(t.schedules, |t.schedules|);
  }

  lemma ReferencedNow(s: System)
    requires SystemInv(s) && 0 in s.tasks && s.tasks[0].phase == Done
    requires Slot(0, Output, 0) in s.db.artifacts && s.db.artifacts[Slot(0, Output, 0)].key == OutputKey(0, 0, 0)
    ensures OutputKey(0, 0, 0) in References(s.db) && 0 !in ActiveAttempts(s.db)
  {
    ClaimOfTask(s, 0);
    hide SystemInv;
    assert s.db.artifacts[Slot(0, Output, 0)].key in RowKeys(s.db.artifacts);
  }

  lemma PreparedFits()
    ensures SystemInv(Prepared())
  {
    hide SystemInv, Advance;
    BootFits();
    MoveKeeps(BOOT, LAPSED_HEARTBEAT[0]);
    var s1 := Advance(BOOT, LAPSED_HEARTBEAT[0]);
    MoveKeeps(s1, LAPSED_HEARTBEAT[1]);
    MoveKeeps(Advance(s1, LAPSED_HEARTBEAT[1]), LAPSED_HEARTBEAT[2]);
    MoveKeeps(Advance(Advance(s1, LAPSED_HEARTBEAT[1]), LAPSED_HEARTBEAT[2]), LAPSED_HEARTBEAT[3]);
  }

  lemma PublishedFits()
    ensures SystemInv(Advance(Advance(Prepared(), LAPSED_HEARTBEAT[4]), LAPSED_HEARTBEAT[5]))
  {
    hide SystemInv, Advance, Prepared;
    PreparedFits();
    MoveKeeps(Prepared(), LAPSED_HEARTBEAT[4]);
    MoveKeeps(Advance(Prepared(), LAPSED_HEARTBEAT[4]), LAPSED_HEARTBEAT[5]);
  }
}
