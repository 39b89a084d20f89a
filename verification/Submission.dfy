/** Submitting an image job through the API: staging, the lookup under the idempotency key, the limit
    on active jobs, and the creation, with other clients at work between any two of them.  The staged
    files are removed unless creation was attempted: an attempt whose answer got lost may have
    committed.  Maintenance sweeps staged files too, but none whose row can still be prompt: it takes a
    file of the batch only after a deadline, the time of its writing plus the delay allowed in module
    Maintenance.
  */
module Submission {
  import opened Rows
  import opened Slots
  import opened Steps
  import opened Repositories
  import opened Invariants
  import opened Preservation
  import opened Histories
  import Upload
  import Maintenance

  datatype Refusal = Staging(why: Upload.UploadError) | Repository(error: Error) | ActiveJobLimit

  datatype Answer = Accepted(job: nat) | Refused(why: Refusal)

  predicate ActiveOf(job: Job, owner: nat) {
    job.owner == owner && !Terminal(job.status)
  }

  /** How many of the first n jobs are active for an owner. */
  function ActiveCount(jobs: seq<Job>, n: nat, owner: nat): nat
    requires n <= |jobs|
  {
    if n == 0 then 0 else ActiveCount(jobs, n - 1, owner) + if ActiveOf(jobs[n - 1], owner) then 1 else 0
  }

  /** The jobs of an owner, among the first n, that have not ended. */
  function OpenJobs(jobs: seq<Job>, n: nat, owner: nat): set<nat>
    requires n <= |jobs|
  {
    set j: nat | j < n && jobs[j].owner == owner && !jobs[j].status.Succeeded? && !jobs[j].status.Failed? && !jobs[j].status.Cancelled?
  }

  lemma {:induction false} ActiveCountIsSize(jobs: seq<Job>, n: nat, owner: nat)
    requires n <= |jobs|
    ensures ActiveCount(jobs, n, owner) == |OpenJobs(jobs, n, owner)|
  {
    if n > 0 {
      ActiveCountIsSize(jobs, n - 1, owner);
      assert OpenJobs(jobs, n, owner) == OpenJobs(jobs, n - 1, owner) + if ActiveOf(jobs[n - 1], owner) then {n - 1} else {};
    }
  }

  predicate InBatch(k: Key, batch: nat) {
    k.InputKey? && k.batch == batch
  }

  function BatchFiles(files: set<Key>, batch: nat): set<Key> {
    set k | k in files && InBatch(k, batch)
  }

  /** No row names a file of the batch. */
  ghost predicate Unnamed(t: Tables, batch: nat) {
    forall k :: k in Maintenance.References(t) ==> !InBatch(k, batch)
  }

  /** Every file of the batch that a row names is there. */
  ghost predicate NamedAreThere(t: Tables, files: set<Key>, batch: nat) {
    forall k :: k in Maintenance.References(t) && InBatch(k, batch) ==> k in files
  }

  /** The request names files of the batch, and they are there. */
  predicate StagedIn(r: ImageRequest, files: set<Key>, batch: nat) {
    forall f :: f in r.inputs ==> f.batch == batch && Maintenance.FileKey(f) in files
  }

  class Store {
    var files: set<Key>
    var clock: Time

    constructor ()
      ensures files == {}
    {
      files, clock := {}, 0;
    }

    method RemoveBatch(batch: nat)
      modifies this`files
      ensures BatchFiles(files, batch) == {}
      ensures forall k :: !InBatch(k, batch) ==> (k in files <==> k in old(files))
    {
      files := set k | k in files && !InBatch(k, batch);
    }
  }

  /** Other clients do not name files of this batch: its directory has a fresh name. */
  predicate Elsewhere(e: Event, batch: nat) {
    forall k :: k in Maintenance.Introduced(e) ==> !InBatch(k, batch)
  }

  lemma ElsewhereKeepsUnnamed(t: Tables, e: Event, batch: nat)
    requires Inv(t) && Unnamed(t, batch) && Elsewhere(e, batch)
    ensures Unnamed(Apply(t, e), batch)
  {
    Maintenance.NewReferences(t, e);
    hide Inv, Apply, Maintenance.References, Maintenance.Introduced;
  }

  /** Any number of steps of other clients; they leave the files of this batch alone, but the sweep may
      take them once the deadline has passed. */
  method Others(db: Database, store: Store, batch: nat, deadline: Time)
    requires Inv(db.State()) && Unnamed(db.State(), batch)
    modifies db, store
    ensures Inv(db.State()) && Guarantee(old(db.State()), db.State()) && Unnamed(db.State(), batch)
    ensures old(store.clock) <= store.clock && BatchFiles(store.files, batch) <= old(BatchFiles(store.files, batch))
    ensures store.clock <= deadline ==> BatchFiles(store.files, batch) == old(BatchFiles(store.files, batch))
  {
    hide Inv, Guarantee, Apply, Unnamed, Elsewhere;
    ghost var start, mine := db.State(), BatchFiles(store.files, batch);
    GuaranteeReflexive(start);
    var steps: nat := *;
    while steps > 0
      invariant Inv(db.State()) && Guarantee(start, db.State()) && Unnamed(db.State(), batch)
      invariant old(store.clock) <= store.clock && BatchFiles(store.files, batch) <= mine
      invariant store.clock <= deadline ==> BatchFiles(store.files, batch) == mine
      decreases steps
    {
      var event: Event := *;
      var key: Key := *;
      var passed: int := *;
      var choice: nat := *;
      ghost var t := db.State();
      if choice == 0 {
        if Elsewhere(event, batch) {
          StepKeeps(t, event);
          ElsewhereKeepsUnnamed(t, event, batch);
          db.Perform(event);
          GuaranteeTransitive(start, t, db.State());
        }
      } else if choice == 1 && passed >= 0 {
        store.clock := store.clock + passed;
      } else if choice == 2 && !InBatch(key, batch) {
        store.files := store.files + {key};
      } else if !InBatch(key, batch) || store.clock > deadline {
        store.files := store.files - {key};
      }
      steps := steps - 1;
    }
  }

  /** The only job of an owner under a key. */
  ghost predicate OnlyJob(t: Tables, owner: nat, i: Idempotency, j: nat) {
    && j < |t.jobs| && Keyed(t.jobs[j], owner, i.key)
    && forall k: nat :: k < |t.jobs| && Keyed(t.jobs[k], owner, i.key) ==> k == j
  }

  lemma OnlyJobStays(t: Tables, u: Tables, owner: nat, i: Idempotency, j: nat)
    requires Inv(t) && Inv(u) && Guarantee(t, u) && j < |t.jobs| && Keyed(t.jobs[j], owner, i.key)
    ensures OnlyJob(u, owner, i, j) && u.jobs[j].idempotency == t.jobs[j].idempotency
  {
    assert JobEvolves(t.jobs[j], u.jobs[j]);
    assert KeysFit(u.jobs);
    hide Inv, Guarantee;
    forall k: nat | k < |u.jobs| && Keyed(u.jobs[k], owner, i.key)
      ensures k == j
    {
      assert SameRequest(u.jobs[k], u.jobs[j]);
    }
  }

  /** What creation answers for a request with a key: the only job under the key, with the request's
      fingerprint; or a conflict with the only job under the key. */
  lemma CreationAnswers(t: Tables, r: ImageRequest, now: Time)
    requires Inv(t) && ValidImageRequest(r) && r.idempotency.Some?
    ensures var (u, answer) := CreateImageStep(t, r, now);
            if answer.Ok?
            then OnlyJob(u, r.owner, r.idempotency.value, answer.value) && u.jobs[answer.value].idempotency == r.idempotency
            else answer == Err(IdempotencyConflict) && u == t
                 && exists j: nat :: OnlyJob(t, r.owner, r.idempotency.value, j)
                                     && t.jobs[j].idempotency.value.fingerprint != r.idempotency.value.fingerprint
  {
    var (u, answer) := CreateImageStep(t, r, now);
    CreateImageKeeps(t, r, now);
    GuaranteeReflexive(u);
    GuaranteeReflexive(t);
    var i := r.idempotency.value;
    var found := FindKey(t.jobs, |t.jobs|, r.owner, i.key);
    hide Inv, Guarantee, InsertInputs, OnlyJob;
    if found.Some? {
      OnlyJobStays(t, t, r.owner, i, found.value);
    } else {
      OnlyJobStays(u, u, r.owner, i, |t.jobs|);
    }
  }

  lemma LookupAnswers(t: Tables, owner: nat, i: Idempotency)
    requires Inv(t) && ValidIdempotency(i)
    ensures match FindIdempotent(t, owner, i)
            case Ok(None) => forall k: nat :: k < |t.jobs| ==> !Keyed(t.jobs[k], owner, i.key)
            case Ok(Some(j)) => OnlyJob(t, owner, i, j) && t.jobs[j].idempotency == Some(i)
            case Err(e) => e == IdempotencyConflict
                           && exists j: nat :: OnlyJob(t, owner, i, j) && t.jobs[j].idempotency.value.fingerprint != i.fingerprint
  {
    GuaranteeReflexive(t);
    var found := FindKey(t.jobs, |t.jobs|, owner, i.key);
    hide Inv, Guarantee, OnlyJob;
    if found.Some? {
      OnlyJobStays(t, t, owner, i, found.value);
    }
  }

  predicate KeyedRequest(r: ImageRequest) {
    ValidImageRequest(r) && r.idempotency.Some?
  }

  /** Creation names files of the batch that are there. */
  lemma CreationNames(t: Tables, r: ImageRequest, now: Time, files: set<Key>, batch: nat)
    requires Inv(t) && Unnamed(t, batch) && StagedIn(r, files, batch)
    ensures NamedAreThere(CreateImageStep(t, r, now).0, files, batch)
  {
    var e := CreateImage(r, now);
    Maintenance.NewReferences(t, e);
    assert Apply(t, e) == CreateImageStep(t, r, now).0;
    hide Inv, Apply, CreateImageStep, Maintenance.References;
  }

  /** The whole request: what cannot be staged leaves no file, what can is submitted.  If it is answered by
      the deadline, the files of the batch are all there, or none of them is and no row names any. */
  method CreateImageJob(db: Database, store: Store, batch: nat, deadline: Time, staged: Upload.Outcome<ImageRequest>, limit: nat)
    returns (answer: Answer, ghost counted: Option<Tables>)
    requires Inv(db.State()) && Unnamed(db.State(), batch)
    requires staged.Staged? ==> StagedIn(staged.value, store.files, batch)
    modifies db, store
    ensures Inv(db.State()) && Guarantee(old(db.State()), db.State())
    ensures store.clock <= deadline ==> NamedAreThere(db.State(), store.files, batch)
    ensures store.clock <= deadline ==>
              BatchFiles(store.files, batch) == old(BatchFiles(store.files, batch))
              || (BatchFiles(store.files, batch) == {} && Unnamed(db.State(), batch))
    ensures staged.Rejected? ==> answer == Refused(Staging(staged.error)) && BatchFiles(store.files, batch) == {}
    ensures staged.Staged? ==> !(answer.Refused? && answer.why.Staging?)
    ensures staged.Staged? ==> LimitKept(staged.value.owner, limit, answer, counted)
  {
    hide Inv, Guarantee, Unnamed;
    GuaranteeReflexive(db.State());
    if staged.Rejected? {
      store.RemoveBatch(batch);
      UnnamedAreThere(db.State(), store.files, batch);
      return Refused(Staging(staged.error)), None;
    }
    answer, counted := Submit(db, store, batch, deadline, staged.value, limit);
  }

  lemma UnnamedAreThere(t: Tables, files: set<Key>, batch: nat)
    requires Unnamed(t, batch)
    ensures NamedAreThere(t, files, batch)
  {
  }

  /** The limit at the moment of the count: it refuses exactly if that many jobs of the owner were open. */
  ghost predicate LimitKept(owner: nat, limit: nat, answer: Answer, counted: Option<Tables>) {
    && (answer == Refused(ActiveJobLimit) ==> counted.Some?)
    && (counted.Some? ==> (answer == Refused(ActiveJobLimit) <==> |OpenJobs(counted.value.jobs, |counted.value.jobs|, owner)| >= limit))
  }

  /** Submitting staged files.  For a valid request with a key, an accepted answer is the only job ever
      under that key and carries the request's fingerprint; a conflict means that the only job under
      the key has another one; and a job that existed beforehand is found again, or conflicts, whatever
      the limit says.  Without a key an accepted answer is a new job, and no invalid request creates
      one.  If the answer comes by the deadline, every file of the batch that a row names is there; a
      replay, an earlier conflict and the limit leave no file of the batch at any time.  Unless the lookup
      answered, the owner's open jobs were counted, and nothing is created from the limit on. */
  method Submit(db: Database, store: Store, batch: nat, deadline: Time, r: ImageRequest, limit: nat)
    returns (answer: Answer, ghost counted: Option<Tables>)
    requires Inv(db.State()) && Unnamed(db.State(), batch) && StagedIn(r, store.files, batch)
    modifies db, store
    ensures Inv(db.State()) && Guarantee(old(db.State()), db.State())
    ensures !(answer.Refused? && answer.why.Staging?)
    ensures KeyedRequest(r) && answer.Accepted? ==>
              OnlyJob(db.State(), r.owner, r.idempotency.value, answer.job) && db.jobs[answer.job].idempotency == r.idempotency
    ensures KeyedRequest(r) && answer.Refused? && answer.why.Repository? ==>
              && answer.why.error == IdempotencyConflict
              && exists j: nat :: OnlyJob(db.State(), r.owner, r.idempotency.value, j)
                                  && db.jobs[j].idempotency.value.fingerprint != r.idempotency.value.fingerprint
    ensures KeyedRequest(r) ==>
              forall j: nat :: j < |old(db.jobs)| && Keyed(old(db.jobs)[j], r.owner, r.idempotency.value.key) ==>
                && answer == (if old(db.jobs)[j].idempotency == r.idempotency then Accepted(j) else Refused(Repository(IdempotencyConflict)))
                && BatchFiles(store.files, batch) == {}
    ensures r.idempotency.None? && answer.Accepted? ==>
              && ValidImageRequest(r) && |old(db.jobs)| <= answer.job == |db.jobs| - 1 && AsRequested(db.jobs[answer.job], r)
              && (store.clock <= deadline ==> BatchFiles(store.files, batch) == old(BatchFiles(store.files, batch)))
    ensures !ValidImageRequest(r) && answer.Accepted? ==>
              r.idempotency.Some? && answer.job < |db.jobs| && Keyed(db.jobs[answer.job], r.owner, r.idempotency.value.key)
    ensures store.clock <= deadline ==> NamedAreThere(db.State(), store.files, batch)
    ensures LimitKept(r.owner, limit, answer, counted)
    ensures counted.Some? ==> Guarantee(old(db.State()), counted.value) && Guarantee(counted.value, db.State())
    ensures counted.None? ==> r.idempotency.Some? && BatchFiles(store.files, batch) == {}
    ensures answer == Refused(ActiveJobLimit) ==> BatchFiles(store.files, batch) == {}
    ensures BatchFiles(store.files, batch) <= old(BatchFiles(store.files, batch))
    ensures store.clock <= deadline ==>
              BatchFiles(store.files, batch) == old(BatchFiles(store.files, batch))
              || (BatchFiles(store.files, batch) == {} && Unnamed(db.State(), batch))
  {
    hide Inv, Guarantee, Unnamed, NamedAreThere, BatchFiles, StagedIn, ActiveCount, OpenJobs, AsRequested, Keyed, OnlyJob;
    counted := None;
    ghost var start := db.State();
    GuaranteeReflexive(start);
    Others(db, store, batch, deadline);
    ghost var t := db.State();
    if r.idempotency.Some? {
      var found := LookUp(db, r, start);
      if found.Some? {
        store.RemoveBatch(batch);
        UnnamedAreThere(t, store.files, batch);
        answer := found.value;
        return;
      }
    }
    Others(db, store, batch, deadline);
    GuaranteeTransitive(start, t, db.State());
    counted := Some(db.State());
    ActiveCountIsSize(db.jobs, |db.jobs|, r.owner);
    GuaranteeReflexive(db.State());
    if ActiveCount(db.jobs, |db.jobs|, r.owner) >= limit {
      store.RemoveBatch(batch);
      UnnamedAreThere(db.State(), store.files, batch);
      answer := Refused(ActiveJobLimit);
      return;
    }
    t := db.State();
    Others(db, store, batch, deadline);
    GuaranteeTransitive(start, t, db.State());
    t := db.State();
    JobsRemain(start, t);
    if store.clock <= deadline {
      StillStaged(r, old(store.files), store.files, batch);
    }
    answer := Create(db, r, store.files, batch);
    GuaranteeTransitive(start, t, db.State());
    GuaranteeTransitive(counted.value, t, db.State());
  }

  /** The lookup under the key: an answer, or none if there is no job under it. */
  method LookUp(db: Database, r: ImageRequest, ghost start: Tables) returns (found: Option<Answer>)
    requires r.idempotency.Some? && Inv(start) && Inv(db.State()) && Guarantee(start, db.State())
    ensures found.Some? && found.value.Accepted? ==>
              var j := found.value.job;
              && j < |db.jobs| && OnlyJob(db.State(), r.owner, r.idempotency.value, j) && db.jobs[j].idempotency == r.idempotency
              && Keyed(db.jobs[j], r.owner, r.idempotency.value.key)
    ensures found.Some? && found.value.Refused? ==> found.value.why.Repository?
    ensures found.Some? && found.value.Refused? && KeyedRequest(r) ==>
              && found.value.why.error == IdempotencyConflict
              && exists j: nat :: OnlyJob(db.State(), r.owner, r.idempotency.value, j)
                                  && db.jobs[j].idempotency.value.fingerprint != r.idempotency.value.fingerprint
    ensures KeyedRequest(r) ==>
              forall j: nat :: j < |start.jobs| && Keyed(start.jobs[j], r.owner, r.idempotency.value.key) ==>
                found == Some(if start.jobs[j].idempotency == r.idempotency then Accepted(j) else Refused(Repository(IdempotencyConflict)))
  {
    hide Inv, Guarantee, FindIdempotent;
    var i := r.idempotency.value;
    ghost var t := db.State();
    Existing(start, t, r.owner, i);
    InvalidLookup(t, r.owner, i);
    if ValidIdempotency(i) {
      LookupAnswers(t, r.owner, i);
    }
    var answer := FindIdempotent(db.State(), r.owner, i);
    return if answer.Err? then Some(Refused(Repository(answer.error)))
           else if answer.value.Some? then Some(Accepted(answer.value.value))
           else None;
  }

  /** The last call of the request. */
  method Create(db: Database, r: ImageRequest, ghost files: set<Key>, ghost batch: nat) returns (answer: Answer)
    requires Inv(db.State()) && Unnamed(db.State(), batch)
    modifies db
    ensures Inv(db.State()) && Guarantee(old(db.State()), db.State())
    ensures answer.Accepted? || answer.why.Repository?
    ensures KeyedRequest(r) && answer.Accepted? ==>
              OnlyJob(db.State(), r.owner, r.idempotency.value, answer.job) && db.jobs[answer.job].idempotency == r.idempotency
    ensures KeyedRequest(r) && answer.Refused? ==>
              && answer.why.error == IdempotencyConflict
              && exists j: nat :: OnlyJob(db.State(), r.owner, r.idempotency.value, j)
                                  && db.jobs[j].idempotency.value.fingerprint != r.idempotency.value.fingerprint
    ensures !KeyedRequest(r) && answer.Accepted? ==>
              ValidImageRequest(r) && |old(db.jobs)| <= answer.job == |db.jobs| - 1 && AsRequested(db.jobs[answer.job], r)
    ensures StagedIn(r, files, batch) ==> NamedAreThere(db.State(), files, batch)
  {
    hide Inv, Guarantee, CreateImageStep, Unnamed, NamedAreThere, StagedIn, AsRequested;
    ghost var t := db.State();
    var now: Time := *;
    if KeyedRequest(r) {
      CreationAnswers(t, r, now);
    } else {
      PlainCreation(t, r, now);
    }
    CreateImageKeeps(t, r, now);
    if StagedIn(r, files, batch) {
      CreationNames(t, r, now, files, batch);
    }
    var created := db.CreateImage(r, now);
    return if created.Ok? then Accepted(created.value) else Refused(Repository(created.error));
  }

  lemma StillStaged(r: ImageRequest, before: set<Key>, after: set<Key>, batch: nat)
    requires StagedIn(r, before, batch) && BatchFiles(after, batch) == BatchFiles(before, batch)
    ensures StagedIn(r, after, batch)
  {
    forall f | f in r.inputs
      ensures Maintenance.FileKey(f) in after
    {
      assert Maintenance.FileKey(f) in BatchFiles(before, batch);
    }
  }

  lemma InvalidLookup(t: Tables, owner: nat, i: Idempotency)
    ensures !ValidIdempotency(i) ==> FindIdempotent(t, owner, i) == Err(InvalidData)
  {
  }

  predicate AsRequested(job: Job, r: ImageRequest) {
    && job.owner == r.owner && job.work == ImageResize(r.maxWidth, r.jpegQuality) && job.priority == r.priority
    && job.total == |r.inputs| && job.status.Queued? && (r.availableAt.Some? ==> job.availableAt == r.availableAt.value)
  }

  /** Creation without a key adds the job requested; an invalid request adds nothing. */
  lemma PlainCreation(t: Tables, r: ImageRequest, now: Time)
    requires !KeyedRequest(r)
    ensures var (u, answer) := CreateImageStep(t, r, now);
            if ValidImageRequest(r)
            then answer == Ok(|t.jobs|) && |u.jobs| == |t.jobs| + 1 && AsRequested(u.jobs[|t.jobs|], r)
            else u == t && answer == Err(InvalidData)
  {
    hide InsertInputs;
  }

  lemma JobsRemain(t: Tables, u: Tables)
    requires Guarantee(t, u)
    ensures |t.jobs| <= |u.jobs|
  {
  }

  /** A job that already has the key is the only one later on. */
  lemma Existing(t: Tables, u: Tables, owner: nat, i: Idempotency)
    requires Inv(t) && Inv(u) && Guarantee(t, u)
    ensures forall j: nat :: j < |t.jobs| && Keyed(t.jobs[j], owner, i.key) ==>
              OnlyJob(u, owner, i, j) && u.jobs[j].idempotency == t.jobs[j].idempotency
  {
    hide Inv, Guarantee;
    forall j: nat | j < |t.jobs| && Keyed(t.jobs[j], owner, i.key)
      ensures OnlyJob(u, owner, i, j) && u.jobs[j].idempotency == t.jobs[j].idempotency
    {
      OnlyJobStays(t, u, owner, i, j);
    }
  }
}
