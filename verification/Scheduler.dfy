/** Whole runs of the recurring scheduler: the cursor against the recorded slots and exactly which
    edits are safe for it, the account of every slot the cursor has passed, and the tick loop.
  */
module Scheduler {
  import opened Rows
  import opened Slots
  import opened SlotLaws
  import opened Steps
  import opened Repositories
  import opened Invariants
  import opened Preservation

  // ---------------------------------------------------------------- the cursor and the recorded slots

  ghost predicate CursorFits(s: Schedule) {
    s.interval > 0 && OnGrid(s.next, s.anchor, s.interval)
  }

  /** A slot that the cursor of a schedule will still reach if nobody edits the schedule. */
  ghost predicate Ahead(s: Schedule, x: Time) {
    OnGrid(x, s.next, s.interval)
  }

  /** Cursors lie on their anchor's grid, no recorded slot lies ahead of the cursor of its schedule,
      and no slot was recorded twice. */
  ghost predicate SlotsFit(t: Tables) {
    && (forall i: nat :: i < |t.schedules| ==> CursorFits(t.schedules[i]))
    && (forall o: nat :: o < |t.occurrences| ==>
          && t.occurrences[o].schedule < |t.schedules|
          && !Ahead(t.schedules[t.occurrences[o].schedule], t.occurrences[o].slot))
    && (forall o: nat, p: nat :: o < p < |t.occurrences| && t.occurrences[o].schedule == t.occurrences[p].schedule
          ==> t.occurrences[o].slot != t.occurrences[p].slot)
  }

  /** Every recorded slot lies strictly below the cursor of its schedule. */
  predicate CursorsAbove(t: Tables) {
    forall o: nat :: o < |t.occurrences| ==>
      && t.occurrences[o].schedule < |t.schedules|
      && t.occurrences[o].slot < t.schedules[t.occurrences[o].schedule].next
  }

  /** One tick that recorded a slot of schedule i, moving its cursor to the slot after it. */
  ghost predicate Ticked(t: Tables, u: Tables, i: nat, now: Time) {
    && i < |t.schedules| && |u.schedules| == |t.schedules| && t.schedules[i].interval > 0
    && |u.occurrences| == |t.occurrences| + 1 && t.occurrences <= u.occurrences
    && var o := u.occurrences[|t.occurrences|];
       var s := t.schedules[i];
       && o.schedule == i && o.slot == SlotAt(s.next, s.interval, o.coalesced) <= now
       && u.schedules == t.schedules[i := s.(next := SlotAt(s.next, s.interval, o.coalesced + 1))]
       && now < u.schedules[i].next
  }

  lemma TickEffect(t: Tables, now: Time)
    ensures var (u, r) := TickStep(t, now);
            if r.Ok? && r.value.Some?
            then NextDue(t.schedules, |t.schedules|, now) == Some(r.value.value.schedule) && Ticked(t, u, r.value.value.schedule, now)
            else u == t
  {
    var due := NextDue(t.schedules, |t.schedules|, now);
    hide Overlaps, InsertInputs;
    if due.Some? && t.schedules[due.value].interval > 0 {
      var s := t.schedules[due.value];
      if LatestDueSlot(s.next, s.interval, now).Ok? {
        LatestDueSlotIsGreatest(s.next, s.interval, now, 0);
      }
      hide LatestDueSlot, SlotAt;
    }
  }

  /** What lies ahead after a tick lay ahead before it, beyond the recorded slot. */
  lemma AheadAfterTick(s: Schedule, c: nat, x: Time)
    requires s.interval > 0
    ensures Ahead(s, SlotAt(s.next, s.interval, c))
    ensures var u := s.(next := SlotAt(s.next, s.interval, c + 1));
            Ahead(u, x) ==> Ahead(s, x) && x > SlotAt(s.next, s.interval, c)
  {
    var u := s.(next := SlotAt(s.next, s.interval, c + 1));
    if Ahead(u, x) {
      var k: nat :| x == SlotAt(u.next, s.interval, k);
      SlotsCompose(s.next, s.interval, c + 1, k);
      InOrder(s.next, s.interval, c, c + 1 + k);
    }
  }

  lemma TickedCursor(s: Schedule, c: nat)
    requires CursorFits(s)
    ensures CursorFits(s.(next := SlotAt(s.next, s.interval, c + 1)))
    ensures s.next <= SlotAt(s.next, s.interval, c) < SlotAt(s.next, s.interval, c + 1)
  {
    var k: nat :| s.next == SlotAt(s.anchor, s.interval, k);
    SlotsCompose(s.anchor, s.interval, k, c + 1);
    InOrder(s.next, s.interval, 0, c);
    InOrder(s.next, s.interval, c, c + 1);
  }

  lemma TickedFits(t: Tables, u: Tables, i: nat, now: Time)
    requires SlotsFit(t) && Ticked(t, u, i, now)
    ensures SlotsFit(u)
    ensures CursorsAbove(t) ==> CursorsAbove(u)
  {
    var s, o := t.schedules[i], u.occurrences[|t.occurrences|];
    assert CursorFits(s);
    TickedCursor(s, o.coalesced);
    hide SlotAt, Ahead, CursorFits;
    forall j: nat | j < |u.schedules|
      ensures CursorFits(u.schedules[j])
    {
      assert CursorFits(t.schedules[j]);
    }
    forall p: nat | p < |u.occurrences|
      ensures u.occurrences[p].schedule < |u.schedules| && !Ahead(u.schedules[u.occurrences[p].schedule], u.occurrences[p].slot)
      ensures p < |t.occurrences| && u.occurrences[p].schedule == i ==> u.occurrences[p].slot != o.slot
    {
      AheadAfterTick(s, o.coalesced, u.occurrences[p].slot);
    }
  }

  /** A due cursor with no recorded slot ahead records a new slot. */
  lemma DueSlotIsNew(t: Tables, now: Time)
    requires SlotsFit(t)
    ensures TickStep(t, now).1 != Err(ConstraintViolation)
  {
    var due := NextDue(t.schedules, |t.schedules|, now);
    hide Overlaps, InsertInputs;
    if due.Some? {
      var s := t.schedules[due.value];
      assert CursorFits(s);
      var r := LatestDueSlot(s.next, s.interval, now);
      if r.Ok? {
        LatestDueSlotIsGreatest(s.next, s.interval, now, 0);
        hide LatestDueSlot;
        AheadAfterTick(s, r.value.coalesced, 0);
        assert !SlotRecorded(t.occurrences, due.value, r.value.slot);
      }
    }
  }

  /** A tick at any clock, earlier than others or not, keeps recorded slots behind the cursors, keeps
      cursors above them, and never violates their uniqueness. */
  lemma TickKeepsSlots(t: Tables, now: Time)
    requires SlotsFit(t)
    ensures SlotsFit(TickStep(t, now).0) && TickStep(t, now).1 != Err(ConstraintViolation)
    ensures CursorsAbove(t) ==> CursorsAbove(TickStep(t, now).0)
  {
    hide SlotsFit, CursorsAbove, TickStep, Ticked;
    DueSlotIsNew(t, now);
    TickEffect(t, now);
    var (u, r) := TickStep(t, now);
    if r.Ok? && r.value.Some? {
      TickedFits(t, u, r.value.value.schedule, now);
    }
  }

  // ---------------------------------------------------------------- which edits are safe

  predicate Accepted(t: Tables, e: Event) {
    e.UpdateSchedule?
    && UpdateScheduleStep(t, e.id, e.edit, e.caller, e.now).1.Ok?
    && UpdateScheduleStep(t, e.id, e.edit, e.caller, e.now).1.value.Some?
  }

  predicate RecordedFor(t: Tables, o: nat, id: nat) {
    o < |t.occurrences| && t.occurrences[o].schedule == id
  }

  /** No recorded slot of the schedule lies on the grid of the edit and after its clock. */
  ghost predicate NothingRecordedLater(t: Tables, id: nat, edit: ScheduleEdit, now: Time) {
    forall o: nat :: RecordedFor(t, o, id) && OnGrid(t.occurrences[o].slot, edit.anchor, edit.interval) ==> t.occurrences[o].slot <= now
  }

  /** Every recorded slot of the schedule lies before the slot at which the edit arms the cursor. */
  ghost predicate NothingRecordedAbove(t: Tables, id: nat, next: Time) {
    forall o: nat :: RecordedFor(t, o, id) ==> t.occurrences[o].slot < next
  }

  /** The next slot of an edit lies above a slot of its grid exactly when that slot is not after the
      clock of the edit; and it lies above every slot, of any grid, that is not after the clock. */
  lemma NextIsAboveExactly(anchor: Time, interval: nat, now: Time, x: Time)
    requires interval > 0 && NextSlotAfter(anchor, interval, now).Ok?
    ensures var next := NextSlotAfter(anchor, interval, now).value;
            && (OnGrid(x, anchor, interval) ==> (x < next <==> x <= now))
            && (x <= now ==> x < next)
  {
    NextSlotAfterIsLeast(anchor, interval, now, 0);
    if OnGrid(x, anchor, interval) {
      var k: nat :| x == SlotAt(anchor, interval, k);
      NextSlotAfterIsLeast(anchor, interval, now, k);
    }
  }

  /** A slot is ahead of the re-armed cursor exactly when it is on the grid and after the clock. */
  lemma AheadOfNext(s: Schedule, now: Time, x: Time)
    requires s.interval > 0 && NextSlotAfter(s.anchor, s.interval, now) == Ok(s.next)
    ensures Ahead(s, x) <==> OnGrid(x, s.anchor, s.interval) && now < x
  {
    NextSlotAfterIsLeast(s.anchor, s.interval, now, 0);
    var m: nat :| s.next == SlotAt(s.anchor, s.interval, m);
    hide NextSlotAfter;
    if Ahead(s, x) {
      var k: nat :| x == SlotAt(s.next, s.interval, k);
      SlotsCompose(s.anchor, s.interval, m, k);
      InOrder(s.next, s.interval, 0, k);
    }
    if OnGrid(x, s.anchor, s.interval) && now < x {
      var k: nat :| x == SlotAt(s.anchor, s.interval, k);
      NextSlotAfterIsLeast(s.anchor, s.interval, now, k);
      InOrder(s.anchor, s.interval, k, m);
      assert m <= k;
      SlotsCompose(s.anchor, s.interval, m, k - m);
    }
  }

  lemma EditedSchedule(t: Tables, e: Event)
    requires Accepted(t, e)
    ensures var u := Apply(t, e);
            && e.id < |t.schedules| && |u.schedules| == |t.schedules| && u.occurrences == t.occurrences
            && (forall j: nat :: j < |t.schedules| && j != e.id ==> u.schedules[j] == t.schedules[j])
            && var s := u.schedules[e.id];
               && s.anchor == e.edit.anchor && s.interval == e.edit.interval > 0 && s.enabled == e.edit.enabled
               && s.inputs == t.schedules[e.id].inputs
               && NextSlotAfter(s.anchor, s.interval, e.now) == Ok(s.next)
  {
    hide NextSlotAfter;
  }

  /** An accepted edit keeps recorded slots behind the cursor if and only if none of the schedule's
      lies on its grid and after its clock. */
  lemma EditKeepsExactly(t: Tables, e: Event)
    requires SlotsFit(t) && Accepted(t, e)
    ensures SlotsFit(Apply(t, e)) <==> NothingRecordedLater(t, e.id, e.edit, e.now)
  {
    EditedSchedule(t, e);
    var u := Apply(t, e);
    var s := u.schedules[e.id];
    NextSlotAfterIsLeast(s.anchor, s.interval, e.now, 0);
    assert CursorFits(s);
    forall o: nat | RecordedFor(t, o, e.id)
      ensures Ahead(s, t.occurrences[o].slot) <==> OnGrid(t.occurrences[o].slot, s.anchor, s.interval) && e.now < t.occurrences[o].slot
    {
      AheadOfNext(s, e.now, t.occurrences[o].slot);
    }
    hide NextSlotAfter, SlotAt, OnGrid, Ahead, Apply, CursorFits;
    forall j: nat | j < |u.schedules|
      ensures CursorFits(u.schedules[j])
    {
      assert j != e.id ==> CursorFits(t.schedules[j]);
    }
    if SlotsFit(u) {
      forall o: nat | RecordedFor(t, o, e.id)
        ensures !Ahead(u.schedules[e.id], t.occurrences[o].slot)
      {
        assert u.occurrences[o] == t.occurrences[o];
      }
    }
  }

  /** An accepted edit keeps the cursors above all recorded slots if and only if the slot at which it
      arms its schedule is above that schedule's. */
  lemma EditKeepsAboveExactly(t: Tables, e: Event)
    requires CursorsAbove(t) && Accepted(t, e)
    ensures CursorsAbove(Apply(t, e)) <==> NothingRecordedAbove(t, e.id, Apply(t, e).schedules[e.id].next)
  {
    EditedSchedule(t, e);
    var u := Apply(t, e);
    hide NextSlotAfter, Apply;
    if CursorsAbove(u) {
      forall o: nat | RecordedFor(t, o, e.id)
        ensures t.occurrences[o].slot < u.schedules[e.id].next
      {
        assert u.occurrences[o] == t.occurrences[o];
      }
    }
  }

  /** Conversely a recorded slot ahead of a cursor is a collision: once its schedule is the next one
      due, every tick from that slot's time until the slot after it violates uniqueness and changes
      nothing. */
  lemma AheadCollides(t: Tables, o: nat, now: Time)
    requires Inv(t) && o < |t.occurrences|
    requires var i, x := t.occurrences[o].schedule, t.occurrences[o].slot;
             && NextDue(t.schedules, |t.schedules|, now) == Some(i)
             && Ahead(t.schedules[i], x) && x <= now < x + Step(t.schedules[i].interval)
             && Representable(t.schedules[i].next) && Representable(now) && Representable(x + Step(t.schedules[i].interval))
    ensures TickStep(t, now) == (t, Err(ConstraintViolation))
  {
    var i, x := t.occurrences[o].schedule, t.occurrences[o].slot;
    var s := t.schedules[i];
    DueSchedule(t, i);
    var k: nat :| x == SlotAt(s.next, s.interval, k);
    WalkIs(s.next, s.interval, now, 0, k);
    LatestDueSlotIsWalk(s.next, s.interval, now);
    assert SlotRecorded(t.occurrences, i, x);
    hide Inv, LatestDueSlot, Walk, SlotAt, InsertInputs, Overlaps;
  }

  /** After an edit that is not safe some recorded slot of the schedule is ahead of its cursor. */
  lemma UnsafeEditLeavesASlotAhead(t: Tables, e: Event) returns (o: nat)
    requires SlotsFit(t) && Accepted(t, e) && !NothingRecordedLater(t, e.id, e.edit, e.now)
    ensures RecordedFor(t, o, e.id) && e.now < t.occurrences[o].slot
    ensures Ahead(Apply(t, e).schedules[e.id], Apply(t, e).occurrences[o].slot)
  {
    EditedSchedule(t, e);
    o :| RecordedFor(t, o, e.id) && OnGrid(t.occurrences[o].slot, e.edit.anchor, e.edit.interval) && t.occurrences[o].slot > e.now;
    AheadOfNext(Apply(t, e).schedules[e.id], e.now, t.occurrences[o].slot);
    hide Apply, NextSlotAfter, OnGrid;
  }

  /** An edit that is not safe does collide: there is a recorded slot at whose time, once the edited
      schedule is the next one due, a tick violates uniqueness. */
  lemma UnsafeEditCollides(t: Tables, e: Event) returns (x: Time)
    requires Inv(t) && SlotsFit(t) && Accepted(t, e) && !NothingRecordedLater(t, e.id, e.edit, e.now)
    requires var next := Apply(t, e).schedules[e.id].next;
             Representable(next) && forall o: nat :: RecordedFor(t, o, e.id) ==>
               Representable(t.occurrences[o].slot) && Representable(t.occurrences[o].slot + Step(e.edit.interval))
    ensures e.now < x && exists o: nat :: RecordedFor(t, o, e.id) && t.occurrences[o].slot == x
    ensures var u := Apply(t, e);
            NextDue(u.schedules, |u.schedules|, x) == Some(e.id) ==> TickStep(u, x) == (u, Err(ConstraintViolation))
  {
    AcceptedIsEdit(t, e);
    hide Inv, SlotsFit, NothingRecordedLater, Apply, TickStep, Ahead;
    var o := UnsafeEditLeavesASlotAhead(t, e);
    x := t.occurrences[o].slot;
    EditedSchedule(t, e);
    StepKeeps(t, e);
    var u := Apply(t, e);
    if NextDue(u.schedules, |u.schedules|, x) == Some(e.id) {
      AheadCollides(u, o, x);
    }
  }

  // ---------------------------------------------------------------- runs

  lemma RefusedEdit(t: Tables, e: Event)
    requires e.UpdateSchedule? && !Accepted(t, e)
    ensures Apply(t, e) == t
  {
    hide NextSlotAfter;
  }

  lemma CreateFits(t: Tables, r: ScheduleRequest)
    requires SlotsFit(t)
    ensures SlotsFit(CreateScheduleStep(t, r).0)
    ensures CursorsAbove(t) ==> CursorsAbove(CreateScheduleStep(t, r).0)
  {
    assert r.anchor == SlotAt(r.anchor, r.interval, 0);
    hide Ahead;
  }

  lemma OthersLeaveSchedules(t: Tables, e: Event)
    requires !e.TickSchedules? && !e.UpdateSchedule? && !e.CreateSchedule?
    ensures Apply(t, e).schedules == t.schedules && Apply(t, e).occurrences == t.occurrences
  {
    hide InsertInputs, InsertOutputs, CopyInputs, LoadInputs, NextCandidate, NextExpired, MaxNumber, FindKey;
  }

  lemma SameSchedulesFit(t: Tables, u: Tables)
    requires SlotsFit(t) && u.schedules == t.schedules && u.occurrences == t.occurrences
    ensures SlotsFit(u) && (CursorsAbove(t) ==> CursorsAbove(u))
  {
  }

  lemma StepFits(t: Tables, e: Event)
    requires SlotsFit(t)
    requires Accepted(t, e) ==> NothingRecordedLater(t, e.id, e.edit, e.now)
    ensures SlotsFit(Apply(t, e))
    ensures CursorsAbove(t) && (Accepted(t, e) ==> NothingRecordedAbove(t, e.id, Apply(t, e).schedules[e.id].next)) ==> CursorsAbove(Apply(t, e))
  {
    hide SlotsFit, CursorsAbove, TickStep, UpdateScheduleStep, CreateScheduleStep, NothingRecordedLater, NothingRecordedAbove, Accepted;
    match e
    case TickSchedules(now) => TickKeepsSlots(t, now);
    case UpdateSchedule(_, _, _, _) =>
      if Accepted(t, e) {
        EditKeepsExactly(t, e);
        if CursorsAbove(t) {
          EditKeepsAboveExactly(t, e);
        }
      } else {
        RefusedEdit(t, e);
      }
    case CreateSchedule(r) => CreateFits(t, r);
    case _ =>
      OthersLeaveSchedules(t, e);
      SameSchedulesFit(t, Apply(t, e));
  }

  /** Every accepted edit of a run meets the condition above when it is made. */
  ghost predicate EditsAreSafe(t: Tables, events: seq<Event>)
    decreases |events|
  {
    events == []
    || (&& (Accepted(t, events[0]) ==> NothingRecordedLater(t, events[0].id, events[0].edit, events[0].now))
        && EditsAreSafe(Apply(t, events[0]), events[1..]))
  }

  lemma {:induction false} RunFits(t: Tables, events: seq<Event>)
    requires SlotsFit(t) && EditsAreSafe(t, events)
    ensures SlotsFit(Run(t, events))
    decreases |events|
  {
    hide SlotsFit, Apply, Accepted, NothingRecordedLater;
    if events != [] {
      StepFits(t, events[0]);
      RunFits(Apply(t, events[0]), events[1..]);
    }
  }

  /** In every run whose edits are safe, whatever the clocks of its ticks, slots are recorded at most
      once and no tick ever violates their uniqueness. */
  lemma SlotsNeverCollide(events: seq<Event>, now: Time)
    requires EditsAreSafe(EMPTY, events)
    ensures var t := Run(EMPTY, events); SlotsFit(t) && TickStep(t, now).1 != Err(ConstraintViolation)
  {
    hide TickStep;
    RunFits(EMPTY, events);
    DueSlotIsNew(Run(EMPTY, events), now);
  }

  /** No edit carries a clock before that of an earlier tick; ticks may come in any order. */
  predicate EditsFollowTicks(events: seq<Event>, latest: Time)
    decreases |events|
  {
    events == []
    || (&& (events[0].UpdateSchedule? ==> latest <= events[0].now)
        && EditsFollowTicks(events[1..], if events[0].TickSchedules? && latest < events[0].now then events[0].now else latest))
  }

  predicate RecordedBefore(t: Tables, latest: Time) {
    forall o: nat :: o < |t.occurrences| ==> t.occurrences[o].slot <= latest
  }

  lemma EditAfterTicks(t: Tables, e: Event, latest: Time)
    requires RecordedBefore(t, latest) && Accepted(t, e) && latest <= e.now
    ensures NothingRecordedLater(t, e.id, e.edit, e.now)
    ensures e.id < |Apply(t, e).schedules| && NothingRecordedAbove(t, e.id, Apply(t, e).schedules[e.id].next)
  {
    EditedSchedule(t, e);
    var s := Apply(t, e).schedules[e.id];
    NextSlotAfterIsLeast(s.anchor, s.interval, e.now, 0);
    hide NextSlotAfter, Apply, OnGrid;
  }

  lemma StepRecordsBefore(t: Tables, e: Event, latest: Time)
    requires RecordedBefore(t, latest)
    ensures RecordedBefore(Apply(t, e), if e.TickSchedules? && latest < e.now then e.now else latest)
  {
    hide TickStep, SlotAt, UpdateScheduleStep, CreateScheduleStep;
    match e
    case TickSchedules(now) => TickEffect(t, now);
    case UpdateSchedule(_, _, _, _) => EditsRecordNothing(t, e);
    case CreateSchedule(_) => EditsRecordNothing(t, e);
    case _ => OthersLeaveSchedules(t, e);
  }

  lemma EditsRecordNothing(t: Tables, e: Event)
    requires e.UpdateSchedule? || e.CreateSchedule?
    ensures Apply(t, e).occurrences == t.occurrences
  {
    hide NextSlotAfter;
  }

  lemma {:induction false} CursorsStayAbove(t: Tables, events: seq<Event>, latest: Time)
    requires SlotsFit(t) && CursorsAbove(t) && RecordedBefore(t, latest) && EditsFollowTicks(events, latest)
    ensures EditsAreSafe(t, events) && SlotsFit(Run(t, events)) && CursorsAbove(Run(t, events))
    decreases |events|
  {
    hide SlotsFit, CursorsAbove, RecordedBefore, Apply, Accepted, NothingRecordedLater, NothingRecordedAbove;
    if events != [] {
      var e := events[0];
      if Accepted(t, e) {
        AcceptedIsEdit(t, e);
        EditAfterTicks(t, e, latest);
      }
      StepFits(t, e);
      StepRecordsBefore(t, e, latest);
      CursorsStayAbove(Apply(t, e), events[1..], if e.TickSchedules? && latest < e.now then e.now else latest);
    }
  }

  lemma AcceptedIsEdit(t: Tables, e: Event)
    requires Accepted(t, e)
    ensures e.UpdateSchedule?
  {
  }

  /** With edits that are not behind the ticks before them, in every run the cursors lie on their grids
      and strictly above every recorded slot, and no tick violates uniqueness. */
  lemma AtomicEditsNeverCollide(events: seq<Event>, start: Time, now: Time)
    requires EditsFollowTicks(events, start)
    ensures var t := Run(EMPTY, events); SlotsFit(t) && CursorsAbove(t) && TickStep(t, now).1 != Err(ConstraintViolation)
  {
    hide TickStep;
    CursorsStayAbove(EMPTY, events, start);
    DueSlotIsNew(Run(EMPTY, events), now);
  }

  const MICROSECOND: int := 1000

  const EVERY_MINUTE: ScheduleRequest := ScheduleRequest(1, 60, 0, Normal, 100, 80, [InputFile(1, 0)])
  const SAME_AGAIN: ScheduleEdit := ScheduleEdit(true, 60, 0, Normal, 100, 80)

  /** An edit whose clock was read before a tick arms the cursor at the slot that the tick recorded:
      the next tick violates the uniqueness of slots, and changes nothing. */
  lemma StaleEditCollides()
    ensures var t := Run(EMPTY, [CreateSchedule(EVERY_MINUTE), TickSchedules(0), UpdateSchedule(0, SAME_AGAIN, None, -MICROSECOND)]);
            TickStep(t, 0) == (t, Err(ConstraintViolation))
  {
    var events := [CreateSchedule(EVERY_MINUTE), TickSchedules(0), UpdateSchedule(0, SAME_AGAIN, None, -MICROSECOND)];
    var row := Schedule(true, 60, 0, 0, Normal, 100, 80, 1, [InputFile(1, 0)]);
    var t1 := Apply(EMPTY, events[0]);
    assert t1 == EMPTY.(schedules := [row]);
    FirstTick(t1, row);
    var t2 := Apply(t1, events[1]);
    StaleEdit(t2, row);
    var t3 := Apply(t2, events[2]);
    Collision(t3, row);
    hide Apply, TickStep;
    RunThree(EMPTY, events);
  }

  lemma RunThree(t: Tables, events: seq<Event>)
    requires |events| == 3
    ensures Run(t, events) == Apply(Apply(Apply(t, events[0]), events[1]), events[2])
  {
    hide Apply;
    var rest, last := events[1..], events[2..];
    assert rest[1..] == last && last[1..] == [];
    var u := Apply(t, events[0]);
    var v := Apply(u, rest[0]);
    assert Run(u, rest) == Run(v, last) == Run(Apply(v, last[0]), []);
  }

  lemma FirstTick(t: Tables, row: Schedule)
    requires t.schedules == [row] && t.occurrences == [] && t.jobs == []
    requires row.enabled && row.next == 0 && row.interval == 60 && |row.inputs| == 1
    ensures Apply(t, TickSchedules(0)).schedules == [row.(next := 60 * SECOND)]
    ensures Apply(t, TickSchedules(0)).occurrences == [Occurrence(0, 0, Some(0), 0)]
  {
    hide InsertInputs;
    assert NextDue(t.schedules, 0, 0) == None;
    assert LatestDueSlot(0, 60, 0) == Ok(Due(0, 60 * SECOND, 0));
  }

  lemma StaleEdit(t: Tables, row: Schedule)
    requires t.schedules == [row.(next := 60 * SECOND)] && t.occurrences == [Occurrence(0, 0, Some(0), 0)]
    requires row == Schedule(true, 60, 0, 0, Normal, 100, 80, 1, [InputFile(1, 0)])
    ensures Apply(t, UpdateSchedule(0, SAME_AGAIN, None, -MICROSECOND)) == t.(schedules := [row])
  {
  }

  lemma Collision(t: Tables, row: Schedule)
    requires t.schedules == [row] && t.occurrences == [Occurrence(0, 0, Some(0), 0)]
    requires row == Schedule(true, 60, 0, 0, Normal, 100, 80, 1, [InputFile(1, 0)])
    ensures TickStep(t, 0) == (t, Err(ConstraintViolation))
  {
    hide InsertInputs;
    assert NextDue(t.schedules, 0, 0) == None;
    assert t.occurrences[0].schedule == 0 && t.occurrences[0].slot == 0;
    assert SlotRecorded(t.occurrences, 0, 0);
  }

  /** What a tick can answer: nothing is due, or the first due schedule is handled, unless its next
      slot is past the last date. */
  lemma TickAnswer(t: Tables, now: Time)
    requires Inv(t) && SlotsFit(t) && Representable(now)
    requires forall i: nat :: i < |t.schedules| ==> Representable(t.schedules[i].next)
    ensures var r := TickStep(t, now).1;
            match NextDue(t.schedules, |t.schedules|, now)
            case None => r == Ok(None)
            case Some(i) =>
              var s := t.schedules[i];
              && s.interval > 0 && s.next <= now
              && if Representable(Walk(s.next, s.interval, now, 0).next)
                 then r.Ok? && r.value.Some? && r.value.value.schedule == i
                 else r == Err(InvalidData)
  {
    DueSlotIsNew(t, now);
    var due := NextDue(t.schedules, |t.schedules|, now);
    if due.Some? {
      DueSchedule(t, due.value);
      var s := t.schedules[due.value];
      LatestDueSlotIsWalk(s.next, s.interval, now);
      hide LatestDueSlot, Walk;
    }
    hide Inv, SlotsFit, InsertInputs, Overlaps, SlotRecorded;
  }

  // ---------------------------------------------------------------- overlap

  /** In every run at most one job of a schedule is not terminal, and a tick that finds such a job
      records the slot as skipped and creates nothing. */
  lemma OneActiveJob(events: seq<Event>, i: nat, j: nat, k: nat, now: Time)
    requires var jobs := Run(EMPTY, events).jobs; j < |jobs| && k < |jobs| && ActiveFor(jobs[j], i) && ActiveFor(jobs[k], i)
    ensures j == k
    ensures var t := Run(EMPTY, events);
            var (u, r) := TickStep(t, now);
            r.Ok? && r.value.Some? && r.value.value.schedule == i ==> r.value.value.job.None? && u.jobs == t.jobs
  {
    hide Run, Inv, Guarantee, LatestDueSlot, InsertInputs, SlotRecorded, ActiveFor;
    EmptyFits();
    RunKeeps(EMPTY, events);
    var t := Run(EMPTY, events);
    OneActive(t, i, j, k);
    assert Overlaps(t.jobs, i);
  }

  /** A schedule is busy while a job that was created for one of its slots has not ended. */
  predicate Busy(jobs: seq<Job>, schedule: nat) {
    exists j: nat :: j < |jobs| && CreatedFor(jobs[j], schedule)
                     && !jobs[j].status.Succeeded? && !jobs[j].status.Failed? && !jobs[j].status.Cancelled?
  }

  predicate CreatedFor(job: Job, schedule: nat) {
    job.origin.Some? && job.origin.value.schedule == schedule
  }

  /** A tick creates a job for the schedule it handles exactly when that schedule is not busy, whatever
      the others are doing; the busy state of every other schedule stays. */
  lemma CreatesUnlessBusy(t: Tables, now: Time)
    requires TickStep(t, now).1.Ok? && TickStep(t, now).1.value.Some?
    ensures var (u, r) := TickStep(t, now);
            var tick := r.value.value;
            && (tick.job.Some? <==> !Busy(t.jobs, tick.schedule))
            && (if tick.job.Some?
                then tick.job.value == |t.jobs| && |u.jobs| == |t.jobs| + 1 && u.jobs[..|t.jobs|] == t.jobs
                     && CreatedFor(u.jobs[|t.jobs|], tick.schedule)
                else u.jobs == t.jobs && u.artifacts == t.artifacts)
            && (forall i: nat :: i != tick.schedule ==> (Busy(u.jobs, i) <==> Busy(t.jobs, i)))
  {
    hide LatestDueSlot, InsertInputs, SlotRecorded, NextDue, Busy;
    var (u, r) := TickStep(t, now);
    var tick := r.value.value;
    OverlapsIsBusy(t.jobs, tick.schedule);
    if tick.job.Some? {
      forall i: nat | i != tick.schedule
        ensures Busy(u.jobs, i) <==> Busy(t.jobs, i)
      {
        OneMoreJob(t.jobs, u.jobs[|t.jobs|], i);
      }
    }
  }

  lemma OverlapsIsBusy(jobs: seq<Job>, i: nat)
    ensures Overlaps(jobs, i) <==> Busy(jobs, i)
  {
    if Overlaps(jobs, i) {
      var j: nat :| j < |jobs| && ActiveFor(jobs[j], i);
      assert CreatedFor(jobs[j], i);
    }
    if Busy(jobs, i) {
      var j: nat :| j < |jobs| && CreatedFor(jobs[j], i) && !Terminal(jobs[j].status);
      assert ActiveFor(jobs[j], i);
    }
  }

  lemma OneMoreJob(jobs: seq<Job>, job: Job, i: nat)
    requires !CreatedFor(job, i)
    ensures Busy(jobs + [job], i) <==> Busy(jobs, i)
  {
    var more := jobs + [job];
    if Busy(jobs, i) {
      var j: nat :| j < |jobs| && CreatedFor(jobs[j], i) && !Terminal(jobs[j].status);
      assert more[j] == jobs[j];
      assert CreatedFor(more[j], i);
      assert !Terminal(more[j].status);
      assert Busy(more, i);
    }
    if Busy(more, i) {
      var j: nat :| j < |more| && CreatedFor(more[j], i) && !Terminal(more[j].status);
      assert j < |jobs| && more[j] == jobs[j] && CreatedFor(jobs[j], i);
      assert Busy(jobs, i);
    }
  }

  lemma OneActive(t: Tables, i: nat, j: nat, k: nat)
    requires Inv(t) && j < |t.jobs| && k < |t.jobs| && ActiveFor(t.jobs[j], i) && ActiveFor(t.jobs[k], i)
    ensures j == k
  {
  }

  /** A manual retry leaves the schedule of its source: it never blocks a later slot. */
  lemma RetryIsNoOverlap(t: Tables, job: nat, caller: Option<nat>, now: Time, i: nat)
    ensures var (u, r) := ManualRetryStep(t, job, caller, now);
            && (Overlaps(u.jobs, i) <==> Overlaps(t.jobs, i))
            && (r.Ok? && r.value.Some? ==> u.jobs[r.value.value].origin.None? && u.jobs[r.value.value].retryOf == Some(job))
  {
    var u := ManualRetryStep(t, job, caller, now).0;
    hide CopyInputs;
    if j: nat :| j < |t.jobs| && ActiveFor(t.jobs[j], i) {
      assert ActiveFor(u.jobs[j], i);
    }
  }

  // ---------------------------------------------------------------- every slot is accounted for once

  /** How many slots the occurrences of schedule i from a position on stand for. */
  function Passed(occurrences: seq<Occurrence>, from: nat, i: nat): nat
    decreases |occurrences| - from
  {
    if from >= |occurrences| then 0
    else (if occurrences[from].schedule == i then occurrences[from].coalesced + 1 else 0) + Passed(occurrences, from + 1, i)
  }

  predicate Edits(e: Event, i: nat) {
    e.UpdateSchedule? && e.id == i
  }

  /** What one step other than an edit does to schedule i. */
  ghost predicate Moves(t: Tables, u: Tables, i: nat) {
    && i < |t.schedules| && i < |u.schedules| && t.schedules[i].interval > 0
    && u.schedules[i] == t.schedules[i].(next := u.schedules[i].next)
    && t.occurrences <= u.occurrences
    && var s := t.schedules[i];
       || (u.occurrences == t.occurrences && u.schedules[i].next == s.next)
       || (&& |u.occurrences| == |t.occurrences| + 1
           && var o := u.occurrences[|t.occurrences|];
              if o.schedule == i
              then o.slot == SlotAt(s.next, s.interval, o.coalesced) && u.schedules[i].next == SlotAt(s.next, s.interval, o.coalesced + 1)
              else u.schedules[i].next == s.next)
  }

  lemma TickMoves(t: Tables, now: Time, i: nat)
    requires i < |t.schedules| && t.schedules[i].interval > 0
    ensures Moves(t, TickStep(t, now).0, i)
  {
    TickEffect(t, now);
    hide TickStep, SlotAt;
  }

  lemma EditMoves(t: Tables, id: nat, edit: ScheduleEdit, caller: Option<nat>, now: Time, i: nat)
    requires i < |t.schedules| && t.schedules[i].interval > 0 && id != i
    ensures Moves(t, UpdateScheduleStep(t, id, edit, caller, now).0, i)
  {
    hide NextSlotAfter, SlotAt;
  }

  lemma CreateMoves(t: Tables, r: ScheduleRequest, i: nat)
    requires i < |t.schedules| && t.schedules[i].interval > 0
    ensures Moves(t, CreateScheduleStep(t, r).0, i)
  {
    hide SlotAt;
  }

  lemma SameMoves(t: Tables, u: Tables, i: nat)
    requires i < |t.schedules| && t.schedules[i].interval > 0
    requires u.schedules == t.schedules && u.occurrences == t.occurrences
    ensures Moves(t, u, i)
  {
    hide SlotAt;
  }

  lemma StepMoves(t: Tables, e: Event, i: nat)
    requires Inv(t) && i < |t.schedules| && !Edits(e, i)
    ensures Moves(t, Apply(t, e), i)
  {
    hide Inv, TickStep, UpdateScheduleStep, CreateScheduleStep, Moves;
    DueSchedule(t, i);
    match e
    case TickSchedules(now) => TickMoves(t, now, i);
    case UpdateSchedule(id, edit, caller, now) => EditMoves(t, id, edit, caller, now, i);
    case CreateSchedule(r) => CreateMoves(t, r, i);
    case _ =>
      OthersLeaveSchedules(t, e);
      SameMoves(t, Apply(t, e), i);
  }

  lemma {:induction false} PassedSplits(p: seq<Occurrence>, q: seq<Occurrence>, from: nat, i: nat)
    requires p <= q && from <= |p|
    ensures Passed(q, from, i) == Passed(p, from, i) + Passed(q, |p|, i)
    decreases |p| - from
  {
    if from < |p| {
      PassedSplits(p, q, from + 1, i);
    }
  }

  /** The cursor has moved by exactly the slots that the new occurrences stand for. */
  ghost predicate Advanced(t: Tables, u: Tables, i: nat) {
    && i < |t.schedules| && i < |u.schedules| && t.occurrences <= u.occurrences
    && var s := t.schedules[i];
       u.schedules[i] == s.(next := SlotAt(s.next, s.interval, Passed(u.occurrences, |t.occurrences|, i)))
  }

  lemma MovesAdvance(t: Tables, u: Tables, i: nat)
    requires Moves(t, u, i)
    ensures Advanced(t, u, i)
  {
    assert SlotAt(t.schedules[i].next, t.schedules[i].interval, 0) == t.schedules[i].next;
    if |u.occurrences| > |t.occurrences| {
      assert Passed(u.occurrences, |t.occurrences| + 1, i) == 0;
    }
    hide SlotAt;
  }

  lemma AdvancedTransitive(t: Tables, v: Tables, u: Tables, i: nat)
    requires Advanced(t, v, i) && Advanced(v, u, i)
    ensures Advanced(t, u, i)
  {
    PassedSplits(v.occurrences, u.occurrences, |t.occurrences|, i);
    var s := t.schedules[i];
    SlotsCompose(s.next, s.interval, Passed(v.occurrences, |t.occurrences|, i), Passed(u.occurrences, |v.occurrences|, i));
    hide SlotAt;
  }

  /** Between two edits of a schedule its cursor moves by exactly the slots that its occurrences
      stand for, and nothing else about the schedule changes. */
  lemma {:induction false} Conservation(t: Tables, events: seq<Event>, i: nat)
    requires Inv(t) && i < |t.schedules| && forall k :: 0 <= k < |events| ==> !Edits(events[k], i)
    ensures Advanced(t, Run(t, events), i)
    decreases |events|
  {
    hide Inv, Guarantee, Apply, Advanced, SlotAt;
    if events == [] {
      assert Moves(t, t, i) by {
        DueSchedule(t, i);
      }
      MovesAdvance(t, t, i);
    } else {
      var v := Apply(t, events[0]);
      StepKeeps(t, events[0]);
      StepMoves(t, events[0], i);
      MovesAdvance(t, v, i);
      Conservation(v, events[1..], i);
      AdvancedTransitive(t, v, Run(t, events), i);
    }
  }

  /** An occurrence stands for its own slot and the coalesced ones right before it. */
  predicate StandsFor(o: Occurrence, i: nat, interval: nat, x: Time) {
    o.schedule == i && o.slot - o.coalesced * Step(interval) <= x <= o.slot
  }

  predicate Accounts(occurrences: seq<Occurrence>, from: nat, p: nat, i: nat, interval: nat, x: Time) {
    from <= p < |occurrences| && StandsFor(occurrences[p], i, interval, x)
  }

  /** One step stands for the slots from the old cursor up to, not including, the new one. */
  lemma StepStandsFor(t: Tables, v: Tables, i: nat, k: nat)
    requires Moves(t, v, i)
    ensures var s := t.schedules[i];
            var x := SlotAt(s.next, s.interval, k);
            var n := Passed(v.occurrences, |t.occurrences|, i);
            && v.schedules[i].next == SlotAt(s.next, s.interval, n) >= s.next
            && (forall p: nat :: Accounts(v.occurrences, |t.occurrences|, p, i, s.interval, x) <==> k < n && p == |t.occurrences|)
            && (k >= n ==> x >= v.schedules[i].next && x == SlotAt(v.schedules[i].next, s.interval, k - n))
            && (k < n ==> x < v.schedules[i].next)
  {
    MovesAdvance(t, v, i);
    var s := t.schedules[i];
    var n := Passed(v.occurrences, |t.occurrences|, i);
    InOrder(s.next, s.interval, 0, n);
    InOrder(s.next, s.interval, k, n);
    InOrder(s.next, s.interval, n, k);
    if k >= n {
      SlotsCompose(s.next, s.interval, n, k - n);
    }
    if |v.occurrences| > |t.occurrences| {
      var c := v.occurrences[|t.occurrences|].coalesced;
      InOrder(s.next, s.interval, k, c);
      InOrder(s.next, s.interval, c, k);
      InOrder(s.next, s.interval, 0, k);
      assert Passed(v.occurrences, |t.occurrences| + 1, i) == 0;
    }
  }

  /** What is recorded from now on stands only for slots from the cursor on. */
  lemma {:induction false} NothingBelowTheCursor(t: Tables, events: seq<Event>, i: nat, p: nat, x: Time)
    requires Inv(t) && i < |t.schedules| && forall k :: 0 <= k < |events| ==> !Edits(events[k], i)
    requires Accounts(Run(t, events).occurrences, |t.occurrences|, p, i, t.schedules[i].interval, x)
    ensures t.schedules[i].next <= x
    decreases |events|
  {
    hide Inv, Guarantee, Apply, SlotAt, StandsFor, Passed;
    if events != [] {
      var v := Apply(t, events[0]);
      StepKeeps(t, events[0]);
      StepMoves(t, events[0], i);
      StepStandsFor(t, v, i, 0);
      Conservation(v, events[1..], i);
      if p >= |v.occurrences| {
        NothingBelowTheCursor(v, events[1..], i, p, x);
      } else {
        FirstSlot(t, v, i, p, x);
      }
    }
  }

  lemma FirstSlot(t: Tables, v: Tables, i: nat, p: nat, x: Time)
    requires Moves(t, v, i) && Accounts(v.occurrences, |t.occurrences|, p, i, t.schedules[i].interval, x)
    ensures t.schedules[i].next <= x
  {
  }

  /** Every slot that the cursor has passed between two edits is accounted for by exactly one
      occurrence: it was recorded once, or it was coalesced once. */
  lemma {:induction false} EverySlotOnce(t: Tables, events: seq<Event>, i: nat, k: nat) returns (p: nat)
    requires Inv(t) && i < |t.schedules| && forall m :: 0 <= m < |events| ==> !Edits(events[m], i)
    requires k < Passed(Run(t, events).occurrences, |t.occurrences|, i)
    ensures var u := Run(t, events);
            var interval := t.schedules[i].interval;
            var x := SlotAt(t.schedules[i].next, interval, k);
            && Accounts(u.occurrences, |t.occurrences|, p, i, interval, x)
            && (forall q: nat :: Accounts(u.occurrences, |t.occurrences|, q, i, interval, x) ==> q == p)
    decreases |events|
  {
    hide Inv, Guarantee, Apply, SlotAt, StandsFor;
    var v, u := Apply(t, events[0]), Run(t, events);
    var s := t.schedules[i];
    var x := SlotAt(s.next, s.interval, k);
    StepKeeps(t, events[0]);
    StepMoves(t, events[0], i);
    StepStandsFor(t, v, i, k);
    Conservation(v, events[1..], i);
    PassedSplits(v.occurrences, u.occurrences, |t.occurrences|, i);
    var n := Passed(v.occurrences, |t.occurrences|, i);
    hide Passed;
    if k < n {
      p := |t.occurrences|;
      assert Accounts(v.occurrences, |t.occurrences|, p, i, s.interval, x);
    } else {
      p := EverySlotOnce(v, events[1..], i, k - n);
    }
    forall q: nat | Accounts(u.occurrences, |t.occurrences|, q, i, s.interval, x)
      ensures q == p
    {
      if q >= |v.occurrences| {
        NothingBelowTheCursor(v, events[1..], i, q, x);
      } else {
        assert Accounts(v.occurrences, |t.occurrences|, q, i, s.interval, x);
      }
    }
  }

  // ---------------------------------------------------------------- the tick loop

  predicate Handles(ticks: seq<Tick>, i: nat) {
    exists k: nat :: k < |ticks| && ticks[k].schedule == i
  }

  /** The ticks handled due schedules in order, each once, and before all due ones still left. */
  ghost predicate InDueOrder(schedules: seq<Schedule>, ticks: seq<Tick>, now: Time) {
    && (forall k: nat :: k < |ticks| ==> ticks[k].schedule < |schedules| && ScheduleDue(schedules[ticks[k].schedule], now))
    && (forall k: nat, l: nat :: k < l < |ticks| ==> DueBefore(schedules, ticks[k].schedule, ticks[l].schedule))
    && (forall j: nat, k: nat :: j < |schedules| && ScheduleDue(schedules[j], now) && !Handles(ticks, j) && k < |ticks|
          ==> DueBefore(schedules, ticks[k].schedule, j))
  }

  /** Handled schedules are no longer due; the others are as they were. */
  ghost predicate OnlyHandled(before: seq<Schedule>, after: seq<Schedule>, ticks: seq<Tick>, now: Time) {
    && |after| == |before|
    && (forall j: nat :: j < |before| ==>
          if Handles(ticks, j) then !ScheduleDue(after[j], now) else after[j] == before[j])
  }

  lemma OneMoreTick(before: seq<Schedule>, schedules: seq<Schedule>, ticks: seq<Tick>, tick: Tick, after: seq<Schedule>, now: Time)
    requires OnlyHandled(before, schedules, ticks, now) && InDueOrder(before, ticks, now)
    requires NextDue(schedules, |schedules|, now) == Some(tick.schedule)
    requires |after| == |schedules| && after == schedules[tick.schedule := after[tick.schedule]]
    requires !ScheduleDue(after[tick.schedule], now)
    ensures OnlyHandled(before, after, ticks + [tick], now) && InDueOrder(before, ticks + [tick], now)
    ensures !Handles(ticks, tick.schedule)
  {
    var more := ticks + [tick];
    HandlesMore(ticks, tick);
    forall j: nat | j < |before| && ScheduleDue(before[j], now) && !Handles(more, j)
      ensures DueBefore(before, tick.schedule, j)
    {
      assert ScheduleDue(schedules[j], now);
    }
  }

  /** How many of the first n schedules are due. */
  function DueCount(schedules: seq<Schedule>, n: nat, now: Time): nat
    requires n <= |schedules|
  {
    if n == 0 then 0 else DueCount(schedules, n - 1, now) + if ScheduleDue(schedules[n - 1], now) then 1 else 0
  }

  lemma {:induction false} FewerDue(before: seq<Schedule>, after: seq<Schedule>, n: nat, i: nat, now: Time)
    requires |after| == |before| && n <= |before| && i < |before|
    requires ScheduleDue(before[i], now) && !ScheduleDue(after[i], now) && after == before[i := after[i]]
    ensures DueCount(after, n, now) == DueCount(before, n, now) - if i < n then 1 else 0
  {
    if n > 0 {
      FewerDue(before, after, n - 1, i, now);
    }
  }

  /** A tick created a job exactly if its schedule was not busy at the start. */
  ghost predicate CreatedUnlessBusy(jobs: seq<Job>, ticks: seq<Tick>) {
    forall k: nat :: k < |ticks| ==> (ticks[k].job.Some? <==> !Busy(jobs, ticks[k].schedule))
  }

  /** The schedules not handled yet are as busy as they were. */
  ghost predicate BusyAlike(before: seq<Job>, after: seq<Job>, ticks: seq<Tick>) {
    forall i: nat :: !Handles(ticks, i) ==> (Busy(after, i) <==> Busy(before, i))
  }

  lemma NobodyAskedYet(jobs: seq<Job>)
    ensures CreatedUnlessBusy(jobs, []) && BusyAlike(jobs, jobs, [])
  {
  }

  lemma OneMoreCreation(before: seq<Job>, jobs: seq<Job>, after: seq<Job>, ticks: seq<Tick>, tick: Tick)
    requires CreatedUnlessBusy(before, ticks) && BusyAlike(before, jobs, ticks) && !Handles(ticks, tick.schedule)
    requires tick.job.Some? <==> !Busy(jobs, tick.schedule)
    requires forall i: nat :: i != tick.schedule ==> (Busy(after, i) <==> Busy(jobs, i))
    ensures CreatedUnlessBusy(before, ticks + [tick]) && BusyAlike(before, after, ticks + [tick])
  {
    hide Busy;
    HandlesMore(ticks, tick);
  }

  lemma HandlesMore(ticks: seq<Tick>, tick: Tick)
    ensures forall i: nat :: Handles(ticks + [tick], i) <==> Handles(ticks, i) || i == tick.schedule
  {
    var more := ticks + [tick];
    assert more[|ticks|] == tick;
    forall i: nat
      ensures Handles(more, i) <==> Handles(ticks, i) || i == tick.schedule
    {
      if Handles(ticks, i) {
        var k: nat :| k < |ticks| && ticks[k].schedule == i;
        assert more[k].schedule == i;
      }
    }
  }

  /** The tick loop at one instant with no other writer: it handles exactly the due schedules, each
      once, by cursor and id, creates a job for each of them that was not busy, and then stops. */
  method TickAll(db: Database, now: Time) returns (r: Result<seq<Tick>>)
    requires Inv(db.State()) && SlotsFit(db.State())
    requires Representable(now) && Representable(now + MAX_INTERVAL * SECOND)
    requires forall i: nat :: i < |db.schedules| ==> Representable(db.schedules[i].next)
    modifies db
    ensures Inv(db.State()) && SlotsFit(db.State())
    ensures r.Ok? && InDueOrder(old(db.schedules), r.value, now) && OnlyHandled(old(db.schedules), db.schedules, r.value, now)
    ensures forall i: nat :: i < |old(db.schedules)| ==> (Handles(r.value, i) <==> ScheduleDue(old(db.schedules)[i], now))
    ensures forall i: nat :: i < |db.schedules| ==> !ScheduleDue(db.schedules[i], now)
    ensures CreatedUnlessBusy(old(db.jobs), r.value)
  {
    hide Inv, SlotsFit, InDueOrder, OnlyHandled, NextDue, Ticked, Busy, CreatedUnlessBusy, BusyAlike;
    ghost var before, jobs := db.schedules, db.jobs;
    NobodyAskedYet(jobs);
    var ticks: seq<Tick> := [];
    NoTicksYet(db.State(), now);
    while true
      invariant Inv(db.State()) && SlotsFit(db.State())
      invariant forall i: nat :: i < |db.schedules| ==> Representable(db.schedules[i].next)
      invariant InDueOrder(before, ticks, now) && OnlyHandled(before, db.schedules, ticks, now)
      invariant CreatedUnlessBusy(jobs, ticks) && BusyAlike(jobs, db.jobs, ticks)
      decreases DueCount(db.schedules, |db.schedules|, now)
    {
      ghost var t := db.State();
      TickSucceeds(t, now);
      TickEffect(t, now);
      TickKeeps(t, now);
      hide TickStep;
      var tick := db.MaterializeNext(now);
      if tick.value.None? {
        NothingDue(before, db.schedules, ticks, now);
        return Ok(ticks);
      }
      ghost var i := tick.value.value.schedule;
      CreatesUnlessBusy(t, now);
      OneMoreTick(before, t.schedules, ticks, tick.value.value, db.schedules, now);
      OneMoreCreation(jobs, t.jobs, db.jobs, ticks, tick.value.value);
      TickedOnce(t, db.State(), i, now);
      TickedFits(t, db.State(), i, now);
      FewerDue(t.schedules, db.schedules, |db.schedules|, i, now);
      ticks := ticks + [tick.value.value];
    }
  }

  lemma NoTicksYet(t: Tables, now: Time)
    ensures InDueOrder(t.schedules, [], now) && OnlyHandled(t.schedules, t.schedules, [], now)
  {
  }

  lemma NothingDue(before: seq<Schedule>, schedules: seq<Schedule>, ticks: seq<Tick>, now: Time)
    requires NextDue(schedules, |schedules|, now).None? && OnlyHandled(before, schedules, ticks, now) && InDueOrder(before, ticks, now)
    ensures forall i: nat :: i < |before| ==> (Handles(ticks, i) <==> ScheduleDue(before[i], now))
    ensures forall i: nat :: i < |schedules| ==> !ScheduleDue(schedules[i], now)
  {
  }

  /** Far enough from the last date no tick fails. */
  lemma TickSucceeds(t: Tables, now: Time)
    requires Inv(t) && SlotsFit(t) && Representable(now) && Representable(now + MAX_INTERVAL * SECOND)
    requires forall i: nat :: i < |t.schedules| ==> Representable(t.schedules[i].next)
    ensures TickStep(t, now).1.Ok?
    ensures var (u, r) := TickStep(t, now);
            if r.Ok? && r.value.Some? then Representable(u.schedules[r.value.value.schedule].next) else NextDue(t.schedules, |t.schedules|, now).None?
  {
    TickAnswer(t, now);
    TickEffect(t, now);
    var due := NextDue(t.schedules, |t.schedules|, now);
    if due.Some? {
      var s := t.schedules[due.value];
      DueSchedule(t, due.value);
      WalkEndsSoon(s.next, s.interval, now, 0);
      assert Step(s.interval) <= MAX_INTERVAL * SECOND;
      LatestDueSlotIsWalk(s.next, s.interval, now);
      hide Inv, SlotsFit, Ticked, InsertInputs, Overlaps, SlotRecorded, LatestDueSlot, Walk;
    }
  }

  lemma {:induction false} WalkEndsSoon(slot: Time, interval: nat, now: Time, passed: nat)
    requires interval > 0 && slot <= now
    ensures now < Walk(slot, interval, now, passed).next <= now + Step(interval)
    decreases now - slot
  {
    if slot + Step(interval) <= now {
      WalkEndsSoon(slot + Step(interval), interval, now, passed + 1);
    }
  }

  lemma TickedOnce(t: Tables, u: Tables, i: nat, now: Time)
    requires Ticked(t, u, i, now)
    ensures i < |u.schedules| && |u.schedules| == |t.schedules| && u.schedules == t.schedules[i := u.schedules[i]]
    ensures !ScheduleDue(u.schedules[i], now)
  {
  }
}
