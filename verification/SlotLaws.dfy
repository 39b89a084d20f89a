/** What the closed forms of the slot arithmetic compute: the slots that one would reach by stepping
    one interval at a time, in whole seconds and in nanoseconds alike.
  */
module SlotLaws {
  import opened Rows
  import opened Slots

  /** One interval in nanoseconds. */
  function Step(interval: nat): (d: int)
    ensures interval > 0 ==> d > 0
  {
    interval * SECOND
  }

  /** The k-th slot counted from a base. */
  function SlotAt(base: Time, interval: nat, k: nat): Time {
    base + k * Step(interval)
  }

  ghost predicate OnGrid(t: Time, base: Time, interval: nat) {
    exists k: nat :: t == SlotAt(base, interval, k)
  }

  /** Steps from a due slot while the following slot is due too. */
  function Walk(slot: Time, interval: nat, now: Time, passed: nat): Due
    requires interval > 0 && slot <= now
    decreases now - slot
  {
    if slot + Step(interval) > now then Due(slot, slot + Step(interval), passed)
    else Walk(slot + Step(interval), interval, now, passed + 1)
  }

  /** Steps from an anchor to the first slot that is not due. */
  function FirstAfter(slot: Time, interval: nat, now: Time): Time
    requires interval > 0
    decreases now - slot
  {
    if slot > now then slot else FirstAfter(slot + Step(interval), interval, now)
  }

  // ---------------------------------------------------------------- division

  lemma Distribute(a: int, b: int, d: int)
    ensures (a + b) * d == a * d + b * d
  {
  }

  lemma Monotone(a: int, b: int, d: int)
    requires a <= b && d >= 0
    ensures a * d <= b * d
  {
    Distribute(a, b - a, d);
  }

  lemma DivisionIs(x: int, d: int, q: int)
    requires d > 0 && q * d <= x < q * d + d
    ensures x / d == q
  {
    var p := x / d;
    assert p * d <= x < p * d + d by {
      assert x == p * d + x % d;
    }
    Distribute(p, 1, d);
    Distribute(q, 1, d);
    if p > q {
      Monotone(q + 1, p, d);
    } else if p < q {
      Monotone(p + 1, q, d);
    }
  }

  /** Counting whole seconds first loses nothing: a slot is a whole number of seconds away. */
  lemma WholeSeconds(x: int, interval: nat)
    requires x >= 0 && interval > 0
    ensures x / SECOND / interval == x / Step(interval)
  {
    var s := x / SECOND;
    var q := s / interval;
    assert s == q * interval + s % interval;
    assert q * Step(interval) == q * interval * SECOND;
    DivisionIs(x, Step(interval), q);
  }

  lemma Quotient(x: int, d: int) returns (q: nat)
    requires x >= 0 && d > 0
    ensures q == x / d && q * d <= x < q * d + d
  {
    q := x / d;
    assert x == q * d + x % d;
  }

  // ---------------------------------------------------------------- the loops

  lemma {:induction false} WalkIs(slot: Time, interval: nat, now: Time, passed: nat, q: nat)
    requires interval > 0
    requires q * Step(interval) <= now - slot < q * Step(interval) + Step(interval)
    ensures slot <= now
    ensures Walk(slot, interval, now, passed)
            == Due(SlotAt(slot, interval, q), SlotAt(slot, interval, q) + Step(interval), passed + q)
    decreases q
  {
    if q > 0 {
      assert (q - 1) * Step(interval) == q * Step(interval) - Step(interval);
      WalkIs(slot + Step(interval), interval, now, passed + 1, q - 1);
    }
  }

  lemma {:induction false} FirstAfterIs(slot: Time, interval: nat, now: Time, q: nat)
    requires interval > 0 && slot <= now
    requires q * Step(interval) <= now - slot < q * Step(interval) + Step(interval)
    ensures FirstAfter(slot, interval, now) == SlotAt(slot, interval, q + 1)
    decreases q
  {
    if q > 0 {
      assert (q - 1) * Step(interval) == q * Step(interval) - Step(interval);
      FirstAfterIs(slot + Step(interval), interval, now, q - 1);
    } else {
      assert FirstAfter(slot + Step(interval), interval, now) == slot + Step(interval);
    }
  }

  // ---------------------------------------------------------------- the closed forms

  /** For dates that can be represented the only error is a next slot past the last date: the
      conversions to i64 and u64 cannot fail. */
  lemma LatestDueSlotIsWalk(cursor: Time, interval: nat, now: Time)
    requires interval > 0 && Representable(cursor) && Representable(now)
    ensures cursor > now ==> LatestDueSlot(cursor, interval, now) == Err(InvalidData)
    ensures cursor <= now ==>
              LatestDueSlot(cursor, interval, now)
              == (var due := Walk(cursor, interval, now, 0); if Representable(due.next) then Ok(due) else Err(InvalidData))
  {
    if cursor <= now {
      var q := Quotient(now - cursor, Step(interval));
      WholeSeconds(now - cursor, interval);
      WalkIs(cursor, interval, now, 0, q);
      assert q * Step(interval) == q * interval * SECOND;
      assert q * interval * SECOND <= MAX_TIME - MIN_TIME;
    }
  }

  lemma NextSlotAfterIsFirst(anchor: Time, interval: nat, now: Time)
    requires ValidInterval(interval) && Representable(anchor) && Representable(now)
    ensures NextSlotAfter(anchor, interval, now)
            == (var slot := FirstAfter(anchor, interval, now); if Representable(slot) then Ok(slot) else Err(InvalidData))
  {
    if anchor <= now {
      var q := Quotient(now - anchor, Step(interval));
      FirstAfterIs(anchor, interval, now, q);
      assert (q + 1) * Step(interval) == (q + 1) * interval * SECOND;
      assert (q + 1) * interval * SECOND <= MAX_TIME - MIN_TIME + Step(interval);
    }
  }

  /** The latest due slot is the greatest slot counted from the cursor that is not after now, and the
      number coalesced is the number of slots before it. */
  lemma LatestDueSlotIsGreatest(cursor: Time, interval: nat, now: Time, k: nat)
    requires interval > 0 && LatestDueSlot(cursor, interval, now).Ok?
    ensures var due := LatestDueSlot(cursor, interval, now).value;
            && due.slot == SlotAt(cursor, interval, due.coalesced) <= now < due.next
            && due.next == SlotAt(cursor, interval, due.coalesced + 1)
            && (SlotAt(cursor, interval, k) <= now <==> k <= due.coalesced)
            && (SlotAt(cursor, interval, k) <= now ==> SlotAt(cursor, interval, k) <= due.slot)
  {
    var due := LatestDueSlot(cursor, interval, now).value;
    var q := Quotient(now - cursor, Step(interval));
    WholeSeconds(now - cursor, interval);
    assert q * Step(interval) == q * interval * SECOND;
    assert (q + 1) * Step(interval) == q * Step(interval) + Step(interval);
    InOrder(cursor, interval, k, q);
    InOrder(cursor, interval, q + 1, k);
  }

  lemma InOrder(base: Time, interval: nat, k: nat, m: nat)
    ensures k <= m ==> SlotAt(base, interval, k) <= SlotAt(base, interval, m)
    ensures interval > 0 && k < m ==> SlotAt(base, interval, k) < SlotAt(base, interval, m)
  {
    var d := Step(interval);
    if k < m {
      Monotone(k + 1, m, d);
      Distribute(k, 1, d);
    }
  }

  lemma SlotsCompose(base: Time, interval: nat, m: nat, n: nat)
    ensures SlotAt(SlotAt(base, interval, m), interval, n) == SlotAt(base, interval, m + n)
  {
    Distribute(m, n, Step(interval));
  }

  /** The next slot is the least slot of the anchor's grid after now. */
  lemma NextSlotAfterIsLeast(anchor: Time, interval: nat, now: Time, k: nat)
    requires interval > 0 && NextSlotAfter(anchor, interval, now).Ok?
    ensures var slot := NextSlotAfter(anchor, interval, now).value;
            && OnGrid(slot, anchor, interval) && slot > now
            && (SlotAt(anchor, interval, k) > now ==> slot <= SlotAt(anchor, interval, k))
  {
    if anchor > now {
      assert anchor == SlotAt(anchor, interval, 0);
      InOrder(anchor, interval, 0, k);
    } else {
      var q := Quotient(now - anchor, Step(interval));
      assert (q + 1) * Step(interval) == (q + 1) * interval * SECOND == q * Step(interval) + Step(interval);
      assert NextSlotAfter(anchor, interval, now).value == SlotAt(anchor, interval, q + 1);
      InOrder(anchor, interval, q + 1, k);
      InOrder(anchor, interval, k, q);
    }
  }

  /** A due cursor that lies on the grid of its anchor moves to the same slot under both forms, and
      both refuse the same dates. */
  lemma FormsAgree(anchor: Time, interval: nat, k: nat, now: Time)
    requires interval > 0 && Representable(anchor) && Representable(now) && SlotAt(anchor, interval, k) <= now
    ensures var cursor := SlotAt(anchor, interval, k);
            NextSlotAfter(anchor, interval, now)
            == match LatestDueSlot(cursor, interval, now) case Ok(due) => Ok(due.next) case Err(e) => Err(e)
  {
    hide LatestDueSlot, NextSlotAfter;
    var cursor, d := SlotAt(anchor, interval, k), Step(interval);
    InOrder(anchor, interval, 0, k);
    var q := Quotient(now - cursor, d);
    WholeSeconds(now - cursor, interval);
    Distribute(k, q, d);
    DivisionIs(now - anchor, d, k + q);
    Closed(anchor, interval, now, k + q);
    Associate(q, interval);
    LatestClosed(cursor, interval, now, q);
    SameNext(anchor, interval, k, q);
  }

  lemma SameNext(anchor: Time, interval: nat, k: nat, q: nat)
    ensures SlotAt(anchor, interval, k) + q * interval * SECOND + interval * SECOND == anchor + ((k + q) * interval + interval) * SECOND
  {
    Distribute(k, q, interval);
    Associate(k, interval);
  }

  lemma Associate(k: nat, interval: nat)
    ensures k * Step(interval) == k * interval * SECOND
  {
  }

  lemma Closed(anchor: Time, interval: nat, now: Time, q: nat)
    requires interval > 0 && anchor <= now && q == (now - anchor) / Step(interval)
    requires Representable(anchor) && Representable(now)
    ensures var next := anchor + (q * interval + interval) * SECOND;
            NextSlotAfter(anchor, interval, now) == if Representable(next) then Ok(next) else Err(InvalidData)
  {
    Distribute(q, 1, interval);
  }

  lemma LatestClosed(cursor: Time, interval: nat, now: Time, q: nat)
    requires interval > 0 && cursor <= now && q == (now - cursor) / SECOND / interval
    requires q * interval * SECOND <= now - cursor && Representable(cursor) && Representable(now)
    ensures var slot := cursor + q * interval * SECOND;
            var next := slot + interval * SECOND;
            LatestDueSlot(cursor, interval, now) == if Representable(next) then Ok(Due(slot, next, q)) else Err(InvalidData)
  {
  }
}
