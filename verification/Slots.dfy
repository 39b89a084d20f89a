/** The slot arithmetic of recurring schedules: two closed forms, one in whole seconds from a due
    cursor, one in nanoseconds from an anchor.
  */
module Slots {
  import opened Rows

  /** OffsetDateTime covers the years -9999 to 9999. */
  const MIN_TIME: int := -377_705_116_800 * SECOND
  const MAX_TIME: int := 253_402_300_800 * SECOND - 1

  const I64_MAX: int := 0x7FFF_FFFF_FFFF_FFFF
  const U64_MAX: int := 0xFFFF_FFFF_FFFF_FFFF

  const MIN_INTERVAL: nat := 60
  const MAX_INTERVAL: nat := 31_536_000

  predicate Representable(t: Time) {
    MIN_TIME <= t <= MAX_TIME
  }

  predicate ValidInterval(interval: nat) {
    MIN_INTERVAL <= interval <= MAX_INTERVAL
  }

  datatype Due = Due(slot: Time, next: Time, coalesced: nat)

  /** The latest slot at or before `now`, counted in whole seconds from a cursor that is due. */
  function LatestDueSlot(cursor: Time, interval: nat, now: Time): (r: Result<Due>)
    requires interval > 0
  {
    if cursor > now then Err(InvalidData)
    else
      var elapsed := (now - cursor) / SECOND;
      var coalesced := elapsed / interval;
      if coalesced * interval > I64_MAX then Err(InvalidData)
      else
        var slot := cursor + coalesced * interval * SECOND;
        if !Representable(slot) then Err(InvalidData)
        else
          var next := slot + interval * SECOND;
          if !Representable(next) then Err(InvalidData)
          else Ok(Due(slot, next, coalesced))
  }

  /** The least slot after `now` on the grid of an anchor, counted in nanoseconds. */
  function NextSlotAfter(anchor: Time, interval: nat, now: Time): (r: Result<Time>)
    requires interval > 0
  {
    if anchor > now then Ok(anchor)
    else
      var steps := (now - anchor) / (interval * SECOND) + 1;
      if steps * interval > I64_MAX then Err(InvalidData)
      else
        var next := anchor + steps * interval * SECOND;
        if !Representable(next) then Err(InvalidData) else Ok(next)
  }
}
