/**
 * The conflict detector of POST /bookings: the predicate the handler hands
 * to `bookings.find` to look for an existing booking that the requested
 * slot collides with.
 */
module Conflict {
  import opened TimeOrder
  import opened Entities

  /** A requested slot: a room, a date and a time range. */
  datatype Slot = Slot(roomId: int, date: string, startTime: string, endTime: string)

  function SlotOf(b: Booking): Slot {
    Slot(b.roomId, b.date, b.startTime, b.endTime)
  }

  /**
   * The handler's test, disjunct for disjunct: same room, same date, and the
   * requested start inside the existing range, or the requested end inside
   * it, or the requested range covering it.
   */
  predicate Clashes(existing: Booking, slot: Slot) {
    existing.roomId == slot.roomId
    && existing.date == slot.date
    && (   (!Less(slot.startTime, existing.startTime) && Less(slot.startTime, existing.endTime))
        || (Less(existing.startTime, slot.endTime) && !Less(existing.endTime, slot.endTime))
        || (!Less(existing.startTime, slot.startTime) && !Less(slot.endTime, existing.endTime)))
  }

  /** A time range whose start comes before its end. The handler does not check this. */
  predicate WellFormed(startTime: string, endTime: string) {
    Less(startTime, endTime)
  }

  /** The half-open ranges [s1, e1) and [s2, e2) share an instant. */
  predicate Intersect(s1: string, e1: string, s2: string, e2: string) {
    Less(s1, e2) && Less(s2, e1)
  }

  /**
   * For well-formed ranges the three-disjunct test is exactly half-open
   * intersection on the same room and date.
   */
  lemma ClashesIffIntersect(existing: Booking, slot: Slot)
    requires WellFormed(existing.startTime, existing.endTime)
    requires WellFormed(slot.startTime, slot.endTime)
    ensures Clashes(existing, slot) <==>
              existing.roomId == slot.roomId && existing.date == slot.date
              && Intersect(slot.startTime, slot.endTime, existing.startTime, existing.endTime)
  {
    var s, e, bs, be := slot.startTime, slot.endTime, existing.startTime, existing.endTime;
    LessTrichotomous(s, bs);
    LessTrichotomous(e, be);
    LessTrichotomous(s, be);
    LessTrichotomous(e, bs);
    if !Less(s, bs) && Less(s, be) {
      // the start lies inside: the end lies after the existing start
      if s == bs { } else { LessTransitive(bs, s, e); }
    }
    if Less(bs, e) && !Less(be, e) {
      // the end lies inside: the start lies before the existing end
      if e == be { } else { LessTransitive(s, e, be); }
    }
    if !Less(bs, s) && !Less(e, be) {
      // the requested range covers the existing one
      if s == bs { } else { LessTransitive(s, bs, be); }
      if e == be { } else { LessTransitive(bs, be, e); }
    }
    if Less(s, bs) && Less(be, e) {
      // a range that starts before and ends after the existing one covers it
      LessAsymmetric(s, bs);
      LessAsymmetric(be, e);
    }
  }

  /** Back-to-back slots on the same room and date are not a conflict. */
  lemma AdjacentSlotsDoNotClash(existing: Booking, slot: Slot)
    requires WellFormed(existing.startTime, existing.endTime)
    requires WellFormed(slot.startTime, slot.endTime)
    requires slot.startTime == existing.endTime || slot.endTime == existing.startTime
    ensures !Clashes(existing, slot)
  {
    ClashesIffIntersect(existing, slot);
    if slot.startTime == existing.endTime {
      LessIrreflexive(slot.startTime);
    } else {
      LessIrreflexive(slot.endTime);
    }
  }
}
