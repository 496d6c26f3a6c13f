/** Why the parking loop of `create_next_delivery` computes `ParkBefore`, one minute at a time. */
module SpoolCreation {
  import opened Sql
  import opened SpoolModel
  import opened SpoolInvariant

  /** After parking, exactly the samples of the minutes from `bound` on are unassigned. */
  lemma UnassignedAfterParking(db: Database, bound: nat)
    requires AllHaveDelivery(db, bound)
    ensures Unassigned(ParkBefore(db, bound)) == set id | id in Unassigned(db) && MinuteOf(db, id) >= bound
  {
    var parked := ParkBefore(db, bound);
    assert Owned(db) <= Owned(parked);
    forall id | id in Unassigned(db) && MinuteOf(db, id) < bound ensures id in Owned(parked) {
      assert MinuteOf(db, id) in OpenMinutes(db, bound);
      var r :| r in db.deliveries && db.deliveries[r].minute == MinuteOf(db, id);
      assert SampleLink(r, id) in parked.links;
    }
    forall id | id in Unassigned(db) && MinuteOf(db, id) >= bound ensures id !in Owned(parked) {
    }
  }

  /** The unassigned samples of one minute, by their minute rather than by their time. */
  lemma UnassignedInMinute(db: Database, minute: nat)
    requires minute % MINUTE == 0
    ensures UnassignedIn(db, minute) == set id | id in Unassigned(db) && MinuteOf(db, id) == minute
  {
    forall id | id in Unassigned(db)
      ensures MinuteOf(db, id) == minute <==> minute <= db.samples[id].observedAt < minute + MINUTE
    {
      FloorMinuteIs(db.samples[id].observedAt, minute);
    }
  }

  /** No unassigned sample lies strictly between the parked minutes and `minute`. */
  ghost predicate NextOpenMinute(db: Database, bound: nat, minute: nat) {
    && minute % MINUTE == 0 && bound <= minute
    && (exists id | id in Unassigned(db) :: MinuteOf(db, id) == minute)
    && forall id | id in Unassigned(db) && MinuteOf(db, id) >= bound :: MinuteOf(db, id) >= minute
  }

  lemma MinutesAreApart(a: nat, b: nat)
    requires a % MINUTE == 0 && b % MINUTE == 0
    ensures a < b + MINUTE <==> a <= b
  {
  }

  lemma NextMinuteIsWhole(m: nat)
    requires m % MINUTE == 0
    ensures (m + MINUTE) % MINUTE == 0
  {
  }

  lemma ParkOneMore(db: Database, bound: nat, minute: nat, r: ReportId)
    requires DeliveriesKeyed(db) && AllHaveDelivery(db, bound) && NextOpenMinute(db, bound, minute)
    requires r in db.deliveries && db.deliveries[r].minute == minute
    ensures Park(ParkBefore(db, bound), minute, r) == ParkBefore(db, minute + MINUTE)
  {
    var parked := ParkBefore(db, bound);
    UnassignedAfterParking(db, bound);
    UnassignedInMinute(parked, minute);
    var next := ParkBefore(db, minute + MINUTE);
    forall l ensures l in Park(parked, minute, r).links <==> l in next.links {
      if l.sample in Unassigned(db) && l.report in db.deliveries
         && db.deliveries[l.report].minute == MinuteOf(db, l.sample)
      {
        MinutesAreApart(MinuteOf(db, l.sample), minute);
      }
    }
  }

  lemma OneMoreOpenMinute(db: Database, bound: nat, minute: nat)
    requires NextOpenMinute(db, bound, minute)
    ensures OpenMinutes(db, minute + MINUTE) == OpenMinutes(db, bound) + {minute}
    ensures minute !in OpenMinutes(db, bound)
  {
    forall id | id in Unassigned(db)
      ensures MinuteOf(db, id) < minute + MINUTE <==> MinuteOf(db, id) < bound || MinuteOf(db, id) == minute
    {
      MinutesAreApart(MinuteOf(db, id), minute);
    }
  }

  lemma NothingBetween(db: Database, bound: nat, minute: nat)
    requires AllHaveDelivery(db, bound) && bound <= minute
    requires forall id | id in Unassigned(db) && MinuteOf(db, id) >= bound :: MinuteOf(db, id) >= minute
    ensures OpenMinutes(db, minute) == OpenMinutes(db, bound)
    ensures AllHaveDelivery(db, minute)
    ensures ParkBefore(db, minute) == ParkBefore(db, bound)
  {
    assert forall id | id in Unassigned(db) :: MinuteOf(db, id) < minute <==> MinuteOf(db, id) < bound;
    assert ParkBefore(db, minute).links == ParkBefore(db, bound).links;
  }

  /** A sample is older than a whole minute exactly when its own minute is. */
  lemma OlderThanMinute(t: nat, m: nat)
    requires m % MINUTE == 0
    ensures t < m <==> FloorMinute(t) < m
  {
  }

  lemma NoneParkedAtFirst(db: Database)
    ensures ParkBefore(db, 0) == db && OpenMinutes(db, 0) == {} && AllHaveDelivery(db, 0)
  {
  }

  /** Parking uses up unassigned samples, so the loop ends. */
  lemma ParkShrinks(db: Database, minute: nat, r: ReportId, t: nat, id: SampleId)
    requires minute % MINUTE == 0 && minute + MINUTE <= t
    requires id in Unassigned(db) && MinuteOf(db, id) == minute
    ensures UnassignedBefore(Park(db, minute, r), t) < UnassignedBefore(db, t)
  {
    var after := Park(db, minute, r);
    FloorMinuteIs(db.samples[id].observedAt, minute);
    assert SampleLink(r, id) in after.links;
    assert id in UnassignedBefore(db, t) && id !in UnassignedBefore(after, t);
    assert Owned(db) <= Owned(after);
  }

  /** When no report is built before the cap of 256 minutes, no unassigned sample of a closed minute
      is left. */
  lemma NothingLeftToReport(db: Database, db': Database, now: nat, bound: nat)
    requires CreatesNothing(db, db', now, bound) && |OpenMinutes(db, bound)| < 256
    ensures UnassignedBefore(db', FloorMinute(now)) == {}
  {
    hide AllHaveDelivery, OpenMinutes, ParkBefore;
    UnassignedAfterParking(db, bound);
    forall id | id in Unassigned(db') ensures db'.samples[id].observedAt >= FloorMinute(now) {
      SamplesStayParked(db, bound);
      OlderThanMinute(db.samples[id].observedAt, bound);
    }
  }

  lemma SamplesStayParked(db: Database, bound: nat)
    ensures ParkBefore(db, bound).samples == db.samples
  {
  }
}
