/** Shedding data under disk pressure (`enforce_capacity`), and what shedding can never touch. */
module SpoolCapacity {
  import opened Options
  import opened Sql
  import opened SpoolModel
  import opened SpoolInvariant

  const HOUR_MS: nat := 3_600_000
  const DAY_MS: nat := 86_400_000
  const FIVE_MINUTES: nat := 300_000
  const COMPACTION_SCAN_BATCH: nat := 6_000
  const EVICTION_BATCH: nat := 64
  const DROP_BATCH: nat := 1_000

  datatype Outcome = Outcome(compacted: nat, dropped: nat, evicted: nat)

  // ---- statements ---------------------------------------------------------------------------

  function RemoveSamples(db: Database, doomed: set<SampleId>): Database {
    db.(samples := db.samples - doomed)
  }

  /** DELETE FROM deliveries; the link tables cascade, samples and command results stay. */
  function RemoveDeliveries(db: Database, gone: set<ReportId>): Database {
    db.(deliveries := db.deliveries - gone,
        links := (set l | l in db.links && l.report !in gone),
        resultLinks := (set l | l in db.resultLinks && l.report !in gone))
  }

  function Candidates(db: Database, before: Option<nat>): set<SampleId> {
    match before
    case None => Unassigned(db)
    case Some(t) => UnassignedBefore(db, t)
  }

  /** The scanned samples that are not the newest of their bucket (`rank > 1`). */
  function Superseded(db: Database, scanned: set<SampleId>, width: nat): set<SampleId>
    requires width > 0 && scanned <= db.samples.Keys
  {
    set id | id in scanned
         && exists newer | newer in scanned ::
              && db.samples[newer].observedAt / width == db.samples[id].observedAt / width
              && db.samples[newer].observedAt > db.samples[id].observedAt
  }

  /** One compaction DELETE over the oldest unassigned samples. */
  ghost predicate Compacts(db: Database, db': Database, before: Option<nat>, width: nat, limit: nat,
                           scanned: seq<SampleId>, doomed: set<SampleId>)
    requires width > 0
  {
    && FirstByRank(Candidates(db, before), SampleRank(db), COMPACTION_SCAN_BATCH, scanned)
    && AnyUpTo(Superseded(db, Elements(scanned), width), limit, doomed)
    && db' == Compacted(db, doomed)
  }

  function Compacted(db: Database, doomed: set<SampleId>): Database {
    RemoveSamples(db, doomed).(ledger := db.ledger.(compacted := db.ledger.compacted + |doomed|))
  }

  function QuarantinedReports(db: Database): set<ReportId> {
    set r | r in db.deliveries && db.deliveries[r].state == Quarantined
  }

  ghost predicate Evicts(db: Database, db': Database, gone: seq<ReportId>) {
    && FirstByRank(QuarantinedReports(db), DeliveryRank(db), EVICTION_BATCH, gone)
    && db' == RemoveDeliveries(db, Elements(gone))
  }

  ghost predicate Drops(db: Database, db': Database, doomed: seq<SampleId>) {
    && FirstByRank(Unassigned(db), SampleRank(db), DROP_BATCH, doomed)
    && db' == Dropped(db, doomed)
  }

  /** The dropped samples are not recorded anywhere until the next statement has run. */
  function Dropped(db: Database, doomed: seq<SampleId>): Database {
    RemoveSamples(db, Elements(doomed)).(
      ledger := db.ledger.(dropped := db.ledger.dropped + |doomed|, unrecorded := db.ledger.unrecorded + |doomed|))
  }

  /** The upsert into `data_gaps`. */
  function RecordGap(db: Database, now: nat, n: nat): Database
    requires n <= db.ledger.unrecorded
  {
    var hour := now / HOUR_MS * HOUR_MS;
    var before := if hour in db.gaps then db.gaps[hour] else 0;
    db.(gaps := db.gaps[hour := before + n],
        ledger := db.ledger.(unrecorded := db.ledger.unrecorded - n))
  }

  // ---- each statement keeps the invariant ---------------------------------------------------

  /** Samples without an owner can go without disturbing any delivery. */
  lemma RemoveUnassignedKeeps(db: Database, doomed: set<SampleId>)
    requires Owns(db) && doomed <= Unassigned(db)
    ensures Owns(RemoveSamples(db, doomed))
    ensures |RemoveSamples(db, doomed).samples| == |db.samples| - |doomed|
  {
    var db' := RemoveSamples(db, doomed);
    assert db'.samples.Keys == db.samples.Keys - doomed;
    SubsetSizeLe(doomed, db.samples.Keys);
    assert forall l | l in db.links :: l.sample in Owned(db);
    UntouchedDeliveries(db, db');
  }

  /** Deliveries keep their contents when their own links and samples are still there. */
  lemma UntouchedDeliveries(db: Database, db': Database)
    requires DeliveriesKeyed(db) && PayloadsMatch(db)
    requires forall r | r in db'.deliveries :: r in db.deliveries && db'.deliveries[r] == db.deliveries[r]
    requires forall l | l in db.links && l.report in db'.deliveries ::
      l in db'.links && (l.sample in db.samples ==> l.sample in db'.samples && db'.samples[l.sample] == db.samples[l.sample])
    ensures DeliveriesKeyed(db') && PayloadsMatch(db')
  {
    forall r | r in db'.deliveries
      ensures OwnsSample(db', r) && forall s | Covers(db, r, s) :: Covers(db', r, s)
    {
      UntouchedDelivery(db, db', r);
    }
  }

  lemma UntouchedDelivery(db: Database, db': Database, r: ReportId)
    requires OwnsSample(db, r)
    requires forall l | l in db.links && l.report == r ::
      l in db'.links && (l.sample in db.samples ==> l.sample in db'.samples && db'.samples[l.sample] == db.samples[l.sample])
    ensures OwnsSample(db', r) && forall s | Covers(db, r, s) :: Covers(db', r, s)
  {
    var id :| SampleLink(r, id) in db.links;
    assert SampleLink(r, id) in db'.links;
    forall s | Covers(db, r, s) ensures Covers(db', r, s) {
      var id :| id in db.samples && SampleLink(r, id) in db.links && db.samples[id] == s;
      assert id in db'.samples && SampleLink(r, id) in db'.links;
    }
  }

  lemma RemoveDeliveriesKeeps(db: Database, gone: set<ReportId>)
    requires Owns(db)
    ensures Owns(RemoveDeliveries(db, gone))
  {
    UntouchedDeliveries(db, RemoveDeliveries(db, gone));
  }

  /** Removing unassigned samples and counting them keeps the invariant. */
  lemma SheddingKeeps(db: Database, db': Database, doomed: set<SampleId>)
    requires Inv(db) && doomed <= Unassigned(db)
    requires db' == RemoveSamples(db, doomed).(ledger := db'.ledger)
    requires db'.ledger.appended == db.ledger.appended
    requires db'.ledger.reported == db.ledger.reported && db'.ledger.parked == db.ledger.parked
    requires db'.ledger.compacted + db'.ledger.dropped == db.ledger.compacted + db.ledger.dropped + |doomed|
    requires db'.ledger.dropped - db'.ledger.unrecorded == db.ledger.dropped - db.ledger.unrecorded
    ensures Inv(db')
  {
    RemoveUnassignedKeeps(db, doomed);
    SameOwns(RemoveSamples(db, doomed), db');
  }

  lemma CompactsKeeps(db: Database, db': Database, before: Option<nat>, width: nat, limit: nat,
                      scanned: seq<SampleId>, doomed: set<SampleId>)
    requires Inv(db) && width > 0 && Compacts(db, db', before, width, limit, scanned, doomed)
    ensures Inv(db') && doomed <= Unassigned(db)
  {
    hide Inv;
    SheddingKeeps(db, db', doomed);
  }

  lemma EvictsKeeps(db: Database, db': Database, gone: seq<ReportId>)
    requires Inv(db) && Evicts(db, db', gone)
    ensures Inv(db')
  {
    RemoveDeliveriesKeeps(db, Elements(gone));
  }

  lemma DropsKeeps(db: Database, db': Database, doomed: seq<SampleId>)
    requires Inv(db) && Drops(db, db', doomed)
    ensures Inv(db')
  {
    hide Inv;
    DistinctSize(doomed);
    SheddingKeeps(db, db', Elements(doomed));
  }

  lemma RecordGapBalanced(db: Database, now: nat, n: nat)
    requires Balanced(db) && n <= db.ledger.unrecorded
    ensures Balanced(RecordGap(db, now, n))
  {
    GapTotalGrows(db.gaps, now / HOUR_MS * HOUR_MS, n);
  }

  lemma RecordGapKeeps(db: Database, now: nat, n: nat)
    requires Inv(db) && n <= db.ledger.unrecorded
    ensures Inv(RecordGap(db, now, n))
  {
    var db' := RecordGap(db, now, n);
    RecordGapBalanced(db, now, n);
    SameOwns(db, db');
    assert db'.results == db.results && db'.resultLinks == db.resultLinks && db'.commands == db.commands;
  }

  // ---- what shedding preserves --------------------------------------------------------------

  predicate NewestInBucket(db: Database, id: SampleId) {
    && id in Unassigned(db)
    && forall other | other in Unassigned(db)
         && db.samples[other].observedAt / FIVE_MINUTES == db.samples[id].observedAt / FIVE_MINUTES ::
         db.samples[other].observedAt <= db.samples[id].observedAt
  }

  /** Buckets of one minute or five minutes refine the five-minute buckets. */
  lemma SameFiveMinutes(a: nat, b: nat, width: nat)
    requires width == MINUTE || width == FIVE_MINUTES
    requires a / width == b / width
    ensures a / FIVE_MINUTES == b / FIVE_MINUTES
  {
    if width == MINUTE {
      assert a / FIVE_MINUTES == a / MINUTE / 5;
      assert b / FIVE_MINUTES == b / MINUTE / 5;
    }
  }

  /** However the scan limit and the row limit cut, the newest unassigned sample of a
      five-minute bucket survives a compaction pass and is still the newest. */
  lemma CompactionKeepsNewest(db: Database, db': Database, before: Option<nat>, width: nat, limit: nat,
                              scanned: seq<SampleId>, doomed: set<SampleId>, id: SampleId)
    requires width == MINUTE || width == FIVE_MINUTES
    requires Compacts(db, db', before, width, limit, scanned, doomed)
    requires NewestInBucket(db, id)
    ensures NewestInBucket(db', id)
  {
    if id in doomed {
      var newer :| newer in scanned
        && db.samples[newer].observedAt / width == db.samples[id].observedAt / width
        && db.samples[newer].observedAt > db.samples[id].observedAt;
      SameFiveMinutes(db.samples[newer].observedAt, db.samples[id].observedAt, width);
      assert false;
    }
    assert forall other | other in Unassigned(db') :: other in Unassigned(db) && db'.samples[other] == db.samples[other];
  }

  /** A pending delivery and everything it owns are out of reach of all four statements. */
  ghost predicate Untouched(db: Database, db': Database, r: ReportId) {
    && IsPending(db, r) && IsPending(db', r)
    && db'.deliveries[r] == db.deliveries[r]
    && OwnedBy(db', r) == OwnedBy(db, r)
    && ResultsOf(db', r) == ResultsOf(db, r)
    && forall id | id in OwnedBy(db, r) :: id in db.samples && id in db'.samples && db'.samples[id] == db.samples[id]
  }

  lemma SparesOwned(db: Database, db': Database, r: ReportId)
    requires LinksResolve(db) && IsPending(db, r)
    requires r in db'.deliveries && db'.deliveries[r] == db.deliveries[r]
    requires forall l: SampleLink | l.report == r :: l in db'.links <==> l in db.links
    requires forall l: CommandLink | l.report == r :: l in db'.resultLinks <==> l in db.resultLinks
    requires forall l | l in db.links && l.report == r && l.sample in db.samples ::
      l.sample in db'.samples && db'.samples[l.sample] == db.samples[l.sample]
    ensures Untouched(db, db', r)
  {
    forall id ensures id in OwnedBy(db, r) <==> id in OwnedBy(db', r) {
      assert SampleLink(r, id) in db.links <==> SampleLink(r, id) in db'.links;
    }
    forall c ensures c in ResultsOf(db, r) <==> c in ResultsOf(db', r) {
      assert CommandLink(r, c) in db.resultLinks <==> CommandLink(r, c) in db'.resultLinks;
    }
  }

  lemma RemoveUnassignedSpares(db: Database, doomed: set<SampleId>, ledger: Ledger, r: ReportId)
    requires LinksResolve(db) && IsPending(db, r) && doomed <= Unassigned(db)
    ensures Untouched(db, RemoveSamples(db, doomed).(ledger := ledger), r)
  {
    assert forall l | l in db.links :: l.sample in Owned(db);
    SparesOwned(db, RemoveSamples(db, doomed).(ledger := ledger), r);
  }

  lemma CompactsSparesPending(db: Database, db': Database, before: Option<nat>, width: nat, limit: nat,
                              scanned: seq<SampleId>, doomed: set<SampleId>, r: ReportId)
    requires LinksResolve(db) && IsPending(db, r)
    requires width > 0 && Compacts(db, db', before, width, limit, scanned, doomed)
    ensures Untouched(db, db', r)
  {
    RemoveUnassignedSpares(db, doomed, db'.ledger, r);
  }

  lemma EvictsSparesPending(db: Database, db': Database, gone: seq<ReportId>, r: ReportId)
    requires LinksResolve(db) && IsPending(db, r) && Evicts(db, db', gone)
    ensures Untouched(db, db', r)
  {
    assert r !in gone;
    SparesOwned(db, db', r);
  }

  lemma DropsSparesPending(db: Database, db': Database, doomed: seq<SampleId>, r: ReportId)
    requires LinksResolve(db) && IsPending(db, r) && Drops(db, db', doomed)
    ensures Untouched(db, db', r)
  {
    RemoveUnassignedSpares(db, Elements(doomed), db'.ledger, r);
  }

  // ---- the whole of enforce_capacity --------------------------------------------------------

  /** What the storage measurements say: used share of the budget, free disk below the reserve,
      and whether the budget is still exceeded after compaction. */
  datatype Pressure = Pressure(ratio: real, lowSpace: bool, full: bool)

  function SaturatingSub(a: nat, b: nat): nat { if a < b then 0 else a - b }

  ghost predicate CompactsIf(condition: bool, db: Database, db': Database, before: Option<nat>, width: nat, limit: nat)
    requires width > 0
  {
    if condition then exists scanned, doomed :: Compacts(db, db', before, width, limit, scanned, doomed)
    else db' == db
  }

  ghost predicate EvictsAndDrops(db: Database, evicted: Database, dropped: Database, gone: seq<ReportId>, doomed: seq<SampleId>) {
    Evicts(db, evicted, gone) && Drops(evicted, dropped, doomed)
  }

  /** The databases between the statements of one call. */
  datatype Stages = Stages(first: Database, second: Database, third: Database, evicted: Database, dropped: Database)

  ghost predicate Compactions(db: Database, first: Database, second: Database, third: Database, pressure: Pressure, now: nat) {
    && CompactsIf(true, db, first, Some(SaturatingSub(now, DAY_MS)), MINUTE, 1000)
    && CompactsIf(pressure.ratio >= 0.85 || pressure.lowSpace,
                  first, second, Some(SaturatingSub(now, 7 * DAY_MS)), FIVE_MINUTES, 1000)
    && CompactsIf(pressure.ratio >= 0.95, second, third, None, FIVE_MINUTES, 5000)
  }

  ghost predicate Purges(db: Database, afterEvict: Database, afterDrop: Database) {
    exists gone, doomed :: EvictsAndDrops(db, afterEvict, afterDrop, gone, doomed)
  }

  ghost predicate Relieves(db: Database, db': Database, now: nat, dropped: nat, evicted: nat,
                           afterEvict: Database, afterDrop: Database)
  {
    && Purges(db, afterEvict, afterDrop)
    && evicted == |db.deliveries| - |afterEvict.deliveries|
    && dropped == afterDrop.ledger.dropped - db.ledger.dropped
    && dropped <= afterDrop.ledger.unrecorded
    && db' == if dropped > 0 then RecordGap(afterDrop, now, dropped) else afterDrop
  }

  ghost predicate Enforces(db: Database, db': Database, pressure: Pressure, now: nat, outcome: Outcome, stages: Stages) {
    if pressure.ratio < 0.70 && !pressure.lowSpace then
      db' == db && outcome == Outcome(0, 0, 0)
    else
      && Compactions(db, stages.first, stages.second, stages.third, pressure, now)
      && outcome.compacted == stages.third.ledger.compacted - db.ledger.compacted
      && if pressure.full
         then Relieves(stages.third, db', now, outcome.dropped, outcome.evicted, stages.evicted, stages.dropped)
         else db' == stages.third && outcome.dropped == 0 && outcome.evicted == 0
  }

  lemma EnforcedByNothing(db: Database, pressure: Pressure, now: nat, stages: Stages)
    requires pressure.ratio < 0.70 && !pressure.lowSpace
    ensures Enforces(db, db, pressure, now, Outcome(0, 0, 0), stages)
  {
  }

  lemma EnforcedByCompaction(db: Database, db': Database, pressure: Pressure, now: nat, compacted: nat, stages: Stages)
    requires pressure.ratio >= 0.70 || pressure.lowSpace
    requires Compactions(db, stages.first, stages.second, stages.third, pressure, now) && stages.third == db'
    requires compacted == db'.ledger.compacted - db.ledger.compacted && !pressure.full
    ensures Enforces(db, db', pressure, now, Outcome(compacted, 0, 0), stages)
  {
    hide Compactions;
  }

  lemma EnforcedByRelief(db: Database, db': Database, pressure: Pressure, now: nat, outcome: Outcome, stages: Stages)
    requires (pressure.ratio >= 0.70 || pressure.lowSpace) && pressure.full
    requires Compactions(db, stages.first, stages.second, stages.third, pressure, now)
    requires outcome.compacted == stages.third.ledger.compacted - db.ledger.compacted
    requires Relieves(stages.third, db', now, outcome.dropped, outcome.evicted, stages.evicted, stages.dropped)
    ensures Enforces(db, db', pressure, now, outcome, stages)
  {
    hide Compactions, Relieves;
  }

  /** The newest unassigned sample of every five-minute bucket outlives the compaction passes. */
  lemma CompactionsKeepNewest(db: Database, first: Database, second: Database, third: Database,
                              pressure: Pressure, now: nat, id: SampleId)
    requires Compactions(db, first, second, third, pressure, now) && NewestInBucket(db, id)
    ensures NewestInBucket(third, id)
  {
    CompactsIfKeepsNewest(true, db, first, Some(SaturatingSub(now, DAY_MS)), MINUTE, 1000, id);
    CompactsIfKeepsNewest(pressure.ratio >= 0.85 || pressure.lowSpace,
                          first, second, Some(SaturatingSub(now, 7 * DAY_MS)), FIVE_MINUTES, 1000, id);
    CompactsIfKeepsNewest(pressure.ratio >= 0.95, second, third, None, FIVE_MINUTES, 5000, id);
  }

  lemma CompactsIfKeepsNewest(condition: bool, db: Database, db': Database, before: Option<nat>, width: nat, limit: nat,
                              id: SampleId)
    requires width == MINUTE || width == FIVE_MINUTES
    requires CompactsIf(condition, db, db', before, width, limit) && NewestInBucket(db, id)
    ensures NewestInBucket(db', id)
  {
    if condition {
      var scanned, doomed :| Compacts(db, db', before, width, limit, scanned, doomed);
      CompactionKeepsNewest(db, db', before, width, limit, scanned, doomed, id);
    }
  }

  // ---- the statements of one call -----------------------------------------------------------

  datatype Shed =
    | CompactPass(before: Option<nat>, width: nat, limit: nat, scanned: seq<SampleId>, doomed: set<SampleId>)
    | EvictPass(gone: seq<ReportId>)
    | DropPass(oldest: seq<SampleId>)
    | GapPass(now: nat, n: nat)

  ghost predicate Sheds(db: Database, db': Database, shed: Shed) {
    match shed
    case CompactPass(before, width, limit, scanned, doomed) =>
      width > 0 && Compacts(db, db', before, width, limit, scanned, doomed)
    case EvictPass(gone) => Evicts(db, db', gone)
    case DropPass(oldest) => Drops(db, db', oldest)
    case GapPass(now, n) => 0 < n <= db.ledger.unrecorded && db' == RecordGap(db, now, n)
  }

  /** What a statement records of the samples just dropped: `dropped_samples` of the new row. */
  function Recorded(shed: Shed): nat { if shed.GapPass? then shed.n else 0 }

  function Lost(shed: Shed): nat { if shed.DropPass? then |shed.oldest| else 0 }

  /** The statements that ran, and the databases before, between and after them. */
  datatype Trace = Trace(dbs: seq<Database>, done: seq<Shed>)

  /** The samples dropped by the last statement, which nothing has recorded yet. */
  function StillOpen(done: seq<Shed>): nat { if done == [] then 0 else Lost(done[|done| - 1]) }

  /** The statements lead from one database to the other, each record right after its drop and
      for all of it. */
  ghost predicate Runs(t: Trace, db: Database, db': Database) {
    && |t.dbs| == |t.done| + 1 && t.dbs[0] == db && t.dbs[|t.done|] == db'
    && forall i | 0 <= i < |t.done| :: Sheds(t.dbs[i], t.dbs[i + 1], t.done[i]) && Recorded(t.done[i]) == StillOpen(t.done[..i])
  }

  function Untraced(db: Database): Trace { Trace([db], []) }

  function Then(t: Trace, shed: Shed, db: Database): Trace { Trace(t.dbs + [db], t.done + [shed]) }

  lemma RunsOn(t: Trace, db: Database, mid: Database, shed: Shed, db': Database)
    requires Runs(t, db, mid) && Sheds(mid, db', shed) && Recorded(shed) == StillOpen(t.done)
    ensures Runs(Then(t, shed, db'), db, db') && StillOpen(Then(t, shed, db').done) == Lost(shed)
  {
    hide Sheds, StillOpen;
    var t' := Then(t, shed, db');
    assert t'.done[..|t.done|] == t.done;
    forall i | 0 <= i < |t.done|
      ensures Sheds(t'.dbs[i], t'.dbs[i + 1], t'.done[i]) && Recorded(t'.done[i]) == StillOpen(t'.done[..i])
    {
      assert t'.done[..i] == t.done[..i];
    }
    assert StillOpen(t'.done) == Lost(shed) by { LastIsOpen(t.done, shed); }
  }

  lemma LastIsOpen(done: seq<Shed>, shed: Shed)
    ensures StillOpen(done + [shed]) == Lost(shed)
  {
  }

  // ---- what a whole call spares -------------------------------------------------------------

  /** Shedding left the spool consistent and every pending delivery whole. */
  ghost predicate Spares(db: Database, db': Database) {
    && Inv(db')
    && forall r | IsPending(db, r) :: Untouched(db, db', r)
  }

  lemma SparesItself(db: Database)
    requires Inv(db)
    ensures Spares(db, db)
  {
    assert forall r | IsPending(db, r) :: Untouched(db, db, r) by {
      assert forall l | l in db.links :: l.sample in db.samples;
    }
  }

  lemma SparesTransitive(a: Database, b: Database, c: Database)
    requires Spares(a, b) && Spares(b, c)
    ensures Spares(a, c)
  {
    hide Inv;
    forall r | IsPending(a, r) ensures Untouched(a, c, r) {
      assert Untouched(a, b, r) && Untouched(b, c, r);
    }
  }

  lemma CompactsSpares(db: Database, db': Database, before: Option<nat>, width: nat, limit: nat,
                       scanned: seq<SampleId>, doomed: set<SampleId>)
    requires Inv(db) && width > 0 && Compacts(db, db', before, width, limit, scanned, doomed)
    ensures Spares(db, db')
  {
    assert LinksResolve(db);
    CompactsKeeps(db, db', before, width, limit, scanned, doomed);
    forall r | IsPending(db, r) ensures Untouched(db, db', r) {
      CompactsSparesPending(db, db', before, width, limit, scanned, doomed, r);
    }
  }

  lemma EvictsSpares(db: Database, db': Database, gone: seq<ReportId>)
    requires Inv(db) && Evicts(db, db', gone)
    ensures Spares(db, db')
  {
    assert LinksResolve(db);
    EvictsKeeps(db, db', gone);
    forall r | IsPending(db, r) ensures Untouched(db, db', r) {
      EvictsSparesPending(db, db', gone, r);
    }
  }

  lemma DropsSpares(db: Database, db': Database, doomed: seq<SampleId>)
    requires Inv(db) && Drops(db, db', doomed)
    ensures Spares(db, db')
  {
    assert LinksResolve(db);
    DropsKeeps(db, db', doomed);
    forall r | IsPending(db, r) ensures Untouched(db, db', r) {
      DropsSparesPending(db, db', doomed, r);
    }
  }

  lemma RecordGapSpares(db: Database, now: nat, n: nat)
    requires Inv(db) && n <= db.ledger.unrecorded
    ensures Spares(db, RecordGap(db, now, n))
  {
    assert LinksResolve(db);
    RecordGapKeeps(db, now, n);
    forall r | IsPending(db, r) ensures Untouched(db, RecordGap(db, now, n), r) {
      SparesOwned(db, RecordGap(db, now, n), r);
    }
  }

  /** Eviction frees the samples and command results of a quarantined delivery: they are
      unassigned again and will go into a later report. */
  lemma EvictionFrees(db: Database, db': Database, gone: seq<ReportId>, r: ReportId)
    requires Inv(db) && Evicts(db, db', gone) && r in gone
    ensures r !in db'.deliveries
    ensures OwnedBy(db, r) <= Unassigned(db')
    ensures ResultsOf(db, r) <= UnassignedResults(db')
    ensures db'.probes == db.probes
  {
    forall id | id in OwnedBy(db, r) ensures id in Unassigned(db') {
      assert SampleLink(r, id) in db.links;
      assert forall l | l in db.links && l.sample == id :: l.report == r;
    }
    forall c | c in ResultsOf(db, r) ensures c in UnassignedResults(db') {
      assert CommandLink(r, c) in db.resultLinks;
      assert forall l | l in db.resultLinks && l.command == c :: l.report == r;
    }
  }

  // ---- acknowledging a delivery -------------------------------------------------------------

  /** In a consistent spool no foreign key can stop `acknowledge`: what the delivery owns is
      linked to nothing else.  It owns a sample exactly when it exists, so the returned flag is
      true exactly then. */
  lemma AcknowledgeUnhindered(db: Database, r: ReportId)
    requires Inv(db)
    ensures forall l | l in db.links && l.report != r :: l.sample !in OwnedBy(db, r)
    ensures forall l | l in db.resultLinks && l.report != r :: l.command !in ResultsOf(db, r)
    ensures OwnedBy(db, r) <= db.samples.Keys && ResultsOf(db, r) <= db.results.Keys
    ensures OwnedBy(db, r) != {} <==> r in db.deliveries
  {
    if r in db.deliveries {
      var id :| SampleLink(r, id) in db.links by { assert OwnsSample(db, r); }
      assert id in OwnedBy(db, r);
    }
  }

  /** DELETE of command results and of the completed commands they belong to. */
  function RemoveResults(db: Database, done: set<CommandId>): Database {
    db.(results := db.results - done,
        commands := (map c | c in db.commands && !(c in done && db.commands[c] == CommandCompleted) :: db.commands[c]))
  }

  lemma AcknowledgeInSteps(db: Database, r: ReportId)
    requires LinksResolve(db)
    ensures Acknowledge(db, r)
         == RemoveResults(RemoveSamples(RemoveDeliveries(db, {r}), OwnedBy(db, r)), ResultsOf(db, r)).(ledger := Settled(db, r))
  {
    hide OwnedBy, ResultsOf, LinksResolve, Settled;
    AcknowledgedDeliveries(db, r);
    AcknowledgedResultLinks(db, r);
  }

  lemma AcknowledgedDeliveries(db: Database, r: ReportId)
    ensures RemoveDeliveries(db, {r}).deliveries == Acknowledge(db, r).deliveries
    ensures RemoveDeliveries(db, {r}).links == Acknowledge(db, r).links
  {
    hide OwnedBy, ResultsOf, Settled;
  }

  lemma AcknowledgedResultLinks(db: Database, r: ReportId)
    ensures RemoveDeliveries(db, {r}).resultLinks == Acknowledge(db, r).resultLinks
  {
    hide OwnedBy, ResultsOf, Settled;
  }

  lemma RemoveSamplesStep(db: Database, a: set<SampleId>, id: SampleId)
    ensures RemoveSamples(db, {}) == db
    ensures RemoveSamples(RemoveSamples(db, a), {id}) == RemoveSamples(db, a + {id})
  {
  }

  lemma RemoveResultsStep(db: Database, a: set<CommandId>, c: CommandId)
    ensures RemoveResults(db, {}) == db
    ensures RemoveResults(RemoveResults(db, a), {c}) == RemoveResults(db, a + {c})
  {
    var two, one := RemoveResults(RemoveResults(db, a), {c}), RemoveResults(db, a + {c});
    assert two.results == one.results;
    assert two.commands == one.commands;
    assert RemoveResults(db, {}).commands == db.commands;
  }

  lemma AcknowledgedAreUnassigned(db: Database, r: ReportId)
    requires LinksResolve(db) && OwnedOnce(db)
    ensures OwnedBy(db, r) <= Unassigned(RemoveDeliveries(db, {r}))
    ensures db.samples.Keys * OwnedBy(db, r) == OwnedBy(db, r)
  {
    forall id | id in OwnedBy(db, r) ensures id in Unassigned(RemoveDeliveries(db, {r})) {
      assert SampleLink(r, id) in db.links;
      assert forall l | l in db.links && l.sample == id :: l.report == r;
    }
  }

  lemma AcknowledgeOwns(db: Database, r: ReportId)
    requires Owns(db)
    ensures Owns(Acknowledge(db, r))
    ensures |Acknowledge(db, r).samples| == |db.samples| - |OwnedBy(db, r)|
  {
    hide Acknowledge, OwnedBy, ResultsOf, Unassigned, LinksResolve, OwnedOnce, OwnedInMinute, DeliveriesKeyed, SamplesKeyed,
         PayloadsMatch;
    var without := RemoveDeliveries(db, {r});
    RemoveDeliveriesKeeps(db, {r});
    AcknowledgedAreUnassigned(db, r);
    RemoveUnassignedKeeps(without, OwnedBy(db, r));
    AcknowledgeInSteps(db, r);
    SameOwns(RemoveSamples(without, OwnedBy(db, r)), Acknowledge(db, r));
  }

  lemma AcknowledgeResults(db: Database, r: ReportId)
    requires ResultsOwnedOnce(db)
    ensures ResultsOwnedOnce(Acknowledge(db, r))
  {
    assert forall l | l in db.resultLinks && l.report == r :: l.command in ResultsOf(db, r);
  }

  /** Both kinds of samples taken along are all that the delivery owns. */
  lemma TakenAlongCounts(db: Database, r: ReportId)
    requires LinksResolve(db)
    ensures |TakenAlong(db, r, true)| + |TakenAlong(db, r, false)| == |OwnedBy(db, r)|
    ensures TakenAlong(db, r, true).Keys !! TakenAlong(db, r, false).Keys
    ensures TakenAlong(db, r, true).Keys + TakenAlong(db, r, false).Keys == OwnedBy(db, r) <= db.samples.Keys
  {
    hide InPayload;
    var yes, no := TakenAlong(db, r, true), TakenAlong(db, r, false);
    assert forall id | id in OwnedBy(db, r) :: SampleLink(r, id) in db.links;
    assert yes.Keys + no.Keys == OwnedBy(db, r);
    assert |yes.Keys + no.Keys| == |yes.Keys| + |no.Keys|;
  }

  lemma MergedSize<K, V>(a: map<K, V>, b: map<K, V>)
    requires a.Keys !! b.Keys
    ensures |a + b| == |a| + |b|
  {
    assert (a + b).Keys == a.Keys + b.Keys;
  }

  lemma AcknowledgedAccount(db: Database, r: ReportId)
    ensures var db' := Acknowledge(db, r);
      && db'.samples.Keys == db.samples.Keys - OwnedBy(db, r) && db'.nextSampleId == db.nextSampleId
      && db'.gaps == db.gaps && db'.ledger == Settled(db, r)
  {
    hide OwnedBy, ResultsOf, Settled;
  }

  /** Merging what goes into the account of what went. */
  lemma SettledSize(db: Database, r: ReportId)
    requires Departed(db) && LinksResolve(db)
    ensures var after := Settled(db, r);
      && |after.reported| + |after.parked| == |db.ledger.reported| + |db.ledger.parked| + |OwnedBy(db, r)|
      && after.reported.Keys == db.ledger.reported.Keys + TakenAlong(db, r, true).Keys
      && after.parked.Keys == db.ledger.parked.Keys + TakenAlong(db, r, false).Keys
      && after == db.ledger.(reported := after.reported, parked := after.parked)
  {
    hide OwnedBy, LinksResolve, TakenAlong;
    TakenAlongCounts(db, r);
    MergedSize(db.ledger.reported, TakenAlong(db, r, true));
    MergedSize(db.ledger.parked, TakenAlong(db, r, false));
  }

  lemma DepartedAfter(db: Database, db': Database, reported: set<SampleId>, parked: set<SampleId>)
    requires Departed(db) && SamplesKeyed(db)
    requires reported !! parked && reported + parked <= db.samples.Keys
    requires db'.samples.Keys == db.samples.Keys - (reported + parked) && db'.nextSampleId == db.nextSampleId
    requires db'.ledger.reported.Keys == db.ledger.reported.Keys + reported
    requires db'.ledger.parked.Keys == db.ledger.parked.Keys + parked
    ensures Departed(db')
  {
    forall id | id in db'.ledger.reported ensures id < db'.nextSampleId && id !in db'.samples && id !in db'.ledger.parked {
      assert id in db'.ledger.reported.Keys;
    }
    forall id | id in db'.ledger.parked ensures id < db'.nextSampleId && id !in db'.samples {
      assert id in db'.ledger.parked.Keys;
    }
  }

  lemma AcknowledgeBalanced(db: Database, r: ReportId)
    requires Balanced(db) && LinksResolve(db) && SamplesKeyed(db)
    requires |Acknowledge(db, r).samples| == |db.samples| - |OwnedBy(db, r)|
    ensures Balanced(Acknowledge(db, r))
  {
    hide Acknowledge, OwnedBy, LinksResolve, TakenAlong, GapTotal, Departed, SamplesKeyed, Settled;
    TakenAlongCounts(db, r);
    SettledSize(db, r);
    AcknowledgedAccount(db, r);
    DepartedAfter(db, Acknowledge(db, r), TakenAlong(db, r, true).Keys, TakenAlong(db, r, false).Keys);
  }

  lemma AcknowledgeKeeps(db: Database, r: ReportId)
    requires Inv(db)
    ensures Inv(Acknowledge(db, r))
  {
    hide Acknowledge, ResultsOwnedOnce, Balanced, OwnedOnce, OwnedInMinute, DeliveriesKeyed, PayloadsMatch;
    AcknowledgeOwns(db, r);
    AcknowledgeResults(db, r);
    AcknowledgeBalanced(db, r);
  }
}
