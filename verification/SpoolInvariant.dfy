/** The invariant every spool operation keeps. */
module SpoolInvariant {
  import opened Options
  import opened Sql
  import opened SpoolModel

  /** Both foreign keys of `delivery_samples` point at existing rows. */
  ghost predicate LinksResolve(db: Database) {
    forall l | l in db.links :: l.report in db.deliveries && l.sample in db.samples
  }

  /** A sample belongs to at most one delivery.  The table's primary key does not say so. */
  ghost predicate OwnedOnce(db: Database) {
    forall l, l' | l in db.links && l' in db.links && l.sample == l'.sample :: l.report == l'.report
  }

  ghost predicate OwnedInMinute(db: Database)
    requires LinksResolve(db)
  {
    forall l | l in db.links :: MinuteOf(db, l.sample) == db.deliveries[l.report].minute
  }

  ghost predicate OwnsSample(db: Database, r: ReportId) {
    exists id :: SampleLink(r, id) in db.links
  }

  /** Minutes are unique and whole, and no delivery is without a sample. */
  ghost predicate DeliveriesKeyed(db: Database) {
    && (forall r, r' | r in db.deliveries && r' in db.deliveries
          && db.deliveries[r].minute == db.deliveries[r'].minute :: r == r')
    && (forall r | r in db.deliveries :: db.deliveries[r].minute % MINUTE == 0)
    && (forall r | r in db.deliveries :: OwnsSample(db, r))
  }

  ghost predicate SamplesKeyed(db: Database) {
    && (forall id | id in db.samples :: id < db.nextSampleId)
    && (forall id, id' | id in db.samples && id' in db.samples
          && db.samples[id].observedAt == db.samples[id'].observedAt :: id == id')
  }

  /** A command result exists only for a completed command and is in at most one delivery. */
  ghost predicate ResultsOwnedOnce(db: Database) {
    && (forall c | c in db.results :: c in db.commands && db.commands[c] == CommandCompleted)
    && (forall l | l in db.resultLinks :: l.report in db.deliveries && l.command in db.results)
    && (forall l, l' | l in db.resultLinks && l' in db.resultLinks && l.command == l'.command :: l.report == l'.report)
  }

  /** The order and range a stored report keeps; what the server checks of it. */
  ghost predicate WellFormedReport(report: Report) {
    && report.minute % MINUTE == 0
    && 1 <= |report.samples| <= MAX_REPORT_SAMPLES
    && (forall i, j | 0 <= i < j < |report.samples| :: report.samples[i].observedAt < report.samples[j].observedAt)
    && (forall i | 0 <= i < |report.samples| ::
          report.minute <= report.samples[i].observedAt < report.minute + MINUTE)
  }

  /** A payload sample is the content of a sample the delivery owns. */
  ghost predicate Covers(db: Database, r: ReportId, sample: Sample) {
    exists id | id in db.samples :: SampleLink(r, id) in db.links && db.samples[id] == sample
  }

  ghost predicate PayloadsMatch(db: Database) {
    forall r | r in db.deliveries ::
      var report := db.deliveries[r].payload;
      && report.id == r && report.minute == db.deliveries[r].minute
      && WellFormedReport(report)
      && forall i | 0 <= i < |report.samples| :: Covers(db, r, report.samples[i])
  }

  /** The sum of the `dropped_samples` column of `data_gaps` over some hours. */
  ghost function SumOver(gaps: map<nat, nat>, hours: set<nat>): nat
    requires hours <= gaps.Keys
  {
    if hours == {} then 0
    else
      var h :| h in hours;
      gaps[h] + SumOver(gaps, hours - {h})
  }

  ghost function GapTotal(gaps: map<nat, nat>): nat {
    SumOver(gaps, gaps.Keys)
  }

  lemma {:induction false} SumSplits(gaps: map<nat, nat>, hours: set<nat>, k: nat)
    requires k in hours && hours <= gaps.Keys
    ensures SumOver(gaps, hours) == gaps[k] + SumOver(gaps, hours - {k})
    decreases hours
  {
    var h :| h in hours && SumOver(gaps, hours) == gaps[h] + SumOver(gaps, hours - {h});
    if h != k {
      SumSplits(gaps, hours - {h}, k);
      SumSplits(gaps, hours - {k}, h);
      assert hours - {h} - {k} == hours - {k} - {h};
    }
  }

  lemma {:induction false} SumDependsOnValues(gaps: map<nat, nat>, gaps': map<nat, nat>, hours: set<nat>)
    requires hours <= gaps.Keys && hours <= gaps'.Keys
    requires forall h | h in hours :: gaps[h] == gaps'[h]
    ensures SumOver(gaps, hours) == SumOver(gaps', hours)
    decreases hours
  {
    if hours != {} {
      var h :| h in hours;
      SumSplits(gaps, hours, h);
      SumSplits(gaps', hours, h);
      SumDependsOnValues(gaps, gaps', hours - {h});
    }
  }

  /** Adding to one hour's counter adds as much to the total. */
  lemma GapTotalGrows(gaps: map<nat, nat>, hour: nat, n: nat)
    ensures var before := if hour in gaps then gaps[hour] else 0;
            GapTotal(gaps[hour := before + n]) == GapTotal(gaps) + n
  {
    var before := if hour in gaps then gaps[hour] else 0;
    var gaps' := gaps[hour := before + n];
    var others := gaps.Keys - {hour};
    SumSplits(gaps', gaps'.Keys, hour);
    assert gaps'.Keys - {hour} == others;
    SumDependsOnValues(gaps, gaps', others);
    if hour in gaps {
      SumSplits(gaps, gaps.Keys, hour);
    } else {
      assert gaps.Keys == others;
    }
  }

  /** Acknowledged samples are gone for good, and either reported or parked. */
  ghost predicate Departed(db: Database) {
    && (forall id | id in db.ledger.reported :: id < db.nextSampleId && id !in db.samples && id !in db.ledger.parked)
    && (forall id | id in db.ledger.parked :: id < db.nextSampleId && id !in db.samples)
  }

  /** Every sample ever appended is still resident or was reported, parked and acknowledged,
      compacted or dropped; the gap rows count the dropped ones whose record was written. */
  ghost predicate Balanced(db: Database) {
    && Departed(db)
    && db.ledger.appended
       == |db.samples| + |db.ledger.reported| + |db.ledger.parked| + db.ledger.compacted + db.ledger.dropped
    && GapTotal(db.gaps) + db.ledger.unrecorded == db.ledger.dropped
  }

  /** The part about samples, deliveries and ownership. */
  ghost predicate Owns(db: Database) {
    && LinksResolve(db) && OwnedOnce(db) && OwnedInMinute(db)
    && DeliveriesKeyed(db) && SamplesKeyed(db) && PayloadsMatch(db)
  }

  ghost predicate Inv(db: Database) {
    Owns(db) && ResultsOwnedOnce(db) && Balanced(db)
  }

  // ---- small facts --------------------------------------------------------------------------

  lemma FloorMinuteIs(t: nat, m: nat)
    requires m % MINUTE == 0
    ensures FloorMinute(t) == m <==> m <= t < m + MINUTE
  {
  }

  /** What a delivery owns and covers survives when rows and links are only added. */
  lemma GrowingKeepsContents(db: Database, db': Database, r: ReportId)
    requires db.links <= db'.links
    requires forall id | id in db.samples :: id in db'.samples && db'.samples[id] == db.samples[id]
    ensures OwnsSample(db, r) ==> OwnsSample(db', r)
    ensures forall s | Covers(db, r, s) :: Covers(db', r, s)
  {
    if OwnsSample(db, r) {
      var id :| SampleLink(r, id) in db.links;
      assert SampleLink(r, id) in db'.links;
    }
    forall s | Covers(db, r, s) ensures Covers(db', r, s) {
      var id :| id in db.samples && SampleLink(r, id) in db.links && db.samples[id] == s;
      assert id in db'.samples && SampleLink(r, id) in db'.links;
    }
  }

  ghost predicate SameContents(db: Database, db': Database) {
    && db'.deliveries.Keys == db.deliveries.Keys
    && forall r | r in db.deliveries :: db'.deliveries[r].minute == db.deliveries[r].minute
                                        && db'.deliveries[r].payload == db.deliveries[r].payload
  }

  /** Deliveries of unchanged minute and payload stay in order when rows are only added. */
  lemma GrowingKeepsDeliveries(db: Database, db': Database)
    requires DeliveriesKeyed(db) && PayloadsMatch(db) && SameContents(db, db')
    requires db.links <= db'.links
    requires forall id | id in db.samples :: id in db'.samples && db'.samples[id] == db.samples[id]
    ensures DeliveriesKeyed(db') && PayloadsMatch(db')
  {
    forall r | r in db.deliveries
      ensures OwnsSample(db', r) && forall s | Covers(db, r, s) :: Covers(db', r, s)
    {
      GrowingKeepsContents(db, db', r);
    }
  }

  // ---- intake -------------------------------------------------------------------------------

  lemma AppendSampleKeyed(db: Database, sample: Sample)
    requires SamplesKeyed(db)
    ensures SamplesKeyed(AppendSample(db, sample).0)
    ensures forall id | id in db.samples ::
      id in AppendSample(db, sample).0.samples && AppendSample(db, sample).0.samples[id] == db.samples[id]
  {
  }

  lemma AppendSampleLinks(db: Database, sample: Sample)
    requires SamplesKeyed(db) && LinksResolve(db) && OwnedOnce(db) && OwnedInMinute(db)
    ensures var db' := AppendSample(db, sample).0; LinksResolve(db') && OwnedOnce(db') && OwnedInMinute(db')
  {
    AppendSampleKeyed(db, sample);
  }

  lemma InsertSampleCounts(db: Database, sample: Sample)
    requires SamplesKeyed(db)
    ensures |InsertSample(db, sample).samples| == |db.samples| + 1
  {
    assert InsertSample(db, sample).samples.Keys == db.samples.Keys + {db.nextSampleId};
  }

  lemma AppendSampleBalanced(db: Database, sample: Sample)
    requires SamplesKeyed(db) && Balanced(db)
    ensures Balanced(AppendSample(db, sample).0)
  {
    InsertSampleCounts(db, sample);
  }

  lemma AppendSampleOwns(db: Database, sample: Sample)
    requires Owns(db)
    ensures Owns(AppendSample(db, sample).0)
  {
    AppendSampleKeyed(db, sample);
    AppendSampleLinks(db, sample);
    GrowingKeepsDeliveries(db, AppendSample(db, sample).0);
  }

  lemma AppendSampleKeeps(db: Database, sample: Sample)
    requires Inv(db)
    ensures Inv(AppendSample(db, sample).0)
  {
    assert SamplesKeyed(db);
    AppendSampleOwns(db, sample);
    AppendSampleBalanced(db, sample);
  }

  /** Operations that leave samples, deliveries and ownership alone keep that part. */
  lemma SameOwns(db: Database, db': Database)
    requires Owns(db)
    requires db'.samples == db.samples && db'.deliveries == db.deliveries && db'.links == db.links
    requires db'.nextSampleId == db.nextSampleId
    ensures Owns(db')
  {
    GrowingKeepsDeliveries(db, db');
  }

  lemma AppendProbeKeeps(db: Database, p: ProbeId, probe: Probe)
    requires Inv(db)
    ensures Inv(AppendProbe(db, p, probe))
  {
    SameOwns(db, AppendProbe(db, p, probe));
  }

  lemma AcceptCommandKeeps(db: Database, c: CommandId)
    requires Inv(db)
    ensures Inv(AcceptCommand(db, c))
  {
    SameOwns(db, AcceptCommand(db, c));
  }

  lemma {:induction false} AcceptAllKeeps(db: Database, offers: seq<Offer>)
    requires Inv(db)
    ensures Inv(AcceptAll(db, offers)) && AcceptAll(db, offers) == db.(commands := AcceptAll(db, offers).commands)
    decreases |offers|
  {
    hide Inv;
    if offers != [] {
      AcceptAllKeeps(db, offers[..|offers| - 1]);
      AcceptCommandKeeps(AcceptAll(db, offers[..|offers| - 1]), offers[|offers| - 1].id);
    }
  }

  /** Every offered command is there afterwards, and one that was there keeps its state: a command
      offered again does not run again while the spool knows it. */
  lemma {:induction false} AcceptAllAdds(db: Database, offers: seq<Offer>, c: CommandId)
    ensures c in AcceptAll(db, offers).commands <==> c in db.commands || exists o | o in offers :: o.id == c
    ensures c in db.commands ==> AcceptAll(db, offers).commands[c] == db.commands[c]
    ensures c in AcceptAll(db, offers).commands && c !in db.commands ==> AcceptAll(db, offers).commands[c] == CommandPending
    decreases |offers|
  {
    if offers != [] {
      var init, last := offers[..|offers| - 1], offers[|offers| - 1];
      AcceptAllAdds(db, init, c);
      assert offers == init + [last];
    }
  }

  lemma StartCommandKeeps(db: Database, c: CommandId)
    requires Inv(db) && StartCommand(db, c).Some?
    ensures Inv(StartCommand(db, c).value)
  {
    SameOwns(db, StartCommand(db, c).value);
  }

  lemma CompleteCommandKeeps(db: Database, c: CommandId, completedAt: nat)
    requires Inv(db) && CompleteCommand(db, c, completedAt).Some?
    ensures Inv(CompleteCommand(db, c, completedAt).value)
  {
    SameOwns(db, CompleteCommand(db, c, completedAt).value);
  }

  // ---- ownership ----------------------------------------------------------------------------

  /** Adding links from unassigned samples to deliveries of their minute keeps the invariant. */
  lemma LinkingKeeps(db: Database, added: set<SampleLink>)
    requires Inv(db)
    requires forall l | l in added :: l.sample in Unassigned(db) && l.report in db.deliveries
                                      && MinuteOf(db, l.sample) == db.deliveries[l.report].minute
    ensures Inv(db.(links := db.links + added))
  {
    hide FloorMinute, OwnedOnce, DeliveriesKeyed, PayloadsMatch, Unassigned;
    AddedOwnOnce(db, added);
    LinkingOwnsOnce(db, added);
    LinkingInMinute(db, added);
    GrowingKeepsDeliveries(db, db.(links := db.links + added));
  }

  lemma AddedOwnOnce(db: Database, added: set<SampleLink>)
    requires DeliveriesKeyed(db)
    requires forall l | l in added :: l.sample in Unassigned(db) && l.report in db.deliveries
                                      && MinuteOf(db, l.sample) == db.deliveries[l.report].minute
    ensures forall l, l' | l in added && l' in added && l.sample == l'.sample :: l.report == l'.report
  {
    hide FloorMinute, OwnsSample;
  }

  lemma LinkingInMinute(db: Database, added: set<SampleLink>)
    requires LinksResolve(db) && OwnedInMinute(db)
    requires forall l | l in added :: l.sample in Unassigned(db) && l.report in db.deliveries
                                      && MinuteOf(db, l.sample) == db.deliveries[l.report].minute
    ensures var db' := db.(links := db.links + added); LinksResolve(db') && OwnedInMinute(db')
  {
    hide FloorMinute;
  }

  lemma LinkingOwnsOnce(db: Database, added: set<SampleLink>)
    requires OwnedOnce(db) && forall l | l in added :: l.sample in Unassigned(db)
    requires forall l, l' | l in added && l' in added && l.sample == l'.sample :: l.report == l'.report
    ensures OwnedOnce(db.(links := db.links + added))
  {
    assert forall l | l in db.links :: l.sample in Owned(db);
    assert forall l | l in added :: l.sample !in Owned(db);
  }

  lemma ParkBeforeKeeps(db: Database, bound: nat)
    requires Inv(db)
    ensures Inv(ParkBefore(db, bound))
  {
    LinkingKeeps(db, set id, r | id in Unassigned(db) && r in db.deliveries
                                 && db.deliveries[r].minute == MinuteOf(db, id) < bound :: SampleLink(r, id));
  }

  ghost predicate NewMinute(db: Database, report: Report, ids: seq<SampleId>) {
    && report.id !in db.deliveries && !HasDelivery(db, report.minute) && report.minute % MINUTE == 0
    && UnassignedIn(db, report.minute) != {} && BuildsReport(db, report, ids, report.minute)
  }

  lemma InsertDeliveryLinks(db: Database, report: Report, ids: seq<SampleId>, now: nat)
    requires LinksResolve(db) && OwnedOnce(db) && OwnedInMinute(db) && NewMinute(db, report, ids)
    ensures var db' := InsertDelivery(db, report, ids, now);
            LinksResolve(db') && OwnedOnce(db') && OwnedInMinute(db')
  {
    var db' := InsertDelivery(db, report, ids, now);
    forall id | id in ids ensures id in Unassigned(db) && MinuteOf(db, id) == report.minute {
      FloorMinuteIs(db.samples[id].observedAt, report.minute);
    }
    assert forall l | l in db.links :: l.sample in Owned(db) && l.report != report.id;
  }

  lemma InsertedReportCovered(db: Database, report: Report, ids: seq<SampleId>, now: nat)
    requires NewMinute(db, report, ids)
    ensures var db' := InsertDelivery(db, report, ids, now);
      OwnsSample(db', report.id) && forall i | 0 <= i < |report.samples| :: Covers(db', report.id, report.samples[i])
  {
    var db' := InsertDelivery(db, report, ids, now);
    assert |ids| > 0;
    forall i | 0 <= i < |ids| ensures SampleLink(report.id, ids[i]) in db'.links && ids[i] in db'.samples {
      assert ids[i] in ids;
    }
    assert SampleLink(report.id, ids[0]) in db'.links;
    forall i | 0 <= i < |report.samples| ensures Covers(db', report.id, report.samples[i]) {
      assert SampleLink(report.id, ids[i]) in db'.links;
    }
  }

  lemma InsertDeliveryContents(db: Database, report: Report, ids: seq<SampleId>, now: nat, r: ReportId)
    requires NewMinute(db, report, ids) && r in db.deliveries
    ensures var db' := InsertDelivery(db, report, ids, now);
      && db'.deliveries[r] == db.deliveries[r]
      && (OwnsSample(db, r) ==> OwnsSample(db', r))
      && (forall s | Covers(db, r, s) :: Covers(db', r, s))
  {
    GrowingKeepsContents(db, InsertDelivery(db, report, ids, now), r);
  }

  lemma InsertDeliveryKeyed(db: Database, report: Report, ids: seq<SampleId>, now: nat)
    requires DeliveriesKeyed(db) && NewMinute(db, report, ids)
    ensures DeliveriesKeyed(InsertDelivery(db, report, ids, now))
  {
    hide BuildsReport, Covers, OwnsSample, UnassignedIn;
    InsertedReportCovered(db, report, ids, now);
    forall r | r in db.deliveries ensures OwnsSample(InsertDelivery(db, report, ids, now), r) {
      InsertDeliveryContents(db, report, ids, now, r);
    }
  }

  lemma InsertDeliveryPayloads(db: Database, report: Report, ids: seq<SampleId>, now: nat)
    requires SamplesKeyed(db) && PayloadsMatch(db) && NewMinute(db, report, ids)
    ensures PayloadsMatch(InsertDelivery(db, report, ids, now))
  {
    var db' := InsertDelivery(db, report, ids, now);
    InsertedReportWellFormed(db, report, ids);
    InsertedReportCovered(db, report, ids, now);
    forall r, i | r in db.deliveries && 0 <= i < |db.deliveries[r].payload.samples|
      ensures Covers(db', r, db.deliveries[r].payload.samples[i])
    {
      InsertDeliveryContents(db, report, ids, now, r);
      assert Covers(db, r, db.deliveries[r].payload.samples[i]);
    }
  }

  lemma InsertedReportWellFormed(db: Database, report: Report, ids: seq<SampleId>)
    requires SamplesKeyed(db) && NewMinute(db, report, ids)
    ensures WellFormedReport(report)
  {
    forall i, j | 0 <= i < j < |ids| ensures report.samples[i].observedAt < report.samples[j].observedAt {
      assert ids[i] in ids && ids[j] in ids && ids[i] != ids[j];
      assert RankLe(SampleRank(db)[ids[i]], SampleRank(db)[ids[j]]);
    }
    forall i | 0 <= i < |ids| ensures report.minute <= report.samples[i].observedAt < report.minute + MINUTE {
      assert ids[i] in UnassignedIn(db, report.minute);
    }
  }

  lemma InsertDeliveryResults(db: Database, report: Report, ids: seq<SampleId>, now: nat)
    requires ResultsOwnedOnce(db) && NewMinute(db, report, ids)
    ensures ResultsOwnedOnce(InsertDelivery(db, report, ids, now))
  {
    assert forall l | l in db.resultLinks :: l.command !in UnassignedResults(db);
  }

  lemma InsertDeliveryKeeps(db: Database, report: Report, ids: seq<SampleId>, now: nat)
    requires Inv(db) && NewMinute(db, report, ids)
    ensures Inv(InsertDelivery(db, report, ids, now))
  {
    InsertDeliveryLinks(db, report, ids, now);
    InsertDeliveryKeyed(db, report, ids, now);
    InsertDeliveryPayloads(db, report, ids, now);
    InsertDeliveryResults(db, report, ids, now);
    assert Balanced(InsertDelivery(db, report, ids, now));
  }

  /** Parking before a minute leaves that minute's own samples unassigned. */
  lemma ParkBeforeLeaves(db: Database, minute: nat)
    requires Inv(db) && minute % MINUTE == 0
    ensures UnassignedIn(ParkBefore(db, minute), minute) == UnassignedIn(db, minute)
  {
    var parked := ParkBefore(db, minute);
    forall id | id in UnassignedIn(db, minute) ensures id in UnassignedIn(parked, minute) {
      FloorMinuteIs(db.samples[id].observedAt, minute);
      assert id !in Owned(parked);
    }
    assert db.links <= parked.links;
    assert Owned(db) <= Owned(parked);
  }

  lemma OpenMinuteHasSample(db: Database, minute: nat, bound: nat)
    requires minute in OpenMinutes(db, bound)
    ensures minute % MINUTE == 0 && UnassignedIn(db, minute) != {}
  {
    var id :| id in Unassigned(db) && MinuteOf(db, id) < bound && MinuteOf(db, id) == minute;
    FloorMinuteIs(db.samples[id].observedAt, minute);
    assert id in UnassignedIn(db, minute);
  }

  /** The minute that `create_next_delivery` settles on still has unassigned samples after everything
      before it is parked, so its branch for a minute without samples is never taken. */
  lemma ChosenMinuteHasSamples(db: Database, minute: nat, closed: nat)
    requires Inv(db) && minute in OpenMinutes(db, closed)
    ensures UnassignedIn(ParkBefore(db, minute), minute) != {}
  {
    OpenMinuteHasSample(db, minute, closed);
    ParkBeforeLeaves(db, minute);
  }

  lemma CreatesDeliveryIsNew(db: Database, db': Database, report: Report, ids: seq<SampleId>, now: nat)
    requires Inv(db) && report.id !in db.deliveries
    requires CreatesDelivery(db, db', report, ids, now)
    ensures NewMinute(ParkBefore(db, report.minute), report, ids)
  {
    OpenMinuteHasSample(db, report.minute, FloorMinute(now));
    ChosenMinuteHasSamples(db, report.minute, FloorMinute(now));
  }

  lemma CreatesDeliveryKeeps(db: Database, db': Database, report: Report, ids: seq<SampleId>, now: nat)
    requires Inv(db) && report.id !in db.deliveries
    requires CreatesDelivery(db, db', report, ids, now)
    ensures Inv(db')
  {
    ParkBeforeKeeps(db, report.minute);
    CreatesDeliveryIsNew(db, db', report, ids, now);
    InsertDeliveryKeeps(ParkBefore(db, report.minute), report, ids, now);
  }

  lemma CreatesNothingKeeps(db: Database, db': Database, now: nat, bound: nat)
    requires Inv(db) && CreatesNothing(db, db', now, bound)
    ensures Inv(db')
  {
    ParkBeforeKeeps(db, bound);
  }

  // ---- delivery state -----------------------------------------------------------------------

  /** Changing schedule, attempts, state or error of deliveries keeps the invariant. */
  lemma RescheduleKeeps(db: Database, db': Database)
    requires Inv(db)
    requires db' == db.(deliveries := db'.deliveries, sequence := db'.sequence)
    requires SameContents(db, db')
    ensures Inv(db')
  {
    GrowingKeepsDeliveries(db, db');
  }

  lemma BeginAttemptKeeps(db: Database, r: ReportId, nextAttemptAt: nat)
    requires Inv(db) && BeginAttempt(db, r, nextAttemptAt).Begun?
    ensures Inv(BeginAttempt(db, r, nextAttemptAt).db)
  {
    hide Inv;
    RescheduleKeeps(db, BeginAttempt(db, r, nextAttemptAt).db);
  }

  lemma RescheduledKeeps(db: Database, r: ReportId, nextAttemptAt: nat, error: ErrorCode)
    requires Inv(db) && IsPending(db, r)
    ensures Inv(Reschedule(db, r, nextAttemptAt, error).value)
  {
    hide Inv;
    RescheduleKeeps(db, Reschedule(db, r, nextAttemptAt, error).value);
  }

  lemma QuarantinedKeeps(db: Database, r: ReportId, error: ErrorCode, now: nat)
    requires Inv(db) && IsPending(db, r)
    ensures Inv(Quarantine(db, r, error, now).value)
  {
    hide Inv;
    RescheduleKeeps(db, Quarantine(db, r, error, now).value);
  }

  lemma SetPendingKeeps(db: Database, chosen: seq<ReportId>)
    requires Inv(db)
    ensures Inv(SetPending(db, chosen))
  {
    hide Inv;
    RescheduleKeeps(db, SetPending(db, chosen));
  }

  lemma SetNextAttemptKeeps(db: Database, chosen: seq<ReportId>, retryAt: nat)
    requires Inv(db)
    ensures Inv(SetNextAttempt(db, chosen, retryAt))
  {
    hide Inv;
    RescheduleKeeps(db, SetNextAttempt(db, chosen, retryAt));
  }

  lemma ReconcileKeeps(db: Database, checkpoint: nat)
    requires Inv(db) && Reconcile(db, checkpoint).Some?
    ensures Inv(Reconcile(db, checkpoint).value)
  {
    hide Inv;
    RescheduleKeeps(db, Reconcile(db, checkpoint).value);
  }
}
