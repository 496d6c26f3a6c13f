/** Where every sample ends up, over whole runs: which of them get into a report, and what the
    server has of those that an acknowledgement deletes. */
module SampleAccounts {
  import opened Options
  import opened Sql
  import opened SpoolModel
  import opened SpoolInvariant
  import opened SpoolCapacity
  import opened Ingest
  import opened Protocol
  import opened ProtocolInvariant
  import opened ProtocolSafety

  // ---- rows do not change -------------------------------------------------------------------

  /** Deliveries that stay keep their payload and minute, samples that stay their content. */
  ghost predicate KeepsRows(db: Database, db': Database) {
    && (forall r | r in db.deliveries && r in db'.deliveries ::
          db'.deliveries[r].payload == db.deliveries[r].payload && db'.deliveries[r].minute == db.deliveries[r].minute)
    && (forall id | id in db.samples && id in db'.samples :: db'.samples[id] == db.samples[id])
  }

  /** Rows stay what they are and no sample gets a new owner. */
  ghost predicate OnlyReleases(db: Database, db': Database) {
    KeepsRows(db, db') && db'.links <= db.links
  }

  lemma TakeInReleases(db: Database, intake: Intake, db': Database)
    requires SamplesKeyed(db) && TakeInto(db, intake) == Some(db')
    ensures OnlyReleases(db, db')
  {
  }

  lemma ShedReleases(db: Database, db': Database, shed: Shed)
    requires Sheds(db, db', shed)
    ensures OnlyReleases(db, db')
  {
  }

  lemma SpoolStepReleases(w: World, step: Step, w': World)
    requires SamplesKeyed(w.spool) && IsSpoolStep(step) && !step.ParkSamples? && !step.CreateReport?
    requires StepsSpool(w, step, w')
    ensures OnlyReleases(w.spool, w'.spool)
  {
    hide SamplesKeyed, Sheds, TakeInto, OnlyReleases;
    match step
    case TakeIn(intake) => TakeInReleases(w.spool, intake, w'.spool);
    case ShedData(shed) => ShedReleases(w.spool, w'.spool, shed);
    case Redrive(now, chosen) => ScheduleReleases(w.spool, w'.spool);
    case WakeUp(retryAt, limit, chosen) => ScheduleReleases(w.spool, w'.spool);
  }

  lemma ScheduleReleases(db: Database, db': Database)
    requires SameContents(db, db') && db'.samples == db.samples && db'.links == db.links
    ensures OnlyReleases(db, db')
  {
  }

  lemma AcknowledgeReleases(db: Database, r: ReportId)
    ensures OnlyReleases(db, Acknowledge(db, r))
  {
    hide OwnedBy, ResultsOf, Settled;
  }

  lemma AppliedReleases(w: World, reply: Envelope, w': World)
    requires Applies(w, reply, w')
    ensures OnlyReleases(w.spool, w'.spool)
  {
    hide Acknowledge, Known, DecodeAck, OnlyReleases;
    AcknowledgeReleases(w.spool, FlightOf(w).report.id);
    ScheduleReleases(w.spool, w.spool);
  }

  lemma OtherStepReleases(w: World, step: Step, w': World)
    requires !IsSpoolStep(step) && !step.ReplaceSpool? && Next(w, step, w')
    ensures OnlyReleases(w.spool, w'.spool)
  {
    hide Applies, Handles, Known, Proves, OnlyReleases, SelectsDue, EncodeReport, Inv, Scoped, ScopesAgree;
    if step.ApplyAck? { AppliedReleases(w, step.reply, w'); } else { ScheduleReleases(w.spool, w'.spool); }
  }

  // ---- who is in the payload ----------------------------------------------------------------

  /** A sample whose content is in a payload is owned by that delivery: payloads are made of owned
      samples, and no two samples are of the same instant. */
  lemma PayloadIsOwned(db: Database, r: ReportId, id: SampleId)
    requires PayloadsMatch(db) && SamplesKeyed(db)
    ensures InPayload(db, r, id) ==> SampleLink(r, id) in db.links
  {
    if InPayload(db, r, id) {
      var samples := db.deliveries[r].payload.samples;
      var i :| 0 <= i < |samples| && samples[i] == db.samples[id];
      assert Covers(db, r, samples[i]);
      var other :| other in db.samples && SampleLink(r, other) in db.links && db.samples[other] == samples[i];
      assert other == id;
    }
  }

  lemma ParkedLink(db: Database, bound: nat, l: SampleLink)
    requires Inv(db) && l in ParkBefore(db, bound).links && l !in db.links
    ensures l.sample in Unassigned(db) && HasDelivery(db, MinuteOf(db, l.sample)) && MinuteOf(db, l.sample) < bound
    ensures l.report in db.deliveries && !InPayload(ParkBefore(db, bound), l.report, l.sample)
  {
    hide FloorMinute;
    PayloadIsOwned(db, l.report, l.sample);
  }

  /** The links of a new delivery: to itself for the samples of its report, to older deliveries
      for the samples parked on the way. */
  lemma CreatedLink(db: Database, db': Database, report: Report, ids: seq<SampleId>, now: nat, l: SampleLink)
    requires Inv(db) && report.id !in db.deliveries && CreatesDelivery(db, db', report, ids, now)
    requires l in db'.links && l !in db.links
    ensures l.sample in Unassigned(db)
    ensures l.report == report.id <==> !HasDelivery(db, MinuteOf(db, l.sample))
    ensures l.report == report.id <==> InPayload(db', l.report, l.sample)
  {
    hide FloorMinute, Inv, HasDelivery, AllHaveDelivery, OpenMinutes;
    if l.report == report.id { OwnLink(db, db', report, ids, now, l); } else { SideLink(db, db', report, ids, now, l); }
  }

  lemma OwnLink(db: Database, db': Database, report: Report, ids: seq<SampleId>, now: nat, l: SampleLink)
    requires Inv(db) && report.id !in db.deliveries && CreatesDelivery(db, db', report, ids, now)
    requires l in db'.links && l.report == report.id
    ensures l.sample in Unassigned(db) && MinuteOf(db, l.sample) == report.minute && !HasDelivery(db, report.minute)
    ensures InPayload(db', l.report, l.sample)
  {
    hide FloorMinute, AllHaveDelivery, OpenMinutes, HasDelivery, BuildsReport, ParkBefore, OwnedOnce, OwnedInMinute,
         DeliveriesKeyed, SamplesKeyed, PayloadsMatch, ResultsOwnedOnce, Balanced;
    OpenMinuteIsWhole(db, report.minute, FloorMinute(now));
    ParkBeforeLeaves(db, report.minute);
    ParkingMovesNoRows(db, report.minute);
    assert l.sample in ids;
    ReportedSample(ParkBefore(db, report.minute), report, ids, l.sample);
    assert l.sample in db'.samples && report.id in db'.deliveries && db'.deliveries[report.id].payload == report;
    assert l.sample in UnassignedIn(db, report.minute);
    FloorMinuteIs(db.samples[l.sample].observedAt, report.minute);
  }

  lemma ParkingMovesNoRows(db: Database, bound: nat)
    requires LinksResolve(db)
    ensures ParkBefore(db, bound).samples == db.samples && ParkBefore(db, bound).deliveries == db.deliveries
    ensures forall l | l in ParkBefore(db, bound).links :: l.report in db.deliveries
  {
  }

  lemma ReportedSample(db: Database, report: Report, ids: seq<SampleId>, id: SampleId)
    requires BuildsReport(db, report, ids, report.minute) && id in ids
    ensures id in UnassignedIn(db, report.minute) && id in db.samples && db.samples[id] in report.samples
  {
    hide Owned, UnassignedResults;
    var k :| 0 <= k < |ids| && ids[k] == id;
    assert report.samples[k] == db.samples[id];
  }

  lemma OpenMinuteIsWhole(db: Database, minute: nat, bound: nat)
    requires minute in OpenMinutes(db, bound)
    ensures minute % MINUTE == 0
  {
  }

  lemma SideLink(db: Database, db': Database, report: Report, ids: seq<SampleId>, now: nat, l: SampleLink)
    requires Inv(db) && report.id !in db.deliveries && CreatesDelivery(db, db', report, ids, now)
    requires l in db'.links && l !in db.links && l.report != report.id
    ensures l.sample in Unassigned(db) && HasDelivery(db, MinuteOf(db, l.sample))
    ensures !InPayload(db', l.report, l.sample)
  {
    hide FloorMinute, AllHaveDelivery, OpenMinutes, HasDelivery, BuildsReport, Inv;
    ParkedLink(db, report.minute, l);
  }

  /** Whether the step puts the sample of the link into the report. */
  predicate Reports(step: Step, l: SampleLink) {
    step.CreateReport? && step.report.id == l.report
  }

  /** Only creating a delivery puts a sample into a payload, and it does so exactly for the samples
      whose minute had no delivery when it was reached. */
  lemma NewLink(w: World, step: Step, w': World, l: SampleLink)
    requires WorldInv(w) && Next(w, step, w') && !step.ReplaceSpool?
    requires l in w'.spool.links && l !in w.spool.links
    ensures step.CreateReport? || step.ParkSamples?
    ensures l.sample in Unassigned(w.spool)
    ensures Reports(step, l) <==> !HasDelivery(w.spool, MinuteOf(w.spool, l.sample))
    ensures Reports(step, l) <==> InPayload(w'.spool, l.report, l.sample)
  {
    hide FloorMinute, HasDelivery, CreatesDelivery, InPayload, Unassigned;
    hide FlightOk, SequencesOk, RequestsOk, ScopesAgree, ReplayOk, AnswersOk, Owns;
    assert SamplesKeyed(w.spool) by { InvKeysSamples(w.spool); }
    if step.CreateReport? {
      CreatedLink(w.spool, w'.spool, step.report, step.ids, step.now, l);
    } else if step.ParkSamples? {
      ParkedLink(w.spool, step.bound, l);
    } else {
      StepReleases(w, step, w');
    }
  }

  lemma InvKeysSamples(db: Database)
    requires Inv(db)
    ensures SamplesKeyed(db)
  {
  }

  lemma StepReleases(w: World, step: Step, w': World)
    requires SamplesKeyed(w.spool) && Next(w, step, w')
    requires !step.ReplaceSpool? && !step.ParkSamples? && !step.CreateReport?
    ensures OnlyReleases(w.spool, w'.spool)
  {
    hide SamplesKeyed, OnlyReleases, SpoolStep;
    if IsSpoolStep(step) { SpoolStepReleases(w, step, w'); } else { OtherStepReleases(w, step, w'); }
  }

  // ---- over runs ----------------------------------------------------------------------------

  /** The spool file is not replaced from world i to world j. */
  predicate SameFile(steps: seq<Step>, i: nat, j: nat)
    requires i <= j <= |steps|
  {
    forall k | i <= k < j :: !steps[k].ReplaceSpool?
  }

  lemma LinkingKeepsRows(w: World, step: Step, w': World)
    requires WorldInv(w) && Next(w, step, w') && (step.CreateReport? || step.ParkSamples?)
    ensures KeepsRows(w.spool, w'.spool)
  {
    hide FloorMinute, BuildsReport, AllHaveDelivery, OpenMinutes, HasDelivery;
    hide Inv, FlightOk, SequencesOk, RequestsOk, ScopesAgree, ReplayOk, AnswersOk;
  }

  lemma StepKeepsRows(w: World, step: Step, w': World)
    requires WorldInv(w) && Next(w, step, w') && !step.ReplaceSpool?
    ensures KeepsRows(w.spool, w'.spool)
  {
    hide Next, WorldInv, KeepsRows;
    if step.CreateReport? || step.ParkSamples? {
      LinkingKeepsRows(w, step, w');
    } else {
      assert SamplesKeyed(w.spool) by { WorldKeysSamples(w); }
      StepReleases(w, step, w');
    }
  }

  lemma WorldKeysSamples(w: World)
    requires WorldInv(w)
    ensures SamplesKeyed(w.spool) && LinksResolve(w.spool)
  {
  }

  lemma SameStatus(w: World, step: Step, w': World, l: SampleLink)
    requires WorldInv(w) && WorldInv(w') && Next(w, step, w') && !step.ReplaceSpool?
    requires l in w.spool.links && l in w'.spool.links
    ensures InPayload(w'.spool, l.report, l.sample) <==> InPayload(w.spool, l.report, l.sample)
  {
    hide WorldInv, Next;
    WorldKeysSamples(w);
    WorldKeysSamples(w');
    StepKeepsRows(w, step, w');
  }

  /** Where an ownership comes from, and what it is worth.  The delivery has the sample in its
      payload if and only if the step that made the link built the report from it, and that is so
      if and only if the sample's minute had no delivery yet; otherwise it was parked, and it stays
      out of the payload for as long as the delivery owns it. */
  lemma {:induction false} PayloadIffAssigned(ws: seq<World>, steps: seq<Step>, start: nat, j: nat, l: SampleLink)
    returns (i: nat)
    requires IsRun(ws, steps) && start <= j <= |steps| && SameFile(steps, start, j)
    requires l !in ws[start].spool.links && l in ws[j].spool.links
    ensures start <= i < j && l !in ws[i].spool.links && (steps[i].CreateReport? || steps[i].ParkSamples?)
    ensures forall k | i < k <= j :: l in ws[k].spool.links
    ensures l.sample in Unassigned(ws[i].spool)
    ensures InPayload(ws[j].spool, l.report, l.sample) <==> Reports(steps[i], l)
    ensures Reports(steps[i], l) <==> !HasDelivery(ws[i].spool, MinuteOf(ws[i].spool, l.sample))
    decreases j
  {
    hide Init, Next, WorldInv, InPayload, HasDelivery, Unassigned, FloorMinute;
    RunKeepsInvariant(ws, steps, j);
    RunKeepsInvariant(ws, steps, j - 1);
    assert Next(ws[j - 1], steps[j - 1], ws[j]);
    if l in ws[j - 1].spool.links {
      i := PayloadIffAssigned(ws, steps, start, j - 1, l);
      SameStatus(ws[j - 1], steps[j - 1], ws[j], l);
    } else {
      i := j - 1;
      NewLink(ws[i], steps[i], ws[j], l);
    }
  }

  /** The same over whole runs, through restored files: the ownership comes from some step, and the
      sample is in the payload exactly when that step built the report from it. */
  lemma {:induction false} OwnershipHasOrigin(ws: seq<World>, steps: seq<Step>, backups: map<nat, nat>, j: nat, l: SampleLink)
    returns (i: nat)
    requires IsRun(ws, steps) && Restores(ws, steps, backups) && j <= |steps|
    requires l !in ws[0].spool.links && l in ws[j].spool.links
    ensures i < j && l !in ws[i].spool.links && (steps[i].CreateReport? || steps[i].ParkSamples?)
    ensures l.sample in Unassigned(ws[i].spool)
    ensures InPayload(ws[j].spool, l.report, l.sample) <==> Reports(steps[i], l)
    ensures Reports(steps[i], l) <==> !HasDelivery(ws[i].spool, MinuteOf(ws[i].spool, l.sample))
    decreases j
  {
    hide Init, Next, WorldInv, InPayload, HasDelivery, Unassigned, FloorMinute;
    RunKeepsInvariant(ws, steps, j);
    RunKeepsInvariant(ws, steps, j - 1);
    assert Next(ws[j - 1], steps[j - 1], ws[j]);
    if steps[j - 1].ReplaceSpool? {
      ReplacedSpool(ws[j - 1], steps[j - 1], ws[j]);
      i := OwnershipHasOrigin(ws, steps, backups, backups[j - 1], l);
    } else if l in ws[j - 1].spool.links {
      i := OwnershipHasOrigin(ws, steps, backups, j - 1, l);
      SameStatus(ws[j - 1], steps[j - 1], ws[j], l);
    } else {
      i := j - 1;
      NewLink(ws[i], steps[i], ws[j], l);
    }
  }

  // ---- what the server has ------------------------------------------------------------------

  /** The report is in its slot at the server. */
  ghost predicate Delivered(w: World, report: Report) {
    Stored(w.server, report) && report.machinePk == w.scope.machinePk && report.minute % MINUTE == 0
  }

  /** The server has the sample in the report of its delivery. */
  ghost predicate Got(w: World, g: Gone) {
    Delivered(w, g.report) && g.sample in g.report.samples
  }

  /** The server has the report for the sample's minute, without the sample. */
  ghost predicate Missed(w: World, g: Gone) {
    Delivered(w, g.report) && g.sample !in g.report.samples && FloorMinute(g.sample.observedAt) == g.report.minute
  }

  /** A report stored at the server for this machine contains the sample. */
  ghost predicate AtServer(w: World, sample: Sample) {
    exists report: Report :: Stored(w.server, report) && report.machinePk == w.scope.machinePk && sample in report.samples
  }

  ghost predicate AccountsTrue(w: World) {
    && EntriesBelong(w.server.blocks)
    && (forall id | id in w.spool.ledger.reported :: Got(w, w.spool.ledger.reported[id]))
    && (forall id | id in w.spool.ledger.parked :: Missed(w, w.spool.ledger.parked[id]))
  }

  /** One slot per minute: a sample that its minute's stored report lacks is in no stored report. */
  lemma MissedIsNowhere(w: World, g: Gone)
    requires EntriesBelong(w.server.blocks) && Missed(w, g)
    ensures !AtServer(w, g.sample)
  {
    if report: Report :| Stored(w.server, report) && report.machinePk == w.scope.machinePk && g.sample in report.samples {
      StoredFits(w.server, report);
      FloorMinuteIs(g.sample.observedAt, report.minute);
    }
  }

  lemma StoredFits(server: Server, report: Report)
    requires EntriesBelong(server.blocks) && Stored(server, report)
    ensures TimesFit(report)
  {
    var key := BlockKey(report.machinePk, BlockStart(report.minute));
    assert EntryBelongs(server.blocks[key], key, ReportSlot(report.minute));
  }

  lemma DeliveredStays(w: World, w': World, report: Report)
    requires Delivered(w, report) && KeepsSlots(w.server, w'.server) && w'.scope == w.scope
    ensures Delivered(w', report)
  {
  }

  ghost predicate SameAccount(db: Database, db': Database) {
    db'.ledger.reported == db.ledger.reported && db'.ledger.parked == db.ledger.parked
  }

  lemma AccountsStay(w: World, w': World)
    requires AccountsTrue(w) && SameAccount(w.spool, w'.spool)
    requires KeepsSlots(w.server, w'.server) && w'.scope == w.scope && EntriesBelong(w'.server.blocks)
    ensures AccountsTrue(w')
  {
    hide Delivered, EntriesBelong, KeepsSlots, FloorMinute;
    forall id | id in w.spool.ledger.reported ensures Got(w', w.spool.ledger.reported[id]) {
      DeliveredStays(w, w', w.spool.ledger.reported[id].report);
    }
    forall id | id in w.spool.ledger.parked ensures Missed(w', w.spool.ledger.parked[id]) {
      DeliveredStays(w, w', w.spool.ledger.parked[id].report);
    }
  }

  lemma LinkingAccount(w: World, step: Step, w': World)
    requires StepsSpool(w, step, w') && (step.CreateReport? || step.ParkSamples?)
    ensures SameAccount(w.spool, w'.spool)
  {
    hide BuildsReport, AllHaveDelivery, OpenMinutes, HasDelivery, FloorMinute;
  }

  lemma SheddingAccount(db: Database, db': Database, shed: Shed)
    requires Sheds(db, db', shed)
    ensures SameAccount(db, db')
  {
    hide FirstByRank, AnyUpTo, FloorMinute;
  }

  lemma SpoolStepAccount(w: World, step: Step, w': World)
    requires IsSpoolStep(step) && StepsSpool(w, step, w')
    ensures SameAccount(w.spool, w'.spool)
  {
    hide Sheds, CreatesDelivery, FirstByRank;
    if step.CreateReport? || step.ParkSamples? {
      LinkingAccount(w, step, w');
    } else if step.ShedData? {
      SheddingAccount(w.spool, w'.spool, step.shed);
    }
  }

  lemma StepAccount(w: World, step: Step, w': World)
    requires Next(w, step, w') && !step.ApplyAck? && !step.ReplaceSpool?
    ensures SameAccount(w.spool, w'.spool)
  {
    hide SpoolStep, Handles, Known, Proves, SelectsDue, EncodeReport, Inv, Scoped, ScopesAgree;
    if IsSpoolStep(step) { SpoolStepAccount(w, step, w'); }
  }

  lemma StepServer(w: World, step: Step, w': World)
    requires Next(w, step, w') && EntriesBelong(w.server.blocks)
    ensures EntriesBelong(w'.server.blocks) && w'.scope == w.scope && KeepsSlots(w.server, w'.server)
  {
    hide SpoolStep, Handles, Known, Proves, SelectsDue, EncodeReport, Inv, Scoped, ScopesAgree, EntriesBelong, SlotOf;
    NextKeepsSlots(w, step, w');
    if step.Serve? {
      HandlesKeepsEntries(w.server, w'.server, step.request, step.now, step.progress, step.rotateTo, step.report, step.answer);
    }
  }

  /** What one acknowledgement deletes. */
  lemma TakenAlongTrue(w: World, r: ReportId, inPayload: bool)
    requires Owns(w.spool) && r in w.spool.deliveries && Delivered(w, w.spool.deliveries[r].payload)
    ensures forall id | id in TakenAlong(w.spool, r, inPayload) ::
      var g := TakenAlong(w.spool, r, inPayload)[id];
      if inPayload then Got(w, g) else Missed(w, g)
  {
    hide Delivered, FloorMinute, OwnedOnce, DeliveriesKeyed, SamplesKeyed, WellFormedReport, Covers;
    forall id | id in TakenAlong(w.spool, r, inPayload)
      ensures MinuteOf(w.spool, id) == w.spool.deliveries[r].payload.minute
    {
      assert SampleLink(r, id) in w.spool.links;
    }
  }

  lemma SettledTrue(w: World, r: ReportId, w': World)
    requires AccountsTrue(w) && Owns(w.spool) && r in w.spool.deliveries && Delivered(w, w.spool.deliveries[r].payload)
    requires w'.server == w.server && w'.scope == w.scope && w'.spool.ledger == Settled(w.spool, r)
    ensures AccountsTrue(w')
  {
    hide EntriesBelong, FloorMinute, TakenAlong, Owns, Stored;
    TakenAlongTrue(w, r, true);
    TakenAlongTrue(w, r, false);
  }

  lemma AppliedAccount(w: World, reply: Envelope, w': World)
    requires WorldInv(w) && AccountsTrue(w) && Applies(w, reply, w')
    ensures AccountsTrue(w')
  {
    hide Acknowledge, Proves, AccountsTrue, WorldInv, Owns, Settled;
    AppliedAck(w, reply, w');
    ProofMeansStored(w, reply);
    AcknowledgedAccount(w.spool, FlightOf(w).report.id);
    WorldOwns(w);
    SettledTrue(w, FlightOf(w).report.id, w');
  }

  lemma WorldOwns(w: World)
    requires WorldInv(w)
    ensures Owns(w.spool)
  {
  }

  /** Every replacement of the spool file restores one of the same run: at step i the one of world
      backups[i]. */
  ghost predicate Restores(ws: seq<World>, steps: seq<Step>, backups: map<nat, nat>) {
    && |ws| == |steps| + 1
    && forall i | 0 <= i < |steps| && steps[i].ReplaceSpool? ::
         i in backups && backups[i] <= i && steps[i].other == ws[backups[i]].spool
  }

  ghost predicate FreshAccount(db: Database) {
    db.ledger.reported.Keys == {} && db.ledger.parked.Keys == {}
  }

  lemma ServerOnwards(ws: seq<World>, steps: seq<Step>, i: nat)
    requires IsRun(ws, steps) && i < |ws|
    ensures EntriesBelong(ws[i].server.blocks)
    ensures forall k | 0 <= k <= i :: KeepsSlots(ws[k].server, ws[i].server) && ws[k].scope == ws[i].scope
  {
    hide Init, Next, KeepsSlots, EntriesBelong;
    if i > 0 {
      ServerOnwards(ws, steps, i - 1);
      StepServer(ws[i - 1], steps[i - 1], ws[i]);
      forall k | 0 <= k < i ensures KeepsSlots(ws[k].server, ws[i].server) {
        SlotsOnwards(ws[k].server, ws[i - 1].server, ws[i].server);
      }
    }
    assert KeepsSlots(ws[i].server, ws[i].server) by { SlotsKept(ws[i].server); }
    assert i == 0 ==> EntriesBelong(ws[i].server.blocks) by { if i == 0 { InitEntries(ws[0]); } }
  }

  lemma InitEntries(w: World)
    requires Init(w)
    ensures EntriesBelong(w.server.blocks)
  {
  }

  lemma SlotsKept(server: Server)
    ensures KeepsSlots(server, server)
  {
  }

  lemma SlotsOnwards(a: Server, b: Server, c: Server)
    requires KeepsSlots(a, b) && KeepsSlots(b, c)
    ensures KeepsSlots(a, c)
  {
    hide SlotOf;
  }

  lemma {:induction false} RunAccounts(ws: seq<World>, steps: seq<Step>, backups: map<nat, nat>, i: nat)
    requires IsRun(ws, steps) && Restores(ws, steps, backups) && FreshAccount(ws[0].spool) && i < |ws|
    ensures AccountsTrue(ws[i])
    decreases i
  {
    hide Init, Next, KeepsSlots, EntriesBelong, WorldInv;
    ServerOnwards(ws, steps, i);
    if i > 0 {
      RunAccounts(ws, steps, backups, i - 1);
      RunKeepsInvariant(ws, steps, i - 1);
      StepServer(ws[i - 1], steps[i - 1], ws[i]);
      if steps[i - 1].ReplaceSpool? {
        var k := backups[i - 1];
        RunAccounts(ws, steps, backups, k);
        ReplacedSpool(ws[i - 1], steps[i - 1], ws[i]);
        AccountsStay(ws[k], ws[i]);
      } else if steps[i - 1].ApplyAck? {
        AppliedStep(ws[i - 1], steps[i - 1], ws[i]);
        AppliedAccount(ws[i - 1], steps[i - 1].reply, ws[i]);
      } else {
        StepAccount(ws[i - 1], steps[i - 1], ws[i]);
        AccountsStay(ws[i - 1], ws[i]);
      }
    }
  }

  lemma ReplacedSpool(w: World, step: Step, w': World)
    requires Next(w, step, w') && step.ReplaceSpool?
    ensures w'.spool == step.other
  {
    hide Inv, Scoped;
  }

  lemma AppliedStep(w: World, step: Step, w': World)
    requires Next(w, step, w') && step.ApplyAck?
    ensures Applies(w, step.reply, w')
  {
    hide Applies;
  }

  // ---- what the present file has seen -------------------------------------------------------

  /** The step takes a sample in that the spool does not know yet. */
  ghost predicate Inserts(w: World, step: Step) {
    step.TakeIn? && step.intake.SampleIn? && !BucketTaken(w.spool, step.intake.sample.observedAt)
  }

  /** The steps from i on and before j that took a sample in. */
  ghost function Inserted(ws: seq<World>, steps: seq<Step>, i: nat, j: nat): set<nat>
    requires j <= |steps| < |ws|
  {
    set k | i <= k < j && Inserts(ws[k], steps[k])
  }

  /** Those of them that the file of world i has seen: a restored file has seen what its backup
      had. */
  ghost function Seen(ws: seq<World>, steps: seq<Step>, backups: map<nat, nat>, i: nat): set<nat>
    requires Restores(ws, steps, backups) && i <= |steps|
  {
    if i == 0 then {}
    else if steps[i - 1].ReplaceSpool? then Seen(ws, steps, backups, backups[i - 1])
    else if Inserts(ws[i - 1], steps[i - 1]) then Seen(ws, steps, backups, i - 1) + {i - 1}
    else Seen(ws, steps, backups, i - 1)
  }

  /** The samples that restored files have forgotten, by the steps that took them in. */
  ghost function Forgotten(ws: seq<World>, steps: seq<Step>, backups: map<nat, nat>, i: nat): set<nat>
    requires Restores(ws, steps, backups) && i <= |steps|
  {
    Inserted(ws, steps, 0, i) - Seen(ws, steps, backups, i)
  }

  lemma {:induction false} SeenWereInserted(ws: seq<World>, steps: seq<Step>, backups: map<nat, nat>, i: nat)
    requires Restores(ws, steps, backups) && i <= |steps|
    ensures Seen(ws, steps, backups, i) <= Inserted(ws, steps, 0, i)
    decreases i
  {
    hide Inserts;
    if i > 0 { SeenWereInserted(ws, steps, backups, if steps[i - 1].ReplaceSpool? then backups[i - 1] else i - 1); }
  }

  /** From one replacement on, the file sees everything. */
  lemma {:induction false} SeenSince(ws: seq<World>, steps: seq<Step>, backups: map<nat, nat>, i: nat, j: nat)
    requires Restores(ws, steps, backups) && i <= j <= |steps| && SameFile(steps, i, j)
    ensures Seen(ws, steps, backups, j) == Seen(ws, steps, backups, i) + Inserted(ws, steps, i, j)
    decreases j
  {
    hide Inserts;
    if i < j {
      SeenSince(ws, steps, backups, i, j - 1);
      assert Inserted(ws, steps, i, j)
          == Inserted(ws, steps, i, j - 1) + (if Inserts(ws[j - 1], steps[j - 1]) then {j - 1} else {});
    }
  }

  /** Without a replacement nothing is forgotten. */
  lemma NothingForgotten(ws: seq<World>, steps: seq<Step>, backups: map<nat, nat>, i: nat)
    requires Restores(ws, steps, backups) && i <= |steps| && SameFile(steps, 0, i)
    ensures Forgotten(ws, steps, backups, i) == {}
  {
    SeenSince(ws, steps, backups, 0, i);
  }

  /** With one, what is forgotten afterwards is exactly what was taken in between the restored backup
      and the replacement, besides what the backup itself had forgotten. */
  lemma ForgottenIsAfterBackup(ws: seq<World>, steps: seq<Step>, backups: map<nat, nat>, r: nat, i: nat)
    requires Restores(ws, steps, backups) && r < i <= |steps|
    requires steps[r].ReplaceSpool? && SameFile(steps, r + 1, i)
    ensures Forgotten(ws, steps, backups, i)
         == Forgotten(ws, steps, backups, backups[r]) + Inserted(ws, steps, backups[r], r)
  {
    hide Inserts;
    IntakesInsert(ws[r], steps[r]);
    SeenSince(ws, steps, backups, r + 1, i);
    SeenWereInserted(ws, steps, backups, backups[r]);
    assert Inserted(ws, steps, 0, i)
        == Inserted(ws, steps, 0, backups[r]) + Inserted(ws, steps, backups[r], r) + Inserted(ws, steps, r + 1, i);
  }

  // ---- every sample -------------------------------------------------------------------------

  /** Where the file has a sample, it has the content taken in. */
  ghost predicate Traced(db: Database, id: SampleId, sample: Sample) {
    && id < db.nextSampleId
    && (id in db.samples ==> db.samples[id] == sample)
    && (id in db.ledger.reported ==> db.ledger.reported[id].sample == sample)
    && (id in db.ledger.parked ==> db.ledger.parked[id].sample == sample)
  }

  /** So many samples come in, under new numbers. */
  ghost predicate Grows(db: Database, db': Database, n: nat) {
    && db'.ledger.appended == db.ledger.appended + n && db'.nextSampleId == db.nextSampleId + n
    && forall id | id in db'.samples && id !in db.samples :: id >= db.nextSampleId
  }

  lemma IntakeGrows(w: World, intake: Intake, db: Database)
    requires TakeInto(w.spool, intake) == Some(db)
    ensures Grows(w.spool, db, if Inserts(w, TakeIn(intake)) then 1 else 0)
  {
  }

  lemma ShedGrows(db: Database, db': Database, shed: Shed)
    requires Sheds(db, db', shed)
    ensures Grows(db, db', 0)
  {
    hide FirstByRank, AnyUpTo;
  }

  lemma LinkingGrows(w: World, step: Step, db: Database)
    requires SpoolStep(w, step, db) && (step.CreateReport? || step.ParkSamples?)
    ensures Grows(w.spool, db, 0)
  {
    hide BuildsReport, AllHaveDelivery, OpenMinutes, HasDelivery, FloorMinute;
  }

  lemma SpoolStepGrows(w: World, step: Step, db: Database)
    requires SpoolStep(w, step, db)
    ensures Grows(w.spool, db, if Inserts(w, step) then 1 else 0)
  {
    hide Sheds, CreatesDelivery, ParkBefore, FirstByRank, TakeInto, BucketTaken;
    match step
    case TakeIn(intake) => IntakeGrows(w, intake, db);
    case ShedData(shed) => ShedGrows(w.spool, db, shed);
    case ParkSamples(_) => LinkingGrows(w, step, db);
    case CreateReport(_, _, _) => LinkingGrows(w, step, db);
    case Redrive(_, _) =>
    case WakeUp(_, _, _) =>
  }

  lemma AcknowledgeGrows(db: Database, r: ReportId)
    ensures Grows(db, Acknowledge(db, r), 0)
  {
    hide OwnedBy, ResultsOf, TakenAlong;
  }

  lemma OtherStepGrows(w: World, step: Step, w': World)
    requires !IsSpoolStep(step) && !step.ReplaceSpool? && Next(w, step, w')
    ensures Grows(w.spool, w'.spool, 0)
  {
    hide Acknowledge, Handles, Known, DecodeAck, SelectsDue, EncodeReport, Inv, Scoped, ScopesAgree;
    if step.ApplyAck? && FlightOf(w).report.id in w.spool.deliveries { AcknowledgeGrows(w.spool, FlightOf(w).report.id); }
  }

  lemma StepGrows(w: World, step: Step, w': World)
    requires Next(w, step, w') && !step.ReplaceSpool?
    ensures Grows(w.spool, w'.spool, if Inserts(w, step) then 1 else 0)
  {
    hide SpoolStep, Grows, BucketTaken, Reserves, Starts, Seals, Serves, Rotates, Applies, Boots, Unrecorded, Inv, Scoped,
         ScopesAgree;
    if IsSpoolStep(step) { SpoolStepGrows(w, step, w'.spool); } else { OtherStepGrows(w, step, w'); }
  }

  lemma SettledTraces(db: Database, db': Database, r: ReportId, id: SampleId, sample: Sample)
    requires Traced(db, id, sample) && Grows(db, db', 0) && KeepsRows(db, db')
    requires db'.ledger == Settled(db, r)
    ensures Traced(db', id, sample)
  {
    hide OwnedBy, InPayload;
  }

  lemma StepTraces(w: World, step: Step, w': World, id: SampleId, sample: Sample)
    requires WorldInv(w) && Next(w, step, w') && !step.ReplaceSpool? && Traced(w.spool, id, sample)
    ensures Traced(w'.spool, id, sample)
  {
    hide WorldInv, Next, Inserts, Settled;
    StepKeepsRows(w, step, w');
    StepGrows(w, step, w');
    IntakesInsert(w, step);
    if step.ApplyAck? {
      AppliedLedger(w, step, w');
      if w'.spool.ledger != w.spool.ledger { SettledTraces(w.spool, w'.spool, FlightOf(w).report.id, id, sample); }
    } else {
      StepAccount(w, step, w');
    }
  }

  lemma AppliedLedger(w: World, step: Step, w': World)
    requires Next(w, step, w') && step.ApplyAck?
    ensures Flying(w)
    ensures w'.spool.ledger == w.spool.ledger || w'.spool.ledger == Settled(w.spool, FlightOf(w).report.id)
  {
    hide Acknowledge, Known, DecodeAck, Settled;
    AppliedStep(w, step, w');
    AcknowledgedAccount(w.spool, FlightOf(w).report.id);
  }

  lemma TakenIsTraced(w: World, step: Step, w': World)
    requires Next(w, step, w') && Inserts(w, step) && FreshNumber(w.spool)
    ensures Traced(w'.spool, w.spool.nextSampleId, step.intake.sample)
  {
  }

  /** The next number is not in use. */
  ghost predicate FreshNumber(db: Database) {
    db.nextSampleId !in db.samples && db.nextSampleId !in db.ledger.reported && db.nextSampleId !in db.ledger.parked
  }

  lemma NumberIsFresh(w: World)
    requires WorldInv(w)
    ensures FreshNumber(w.spool)
  {
  }

  lemma {:induction false} SeenAreTraced(ws: seq<World>, steps: seq<Step>, backups: map<nat, nat>, i: nat, t: nat)
    requires IsRun(ws, steps) && Restores(ws, steps, backups) && i <= |steps| && t in Seen(ws, steps, backups, i)
    ensures t < i && Inserts(ws[t], steps[t]) && Traced(ws[i].spool, ws[t].spool.nextSampleId, steps[t].intake.sample)
    decreases i
  {
    hide Init, Next, WorldInv, Inserts, Traced, FreshNumber;
    RunKeepsInvariant(ws, steps, i - 1);
    if steps[i - 1].ReplaceSpool? {
      SeenAreTraced(ws, steps, backups, backups[i - 1], t);
      ReplacedSpool(ws[i - 1], steps[i - 1], ws[i]);
    } else if t == i - 1 {
      SeenWereInserted(ws, steps, backups, i - 1);
      IntakesInsert(ws[t], steps[t]);
      NumberIsFresh(ws[t]);
      TakenIsTraced(ws[t], steps[t], ws[i]);
    } else {
      SeenAreTraced(ws, steps, backups, i - 1, t);
      IntakesInsert(ws[t], steps[t]);
      StepTraces(ws[i - 1], steps[i - 1], ws[i], ws[t].spool.nextSampleId, steps[t].intake.sample);
    }
    IntakesInsert(ws[t], steps[t]);
  }

  lemma IntakesInsert(w: World, step: Step)
    ensures Inserts(w, step) ==> step.TakeIn? && step.intake.SampleIn?
  {
  }

  /** No two of them share a number. */
  lemma {:induction false} SeenAreDistinct(ws: seq<World>, steps: seq<Step>, backups: map<nat, nat>, i: nat, t: nat, u: nat)
    requires IsRun(ws, steps) && Restores(ws, steps, backups) && i <= |steps|
    requires t in Seen(ws, steps, backups, i) && u in Seen(ws, steps, backups, i) && t < u < i
    ensures ws[t].spool.nextSampleId != ws[u].spool.nextSampleId
    decreases i
  {
    hide Init, Next, Inserts;
    SeenWereInserted(ws, steps, backups, i);
    if steps[i - 1].ReplaceSpool? {
      SeenWereInserted(ws, steps, backups, backups[i - 1]);
      SeenAreDistinct(ws, steps, backups, backups[i - 1], t, u);
    } else if u == i - 1 {
      SeenAreTraced(ws, steps, backups, i - 1, t);
    } else {
      SeenAreDistinct(ws, steps, backups, i - 1, t, u);
    }
  }

  lemma {:induction false} SeenAreCounted(ws: seq<World>, steps: seq<Step>, backups: map<nat, nat>, i: nat)
    requires IsRun(ws, steps) && Restores(ws, steps, backups) && i <= |steps|
    ensures ws[i].spool.ledger.appended == ws[0].spool.ledger.appended + |Seen(ws, steps, backups, i)|
    decreases i
  {
    hide Init, Next, Inserts;
    if i > 0 {
      if steps[i - 1].ReplaceSpool? {
        SeenAreCounted(ws, steps, backups, backups[i - 1]);
        ReplacedSpool(ws[i - 1], steps[i - 1], ws[i]);
      } else {
        SeenAreCounted(ws, steps, backups, i - 1);
        SeenWereInserted(ws, steps, backups, i - 1);
        StepGrows(ws[i - 1], steps[i - 1], ws[i]);
      }
    }
  }

  /** The account of what the present file has seen: each sample ever appended to it is still
      resident, or was acknowledged in a report that the server has, or was parked and deleted with a
      delivery although no report at the server contains it, or was compacted or dropped. */
  lemma FileIsAccounted(ws: seq<World>, steps: seq<Step>, backups: map<nat, nat>, i: nat)
    requires IsRun(ws, steps) && Restores(ws, steps, backups) && FreshAccount(ws[0].spool) && i < |ws|
    ensures var ledger := ws[i].spool.ledger;
      && ledger.appended
         == |ws[i].spool.samples| + |ledger.reported| + |ledger.parked| + ledger.compacted + ledger.dropped
      && ledger.reported.Keys !! ledger.parked.Keys && (ledger.reported.Keys + ledger.parked.Keys) !! ws[i].spool.samples.Keys
      && (forall id | id in ledger.reported :: AtServer(ws[i], ledger.reported[id].sample))
      && (forall id | id in ledger.parked :: !AtServer(ws[i], ledger.parked[id].sample))
  {
    hide Init, Next, EntriesBelong, FloorMinute, Stored, AtServer, GapTotal;
    hide FlightOk, SequencesOk, RequestsOk, ReplayOk, AnswersOk, ScopesAgree, Scoped, Owns, ResultsOwnedOnce;
    RunKeepsInvariant(ws, steps, i);
    RunAccounts(ws, steps, backups, i);
    var ledger := ws[i].spool.ledger;
    forall id | id in ledger.reported ensures AtServer(ws[i], ledger.reported[id].sample) {
      GotIsThere(ws[i], ledger.reported[id]);
    }
    forall id | id in ledger.parked ensures !AtServer(ws[i], ledger.parked[id].sample) {
      MissedIsNowhere(ws[i], ledger.parked[id]);
    }
  }

  /** The account of every sample ever taken in, over every run in which the spool file is only
      replaced by earlier ones.  Each is resident, or at the server in a report, or was parked and is
      in no report at the server, or was compacted or dropped, or was forgotten by a restored file.
      Those that the file has seen have numbers of their own, under which it has the very samples
      taken in. */
  lemma EverySampleAccounted(ws: seq<World>, steps: seq<Step>, backups: map<nat, nat>, i: nat)
    requires IsRun(ws, steps) && Restores(ws, steps, backups) && FreshAccount(ws[0].spool) && i < |ws|
    ensures var ledger := ws[i].spool.ledger;
      && ws[0].spool.ledger.appended + |Inserted(ws, steps, 0, i)|
         == |ws[i].spool.samples| + |ledger.reported| + |ledger.parked| + ledger.compacted + ledger.dropped
            + |Forgotten(ws, steps, backups, i)|
      && ledger.reported.Keys !! ledger.parked.Keys && (ledger.reported.Keys + ledger.parked.Keys) !! ws[i].spool.samples.Keys
      && (forall id | id in ledger.reported :: AtServer(ws[i], ledger.reported[id].sample))
      && (forall id | id in ledger.parked :: !AtServer(ws[i], ledger.parked[id].sample))
      && (forall t | t in Seen(ws, steps, backups, i) ::
            t < i && Inserts(ws[t], steps[t]) && Traced(ws[i].spool, ws[t].spool.nextSampleId, steps[t].intake.sample))
      && (forall t, u | t in Seen(ws, steps, backups, i) && u in Seen(ws, steps, backups, i) && t < u < i ::
            ws[t].spool.nextSampleId != ws[u].spool.nextSampleId)
  {
    hide Init, Next, AtServer, Inserts, Traced;
    FileIsAccounted(ws, steps, backups, i);
    SeenAreCounted(ws, steps, backups, i);
    SeenWereInserted(ws, steps, backups, i);
    assert Inserted(ws, steps, 0, i) == Seen(ws, steps, backups, i) + Forgotten(ws, steps, backups, i);
    forall t | t in Seen(ws, steps, backups, i)
      ensures t < i && Inserts(ws[t], steps[t]) && steps[t].TakeIn? && steps[t].intake.SampleIn?
              && Traced(ws[i].spool, ws[t].spool.nextSampleId, steps[t].intake.sample)
    {
      SeenAreTraced(ws, steps, backups, i, t);
      IntakesInsert(ws[t], steps[t]);
    }
    forall t, u | t in Seen(ws, steps, backups, i) && u in Seen(ws, steps, backups, i) && t < u < i
      ensures ws[t].spool.nextSampleId != ws[u].spool.nextSampleId
    {
      SeenAreDistinct(ws, steps, backups, i, t, u);
    }
  }

  lemma GotIsThere(w: World, g: Gone)
    requires Got(w, g)
    ensures AtServer(w, g.sample)
  {
    hide Stored;
  }
}
