/** How often a command result is reported. */
module CommandReports {
  import opened Options
  import opened Sql
  import opened SpoolModel
  import opened SpoolInvariant
  import opened SpoolCapacity
  import opened Ingest
  import opened Protocol
  import opened ProtocolInvariant
  import opened ProtocolSafety

  /** The step takes the delivery away from under capacity pressure. */
  predicate Evicted(step: Step, r: ReportId) {
    step.ShedData? && step.shed.EvictPass? && r in step.shed.gone
  }

  predicate AcknowledgedIn(w: World, step: Step, r: ReportId) {
    step.ApplyAck? && Flying(w) && FlightOf(w).report.id == r
  }

  /** The delivery goes, in one of the three ways there are. */
  predicate LeavesSpool(w: World, step: Step, r: ReportId) {
    Evicted(step, r) || AcknowledgedIn(w, step, r) || step.ReplaceSpool?
  }

  predicate Completes(step: Step, c: CommandId) {
    step.TakeIn? && step.intake.CommandEnds? && step.intake.command == c
  }

  // ---- ownership of results stays -----------------------------------------------------------

  lemma ShedKeepsResult(db: Database, db': Database, shed: Shed, l: CommandLink)
    requires Sheds(db, db', shed) && l in db.resultLinks && !Evicted(ShedData(shed), l.report)
    ensures l in db'.resultLinks
  {
    hide FirstByRank, AnyUpTo;
  }

  /** Building reports and parking add owners of results and nothing else about results. */
  lemma LinkingKeepsResults(w: World, step: Step, db: Database)
    requires SpoolStep(w, step, db) && (step.CreateReport? || step.ParkSamples?)
    ensures db.results == w.spool.results && w.spool.resultLinks <= db.resultLinks
  {
    hide BuildsReport, AllHaveDelivery, OpenMinutes, HasDelivery, FloorMinute, Unassigned;
  }

  lemma IntakeKeepsResults(db: Database, intake: Intake, db': Database)
    requires TakeInto(db, intake) == Some(db')
    ensures db'.resultLinks == db.resultLinks
    ensures forall c | c in db'.results && c !in db.results :: Completes(TakeIn(intake), c)
  {
  }

  lemma ShedKeepsResults(db: Database, db': Database, shed: Shed)
    requires Sheds(db, db', shed)
    ensures db'.results == db.results
  {
    hide FirstByRank, AnyUpTo;
  }

  lemma SpoolStepKeepsResult(w: World, step: Step, db: Database, l: CommandLink)
    requires SpoolStep(w, step, db) && l in w.spool.resultLinks && !Evicted(step, l.report)
    ensures l in db.resultLinks
  {
    hide Sheds, CreatesDelivery, ParkBefore, FirstByRank, TakeInto, Completes;
    match step
    case TakeIn(intake) => IntakeKeepsResults(w.spool, intake, db);
    case ShedData(shed) => ShedKeepsResult(w.spool, db, shed, l);
    case ParkSamples(_) => LinkingKeepsResults(w, step, db);
    case CreateReport(_, _, _) => LinkingKeepsResults(w, step, db);
    case Redrive(_, _) =>
    case WakeUp(_, _, _) =>
  }

  lemma AcknowledgeKeepsResult(db: Database, r: ReportId, l: CommandLink)
    requires l in db.resultLinks && l.report != r
    ensures l in Acknowledge(db, r).resultLinks
  {
    hide OwnedBy, ResultsOf, Settled;
  }

  lemma OtherStepKeepsResult(w: World, step: Step, w': World, l: CommandLink)
    requires !IsSpoolStep(step) && Next(w, step, w') && !LeavesSpool(w, step, l.report) && l in w.spool.resultLinks
    ensures l in w'.spool.resultLinks
  {
    hide Acknowledge, Handles, Known, DecodeAck, SelectsDue, EncodeReport, Inv, Scoped, ScopesAgree;
    if step.ApplyAck? { AcknowledgeKeepsResult(w.spool, FlightOf(w).report.id, l); }
  }

  lemma StepKeepsResult(w: World, step: Step, w': World, l: CommandLink)
    requires Next(w, step, w') && !LeavesSpool(w, step, l.report) && l in w.spool.resultLinks
    ensures l in w'.spool.resultLinks
  {
    hide SpoolStep, Reserves, Starts, Seals, Serves, Rotates, Applies, Boots, Unrecorded, Inv, Scoped, ScopesAgree;
    if IsSpoolStep(step) { SpoolStepKeepsResult(w, step, w'.spool, l); } else { OtherStepKeepsResult(w, step, w', l); }
  }

  lemma {:induction false} ResultStays(ws: seq<World>, steps: seq<Step>, i: nat, j: nat, l: CommandLink)
    requires IsPath(ws, steps) && i <= j <= |steps| && l in ws[i].spool.resultLinks
    requires forall k | i <= k < j :: !LeavesSpool(ws[k], steps[k], l.report)
    ensures l in ws[j].spool.resultLinks
    decreases j
  {
    hide Next;
    if i < j {
      ResultStays(ws, steps, i, j - 1, l);
      StepKeepsResult(ws[j - 1], steps[j - 1], ws[j], l);
    }
  }

  /** A created report owns its results, and they had no owner. */
  lemma CreatedOwnsResults(w: World, step: Step, w': World, c: CommandId)
    requires Next(w, step, w') && step.CreateReport? && c in step.report.commandResults
    ensures CommandLink(step.report.id, c) in w'.spool.resultLinks
    ensures c in w.spool.results && forall r :: CommandLink(r, c) !in w.spool.resultLinks
  {
    hide FloorMinute, AllHaveDelivery, OpenMinutes, HasDelivery, UnassignedIn, ProbesUpTo;
    var parked := ParkBefore(w.spool, step.report.minute);
    assert parked.results == w.spool.results && parked.resultLinks == w.spool.resultLinks;
    assert c in UnassignedResults(parked);
  }

  /** A command result goes into a second report only after its first delivery was evicted, was
      acknowledged, or went with its file. */
  lemma ReportedAgainOnlyAfterLeaving(ws: seq<World>, steps: seq<Step>, i: nat, j: nat, c: CommandId)
    requires IsRun(ws, steps) && i < j < |steps|
    requires steps[i].CreateReport? && c in steps[i].report.commandResults
    requires steps[j].CreateReport? && c in steps[j].report.commandResults
    ensures exists k | i < k < j :: LeavesSpool(ws[k], steps[k], steps[i].report.id)
  {
    hide Next, Init, LeavesSpool;
    CreatedOwnsResults(ws[i], steps[i], ws[i + 1], c);
    CreatedOwnsResults(ws[j], steps[j], ws[j + 1], c);
    if forall k | i < k < j :: !LeavesSpool(ws[k], steps[k], steps[i].report.id) {
      ResultStays(ws, steps, i + 1, j, CommandLink(steps[i].report.id, c));
    }
  }

  // ---- acknowledged results are gone --------------------------------------------------------

  lemma SpoolStepNeedsCompletion(w: World, step: Step, db: Database, c: CommandId)
    requires SpoolStep(w, step, db) && c !in w.spool.results && !Completes(step, c)
    ensures c !in db.results
  {
    hide Sheds, CreatesDelivery, ParkBefore, FirstByRank, TakeInto, Completes;
    match step
    case TakeIn(intake) => IntakeKeepsResults(w.spool, intake, db);
    case ShedData(shed) => ShedKeepsResults(w.spool, db, shed);
    case ParkSamples(_) => LinkingKeepsResults(w, step, db);
    case CreateReport(_, _, _) => LinkingKeepsResults(w, step, db);
    case Redrive(_, _) =>
    case WakeUp(_, _, _) =>
  }

  lemma AcknowledgeBringsNone(db: Database, r: ReportId, c: CommandId)
    ensures c !in db.results ==> c !in Acknowledge(db, r).results
    ensures CommandLink(r, c) in db.resultLinks ==> c !in Acknowledge(db, r).results
  {
    hide OwnedBy, Settled;
    if CommandLink(r, c) in db.resultLinks { assert c in ResultsOf(db, r); }
  }

  lemma OtherStepNeedsCompletion(w: World, step: Step, w': World, c: CommandId)
    requires !IsSpoolStep(step) && Next(w, step, w') && !step.ReplaceSpool? && c !in w.spool.results
    ensures c !in w'.spool.results
  {
    hide Acknowledge, Handles, Known, DecodeAck, SelectsDue, EncodeReport, Inv, Scoped, ScopesAgree;
    if step.ApplyAck? { AcknowledgeBringsNone(w.spool, FlightOf(w).report.id, c); }
  }

  lemma StepNeedsCompletion(w: World, step: Step, w': World, c: CommandId)
    requires Next(w, step, w') && !step.ReplaceSpool? && c !in w.spool.results && !Completes(step, c)
    ensures c !in w'.spool.results
  {
    hide SpoolStep, Reserves, Starts, Seals, Serves, Rotates, Applies, Boots, Unrecorded, Inv, Scoped, ScopesAgree;
    if IsSpoolStep(step) { SpoolStepNeedsCompletion(w, step, w'.spool, c); } else { OtherStepNeedsCompletion(w, step, w', c); }
  }

  lemma {:induction false} StaysGone(ws: seq<World>, steps: seq<Step>, i: nat, j: nat, c: CommandId)
    requires IsPath(ws, steps) && i <= j <= |steps| && c !in ws[i].spool.results
    requires forall k | i <= k < j :: !steps[k].ReplaceSpool? && !Completes(steps[k], c)
    ensures c !in ws[j].spool.results
    decreases j
  {
    hide Next;
    if i < j {
      StaysGone(ws, steps, i, j - 1, c);
      StepNeedsCompletion(ws[j - 1], steps[j - 1], ws[j], c);
    }
  }

  lemma AcknowledgedIsGone(w: World, step: Step, w': World, r: ReportId, c: CommandId)
    requires WorldInv(w) && Next(w, step, w') && AcknowledgedIn(w, step, r) && CommandLink(r, c) in w.spool.resultLinks
    ensures c !in w'.spool.results
  {
    hide Acknowledge, Known, DecodeAck, Inv;
    AppliedAck(w, step.reply, w');
    AcknowledgeBringsNone(w.spool, r, c);
  }

  /** The first step in the range at which the delivery goes. */
  lemma {:induction false} FirstLeaving(ws: seq<World>, steps: seq<Step>, i: nat, j: nat, r: ReportId) returns (k: nat)
    requires |ws| == |steps| + 1 && i <= j <= |steps| && exists k | i <= k < j :: LeavesSpool(ws[k], steps[k], r)
    ensures i <= k < j && LeavesSpool(ws[k], steps[k], r) && forall m | i <= m < k :: !LeavesSpool(ws[m], steps[m], r)
    decreases j - i
  {
    hide LeavesSpool;
    if LeavesSpool(ws[i], steps[i], r) { k := i; } else { k := FirstLeaving(ws, steps, i + 1, j, r); }
  }

  /** On one spool file a result is reported again only when its delivery was evicted, or when the
      delivery was acknowledged and the command ran to its end once more. */
  lemma ReportedAgainAfterEviction(ws: seq<World>, steps: seq<Step>, i: nat, j: nat, c: CommandId)
    requires IsRun(ws, steps) && i < j < |steps| && forall k | i < k < j :: !steps[k].ReplaceSpool?
    requires steps[i].CreateReport? && c in steps[i].report.commandResults
    requires steps[j].CreateReport? && c in steps[j].report.commandResults
    ensures || (exists k | i < k < j :: Evicted(steps[k], steps[i].report.id))
            || (exists k, m | i < k < m < j :: AcknowledgedIn(ws[k], steps[k], steps[i].report.id) && Completes(steps[m], c))
  {
    hide Next, Init, WorldInv, LeavesSpool, AcknowledgedIn, Evicted, Completes;
    var r := steps[i].report.id;
    ReportedAgainOnlyAfterLeaving(ws, steps, i, j, c);
    var k := FirstLeaving(ws, steps, i + 1, j, r);
    HowItLeaves(ws[k], steps[k], r);
    if !Evicted(steps[k], r) {
      CreatedOwnsResults(ws[i], steps[i], ws[i + 1], c);
      ResultStays(ws, steps, i + 1, k, CommandLink(r, c));
      RunKeepsInvariant(ws, steps, k);
      AcknowledgedIsGone(ws[k], steps[k], ws[k + 1], r, c);
      CreatedOwnsResults(ws[j], steps[j], ws[j + 1], c);
      if forall m | k < m < j :: !Completes(steps[m], c) {
        StaysGone(ws, steps, k + 1, j, c);
      }
    }
  }

  lemma HowItLeaves(w: World, step: Step, r: ReportId)
    requires LeavesSpool(w, step, r)
    ensures Evicted(step, r) || AcknowledgedIn(w, step, r) || step.ReplaceSpool?
  {
  }
}
