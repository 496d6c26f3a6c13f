/** Every probe result goes into exactly one report. */
module ProbeReports {
  import opened Options
  import opened Sql
  import opened SpoolModel
  import opened SpoolInvariant
  import opened SpoolCapacity
  import opened Ingest
  import opened Protocol
  import opened ProtocolInvariant
  import opened ProtocolSafety
  import opened SampleAccounts

  predicate ReportsProbe(step: Step, p: ProbeId) {
    step.CreateReport? && p in step.report.probes
  }

  predicate TakesProbe(step: Step, p: ProbeId) {
    step.TakeIn? && step.intake.ProbeIn? && step.intake.probeId == p
  }

  // ---- one creation -------------------------------------------------------------------------

  /** The oldest stored probe results up to the report's minute, at most 512 and each once, move from
      the table into the report: afterwards the table has exactly the others. */
  lemma CreationTakesProbes(db: Database, db': Database, report: Report, ids: seq<SampleId>, now: nat)
    requires CreatesDelivery(db, db', report, ids, now)
    ensures db'.probes.Keys == db.probes.Keys - Elements(report.probes)
    ensures forall p | p in db'.probes :: db'.probes[p] == db.probes[p]
    ensures Distinct(report.probes) && |report.probes| <= 512
    ensures forall p | p in report.probes :: p in db.probes && db.probes[p].minute <= report.minute
    ensures forall p, other | p in report.probes && other in db'.probes && db.probes[other].minute <= report.minute ::
      || db.probes[p].minute < db.probes[other].minute
      || (db.probes[p].minute == db.probes[other].minute && db.probes[p].observedAt <= db.probes[other].observedAt)
    ensures |report.probes| < 512 ==> forall other | other in db'.probes :: db'.probes[other].minute > report.minute
  {
    hide UnassignedIn, UnassignedResults, Unassigned, SampleRank, ResultRank, AllHaveDelivery, OpenMinutes, HasDelivery, FloorMinute;
    var parked := ParkBefore(db, report.minute);
    assert parked.probes == db.probes;
    if |report.probes| < 512 {
      AllChosen(ProbesUpTo(parked, report.minute), ProbeRank(parked), MAX_PROBES, report.probes);
      forall other | other in db'.probes ensures db'.probes[other].minute > report.minute {
        assert other !in Elements(report.probes);
      }
    }
  }

  // ---- every other step leaves probe results alone ------------------------------------------

  lemma IntakeKeepsProbes(db: Database, intake: Intake, db': Database, p: ProbeId)
    requires TakeInto(db, intake) == Some(db')
    ensures p in db.probes ==> p in db'.probes && db'.probes[p] == db.probes[p]
    ensures p !in db.probes ==> (p in db'.probes <==> TakesProbe(TakeIn(intake), p))
    ensures p !in db.probes && TakesProbe(TakeIn(intake), p) ==> db'.probes[p] == intake.probe
  {
  }

  lemma ShedKeepsProbes(db: Database, db': Database, shed: Shed)
    requires Sheds(db, db', shed)
    ensures db'.probes == db.probes
  {
    hide FirstByRank, AnyUpTo;
  }

  lemma SpoolStepProbes(w: World, step: Step, db: Database, p: ProbeId)
    requires SpoolStep(w, step, db)
    ensures p in w.spool.probes && !ReportsProbe(step, p) ==> p in db.probes && db.probes[p] == w.spool.probes[p]
    ensures ReportsProbe(step, p) ==> p in w.spool.probes && p !in db.probes
    ensures p !in w.spool.probes ==> (p in db.probes <==> TakesProbe(step, p))
    ensures p !in w.spool.probes && TakesProbe(step, p) ==> db.probes[p] == step.intake.probe
  {
    hide Sheds, CreatesDelivery, ParkBefore, FirstByRank, TakeInto;
    match step
    case TakeIn(intake) => IntakeKeepsProbes(w.spool, intake, db, p);
    case ShedData(shed) => ShedKeepsProbes(w.spool, db, shed);
    case ParkSamples(bound) => ParkedProbes(w.spool, bound);
    case CreateReport(report, ids, now) => CreationTakesProbes(w.spool, db, report, ids, now);
    case Redrive(_, _) =>
    case WakeUp(_, _, _) =>
  }

  lemma ParkedProbes(db: Database, bound: nat)
    ensures ParkBefore(db, bound).probes == db.probes
  {
  }

  lemma OtherStepProbes(w: World, step: Step, w': World)
    requires !IsSpoolStep(step) && !step.ReplaceSpool? && Next(w, step, w')
    ensures w'.spool.probes == w.spool.probes
  {
    hide Handles, Known, DecodeAck, SelectsDue, EncodeReport, Inv, Scoped, ScopesAgree, OwnedBy, ResultsOf, TakenAlong;
  }

  lemma StepProbes(w: World, step: Step, w': World, p: ProbeId)
    requires Next(w, step, w') && !step.ReplaceSpool?
    ensures p in w.spool.probes && !ReportsProbe(step, p) ==> p in w'.spool.probes && w'.spool.probes[p] == w.spool.probes[p]
    ensures ReportsProbe(step, p) ==> p in w.spool.probes && p !in w'.spool.probes
    ensures p !in w.spool.probes ==> (p in w'.spool.probes <==> TakesProbe(step, p))
    ensures p !in w.spool.probes && TakesProbe(step, p) ==> w'.spool.probes[p] == step.intake.probe
  {
    hide SpoolStep, Reserves, Starts, Seals, Serves, Rotates, Applies, Boots, Unrecorded, Inv, Scoped, ScopesAgree;
    if IsSpoolStep(step) { SpoolStepProbes(w, step, w'.spool, p); } else { OtherStepProbes(w, step, w'); }
  }

  // ---- over runs ----------------------------------------------------------------------------

  /** A probe result that was taken in is still in the table exactly as long as no report took it. */
  lemma {:induction false} ResidentUnlessReported(ws: seq<World>, steps: seq<Step>, i: nat, j: nat, p: ProbeId)
    requires IsPath(ws, steps) && i < j <= |steps| && SameFile(steps, i, j)
    requires p !in ws[i].spool.probes && TakesProbe(steps[i], p)
    requires forall k | i < k < j :: !TakesProbe(steps[k], p)
    ensures p in ws[j].spool.probes <==> forall k | i < k < j :: !ReportsProbe(steps[k], p)
    ensures p in ws[j].spool.probes ==> ws[j].spool.probes[p] == steps[i].intake.probe
    decreases j
  {
    hide Next;
    StepProbes(ws[j - 1], steps[j - 1], ws[j], p);
    if i + 1 < j { ResidentUnlessReported(ws, steps, i, j - 1, p); }
  }

  /** On one spool file, a probe result is in the payload of at most one report, unless the same
      execution was taken in again between. */
  lemma ReportedOnce(ws: seq<World>, steps: seq<Step>, i: nat, j: nat, p: ProbeId)
    requires IsRun(ws, steps) && i < j < |steps| && SameFile(steps, i, j)
    requires ReportsProbe(steps[i], p) && ReportsProbe(steps[j], p)
    ensures exists k | i < k < j :: TakesProbe(steps[k], p)
  {
    hide Next, Init;
    StepProbes(ws[i], steps[i], ws[i + 1], p);
    if forall k | i < k < j :: !TakesProbe(steps[k], p) {
      StaysAway(ws, steps, i + 1, j, p);
      StepProbes(ws[j], steps[j], ws[j + 1], p);
    }
  }

  lemma {:induction false} StaysAway(ws: seq<World>, steps: seq<Step>, i: nat, j: nat, p: ProbeId)
    requires IsPath(ws, steps) && i <= j <= |steps| && SameFile(steps, i, j)
    requires p !in ws[i].spool.probes && forall k | i <= k < j :: !TakesProbe(steps[k], p)
    ensures p !in ws[j].spool.probes
    decreases j
  {
    hide Next;
    if i < j {
      StaysAway(ws, steps, i, j - 1, p);
      StepProbes(ws[j - 1], steps[j - 1], ws[j], p);
    }
  }

  /** Every probe result taken in once is, ever after on its file, either in the table or in exactly
      one report. */
  lemma ResidentOrReportedOnce(ws: seq<World>, steps: seq<Step>, i: nat, j: nat, p: ProbeId)
    requires IsRun(ws, steps) && i < j <= |steps| && SameFile(steps, i, j)
    requires p !in ws[i].spool.probes && TakesProbe(steps[i], p)
    requires forall k | i < k < j :: !TakesProbe(steps[k], p)
    ensures p in ws[j].spool.probes || exists k | i < k < j :: ReportsProbe(steps[k], p)
    ensures p in ws[j].spool.probes ==> forall k | i < k < j :: !ReportsProbe(steps[k], p)
    ensures forall k, m | i < k < m < j :: !(ReportsProbe(steps[k], p) && ReportsProbe(steps[m], p))
  {
    hide Next, Init;
    ResidentUnlessReported(ws, steps, i, j, p);
    forall k, m | i < k < m < j ensures !(ReportsProbe(steps[k], p) && ReportsProbe(steps[m], p)) {
      if ReportsProbe(steps[k], p) && ReportsProbe(steps[m], p) { ReportedOnce(ws, steps, k, m, p); }
    }
  }
}
