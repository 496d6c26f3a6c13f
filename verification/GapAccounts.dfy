/** When the hourly counters of `data_gaps` agree with what capacity calls dropped.

    The drop and its record are two statements.  Between them the loss is open; it stays out of
    the counters for good when the agent dies there or the record fails. */
module GapAccounts {
  import opened Options
  import opened Sql
  import opened SpoolModel
  import opened SpoolInvariant
  import opened SpoolCapacity
  import opened Ingest
  import opened Protocol
  import opened ProtocolInvariant
  import opened ProtocolSafety
  import opened SampleAccounts

  /** The step ends a capacity call between its drop and its record. */
  predicate CutsShort(w: World, step: Step) {
    OpenLoss(w) > 0 && (step.Crash? || step.RecordFails?)
  }

  function LostBy(w: World, step: Step): nat {
    if CutsShort(w, step) then OpenLoss(w) else 0
  }

  /** The samples lost track of from world i to world j. */
  function LostBetween(ws: seq<World>, steps: seq<Step>, i: nat, j: nat): nat
    requires i <= j <= |steps| < |ws|
  {
    if i == j then 0 else LostBetween(ws, steps, i, j - 1) + LostBy(ws[j - 1], steps[j - 1])
  }

  /** The dropped samples that are in no counter. */
  ghost function Missing(db: Database): int {
    db.ledger.dropped - GapTotal(db.gaps)
  }

  ghost predicate Accounts(w: World, step: Step, w': World) {
    w'.spool.ledger.unrecorded - OpenLoss(w') == w.spool.ledger.unrecorded - OpenLoss(w) + LostBy(w, step)
  }

  lemma ShedAccounts(db: Database, db': Database, shed: Shed)
    requires Sheds(db, db', shed)
    ensures db'.ledger.unrecorded == db.ledger.unrecorded + DroppedBy(ShedData(shed)) - RecordedBy(ShedData(shed))
  {
    hide FirstByRank, AnyUpTo;
  }

  lemma LinkingAccounts(w: World, step: Step, db: Database)
    requires SpoolStep(w, step, db) && (step.CreateReport? || step.ParkSamples?)
    ensures db.ledger == w.spool.ledger
  {
    hide BuildsReport, AllHaveDelivery, OpenMinutes, HasDelivery, FloorMinute;
  }

  lemma IntakeAccounts(db: Database, intake: Intake, db': Database)
    requires TakeInto(db, intake) == Some(db')
    ensures db'.ledger.unrecorded == db.ledger.unrecorded
  {
  }

  lemma SpoolLedger(w: World, step: Step, db: Database)
    requires SpoolStep(w, step, db)
    ensures db.ledger.unrecorded == w.spool.ledger.unrecorded + DroppedBy(step) - RecordedBy(step)
  {
    hide Sheds, CreatesDelivery, ParkBefore, FirstByRank, TakeInto;
    match step
    case TakeIn(intake) => IntakeAccounts(w.spool, intake, db);
    case ShedData(shed) => ShedAccounts(w.spool, db, shed);
    case ParkSamples(_) => LinkingAccounts(w, step, db);
    case CreateReport(_, _, _) => LinkingAccounts(w, step, db);
    case Redrive(_, _) =>
    case WakeUp(_, _, _) =>
  }

  lemma SpoolStepAccounts(w: World, step: Step, w': World)
    requires IsSpoolStep(step) && Next(w, step, w')
    ensures Accounts(w, step, w')
  {
    hide SpoolStep;
    SpoolLedger(w, step, w'.spool);
  }

  lemma OtherStepAccounts(w: World, step: Step, w': World)
    requires !IsSpoolStep(step) && !step.ReplaceSpool? && Next(w, step, w')
    ensures Accounts(w, step, w')
  {
    hide SpoolStep, Handles, Known, DecodeAck, SelectsDue, EncodeReport, Inv, Scoped, ScopesAgree, TakenAlong;
  }

  lemma StepAccounts(w: World, step: Step, w': World)
    requires Next(w, step, w') && !step.ReplaceSpool?
    ensures Accounts(w, step, w')
  {
    hide Next, Accounts;
    if IsSpoolStep(step) { SpoolStepAccounts(w, step, w'); } else { OtherStepAccounts(w, step, w'); }
  }

  lemma MissingIsUnrecorded(w: World)
    requires WorldInv(w)
    ensures Missing(w.spool) == w.spool.ledger.unrecorded
  {
    hide GapTotal;
  }

  /** What is open was dropped in this file and is not recorded, so a record never takes more than
      there is. */
  lemma {:induction false} OpenIsUnrecorded(ws: seq<World>, steps: seq<Step>, i: nat)
    requires IsRun(ws, steps) && i < |ws|
    ensures OpenLoss(ws[i]) <= ws[i].spool.ledger.unrecorded
  {
    hide Init, Next;
    if i == 0 {
      NotRunning(ws[0]);
    } else {
      OpenIsUnrecorded(ws, steps, i - 1);
      if steps[i - 1].ReplaceSpool? {
        ReplacedWhileDown(ws[i - 1], steps[i - 1], ws[i]);
      } else {
        StepAccounts(ws[i - 1], steps[i - 1], ws[i]);
      }
    }
  }

  lemma NotRunning(w: World)
    requires Init(w)
    ensures OpenLoss(w) == 0
  {
  }

  lemma ReplacedWhileDown(w: World, step: Step, w': World)
    requires Next(w, step, w') && step.ReplaceSpool?
    ensures OpenLoss(w') == 0
  {
    hide Inv, Scoped;
  }

  /** Over any stretch of a run on one spool file, the samples missing in the counters change by
      exactly what calls cut short lost track of, and what is open. */
  lemma {:induction false} MissingIsLost(ws: seq<World>, steps: seq<Step>, i: nat, j: nat)
    requires IsRun(ws, steps) && i <= j <= |steps| && SameFile(steps, i, j)
    ensures Missing(ws[j].spool) - OpenLoss(ws[j])
         == Missing(ws[i].spool) - OpenLoss(ws[i]) + LostBetween(ws, steps, i, j)
    decreases j
  {
    hide Init, Next, WorldInv, Missing;
    if i < j {
      MissingIsLost(ws, steps, i, j - 1);
      RunKeepsInvariant(ws, steps, j - 1);
      RunKeepsInvariant(ws, steps, j);
      MissingIsUnrecorded(ws[j - 1]);
      MissingIsUnrecorded(ws[j]);
      StepAccounts(ws[j - 1], steps[j - 1], ws[j]);
    }
  }

  lemma {:induction false} NothingLostIff(ws: seq<World>, steps: seq<Step>, i: nat, j: nat)
    requires i <= j <= |steps| < |ws|
    ensures LostBetween(ws, steps, i, j) == 0 <==> forall k | i <= k < j :: !CutsShort(ws[k], steps[k])
    decreases j
  {
    if i < j { NothingLostIff(ws, steps, i, j - 1); }
  }

  /** From agreeing counters on, and with no loss open, the counters sum to the dropped samples if
      and only if no capacity call was cut short between its drop and its record. */
  lemma CountersAgreeIff(ws: seq<World>, steps: seq<Step>, i: nat, j: nat)
    requires IsRun(ws, steps) && i <= j <= |steps| && SameFile(steps, i, j)
    requires GapTotal(ws[i].spool.gaps) == ws[i].spool.ledger.dropped && OpenLoss(ws[j]) == 0
    ensures GapTotal(ws[j].spool.gaps) == ws[j].spool.ledger.dropped
       <==> forall k | i <= k < j :: !CutsShort(ws[k], steps[k])
  {
    hide Init, Next, WorldInv, GapTotal;
    RunKeepsInvariant(ws, steps, i);
    MissingIsUnrecorded(ws[i]);
    OpenIsUnrecorded(ws, steps, i);
    MissingIsLost(ws, steps, i, j);
    NothingLostIff(ws, steps, i, j);
  }
}
