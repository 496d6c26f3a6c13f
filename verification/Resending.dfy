/** A report whose answer got lost is sent again, answered as a duplicate and removed. */
module Resending {
  import opened Options
  import opened Sql
  import opened SpoolModel
  import opened SpoolInvariant
  import opened ReplayWindow
  import opened Ingest
  import opened Protocol
  import opened ProtocolInvariant
  import opened ProtocolSafety
  import opened ProtocolRuns

  /** No other pending delivery is of an earlier minute. */
  ghost predicate IsEarliest(db: Database, due: ReportId) {
    && IsPending(db, due)
    && forall r | r in db.deliveries && db.deliveries[r].state == Pending :: db.deliveries[due].minute <= db.deliveries[r].minute
  }

  lemma DueAgain(db: Database, due: ReportId, nextAttemptAt: nat, retryAt: nat, later: nat)
    requires IsEarliest(db, due) && BeginAttempt(db, due, nextAttemptAt).Begun? && retryAt <= later
    ensures var begun := BeginAttempt(db, due, nextAttemptAt).db;
      && Reschedule(begun, due, retryAt, UploadFailed).Some?
      && (var db' := Reschedule(begun, due, retryAt, UploadFailed).value;
          && SelectsDue(db', later, Some(due)) && db'.sequence == db.sequence + 1
          && due in db.deliveries && due in db'.deliveries && db'.deliveries[due].payload == db.deliveries[due].payload
          && db'.deliveries[due].minute == db.deliveries[due].minute)
  {
  }

  lemma ReadyAgain(w: World, due: ReportId, now: nat, nextAttemptAt: nat, retryAt: nat, later: nat, w': World)
    requires ReadyToUpload(w, due, now) && IsEarliest(w.spool, due) && retryAt <= later && now <= later
    requires w.spool.sequence + 1 < MAX_SEQUENCE
    requires UnheardLeaves(w, due, nextAttemptAt, UploadFailsForNow(retryAt, UploadFailed), w')
    requires w'.agent == w.agent && w'.scope == w.scope && w'.server.keys == w.server.keys
    requires w'.process.Some? && w'.process.value.config.epoch == w.process.value.config.epoch
    ensures ReadyToUpload(w', due, later)
    ensures due in w'.spool.deliveries && due in w.spool.deliveries
    ensures w'.spool.deliveries[due].payload == w.spool.deliveries[due].payload
  {
    hide AfterWrite, BeginAttempt, Reschedule, SelectsDue;
    DueAgain(w.spool, due, nextAttemptAt, retryAt, later);
  }

  /** The answer to a due report gets lost, the report is sent again once the retry is due, and its
      delivery goes with an answer that says duplicate. */
  lemma SentAgain(w: World, due: ReportId, now: nat, nextAttemptAt: nat, retryAt: nat, later: nat)
    returns (ws: seq<World>, steps: seq<Step>)
    requires WorldInv(w) && ReadyToUpload(w, due, now) && IsEarliest(w.spool, due)
    requires w.spool.sequence + 1 < MAX_SEQUENCE && retryAt <= later && now <= later
    ensures IsPath(ws, steps) && |steps| == 10 && ws[0] == w && due in w.spool.deliveries
    ensures steps[4] == UploadFailsForNow(retryAt, UploadFailed) && steps[9].ApplyAck?
    ensures due in ws[5].spool.deliveries && Stored(ws[5].server, w.spool.deliveries[due].payload)
    ensures steps[8].Serve? && Acknowledges(steps[8].answer, w.spool.deliveries[due].payload, Duplicate)
    ensures due !in ws[10].spool.deliveries && Stored(ws[10].server, w.spool.deliveries[due].payload)
  {
    hide WorldInv, Next, ReadyToUpload, Stored, IsEarliest, UnheardLeaves, Acknowledges;
    var ending := UploadFailsForNow(retryAt, UploadFailed);
    var first, moves := DeliveryGoesUnheard(w, due, now, nextAttemptAt, ending);
    PathKeeps(first, moves, 5);
    StoredUnheard(w, due, nextAttemptAt, ending, first[5]);
    ReadyAgain(w, due, now, nextAttemptAt, retryAt, later, first[5]);
    var second, more := DeliveryGetsThrough(first[5], due, later, later);
    ws, steps := first + second[1..], moves + more;
    forall i | 0 <= i < 10 ensures Next(ws[i], steps[i], ws[i + 1]) {
      if i >= 5 { assert ws[i] == second[i - 5] && ws[i + 1] == second[i - 4] && steps[i] == more[i - 5]; }
    }
  }

  lemma StoredUnheard(w: World, due: ReportId, nextAttemptAt: nat, ending: Step, w': World)
    requires EndsUnheard(ending) && UnheardLeaves(w, due, nextAttemptAt, ending, w')
    ensures due in w.spool.deliveries && Stored(w'.server, w.spool.deliveries[due].payload)
    ensures w'.process.Some?
  {
    hide Stored;
  }

  lemma {:induction false} PathKeeps(ws: seq<World>, steps: seq<Step>, i: nat)
    requires IsPath(ws, steps) && i <= |steps| && WorldInv(ws[0])
    ensures WorldInv(ws[i])
  {
    hide WorldInv, Next;
    if i > 0 {
      PathKeeps(ws, steps, i - 1);
      NextKeeps(ws[i - 1], steps[i - 1], ws[i]);
    }
  }

  /** A run from the start in which this happens. */
  lemma SentAgainRun() returns (ws: seq<World>, steps: seq<Step>)
    ensures IsRun(ws, steps) && |steps| == 15 && steps[9].UploadFailsForNow? && steps[14].ApplyAck?
    ensures 1 in ws[10].spool.deliveries && Stored(ws[10].server, REPORT)
    ensures steps[13].Serve? && Acknowledges(steps[13].answer, REPORT, Duplicate)
    ensures 1 !in ws[15].spool.deliveries && Stored(ws[15].server, REPORT)
  {
    hide Init, Next, ReadyToUpload, PARKED, WorldInv, Stored, IsEarliest, Acknowledges;
    var start, first := ParkedRun();
    RunKeepsInvariant(start, first, 5);
    ReportIsDue();
    ParkedIsEarliest();
    var path, last := SentAgain(Running(PARKED, 0), 1, MINUTE, MINUTE, 2 * MINUTE, 2 * MINUTE);
    Joined(start, first, path, last);
    ws, steps := start + path[1..], first + last;
  }

  lemma ParkedIsEarliest()
    ensures IsEarliest(PARKED, 1) && PARKED.sequence == 0 && PARKED.deliveries[1].payload == REPORT
  {
    hide ParkBefore;
    SecondTaken();
    SecondParked();
  }
}
