/** What holds in every run of the report protocol. */
module ProtocolSafety {
  import opened Options
  import opened Sql
  import opened SpoolModel
  import opened SpoolInvariant
  import opened SpoolCapacity
  import opened ReplayWindow
  import opened Ingest
  import opened Protocol
  import opened ProtocolInvariant

  /** Worlds joined by steps. */
  ghost predicate IsPath(ws: seq<World>, steps: seq<Step>) {
    |ws| == |steps| + 1 && forall i | 0 <= i < |steps| :: Next(ws[i], steps[i], ws[i + 1])
  }

  ghost predicate IsRun(ws: seq<World>, steps: seq<Step>) {
    IsPath(ws, steps) && Init(ws[0])
  }

  lemma {:induction false} RunKeepsInvariant(ws: seq<World>, steps: seq<Step>, i: nat)
    requires IsRun(ws, steps) && i < |ws|
    ensures WorldInv(ws[i])
  {
    hide Init, Next, WorldInv;
    if i == 0 {
      InitKeeps(ws[0]);
    } else {
      RunKeepsInvariant(ws, steps, i - 1);
      NextKeeps(ws[i - 1], steps[i - 1], ws[i]);
    }
  }

  // ---- acknowledged means stored ------------------------------------------------------------

  lemma NextKeepsSlots(w: World, step: Step, w': World)
    requires Next(w, step, w')
    ensures KeepsSlots(w.server, w'.server)
  {
    hide SlotOf, SpoolStep, Handles, Known;
    if step.Serve? {
      HandlesKeepsSlots(w.server, w'.server, step.request, step.now, step.progress, step.rotateTo, step.report, step.answer);
    }
  }

  lemma {:induction false} StoredForever(ws: seq<World>, steps: seq<Step>, i: nat, j: nat, report: Report)
    requires IsPath(ws, steps) && i <= j < |ws|
    requires Stored(ws[i].server, report) && report.minute % MINUTE == 0
    ensures Stored(ws[j].server, report)
    decreases j - i
  {
    hide Next, SlotOf;
    if i < j {
      NextKeepsSlots(ws[i], steps[i], ws[i + 1]);
      StoredForever(ws, steps, i + 1, j, report);
    }
  }

  /** A reply that proves an acknowledgement was sealed by the server for this very report, and
      the report is in its slot. */
  lemma ProofMeansStored(w: World, reply: Envelope)
    requires WorldInv(w) && Proves(w, reply)
    ensures Stored(w.server, FlightOf(w).report) && FlightOf(w).report.minute % MINUTE == 0
  {
    assert RequestsOk(w) && AnswersOk(w);
    var e :| e in w.requests + w.answers && e.ciphertext == reply.ciphertext;
    assert e in w.answers;
    assert IsAnswer(w, e);
  }

  lemma AppliedAck(w: World, reply: Envelope, w': World)
    requires WorldInv(w) && Applies(w, reply, w')
    ensures Flying(w)
    ensures var report := FlightOf(w).report;
      && report.id in w.spool.deliveries && w.spool.deliveries[report.id].payload == report
      && report.machinePk == w.scope.machinePk
      && report.id !in w'.spool.deliveries
  {
    assert Flying(w) && FlightOk(w) && Scoped(w, w.spool);
    assert FlightOf(w).report.id !in Acknowledge(w.spool, FlightOf(w).report.id).deliveries;
    ScopedDelivery(w, FlightOf(w).report.id);
  }

  lemma ScopedDelivery(w: World, r: ReportId)
    requires Scoped(w, w.spool) && r in w.spool.deliveries
    ensures w.spool.deliveries[r].payload.machinePk == w.scope.machinePk
    ensures w.spool.deliveries[r].payload.workspacePk == w.scope.workspacePk
  {
  }

  /** Whenever an acknowledgement removes a delivery, the delivery was there with the payload that
      was sent, and the server's slot for its minute holds exactly that report: now and at every
      later point of the run, whatever other reports arrive. */
  lemma AcknowledgedIsStored(ws: seq<World>, steps: seq<Step>, i: nat, j: nat)
    requires IsRun(ws, steps) && i < j < |ws| && steps[i].ApplyAck?
    ensures Flying(ws[i])
    ensures var report := FlightOf(ws[i]).report;
      && report.id in ws[i].spool.deliveries && ws[i].spool.deliveries[report.id].payload == report
      && report.machinePk == ws[i].scope.machinePk
      && report.id !in ws[i + 1].spool.deliveries
      && Stored(ws[i].server, report) && Stored(ws[j].server, report)
  {
    hide Init, WorldInv, Stored, SpoolStep, Starts, Serves, Seals, Rotates, Boots, Reserves, Acknowledge;
    RunKeepsInvariant(ws, steps, i);
    assert Next(ws[i], steps[i], ws[i + 1]);
    AppliedAck(ws[i], steps[i].reply, ws[i + 1]);
    ProofMeansStored(ws[i], steps[i].reply);
    StoredForever(ws, steps, i, j, FlightOf(ws[i]).report);
  }

  // ---- the upload in flight -----------------------------------------------------------------

  predicate EndsUpload(step: Step) {
    step.ApplyAck? || step.UploadFailsForNow? || step.UploadRejected?
  }

  lemma EndingStepLands(w: World, step: Step, w': World)
    requires FlightOk(w) && Next(w, step, w') && EndsUpload(step)
    ensures w'.process.Some? && !Flying(w')
  {
    hide DecodeAck, Known, Acknowledge, SpoolStep, Starts, Serves, Seals, Rotates, Boots, Reserves;
  }

  /** The delivery of an upload stays stored and pending until the upload ends, so none of the
      operations that end it finds its row missing: the agent never fails there. */
  lemma UploadEndsCleanly(ws: seq<World>, steps: seq<Step>, i: nat)
    requires IsRun(ws, steps) && i < |steps|
    ensures Flying(ws[i]) ==> IsPending(ws[i].spool, FlightOf(ws[i]).report.id)
                              && ws[i].spool.deliveries[FlightOf(ws[i]).report.id].payload == FlightOf(ws[i]).report
    ensures EndsUpload(steps[i]) ==> ws[i + 1].process.Some? && !Flying(ws[i + 1])
  {
    hide Init, Next;
    RunKeepsInvariant(ws, steps, i);
    assert FlightOk(ws[i]);
    if EndsUpload(steps[i]) { EndingStepLands(ws[i], steps[i], ws[i + 1]); }
  }

  // ---- the spool --------------------------------------------------------------------------------

  /** Whatever happens, the spool stays consistent: a sample or command result belongs to at most
      one delivery, every owned sample lies in the minute of its delivery, no delivery is empty, and
      every sample ever appended is resident, acknowledged in a report or parked beside one,
      compacted or dropped, the dropped ones being recorded hour by hour except for those of a
      call under way or cut short. */
  lemma SpoolStaysConsistent(ws: seq<World>, steps: seq<Step>, i: nat)
    requires IsRun(ws, steps) && i < |ws|
    ensures var db := ws[i].spool;
      && (forall l, l' | l in db.links && l' in db.links && l.sample == l'.sample :: l == l')
      && (forall l, l' | l in db.resultLinks && l' in db.resultLinks && l.command == l'.command :: l == l')
      && (forall l | l in db.links :: l.report in db.deliveries && l.sample in db.samples
                                      && MinuteOf(db, l.sample) == db.deliveries[l.report].minute)
      && (forall r | r in db.deliveries :: OwnedBy(db, r) != {})
      && db.ledger.appended == |db.samples| + |db.ledger.reported| + |db.ledger.parked| + db.ledger.compacted + db.ledger.dropped
      && GapTotal(db.gaps) + db.ledger.unrecorded == db.ledger.dropped
  {
    hide Init, Next, FlightOk, SequencesOk, RequestsOk, ReplayOk, AnswersOk, ScopesAgree, Scoped, FloorMinute,
         PayloadsMatch, SamplesKeyed, GapTotal;
    RunKeepsInvariant(ws, steps, i);
    forall r | r in ws[i].spool.deliveries ensures OwnedBy(ws[i].spool, r) != {} {
      NoneEmpty(ws[i].spool, r);
    }
  }

  lemma NoneEmpty(db: Database, r: ReportId)
    requires DeliveriesKeyed(db) && r in db.deliveries
    ensures OwnedBy(db, r) != {}
  {
    assert OwnsSample(db, r);
    var id :| SampleLink(r, id) in db.links;
    assert id in OwnedBy(db, r);
  }

  // ---- numbers and nonces -------------------------------------------------------------------

  /** The numbers handed to the sealer strictly increase through crashes, restarts, key rotations
      and replaced spools, and stay within the protocol's range. */
  lemma SealedNumbersIncrease(ws: seq<World>, steps: seq<Step>, i: nat)
    requires IsRun(ws, steps) && i < |ws|
    ensures Increasing(ws[i].sealed) && AllAtMost(ws[i].sealed, MAX_SEQUENCE)
    ensures forall k | 0 <= k <= i :: ws[k].sealed <= ws[i].sealed
  {
    RunKeepsInvariant(ws, steps, i);
    assert SequencesOk(ws[i]);
    forall k | 0 <= k <= i ensures ws[k].sealed <= ws[i].sealed {
      SealedGrows(ws, steps, k, i);
    }
  }

  lemma {:induction false} SealedGrows(ws: seq<World>, steps: seq<Step>, i: nat, j: nat)
    requires IsPath(ws, steps) && i <= j < |ws|
    ensures ws[i].sealed <= ws[j].sealed
    decreases j - i
  {
    if i < j {
      assert Next(ws[i], steps[i], ws[i + 1]);
      OneStepSealedGrows(ws[i], steps[i], ws[i + 1]);
      SealedGrows(ws, steps, i + 1, j);
    }
  }

  lemma OneStepSealedGrows(w: World, step: Step, w': World)
    requires Next(w, step, w')
    ensures w.sealed <= w'.sealed
  {
    hide SpoolStep, Handles, Known, Proves;
  }

  /** What ideal encryption needs: no nonce seals two messages.  For the agent this comes from its
      increasing numbers, for the server from accepting each number once. */
  lemma NoncesAreUsedOnce(ws: seq<World>, steps: seq<Step>, i: nat, e: Envelope, e': Envelope)
    requires IsRun(ws, steps) && i < |ws|
    requires (e in ws[i].requests && e' in ws[i].requests) || (e in ws[i].answers && e' in ws[i].answers)
    requires e.ciphertext.Sealed? && e'.ciphertext.Sealed?
    requires e in ws[i].requests ==> e.ciphertext.agent == ws[i].agent
    requires e.ciphertext.agent == e'.ciphertext.agent && e.ciphertext.epoch == e'.ciphertext.epoch
    requires e.ciphertext.nonce == e'.ciphertext.nonce
    ensures e == e'
  {
    RunKeepsInvariant(ws, steps, i);
    assert RequestsOk(ws[i]) && AnswersOk(ws[i]);
    if e in ws[i].answers && e in ws[i].requests {
      assert IsAnswer(ws[i], e);
    }
  }

  function Larger(a: nat, b: nat): nat { if a < b then b else a }

  /** The one thing the numbers rest on is the configuration file.  After a restart with any spool
      and any checkpoint the next number is fresh exactly when one of the two is not behind the
      last number used. */
  lemma FreshIffNotBehind(spool: Database, checkpoint: nat, due: ReportId, nextAttemptAt: nat, last: nat)
    requires Reconcile(spool, checkpoint).Some? && IsPending(spool, due)
    requires Larger(spool.sequence, checkpoint) < MAX_SEQUENCE
    ensures BeginAttempt(Reconcile(spool, checkpoint).value, due, nextAttemptAt).Begun?
    ensures BeginAttempt(Reconcile(spool, checkpoint).value, due, nextAttemptAt).sequence > last
       <==> last <= Larger(spool.sequence, checkpoint)
  {
  }

  // ---- getting through ----------------------------------------------------------------------

  /** Whatever the spool stores passes the server's checks of identity, scope, count and times. */
  lemma StoredReportsValidate(w: World, r: ReportId, header: Header, now: nat)
    requires WorldInv(w) && r in w.spool.deliveries && header.reportId == r
    requires w.spool.deliveries[r].minute <= now + FUTURE_SKEW_MS
    ensures Validates(w.spool.deliveries[r].payload, header, w.scope, now)
  {
    PayloadNamesDelivery(w.spool, r);
    PayloadMinute(w.spool, r);
    ScopedDelivery(w, r);
  }

  lemma PayloadMinute(db: Database, r: ReportId)
    requires Inv(db) && r in db.deliveries
    ensures db.deliveries[r].payload.minute == db.deliveries[r].minute
  {
  }

  /** A number above everything the agent sealed is above everything the server accepted. */
  lemma NewNumberIsAdmitted(w: World, epoch: nat, sequence: nat)
    requires ReplayOk(w) && forall i | 0 <= i < |w.sealed| :: w.sealed[i].sequence < sequence
    ensures ClaimNumber(w.server, KeyId(w.agent, epoch), sequence).Some?
  {
    var key := KeyId(w.agent, epoch);
    var accepted := AcceptedFor(w, key);
    forall n | n in accepted ensures n < sequence {
      assert Nonce(epoch, n) in w.sealed;
    }
    ClaimRefinesSet(RowOf(w.server, key), accepted, sequence);
  }

  /** The slot of the report's minute is empty or already has this very report. */
  ghost predicate SlotIsFree(server: Server, report: Report) {
    var slot := SlotOf(server.blocks, report.machinePk, report.minute);
    slot == None || slot == Some(Entry(report.id, Hash(report)))
  }

  ghost predicate ReadyToUpload(w: World, due: ReportId, now: nat) {
    && w.process.Some? && w.process.value.flight == None && OpenLoss(w) == 0
    && SelectsDue(w.spool, now, Some(due))
    && w.spool.sequence < MAX_SEQUENCE
    && KeyId(w.agent, w.process.value.config.epoch) in w.server.keys
    && w.server.keys[KeyId(w.agent, w.process.value.config.epoch)] == w.scope
    && w.spool.deliveries[due].minute <= now + FUTURE_SKEW_MS
    && SlotIsFree(w.server, w.spool.deliveries[due].payload)
  }

  /** A stored report under a new number is taken by the server and answered so that the agent
      accepts the answer. */
  lemma ServedWell(w: World, flight: Flight, now: nat) returns (server: Server, answer: Envelope)
    requires ReplayOk(w) && SlotIsFree(w.server, flight.report) && ScopesAgree(w.server)
    requires var key := KeyId(w.agent, flight.epoch); key in w.server.keys && w.server.keys[key] == w.scope
    requires Validates(flight.report, EncodeReport(w.agent, flight).header, w.scope, now)
    requires 1 <= flight.sequence <= MAX_SEQUENCE
    requires forall i | 0 <= i < |w.sealed| :: w.sealed[i].sequence < flight.sequence
    ensures Handles(w.server, server, EncodeReport(w.agent, flight), now, Answered, None, flight.report, Some(answer))
    ensures DecodeAck(w.agent, flight, answer).Some? && answer.ciphertext.Sealed?
    ensures Acknowledges(Some(answer), flight.report, if Stored(w.server, flight.report) then Duplicate else Committed)
  {
    var request := EncodeReport(w.agent, flight);
    NewNumberIsAdmitted(w, flight.epoch, flight.sequence);
    var claimed := ClaimNumber(w.server, KeyId(w.agent, flight.epoch), flight.sequence).value;
    assert claimed.blocks == w.server.blocks;
    server := AfterWrite(claimed, flight.report);
    answer := AckEnvelope(request.header, flight.report, StatusOf(claimed, flight.report), None);
  }

  ghost predicate CanExchange(w: World, now: nat) {
    && Flying(w) && !FlightOf(w).sent
    && SlotIsFree(w.server, FlightOf(w).report)
    && (var key := KeyId(w.agent, FlightOf(w).epoch); key in w.server.keys && w.server.keys[key] == w.scope)
    && FlightOf(w).report.minute <= now + FUTURE_SKEW_MS
  }

  function AfterSeal(w: World): World
    requires Flying(w)
  {
    var flight := FlightOf(w);
    w.(process := Some(w.process.value.(flight := Some(flight.(sent := true)))),
       requests := w.requests + {EncodeReport(w.agent, flight)},
       sealed := w.sealed + [Nonce(flight.epoch, flight.sequence)])
  }

  /** The sealed request is served and answered. */
  lemma ServedExchange(w: World, now: nat) returns (w4: World, answer: Envelope)
    requires WorldInv(w) && CanExchange(w, now)
    ensures Serves(AfterSeal(w), EncodeReport(w.agent, FlightOf(w)), now, Answered, None, FlightOf(w).report, Some(answer), w4)
    ensures DecodeAck(w.agent, FlightOf(w), answer).Some? && answer.ciphertext.Sealed?
    ensures Acknowledges(Some(answer), FlightOf(w).report, if Stored(w.server, FlightOf(w).report) then Duplicate else Committed)
  {
    FlightValidates(w, now);
    assert SequencesOk(w) && ReplayOk(w);
    var flight := FlightOf(w);
    var request := EncodeReport(w.agent, flight);
    var server;
    server, answer := ServedWell(w, flight, now);
    var w3 := AfterSeal(w);
    assert Known(w3, request.ciphertext) by { assert request in w3.requests + w3.answers; }
    w4 := w3.(server := server, answers := w3.answers + {answer}, accepted := AcceptedAfter(w3, request.header));
  }

  lemma AppliedExchange(w4: World, flight: Flight, answer: Envelope) returns (w5: World)
    requires Flying(w4) && FlightOf(w4) == flight.(sent := true) && answer in w4.answers
    requires flight.report.id in w4.spool.deliveries
    requires DecodeAck(w4.agent, flight, answer).Some?
    ensures Applies(w4, answer, w5)
  {
    SentFlightDecodes(w4.agent, flight, answer);
    assert Known(w4, answer.ciphertext) by { assert answer in w4.requests + w4.answers; }
    w5 := Landed(w4, Acknowledge(w4.spool, flight.report.id));
  }

  lemma FlightIsStored(w: World)
    requires WorldInv(w) && Flying(w)
    ensures IsPending(w.spool, FlightOf(w).report.id)
  {
  }

  lemma ServedWorld(w: World, now: nat, w4: World, answer: Envelope)
    requires Flying(w)
    requires Serves(AfterSeal(w), EncodeReport(w.agent, FlightOf(w)), now, Answered, None, FlightOf(w).report, Some(answer), w4)
    ensures w4.agent == w.agent && w4.spool == w.spool && answer in w4.answers
    ensures Flying(w4) && FlightOf(w4) == FlightOf(w).(sent := true) && OpenLoss(w4) == OpenLoss(w)
    ensures Next(AfterSeal(w), Serve(EncodeReport(w.agent, FlightOf(w)), now, Answered, None, FlightOf(w).report, Some(answer)), w4)
  {
    hide Known, Handles, EncodeReport;
  }

  /** Same agent with the same configuration, and the same keys at the server. */
  ghost predicate SamePlace(w: World, w': World) {
    && w'.agent == w.agent && w'.scope == w.scope && w'.server.keys == w.server.keys && w'.disk == w.disk
    && w.process.Some? && w'.process.Some? && w'.process.value.config == w.process.value.config
  }

  lemma ServedServer(w: World, now: nat, w4: World, answer: Envelope)
    requires Flying(w)
    requires Serves(AfterSeal(w), EncodeReport(w.agent, FlightOf(w)), now, Answered, None, FlightOf(w).report, Some(answer), w4)
    ensures SamePlace(w, w4) && w4.server.blocks == AfterWrite(w.server, FlightOf(w).report).blocks
  {
    hide Known, EncodeReport, CarriedReport, WriteBlock, Classify, Claim;
  }

  lemma SealIsNext(w: World)
    requires Flying(w) && !FlightOf(w).sent
    ensures Next(w, SealRequest, AfterSeal(w))
  {
    hide EncodeReport;
  }

  /** Seal, serve and acknowledge. */
  lemma Exchange(w: World, now: nat) returns (ws: seq<World>, steps: seq<Step>)
    requires WorldInv(w) && CanExchange(w, now) && OpenLoss(w) == 0
    ensures |steps| == 3 && |ws| == 4 && ws[0] == w && steps[0] == SealRequest && steps[1].Serve? && steps[2].ApplyAck?
    ensures Next(ws[0], steps[0], ws[1]) && Next(ws[1], steps[1], ws[2]) && Applies(ws[2], steps[2].reply, ws[3])
    ensures Flying(ws[2]) && FlightOf(ws[2]).report == FlightOf(w).report && OpenLoss(ws[2]) == 0
    ensures Acknowledges(steps[1].answer, FlightOf(w).report, if Stored(w.server, FlightOf(w).report) then Duplicate else Committed)
    ensures ws[2].spool == w.spool && SamePlace(w, ws[2]) && ws[2].server.blocks == AfterWrite(w.server, FlightOf(w).report).blocks
  {
    hide WorldInv, Next, Serves, Applies, AfterSeal, EncodeReport, DecodeAck, SlotIsFree, Stored, Acknowledges;
    FlightIsStored(w);
    SealIsNext(w);
    var w4, answer := ServedExchange(w, now);
    ServedWorld(w, now, w4, answer);
    ServedServer(w, now, w4, answer);
    var w5 := AppliedExchange(w4, FlightOf(w), answer);
    ws := [w, AfterSeal(w), w4, w5];
    steps := [SealRequest, Serve(EncodeReport(w.agent, FlightOf(w)), now, Answered, None, FlightOf(w).report, Some(answer)),
              ApplyAck(answer)];
  }

  lemma SentFlightDecodes(agent: AgentId, flight: Flight, answer: Envelope)
    ensures DecodeAck(agent, flight.(sent := true), answer) == DecodeAck(agent, flight, answer)
  {
  }

  lemma FlightValidates(w: World, now: nat)
    requires WorldInv(w) && Flying(w) && FlightOf(w).report.minute <= now + FUTURE_SKEW_MS
    ensures Validates(FlightOf(w).report, EncodeReport(w.agent, FlightOf(w)).header, w.scope, now)
  {
    assert FlightOk(w) && Inv(w.spool);
    PayloadMinute(w.spool, FlightOf(w).report.id);
    StoredReportsValidate(w, FlightOf(w).report.id, EncodeReport(w.agent, FlightOf(w)).header, now);
  }

  lemma Reserved(w: World) returns (w1: World)
    requires w.process.Some? && w.process.value.flight == None && OpenLoss(w) == 0 && w.spool.sequence < MAX_SEQUENCE
    ensures Next(w, SaveReservation, w1)
    ensures w.spool.sequence < w1.process.value.config.checkpoint
    ensures w1.process.value.config.epoch == w.process.value.config.epoch
  {
    var saved := Reserve(w.spool.sequence, w.process.value.config);
    w1 := if saved.value == w.process.value.config then w
          else w.(disk := saved.value, process := Some(w.process.value.(config := saved.value)));
  }

  lemma LaunchedWell(w: World, w1: World, due: ReportId, now: nat, nextAttemptAt: nat) returns (w2: World)
    requires ReadyToUpload(w, due, now) && Next(w, SaveReservation, w1)
    requires w.spool.sequence < w1.process.value.config.checkpoint
    requires w1.process.value.config.epoch == w.process.value.config.epoch
    ensures Next(w1, StartUpload(due, now, nextAttemptAt), w2)
    ensures due in w.spool.deliveries && Flying(w2)
    ensures FlightOf(w2) == Flight(w.spool.deliveries[due].payload, w.spool.sequence + 1, w.process.value.config.epoch, false)
    ensures w2.agent == w.agent && w2.scope == w.scope && w2.server == w.server && OpenLoss(w2) == 0
    ensures BeginAttempt(w.spool, due, nextAttemptAt).Begun? && w2.spool == BeginAttempt(w.spool, due, nextAttemptAt).db
    ensures w2.process.value.config == w1.process.value.config
  {
    w2 := Launched(w1, due, BeginAttempt(w1.spool, due, nextAttemptAt));
  }

  /** Progress: when a delivery is due, its key is known, numbers are left and its slot is not taken
      by another report, then one undisturbed exchange stores the report and removes the
      delivery. */
  lemma DeliveryGetsThrough(w: World, due: ReportId, now: nat, nextAttemptAt: nat)
    returns (ws: seq<World>, steps: seq<Step>)
    requires WorldInv(w) && ReadyToUpload(w, due, now)
    ensures IsPath(ws, steps) && |steps| == 5 && ws[0] == w
    ensures steps[..2] == [SaveReservation, StartUpload(due, now, nextAttemptAt)]
    ensures steps[2] == SealRequest && steps[3].Serve? && steps[4].ApplyAck?
    ensures due in w.spool.deliveries && due !in ws[5].spool.deliveries
    ensures Stored(ws[5].server, w.spool.deliveries[due].payload)
    ensures Acknowledges(steps[3].answer, w.spool.deliveries[due].payload,
                         if Stored(w.server, w.spool.deliveries[due].payload) then Duplicate else Committed)
    ensures ws[5].spool.ledger == Settled(w.spool, due)
  {
    hide WorldInv, Next, SelectsDue, SlotIsFree, Stored, Applies, BeginAttempt, Settled, Acknowledges;
    var w1 := Reserved(w);
    var w2 := LaunchedWell(w, w1, due, now, nextAttemptAt);
    NextKeeps(w, SaveReservation, w1);
    NextKeeps(w1, StartUpload(due, now, nextAttemptAt), w2);
    DueMinute(w, due);
    var tail, last := Exchange(w2, now);
    NextKeeps(w2, last[0], tail[1]);
    NextKeeps(tail[1], last[1], tail[2]);
    ExchangeEnds(w, due, tail, last);
    AttemptSettlesTheSame(w.spool, due, nextAttemptAt);
    ApplyIsNext(tail[2], last[2], tail[3]);
    ws, steps := [w, w1] + tail, [SaveReservation, StartUpload(due, now, nextAttemptAt)] + last;
  }

  // ---- answers that get lost ----------------------------------------------------------------

  /** How an upload ends that heard no acknowledgement: a permanent status, or a failure for now. */
  predicate EndsUnheard(step: Step) { step.UploadRejected? || step.UploadFailsForNow? }

  function AfterUnheard(db: Database, r: ReportId, ending: Step): Option<Database>
    requires EndsUnheard(ending)
  {
    if ending.UploadRejected? then Quarantine(db, r, ending.error, ending.now)
    else Reschedule(db, r, ending.retryAt, ending.error)
  }

  /** Where such an upload leaves the world: the report is stored all the same. */
  ghost predicate UnheardLeaves(w: World, due: ReportId, nextAttemptAt: nat, ending: Step, w': World)
    requires EndsUnheard(ending)
  {
    && due in w.spool.deliveries && BeginAttempt(w.spool, due, nextAttemptAt).Begun?
    && AfterUnheard(BeginAttempt(w.spool, due, nextAttemptAt).db, due, ending) == Some(w'.spool)
    && w'.server.blocks == AfterWrite(w.server, w.spool.deliveries[due].payload).blocks
    && Stored(w'.server, w.spool.deliveries[due].payload)
    && w'.process.Some? && w'.process.value.flight == None && OpenLoss(w') == 0
  }

  /** The server stores the report, its answer never arrives, and the upload ends otherwise. */
  lemma DeliveryGoesUnheard(w: World, due: ReportId, now: nat, nextAttemptAt: nat, ending: Step)
    returns (ws: seq<World>, steps: seq<Step>)
    requires WorldInv(w) && ReadyToUpload(w, due, now) && EndsUnheard(ending)
    ensures IsPath(ws, steps) && |steps| == 5 && ws[0] == w
    ensures steps[..2] == [SaveReservation, StartUpload(due, now, nextAttemptAt)]
    ensures steps[2] == SealRequest && steps[3].Serve? && steps[4] == ending
    ensures UnheardLeaves(w, due, nextAttemptAt, ending, ws[5])
    ensures ws[5].agent == w.agent && ws[5].scope == w.scope && ws[5].server.keys == w.server.keys
    ensures ws[5].process.value.config.epoch == w.process.value.config.epoch
  {
    hide WorldInv, Next, SelectsDue, SlotIsFree, Stored, Applies, BeginAttempt, AfterUnheard, AfterWrite, UnheardLeaves,
         Acknowledges;
    var w1 := Reserved(w);
    var w2 := LaunchedWell(w, w1, due, now, nextAttemptAt);
    NextKeeps(w, SaveReservation, w1);
    NextKeeps(w1, StartUpload(due, now, nextAttemptAt), w2);
    DueMinute(w, due);
    var tail, last := Exchange(w2, now);
    NextKeeps(w2, last[0], tail[1]);
    NextKeeps(tail[1], last[1], tail[2]);
    ExchangeEnds(w, due, tail, last);
    FlightIsStored(tail[2]);
    ServedIsStored(tail[2], last[2].reply, tail[3]);
    var w5 := UnheardFlight(tail[2], due, ending);
    UnheardEnds(w, due, nextAttemptAt, ending, w2, tail[2], w5);
    ws, steps := [w, w1, w2, tail[1], tail[2], w5],
                 [SaveReservation, StartUpload(due, now, nextAttemptAt), last[0], last[1], ending];
  }

  lemma UnheardEnds(w: World, due: ReportId, nextAttemptAt: nat, ending: Step, w2: World, w4: World, w5: World)
    requires EndsUnheard(ending) && due in w.spool.deliveries && BeginAttempt(w.spool, due, nextAttemptAt).Begun?
    requires w2.spool == BeginAttempt(w.spool, due, nextAttemptAt).db && w2.server == w.server
    requires w4.spool == w2.spool && w4.server.blocks == AfterWrite(w.server, w.spool.deliveries[due].payload).blocks
    requires Stored(w4.server, w.spool.deliveries[due].payload)
    requires AfterUnheard(w4.spool, due, ending) == Some(w5.spool) && w5.server == w4.server
    requires w5.process.Some? && w5.process.value.flight == None && OpenLoss(w5) == 0
    ensures UnheardLeaves(w, due, nextAttemptAt, ending, w5)
  {
    hide BeginAttempt, AfterUnheard, AfterWrite, Stored;
  }

  lemma ServedIsStored(w: World, reply: Envelope, w': World)
    requires WorldInv(w) && Applies(w, reply, w')
    ensures Flying(w) && Stored(w.server, FlightOf(w).report)
  {
    hide WorldInv, Stored;
    ProofMeansStored(w, reply);
  }

  lemma UnheardFlight(w: World, due: ReportId, ending: Step) returns (w': World)
    requires EndsUnheard(ending)
    requires Flying(w) && OpenLoss(w) == 0 && FlightOf(w).report.id == due && IsPending(w.spool, due)
    ensures Next(w, ending, w') && AfterUnheard(w.spool, due, ending) == Some(w'.spool) && SamePlace(w, w')
    ensures w'.server == w.server && w'.process.value.flight == None && OpenLoss(w') == 0
  {
    w' := Landed(w, AfterUnheard(w.spool, due, ending).value);
  }

  /** Beginning an attempt changes nothing of what an acknowledgement will settle. */
  lemma AttemptSettlesTheSame(db: Database, r: ReportId, nextAttemptAt: nat)
    requires BeginAttempt(db, r, nextAttemptAt).Begun?
    ensures Settled(BeginAttempt(db, r, nextAttemptAt).db, r) == Settled(db, r)
  {
    var db' := BeginAttempt(db, r, nextAttemptAt).db;
    assert OwnedBy(db', r) == OwnedBy(db, r);
    assert TakenAlong(db', r, true) == TakenAlong(db, r, true);
    assert TakenAlong(db', r, false) == TakenAlong(db, r, false);
  }

  lemma DueMinute(w: World, due: ReportId)
    requires WorldInv(w) && due in w.spool.deliveries
    ensures w.spool.deliveries[due].payload.minute == w.spool.deliveries[due].minute
    ensures w.spool.deliveries[due].payload.id == due
  {
    PayloadMinute(w.spool, due);
    PayloadNamesDelivery(w.spool, due);
  }

  lemma ApplyIsNext(w: World, step: Step, w': World)
    requires step.ApplyAck? && Applies(w, step.reply, w') && OpenLoss(w) == 0
    ensures Next(w, step, w')
  {
  }

  lemma ExchangeEnds(w: World, due: ReportId, tail: seq<World>, last: seq<Step>)
    requires |tail| == 4 && |last| == 3 && last[2].ApplyAck?
    requires WorldInv(tail[2]) && Applies(tail[2], last[2].reply, tail[3])
    requires due in w.spool.deliveries && w.spool.deliveries[due].payload.id == due
    requires Flying(tail[2]) && FlightOf(tail[2]).report == w.spool.deliveries[due].payload
    ensures due !in tail[3].spool.deliveries
    ensures Stored(tail[3].server, w.spool.deliveries[due].payload)
    ensures tail[3].spool.ledger == Settled(tail[2].spool, due)
  {
    hide WorldInv, Stored;
    AppliedAck(tail[2], last[2].reply, tail[3]);
    ProofMeansStored(tail[2], last[2].reply);
    assert tail[3].server == tail[2].server;
  }
}
