/** Every step of the report protocol keeps the invariant. */
module ProtocolInvariant {
  import opened Options
  import opened Sql
  import opened SpoolModel
  import opened SpoolInvariant
  import opened SpoolCapacity
  import opened ReplayWindow
  import opened Ingest
  import opened Protocol

  // ---- spool steps --------------------------------------------------------------------------

  /** Pending deliveries stay pending with their payload, and no number is handed out. */
  ghost predicate KeepsPending(db: Database, db': Database) {
    && db'.sequence == db.sequence
    && forall r | IsPending(db, r) :: IsPending(db', r) && db'.deliveries[r].payload == db.deliveries[r].payload
  }

  lemma TakeInKeeps(w: World, intake: Intake, db: Database)
    requires SpoolOk(w) && TakeInto(w.spool, intake) == Some(db)
    ensures Inv(db) && Scoped(w, db) && KeepsPending(w.spool, db)
  {
    hide Inv;
    match intake
    case SampleIn(sample) => AppendSampleKeeps(w.spool, sample);
    case ProbeIn(id, probe) => AppendProbeKeeps(w.spool, id, probe);
    case CommandIn(c) => AcceptCommandKeeps(w.spool, c);
    case CommandBegins(c) => StartCommandKeeps(w.spool, c);
    case CommandEnds(c, t) => CompleteCommandKeeps(w.spool, c, t);
  }

  lemma ShedSpares(db: Database, db': Database, shed: Shed)
    requires Inv(db) && Sheds(db, db', shed)
    ensures Spares(db, db') && db'.sequence == db.sequence
    ensures forall r | r in db'.deliveries :: r in db.deliveries && db'.deliveries[r] == db.deliveries[r]
  {
    hide Inv, Spares;
    match shed
    case CompactPass(before, width, limit, scanned, doomed) => CompactsSpares(db, db', before, width, limit, scanned, doomed);
    case EvictPass(gone) => EvictsSpares(db, db', gone);
    case DropPass(oldest) => DropsSpares(db, db', oldest);
    case GapPass(now, n) => RecordGapSpares(db, now, n);
  }

  lemma ShedKeeps(w: World, shed: Shed, db: Database)
    requires SpoolOk(w) && Sheds(w.spool, db, shed)
    ensures Inv(db) && Scoped(w, db) && KeepsPending(w.spool, db)
  {
    hide Inv, Sheds;
    ShedSpares(w.spool, db, shed);
    assert forall r | IsPending(w.spool, r) :: Untouched(w.spool, db, r);
  }

  lemma CreateKeeps(w: World, report: Report, ids: seq<SampleId>, now: nat, db: Database)
    requires SpoolOk(w) && SpoolStep(w, CreateReport(report, ids, now), db)
    ensures Inv(db) && Scoped(w, db) && KeepsPending(w.spool, db)
  {
    hide Inv, CreatesDelivery;
    CreatesDeliveryKeeps(w.spool, db, report, ids, now);
    CreatedDelivery(w.spool, db, report, ids, now);
  }

  lemma CreatedDelivery(db: Database, db': Database, report: Report, ids: seq<SampleId>, now: nat)
    requires CreatesDelivery(db, db', report, ids, now)
    ensures report.id in db'.deliveries && db'.deliveries[report.id].payload == report
    ensures db'.deliveries == db.deliveries[report.id := db'.deliveries[report.id]] && db'.sequence == db.sequence
  {
    hide BuildsReport, AllHaveDelivery, HasDelivery, OpenMinutes;
  }

  lemma RedriveKeeps(w: World, now: nat, chosen: seq<ReportId>, db: Database)
    requires SpoolOk(w) && Redrives(w.spool, db, now, chosen)
    ensures Inv(db) && Scoped(w, db) && KeepsPending(w.spool, db)
  {
    hide Inv;
    SetPendingKeeps(w.spool, chosen);
  }

  lemma WakeKeeps(w: World, retryAt: nat, limit: nat, chosen: seq<ReportId>, db: Database)
    requires SpoolOk(w) && Wakes(w.spool, db, retryAt, limit, chosen)
    ensures Inv(db) && Scoped(w, db) && KeepsPending(w.spool, db)
  {
    hide Inv;
    SetNextAttemptKeeps(w.spool, chosen, retryAt);
  }

  lemma ParkKeepsPending(w: World, bound: nat)
    requires SpoolOk(w)
    ensures var db := ParkBefore(w.spool, bound); Inv(db) && Scoped(w, db) && KeepsPending(w.spool, db)
  {
    hide Inv;
    ParkBeforeKeeps(w.spool, bound);
  }

  lemma SpoolStepKeeps(w: World, step: Step, db: Database)
    requires SpoolOk(w) && SpoolStep(w, step, db)
    ensures Inv(db) && Scoped(w, db) && KeepsPending(w.spool, db)
  {
    hide Inv, Scoped, KeepsPending, Sheds, TakeInto, ParkBefore, CreatesDelivery, Redrives, Wakes;
    match step
    case TakeIn(intake) => TakeInKeeps(w, intake, db);
    case ShedData(shed) => ShedKeeps(w, shed, db);
    case ParkSamples(bound) => ParkKeepsPending(w, bound);
    case CreateReport(report, ids, now) => CreateKeeps(w, report, ids, now, db);
    case Redrive(now, chosen) => RedriveKeeps(w, now, chosen, db);
    case WakeUp(retryAt, limit, chosen) => WakeKeeps(w, retryAt, limit, chosen, db);
    case _ =>
  }

  // ---- changes that leave whole invariants alone --------------------------------------------

  ghost predicate SameTransport(w: World, w': World) {
    && w'.agent == w.agent && w'.scope == w.scope && w'.server == w.server && w'.requests == w.requests
    && w'.answers == w.answers && w'.sealed == w.sealed && w'.accepted == w.accepted
  }

  lemma SameTransportKeeps(w: World, w': World)
    requires SameTransport(w, w') && RequestsOk(w) && ScopesAgree(w.server) && ReplayOk(w) && AnswersOk(w)
    ensures RequestsOk(w') && ScopesAgree(w'.server) && ReplayOk(w') && AnswersOk(w')
  {
    assert forall e | SealedByAgent(w, e) :: SealedByAgent(w', e);
    assert forall key: KeyId :: AcceptedFor(w', key) == AcceptedFor(w, key) by { assert w'.accepted == w.accepted; }
    assert forall e | IsAnswer(w, e) :: IsAnswer(w', e) by { assert w'.server == w.server; }
  }

  lemma SpoolStepWorld(w: World, step: Step, w': World)
    requires WorldInv(w) && StepsSpool(w, step, w')
    ensures WorldInv(w')
  {
    hide Inv, Scoped, SpoolStep, RequestsOk, ScopesAgree, ReplayOk, AnswersOk;
    SpoolStepKeeps(w, step, w'.spool);
    SameTransportKeeps(w, w');
    assert Scoped(w', w'.spool) by { ScopedDependsOnScope(w, w', w'.spool); }
  }

  lemma UnrecordedWorld(w: World, w': World)
    requires WorldInv(w) && Unrecorded(w, w')
    ensures WorldInv(w')
  {
    hide Inv, RequestsOk, ScopesAgree, ReplayOk, AnswersOk;
    ScopedDependsOnScope(w, w', w.spool);
    SameTransportKeeps(w, w');
  }

  lemma ScopedDependsOnScope(w: World, w': World, db: Database)
    requires w'.scope == w.scope
    ensures Scoped(w', db) <==> Scoped(w, db)
  {
  }

  // ---- the upload ---------------------------------------------------------------------------

  lemma SaveReservationWorld(w: World, w': World)
    requires WorldInv(w) && Reserves(w, w')
    ensures WorldInv(w')
  {
    hide Inv, RequestsOk, ScopesAgree, ReplayOk, AnswersOk;
    SameTransportKeeps(w, w');
  }

  lemma PayloadNamesDelivery(db: Database, r: ReportId)
    requires Inv(db) && r in db.deliveries
    ensures db.deliveries[r].payload.id == r && WellFormedReport(db.deliveries[r].payload)
  {
  }

  lemma StartUploadWorld(w: World, due: ReportId, now: nat, nextAttemptAt: nat, w': World)
    requires WorldInv(w) && Starts(w, due, now, nextAttemptAt, w')
    ensures WorldInv(w')
  {
    hide Inv, RequestsOk, ScopesAgree, ReplayOk, AnswersOk;
    SameTransportKeeps(w, w');
    BeginAttemptKeeps(w.spool, due, nextAttemptAt);
    PayloadNamesDelivery(w.spool, due);
    StartedFlight(w, due, nextAttemptAt, w');
  }

  lemma StartedFlight(w: World, due: ReportId, nextAttemptAt: nat, w': World)
    requires w.process.Some? && IsPending(w.spool, due) && BeginAttempt(w.spool, due, nextAttemptAt).Begun?
    requires w.spool.deliveries[due].payload.id == due
    requires Scoped(w, w.spool) && SequencesOk(w) && w.process.value.flight == None
    requires w.spool.sequence < w.process.value.config.checkpoint
    requires w' == Launched(w, due, BeginAttempt(w.spool, due, nextAttemptAt))
    ensures Scoped(w', w'.spool) && FlightOk(w') && SequencesOk(w')
  {
  }

  lemma NewNonce(w: World)
    requires SequencesOk(w) && Flying(w) && !FlightOf(w).sent
    ensures Nonce(FlightOf(w).epoch, FlightOf(w).sequence) !in w.sealed
  {
    assert forall i | 0 <= i < |w.sealed| :: w.sealed[i].sequence <= FlightOf(w).sequence - 1;
  }

  lemma SealRequests(w: World, w': World)
    requires RequestsOk(w) && Seals(w, w') && Nonce(FlightOf(w).epoch, FlightOf(w).sequence) !in w.sealed
    ensures RequestsOk(w')
  {
    assert forall n | n in w.sealed :: n in w'.sealed;
    assert forall e | e in w.requests && e.ciphertext.agent == w.agent :: SealedByAgent(w, e);
    assert SealedByAgent(w', EncodeReport(w.agent, FlightOf(w)));
  }

  lemma SealReplay(w: World, w': World)
    requires ReplayOk(w) && Seals(w, w')
    ensures ReplayOk(w')
  {
    assert forall n | n in w.sealed :: n in w'.sealed;
    assert forall key: KeyId :: AcceptedFor(w', key) == AcceptedFor(w, key);
  }

  lemma SealAnswers(w: World, w': World)
    requires AnswersOk(w) && Seals(w, w')
    ensures AnswersOk(w')
  {
    assert forall e | IsAnswer(w, e) :: IsAnswer(w', e);
  }

  lemma SealAgent(w: World, w': World)
    requires SpoolOk(w) && FlightOk(w) && SequencesOk(w) && Seals(w, w')
    ensures SpoolOk(w') && FlightOk(w') && SequencesOk(w')
  {
    hide Inv;
    ScopedDependsOnScope(w, w', w.spool);
  }

  lemma SealWorld(w: World, w': World)
    requires WorldInv(w) && Seals(w, w')
    ensures WorldInv(w')
  {
    NewNonce(w);
    SealRequests(w, w');
    SealReplay(w, w');
    SealAnswers(w, w');
    SealAgent(w, w');
  }

  // ---- the server ---------------------------------------------------------------------------

  /** An authentic request of the agent carries a number it recorded when sealing. */
  lemma AuthenticRequestWasSealed(w: World, request: Envelope, now: nat, report: Report)
    requires RequestsOk(w) && AnswersOk(w) && Known(w, request.ciphertext)
    requires CarriedReport(w.server, request, now) == Some(report) && request.header.agent == w.agent
    ensures Nonce(request.header.epoch, request.header.sequence) in w.sealed
  {
    assert forall e | e in w.answers :: IsAnswer(w, e);
    var e :| e in w.requests + w.answers && e.ciphertext == request.ciphertext;
    assert e in w.requests;
    assert SealedByAgent(w, e);
  }

  lemma ClaimAccepted(server: Server, key: KeyId, sequence: nat, accepted: set<nat>, server': Server)
    requires Represents(RowOf(server, key), accepted)
    requires ClaimNumber(server, key, sequence) == Some(server')
    ensures sequence !in accepted
    ensures Represents(RowOf(server', key), accepted + {sequence})
    ensures forall other: KeyId | other != key :: RowOf(server', other) == RowOf(server, other)
  {
    ClaimRefinesSet(RowOf(server, key), accepted, sequence);
  }

  lemma ServeReplay(w: World, request: Envelope, now: nat, progress: Progress, rotateTo: Option<nat>,
                    report: Report, answer: Option<Envelope>, w': World)
    requires RequestsOk(w) && AnswersOk(w) && ReplayOk(w)
    requires Serves(w, request, now, progress, rotateTo, report, answer, w')
    ensures ReplayOk(w')
    ensures progress != Refused ==>
      request.header.sequence !in AcceptedFor(w, KeyId(request.header.agent, request.header.epoch))
  {
    hide Represents, AnswersOk, RequestsOk, CarriedReport, ClaimNumber, WriteBlock, Classify, Known;
    var key := KeyId(request.header.agent, request.header.epoch);
    if progress == Refused {
      assert forall k: KeyId :: AcceptedFor(w', k) == AcceptedFor(w, k);
    } else {
      var claimed := ClaimNumber(w.server, key, request.header.sequence).value;
      ClaimAccepted(w.server, key, request.header.sequence, AcceptedFor(w, key), claimed);
      assert w'.server.replay == claimed.replay;
      assert forall k: KeyId :: RowOf(w'.server, k) == RowOf(claimed, k);
      assert forall k: KeyId :: AcceptedFor(w', k) == AcceptedFor(w, k) + (if k == key then {request.header.sequence} else {});
      if key.agent == w.agent { AuthenticRequestWasSealed(w, request, now, report); }
    }
  }

  lemma ServeAnswers(w: World, request: Envelope, now: nat, progress: Progress, rotateTo: Option<nat>,
                     report: Report, answer: Option<Envelope>, w': World)
    requires AnswersOk(w) && ScopesAgree(w.server)
    requires Serves(w, request, now, progress, rotateTo, report, answer, w')
    requires progress != Refused ==>
      request.header.sequence !in AcceptedFor(w, KeyId(request.header.agent, request.header.epoch))
    ensures AnswersOk(w')
  {
    hide Handles, ScopesAgree, Stored, Known;
    HandlesKeepsSlots(w.server, w'.server, request, now, progress, rotateTo, report, answer);
    forall e | e in w.answers ensures IsAnswer(w', e) {
      assert IsAnswer(w, e);
      AnswerStays(w, w', e);
    }
    if answer.Some? {
      AnswerMeansStored(w.server, w'.server, request, now, progress, rotateTo, report, answer);
      NewAnswer(w, request, now, progress, rotateTo, report, answer, w');
    }
    assert w'.answers == w.answers + (if answer.Some? then {answer.value} else {});
    assert forall e | e in w.answers :: IsAnswer(w, e);
  }

  lemma AnswerStays(w: World, w': World, e: Envelope)
    requires IsAnswer(w, e) && KeepsSlots(w.server, w'.server)
    requires forall key: KeyId :: AcceptedFor(w, key) <= AcceptedFor(w', key)
    ensures IsAnswer(w', e)
  {
  }

  lemma NewAnswer(w: World, request: Envelope, now: nat, progress: Progress, rotateTo: Option<nat>,
                  report: Report, answer: Option<Envelope>, w': World)
    requires Serves(w, request, now, progress, rotateTo, report, answer, w') && answer.Some?
    requires Stored(w'.server, report)
    ensures IsAnswer(w', answer.value)
    ensures answer.value.ciphertext.agent == request.header.agent && answer.value.ciphertext.epoch == request.header.epoch
    ensures answer.value.ciphertext.nonce == request.header.sequence && progress != Refused
  {
  }

  /** The agent's own part does not look at the server, the network or the accepted numbers. */
  ghost predicate SameAgent(w: World, w': World) {
    && w'.agent == w.agent && w'.scope == w.scope && w'.spool == w.spool && w'.disk == w.disk
    && w'.process == w.process && w'.sealed == w.sealed
  }

  lemma SameAgentKeeps(w: World, w': World)
    requires SameAgent(w, w') && SpoolOk(w) && FlightOk(w) && SequencesOk(w)
    ensures SpoolOk(w') && FlightOk(w') && SequencesOk(w')
  {
    hide Inv;
    ScopedDependsOnScope(w, w', w.spool);
  }

  lemma ServeWorld(w: World, request: Envelope, now: nat, progress: Progress, rotateTo: Option<nat>,
                   report: Report, answer: Option<Envelope>, w': World)
    requires WorldInv(w) && Serves(w, request, now, progress, rotateTo, report, answer, w')
    ensures WorldInv(w')
  {
    assert SameAgent(w, w') && w'.requests == w.requests;
    SameAgentKeeps(w, w');
    ServeReplay(w, request, now, progress, rotateTo, report, answer, w');
    ServeAnswers(w, request, now, progress, rotateTo, report, answer, w');
    HandlesKeepsScopes(w.server, w'.server, request, now, progress, rotateTo, report, answer);
    assert forall e | SealedByAgent(w, e) :: SealedByAgent(w', e);
  }

  lemma OtherAgentWorld(w: World, request: Envelope, w': World)
    requires WorldInv(w) && Next(w, OtherAgentSends(request), w')
    ensures WorldInv(w')
  {
    hide SpoolOk, FlightOk, SequencesOk, ScopesAgree, ReplayOk, AnswersOk;
    SameAgentKeeps(w, w');
    SameServerKeeps(w, w');
    assert forall e | SealedByAgent(w, e) :: SealedByAgent(w', e);
  }

  lemma SameServerKeeps(w: World, w': World)
    requires w'.agent == w.agent && w'.server.replay == w.server.replay && w'.server.blocks == w.server.blocks
    requires w'.answers == w.answers && w'.sealed == w.sealed && w'.accepted == w.accepted
    requires ReplayOk(w) && AnswersOk(w)
    ensures ReplayOk(w') && AnswersOk(w')
  {
    assert forall key: KeyId :: AcceptedFor(w', key) == AcceptedFor(w, key) && RowOf(w'.server, key) == RowOf(w.server, key);
    assert forall e | IsAnswer(w, e) :: IsAnswer(w', e);
  }

  lemma KeysChangeWorld(w: World, keys: map<KeyId, KeyRow>, w': World)
    requires WorldInv(w) && Next(w, KeysChange(keys), w')
    ensures WorldInv(w')
  {
    hide SpoolOk, FlightOk, SequencesOk, ScopesAgree, ReplayOk, AnswersOk;
    SameAgentKeeps(w, w');
    SameServerKeeps(w, w');
    assert forall e | SealedByAgent(w, e) :: SealedByAgent(w', e);
  }

  // ---- the end of an upload -----------------------------------------------------------------

  /** Landing with a spool that only changed deliveries' rows keeps everything. */
  lemma LandedWorld(w: World, spool: Database)
    requires WorldInv(w) && Flying(w) && Inv(spool) && Scoped(w, spool) && spool.sequence == w.spool.sequence
    ensures WorldInv(Landed(w, spool))
  {
    hide Inv, RequestsOk, ScopesAgree, ReplayOk, AnswersOk;
    ScopedDependsOnScope(w, Landed(w, spool), spool);
    SameTransportKeeps(w, Landed(w, spool));
  }

  lemma DeadWorld(w: World)
    requires WorldInv(w)
    ensures WorldInv(w.(process := None))
  {
    hide Inv, RequestsOk, ScopesAgree, ReplayOk, AnswersOk;
    ScopedDependsOnScope(w, w.(process := None), w.spool);
    SameTransportKeeps(w, w.(process := None));
  }

  lemma RotateWorld(w: World, reply: Envelope, used: bool, w': World)
    requires WorldInv(w) && Rotates(w, reply, used, w')
    ensures WorldInv(w')
  {
    hide Inv, RequestsOk, ScopesAgree, ReplayOk, AnswersOk, DecodeAck, Known;
    ScopedDependsOnScope(w, w', w.spool);
    SameTransportKeeps(w, w');
  }

  lemma AcknowledgeScoped(w: World, r: ReportId)
    requires Scoped(w, w.spool)
    ensures Scoped(w, Acknowledge(w.spool, r))
  {
  }

  lemma ApplyWorld(w: World, reply: Envelope, w': World)
    requires WorldInv(w) && Applies(w, reply, w')
    ensures WorldInv(w')
  {
    assert Inv(w.spool) && Scoped(w, w.spool) && Flying(w);
    var r := FlightOf(w).report.id;
    AcknowledgeKeeps(w.spool, r);
    AcknowledgeScoped(w, r);
    assert Acknowledge(w.spool, r).sequence == w.spool.sequence;
    if r in w.spool.deliveries { LandedWorld(w, Acknowledge(w.spool, r)); } else { DeadWorld(w); }
  }

  lemma RescheduleScoped(w: World, r: ReportId, retryAt: nat, error: ErrorCode)
    requires Scoped(w, w.spool) && IsPending(w.spool, r)
    ensures var db := Reschedule(w.spool, r, retryAt, error).value;
            Scoped(w, db) && db.sequence == w.spool.sequence
  {
  }

  lemma QuarantineScoped(w: World, r: ReportId, error: ErrorCode, now: nat)
    requires Scoped(w, w.spool) && IsPending(w.spool, r)
    ensures var db := Quarantine(w.spool, r, error, now).value;
            Scoped(w, db) && db.sequence == w.spool.sequence
  {
  }

  lemma FailsForNowWorld(w: World, retryAt: nat, error: ErrorCode, w': World)
    requires WorldInv(w) && Flying(w) && w' == LandedOrDead(w, Reschedule(w.spool, FlightOf(w).report.id, retryAt, error))
    ensures WorldInv(w')
  {
    assert Inv(w.spool) && Scoped(w, w.spool);
    var r := FlightOf(w).report.id;
    if IsPending(w.spool, r) {
      RescheduledKeeps(w.spool, r, retryAt, error);
      RescheduleScoped(w, r, retryAt, error);
      LandedWorld(w, Reschedule(w.spool, r, retryAt, error).value);
    } else {
      DeadWorld(w);
    }
  }

  lemma RejectedWorld(w: World, error: ErrorCode, now: nat, w': World)
    requires WorldInv(w) && Flying(w) && w' == LandedOrDead(w, Quarantine(w.spool, FlightOf(w).report.id, error, now))
    ensures WorldInv(w')
  {
    assert Inv(w.spool) && Scoped(w, w.spool);
    var r := FlightOf(w).report.id;
    if IsPending(w.spool, r) {
      QuarantinedKeeps(w.spool, r, error, now);
      QuarantineScoped(w, r, error, now);
      LandedWorld(w, Quarantine(w.spool, r, error, now).value);
    } else {
      DeadWorld(w);
    }
  }

  // ---- outages ------------------------------------------------------------------------------

  lemma ReplaceSpoolWorld(w: World, other: Database, w': World)
    requires WorldInv(w) && Next(w, ReplaceSpool(other), w')
    ensures WorldInv(w')
  {
    hide Inv, RequestsOk, ScopesAgree, ReplayOk, AnswersOk;
    ScopedDependsOnScope(w, w', other);
    SameTransportKeeps(w, w');
  }

  lemma BootWorld(w: World, w': World)
    requires WorldInv(w) && Boots(w, w')
    ensures WorldInv(w')
  {
    var db := Reconcile(w.spool, w.disk.checkpoint);
    if db.Some? {
      hide Inv, RequestsOk, ScopesAgree, ReplayOk, AnswersOk;
      ReconcileKeeps(w.spool, w.disk.checkpoint);
      ScopedDependsOnScope(w, w', db.value);
      SameTransportKeeps(w, w');
    }
  }

  /** Every step keeps the invariant. */
  lemma NextKeeps(w: World, step: Step, w': World)
    requires WorldInv(w) && Next(w, step, w')
    ensures WorldInv(w')
  {
    hide WorldInv, StepsSpool, Unrecorded, Reserves, Starts, Seals, Serves, Rotates, Applies, Boots;
    if IsSpoolStep(step) {
      SpoolStepWorld(w, step, w');
    } else {
      match step
      case RecordFails => UnrecordedWorld(w, w');
      case SaveReservation => SaveReservationWorld(w, w');
      case StartUpload(due, now, nextAttemptAt) => StartUploadWorld(w, due, now, nextAttemptAt, w');
      case SealRequest => SealWorld(w, w');
      case Serve(request, now, progress, rotateTo, report, answer) =>
        ServeWorld(w, request, now, progress, rotateTo, report, answer, w');
      case OtherAgentSends(request) => OtherAgentWorld(w, request, w');
      case KeysChange(keys) => KeysChangeWorld(w, keys, w');
      case SaveRotation(reply, used) => RotateWorld(w, reply, used, w');
      case ApplyAck(reply) => ApplyWorld(w, reply, w');
      case UploadFailsForNow(retryAt, error) => FailsForNowWorld(w, retryAt, error, w');
      case UploadRejected(error, now) => RejectedWorld(w, error, now, w');
      case Crash => DeadWorld(w);
      case ReplaceSpool(other) => ReplaceSpoolWorld(w, other, w');
      case Boot => BootWorld(w, w');
      case _ =>
    }
  }

  lemma InitKeeps(w: World)
    requires Init(w)
    ensures WorldInv(w)
  {
    hide Inv;
  }
}
