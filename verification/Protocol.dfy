/** The durable report protocol as one state machine: an agent with its spool and configuration
    file, a network that keeps, repeats and reorders whatever was ever sealed, and the ingest
    worker.

    Each step is one atomic store operation.  The agent process can die between any two of them;
    only the spool and the configuration file survive, and while the agent is down the spool may
    be replaced by any other consistent one, such as an old backup. */
module Protocol {
  import opened Options
  import opened Sql
  import opened SpoolModel
  import opened SpoolInvariant
  import opened SpoolCapacity
  import opened ReplayWindow
  import opened Ingest

  const TRANSPORT_SEQUENCE_RESERVATION: nat := 1_024

  /** The fields of the configuration file that the transport uses. */
  datatype Config = Config(checkpoint: nat, epoch: nat)

  /** The one upload task: the delivery it carries, the number reserved for it and the key epoch
      of the codec it was given. */
  datatype Flight = Flight(report: Report, sequence: nat, epoch: nat, sent: bool)

  /** `loss` counts the samples that the capacity call under way has dropped and not recorded. */
  datatype Process = Process(config: Config, flight: Option<Flight>, loss: nat)

  datatype Nonce = Nonce(epoch: nat, sequence: nat)

  datatype World = World(
    agent: AgentId,
    scope: KeyRow,
    spool: Database,
    disk: Config,
    process: Option<Process>,
    server: Server,
    requests: set<Envelope>,
    answers: set<Envelope>,
    sealed: seq<Nonce>,
    accepted: map<KeyId, set<nat>>)

  // ---- the agent's decisions ----------------------------------------------------------------

  /** `ensure_sequence_reservation`; None when no number is left under this key. */
  function Reserve(current: nat, config: Config): Option<Config> {
    if current < config.checkpoint then Some(config)
    else
      var wanted := current + TRANSPORT_SEQUENCE_RESERVATION;
      var checkpoint := if wanted < MAX_SEQUENCE then wanted else MAX_SEQUENCE;
      if checkpoint == current then None else Some(config.(checkpoint := checkpoint))
  }

  function EncodeReport(agent: AgentId, flight: Flight): Envelope {
    var header := Header(agent, flight.epoch, flight.sequence, flight.report.id);
    Envelope(header, Sealed(ClientToServer, agent, flight.epoch, flight.sequence, header, ReportBody(flight.report)))
  }

  /** `decode_ack`: the acknowledgement an envelope proves for this upload, if any. */
  function DecodeAck(agent: AgentId, flight: Flight, envelope: Envelope): Option<DurableAck> {
    if envelope.header != Header(agent, flight.epoch, flight.sequence, flight.report.id) then None
    else
      match Open(ServerToClient, envelope.header, envelope.ciphertext)
      case Some(AckBody(ack)) =>
        if ack.reportId == flight.report.id && ack.hash == Hash(flight.report) then Some(ack) else None
      case _ => None
  }

  // ---- steps --------------------------------------------------------------------------------

  datatype Intake =
    | SampleIn(sample: Sample)
    | ProbeIn(probeId: ProbeId, probe: Probe)
    | CommandIn(command: CommandId)
    | CommandBegins(command: CommandId)
    | CommandEnds(command: CommandId, completedAt: nat)

  datatype Step =
    | TakeIn(intake: Intake)
    | ShedData(shed: Shed)
    | RecordFails
    | ParkSamples(bound: nat)
    | CreateReport(report: Report, ids: seq<SampleId>, now: nat)
    | Redrive(now: nat, chosen: seq<ReportId>)
    | WakeUp(retryAt: nat, limit: nat, chosen: seq<ReportId>)
    | SaveReservation
    | StartUpload(due: ReportId, now: nat, nextAttemptAt: nat)
    | SealRequest
    | Serve(request: Envelope, now: nat, progress: Progress, rotateTo: Option<nat>, report: Report, answer: Option<Envelope>)
    | OtherAgentSends(request: Envelope)
    | KeysChange(keys: map<KeyId, KeyRow>)
    | SaveRotation(reply: Envelope, used: bool)
    | ApplyAck(reply: Envelope)
    | UploadFailsForNow(retryAt: nat, error: ErrorCode)
    | UploadRejected(error: ErrorCode, now: nat)
    | Crash
    | ReplaceSpool(other: Database)
    | Boot

  function TakeInto(db: Database, intake: Intake): Option<Database> {
    match intake
    case SampleIn(sample) => Some(AppendSample(db, sample).0)
    case ProbeIn(id, probe) => Some(AppendProbe(db, id, probe))
    case CommandIn(c) => Some(AcceptCommand(db, c))
    case CommandBegins(c) => StartCommand(db, c)
    case CommandEnds(c, t) => CompleteCommand(db, c, t)
  }

  /** The network can show anyone a ciphertext that was sealed, or bytes of its own. */
  ghost predicate Known(w: World, c: Ciphertext) {
    c.Forged? || exists e | e in w.requests + w.answers :: e.ciphertext == c
  }

  /** An upload is under way in a running process. */
  predicate Flying(w: World) {
    w.process.Some? && w.process.value.flight.Some?
  }

  function FlightOf(w: World): Flight
    requires Flying(w)
  {
    w.process.value.flight.value
  }

  function Landed(w: World, spool: Database): World
    requires Flying(w)
  {
    w.(spool := spool, process := Some(w.process.value.(flight := None)))
  }

  /** `finish_upload` ends the flight; an operation that finds no row makes the agent fail. */
  function LandedOrDead(w: World, spool: Option<Database>): World
    requires Flying(w)
  {
    if spool.Some? then Landed(w, spool.value) else w.(process := None)
  }

  ghost predicate Scoped(w: World, db: Database) {
    forall r | r in db.deliveries ::
      db.deliveries[r].payload.machinePk == w.scope.machinePk && db.deliveries[r].payload.workspacePk == w.scope.workspacePk
  }

  ghost predicate SpoolStep(w: World, step: Step, db: Database) {
    match step
    case TakeIn(intake) => TakeInto(w.spool, intake) == Some(db)
    case ShedData(shed) => Sheds(w.spool, db, shed)
    case ParkSamples(bound) => db == ParkBefore(w.spool, bound)
    case CreateReport(report, ids, now) =>
      && report.id !in w.spool.deliveries
      && report.machinePk == w.scope.machinePk && report.workspacePk == w.scope.workspacePk
      && CreatesDelivery(w.spool, db, report, ids, now)
    case Redrive(now, chosen) => Redrives(w.spool, db, now, chosen)
    case WakeUp(retryAt, limit, chosen) => Wakes(w.spool, db, retryAt, limit, chosen)
    case _ => false
  }

  predicate IsSpoolStep(step: Step) {
    step.TakeIn? || step.ShedData? || step.ParkSamples? || step.CreateReport? || step.Redrive? || step.WakeUp?
  }

  ghost predicate Reserves(w: World, w': World) {
    && w.process.Some? && w.process.value.flight == None
    && (var saved := Reserve(w.spool.sequence, w.process.value.config);
        && saved.Some?
        && w' == if saved.value == w.process.value.config then w
                 else w.(disk := saved.value, process := Some(w.process.value.(config := saved.value))))
  }

  /** The upload seals its report and sends it. */
  ghost predicate Seals(w: World, w': World) {
    && Flying(w) && !FlightOf(w).sent
    && w' == w.(process := Some(w.process.value.(flight := Some(FlightOf(w).(sent := true)))),
                requests := w.requests + {EncodeReport(w.agent, FlightOf(w))},
                sealed := w.sealed + [Nonce(FlightOf(w).epoch, FlightOf(w).sequence)])
  }

  /** The server takes any request the network shows it. */
  ghost predicate Serves(w: World, request: Envelope, now: nat, progress: Progress, rotateTo: Option<nat>,
                         report: Report, answer: Option<Envelope>, w': World)
  {
    && Known(w, request.ciphertext)
    && Handles(w.server, w'.server, request, now, progress, rotateTo, report, answer)
    && w' == w.(server := w'.server,
                answers := w.answers + (if answer.Some? then {answer.value} else {}),
                accepted := if progress == Refused then w.accepted else AcceptedAfter(w, request.header))
  }

  ghost predicate Proves(w: World, reply: Envelope) {
    && Flying(w) && FlightOf(w).sent && Known(w, reply.ciphertext)
    && DecodeAck(w.agent, FlightOf(w), reply).Some?
  }

  /** `apply_ack` saves a rotated key before anything else; the process may die right after, or go on
      with its old key when it cannot make a client for the new one. */
  ghost predicate Rotates(w: World, reply: Envelope, used: bool, w': World) {
    && Proves(w, reply)
    && DecodeAck(w.agent, FlightOf(w), reply).value.rotateTo == Some(w.process.value.config.epoch + 1)
    && (var config := w.process.value.config.(epoch := w.process.value.config.epoch + 1);
        w' == w.(disk := config, process := if used then Some(w.process.value.(config := config)) else w.process))
  }

  ghost predicate Applies(w: World, reply: Envelope, w': World) {
    && Proves(w, reply)
    && w' == LandedOrDead(w, if FlightOf(w).report.id in w.spool.deliveries
                             then Some(Acknowledge(w.spool, FlightOf(w).report.id)) else None)
  }

  ghost predicate Boots(w: World, w': World) {
    && w.process.None?
    && (var db := Reconcile(w.spool, w.disk.checkpoint);
        w' == if db.Some? then w.(spool := db.value, process := Some(Process(w.disk, None, 0))) else w)
  }

  // ---- one thing at a time ------------------------------------------------------------------

  /** Steps of the agent's main loop, which runs a capacity call to its end before anything
      else; the upload task is not part of it. */
  predicate InMainLoop(step: Step) {
    IsSpoolStep(step) || step.SaveReservation? || step.StartUpload? || step.SaveRotation? || step.ApplyAck?
    || step.UploadFailsForNow? || step.UploadRejected?
  }

  function RecordedBy(step: Step): nat { if step.ShedData? then Recorded(step.shed) else 0 }

  function DroppedBy(step: Step): nat { if step.ShedData? then Lost(step.shed) else 0 }

  function OpenLoss(w: World): nat {
    if w.process.Some? then w.process.value.loss else 0
  }

  ghost predicate StepsSpool(w: World, step: Step, w': World) {
    && w.process.Some? && SpoolStep(w, step, w'.spool)
    && w' == w.(spool := w'.spool, process := Some(w.process.value.(loss := DroppedBy(step))))
  }

  /** The record that follows a drop fails; the call ends and nothing of the loss is written. */
  ghost predicate Unrecorded(w: World, w': World) {
    w.process.Some? && w.process.value.loss > 0 && w' == w.(process := Some(w.process.value.(loss := 0)))
  }

  ghost predicate Next(w: World, step: Step, w': World) {
    (InMainLoop(step) ==> OpenLoss(w) == RecordedBy(step)) && Moves(w, step, w')
  }

  ghost predicate Moves(w: World, step: Step, w': World) {
    if IsSpoolStep(step) then
      StepsSpool(w, step, w')
    else
      match step
      case RecordFails => Unrecorded(w, w')
      case SaveReservation => Reserves(w, w')
      case StartUpload(due, now, nextAttemptAt) => Starts(w, due, now, nextAttemptAt, w')
      case SealRequest => Seals(w, w')
      case Serve(request, now, progress, rotateTo, report, answer) =>
        Serves(w, request, now, progress, rotateTo, report, answer, w')
      case OtherAgentSends(request) =>
        && request.ciphertext.Sealed? && request.ciphertext.direction == ClientToServer
        && request.ciphertext.agent != w.agent
        && w' == w.(requests := w.requests + {request})
      case KeysChange(keys) =>
        && ScopesAgree(w.server.(keys := keys))
        && w' == w.(server := w.server.(keys := keys))
      case SaveRotation(reply, used) => Rotates(w, reply, used, w')
      case ApplyAck(reply) => Applies(w, reply, w')
      case UploadFailsForNow(retryAt, error) =>
        Flying(w) && w' == LandedOrDead(w, Reschedule(w.spool, FlightOf(w).report.id, retryAt, error))
      case UploadRejected(error, now) =>
        Flying(w) && w' == LandedOrDead(w, Quarantine(w.spool, FlightOf(w).report.id, error, now))
      case Crash => w' == w.(process := None)
      case ReplaceSpool(other) => w.process.None? && Inv(other) && Scoped(w, other) && w' == w.(spool := other)
      case Boot => Boots(w, w')
      case _ => false
  }

  /** `start_due_upload` after the reservation: the attempt is stored before the upload exists. */
  ghost predicate Starts(w: World, due: ReportId, now: nat, nextAttemptAt: nat, w': World) {
    && w.process.Some? && w.process.value.flight == None
    && SelectsDue(w.spool, now, Some(due))
    && w.spool.sequence < w.process.value.config.checkpoint
    && BeginAttempt(w.spool, due, nextAttemptAt).Begun?
    && w' == Launched(w, due, BeginAttempt(w.spool, due, nextAttemptAt))
  }

  function Launched(w: World, due: ReportId, attempt: Attempt): World
    requires w.process.Some? && due in w.spool.deliveries && attempt.Begun?
  {
    var process := w.process.value;
    var flight := Flight(w.spool.deliveries[due].payload, attempt.sequence, process.config.epoch, false);
    w.(spool := attempt.db, process := Some(process.(flight := Some(flight))))
  }

  function AcceptedAfter(w: World, header: Header): map<KeyId, set<nat>> {
    var key := KeyId(header.agent, header.epoch);
    w.accepted[key := AcceptedFor(w, key) + {header.sequence}]
  }

  function AcceptedFor(w: World, key: KeyId): set<nat> {
    if key in w.accepted then w.accepted[key] else {}
  }

  /** An agent that has sealed nothing yet, with any consistent spool and configuration file, and a
      server whose tables are in order and that has accepted nothing from it. */
  ghost predicate Init(w: World) {
    && Inv(w.spool) && Scoped(w, w.spool)
    && w.disk.checkpoint <= MAX_SEQUENCE && w.process == None
    && ScopesAgree(w.server) && EntriesBelong(w.server.blocks) && ReplayOk(w)
    && w.requests == {} && w.answers == {} && w.sealed == []
  }

  // ---- invariants ---------------------------------------------------------------------------

  ghost predicate SpoolOk(w: World) {
    Inv(w.spool) && Scoped(w, w.spool)
  }

  /** The delivery of the running upload is stored, pending and unchanged. */
  ghost predicate FlightOk(w: World) {
    Flying(w) ==>
      && IsPending(w.spool, FlightOf(w).report.id)
      && w.spool.deliveries[FlightOf(w).report.id].payload == FlightOf(w).report
  }

  ghost predicate Increasing(sealed: seq<Nonce>) {
    forall i, j | 0 <= i < j < |sealed| :: sealed[i].sequence < sealed[j].sequence
  }

  ghost predicate AllAtMost(sealed: seq<Nonce>, bound: nat) {
    forall i | 0 <= i < |sealed| :: sealed[i].sequence <= bound
  }

  /** Numbers handed to the sealer so far increase and lie under the stored checkpoint; a running
      process continues above them. */
  ghost predicate SequencesOk(w: World) {
    && Increasing(w.sealed) && AllAtMost(w.sealed, w.disk.checkpoint) && w.disk.checkpoint <= MAX_SEQUENCE
    && (w.process.Some? ==>
          && w.process.value.config.checkpoint == w.disk.checkpoint
          && AllAtMost(w.sealed, w.spool.sequence) && w.spool.sequence <= MAX_SEQUENCE)
    && (Flying(w) ==>
          && 1 <= FlightOf(w).sequence <= w.spool.sequence && FlightOf(w).sequence <= w.disk.checkpoint
          && (!FlightOf(w).sent ==> AllAtMost(w.sealed, FlightOf(w).sequence - 1)))
  }

  ghost predicate SealedByAgent(w: World, e: Envelope) {
    && e.ciphertext.Sealed? && e.ciphertext.aad == e.header && e.ciphertext.body.ReportBody?
    && Nonce(e.ciphertext.epoch, e.ciphertext.nonce) in w.sealed
  }

  /** Requests are sealed towards the server; the agent's own ones carry recorded numbers, no
      number twice. */
  ghost predicate RequestsOk(w: World) {
    && (forall e | e in w.requests :: e.ciphertext.Sealed? && e.ciphertext.direction == ClientToServer)
    && (forall e | e in w.requests && e.ciphertext.agent == w.agent :: SealedByAgent(w, e))
    && (forall e, e' | e in w.requests && e' in w.requests
          && e.ciphertext.agent == w.agent && e'.ciphertext.agent == w.agent
          && e.ciphertext.epoch == e'.ciphertext.epoch && e.ciphertext.nonce == e'.ciphertext.nonce :: e == e')
  }

  ghost predicate ReplayOk(w: World) {
    && (forall key: KeyId :: Represents(RowOf(w.server, key), AcceptedFor(w, key)))
    && (forall key: KeyId, n | key.agent == w.agent && n in AcceptedFor(w, key) :: Nonce(key.epoch, n) in w.sealed)
  }

  /** An answer acknowledges a report that the server holds, under a number it accepted. */
  ghost predicate IsAnswer(w: World, e: Envelope) {
    && e.ciphertext.Sealed? && e.ciphertext.direction == ServerToClient && e.ciphertext.body.AckBody?
    && e.ciphertext.body.ack.reportId == e.ciphertext.body.ack.hash.of.id
    && e.ciphertext.body.ack.hash.of.minute % MINUTE == 0
    && Stored(w.server, e.ciphertext.body.ack.hash.of)
    && e.ciphertext.nonce in AcceptedFor(w, KeyId(e.ciphertext.agent, e.ciphertext.epoch))
  }

  ghost predicate AnswersOk(w: World) {
    && (forall e | e in w.answers :: IsAnswer(w, e))
    && (forall e, e' | e in w.answers && e' in w.answers
          && e.ciphertext.agent == e'.ciphertext.agent && e.ciphertext.epoch == e'.ciphertext.epoch
          && e.ciphertext.nonce == e'.ciphertext.nonce :: e == e')
  }

  ghost predicate WorldInv(w: World) {
    && SpoolOk(w) && FlightOk(w) && SequencesOk(w) && RequestsOk(w)
    && ScopesAgree(w.server) && ReplayOk(w) && AnswersOk(w)
  }
}
