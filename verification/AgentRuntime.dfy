/** The agent's event loop (`run`): the handlers that touch the spool, the configuration file or
    the upload, each shown to be a path of the report protocol.

    `Seen(w)` is the world w with this agent's state in it; the other parts of w are whatever the
    server and the network have become meanwhile. */
module AgentRuntime {
  import opened Options
  import opened Sql
  import opened SpoolModel
  import opened SpoolInvariant
  import opened SpoolCapacity
  import opened SpoolStore
  import opened Ingest
  import opened Protocol
  import opened ProtocolInvariant
  import opened ProtocolSafety

  const DELIVERY_CREATE_BATCH: nat := 64
  const BACKLOG_WAKE_BATCH: nat := 4
  const LOCAL_RETRY_MS: nat := 300_000

  /** What an upload task comes back with. */
  datatype UploadResult =
    | Acknowledged(reply: Envelope)
    | PermanentStatus
    | Oversized
    | Failed

  /** What else decides about an acknowledgement: its newer configuration, if it has one, is complete
      and can be applied; the configuration file can be written; a client can be made for a new key;
      the commands it offers; the last transaction commits. */
  datatype Attached = Attached(configOk: bool, fileOk: bool, clientOk: bool, offers: seq<Offer>, spoolOk: bool)

  class Runtime {
    const agent: AgentId
    const machinePk: nat
    const workspacePk: nat
    const spool: Spool
    var config: Config
    var file: Config
    var flight: Option<Flight>

    ghost predicate Valid()
      reads this, spool
    {
      && spool.Valid() && spool.connection.sequence <= MAX_SEQUENCE
      && file.checkpoint == config.checkpoint <= MAX_SEQUENCE
    }

    ghost function Seen(w: World): World
      reads this, spool
    {
      w.(agent := agent, scope := KeyRow(machinePk, workspacePk),
         spool := spool.connection, disk := file, process := Some(Process(config, flight, 0)))
    }

    /** `run` up to its loop: the spool is brought up to the checkpoint of the file. */
    constructor (agent: AgentId, machinePk: nat, workspacePk: nat, spool: Spool, file: Config)
      requires spool.Valid() && file.checkpoint <= spool.connection.sequence <= MAX_SEQUENCE
      ensures Valid() && this.spool == spool && this.config == file && flight == None
      ensures this.agent == agent && this.machinePk == machinePk && this.workspacePk == workspacePk
    {
      this.agent, this.machinePk, this.workspacePk := agent, machinePk, workspacePk;
      this.spool := spool;
      this.config, this.file, this.flight := file, file, None;
    }

    /** `ensure_sequence_reservation`: the new checkpoint reaches the file before any number under
        it is used. */
    method EnsureSequenceReservation(ghost w: World) returns (ok: bool)
      requires Valid() && flight == None
      modifies this
      ensures Valid() && flight == None
      ensures ok <==> Reserve(spool.connection.sequence, old(config)).Some?
      ensures ok <==> spool.connection.sequence < old(config).checkpoint || spool.connection.sequence < 9_007_199_254_740_991
      ensures ok ==> config == old(config).(checkpoint :=
        if spool.connection.sequence < old(config).checkpoint then old(config).checkpoint
        else if spool.connection.sequence + 1_024 < 9_007_199_254_740_991 then spool.connection.sequence + 1_024
        else 9_007_199_254_740_991)
      ensures ok ==> Next(old(Seen(w)), SaveReservation, Seen(w)) && spool.connection.sequence < config.checkpoint
      ensures !ok ==> config == old(config) && file == old(file)
    {
      hide Inv;
      var current := spool.connection.sequence;
      ok := true;
      if current >= config.checkpoint {
        var wanted := current + TRANSPORT_SEQUENCE_RESERVATION;
        var checkpoint := if wanted < MAX_SEQUENCE then wanted else MAX_SEQUENCE;
        ok := checkpoint != current;
        if ok {
          var updated := config.(checkpoint := checkpoint);
          file := updated;
          config := updated;
        }
      }
    }

    /** `start_due_upload`.  `started` names the delivery taken; a refusal by the reservation ends
        the agent. */
    method StartDueUpload(ghost w: World, now: nat, retryDelay: nat)
      returns (started: Option<ReportId>, ok: bool, ghost path: seq<World>, ghost steps: seq<Step>)
      requires Valid()
      modifies this, spool
      ensures Valid()
      ensures Leads(old(Seen(w)), path, steps, Seen(w))
      ensures started.Some? ==> old(flight) == None && SelectsDue(old(spool.connection), now, started)
      ensures ok && old(flight) == None && started == None ==> SelectsDue(old(spool.connection), now, None)
      ensures started.Some? ==> steps == [SaveReservation, StartUpload(started.value, now, SaturatingAdd(now, retryDelay))]
      ensures started.None? ==> flight == old(flight) && spool.connection == old(spool.connection)
    {
      hide Inv, Next, SelectsDue, BeginAttempt;
      started, ok, path, steps := None, true, [Seen(w)], [];
      if flight == None {
        var due := spool.DueDelivery(now);
        if due.Some? {
          DueIsPending(spool.connection, due.value, now);
          var delivery := spool.connection.deliveries[due.value];
          ok := EnsureSequenceReservation(w);
          if ok {
            path, steps := path + [Seen(w)], [SaveReservation];
            ghost var before := Seen(w);
            var sequence := spool.BeginDeliveryAttempt(due.value, SaturatingAdd(now, retryDelay));
            BegunSequence(before.spool, due.value, SaturatingAdd(now, retryDelay));
            flight := Some(Flight(delivery.payload, sequence.value, config.epoch, false));
            started := due;
            StartIsNext(before, due.value, now, SaturatingAdd(now, retryDelay), Seen(w));
            path, steps := path + [Seen(w)], steps + [StartUpload(due.value, now, SaturatingAdd(now, retryDelay))];
          } else {
            path := [Seen(w)];
          }
        }
      }
    }

    /** Whether `apply_ack` accepts the key rotation a reply carries: none, or the next epoch. */
    predicate RotationAccepted(flight: Flight, reply: Envelope)
      reads this
      requires DecodeAck(agent, flight, reply).Some?
    {
      var rotateTo := DecodeAck(agent, flight, reply).value.rotateTo;
      rotateTo == None || rotateTo.value == config.epoch + 1
    }

    /** The key rotation of a reply is accepted and reaches the file. */
    predicate Saves(flight: Flight, reply: Envelope, attached: Attached)
      reads this
      requires DecodeAck(agent, flight, reply).Some?
    {
      && attached.configOk && attached.fileOk
      && DecodeAck(agent, flight, reply).value.rotateTo == Some(config.epoch + 1)
    }

    /** The steps for the key rotation of a reply. */
    ghost function RotationSteps(flight: Flight, reply: Envelope, attached: Attached): seq<Step>
      reads this
      requires DecodeAck(agent, flight, reply).Some?
    {
      if Saves(flight, reply, attached) then [SaveRotation(reply, attached.clientOk)] else []
    }

    /** Whether `apply_ack` gets past the configuration and the key. */
    predicate KeySettled(flight: Flight, reply: Envelope, attached: Attached)
      reads this
      requires DecodeAck(agent, flight, reply).Some?
    {
      && attached.configOk && RotationAccepted(flight, reply)
      && (DecodeAck(agent, flight, reply).value.rotateTo.Some? ==> attached.fileOk && attached.clientOk)
    }

    /** Whether `apply_ack` gets through. */
    predicate Applicable(flight: Flight, reply: Envelope, attached: Attached)
      reads this
      requires DecodeAck(agent, flight, reply).Some?
    {
      KeySettled(flight, reply, attached) && Acceptable(attached.offers) && attached.spoolOk
    }

    /** What `apply_ack` leaves behind before the delivery goes: the rotated key as soon as it is in
        the file, the commands once all of them are accepted. */
    ghost function PartSteps(flight: Flight, reply: Envelope, attached: Attached): seq<Step>
      reads this
      requires DecodeAck(agent, flight, reply).Some?
    {
      RotationSteps(flight, reply, attached)
      + (if KeySettled(flight, reply, attached) && Acceptable(attached.offers) then OfferSteps(attached.offers) else [])
    }

    /** The arm of `apply_ack` for a rotated key, in the file first. */
    method AcceptRotation(ghost w: World, reply: Envelope, attached: Attached)
      returns (ok: bool, ghost path: seq<World>, ghost steps: seq<Step>)
      requires Valid() && Proves(Seen(w), reply) && WorldInv(Seen(w)) && attached.configOk
      modifies this
      ensures Valid() && flight == old(flight) && Proves(Seen(w), reply) && WorldInv(Seen(w))
      ensures Leads(old(Seen(w)), path, steps, Seen(w))
      ensures ok == old(KeySettled(flight.value, reply, attached))
      ensures steps == old(RotationSteps(flight.value, reply, attached))
      ensures steps == [] ==> Seen(w) == old(Seen(w))
      ensures steps != [] ==> file == old(config).(epoch := old(config).epoch + 1)
                              && config == if attached.clientOk then file else old(config)
    {
      hide Inv, DecodeAck, Known, Next, WorldInv, Proves;
      ghost var before := Seen(w);
      ProofDecodes(before, reply);
      ok, path, steps := true, [Seen(w)], [];
      var rotateTo := DecodeAck(agent, flight.value, reply).value.rotateTo;
      if rotateTo.Some? {
        ok := rotateTo.value == config.epoch + 1 && attached.fileOk;
        if ok {
          file := config.(epoch := rotateTo.value);
          ok := attached.clientOk;
          if ok { config := file; }
          SaveRotationIsNext(before, reply, ok, Seen(w));
          NextKeeps(before, SaveRotation(reply, ok), Seen(w));
          path, steps := [before, Seen(w)], [SaveRotation(reply, ok)];
        }
      }
    }

    /** `apply_ack`; false is its error, after which the delivery is still there, but a key already in
        the file and commands already accepted stay. */
    method ApplyAck(ghost w: World, reply: Envelope, attached: Attached)
      returns (ok: bool, ghost path: seq<World>, ghost steps: seq<Step>)
      requires Valid() && Proves(Seen(w), reply) && WorldInv(Seen(w))
      modifies this, spool
      ensures Valid()
      ensures Leads(old(Seen(w)), path, steps, Seen(w))
      ensures ok == old(Applicable(flight.value, reply, attached))
      ensures steps == old(PartSteps(flight.value, reply, attached)) + (if ok then [Protocol.ApplyAck(reply)] else [])
      ensures flight == if ok then None else old(flight)
      ensures spool.connection ==
        var accepted := if old(KeySettled(flight.value, reply, attached)) && Acceptable(attached.offers)
                        then AcceptAll(old(spool.connection), attached.offers) else old(spool.connection);
        if ok then Acknowledge(accepted, old(flight).value.report.id) else accepted
      ensures !ok ==> WorldInv(Seen(w))
    {
      hide Inv, DecodeAck, Known, Next, WorldInv, Proves, Acknowledge, RotationAccepted, AcceptAll, Leads, OfferSteps,
           Acceptable;
      ghost var start := Seen(w);
      ok, path, steps := false, [start], [];
      StaysPut(start);
      if attached.configOk {
        ok, path, steps := AcceptRotation(w, reply, attached);
        if ok {
          ghost var rotated := Seen(w);
          ok := spool.AcceptCommands(attached.offers);
          if ok {
            ghost var offered := OffersLead(rotated, attached.offers, reply);
            JoinedLeads(start, path, steps, rotated, offered, OfferSteps(attached.offers), Seen(w));
            path, steps := path + offered[1..], steps + OfferSteps(attached.offers);
            ok := attached.spoolOk;
            if ok {
              ghost var before := Seen(w);
              ProofDecodes(before, reply);
              FlightIsStored(before);
              AcknowledgedKeys(before.spool, flight.value.report.id);
              var deleted, _ := spool.Acknowledge(flight.value.report.id);
              ok := deleted;
              flight := None;
              ApplyAckIsNext(before, reply, Seen(w));
              LeadsOn(start, path, steps, before, Protocol.ApplyAck(reply), Seen(w));
              path, steps := path + [Seen(w)], steps + [Protocol.ApplyAck(reply)];
            }
          }
        }
      }
    }

    /** How an upload that was not applied ends: `apply_ack` failing counts as a local problem. */
    function Ending(result: UploadResult, now: nat, retryDelay: nat): Step {
      match result
      case Acknowledged(_) => UploadFailsForNow(SaturatingAdd(now, LOCAL_RETRY_MS), LocalConfig)
      case PermanentStatus => UploadRejected(ServerRejectedPayload, now)
      case Oversized => UploadRejected(PayloadTooLarge, now)
      case Failed => UploadFailsForNow(SaturatingAdd(now, retryDelay), UploadFailed)
    }

    /** `finish_upload`.  Every branch finds the delivery it names, so the agent never stops here;
        after an acknowledgement that got through the delivery is gone, in every other case it is
        kept. */
    method FinishUpload(ghost w: World, result: UploadResult, attached: Attached, now: nat, retryDelay: nat, jitter: nat)
      returns (ok: bool, ghost path: seq<World>, ghost steps: seq<Step>)
      requires Valid() && flight.Some? && WorldInv(Seen(w))
      requires result.Acknowledged? ==> Proves(Seen(w), result.reply)
      modifies this, spool
      ensures Valid() && flight == None && ok
      ensures Leads(old(Seen(w)), path, steps, Seen(w))
      ensures old(flight).value.report.id in old(spool.connection).deliveries
      ensures spool.connection.deliveries.Keys ==
        if result.Acknowledged? && old(Applicable(flight.value, result.reply, attached))
        then old(spool.connection).deliveries.Keys - {old(flight).value.report.id}
        else old(spool.connection).deliveries.Keys
      ensures if result.Acknowledged? && old(Applicable(flight.value, result.reply, attached))
              then |steps| >= 2 && steps[|steps| - 1].WakeUp? && steps[|steps| - 1].retryAt == SaturatingAdd(now, jitter)
                   && steps[|steps| - 1].limit == BACKLOG_WAKE_BATCH
                   && steps[..|steps| - 1] == old(PartSteps(flight.value, result.reply, attached)) + [Protocol.ApplyAck(result.reply)]
              else if result.Acknowledged?
              then steps == old(PartSteps(flight.value, result.reply, attached)) + [Ending(result, now, retryDelay)]
              else steps == [Ending(result, now, retryDelay)]
      ensures !(result.Acknowledged? && old(Applicable(flight.value, result.reply, attached))) ==>
        match result
        case Acknowledged(_) => Ended(old(spool.connection), spool.connection, old(flight).value.report.id,
                                      Pending, AtMost64(now + 300_000), LocalConfig)
        case PermanentStatus => Ended(old(spool.connection), spool.connection, old(flight).value.report.id,
                                      Quarantined, AtMost64(now + 3_600_000), ServerRejectedPayload)
        case Oversized => Ended(old(spool.connection), spool.connection, old(flight).value.report.id,
                                Quarantined, AtMost64(now + 3_600_000), PayloadTooLarge)
        case Failed => Ended(old(spool.connection), spool.connection, old(flight).value.report.id,
                             Pending, AtMost64(now + retryDelay), UploadFailed)
    {
      hide Inv, Next, DecodeAck, Known, WorldInv, Acknowledge, Reschedule, Quarantine, Proves, Wakes, KeySettled,
           PartSteps, Leads, AcceptAll, Acceptable;
      FlightIsStored(Seen(w));
      ghost var before := Seen(w);
      var id := flight.value.report.id;
      match result {
        case Acknowledged(reply) =>
          var applied;
          applied, path, steps := ApplyAck(w, reply, attached);
          OffersKeepDeliveries(before.spool, attached.offers);
          AcknowledgedKeys(AcceptAll(before.spool, attached.offers), id);
          if applied {
            ghost var acknowledged := Seen(w);
            var woken := spool.WakeBacklog(SaturatingAdd(now, jitter), BACKLOG_WAKE_BATCH);
            ok := woken.Some?;
            WakeIsNext(acknowledged, Seen(w), SaturatingAdd(now, jitter), BACKLOG_WAKE_BATCH, woken.value);
            LeadsOn(before, path, steps, acknowledged, WakeUp(SaturatingAdd(now, jitter), BACKLOG_WAKE_BATCH, woken.value), Seen(w));
            path, steps := path + [Seen(w)], steps + [WakeUp(SaturatingAdd(now, jitter), BACKLOG_WAKE_BATCH, woken.value)];
          } else {
            ghost var refused := Seen(w);
            ghost var step;
            ok, step := FailForNow(w, SaturatingAdd(now, LOCAL_RETRY_MS), LocalConfig);
            LeadsOn(before, path, steps, refused, step, Seen(w));
            path, steps := path + [Seen(w)], steps + [step];
          }
        case PermanentStatus =>
          ghost var step;
          ok, step := Reject(w, ServerRejectedPayload, now);
          OneStepLeads(before, step, Seen(w));
          path, steps := [before, Seen(w)], [step];
        case Oversized =>
          ghost var step;
          ok, step := Reject(w, PayloadTooLarge, now);
          OneStepLeads(before, step, Seen(w));
          path, steps := [before, Seen(w)], [step];
        case Failed =>
          ghost var step;
          ok, step := FailForNow(w, SaturatingAdd(now, retryDelay), UploadFailed);
          OneStepLeads(before, step, Seen(w));
          path, steps := [before, Seen(w)], [step];
      }
    }

    method FailForNow(ghost w: World, retryAt: nat, error: ErrorCode) returns (ok: bool, ghost step: Step)
      requires Valid() && flight.Some? && WorldInv(Seen(w))
      modifies this, spool
      ensures Valid() && flight == None && ok && Next(old(Seen(w)), step, Seen(w)) && step == UploadFailsForNow(retryAt, error)
      ensures spool.connection.deliveries.Keys == old(spool.connection).deliveries.Keys
      ensures Ended(old(spool.connection), spool.connection, old(flight).value.report.id, Pending, retryAt, error)
    {
      hide Inv, Next, WorldInv;
      FlightIsStored(Seen(w));
      ghost var before := Seen(w);
      ok := spool.RescheduleDelivery(flight.value.report.id, retryAt, error);
      flight := None;
      step := UploadFailsForNow(retryAt, error);
      FailureIsNext(before, retryAt, error, Seen(w));
    }

    method Reject(ghost w: World, error: ErrorCode, now: nat) returns (ok: bool, ghost step: Step)
      requires Valid() && flight.Some? && WorldInv(Seen(w))
      modifies this, spool
      ensures Valid() && flight == None && ok && Next(old(Seen(w)), step, Seen(w)) && step == UploadRejected(error, now)
      ensures spool.connection.deliveries.Keys == old(spool.connection).deliveries.Keys
      ensures Ended(old(spool.connection), spool.connection, old(flight).value.report.id, Quarantined,
                    AtMost64(now + 3_600_000), error)
    {
      hide Inv, Next, WorldInv;
      FlightIsStored(Seen(w));
      ghost var before := Seen(w);
      ok := spool.QuarantineDelivery(flight.value.report.id, error, now);
      flight := None;
      step := UploadRejected(error, now);
      RejectionIsNext(before, error, now, Seen(w));
    }

    /** The sample tick: the sample is stored, then the capacity enforced; `allowed` says how many
        statements of that succeed.  When the call fails between its drop and its record the loop
        goes on, and the loss stays unrecorded. */
    method SampleTick(ghost w: World, sample: Sample, pressure: Pressure, now: nat, allowed: nat)
      returns (outcome: Option<Outcome>, ghost trace: Trace, ghost path: seq<World>, ghost steps: seq<Step>)
      requires Valid()
      modifies spool
      ensures Valid() && Leads(old(Seen(w)), path, steps, Seen(w))
      ensures Runs(trace, AppendSample(old(spool.connection), sample).0, spool.connection)
      ensures steps == [TakeIn(SampleIn(sample))] + ShedSteps(trace.done)
                       + (if StillOpen(trace.done) > 0 then [RecordFails] else [])
      ensures outcome.Some? ==> StillOpen(trace.done) == 0
    {
      hide Inv, Next, Runs, Enforces, StillOpen, Spares;
      ghost var before := Seen(w);
      var inserted := spool.AppendSample(sample);
      ghost var taken := Seen(w);
      IntakeIsNext(before, sample, taken);
      ghost var stages;
      outcome, stages, trace := spool.EnforceCapacity(pressure, now, allowed);
      TraceKeepsSequence(trace, taken.spool, spool.connection);
      ghost var during := TraceLeads(taken, trace, spool.connection);
      path, steps := [before] + during, [TakeIn(SampleIn(sample))] + ShedSteps(trace.done);
      LeadsFirst(before, TakeIn(SampleIn(sample)), taken, during, ShedSteps(trace.done),
                 During(taken, spool.connection, StillOpen(trace.done)));
      if StillOpen(trace.done) > 0 {
        LossIsNext(taken, spool.connection, StillOpen(trace.done));
        LeadsOn(before, path, steps, During(taken, spool.connection, StillOpen(trace.done)), RecordFails, Seen(w));
        path, steps := path + [Seen(w)], steps + [RecordFails];
      }
    }

    /** The deliveries of one report tick: quarantined ones return, then new ones are created until
        there is nothing to create or 64 were; `ids` are the identifiers drawn. */
    method ReportTick(ghost w: World, now: nat, ids: seq<ReportId>)
      returns (created: seq<Report>, ghost path: seq<World>, ghost steps: seq<Step>)
      requires Valid() && |ids| == DELIVERY_CREATE_BATCH
      requires forall i, j | 0 <= i < j < |ids| :: ids[i] != ids[j]
      requires forall id | id in ids :: id !in spool.connection.deliveries
      modifies spool
      ensures Valid() && Leads(old(Seen(w)), path, steps, Seen(w)) && |created| <= DELIVERY_CREATE_BATCH
      ensures |steps| > 0 && steps[0].Redrive? && steps[0].now == now
      ensures spool.connection.deliveries.Keys == old(spool.connection).deliveries.Keys + Elements(ids[..|created|])
      ensures |created| < DELIVERY_CREATE_BATCH ==>
        exists before, bound :: CreatesNothing(before, spool.connection, now, bound)
    {
      hide Inv, Next, Redrives, CreatesDelivery, CreatesNothing;
      ghost var before := Seen(w);
      var chosen := spool.RedriveQuarantined(now);
      RedriveIsNext(before, Seen(w), now, chosen);
      created, path, steps := [], [before, Seen(w)], [Redrive(now, chosen)];
      var more := true;
      while more && |created| < DELIVERY_CREATE_BATCH
        invariant Valid() && |created| <= DELIVERY_CREATE_BATCH
        invariant Leads(before, path, steps, Seen(w)) && |steps| > 0 && steps[0] == Redrive(now, chosen)
        invariant spool.connection.deliveries.Keys == before.spool.deliveries.Keys + Elements(ids[..|created|])
        invariant !more ==> exists before, bound :: CreatesNothing(before, spool.connection, now, bound)
        decreases DELIVERY_CREATE_BATCH - |created|, more
      {
        ghost var from := Seen(w);
        var report, sampleIds, bound := spool.CreateNextDelivery(machinePk, workspacePk, now, ids[|created|]);
        ghost var step;
        if report.Some? {
          created := created + [report.value];
          step := CreateReport(report.value, sampleIds, now);
          CreationIsNext(from, Seen(w), report.value, sampleIds, now);
        } else {
          more := false;
          step := ParkSamples(bound);
          ParkingIsNext(from, Seen(w), now, bound);
        }
        LeadsOn(before, path, steps, from, step, Seen(w));
        path, steps := path + [Seen(w)], steps + [step];
      }
    }
  }

  function AtMost64(t: nat): nat { if t < 0x8000_0000_0000_0000 then t else 0x7FFF_FFFF_FFFF_FFFF }

  /** The delivery is in this state, for another attempt at this time at the earliest, with this error
      noted and its attempts and payload as before; no other delivery has changed. */
  ghost predicate Ended(db: Database, db': Database, r: ReportId, state: DeliveryState, nextAttemptAt: nat, error: ErrorCode) {
    && r in db.deliveries && r in db'.deliveries && db'.deliveries.Keys == db.deliveries.Keys
    && db'.deliveries[r].state == state && db'.deliveries[r].nextAttemptAt == nextAttemptAt
    && db'.deliveries[r].lastError == error && db'.deliveries[r].attempts == db.deliveries[r].attempts
    && db'.deliveries[r].payload == db.deliveries[r].payload && db'.deliveries[r].minute == db.deliveries[r].minute
    && forall other | other in db.deliveries && other != r :: db'.deliveries[other] == db.deliveries[other]
  }

  /** The steps lead from the world `w` to the world `w'`. */
  ghost predicate Leads(w: World, path: seq<World>, steps: seq<Step>, w': World) {
    IsPath(path, steps) && path[0] == w && path[|steps|] == w'
  }

  lemma LeadsOn(w: World, path: seq<World>, steps: seq<Step>, mid: World, step: Step, w': World)
    requires Leads(w, path, steps, mid) && Next(mid, step, w')
    ensures Leads(w, path + [w'], steps + [step], w')
  {
    hide Next;
  }

  lemma OneStepLeads(w: World, step: Step, w': World)
    requires Next(w, step, w')
    ensures Leads(w, [w, w'], [step], w')
  {
    hide Next;
  }

  lemma StaysPut(w: World)
    ensures Leads(w, [w], [], w)
  {
  }

  lemma JoinedLeads(w: World, path: seq<World>, steps: seq<Step>, mid: World, path': seq<World>, steps': seq<Step>, w': World)
    requires Leads(w, path, steps, mid) && Leads(mid, path', steps', w')
    ensures |path'| > 0 && Leads(w, path + path'[1..], steps + steps', w')
  {
    hide Next;
    var all, moves := path + path'[1..], steps + steps';
    forall i | 0 <= i < |moves| ensures Next(all[i], moves[i], all[i + 1]) {
      if i >= |steps| {
        assert Next(path'[i - |steps|], steps'[i - |steps|], path'[i - |steps| + 1]);
      }
    }
  }

  // ---- accepting commands as steps ----------------------------------------------------------

  function OfferSteps(offers: seq<Offer>): seq<Step> {
    seq(|offers|, i requires 0 <= i < |offers| => TakeIn(CommandIn(offers[i].id)))
  }

  lemma OfferIsNext(w: World, id: CommandId, w': World)
    requires w.process.Some? && OpenLoss(w) == 0 && w' == w.(spool := AcceptCommand(w.spool, id))
    ensures Next(w, TakeIn(CommandIn(id)), w')
  {
  }

  lemma SpoolDoesNotProve(w: World, w': World, reply: Envelope)
    requires Proves(w, reply) && w' == w.(spool := w'.spool)
    ensures Proves(w', reply)
  {
    hide DecodeAck;
  }

  /** Commands are taken in one by one; the upload and its proof are not touched. */
  lemma {:induction false} OffersLead(w: World, offers: seq<Offer>, reply: Envelope) returns (path: seq<World>)
    requires WorldInv(w) && Proves(w, reply) && w.process.Some? && OpenLoss(w) == 0
    ensures var w' := w.(spool := AcceptAll(w.spool, offers));
      && Leads(w, path, OfferSteps(offers), w') && WorldInv(w') && Proves(w', reply)
      && w'.spool.sequence == w.spool.sequence
    decreases |offers|
  {
    hide Next, WorldInv, Proves, AcceptCommand;
    if offers == [] {
      path := [w];
      assert OfferSteps(offers) == [];
    } else {
      var init, id := offers[..|offers| - 1], offers[|offers| - 1].id;
      path := OffersLead(w, init, reply);
      var mid, w' := w.(spool := AcceptAll(w.spool, init)), w.(spool := AcceptAll(w.spool, offers));
      OfferIsNext(mid, id, w');
      NextKeeps(mid, TakeIn(CommandIn(id)), w');
      SpoolDoesNotProve(mid, w', reply);
      LeadsOn(w, path, OfferSteps(init), mid, TakeIn(CommandIn(id)), w');
      path := path + [w'];
      assert OfferSteps(offers) == OfferSteps(init) + [TakeIn(CommandIn(id))];
      OfferKeepsSequence(mid.spool, id);
    }
  }

  lemma OfferKeepsSequence(db: Database, id: CommandId)
    ensures AcceptCommand(db, id).sequence == db.sequence && AcceptCommand(db, id).deliveries == db.deliveries
  {
  }

  lemma {:induction false} OffersKeepDeliveries(db: Database, offers: seq<Offer>)
    ensures AcceptAll(db, offers).sequence == db.sequence && AcceptAll(db, offers).deliveries == db.deliveries
    decreases |offers|
  {
    hide AcceptCommand;
    if offers != [] {
      OffersKeepDeliveries(db, offers[..|offers| - 1]);
      OfferKeepsSequence(AcceptAll(db, offers[..|offers| - 1]), offers[|offers| - 1].id);
    }
  }

  lemma LeadsFirst(w: World, step: Step, mid: World, path: seq<World>, steps: seq<Step>, w': World)
    requires Next(w, step, mid) && Leads(mid, path, steps, w')
    ensures Leads(w, [w] + path, [step] + steps, w')
  {
    hide Next;
  }

  // ---- a capacity call as steps -------------------------------------------------------------

  /** The world in the middle of a capacity call. */
  function During(w: World, db: Database, loss: nat): World
    requires w.process.Some?
  {
    w.(spool := db, process := Some(w.process.value.(loss := loss)))
  }

  function ShedSteps(done: seq<Shed>): seq<Step> {
    seq(|done|, i requires 0 <= i < |done| => ShedData(done[i]))
  }

  lemma ShedIsNext(w: World, db: Database, loss: nat, shed: Shed, db': Database)
    requires w.process.Some? && Sheds(db, db', shed) && Recorded(shed) == loss
    ensures Next(During(w, db, loss), ShedData(shed), During(w, db', Lost(shed)))
  {
    hide Sheds;
  }

  lemma TraceLeads(w: World, t: Trace, db: Database) returns (path: seq<World>)
    requires OpenLoss(w) == 0 && w.process.Some? && Runs(t, w.spool, db)
    ensures Leads(w, path, ShedSteps(t.done), During(w, db, StillOpen(t.done)))
  {
    hide Next, Sheds;
    path := seq(|t.dbs|, i requires 0 <= i < |t.dbs| => During(w, t.dbs[i], StillOpen(t.done[..i])));
    forall i | 0 <= i < |t.done| ensures Next(path[i], ShedSteps(t.done)[i], path[i + 1]) {
      assert t.done[..i + 1][i] == t.done[i];
      ShedIsNext(w, t.dbs[i], StillOpen(t.done[..i]), t.done[i], t.dbs[i + 1]);
    }
    assert t.done[..|t.done|] == t.done;
  }

  lemma LossIsNext(w: World, db: Database, loss: nat)
    requires w.process.Some? && loss > 0
    ensures Next(During(w, db, loss), RecordFails, During(w, db, 0))
  {
  }

  lemma IntakeIsNext(w: World, sample: Sample, w': World)
    requires OpenLoss(w) == 0
    requires w.process.Some? && w' == w.(spool := AppendSample(w.spool, sample).0)
    ensures Next(w, TakeIn(SampleIn(sample)), w') && w'.spool.sequence == w.spool.sequence
  {
  }

  lemma ShedKeepsSequence(db: Database, db': Database, shed: Shed)
    requires Sheds(db, db', shed)
    ensures db'.sequence == db.sequence
  {
    hide FirstByRank, AnyUpTo;
  }

  lemma TraceKeepsSequence(t: Trace, db: Database, db': Database)
    requires Runs(t, db, db')
    ensures db'.sequence == db.sequence
  {
    hide Sheds;
    SequenceAlong(t, db, db', |t.done|);
  }

  lemma {:induction false} SequenceAlong(t: Trace, db: Database, db': Database, i: nat)
    requires Runs(t, db, db') && i <= |t.done|
    ensures t.dbs[i].sequence == db.sequence
  {
    hide Sheds;
    if i > 0 {
      SequenceAlong(t, db, db', i - 1);
      ShedKeepsSequence(t.dbs[i - 1], t.dbs[i], t.done[i - 1]);
    }
  }

  lemma DueIsPending(db: Database, r: ReportId, now: nat)
    requires SelectsDue(db, now, Some(r))
    ensures r in db.deliveries && IsPending(db, r)
  {
  }

  lemma BegunSequence(db: Database, r: ReportId, nextAttemptAt: nat)
    requires IsPending(db, r) && db.sequence < MAX_SEQUENCE
    ensures BeginAttempt(db, r, nextAttemptAt).Begun?
    ensures BeginAttempt(db, r, nextAttemptAt).db.sequence == db.sequence + 1
  {
  }

  lemma StartIsNext(w: World, due: ReportId, now: nat, nextAttemptAt: nat, w': World)
    requires OpenLoss(w) == 0
    requires w.process.Some? && w.process.value.flight == None && SelectsDue(w.spool, now, Some(due))
    requires w.spool.sequence < w.process.value.config.checkpoint
    requires due in w.spool.deliveries
    requires BeginAttempt(w.spool, due, nextAttemptAt).Begun?
    requires w' == Launched(w, due, BeginAttempt(w.spool, due, nextAttemptAt))
    ensures Next(w, StartUpload(due, now, nextAttemptAt), w')
  {
  }

  lemma SaveRotationIsNext(w: World, reply: Envelope, used: bool, w': World)
    requires OpenLoss(w) == 0
    requires Rotates(w, reply, used, w')
    ensures Next(w, SaveRotation(reply, used), w') && Proves(w', reply)
  {
    hide DecodeAck;
  }

  lemma ApplyAckIsNext(w: World, reply: Envelope, w': World)
    requires OpenLoss(w) == 0
    requires Proves(w, reply) && FlightOf(w).report.id in w.spool.deliveries
    requires w' == Landed(w, Acknowledge(w.spool, FlightOf(w).report.id))
    ensures Next(w, Protocol.ApplyAck(reply), w')
  {
    hide Known, DecodeAck, Acknowledge;
  }

  lemma WakeIsNext(w: World, w': World, retryAt: nat, limit: nat, chosen: seq<ReportId>)
    requires OpenLoss(w) == 0
    requires w.process.Some? && Wakes(w.spool, w'.spool, retryAt, limit, chosen) && w' == w.(spool := w'.spool)
    ensures Next(w, WakeUp(retryAt, limit, chosen), w')
    ensures w'.spool.sequence == w.spool.sequence && w'.spool.deliveries.Keys == w.spool.deliveries.Keys
  {
  }

  lemma AcknowledgedKeys(db: Database, r: ReportId)
    ensures Acknowledge(db, r).sequence == db.sequence && Acknowledge(db, r).deliveries.Keys == db.deliveries.Keys - {r}
  {
  }

  lemma FailureIsNext(w: World, retryAt: nat, error: ErrorCode, w': World)
    requires OpenLoss(w) == 0
    requires Flying(w) && Reschedule(w.spool, FlightOf(w).report.id, retryAt, error).Some?
    requires w' == Landed(w, Reschedule(w.spool, FlightOf(w).report.id, retryAt, error).value)
    ensures Next(w, UploadFailsForNow(retryAt, error), w')
    ensures w'.spool.sequence == w.spool.sequence && w'.spool.deliveries.Keys == w.spool.deliveries.Keys
  {
  }

  lemma RejectionIsNext(w: World, error: ErrorCode, now: nat, w': World)
    requires OpenLoss(w) == 0
    requires Flying(w) && Quarantine(w.spool, FlightOf(w).report.id, error, now).Some?
    requires w' == Landed(w, Quarantine(w.spool, FlightOf(w).report.id, error, now).value)
    ensures Next(w, UploadRejected(error, now), w')
    ensures w'.spool.sequence == w.spool.sequence && w'.spool.deliveries.Keys == w.spool.deliveries.Keys
  {
  }

  lemma RedriveIsNext(w: World, w': World, now: nat, chosen: seq<ReportId>)
    requires OpenLoss(w) == 0
    requires w.process.Some? && Redrives(w.spool, w'.spool, now, chosen) && w' == w.(spool := w'.spool)
    ensures Next(w, Redrive(now, chosen), w')
    ensures w'.spool.sequence == w.spool.sequence && w'.spool.deliveries.Keys == w.spool.deliveries.Keys
  {
  }

  lemma CreationIsNext(w: World, w': World, report: Report, ids: seq<SampleId>, now: nat)
    requires OpenLoss(w) == 0
    requires w.process.Some? && w' == w.(spool := w'.spool) && report.id !in w.spool.deliveries
    requires report.machinePk == w.scope.machinePk && report.workspacePk == w.scope.workspacePk
    requires CreatesDelivery(w.spool, w'.spool, report, ids, now)
    ensures Next(w, CreateReport(report, ids, now), w')
    ensures w'.spool.sequence == w.spool.sequence && w'.spool.deliveries.Keys == w.spool.deliveries.Keys + {report.id}
  {
    hide BuildsReport;
  }

  lemma ParkingIsNext(w: World, w': World, now: nat, bound: nat)
    requires OpenLoss(w) == 0
    requires w.process.Some? && w' == w.(spool := w'.spool) && CreatesNothing(w.spool, w'.spool, now, bound)
    ensures Next(w, ParkSamples(bound), w')
    ensures w'.spool.sequence == w.spool.sequence && w'.spool.deliveries.Keys == w.spool.deliveries.Keys
  {
  }

  lemma ProofDecodes(w: World, reply: Envelope)
    requires Proves(w, reply)
    ensures Flying(w) && DecodeAck(w.agent, FlightOf(w), reply).Some?
  {
  }
}
