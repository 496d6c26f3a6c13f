/** The agent's `Spool`: its methods, run statement by statement on the database behind its
    connection, and the operations of SpoolModel they amount to. */
module SpoolStore {
  import opened Options
  import opened Sql
  import opened SpoolModel
  import opened SpoolInvariant
  import opened SpoolCreation
  import opened SpoolCapacity

  const EMPTY: Database :=
    Database(map[], 1, map[], {}, map[], map[], {}, map[], 0, map[], Ledger(0, map[], map[], 0, 0, 0))

  class Spool {
    var connection: Database

    constructor (connection: Database)
      ensures this.connection == connection
    {
      this.connection := connection;
    }

    ghost predicate Valid()
      reads this
    {
      Inv(connection)
    }

    static method Create(initialClientSequence: nat) returns (spool: Option<Spool>)
      ensures spool.Some? <==> 1 <= initialClientSequence <= MAX_SEQUENCE
      ensures spool.Some? ==> fresh(spool.value) && spool.value.Valid()
                              && spool.value.connection == EMPTY.(sequence := initialClientSequence - 1)
    {
      if initialClientSequence == 0 || initialClientSequence > MAX_SEQUENCE {
        return None;
      }
      var created := new Spool(EMPTY);
      created.connection := created.connection.(sequence := initialClientSequence - 1);
      spool := Some(created);
    }

    method ReconcileSequenceCheckpoint(checkpoint: nat) returns (sequence: Option<nat>)
      requires Valid()
      modifies this
      ensures Valid()
      ensures match Reconcile(old(connection), checkpoint)
              case None => sequence == None && connection == old(connection)
              case Some(db) => sequence == Some(db.sequence) && connection == db
    {
      if checkpoint > MAX_SEQUENCE { return None; }
      var current := connection.sequence;
      if current < checkpoint {
        connection := connection.(sequence := checkpoint);
        current := checkpoint;
      }
      if current > MAX_SEQUENCE { return None; }
      ReconcileKeeps(old(connection), checkpoint);
      sequence := Some(current);
    }

    method AppendSample(sample: Sample) returns (inserted: bool)
      requires Valid()
      modifies this
      ensures Valid()
      ensures (connection, inserted) == SpoolModel.AppendSample(old(connection), sample)
    {
      AppendSampleKeeps(connection, sample);
      if BucketTaken(connection, sample.observedAt) {
        return false;
      }
      connection := InsertSample(connection, sample);
      inserted := true;
    }

    /** The loop of `create_next_delivery`: parks leftover samples of minutes that already have a
        delivery and returns the first closed minute that has none. */
    method ParkStaleMinutes(currentMinute: nat) returns (minute: Option<nat>, ghost bound: nat)
      requires Valid() && currentMinute % MINUTE == 0
      modifies this
      ensures bound <= currentMinute
      ensures connection == ParkBefore(old(connection), bound)
      ensures AllHaveDelivery(old(connection), bound)
      ensures minute.Some? ==>
        && bound == minute.value < currentMinute && minute.value in OpenMinutes(old(connection), currentMinute)
        && !HasDelivery(old(connection), minute.value)
        && |OpenMinutes(old(connection), bound)| < STALE_MINUTE_LIMIT
      ensures minute.None? ==>
        && |OpenMinutes(old(connection), bound)| <= STALE_MINUTE_LIMIT
        && (|OpenMinutes(old(connection), bound)| < STALE_MINUTE_LIMIT ==> bound == currentMinute)
    {
      hide AllHaveDelivery, HasDelivery, OpenMinutes, Unassigned, UnassignedBefore, DeliveriesOf, NextOpenMinute,
           ParkBefore, Park, Inv, FloorMinute;
      ghost var db := connection;
      KeyedDeliveries(db);
      var staleMinutes, done := 0, false;
      minute, bound := None, 0;
      NoneParkedAtFirst(db);
      while !done
        invariant bound <= currentMinute && AllHaveDelivery(db, bound)
        invariant connection == ParkBefore(db, bound)
        invariant staleMinutes == |OpenMinutes(db, bound)| <= STALE_MINUTE_LIMIT
        invariant !done ==> minute == None && staleMinutes < STALE_MINUTE_LIMIT
        invariant done && minute.None? && staleMinutes < STALE_MINUTE_LIMIT ==> bound == currentMinute
        invariant minute.Some? ==>
          && bound == minute.value < currentMinute && minute.value in OpenMinutes(db, currentMinute)
          && !HasDelivery(db, minute.value) && staleMinutes < STALE_MINUTE_LIMIT
        decreases !done, UnassignedBefore(connection, currentMinute)
      {
        ParkingMovesLinksOnly(db, bound);
        var oldest := OldestUnassigned(currentMinute);
        if oldest.None? {
          ClosedMinutesParked(db, bound, currentMinute);
          bound, done := currentMinute, true;
        } else {
          OldestIsNextOpen(db, bound, currentMinute, oldest.value);
          var m := MinuteOf(connection, oldest.value);
          var existing := DeliveriesOf(connection, m);
          if existing == {} {
            MinuteIsFree(db, bound, m);
            minute, bound, done := Some(m), m, true;
          } else {
            var report :| report in existing;
            ParkingStep(db, bound, currentMinute, oldest.value, report);
            connection := Park(connection, m, report);
            staleMinutes := staleMinutes + 1;
            bound := m + MINUTE;
            done := staleMinutes >= STALE_MINUTE_LIMIT;
          }
        }
      }
    }

    /** The oldest unassigned sample taken before `t`. */
    method OldestUnassigned(t: nat) returns (oldest: Option<SampleId>)
      ensures oldest.None? <==> UnassignedBefore(connection, t) == {}
      ensures oldest.Some? ==> oldest.value in UnassignedBefore(connection, t) && oldest.value in connection.samples
      ensures oldest.Some? ==> forall id | id in UnassignedBefore(connection, t) && id in connection.samples ::
        connection.samples[oldest.value].observedAt <= connection.samples[id].observedAt
    {
      oldest := None;
      var open := UnassignedBefore(connection, t);
      if open != {} {
        var id := Least(open, SampleRank(connection));
        oldest := Some(id);
      }
    }

    /** Returns the report put into a new delivery, or None.  The ghost results name the samples
        it was built from and the minute before which everything was parked. */
    method CreateNextDelivery(machinePk: nat, workspacePk: nat, now: nat, newId: ReportId)
      returns (created: Option<Report>, ghost ids: seq<SampleId>, ghost bound: nat)
      requires Valid() && newId !in connection.deliveries
      modifies this
      ensures Valid()
      ensures created.Some? ==>
        && CreatesDelivery(old(connection), connection, created.value, ids, now)
        && created.value.id == newId
        && created.value.machinePk == machinePk && created.value.workspacePk == workspacePk
      ensures created.None? ==> CreatesNothing(old(connection), connection, now, bound)
    {
      hide Inv, AllHaveDelivery, HasDelivery, OpenMinutes, ParkBefore;
      ghost var before := connection;
      ids := [];
      var minute;
      minute, bound := ParkStaleMinutes(FloorMinute(now));
      if minute.None? {
        CreatesNothingKeeps(before, connection, now, bound);
        return None, [], bound;
      }
      var db := connection;
      var sampleIds := SelectFirst(UnassignedIn(db, minute.value), SampleRank(db), MAX_REPORT_SAMPLES);
      var samples := ReadSamples(db, sampleIds);
      var probes := SelectFirst(ProbesUpTo(db, minute.value), ProbeRank(db), MAX_PROBES);
      var results := SelectFirst(UnassignedResults(db), ResultRank(db), MAX_COMMAND_RESULTS);
      var report := Report(newId, machinePk, workspacePk, minute.value, samples, probes, results);
      connection := InsertDelivery(db, report, sampleIds, now);
      created, ids := Some(report), sampleIds;
      CreatesDeliveryKeeps(before, connection, report, ids, now);
    }

    /** `due_delivery`: the earliest pending delivery whose time has come. */
    method DueDelivery(now: nat) returns (due: Option<ReportId>)
      ensures SelectsDue(connection, now, due)
      ensures due.None? <==> forall r | r in connection.deliveries ::
        connection.deliveries[r].state == Quarantined || connection.deliveries[r].nextAttemptAt > now
      ensures due.Some? ==>
        && due.value in connection.deliveries && connection.deliveries[due.value].state == Pending
        && connection.deliveries[due.value].nextAttemptAt <= now
        && forall r | r in connection.deliveries && connection.deliveries[r].state == Pending
                      && connection.deliveries[r].nextAttemptAt <= now ::
             connection.deliveries[due.value].minute <= connection.deliveries[r].minute
    {
      var candidates := set r | r in connection.deliveries
                             && connection.deliveries[r].state == Pending && connection.deliveries[r].nextAttemptAt <= now;
      assert forall r | r in connection.deliveries :: Due(connection, r, now) <==> r in candidates;
      if candidates == {} {
        return None;
      }
      var first := Least(candidates, DeliveryRank(connection));
      assert forall other | other in candidates :: RankLe(DeliveryRank(connection)[first], DeliveryRank(connection)[other]);
      due := Some(first);
    }

    method BeginDeliveryAttempt(r: ReportId, nextAttemptAt: nat) returns (sequence: Option<nat>)
      requires Valid()
      modifies this
      ensures Valid()
      ensures sequence.Some? <==>
        && old(connection).sequence < 9_007_199_254_740_991
        && r in old(connection).deliveries && old(connection).deliveries[r].state == Pending
      ensures sequence.Some? ==> BeginAttempt(old(connection), r, nextAttemptAt) == Begun(connection, sequence.value)
      ensures sequence.None? ==> connection == old(connection)
    {
      hide Inv;
      var transaction := connection;
      var next := transaction.sequence + 1;
      if next > MAX_SEQUENCE { return None; }
      transaction := transaction.(sequence := next);
      if !IsPending(transaction, r) { return None; }
      BeginAttemptKeeps(connection, r, nextAttemptAt);
      connection := RecordAttempt(transaction, r, nextAttemptAt);
      sequence := Some(next);
    }

    method RescheduleDelivery(r: ReportId, nextAttemptAt: nat, error: ErrorCode) returns (changed: bool)
      requires Valid()
      modifies this
      ensures Valid()
      ensures changed == IsPending(old(connection), r)
      ensures connection == (match Reschedule(old(connection), r, nextAttemptAt, error)
                             case Some(db) => db case None => old(connection))
    {
      changed := IsPending(connection, r);
      if changed {
        RescheduledKeeps(connection, r, nextAttemptAt, error);
        connection := connection.(deliveries :=
          connection.deliveries[r := connection.deliveries[r].(nextAttemptAt := nextAttemptAt, lastError := error)]);
      }
    }

    method QuarantineDelivery(r: ReportId, error: ErrorCode, now: nat) returns (changed: bool)
      requires Valid()
      modifies this
      ensures Valid()
      ensures changed == IsPending(old(connection), r)
      ensures connection == (match Quarantine(old(connection), r, error, now)
                             case Some(db) => db case None => old(connection))
    {
      changed := IsPending(connection, r);
      if changed {
        QuarantinedKeeps(connection, r, error, now);
        connection := connection.(deliveries := connection.deliveries[r := connection.deliveries[r].(
          state := Quarantined, lastError := error, nextAttemptAt := SaturatingAdd(now, QUARANTINE_REDRIVE_MS))]);
      }
    }

    method RedriveQuarantined(now: nat) returns (chosen: seq<ReportId>)
      requires Valid()
      modifies this
      ensures Valid()
      ensures Redrives(old(connection), connection, now, chosen)
    {
      chosen := SelectFirst(Redrivable(connection, now), DeliveryRank(connection), REDRIVE_BATCH);
      SetPendingKeeps(connection, chosen);
      connection := SetPending(connection, chosen);
    }

    /** None is the error for a batch size outside 1..64. */
    method WakeBacklog(retryAt: nat, limit: nat) returns (chosen: Option<seq<ReportId>>)
      requires Valid()
      modifies this
      ensures Valid()
      ensures chosen.Some? <==> 1 <= limit <= 64
      ensures chosen.Some? ==> Wakes(old(connection), connection, retryAt, limit, chosen.value)
      ensures chosen.None? ==> connection == old(connection)
    {
      if limit == 0 || limit > 64 { return None; }
      var woken := SelectFirst(Sleeping(connection, retryAt), DeliveryRank(connection), limit);
      SetNextAttemptKeeps(connection, woken, retryAt);
      connection := SetNextAttempt(connection, woken, retryAt);
      chosen := Some(woken);
    }

    /** One transaction.  A row that a remaining link still refers to cannot be deleted
        (ON DELETE RESTRICT); in a consistent spool that never happens, so the call always
        completes, and it reports true exactly when the delivery existed. */
    method Acknowledge(r: ReportId) returns (deleted: bool, ghost restricted: bool)
      requires Valid()
      modifies this
      ensures Valid()
      ensures !restricted
      ensures connection == SpoolModel.Acknowledge(old(connection), r)
      ensures deleted <==> r in old(connection).deliveries
    {
      AcknowledgeUnhindered(connection, r);
      AcknowledgeKeeps(connection, r);
      AcknowledgeInSteps(connection, r);
      var sampleIds := OwnedBy(connection, r);
      var commandIds := ResultsOf(connection, r);
      var existed := r in connection.deliveries;
      var ledger := Settled(connection, r);
      var transaction := RemoveDeliveries(connection, {r});
      assert forall l | l in transaction.links :: l.sample !in sampleIds;
      assert forall l | l in transaction.resultLinks :: l.command !in commandIds;
      ghost var linked, linkedResults;
      var deletedSamples;
      transaction, deletedSamples, linked := DeleteSamples(transaction, sampleIds);
      transaction, linkedResults := DeleteResults(transaction, commandIds);
      restricted := linked || linkedResults;
      connection := transaction.(ledger := ledger);
      deleted := existed && deletedSamples > 0;
    }

    /** One transaction: all offered commands or, with too many or a bad one, none. */
    method AcceptCommands(offers: seq<Offer>) returns (ok: bool)
      requires Valid()
      modifies this
      ensures Valid()
      ensures ok <==> Acceptable(offers)
      ensures connection == if ok then AcceptAll(old(connection), offers) else old(connection)
    {
      hide Inv, AcceptCommand;
      ok := |offers| <= MAX_OFFERS;
      var transaction := connection;
      var i := 0;
      while ok && i < |offers|
        invariant 0 <= i <= |offers|
        invariant ok <==> |offers| <= MAX_OFFERS && forall k | 0 <= k < i :: offers[k].valid
        invariant ok ==> transaction == AcceptAll(old(connection), offers[..i])
        invariant connection == old(connection)
        decreases ok, |offers| - i
      {
        ok := offers[i].valid;
        assert offers[..i + 1][..i] == offers[..i];
        if ok {
          transaction := AcceptCommand(transaction, offers[i].id);
        }
        i := i + 1;
      }
      assert ok ==> offers[..i] == offers;
      AcceptAllKeeps(connection, offers);
      if ok { connection := transaction; }
    }

    method CompleteCommand(id: CommandId, completedAt: nat) returns (changed: bool)
      requires Valid()
      modifies this
      ensures Valid()
      ensures changed <==> SpoolModel.CompleteCommand(old(connection), id, completedAt).Some?
      ensures connection == (match SpoolModel.CompleteCommand(old(connection), id, completedAt)
                             case Some(db) => db case None => old(connection))
    {
      changed := id in connection.commands && connection.commands[id] != CommandCompleted;
      if changed {
        CompleteCommandKeeps(connection, id, completedAt);
        var transaction := connection.(commands := connection.commands[id := CommandCompleted]);
        transaction := transaction.(results := transaction.results[id := completedAt]);
        connection := transaction;
      }
    }

    /** One compaction DELETE. */
    method Compact(before: Option<nat>, width: nat, limit: nat) returns (removed: nat, ghost shed: Shed)
      requires Valid() && width > 0
      modifies this
      ensures Valid()
      ensures CompactsIf(true, old(connection), connection, before, width, limit)
      ensures Sheds(old(connection), connection, shed) && shed.CompactPass? && Spares(old(connection), connection)
      ensures removed == connection.ledger.compacted - old(connection).ledger.compacted
      ensures connection.ledger.dropped == old(connection).ledger.dropped
      ensures connection.ledger.unrecorded == old(connection).ledger.unrecorded
    {
      var db := connection;
      var scanned := SelectFirst(Candidates(db, before), SampleRank(db), COMPACTION_SCAN_BATCH);
      var doomed := SelectAny(Superseded(db, Elements(scanned), width), limit);
      connection := Compacted(db, doomed);
      removed, shed := |doomed|, CompactPass(before, width, limit, scanned, doomed);
      assert Compacts(db, connection, before, width, limit, scanned, doomed);
      CompactsSpares(db, connection, before, width, limit, scanned, doomed);
    }

    /** DELETE of the oldest quarantined deliveries. */
    method Evict() returns (evicted: nat, ghost gone: seq<ReportId>)
      requires Valid()
      modifies this
      ensures Valid()
      ensures Evicts(old(connection), connection, gone) && Spares(old(connection), connection)
      ensures evicted == |old(connection).deliveries| - |connection.deliveries|
      ensures connection.ledger == old(connection).ledger
    {
      var db := connection;
      var chosen := SelectFirst(QuarantinedReports(db), DeliveryRank(db), EVICTION_BATCH);
      connection := RemoveDeliveries(db, Elements(chosen));
      evicted, gone := |chosen|, chosen;
      EvictsSpares(db, connection, chosen);
      DistinctSize(chosen);
      SubsetSizeLe(Elements(chosen), db.deliveries.Keys);
      assert connection.deliveries.Keys == db.deliveries.Keys - Elements(chosen);
    }

    /** DELETE of the oldest unassigned samples. */
    method Drop() returns (dropped: nat, ghost doomed: seq<SampleId>)
      requires Valid()
      modifies this
      ensures Valid()
      ensures Drops(old(connection), connection, doomed) && Spares(old(connection), connection)
      ensures dropped == |doomed| == connection.ledger.dropped - old(connection).ledger.dropped
      ensures connection.ledger.unrecorded == old(connection).ledger.unrecorded + dropped
    {
      var db := connection;
      var chosen := SelectFirst(Unassigned(db), SampleRank(db), DROP_BATCH);
      connection := Dropped(db, chosen);
      dropped, doomed := |chosen|, chosen;
      DropsSpares(db, connection, chosen);
    }

    /** The compaction passes; `left` counts the statements that may still run. */
    method CompactionPasses(pressure: Pressure, now: nat, allowed: nat)
      returns (compacted: Option<nat>, left: nat, ghost stages: Stages, ghost trace: Trace)
      requires Valid()
      modifies this
      ensures Valid() && Spares(old(connection), connection)
      ensures Runs(trace, old(connection), connection) && StillOpen(trace.done) == 0
      ensures connection.ledger.dropped == old(connection).ledger.dropped
      ensures connection.ledger.unrecorded == old(connection).ledger.unrecorded
      ensures compacted.Some? ==>
        && Compactions(old(connection), stages.first, stages.second, stages.third, pressure, now) && stages.third == connection
        && compacted.value == connection.ledger.compacted - old(connection).ledger.compacted
    {
      hide Inv, Spares, CompactsIf, Sheds, Runs, StillOpen;
      ghost var db := connection;
      SparesItself(db);
      UntracedRuns(db);
      trace := Untraced(db);
      left := allowed;
      compacted, stages := None, Stages(db, db, db, db, db);
      if left > 0 {
        var total;
        ghost var shed;
        total, shed := Compact(Some(SaturatingSub(now, DAY_MS)), MINUTE, 1000);
        RunsOn(trace, db, db, shed, connection);
        trace := Then(trace, shed, connection);
        left := left - 1;
        stages := stages.(first := connection);
        var ok, more := true, 0;
        ok, more, left, trace := CompactWhen(pressure.ratio >= 0.85 || pressure.lowSpace,
                                             Some(SaturatingSub(now, 7 * DAY_MS)), FIVE_MINUTES, 1000, left, db, trace);
        SparesTransitive(db, stages.first, connection);
        stages := stages.(second := connection);
        total := total + more;
        if ok {
          ok, more, left, trace := CompactWhen(pressure.ratio >= 0.95, None, FIVE_MINUTES, 5000, left, db, trace);
          SparesTransitive(db, stages.second, connection);
          stages := stages.(third := connection);
          total := total + more;
          if ok { compacted := Some(total); }
        }
      }
    }

    /** A pass that runs only under a condition; `start` and `earlier` are what the call did before. */
    method CompactWhen(condition: bool, before: Option<nat>, width: nat, limit: nat, allowed: nat,
                       ghost start: Database, ghost earlier: Trace)
      returns (ok: bool, removed: nat, left: nat, ghost trace: Trace)
      requires Valid() && width > 0 && Runs(earlier, start, connection) && StillOpen(earlier.done) == 0
      modifies this
      ensures Valid() && Spares(old(connection), connection)
      ensures Runs(trace, start, connection) && StillOpen(trace.done) == 0
      ensures ok ==> CompactsIf(condition, old(connection), connection, before, width, limit)
      ensures removed == connection.ledger.compacted - old(connection).ledger.compacted
      ensures connection.ledger.dropped == old(connection).ledger.dropped
      ensures connection.ledger.unrecorded == old(connection).ledger.unrecorded
    {
      hide Inv, Spares, Compacts, Runs, Sheds, StillOpen;
      SparesItself(connection);
      ok, removed, left, trace := !condition || allowed > 0, 0, allowed, earlier;
      if condition && allowed > 0 {
        ghost var shed;
        removed, shed := Compact(before, width, limit);
        RunsOn(earlier, start, old(connection), shed, connection);
        trace := Then(earlier, shed, connection);
        left := left - 1;
      }
    }

    /** Every statement commits on its own: `allowed` says how many complete before the process
        dies or the database refuses one, in which case there is no outcome.  Completed or not,
        pending deliveries stay whole.  A completed call records all it dropped in `data_gaps`,
        a call cut short records none of it; `trace` has the statements that ran. */
    method EnforceCapacity(pressure: Pressure, now: nat, allowed: nat)
      returns (outcome: Option<Outcome>, ghost stages: Stages, ghost trace: Trace)
      requires Valid()
      modifies this
      ensures Valid() && Spares(old(connection), connection)
      ensures Runs(trace, old(connection), connection) && (outcome.Some? ==> StillOpen(trace.done) == 0)
      ensures outcome.Some? ==> Enforces(old(connection), connection, pressure, now, outcome.value, stages)
      ensures outcome.Some? ==> connection.ledger.unrecorded == old(connection).ledger.unrecorded
      ensures outcome.None? ==>
        connection.ledger.unrecorded - old(connection).ledger.unrecorded
        == connection.ledger.dropped - old(connection).ledger.dropped
    {
      hide Inv, Spares, Runs, StillOpen, Sheds, Compactions, Relieves;
      ghost var db := connection;
      SparesItself(db);
      UntracedRuns(db);
      stages, trace := Stages(db, db, db, db, db), Untraced(db);
      if pressure.ratio < 0.70 && !pressure.lowSpace {
        outcome := Some(Outcome(0, 0, 0));
        EnforcedByNothing(db, pressure, now, stages);
      } else {
        var compacted, left;
        compacted, left, stages, trace := CompactionPasses(pressure, now, allowed);
        if compacted.None? {
          outcome := None;
        } else if !pressure.full {
          outcome := Some(Outcome(compacted.value, 0, 0));
          EnforcedByCompaction(db, connection, pressure, now, compacted.value, stages);
        } else {
          var dropped, evicted, ok;
          ghost var late;
          ok, dropped, evicted, late, trace := Relieve(now, left, db, trace);
          SparesTransitive(db, stages.third, connection);
          stages := stages.(evicted := late.evicted, dropped := late.dropped);
          outcome := if ok then Some(Outcome(compacted.value, dropped, evicted)) else None;
          if ok { EnforcedByRelief(db, connection, pressure, now, outcome.value, stages); }
        }
      }
    }

    /** Quarantined deliveries go first, then the oldest unassigned samples. */
    method Purge(allowed: nat, ghost start: Database, ghost earlier: Trace)
      returns (ok: bool, dropped: nat, evicted: nat, ghost afterEvict: Database, ghost trace: Trace)
      requires Valid() && Runs(earlier, start, connection) && StillOpen(earlier.done) == 0
      modifies this
      ensures Valid() && Spares(old(connection), connection)
      ensures Runs(trace, start, connection) && StillOpen(trace.done) == dropped
      ensures ok ==> Purges(old(connection), afterEvict, connection)
      ensures ok ==> evicted == |old(connection).deliveries| - |afterEvict.deliveries|
      ensures dropped == connection.ledger.dropped - old(connection).ledger.dropped
      ensures connection.ledger.unrecorded == old(connection).ledger.unrecorded + dropped
    {
      hide Inv, Spares, Runs, StillOpen, Evicts, Drops;
      ghost var db := connection;
      SparesItself(db);
      ok, dropped, evicted, afterEvict, trace := false, 0, 0, db, earlier;
      if allowed > 0 {
        ghost var gone, doomed;
        evicted, gone := Evict();
        afterEvict := connection;
        RunsOn(trace, start, db, EvictPass(gone), connection);
        trace := Then(trace, EvictPass(gone), connection);
        if allowed > 1 {
          dropped, doomed := Drop();
          RunsOn(trace, start, afterEvict, DropPass(doomed), connection);
          trace := Then(trace, DropPass(doomed), connection);
          SparesTransitive(db, afterEvict, connection);
          assert EvictsAndDrops(db, afterEvict, connection, gone, doomed);
          ok := true;
        }
      }
    }

    /** The last resort, with the record of the loss. */
    method Relieve(now: nat, allowed: nat, ghost start: Database, ghost earlier: Trace)
      returns (ok: bool, dropped: nat, evicted: nat, ghost late: Stages, ghost trace: Trace)
      requires Valid() && Runs(earlier, start, connection) && StillOpen(earlier.done) == 0
      modifies this
      ensures Valid() && Spares(old(connection), connection)
      ensures Runs(trace, start, connection) && (ok ==> StillOpen(trace.done) == 0)
      ensures ok ==> Relieves(old(connection), connection, now, dropped, evicted, late.evicted, late.dropped)
      ensures ok ==> connection.ledger.unrecorded == old(connection).ledger.unrecorded
      ensures !ok ==>
        connection.ledger.unrecorded - old(connection).ledger.unrecorded
        == connection.ledger.dropped - old(connection).ledger.dropped
    {
      ghost var db := connection;
      hide Inv, Spares, Purges, Runs, StillOpen;
      ghost var afterEvict;
      ok, dropped, evicted, afterEvict, trace := Purge(allowed, start, earlier);
      ghost var afterDrop := connection;
      late := Stages(db, db, db, afterEvict, afterDrop);
      ok := ok && (dropped == 0 || allowed > 2);
      if ok && dropped > 0 {
        RecordGapKeeps(afterDrop, now, dropped);
        RecordGapSpares(afterDrop, now, dropped);
        connection := RecordGap(connection, now, dropped);
        RunsOn(trace, start, afterDrop, GapPass(now, dropped), connection);
        trace := Then(trace, GapPass(now, dropped), connection);
        SparesTransitive(db, afterDrop, connection);
      }
    }
  }

  lemma UntracedRuns(db: Database)
    ensures Runs(Untraced(db), db, db) && StillOpen(Untraced(db).done) == 0
  {
  }

  /** Deletes the given samples one by one; `restricted` records a link that forbids it. */
  method DeleteSamples(db: Database, ids: set<SampleId>) returns (after: Database, deleted: nat, ghost restricted: bool)
    requires ids <= db.samples.Keys
    ensures after == RemoveSamples(db, ids) && deleted == |ids|
    ensures restricted <==> exists l | l in db.links :: l.sample in ids
  {
    after, deleted, restricted := db, 0, false;
    ghost var done := {};
    var left := ids;
    RemoveSamplesStep(db, {}, 0);
    while left != {}
      invariant left !! done && left + done == ids
      invariant after == RemoveSamples(db, done) && deleted == |done|
      invariant restricted <==> exists l | l in db.links :: l.sample in done
      decreases left
    {
      var id :| id in left;
      restricted := restricted || (exists l | l in after.links :: l.sample == id);
      RemoveSamplesStep(db, done, id);
      deleted := deleted + (if id in after.samples then 1 else 0);
      after := RemoveSamples(after, {id});
      done, left := done + {id}, left - {id};
    }
    assert done == ids;
  }

  /** Deletes the given command results and their completed commands one by one. */
  method DeleteResults(db: Database, ids: set<CommandId>) returns (after: Database, ghost restricted: bool)
    ensures after == RemoveResults(db, ids)
    ensures restricted <==> exists l | l in db.resultLinks :: l.command in ids
  {
    after, restricted := db, false;
    ghost var done := {};
    var left := ids;
    RemoveResultsStep(db, {}, 0);
    while left != {}
      invariant left !! done && left + done == ids
      invariant after == RemoveResults(db, done)
      invariant restricted <==> exists l | l in db.resultLinks :: l.command in done
      decreases left
    {
      var c :| c in left;
      restricted := restricted || (exists l | l in after.resultLinks :: l.command == c);
      RemoveResultsStep(db, done, c);
      after := RemoveResults(after, {c});
      done, left := done + {c}, left - {c};
    }
    assert done == ids;
  }

  function DeliveriesOf(db: Database, minute: nat): set<ReportId> {
    set r | r in db.deliveries && db.deliveries[r].minute == minute
  }

  /** Reads the rows of the given keys, in order. */
  method ReadSamples(db: Database, ids: seq<SampleId>) returns (samples: seq<Sample>)
    requires forall id | id in ids :: id in db.samples
    ensures |samples| == |ids| && forall k | 0 <= k < |ids| :: samples[k] == db.samples[ids[k]]
  {
    samples := [];
    for i := 0 to |ids|
      invariant |samples| == i && forall k | 0 <= k < i :: samples[k] == db.samples[ids[k]]
    {
      samples := samples + [db.samples[ids[i]]];
    }
  }

  /** With no unassigned sample of a closed minute left, every such minute is parked. */
  lemma ClosedMinutesParked(db: Database, bound: nat, closed: nat)
    requires bound <= closed && closed % MINUTE == 0 && AllHaveDelivery(db, bound)
    requires UnassignedBefore(ParkBefore(db, bound), closed) == {}
    ensures OpenMinutes(db, closed) == OpenMinutes(db, bound)
    ensures AllHaveDelivery(db, closed)
    ensures ParkBefore(db, closed) == ParkBefore(db, bound)
  {
    UnassignedAfterParking(db, bound);
    forall id | id in Unassigned(db) && MinuteOf(db, id) >= bound ensures MinuteOf(db, id) >= closed {
      OlderThanMinute(db.samples[id].observedAt, closed);
      assert id in Unassigned(ParkBefore(db, bound));
      assert id !in UnassignedBefore(ParkBefore(db, bound), closed);
    }
    NothingBetween(db, bound, closed);
  }

  /** The oldest remaining sample lies in the next minute to look at. */
  lemma OldestIsNextOpen(db: Database, bound: nat, closed: nat, oldest: SampleId)
    requires AllHaveDelivery(db, bound) && closed % MINUTE == 0 && bound <= closed
    requires oldest in UnassignedBefore(ParkBefore(db, bound), closed)
    requires forall id | id in UnassignedBefore(ParkBefore(db, bound), closed) && id in db.samples ::
      db.samples[oldest].observedAt <= db.samples[id].observedAt
    ensures NextOpenMinute(db, bound, MinuteOf(db, oldest)) && MinuteOf(db, oldest) < closed
    ensures MinuteOf(db, oldest) in OpenMinutes(db, closed)
  {
    UnassignedAfterParking(db, bound);
    OlderThanMinute(db.samples[oldest].observedAt, closed);
    var minute := MinuteOf(db, oldest);
    forall id | id in Unassigned(db) && MinuteOf(db, id) >= bound ensures MinuteOf(db, id) >= minute {
      OlderThanMinute(db.samples[id].observedAt, closed);
      if db.samples[id].observedAt < closed {
        assert id in UnassignedBefore(ParkBefore(db, bound), closed);
        OlderThanMinute(db.samples[id].observedAt, minute);
      }
    }
  }

  lemma ParkingMovesLinksOnly(db: Database, bound: nat)
    ensures ParkBefore(db, bound).samples == db.samples && ParkBefore(db, bound).deliveries == db.deliveries
    ensures Unassigned(ParkBefore(db, bound)) <= db.samples.Keys
  {
  }

  lemma MinuteIsFree(db: Database, bound: nat, minute: nat)
    requires AllHaveDelivery(db, bound) && NextOpenMinute(db, bound, minute)
    requires DeliveriesOf(ParkBefore(db, bound), minute) == {}
    ensures !HasDelivery(db, minute) && AllHaveDelivery(db, minute)
    ensures ParkBefore(db, minute) == ParkBefore(db, bound)
    ensures OpenMinutes(db, minute) == OpenMinutes(db, bound)
  {
    NothingBetween(db, bound, minute);
    assert forall r | r in db.deliveries :: r !in DeliveriesOf(ParkBefore(db, bound), minute);
  }

  lemma ParkingStepShrinks(db: Database, bound: nat, closed: nat, oldest: SampleId, r: ReportId)
    requires closed % MINUTE == 0
    requires oldest in UnassignedBefore(ParkBefore(db, bound), closed)
    requires MinuteOf(db, oldest) < closed
    ensures MinuteOf(db, oldest) + MINUTE <= closed
    ensures UnassignedBefore(Park(ParkBefore(db, bound), MinuteOf(db, oldest), r), closed)
          < UnassignedBefore(ParkBefore(db, bound), closed)
  {
    MinutesAreApart(MinuteOf(db, oldest) + MINUTE, closed);
    ParkShrinks(ParkBefore(db, bound), MinuteOf(db, oldest), r, closed, oldest);
  }

  /** One round of the parking loop. */
  lemma ParkingStep(db: Database, bound: nat, closed: nat, oldest: SampleId, r: ReportId)
    requires DeliveriesKeyed(db) && AllHaveDelivery(db, bound) && closed % MINUTE == 0
    requires oldest in UnassignedBefore(ParkBefore(db, bound), closed)
    requires var minute := MinuteOf(db, oldest);
      && NextOpenMinute(db, bound, minute) && minute < closed
      && r in DeliveriesOf(ParkBefore(db, bound), minute)
    ensures var minute := MinuteOf(db, oldest); var parked := ParkBefore(db, bound);
      && minute + MINUTE <= closed && (minute + MINUTE) % MINUTE == 0
      && Park(parked, minute, r) == ParkBefore(db, minute + MINUTE)
      && AllHaveDelivery(db, minute + MINUTE)
      && |OpenMinutes(db, minute + MINUTE)| == |OpenMinutes(db, bound)| + 1
      && UnassignedBefore(Park(parked, minute, r), closed) < UnassignedBefore(parked, closed)
  {
    hide DeliveriesKeyed, ParkBefore, Park, NextOpenMinute, OpenMinutes, Unassigned, UnassignedBefore, DeliveriesOf,
         AllHaveDelivery, FloorMinute;
    OldestExists(db, bound, closed, oldest);
    var minute := MinuteOf(db, oldest);
    ParkedDelivery(db, bound, minute, r);
    ParkOneMore(db, bound, minute, r);
    OneMoreOpenMinute(db, bound, minute);
    MinuteNowCovered(db, bound, minute, r);
    MinuteIsWhole(db, oldest);
    ParkingStepShrinks(db, bound, closed, oldest, r);
  }

  lemma ParkedDelivery(db: Database, bound: nat, minute: nat, r: ReportId)
    requires r in DeliveriesOf(ParkBefore(db, bound), minute)
    ensures r in db.deliveries && db.deliveries[r].minute == minute
  {
  }

  lemma MinuteNowCovered(db: Database, bound: nat, minute: nat, r: ReportId)
    requires AllHaveDelivery(db, bound) && r in db.deliveries && db.deliveries[r].minute == minute
    requires OpenMinutes(db, minute + MINUTE) == OpenMinutes(db, bound) + {minute}
    ensures AllHaveDelivery(db, minute + MINUTE)
  {
    hide OpenMinutes;
  }

  lemma MinuteIsWhole(db: Database, id: SampleId)
    requires id in db.samples
    ensures (MinuteOf(db, id) + MINUTE) % MINUTE == 0
  {
    NextMinuteIsWhole(MinuteOf(db, id));
  }

  lemma OldestExists(db: Database, bound: nat, closed: nat, oldest: SampleId)
    requires oldest in UnassignedBefore(ParkBefore(db, bound), closed)
    ensures oldest in db.samples
  {
    ParkingMovesLinksOnly(db, bound);
  }

  lemma KeyedDeliveries(db: Database)
    requires Inv(db)
    ensures DeliveriesKeyed(db)
  {
  }
}
