/** A run of the report protocol that reports one command result twice: the delivery was stored at the
    server, lost its answer, was quarantined and evicted, and its result went into the next report. */
module ResultRuns {
  import opened Options
  import opened Sql
  import opened SpoolModel
  import opened SpoolInvariant
  import opened SpoolCapacity
  import opened SpoolStore
  import opened ReplayWindow
  import opened Ingest
  import opened Protocol
  import opened ProtocolInvariant
  import opened ProtocolSafety
  import opened ProtocolRuns

  const COMMAND: CommandId := 7
  const THIRD: Sample := Sample(MINUTE, [])
  const FIRST_REPORT: Report := Report(1, 1, 1, 0, [FIRST], [], [COMMAND])
  const NEXT_REPORT: Report := Report(2, 1, 1, MINUTE, [THIRD], [], [COMMAND])

  const OFFERED: Database := AcceptCommand(TAKEN, COMMAND)
  const RAN: Database := OFFERED.(commands := map[COMMAND := CommandCompleted], results := map[COMMAND := 5])
  const SENT: Database := InsertDelivery(RAN, FIRST_REPORT, [1], MINUTE)

  /** The rejected delivery. */
  const REFUSED: Database :=
    RAN.(sequence := 1,
         deliveries := map[1 := Delivery(0, FIRST_REPORT, MINUTE + QUARANTINE_REDRIVE_MS, 1, Quarantined, ServerRejectedPayload)],
         links := {SampleLink(1, 1)}, resultLinks := {CommandLink(1, COMMAND)})

  /** One capacity call evicts it, drops the sample it frees and records that. */
  const EVICTED: Database := RemoveDeliveries(REFUSED, {1})
  const SHED: Database := Dropped(EVICTED, [1])
  const RECORDED: Database := RecordGap(SHED, MINUTE, 1)

  const LATER: Database := InsertSample(RECORDED, THIRD)
  const AGAIN: Database := InsertDelivery(LATER, NEXT_REPORT, [2], 2 * MINUTE)

  /** The world in the same place with another spool. */
  function With(w: World, db: Database, loss: nat): World
    requires w.process.Some?
  {
    w.(spool := db, process := Some(w.process.value.(loss := loss)))
  }

  lemma SpoolStepIsNext(w: World, step: Step, db: Database)
    requires IsSpoolStep(step) && w.process.Some? && OpenLoss(w) == RecordedBy(step) && SpoolStep(w, step, db)
    ensures Next(w, step, With(w, db, DroppedBy(step)))
  {
    hide SpoolStep, Inv, Scoped, ScopesAgree;
  }

  // ---- the first report ---------------------------------------------------------------------

  lemma CommandRuns()
    ensures TakeInto(TAKEN, CommandIn(COMMAND)) == Some(OFFERED)
    ensures TakeInto(OFFERED, CommandEnds(COMMAND, 5)) == Some(RAN)
  {
    assert OFFERED.commands == map[COMMAND := CommandPending] && OFFERED.results == map[];
    assert OFFERED.commands[COMMAND := CommandCompleted] == map[COMMAND := CommandCompleted];
    assert OFFERED.results[COMMAND := 5] == map[COMMAND := 5];
  }

  /** A report of one sample and one command result, with no probe result around. */
  lemma SmallReportIsBuilt(db: Database, report: Report, id: SampleId, c: CommandId)
    requires UnassignedIn(db, report.minute) == {id} && id in db.samples && report.samples == [db.samples[id]]
    requires db.probes == map[] && report.probes == [] && UnassignedResults(db) == {c} && report.commandResults == [c]
    ensures BuildsReport(db, report, [id], report.minute)
  {
    assert ProbesUpTo(db, report.minute) == {};
    OneByRank(id, UnassignedIn(db, report.minute), SampleRank(db), MAX_REPORT_SAMPLES);
    OneByRank(c, UnassignedResults(db), ResultRank(db), MAX_COMMAND_RESULTS);
  }

  lemma OneByRank<K>(k: K, all: set<K>, rank: map<K, Rank>, limit: nat)
    requires all == {k} && all <= rank.Keys && limit > 0
    ensures FirstByRank(all, rank, limit, [k])
  {
  }

  lemma FirstIsBuilt()
    ensures ParkBefore(RAN, 0) == RAN && BuildsReport(RAN, FIRST_REPORT, [1], 0)
  {
    assert UnassignedIn(RAN, 0) == {1};
    assert UnassignedResults(RAN) == {COMMAND};
    assert ParkBefore(RAN, 0).links == {};
    SmallReportIsBuilt(RAN, FIRST_REPORT, 1, COMMAND);
  }

  lemma FirstIsOpen()
    ensures 0 in OpenMinutes(RAN, FloorMinute(MINUTE)) && !HasDelivery(RAN, 0)
    ensures OpenMinutes(RAN, 0) == {} && AllHaveDelivery(RAN, 0)
  {
    assert 1 in Unassigned(RAN) && MinuteOf(RAN, 1) == 0;
  }

  lemma FirstIsCreated()
    ensures CreatesDelivery(RAN, SENT, FIRST_REPORT, [1], MINUTE)
  {
    hide BuildsReport, OpenMinutes, AllHaveDelivery, HasDelivery, ParkBefore, InsertDelivery;
    FirstIsBuilt();
    FirstIsOpen();
  }

  lemma SentIs()
    ensures SENT == RAN.(deliveries := map[1 := Delivery(0, FIRST_REPORT, MINUTE, 0, Pending, NoError)],
                         links := {SampleLink(1, 1)}, resultLinks := {CommandLink(1, COMMAND)})
    ensures SENT.sequence == 0
  {
  }

  lemma StartingSteps(w: World)
    requires w == Running(TAKEN, 0)
    ensures Next(w, TakeIn(CommandIn(COMMAND)), With(w, OFFERED, 0))
    ensures Next(With(w, OFFERED, 0), TakeIn(CommandEnds(COMMAND, 5)), With(w, RAN, 0))
    ensures Next(With(w, RAN, 0), CreateReport(FIRST_REPORT, [1], MINUTE), With(w, SENT, 0))
  {
    hide Next, CreatesDelivery, TakeInto, TAKEN, OFFERED, RAN, SENT;
    CommandRuns();
    FirstIsCreated();
    NoDeliveryYet();
    SpoolStepIsNext(w, TakeIn(CommandIn(COMMAND)), OFFERED);
    SpoolStepIsNext(With(w, OFFERED, 0), TakeIn(CommandEnds(COMMAND, 5)), RAN);
    SpoolStepIsNext(With(w, RAN, 0), CreateReport(FIRST_REPORT, [1], MINUTE), SENT);
  }

  lemma NoDeliveryYet()
    ensures RAN.deliveries == map[]
  {
  }

  lemma SentRun() returns (ws: seq<World>, steps: seq<Step>)
    ensures IsRun(ws, steps) && |steps| == 5 && ws[5] == Running(SENT, 0)
    ensures steps[4] == CreateReport(FIRST_REPORT, [1], MINUTE)
  {
    hide Init, Next, TAKEN, OFFERED, RAN, SENT, EMPTY;
    FreshIsInitial();
    FreshBoots();
    FirstTaken();
    var w := Running(TAKEN, 0);
    StartingSteps(w);
    ws := [FRESH, Running(EMPTY, 0), w, With(w, OFFERED, 0), With(w, RAN, 0), With(w, SENT, 0)];
    steps := [Boot, TakeIn(SampleIn(FIRST)), TakeIn(CommandIn(COMMAND)), TakeIn(CommandEnds(COMMAND, 5)),
              CreateReport(FIRST_REPORT, [1], MINUTE)];
  }

  lemma SentIsDue()
    ensures ReadyToUpload(Running(SENT, 0), 1, MINUTE)
  {
    hide SENT;
    SentIs();
  }

  lemma RefusedIs(w: World)
    requires UnheardLeaves(Running(SENT, 0), 1, MINUTE, UploadRejected(ServerRejectedPayload, MINUTE), w)
    ensures w.spool == REFUSED
  {
    hide SENT;
    SentIs();
  }

  // ---- the eviction -------------------------------------------------------------------------

  lemma RefusedIsEvicted()
    ensures Evicts(REFUSED, EVICTED, [1])
    ensures EVICTED == RAN.(sequence := 1)
  {
    assert QuarantinedReports(REFUSED) == {1};
    assert Elements([1]) == {1};
  }

  lemma FreedIsDropped()
    ensures Drops(EVICTED, SHED, [1])
  {
    hide EVICTED;
    RefusedIsEvicted();
    assert Unassigned(EVICTED) == {1};
    OneByRank(1, Unassigned(EVICTED), SampleRank(EVICTED), DROP_BATCH);
  }

  lemma LossIsRecorded()
    ensures SHED.ledger.unrecorded == 1 && Sheds(SHED, RECORDED, GapPass(MINUTE, 1))
  {
    hide EVICTED;
    RefusedIsEvicted();
  }

  lemma LaterIs()
    ensures LATER.samples == map[2 := THIRD] && LATER.links == {} && LATER.deliveries == map[] && LATER.resultLinks == {}
    ensures LATER.results == map[COMMAND := 5] && LATER.probes == map[] && LATER.sequence == 1
    ensures AppendSample(RECORDED, THIRD) == (LATER, true)
  {
    hide EVICTED;
    RefusedIsEvicted();
    assert Elements([1]) == {1};
    assert RECORDED.samples == map[];
  }

  lemma NextIsUnassigned()
    ensures UnassignedIn(LATER, MINUTE) == {2} && UnassignedResults(LATER) == {COMMAND}
    ensures ParkBefore(LATER, MINUTE) == LATER
  {
    hide LATER;
    LaterIs();
    assert Unassigned(LATER) == {2} && MinuteOf(LATER, 2) == MINUTE;
    assert ParkBefore(LATER, MINUTE).links == {};
  }

  lemma NextIsBuilt()
    ensures ParkBefore(LATER, MINUTE) == LATER && BuildsReport(LATER, NEXT_REPORT, [2], MINUTE)
  {
    hide LATER, ParkBefore, BuildsReport, UnassignedIn, UnassignedResults;
    LaterIs();
    NextIsUnassigned();
    SmallReportIsBuilt(LATER, NEXT_REPORT, 2, COMMAND);
  }

  lemma NextIsOpen()
    ensures MINUTE in OpenMinutes(LATER, FloorMinute(2 * MINUTE)) && !HasDelivery(LATER, MINUTE)
    ensures OpenMinutes(LATER, MINUTE) == {} && AllHaveDelivery(LATER, MINUTE)
  {
    hide LATER;
    LaterIs();
    assert 2 in Unassigned(LATER) && MinuteOf(LATER, 2) == MINUTE;
  }

  lemma NextIsCreated()
    ensures CreatesDelivery(LATER, AGAIN, NEXT_REPORT, [2], 2 * MINUTE)
  {
    hide BuildsReport, OpenMinutes, AllHaveDelivery, HasDelivery, ParkBefore, InsertDelivery, LATER;
    NextIsBuilt();
    NextIsOpen();
  }

  lemma AgainIs()
    ensures AGAIN.deliveries == map[2 := Delivery(MINUTE, NEXT_REPORT, 2 * MINUTE, 0, Pending, NoError)]
    ensures AGAIN.sequence == 1
  {
    hide LATER;
    LaterIs();
  }

  lemma EvictingSteps(w: World)
    requires w.process.Some? && OpenLoss(w) == 0 && w.spool == REFUSED
    requires w.scope == KeyRow(1, 1)
    ensures Next(w, ShedData(EvictPass([1])), With(w, EVICTED, 0))
    ensures Next(With(w, EVICTED, 0), ShedData(DropPass([1])), With(w, SHED, 1))
    ensures Next(With(w, SHED, 1), ShedData(GapPass(MINUTE, 1)), With(w, RECORDED, 0))
    ensures Next(With(w, RECORDED, 0), TakeIn(SampleIn(THIRD)), With(w, LATER, 0))
    ensures Next(With(w, LATER, 0), CreateReport(NEXT_REPORT, [2], 2 * MINUTE), With(w, AGAIN, 0))
  {
    hide Next, Evicts, Drops, CreatesDelivery, REFUSED, EVICTED, SHED, RECORDED, LATER, AGAIN, RecordGap;
    RefusedIsEvicted();
    FreedIsDropped();
    LossIsRecorded();
    LaterIs();
    NextIsCreated();
    SpoolStepIsNext(w, ShedData(EvictPass([1])), EVICTED);
    SpoolStepIsNext(With(w, EVICTED, 0), ShedData(DropPass([1])), SHED);
    SpoolStepIsNext(With(w, SHED, 1), ShedData(GapPass(MINUTE, 1)), RECORDED);
    SpoolStepIsNext(With(w, RECORDED, 0), TakeIn(SampleIn(THIRD)), LATER);
    SpoolStepIsNext(With(w, LATER, 0), CreateReport(NEXT_REPORT, [2], 2 * MINUTE), AGAIN);
  }

  // ---- the whole run ------------------------------------------------------------------------

  /** After the rejected exchange: the spool is known, and the server's block holds the report. */
  lemma RejectedRun() returns (ws: seq<World>, steps: seq<Step>)
    ensures IsRun(ws, steps) && |steps| == 10 && steps[4] == CreateReport(FIRST_REPORT, [1], MINUTE)
    ensures steps[9] == UploadRejected(ServerRejectedPayload, MINUTE)
    ensures var w := ws[10];
      && w.spool == REFUSED && w.agent == 1 && w.scope == KeyRow(1, 1) && w.server.keys == FRESH.server.keys
      && w.process.Some? && w.process.value.flight == None && OpenLoss(w) == 0 && w.process.value.config.epoch == 1
      && w.server.blocks == AfterWrite(FRESH.server, FIRST_REPORT).blocks && Stored(w.server, FIRST_REPORT)
  {
    hide Init, Next, ReadyToUpload, SENT, REFUSED, RAN, WorldInv, Stored, AfterWrite, UnheardLeaves, BeginAttempt, Quarantine;
    var start, first := SentRun();
    RunKeepsInvariant(start, first, 5);
    SentIsDue();
    var path, last := DeliveryGoesUnheard(Running(SENT, 0), 1, MINUTE, MINUTE, UploadRejected(ServerRejectedPayload, MINUTE));
    RefusedIs(path[5]);
    RejectedPlace(path[5]);
    Joined(start, first, path, last);
    ws, steps := start + path[1..], first + last;
  }

  lemma RejectedPlace(w: World)
    requires UnheardLeaves(Running(SENT, 0), 1, MINUTE, UploadRejected(ServerRejectedPayload, MINUTE), w)
    ensures w.process.Some? && w.process.value.flight == None && OpenLoss(w) == 0
    ensures w.server.blocks == AfterWrite(FRESH.server, FIRST_REPORT).blocks && Stored(w.server, FIRST_REPORT)
  {
    hide SENT, Stored, AfterWrite, BeginAttempt, Quarantine;
    SentIs();
  }

  lemma NextFits(server: Server)
    requires server.blocks == AfterWrite(FRESH.server, FIRST_REPORT).blocks
    ensures SlotIsFree(server, NEXT_REPORT)
  {
    assert ReportSlot(MINUTE) == 1 && ReportSlot(0) == 0;
    assert server.blocks == map[BlockKey(1, 0) := Block(1, map[0 := Entry(1, Hash(FIRST_REPORT))])];
  }

  lemma AgainIsDue(w: World)
    requires w.spool == AGAIN && w.agent == 1 && w.scope == KeyRow(1, 1) && w.server.keys == FRESH.server.keys
    requires w.process.Some? && w.process.value.flight == None && OpenLoss(w) == 0 && w.process.value.config.epoch == 1
    requires w.server.blocks == AfterWrite(FRESH.server, FIRST_REPORT).blocks
    ensures ReadyToUpload(w, 2, 2 * MINUTE)
  {
    hide AGAIN, AfterWrite, SlotIsFree;
    AgainIs();
    NextFits(w.server);
  }

  lemma EvictedRun(w: World) returns (path: seq<World>, steps: seq<Step>)
    requires w.process.Some? && OpenLoss(w) == 0 && w.spool == REFUSED && w.scope == KeyRow(1, 1)
    ensures IsPath(path, steps) && |steps| == 5 && path[0] == w && path[5] == With(w, AGAIN, 0)
    ensures steps[0] == ShedData(EvictPass([1])) && steps[4] == CreateReport(NEXT_REPORT, [2], 2 * MINUTE)
  {
    hide Next, REFUSED, EVICTED, SHED, RECORDED, LATER, AGAIN;
    EvictingSteps(w);
    path := [w, With(w, EVICTED, 0), With(w, SHED, 1), With(w, RECORDED, 0), With(w, LATER, 0), With(w, AGAIN, 0)];
    steps := [ShedData(EvictPass([1])), ShedData(DropPass([1])), ShedData(GapPass(MINUTE, 1)), TakeIn(SampleIn(THIRD)),
              CreateReport(NEXT_REPORT, [2], 2 * MINUTE)];
  }

  lemma AgainRun() returns (ws: seq<World>, steps: seq<Step>)
    ensures IsRun(ws, steps) && |steps| == 15 && ws[15].spool == AGAIN && ReadyToUpload(ws[15], 2, 2 * MINUTE)
    ensures steps[4] == CreateReport(FIRST_REPORT, [1], MINUTE) && steps[14] == CreateReport(NEXT_REPORT, [2], 2 * MINUTE)
    ensures steps[10] == ShedData(EvictPass([1])) && Stored(ws[10].server, FIRST_REPORT)
  {
    hide Init, Next, ReadyToUpload, REFUSED, AGAIN, FIRST_REPORT, NEXT_REPORT, Stored, AfterWrite;
    var start, first := RejectedRun();
    var path, second := EvictedRun(start[10]);
    Joined(start, first, path, second);
    AgainIsDue(path[5]);
    ws, steps := start + path[1..], first + second;
  }

  /** One command result, two reports at the server: it happens when a delivery that was stored loses
      its answers, is quarantined and then evicted. */
  lemma ResultReportedTwice() returns (ws: seq<World>, steps: seq<Step>)
    ensures IsRun(ws, steps) && |steps| == 20
    ensures steps[4] == CreateReport(FIRST_REPORT, [1], MINUTE) && steps[14] == CreateReport(NEXT_REPORT, [2], 2 * MINUTE)
    ensures steps[10] == ShedData(EvictPass([1]))
    ensures Stored(ws[20].server, FIRST_REPORT) && Stored(ws[20].server, NEXT_REPORT)
    ensures COMMAND in FIRST_REPORT.commandResults && COMMAND in NEXT_REPORT.commandResults
  {
    hide Init, Next, ReadyToUpload, AGAIN, WorldInv, Stored;
    var run, moves := AgainRun();
    RunKeepsInvariant(run, moves, 15);
    NextDelivery();
    var last, third := DeliveryGetsThrough(run[15], 2, 2 * MINUTE, 2 * MINUTE);
    Joined(run, moves, last, third);
    ws, steps := run + last[1..], moves + third;
    StoredForever(ws, steps, 10, 20, FIRST_REPORT);
  }

  lemma NextDelivery()
    ensures 2 in AGAIN.deliveries && AGAIN.deliveries[2].payload == NEXT_REPORT
  {
    hide AGAIN;
    AgainIs();
  }
}
