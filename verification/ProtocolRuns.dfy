/** Runs of the report protocol in which something is lost, step by step: they show that the
    conditions of the theorems are needed. */
module ProtocolRuns {
  import opened Options
  import opened Sql
  import opened SpoolModel
  import opened SpoolInvariant
  import opened SpoolCapacity
  import opened SpoolStore
  import opened ReplayWindow
  import opened Ingest
  import opened Protocol
  import opened ProtocolInvariant
  import opened ProtocolSafety
  import opened SampleAccounts
  import opened GapAccounts

  const FRESH: World :=
    World(1, KeyRow(1, 1), EMPTY, Config(0, 1), None, Server(map[KeyId(1, 1) := KeyRow(1, 1)], map[], map[]),
          {}, {}, [], map[])

  /** The agent runs, with this spool. */
  function Running(db: Database, loss: nat): World {
    FRESH.(spool := db, process := Some(Process(Config(0, 1), None, loss)))
  }

  lemma EmptyOwns()
    ensures Owns(EMPTY) && ResultsOwnedOnce(EMPTY)
  {
    hide FloorMinute, OwnsSample, WellFormedReport, Covers;
  }

  lemma NoGaps()
    ensures GapTotal(map[]) == 0
  {
  }

  lemma EmptyIsConsistent()
    ensures Inv(EMPTY)
  {
    hide Owns, ResultsOwnedOnce, GapTotal;
    EmptyOwns();
    NoGaps();
  }

  lemma EmptyAccount()
    ensures FreshAccount(EMPTY)
  {
  }

  lemma FreshServer()
    ensures ScopesAgree(FRESH.server) && EntriesBelong(FRESH.server.blocks) && ReplayOk(FRESH)
  {
  }

  lemma FreshIsInitial()
    ensures Init(FRESH)
  {
    hide Inv, ScopesAgree, EntriesBelong, ReplayOk;
    EmptyIsConsistent();
    FreshServer();
  }

  lemma FreshBoots()
    ensures Next(FRESH, Boot, Running(EMPTY, 0))
  {
    hide Inv, ScopesAgree, EntriesBelong, ReplayOk;
  }

  // ---- a drop without a record --------------------------------------------------------------

  const FIRST: Sample := Sample(0, [])
  const SECOND: Sample := Sample(10_000, [])

  /** One sample is taken in. */
  const TAKEN: Database := InsertSample(EMPTY, FIRST)

  lemma FirstTaken()
    ensures Next(Running(EMPTY, 0), TakeIn(SampleIn(FIRST)), Running(TAKEN, 0))
  {
  }

  lemma DropsFirst()
    ensures Drops(TAKEN, Dropped(TAKEN, [1]), [1])
  {
    assert Unassigned(TAKEN) == {1};
  }

  lemma FirstDropped()
    ensures Next(Running(TAKEN, 0), ShedData(DropPass([1])), Running(Dropped(TAKEN, [1]), 1))
  {
    hide Drops, Dropped;
    DropsFirst();
  }

  lemma CrashIsNext(w: World)
    ensures Next(w, Crash, w.(process := None))
  {
  }

  /** A capacity call drops a sample and the agent dies before the record: the counters sum to
      less than what was dropped. */
  lemma DropWithoutRecord() returns (ws: seq<World>, steps: seq<Step>)
    ensures IsRun(ws, steps) && |steps| == 4 && CutsShort(ws[3], steps[3])
    ensures ws[4].spool.gaps == map[] && GapTotal(ws[4].spool.gaps) == 0 && ws[4].spool.ledger.dropped == 1
  {
    hide Init, Next;
    FreshIsInitial();
    FreshBoots();
    FirstTaken();
    FirstDropped();
    var dropped := Dropped(TAKEN, [1]);
    CrashIsNext(Running(dropped, 1));
    ws := [FRESH, Running(EMPTY, 0), Running(TAKEN, 0), Running(dropped, 1), FRESH.(spool := dropped)];
    steps := [Boot, TakeIn(SampleIn(FIRST)), ShedData(DropPass([1])), Crash];
  }

  // ---- a sample that a restored file forgets ------------------------------------------------

  lemma RestoreIsNext(w: World, db: Database)
    requires w.process == None && w.scope == FRESH.scope && Inv(db) && db.deliveries == map[]
    ensures Next(w, ReplaceSpool(db), w.(spool := db))
  {
    hide Inv;
  }

  lemma FirstIsInserted()
    ensures Inserts(Running(EMPTY, 0), TakeIn(SampleIn(FIRST)))
  {
  }

  lemma RestoringRun() returns (ws: seq<World>, steps: seq<Step>)
    ensures IsRun(ws, steps)
    ensures ws == [FRESH, Running(EMPTY, 0), Running(TAKEN, 0), FRESH.(spool := TAKEN), FRESH]
    ensures steps == [Boot, TakeIn(SampleIn(FIRST)), Crash, ReplaceSpool(EMPTY)]
  {
    hide Init, Next, TAKEN, EMPTY;
    FreshIsInitial();
    FreshBoots();
    FirstTaken();
    EmptyIsConsistent();
    CrashIsNext(Running(TAKEN, 0));
    EmptyHasNoDelivery();
    RestoreIsNext(FRESH.(spool := TAKEN), EMPTY);
    ws := [FRESH, Running(EMPTY, 0), Running(TAKEN, 0), FRESH.(spool := TAKEN), FRESH];
    steps := [Boot, TakeIn(SampleIn(FIRST)), Crash, ReplaceSpool(EMPTY)];
  }

  lemma EmptyHasNoDelivery()
    ensures EMPTY.deliveries == map[]
  {
  }

  /** A sample is taken in, and then the backup from before it is restored: no account of the file
      has it, and the forgotten samples are exactly this one. */
  lemma RestoreForgets() returns (ws: seq<World>, steps: seq<Step>, backups: map<nat, nat>)
    ensures IsRun(ws, steps) && |steps| == 4 && Restores(ws, steps, backups) && FreshAccount(ws[0].spool)
    ensures ws[4] == FRESH && Inserted(ws, steps, 0, 4) == {1} && Forgotten(ws, steps, backups, 4) == {1}
  {
    hide Inserts, TAKEN, EMPTY, IsRun, Seen;
    ws, steps := RestoringRun();
    EmptyAccount();
    FirstIsInserted();
    backups := map[3 := 0];
    OnlyFirstInserted(ws, steps);
    ForgottenIsAfterBackup(ws, steps, backups, 3, 4);
    NothingForgotten(ws, steps, backups, 0);
  }

  lemma OnlyFirstInserted(ws: seq<World>, steps: seq<Step>)
    requires |steps| == 4 && |ws| == 5 && Inserts(ws[1], steps[1])
    requires !steps[0].TakeIn? && !steps[2].TakeIn? && !steps[3].TakeIn?
    ensures Inserted(ws, steps, 0, 4) == {1} && Inserted(ws, steps, 0, 3) == {1}
  {
  }

  // ---- a sample that nobody gets ------------------------------------------------------------

  const REPORT: Report := Report(1, 1, 1, 0, [FIRST], [], [])

  /** The first sample is in a report, the second one comes late into the same minute. */
  const CREATED: Database := InsertDelivery(TAKEN, REPORT, [1], MINUTE)
  const LATE: Database := InsertSample(CREATED, SECOND)
  const PARKED: Database := ParkBefore(LATE, MINUTE)

  lemma FirstBuilds()
    ensures ParkBefore(TAKEN, 0) == TAKEN && BuildsReport(TAKEN, REPORT, [1], 0)
  {
    assert UnassignedIn(TAKEN, 0) == {1};
    assert ProbesUpTo(TAKEN, 0) == {} && UnassignedResults(TAKEN) == {};
    assert ParkBefore(TAKEN, 0).links == {};
  }

  lemma FirstMinuteIsOpen()
    ensures 0 in OpenMinutes(TAKEN, FloorMinute(MINUTE)) && !HasDelivery(TAKEN, 0)
    ensures OpenMinutes(TAKEN, 0) == {} && AllHaveDelivery(TAKEN, 0)
  {
    assert 1 in Unassigned(TAKEN) && MinuteOf(TAKEN, 1) == 0;
  }

  lemma FirstReported()
    ensures Next(Running(TAKEN, 0), CreateReport(REPORT, [1], MINUTE), Running(CREATED, 0))
  {
    hide BuildsReport, OpenMinutes, AllHaveDelivery, HasDelivery, ParkBefore, InsertDelivery;
    FirstBuilds();
    FirstMinuteIsOpen();
  }

  lemma SecondTaken()
    ensures Next(Running(CREATED, 0), TakeIn(SampleIn(SECOND)), Running(LATE, 0))
    ensures LATE.samples == map[1 := FIRST, 2 := SECOND] && LATE.links == {SampleLink(1, 1)}
    ensures LATE.deliveries == map[1 := Delivery(0, REPORT, MINUTE, 0, Pending, NoError)] && LATE.sequence == 0
  {
  }

  lemma SecondParked()
    ensures Next(Running(LATE, 0), ParkSamples(MINUTE), Running(PARKED, 0))
    ensures SampleLink(1, 2) in PARKED.links && PARKED.samples == LATE.samples && PARKED.deliveries == LATE.deliveries
    ensures PARKED.sequence == 0
  {
    SecondTaken();
    assert 2 in Unassigned(LATE) && MinuteOf(LATE, 2) == 0;
  }

  lemma ReportIsDue()
    ensures ReadyToUpload(Running(PARKED, 0), 1, MINUTE)
  {
    hide ParkBefore;
    SecondTaken();
    SecondParked();
  }

  lemma SecondIsTakenAlong()
    ensures 2 in TakenAlong(PARKED, 1, false) && TakenAlong(PARKED, 1, false)[2] == Gone(SECOND, REPORT)
  {
    hide ParkBefore;
    SecondTaken();
    SecondParked();
  }

  lemma ParkedRun() returns (ws: seq<World>, steps: seq<Step>)
    ensures IsRun(ws, steps) && |steps| == 5 && ws[0] == FRESH && ws[5] == Running(PARKED, 0)
    ensures steps[3] == TakeIn(SampleIn(SECOND))
    ensures forall step | step in steps :: !step.ReplaceSpool?
  {
    hide Init, Next;
    FreshIsInitial();
    FreshBoots();
    FirstTaken();
    FirstReported();
    SecondTaken();
    SecondParked();
    ws := [FRESH, Running(EMPTY, 0), Running(TAKEN, 0), Running(CREATED, 0), Running(LATE, 0), Running(PARKED, 0)];
    steps := [Boot, TakeIn(SampleIn(FIRST)), CreateReport(REPORT, [1], MINUTE), TakeIn(SampleIn(SECOND)), ParkSamples(MINUTE)];
  }

  lemma Joined(ws: seq<World>, steps: seq<Step>, ws': seq<World>, steps': seq<Step>)
    requires IsRun(ws, steps) && IsPath(ws', steps') && ws[|steps|] == ws'[0]
    ensures IsRun(ws + ws'[1..], steps + steps')
    ensures (ws + ws'[1..])[|steps| + |steps'|] == ws'[|steps'|] && (ws + ws'[1..])[0] == ws[0]
  {
    hide Init, Next;
    var all, path := steps + steps', ws + ws'[1..];
    forall i | 0 <= i < |all| ensures Next(path[i], all[i], path[i + 1]) {
      if i >= |steps| { assert path[i] == ws'[i - |steps|] && path[i + 1] == ws'[i + 1 - |steps|]; }
    }
  }

  /** The report gets through, as any due report does. */
  lemma ParkedExchange() returns (ws: seq<World>, steps: seq<Step>)
    ensures IsRun(ws, steps) && |steps| == 10 && ws[0] == FRESH
    ensures steps[3] == TakeIn(SampleIn(SECOND)) && steps[9].ApplyAck?
    ensures forall step | step in steps :: !step.ReplaceSpool?
    ensures ws[10].spool.ledger == Settled(PARKED, 1)
  {
    hide Init, Next, ReadyToUpload, Settled, PARKED, WorldInv, Stored;
    var start, first := ParkedRun();
    RunKeepsInvariant(start, first, 5);
    ReportIsDue();
    var path, last := DeliveryGetsThrough(Running(PARKED, 0), 1, MINUTE, MINUTE);
    Joined(start, first, path, last);
    ws, steps := start + path[1..], first + last;
    assert last == last[..2] + [last[2], last[3], last[4]];
  }

  lemma SecondSettled()
    ensures var ledger := Settled(PARKED, 1);
      && ledger.compacted == 0 && ledger.dropped == 0 && 2 in ledger.parked && ledger.parked[2] == Gone(SECOND, REPORT)
  {
    hide TakenAlong;
    SecondIsTakenAlong();
  }

  /** A sample that comes after its minute's report was built is parked and deleted with the
      delivery: it was neither compacted nor dropped, and the server has it in no report. */
  lemma ParkedSampleIsLost() returns (ws: seq<World>, steps: seq<Step>)
    ensures IsRun(ws, steps) && |steps| == 10 && steps[3] == TakeIn(SampleIn(SECOND)) && steps[9].ApplyAck?
    ensures var db := ws[10].spool;
      && 2 !in db.samples && db.ledger.compacted == 0 && db.ledger.dropped == 0
      && 2 in db.ledger.parked && db.ledger.parked[2].sample == SECOND && !AtServer(ws[10], SECOND)
  {
    hide IsRun, Settled, PARKED, AtServer;
    ws, steps := ParkedExchange();
    SecondSettled();
    EmptyAccount();
    RunLength(ws, steps);
    assert Restores(ws, steps, map[]);
    FileIsAccounted(ws, steps, map[], 10);
  }

  lemma RunLength(ws: seq<World>, steps: seq<Step>)
    requires IsRun(ws, steps)
    ensures |ws| == |steps| + 1
  {
    hide Next, Init;
  }
}
