/** What the spool's statements mean for a row: when a delivery is tried again, what happens to
    commands, and what a capacity call may take. */
module SpoolLaws {
  import opened Options
  import opened Sql
  import opened SpoolModel
  import opened SpoolInvariant
  import opened SpoolCapacity

  // ---- the life of a delivery ---------------------------------------------------------------

  /** A new delivery is pending, untried and due at once, and takes nothing from the others. */
  lemma CreatedIsDue(db: Database, db': Database, report: Report, ids: seq<SampleId>, now: nat)
    requires CreatesDelivery(db, db', report, ids, now)
    ensures report.id in db'.deliveries
    ensures var d := db'.deliveries[report.id];
      d.minute == report.minute && d.payload == report && d.attempts == 0 && d.lastError == NoError
    ensures forall later: nat :: Due(db', report.id, later) <==> now <= later
    ensures forall r | r in db.deliveries && r != report.id :: r in db'.deliveries && db'.deliveries[r] == db.deliveries[r]
  {
    hide BuildsReport, AllHaveDelivery, OpenMinutes, HasDelivery, FloorMinute;
  }

  /** An attempt counts, clears the error, uses up one number and puts the next one off. */
  lemma AttemptCounts(db: Database, r: ReportId, nextAttemptAt: nat)
    requires BeginAttempt(db, r, nextAttemptAt).Begun?
    ensures r in db.deliveries && db.deliveries[r].state == Pending
    ensures var (db', n) := (BeginAttempt(db, r, nextAttemptAt).db, BeginAttempt(db, r, nextAttemptAt).sequence);
      && n == db.sequence + 1 == db'.sequence && db'.deliveries.Keys == db.deliveries.Keys
      && db'.deliveries[r].attempts == db.deliveries[r].attempts + 1 && db'.deliveries[r].lastError == NoError
      && db'.deliveries[r].payload == db.deliveries[r].payload
      && (forall now: nat :: Due(db', r, now) <==> nextAttemptAt <= now)
      && (forall other | other in db.deliveries && other != r :: db'.deliveries[other] == db.deliveries[other])
  {
  }

  /** A rescheduled delivery is due exactly from its new time on. */
  lemma RescheduledWaits(db: Database, r: ReportId, retryAt: nat, error: ErrorCode)
    requires Reschedule(db, r, retryAt, error).Some?
    ensures var db' := Reschedule(db, r, retryAt, error).value;
      && r in db'.deliveries && db'.deliveries[r].lastError == error
      && (forall now: nat :: Due(db', r, now) <==> retryAt <= now)
      && (forall now: nat :: r !in Redrivable(db', now))
  {
  }

  /** A quarantined delivery is never due; it can be redriven exactly from an hour later on, unless it
      was tried eight times or was too large. */
  lemma QuarantinedWaits(db: Database, r: ReportId, error: ErrorCode, now: nat)
    requires Quarantine(db, r, error, now).Some? && now + 3_600_000 < 0x8000_0000_0000_0000
    ensures var db' := Quarantine(db, r, error, now).value;
      && r in db'.deliveries && db'.deliveries[r].lastError == error
      && (forall later: nat :: !Due(db', r, later))
      && (forall later: nat :: r in Redrivable(db', later)
            <==> now + 3_600_000 <= later && db.deliveries[r].attempts < 8 && error != PayloadTooLarge)
  {
  }

  /** Redriving makes the earliest 64 redrivable deliveries pending and due, and no other change. */
  lemma RedrivesEarliest(db: Database, db': Database, now: nat, chosen: seq<ReportId>)
    requires Redrives(db, db', now, chosen)
    ensures forall r :: r in Redrivable(db, now) <==>
      && r in db.deliveries && db.deliveries[r].state == Quarantined && db.deliveries[r].nextAttemptAt <= now
      && db.deliveries[r].attempts < 8 && db.deliveries[r].lastError != PayloadTooLarge
    ensures Distinct(chosen) && |chosen| == if |Redrivable(db, now)| < 64 then |Redrivable(db, now)| else 64
    ensures db'.deliveries.Keys == db.deliveries.Keys
    ensures forall r | r in chosen :: r in Redrivable(db, now) && r in db.deliveries && Due(db', r, now)
                                      && db'.deliveries[r] == db.deliveries[r].(state := Pending)
    ensures forall r | r in db.deliveries && r !in chosen :: db'.deliveries[r] == db.deliveries[r]
    ensures forall r, other | r in chosen && other in Redrivable(db, now) && other !in chosen && other in db.deliveries ::
      db.deliveries[r].minute <= db.deliveries[other].minute
  {
    forall r, other | r in chosen && other in Redrivable(db, now) && other !in chosen && other in db.deliveries
      ensures db.deliveries[r].minute <= db.deliveries[other].minute
    {
      assert RankLe(DeliveryRank(db)[r], DeliveryRank(db)[other]);
    }
  }

  /** Waking brings the earliest pending deliveries that would wait longer forward to the given
      time, and changes nothing else. */
  lemma WakesEarliest(db: Database, db': Database, retryAt: nat, limit: nat, chosen: seq<ReportId>)
    requires Wakes(db, db', retryAt, limit, chosen)
    ensures Distinct(chosen) && |chosen| == if |Sleeping(db, retryAt)| < limit then |Sleeping(db, retryAt)| else limit
    ensures db'.deliveries.Keys == db.deliveries.Keys
    ensures forall r :: r in Sleeping(db, retryAt) <==>
      r in db.deliveries && db.deliveries[r].state == Pending && retryAt < db.deliveries[r].nextAttemptAt
    ensures forall r | r in chosen :: r in db.deliveries && db'.deliveries[r] == db.deliveries[r].(nextAttemptAt := retryAt)
    ensures forall r | r in db.deliveries && r !in chosen :: db'.deliveries[r] == db.deliveries[r]
    ensures forall r, other | r in chosen && other in Sleeping(db, retryAt) && other !in chosen && other in db.deliveries ::
      db.deliveries[r].minute <= db.deliveries[other].minute
  {
    forall r, other | r in chosen && other in Sleeping(db, retryAt) && other !in chosen && other in db.deliveries
      ensures db.deliveries[r].minute <= db.deliveries[other].minute
    {
      assert RankLe(DeliveryRank(db)[r], DeliveryRank(db)[other]);
    }
  }

  // ---- samples and commands -----------------------------------------------------------------

  /** A sample is stored, under a number of its own, exactly when the spool has none of its
      instant. */
  lemma StoredIffNewInstant(db: Database, sample: Sample)
    requires SamplesKeyed(db)
    ensures var (db', inserted) := AppendSample(db, sample);
      && (inserted <==> forall id | id in db.samples :: db.samples[id].observedAt != sample.observedAt)
      && (inserted ==> db.nextSampleId !in db.samples && db'.samples == db.samples[db.nextSampleId := sample])
      && (!inserted ==> db' == db)
  {
  }

  /** A command is pending when it comes, running once it was started, completed with a result of the
      given time once it ended, and then neither starts nor ends again. */
  lemma CommandLives(db: Database, c: CommandId, completedAt: nat)
    requires c !in db.commands
    ensures var accepted := AcceptCommand(db, c);
      && c in accepted.commands && StartCommand(accepted, c).Some?
      && var started := StartCommand(accepted, c).value;
         && CompleteCommand(started, c, completedAt).Some?
         && var ended := CompleteCommand(started, c, completedAt).value;
            && c in ended.results && ended.results[c] == completedAt
            && StartCommand(ended, c) == None && CompleteCommand(ended, c, completedAt) == None
            && AcceptCommand(ended, c) == ended
            && (forall other | other in db.commands :: other in ended.commands && ended.commands[other] == db.commands[other])
            && ended.results.Keys == db.results.Keys + {c}
  {
  }

  lemma UnknownCommandDoesNothing(db: Database, c: CommandId, completedAt: nat)
    requires c !in db.commands
    ensures StartCommand(db, c) == None && CompleteCommand(db, c, completedAt) == None
  {
  }

  /** An acknowledgement takes the delivery's command results and their commands, and leaves the
      rest. */
  lemma AcknowledgedCommands(db: Database, r: ReportId)
    requires ResultsOwnedOnce(db)
    ensures var db' := Acknowledge(db, r);
      && (forall c | CommandLink(r, c) in db.resultLinks :: c !in db'.results && c !in db'.commands)
      && (forall c | c in db.results && CommandLink(r, c) !in db.resultLinks ::
            c in db'.results && db'.results[c] == db.results[c] && c in db'.commands && db'.commands[c] == db.commands[c])
      && (forall c | c in db.commands && CommandLink(r, c) !in db.resultLinks ::
            c in db'.commands && db'.commands[c] == db.commands[c])
      && db'.probes == db.probes
  {
    hide OwnedBy, Settled;
    forall c ensures c in ResultsOf(db, r) <==> CommandLink(r, c) in db.resultLinks {
      if c in ResultsOf(db, r) {
        var l :| l in db.resultLinks && l.report == r && l.command == c;
        assert l == CommandLink(r, c);
      }
    }
  }

  /** What ORDER BY with LIMIT means for two rows. */
  lemma FirstMeans<K>(all: set<K>, rank: map<K, Rank>, limit: nat, chosen: seq<K>)
    requires all <= rank.Keys && FirstByRank(all, rank, limit, chosen)
    ensures |chosen| <= limit && Distinct(chosen) && forall k | k in chosen :: k in all
    ensures forall k, other | k in chosen && other in all && other !in chosen :: RankLe(rank[k], rank[other])
    ensures |chosen| < limit ==> forall k | k in all :: k in chosen
  {
    if |chosen| < limit {
      AllChosen(all, rank, limit, chosen);
      assert forall k | k in all :: k in Elements(chosen);
    }
  }

  /** A report has the oldest unassigned samples of its minute, at most sixty, in order. */
  lemma ReportHasOldestSamples(db: Database, report: Report, ids: seq<SampleId>)
    requires BuildsReport(db, report, ids, report.minute)
    ensures |report.samples| == |ids| <= 60
    ensures forall k | 0 <= k < |ids| :: ids[k] in Unassigned(db) && ids[k] in db.samples && report.samples[k] == db.samples[ids[k]]
    ensures forall k, id | 0 <= k < |ids| && id in UnassignedIn(db, report.minute) && id !in ids && id in db.samples ::
      report.samples[k].observedAt <= db.samples[id].observedAt
    ensures |ids| < 60 ==> forall id | id in UnassignedIn(db, report.minute) :: id in ids
  {
    hide Owned, ProbesUpTo, ProbeRank, UnassignedResults, ResultRank, FirstByRank;
    var open := UnassignedIn(db, report.minute);
    FirstMeans(open, SampleRank(db), 60, ids);
    forall k | 0 <= k < |ids| ensures ids[k] in ids && ids[k] in open {
    }
  }

  /** ... and the command results that ended first, at most sixteen. */
  lemma ReportHasOldestResults(db: Database, report: Report, ids: seq<SampleId>)
    requires BuildsReport(db, report, ids, report.minute)
    ensures |report.commandResults| <= 16 && Distinct(report.commandResults)
    ensures forall c | c in report.commandResults :: c in UnassignedResults(db) && c in db.results
    ensures forall c, other | c in report.commandResults && other in UnassignedResults(db) && other !in report.commandResults
                              && c in db.results && other in db.results :: db.results[c] <= db.results[other]
    ensures |report.commandResults| < 16 ==> forall c | c in UnassignedResults(db) :: c in report.commandResults
  {
    hide Owned, ProbesUpTo, ProbeRank, UnassignedIn, SampleRank, FirstByRank;
    FirstMeans(UnassignedResults(db), ResultRank(db), 16, report.commandResults);
  }

  // ---- under capacity pressure --------------------------------------------------------------

  /** A compaction pass takes unassigned samples only, older than its bound, each for a newer one of
      its bucket, and no more than its limit. */
  lemma CompactionTakes(db: Database, db': Database, before: Option<nat>, width: nat, limit: nat,
                        scanned: seq<SampleId>, doomed: set<SampleId>)
    requires width > 0 && Compacts(db, db', before, width, limit, scanned, doomed)
    ensures db'.samples.Keys == db.samples.Keys - doomed && |doomed| <= limit
    ensures forall id | id in doomed ::
      && id in Unassigned(db) && id in db.samples && (before.Some? ==> db.samples[id].observedAt < before.value)
      && exists newer | newer in Unassigned(db) && newer in db.samples ::
           db.samples[newer].observedAt / width == db.samples[id].observedAt / width
           && db.samples[id].observedAt < db.samples[newer].observedAt
    ensures db'.deliveries == db.deliveries && db'.links == db.links && db'.results == db.results && db'.probes == db.probes
  {
    hide Owned;
    forall id | id in doomed
      ensures id in Unassigned(db) && id in db.samples && (before.Some? ==> db.samples[id].observedAt < before.value)
      ensures exists newer | newer in Unassigned(db) && newer in db.samples ::
        db.samples[newer].observedAt / width == db.samples[id].observedAt / width
        && db.samples[id].observedAt < db.samples[newer].observedAt
    {
      var newer :| newer in Elements(scanned)
        && db.samples[newer].observedAt / width == db.samples[id].observedAt / width
        && db.samples[newer].observedAt > db.samples[id].observedAt;
      assert newer in scanned && id in scanned;
      assert newer in Candidates(db, before) && id in Candidates(db, before);
    }
  }

  /** A pass that neither its scan nor its limit cuts short leaves no sample of its reach that has a
      newer one in its bucket. */
  lemma CompactionThins(db: Database, db': Database, before: Option<nat>, width: nat, limit: nat,
                        scanned: seq<SampleId>, doomed: set<SampleId>)
    requires width > 0 && Compacts(db, db', before, width, limit, scanned, doomed)
    requires |scanned| < 6000 && |doomed| < limit
    ensures forall id, newer | id in Unassigned(db') && newer in Unassigned(db') && id in db.samples && newer in db.samples
                               && (before.Some? ==> db.samples[newer].observedAt < before.value) ::
      !(db.samples[newer].observedAt / width == db.samples[id].observedAt / width
        && db.samples[id].observedAt < db.samples[newer].observedAt)
  {
    hide Owned;
    AllChosen(Candidates(db, before), SampleRank(db), 6000, scanned);
    SubsetSizeLe(doomed, Superseded(db, Elements(scanned), width));
    assert |Superseded(db, Elements(scanned), width) - doomed| == 0;
    forall id, newer | id in Unassigned(db') && newer in Unassigned(db') && id in db.samples && newer in db.samples
                       && (before.Some? ==> db.samples[newer].observedAt < before.value)
                       && db.samples[newer].observedAt / width == db.samples[id].observedAt / width
      ensures db.samples[id].observedAt >= db.samples[newer].observedAt
    {
      StaysUnassigned(db, db', doomed, id);
      StaysUnassigned(db, db', doomed, newer);
      assert newer in Candidates(db, before) && newer in Elements(scanned);
      assert id in Elements(scanned) ==> id !in Superseded(db, Elements(scanned), width);
      assert id !in Elements(scanned) ==> id !in Candidates(db, before);
    }
  }

  lemma StaysUnassigned(db: Database, db': Database, doomed: set<SampleId>, id: SampleId)
    requires db'.links == db.links && db'.samples == db.samples - doomed && id in Unassigned(db')
    ensures id in Unassigned(db) && id !in doomed
  {
  }

  /** When the budget is still exceeded, the earliest quarantined deliveries go and then the oldest
      unassigned samples, those just freed among them; the loss is what was dropped. */
  lemma ReliefTakes(db: Database, db': Database, now: nat, dropped: nat, evicted: nat, afterEvict: Database, afterDrop: Database)
    requires Relieves(db, db', now, dropped, evicted, afterEvict, afterDrop)
    ensures evicted <= 64 && dropped <= 1000
    ensures evicted < 64 ==> forall r | r in db'.deliveries :: db'.deliveries[r].state == Pending
    ensures dropped < 1000 ==> Unassigned(afterDrop) == {}
    ensures db'.samples == afterDrop.samples && db'.deliveries == afterEvict.deliveries
    ensures db'.ledger.dropped == db.ledger.dropped + dropped && db'.ledger.unrecorded == db.ledger.unrecorded
  {
    hide Unassigned, FirstByRank, QuarantinedReports, RecordGap;
    var gone, doomed :| EvictsAndDrops(db, afterEvict, afterDrop, gone, doomed);
    EvictionTakes(db, afterEvict, gone);
    EvictedAre(db, afterEvict, gone);
    DropTakes(afterEvict, afterDrop, doomed);
    DroppedAre(afterEvict, afterDrop, doomed);
    if dropped > 0 { RecordedAre(afterDrop, now, dropped); }
  }

  lemma EvictedAre(db: Database, db': Database, gone: seq<ReportId>)
    requires Evicts(db, db', gone)
    ensures |db'.deliveries| == |db.deliveries| - |gone| && db'.ledger == db.ledger && db'.gaps == db.gaps
  {
    DistinctSize(gone);
    SubsetSizeLe(Elements(gone), db.deliveries.Keys);
    assert db'.deliveries.Keys == db.deliveries.Keys - Elements(gone);
  }

  lemma DroppedAre(db: Database, db': Database, doomed: seq<SampleId>)
    requires Drops(db, db', doomed)
    ensures db'.ledger.dropped == db.ledger.dropped + |doomed| && db'.ledger.unrecorded == db.ledger.unrecorded + |doomed|
  {
    hide FirstByRank;
  }

  lemma RecordedAre(db: Database, now: nat, n: nat)
    requires n <= db.ledger.unrecorded
    ensures var db' := RecordGap(db, now, n);
      && db'.samples == db.samples && db'.deliveries == db.deliveries && db'.links == db.links
      && db'.ledger.dropped == db.ledger.dropped && db'.ledger.unrecorded == db.ledger.unrecorded - n
  {
  }

  /** Only quarantined deliveries are evicted, the earliest first and 64 at most. */
  lemma EvictionTakes(db: Database, db': Database, gone: seq<ReportId>)
    requires Evicts(db, db', gone)
    ensures |gone| <= 64 && db'.deliveries.Keys == db.deliveries.Keys - Elements(gone) && db'.samples == db.samples
    ensures forall r | r in gone :: r in db.deliveries && db.deliveries[r].state == Quarantined
    ensures forall r, other | r in gone && other in db'.deliveries && db.deliveries[other].state == Quarantined ::
      r in db.deliveries && other in db.deliveries && db.deliveries[r].minute <= db.deliveries[other].minute
    ensures |gone| < 64 ==> forall r | r in db'.deliveries :: db'.deliveries[r].state == Pending
    ensures forall r | r in db'.deliveries :: db'.deliveries[r] == db.deliveries[r]
  {
    forall r, other | r in gone && other in db'.deliveries && db.deliveries[other].state == Quarantined
      ensures r in db.deliveries && other in db.deliveries && db.deliveries[r].minute <= db.deliveries[other].minute
    {
      assert other in QuarantinedReports(db) && other !in gone;
      assert RankLe(DeliveryRank(db)[r], DeliveryRank(db)[other]);
    }
    if |gone| < 64 {
      AllChosen(QuarantinedReports(db), DeliveryRank(db), 64, gone);
      forall r | r in db'.deliveries ensures db'.deliveries[r].state == Pending {
        assert r !in Elements(gone);
      }
    }
  }

  /** Only unassigned samples are dropped, the oldest first and a thousand at most. */
  lemma DropTakes(db: Database, db': Database, doomed: seq<SampleId>)
    requires Drops(db, db', doomed)
    ensures |doomed| <= 1000 && db'.samples.Keys == db.samples.Keys - Elements(doomed)
    ensures forall id | id in doomed :: id in Unassigned(db) && id in db.samples
    ensures forall id, other | id in doomed && other in Unassigned(db') ::
      id in db.samples && other in db.samples && db.samples[id].observedAt <= db.samples[other].observedAt
    ensures |doomed| < 1000 ==> Unassigned(db') == {}
    ensures db'.deliveries == db.deliveries && db'.links == db.links && db'.results == db.results && db'.probes == db.probes
  {
    forall id, other | id in doomed && other in Unassigned(db')
      ensures id in db.samples && other in db.samples && db.samples[id].observedAt <= db.samples[other].observedAt
    {
      assert other in Unassigned(db) && other !in Elements(doomed);
      assert RankLe(SampleRank(db)[id], SampleRank(db)[other]);
    }
    if |doomed| < 1000 {
      AllChosen(Unassigned(db), SampleRank(db), 1000, doomed);
    }
  }

  /** A loss is added to the counter of the hour it is recorded in, and to no other. */
  lemma RecordsInItsHour(db: Database, now: nat, n: nat, hour: nat)
    requires n <= db.ledger.unrecorded && hour % 3_600_000 == 0
    ensures var (before, after) := (if hour in db.gaps then db.gaps[hour] else 0,
                                    if hour in RecordGap(db, now, n).gaps then RecordGap(db, now, n).gaps[hour] else 0);
      after == before + if hour <= now < hour + 3_600_000 then n else 0
    ensures forall h | h in RecordGap(db, now, n).gaps :: h in db.gaps || h % 3_600_000 == 0
    ensures RecordGap(db, now, n).samples == db.samples && RecordGap(db, now, n).deliveries == db.deliveries
  {
    var k := hour / 3_600_000;
    assert hour == k * 3_600_000;
    assert now / 3_600_000 == k <==> hour <= now < hour + 3_600_000;
  }

  /** A call does nothing below 70 percent with enough free disk; it compacts samples older than a day
      by minute; from 85 percent or without free disk those older than a week by five minutes; from
      95 percent all by five minutes; and it evicts, drops and records only when the budget is still
      exceeded. */
  lemma EnforcementIsGraded(db: Database, db': Database, pressure: Pressure, now: nat, outcome: Outcome, stages: Stages,
                            id: SampleId)
    requires Enforces(db, db', pressure, now, outcome, stages) && now >= 604_800_000
    requires SamplesKeyed(db) && id in Unassigned(db) && id in db.samples && !pressure.full
    ensures pressure.ratio < 0.7 && !pressure.lowSpace ==> db' == db
    ensures pressure.ratio < 0.85 && !pressure.lowSpace && db.samples[id].observedAt >= now - 86_400_000 ==> id in db'.samples
    ensures pressure.ratio < 0.95 && db.samples[id].observedAt >= now - 86_400_000 ==> id in db'.samples
    ensures db'.deliveries == db.deliveries && outcome.dropped == 0 && outcome.evicted == 0
  {
    hide FirstByRank, Superseded, Unassigned, SamplesKeyed;
    if pressure.ratio >= 0.7 || pressure.lowSpace {
      YoungIsSpared(true, db, stages.first, Some(SaturatingSub(now, DAY_MS)), MINUTE, 1000, id);
      YoungIsSpared(pressure.ratio >= 0.85 || pressure.lowSpace,
                    stages.first, stages.second, Some(SaturatingSub(now, 7 * DAY_MS)), FIVE_MINUTES, 1000, id);
      YoungIsSpared(pressure.ratio >= 0.95, stages.second, stages.third, None, FIVE_MINUTES, 5000, id);
    }
  }

  lemma YoungIsSpared(condition: bool, db: Database, db': Database, before: Option<nat>, width: nat, limit: nat, id: SampleId)
    requires width > 0 && CompactsIf(condition, db, db', before, width, limit)
    ensures db'.deliveries == db.deliveries
    ensures id in db.samples && (!condition || (before.Some? && db.samples[id].observedAt >= before.value)) ==>
      id in db'.samples && db'.samples[id] == db.samples[id]
    ensures db'.samples.Keys <= db.samples.Keys
  {
    hide Compacts;
    if condition {
      var scanned, doomed :| Compacts(db, db', before, width, limit, scanned, doomed);
      CompactionTakes(db, db', before, width, limit, scanned, doomed);
      CompactedContents(db, db', before, width, limit, scanned, doomed);
    }
  }

  lemma CompactedContents(db: Database, db': Database, before: Option<nat>, width: nat, limit: nat,
                          scanned: seq<SampleId>, doomed: set<SampleId>)
    requires width > 0 && Compacts(db, db', before, width, limit, scanned, doomed)
    ensures forall id | id in db'.samples :: id in db.samples && db'.samples[id] == db.samples[id]
  {
    hide FirstByRank, AnyUpTo, Superseded;
  }
}
