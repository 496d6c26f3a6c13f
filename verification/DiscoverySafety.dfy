/** What discovery guarantees over every run. */
module DiscoverySafety {
  import opened Options
  import opened Sql
  import N = NotificationOutbox
  import opened Discovery

  /** What every statement does to what other runs have read: nothing they rely on is undone. */
  ghost predicate Extends(w: World, w': World) {
    && (w.updatedAt > 0 ==> w'.updatedAt > 0 && w'.boundary == w.boundary)
    && w.cursor <= w'.cursor && w.nextEvent <= w'.nextEvent
    && (forall e | e in w'.events && e < w.nextEvent :: e in w.events)
    && (forall e | e in w'.always && e < w.nextEvent :: e in w.always && w'.always[e] <= w.always[e])
    && (forall e | e in w.ever :: e in w'.ever && w.ever[e] <= w'.ever[e])
    && w.outbox.rows.Keys <= w'.outbox.rows.Keys
  }

  lemma BatchStays(w: World, w': World, events: seq<Event>)
    requires BatchOk(w, events) && Extends(w, w')
    ensures BatchOk(w', events)
  {
    assert events[|events| - 1] in events;
  }

  lemma RunStays(w: World, w': World, run: Run)
    requires RunOk(w, run) && Extends(w, w')
    ensures RunOk(w', run)
  {
    hide BatchOk;
    if run.HasEvents? || run.HasResources? || run.Inserting? {
      BatchStays(w, w', run.events);
      BatchBelow(w, run.events);
    }
  }

  lemma BatchBelow(w: World, events: seq<Event>)
    requires BatchOk(w, events)
    ensures forall e | e in events :: e < w.nextEvent
  {
  }

  lemma RunsStay(w: World, w': World)
    requires RunsOk(w) && Extends(w, w') && w'.runs == w.runs
    ensures RunsOk(w')
  {
    hide RunOk, Extends;
    forall r | r in w'.runs ensures RunOk(w', w'.runs[r]) {
      RunStays(w, w', w.runs[r]);
    }
  }

  /** A statement that neither moves the cursor nor adds rows. */
  lemma DeliveriesStay(w: World, w': World)
    requires QueueOk(w) && DeliveriesOk(w) && Extends(w, w')
    requires w'.cursor == w.cursor && w'.boundary == w.boundary && w'.updatedAt == w.updatedAt
    requires w'.outbox.rows.Keys == w.outbox.rows.Keys
    ensures DeliveriesOk(w')
  {
    hide MatchingOk;
  }

  lemma QuietStepKeeps(w: World, w': World)
    requires Inv(w) && Extends(w, w') && w'.runs == w.runs && QueueOk(w') && MatchingOk(w') && N.Inv(w'.outbox)
    requires w'.cursor == w.cursor && w'.boundary == w.boundary && w'.updatedAt == w.updatedAt
    requires w'.outbox.rows.Keys == w.outbox.rows.Keys
    ensures Inv(w')
  {
    hide QueueOk, MatchingOk, DeliveriesOk, RunsOk, N.Inv, Extends;
    RunsStay(w, w');
    DeliveriesStay(w, w');
  }

  // ---- the world around the runs ------------------------------------------------------------

  lemma OccurParts(w: World, resolves: bool, channels: set<Channel>)
    requires QueueOk(w) && MatchingOk(w)
    ensures var w' := Occur(w, resolves, channels); QueueOk(w') && MatchingOk(w') && Extends(w, w')
  {
  }

  lemma OccurKeeps(w: World, resolves: bool, channels: set<Channel>)
    requires Inv(w)
    ensures Inv(Occur(w, resolves, channels))
  {
    hide QueueOk, MatchingOk, DeliveriesOk, RunsOk, N.Inv, Extends;
    OccurParts(w, resolves, channels);
    QuietStepKeeps(w, Occur(w, resolves, channels));
  }

  lemma ExpireKeeps(w: World, e: Event)
    requires Inv(w)
    ensures Inv(w.(events := w.events - {e}, queue := w.queue - {e}))
  {
    hide DeliveriesOk, RunsOk, N.Inv;
    QuietStepKeeps(w, w.(events := w.events - {e}, queue := w.queue - {e}));
  }

  lemma ChangeRulesParts(w: World, resolvable: set<Event>, rules: map<Event, set<Channel>>)
    requires QueueOk(w)
    ensures var w' := ChangeRules(w, resolvable, rules); QueueOk(w') && MatchingOk(w') && Extends(w, w')
  {
  }

  lemma ChangeRulesKeeps(w: World, resolvable: set<Event>, rules: map<Event, set<Channel>>)
    requires Inv(w)
    ensures Inv(ChangeRules(w, resolvable, rules))
  {
    hide QueueOk, MatchingOk, DeliveriesOk, RunsOk, N.Inv, Extends;
    ChangeRulesParts(w, resolvable, rules);
    QuietStepKeeps(w, ChangeRules(w, resolvable, rules));
  }

  lemma OutboxStepKeepsIds(box: N.Outbox<Delivery>, step: N.Step<Delivery>, box': N.Outbox<Delivery>)
    requires N.Inv(box) && N.Next(box, step, box') && !step.Inserts?
    ensures N.Inv(box') && box'.rows.Keys == box.rows.Keys
  {
    N.NextKeeps(box, step, box');
  }

  lemma OutboxWorksKeeps(w: World, step: N.Step<Delivery>, w': World)
    requires Inv(w) && Next(w, OutboxWorks(step), w')
    ensures Inv(w')
  {
    hide DeliveriesOk, RunsOk, N.Inv, N.Next;
    OutboxStepKeepsIds(w.outbox, step, w'.outbox);
    QuietStepKeeps(w, w');
  }

  // ---- the statements of a run --------------------------------------------------------------

  /** A statement that only moves the run on. */
  lemma MoveKeeps(w: World, run: RunId, at: Run)
    requires Inv(w) && RunOk(w, at)
    ensures Inv(At(w, run, at))
  {
    hide N.Inv, BatchOk;
    var w' := At(w, run, at);
    forall r | r in w'.runs ensures RunOk(w', w'.runs[r]) {
      SameForRun(w, w', w'.runs[r]);
    }
  }

  lemma SameForRun(w: World, w': World, run: Run)
    requires RunOk(w, run) && w' == w.(runs := w'.runs)
    ensures RunOk(w', run)
  {
  }

  lemma EndKeeps(w: World, run: RunId)
    requires Inv(w)
    ensures Inv(End(w, run))
  {
    hide N.Inv, RunOk;
    var w' := End(w, run);
    forall r | r in w'.runs ensures RunOk(w', w'.runs[r]) {
      SameForRun(w, w', w'.runs[r]);
    }
  }

  lemma BootstrapKeeps(w: World, newest: Event, now: nat)
    requires Inv(w) && w.updatedAt == 0 && now > 0 && newest < w.nextEvent
    ensures Inv(w.(cursor := newest, updatedAt := now, boundary := newest))
  {
    hide N.Inv, RunsOk;
    RunsStay(w, w.(cursor := newest, updatedAt := now, boundary := newest));
  }

  /** What is loaded is a batch: nothing above the cursor is skipped. */
  lemma LoadedBatch(w: World, cursor: Event, events: seq<Event>)
    requires QueueOk(w) && w.updatedAt > 0 && w.boundary <= cursor <= w.cursor
    requires Loads(w, cursor, events) && events != []
    ensures BatchOk(w, events)
  {
    var last := events[|events| - 1];
    forall i, j | 0 <= i < j < |events| ensures events[i] < events[j] {
      assert events[i] in events && events[j] in events;
    }
    forall e | e in w.events && w.cursor < e <= last ensures e in events {
      assert last in events;
    }
  }

  lemma ResolveKeeps(w: World, run: RunId, events: seq<Event>)
    requires Inv(w) && run in w.runs && w.runs[run] == HasEvents(events)
    ensures Inv(At(w, run, HasResources(events, (set e | e in events && e in w.resolvable))))
  {
    assert RunOk(w, w.runs[run]) && MatchingOk(w);
    MoveKeeps(w, run, HasResources(events, (set e | e in events && e in w.resolvable)));
  }

  lemma PreparedIsOk(w: World, events: seq<Event>, resolved: set<Event>, rest: seq<Delivery>)
    requires RunOk(w, HasResources(events, resolved)) && MatchingOk(w)
    requires Prepares(w, events, resolved, rest)
    ensures RunOk(w, Inserting(events, rest))
  {
    assert forall e | e in events :: e in w.ever;
  }

  lemma PrepareKeeps(w: World, run: RunId, events: seq<Event>, resolved: set<Event>, rest: seq<Delivery>)
    requires Inv(w) && run in w.runs && w.runs[run] == HasResources(events, resolved)
    requires Prepares(w, events, resolved, rest)
    ensures Inv(At(w, run, Inserting(events, rest)))
  {
    assert RunOk(w, w.runs[run]) && MatchingOk(w);
    PreparedIsOk(w, events, resolved, rest);
    MoveKeeps(w, run, Inserting(events, rest));
  }

  lemma {:induction false} InsertedAll(box: N.Outbox<Delivery>, batch: seq<Delivery>, now: nat)
    requires N.Inv(box)
    ensures N.Inv(InsertAll(box, batch, now))
    ensures InsertAll(box, batch, now).rows.Keys == box.rows.Keys + Elements(batch)
    ensures N.OnlyAdds(box, InsertAll(box, batch, now), now)
  {
    hide N.Inv;
    if batch != [] {
      var init, last := batch[..|batch| - 1], batch[|batch| - 1];
      InsertedAll(box, init, now);
      N.InsertKeeps(InsertAll(box, init, now), last, now);
      N.InsertOnlyAdds(InsertAll(box, init, now), last, now);
      N.OnlyAddsThrough(box, InsertAll(box, init, now), InsertAll(box, batch, now), now);
      assert Elements(batch) == Elements(init) + {last};
    }
  }

  lemma InsertBatchKeeps(w: World, run: RunId, events: seq<Event>, rest: seq<Delivery>, now: nat)
    requires Inv(w) && run in w.runs && w.runs[run] == Inserting(events, rest)
    ensures Inv(At(w.(outbox := InsertAll(w.outbox, rest[..BatchSize(rest)], now)), run,
                   Inserting(events, rest[BatchSize(rest)..])))
  {
    hide QueueOk, MatchingOk, DeliveriesOk, RunOk, N.Inv;
    var n := BatchSize(rest);
    var w' := w.(outbox := InsertAll(w.outbox, rest[..n], now));
    InsertedAll(w.outbox, rest[..n], now);
    assert RunOk(w, w.runs[run]);
    RunsStay(w, w');
    BatchInserted(w, w', events, rest, n);
    RowsAdded(w, w', rest[..n]);
    MoveKeeps(w', run, Inserting(events, rest[n..]));
  }

  lemma RowsAdded(w: World, w': World, batch: seq<Delivery>)
    requires QueueOk(w) && MatchingOk(w) && DeliveriesOk(w) && w.updatedAt > 0 && w' == w.(outbox := w'.outbox)
    requires w'.outbox.rows.Keys == w.outbox.rows.Keys + Elements(batch)
    requires forall d | d in batch :: d.event > w.boundary && d.event in w.ever && d.channel in w.ever[d.event]
    ensures QueueOk(w') && MatchingOk(w') && DeliveriesOk(w')
  {
  }

  lemma BatchInserted(w: World, w': World, events: seq<Event>, rest: seq<Delivery>, n: nat)
    requires RunOk(w, Inserting(events, rest)) && n <= |rest| && Extends(w, w')
    requires w'.events == w.events && w'.always == w.always && w'.ever == w.ever && w'.boundary == w.boundary
    requires w'.outbox.rows.Keys == w.outbox.rows.Keys + Elements(rest[..n])
    ensures w.updatedAt > 0 && RunOk(w', Inserting(events, rest[n..]))
    ensures forall d | d in rest[..n] :: d.event > w.boundary && d.event in w.ever && d.channel in w.ever[d.event]
  {
    BatchStays(w, w', events);
    forall d | d in rest ensures d in Elements(rest[..n]) || d in rest[n..] {
      var k :| 0 <= k < |rest| && rest[k] == d;
      assert if k < n then rest[..n][k] == d else rest[n..][k - n] == d;
    }
  }

  lemma PassKeeps(w: World, events: seq<Event>, now: nat)
    requires Inv(w) && now > 0 && RunOk(w, Inserting(events, []))
    ensures events != [] && Inv(UpdateCursor(w, events[|events| - 1], now))
  {
    hide RunsOk, N.Inv;
    assert events[|events| - 1] in events;
    PassedDelivered(w, events, now);
    RunsStay(w, UpdateCursor(w, events[|events| - 1], now));
  }

  lemma PassedDelivered(w: World, events: seq<Event>, now: nat)
    requires DeliveriesOk(w) && now > 0 && RunOk(w, Inserting(events, []))
    ensures events != [] && DeliveriesOk(UpdateCursor(w, events[|events| - 1], now))
  {
    assert BatchOk(w, events);
    forall d: Delivery | d.event in w.events && w.cursor < d.event <= events[|events| - 1]
                         && d.event in w.always && d.channel in w.always[d.event]
      ensures d in w.outbox.rows
    {
      assert d.event in events && d !in [];
    }
  }

  /** A cleaning takes the oldest consumed events, a hundred at most. */
  lemma CleansOldest(w: World, w': World, upTo: Event, gone: seq<Event>)
    requires Cleans(w, w', upTo, gone)
    ensures |gone| <= 100 && w'.queue == w.queue - Elements(gone)
    ensures forall e | e in gone :: e in w.queue && e <= upTo
    ensures forall e, other | e in gone && other in w'.queue :: e < other
    ensures |gone| < 100 ==> forall e | e in w'.queue :: e > upTo
  {
    var consumed := set e | e in w.queue && e <= upTo;
    forall e, other | e in gone && other in w'.queue ensures e < other {
      assert other in w.queue && other !in Elements(gone) && e in consumed && e != other;
      if other <= upTo {
        assert other in consumed;
        assert RankLe(EventRank(w.queue)[e], EventRank(w.queue)[other]);
      }
    }
    if |gone| < 100 {
      AllChosen(consumed, EventRank(w.queue), 100, gone);
      forall e | e in w'.queue ensures e > upTo {
        assert e in w.queue && e !in Elements(gone) && e !in consumed;
      }
    }
  }

  lemma CleanKeeps(w: World, w': World, upTo: Event, gone: seq<Event>)
    requires Inv(w) && upTo <= w.cursor && Cleans(w, w', upTo, gone)
    ensures Inv(w')
  {
    hide DeliveriesOk, RunsOk, N.Inv;
    QuietStepKeeps(w, w');
  }

  lemma RunIsOk(w: World, run: RunId)
    requires Inv(w) && run in w.runs
    ensures RunOk(w, w.runs[run]) && QueueOk(w)
  {
  }

  lemma CleaningKeeps(w: World, run: RunId, upTo: Event, gone: seq<Event>, w': World)
    requires Inv(w) && run in w.runs && w.runs[run] == Cleaning(upTo)
    requires Cleans(w, w'.(runs := w.runs), upTo, gone) && w'.runs == w.runs - {run}
    ensures Inv(w')
  {
    hide Inv, BatchOk, Cleans;
    RunIsOk(w, run);
    CleanKeeps(w, w'.(runs := w.runs), upTo, gone);
    EndKeeps(w'.(runs := w.runs), run);
  }

  lemma BootstrapAdvances(w: World, run: RunId, now: nat, gone: seq<Event>, w': World)
    requires Inv(w) && Advances(w, run, now, gone, w') && w.runs[run].ReadNewest?
    ensures Inv(w')
  {
    hide Inv, BatchOk;
    RunIsOk(w, run);
    var newest := w.runs[run].newest;
    if w.updatedAt == 0 {
      BootstrapKeeps(w, newest, now);
      MoveKeeps(w.(cursor := newest, updatedAt := now, boundary := newest), run, Cleaning(newest));
    } else {
      MoveKeeps(w, run, LostBootstrap);
    }
  }

  lemma ReadingAdvances(w: World, run: RunId, now: nat, gone: seq<Event>, w': World)
    requires Inv(w) && Advances(w, run, now, gone, w')
    requires var at := w.runs[run]; at.Started? || at.SawUnset? || at.LostBootstrap? || at.HasCursor?
    ensures Inv(w')
  {
    hide Inv, BatchOk, Loads;
    RunIsOk(w, run);
    if w.runs[run].HasCursor? && w'.runs[run].HasEvents? {
      LoadedBatch(w, w.runs[run].cursor, w'.runs[run].events);
    }
    MoveKeeps(w, run, w'.runs[run]);
  }

  lemma InsertingAdvances(w: World, run: RunId, now: nat, gone: seq<Event>, w': World)
    requires Inv(w) && Advances(w, run, now, gone, w') && w.runs[run].Inserting?
    ensures Inv(w')
  {
    hide Inv, BatchOk, InsertAll, UpdateCursor;
    RunIsOk(w, run);
    var events := w.runs[run].events;
    if w.runs[run].rest == [] {
      PassKeeps(w, events, now);
      CursorPasses(w, events[|events| - 1], now);
      MoveKeeps(UpdateCursor(w, events[|events| - 1], now), run, Cleaning(events[|events| - 1]));
    } else {
      InsertBatchKeeps(w, run, events, w.runs[run].rest, now);
    }
  }

  lemma CursorPasses(w: World, sequence: Event, now: nat)
    ensures sequence <= UpdateCursor(w, sequence, now).cursor
  {
  }

  lemma AdvanceKeeps(w: World, run: RunId, now: nat, gone: seq<Event>, w': World)
    requires Inv(w) && Advances(w, run, now, gone, w')
    ensures Inv(w')
  {
    hide Inv, Cleans, Prepares, InsertAll, UpdateCursor, Loads, IsNewest;
    match w.runs[run] {
      case ReadNewest(_) => BootstrapAdvances(w, run, now, gone, w');
      case HasEvents(events) => ResolveKeeps(w, run, events);
      case HasResources(events, resolved) => PrepareKeeps(w, run, events, resolved, w'.runs[run].rest);
      case Inserting(_, _) => InsertingAdvances(w, run, now, gone, w');
      case Cleaning(upTo) => CleaningKeeps(w, run, upTo, gone, w');
      case _ => ReadingAdvances(w, run, now, gone, w');
    }
  }

  lemma NextKeeps(w: World, step: Step, w': World)
    requires Inv(w) && Next(w, step, w')
    ensures Inv(w')
  {
    hide Inv, Advances, Occur, ChangeRules, N.Next;
    match step
    case EventOccurs(resolves, channels) => OccurKeeps(w, resolves, channels);
    case EventExpires(event) => ExpireKeeps(w, event);
    case RulesChange(resolvable, rules) => ChangeRulesKeeps(w, resolvable, rules);
    case OutboxWorks(boxStep) => OutboxWorksKeeps(w, boxStep, w');
    case RunStarts(run) => MoveKeeps(w, run, Started);
    case RunAdvances(run, now, gone) => AdvanceKeeps(w, run, now, gone, w');
    case RunDies(run) => EndKeeps(w, run);
  }

  lemma {:induction false} RunKeeps(ws: seq<World>, steps: seq<Step>, i: nat)
    requires IsRun(ws, steps) && i < |ws|
    ensures Inv(ws[i])
  {
    if i > 0 {
      RunKeeps(ws, steps, i - 1);
      assert Next(ws[i - 1], steps[i - 1], ws[i]);
      NextKeeps(ws[i - 1], steps[i - 1], ws[i]);
    }
  }

  // ---- what holds in every run --------------------------------------------------------------

  /** Every event the cursor has passed, as long as it still exists, has a row for each channel
      that matched it throughout; and a row is only there for an event passed or under way after
      the boundary and a channel that matched it at some time.  Rows are keyed by channel and
      event, so there is exactly one of each: running twice, overlapping or dying half-way neither
      loses nor repeats a notification. */
  lemma PassedEventsAreDelivered(ws: seq<World>, steps: seq<Step>, i: nat, event: Event)
    requires IsRun(ws, steps) && i < |ws|
    ensures event in ws[i].events && ws[i].boundary < event <= ws[i].cursor ==>
      forall channel | event in ws[i].always && channel in ws[i].always[event] :: Delivery(channel, event) in ws[i].outbox.rows
    ensures forall channel | Delivery(channel, event) in ws[i].outbox.rows ::
      event > ws[i].boundary && event in ws[i].ever && channel in ws[i].ever[event]
  {
    RunKeeps(ws, steps, i);
    DeliveriesAre(ws[i], event);
  }

  lemma DeliveriesAre(w: World, event: Event)
    requires Inv(w)
    ensures event in w.events && w.boundary < event <= w.cursor ==>
      forall channel | event in w.always && channel in w.always[event] :: Delivery(channel, event) in w.outbox.rows
    ensures forall channel | Delivery(channel, event) in w.outbox.rows ::
      event > w.boundary && event in w.ever && channel in w.ever[event]
  {
    hide QueueOk, MatchingOk, RunsOk, N.Inv;
    forall channel | event in w.events && w.boundary < event <= w.cursor && event in w.always && channel in w.always[event]
      ensures Delivery(channel, event) in w.outbox.rows
    {
      assert Delivery(channel, event).event == event;
    }
  }

  lemma StepMovesOn(w: World, step: Step, w': World)
    requires Inv(w) && Next(w, step, w')
    ensures w.cursor <= w'.cursor
    ensures forall d | d in w.outbox.rows :: d in w'.outbox.rows
    ensures forall e | e in w.queue && e !in w'.queue :: e <= w.cursor || step == EventExpires(e)
  {
    hide QueueOk, MatchingOk, DeliveriesOk, RunsOk, N.Inv, N.Next, Advances;
    if step.RunAdvances? {
      AdvanceMovesOn(w, step.run, step.now, step.gone, w');
    } else if step.OutboxWorks? {
      OutboxStepKeepsIds(w.outbox, step.step, w'.outbox);
    }
  }

  lemma AdvanceMovesOn(w: World, run: RunId, now: nat, gone: seq<Event>, w': World)
    requires Inv(w) && Advances(w, run, now, gone, w')
    ensures w.cursor <= w'.cursor
    ensures forall d | d in w.outbox.rows :: d in w'.outbox.rows
    ensures forall e | e in w.queue && e !in w'.queue :: e <= w.cursor
  {
    hide Inv, BatchOk, InsertAll, Prepares, Loads, IsNewest, FirstByRank;
    RunIsOk(w, run);
    ResetOnly(w);
    match w.runs[run] {
      case Inserting(_, rest) => RowsStay(w, rest[..BatchSize(rest)], now);
      case Cleaning(upTo) => CleansOnlyPassed(w, w'.(runs := w.runs), upTo, gone);
      case _ =>
    }
  }

  lemma ResetOnly(w: World)
    requires Inv(w)
    ensures w.updatedAt == 0 ==> w.cursor == 0
  {
  }

  lemma CleansOnlyPassed(w: World, w': World, upTo: Event, gone: seq<Event>)
    requires Cleans(w, w', upTo, gone)
    ensures forall e | e in w.queue && e !in w'.queue :: e <= upTo
  {
  }

  lemma RowsStay(w: World, batch: seq<Delivery>, now: nat)
    requires Inv(w)
    ensures forall d | d in w.outbox.rows :: d in InsertAll(w.outbox, batch, now).rows
  {
    hide QueueOk, MatchingOk, DeliveriesOk, RunsOk, N.Inv, InsertAll;
    InsertedAll(w.outbox, batch, now);
  }

  /** The cursor never goes back, whichever run is late, and no row disappears. */
  lemma {:induction false} CursorNeverGoesBack(ws: seq<World>, steps: seq<Step>, i: nat, j: nat)
    requires IsRun(ws, steps) && i <= j < |ws|
    ensures ws[i].cursor <= ws[j].cursor
    ensures forall d | d in ws[i].outbox.rows :: d in ws[j].outbox.rows
    decreases j - i
  {
    hide Inv, Next;
    if i < j {
      RunKeeps(ws, steps, i);
      StepMovesOn(ws[i], steps[i], ws[i + 1]);
      CursorNeverGoesBack(ws, steps, i + 1, j);
    }
  }

  /** The queue loses an event only after the cursor passed it, or with the event itself. */
  lemma OnlyPassedEventsAreCleaned(ws: seq<World>, steps: seq<Step>, i: nat)
    requires IsRun(ws, steps) && i < |steps|
    ensures forall e | e in ws[i].queue && e !in ws[i + 1].queue :: e <= ws[i].cursor || steps[i] == EventExpires(e)
  {
    hide Inv, Next;
    RunKeeps(ws, steps, i);
    StepMovesOn(ws[i], steps[i], ws[i + 1]);
  }
}
