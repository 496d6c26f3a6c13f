/** `discoverNotificationEvents` itself, run without interruption: every statement is a step of the
    discovery machine, and together they deliver the next hundred events. */
module DiscoveryWorker {
  import opened Options
  import opened Sql
  import N = NotificationOutbox
  import opened Discovery
  import opened DiscoverySafety

  ghost predicate IsPath(ws: seq<World>, steps: seq<Step>) {
    |ws| == |steps| + 1 && forall i | 0 <= i < |steps| :: Next(ws[i], steps[i], ws[i + 1])
  }

  ghost predicate Leads(w: World, ws: seq<World>, steps: seq<Step>, w': World) {
    IsPath(ws, steps) && ws[0] == w && ws[|steps|] == w'
  }

  lemma Onward(w: World, ws: seq<World>, steps: seq<Step>, mid: World, step: Step, w': World)
    requires Leads(w, ws, steps, mid) && Next(mid, step, w')
    ensures Leads(w, ws + [w'], steps + [step], w')
  {
    hide Next;
  }

  /** The rows one batch of events is due. */
  ghost predicate IsDue(w: World, events: seq<Event>, d: Delivery) {
    d.event in events && d.channel in Matching(w, d.event)
  }

  ghost predicate AreDue(w: World, events: seq<Event>, deliveries: seq<Delivery>) {
    Distinct(deliveries) && forall d :: d in deliveries <==> IsDue(w, events, d)
  }

  /** So many deliveries are due for the events. */
  ghost predicate DueCount(w: World, events: seq<Event>, n: nat) {
    exists deliveries :: AreDue(w, events, deliveries) && |deliveries| == n
  }

  // ---- rules by key -------------------------------------------------------------------------

  const MAX_MATCHED_RULES: nat := 2000
  const KEY_BATCH: nat := 24

  /** A resource with a dimension; an event has one for good, and rules are kept by it. */
  type Key = nat

  /** A row of `notification_rules`. */
  datatype Rule = Rule(key: Key, channel: Channel)

  /** Events of one key have the same rules. */
  ghost predicate RulesByKey(w: World, keyOf: Event -> Key) {
    forall e, e' | e in w.events && e' in w.events && keyOf(e) == keyOf(e') :: Rules(w, e) == Rules(w, e')
  }

  /** The rows that the events of a batch match. */
  function MatchedRules(w: World, keyOf: Event -> Key, events: seq<Event>): set<Rule> {
    set e, c | e in events && c in Matching(w, e) :: Rule(keyOf(e), c)
  }

  /** The rows of the table for some keys. */
  function RowsFor(w: World, keyOf: Event -> Key, keys: seq<Key>): set<Rule> {
    set e, c | e in w.events && keyOf(e) in keys && c in Rules(w, e) :: Rule(keyOf(e), c)
  }

  /** The batch matches no more rules than a run takes. */
  predicate FitsRun(w: World, keyOf: Event -> Key, events: seq<Event>) {
    |MatchedRules(w, keyOf, events)| <= MAX_MATCHED_RULES
  }

  predicate SameRules(w: World, w': World) {
    w'.rules == w.rules && w'.resolvable == w.resolvable && w'.events == w.events
  }

  /** After a run that loaded `events`: exactly their rows were added, and the cursor stands on the
      last of them. */
  ghost predicate Announced(w: World, events: seq<Event>, enqueued: nat, w': World) {
    && DueCount(w, events, enqueued)
    && (forall d :: d in w'.outbox.rows <==> d in w.outbox.rows || IsDue(w, events, d))
    && w'.cursor == if events == [] then w.cursor else events[|events| - 1]
  }

  class Worker {
    const keyOf: Event -> Key
    var db: World

    constructor (keyOf: Event -> Key, db: World)
      ensures this.keyOf == keyOf && this.db == db
    {
      this.keyOf, this.db := keyOf, db;
    }

    /** `newestSequence`. */
    method NewestSequence() returns (newest: Event)
      ensures IsNewest(db.queue, newest)
    {
      newest := 0;
      var rest := db.queue;
      while rest != {}
        invariant rest <= db.queue
        invariant newest == 0 || newest in db.queue
        invariant forall e | e in db.queue && e !in rest :: e <= newest && newest in db.queue
        decreases rest
      {
        var e :| e in rest;
        rest := rest - {e};
        if e >= newest { newest := e; }
      }
    }

    /** `cleanConsumedEvents`, the last statement of every run. */
    method CleanConsumedEvents(run: RunId, upTo: Event, now: nat) returns (ghost gone: seq<Event>)
      requires run in db.runs && db.runs[run] == Cleaning(upTo) && now > 0
      modifies this
      ensures Next(old(db), RunAdvances(run, now, gone), db)
      ensures db == old(db).(queue := db.queue, runs := old(db).runs - {run})
      ensures Cleaned(old(db).queue, db.queue, upTo)
    {
      var consumed: set<Event> := set e | e in db.queue && e <= upTo;
      var chosen := SelectFirst(consumed, EventRank(db.queue), EVENT_LIMIT);
      gone := chosen;
      SomeGo(db.queue, consumed, chosen, upTo);
      db := db.(queue := db.queue - Elements(chosen), runs := db.runs - {run});
    }

    /** The distinct keys of the events with a resource. */
    method RequestedKeys(events: seq<Event>, resolved: set<Event>) returns (keys: seq<Key>)
      ensures Distinct(keys) && forall k :: k in keys <==> exists e | e in events && e in resolved :: keyOf(e) == k
    {
      keys := [];
      for i := 0 to |events|
        invariant Distinct(keys)
        invariant forall k :: k in keys <==> exists e | e in events[..i] && e in resolved :: keyOf(e) == k
      {
        assert events[..i + 1] == events[..i] + [events[i]];
        if events[i] in resolved && keyOf(events[i]) !in keys {
          keys := keys + [keyOf(events[i])];
        }
      }
      assert events[..|events|] == events;
    }

    /** `loadRules`: twenty-four keys to a query, each with a LIMIT one above what is still allowed.
        It fails exactly when the batch matches more than two thousand rules, and otherwise the
        limits have cut off nothing. */
    method LoadRules(events: seq<Event>, resolved: set<Event>) returns (ok: bool, rules: set<Rule>)
      requires RulesByKey(db, keyOf) && forall e | e in events :: e in db.events
      requires resolved == set e | e in events && e in db.resolvable
      ensures ok <==> FitsRun(db, keyOf, events)
      ensures ok <==> |MatchedRules(db, keyOf, events)| <= 2000
      ensures ok ==> rules == MatchedRules(db, keyOf, events)
    {
      hide RulesByKey, RowsFor, MatchedRules;
      var keys := RequestedKeys(events, resolved);
      var offset, matched := 0, 0;
      ok, rules := true, {};
      NoRowsFor(db, keyOf);
      while ok && offset < |keys|
        invariant 0 <= offset <= |keys|
        invariant ok ==> rules == RowsFor(db, keyOf, keys[..offset]) && matched == |rules| <= MAX_MATCHED_RULES
        invariant !ok ==> |RowsFor(db, keyOf, keys)| > MAX_MATCHED_RULES
        decreases ok, |keys| - offset
      {
        var end := if offset + KEY_BATCH < |keys| then offset + KEY_BATCH else |keys|;
        var rows := SelectAny(RowsFor(db, keyOf, keys[offset..end]), MAX_MATCHED_RULES - matched + 1);
        MoreRowsFor(db, keyOf, keys, offset, end, rows);
        matched := matched + |rows|;
        ok := matched <= MAX_MATCHED_RULES;
        rules := rules + rows;
        offset := end;
      }
      assert ok ==> keys[..offset] == keys;
      RowsAreMatched(db, keyOf, events, resolved, keys);
    }

    /** `prepareDeliveries`: for every event with a resource, one delivery for each of its rules. */
    method PrepareDeliveries(events: seq<Event>, resolved: set<Event>, rules: set<Rule>) returns (rest: seq<Delivery>)
      requires RulesByKey(db, keyOf) && forall e | e in events :: e in db.events
      requires resolved == set e | e in events && e in db.resolvable
      requires rules == MatchedRules(db, keyOf, events)
      ensures Prepares(db, events, resolved, rest)
      ensures Distinct(events) ==> Distinct(rest)
    {
      hide RulesByKey, MatchedRules;
      rest := [];
      for i := 0 to |events|
        invariant forall d :: d in rest <==> d.event in events[..i] && d.event in resolved && d.channel in Rules(db, d.event)
        invariant Distinct(events) ==> Distinct(rest)
      {
        var e := events[i];
        if e in resolved {
          var channels := set rule | rule in rules && rule.key == keyOf(e) :: rule.channel;
          FoundByKey(db, keyOf, events, e);
          while channels != {}
            invariant channels <= Rules(db, e)
            invariant Distinct(events) ==> Distinct(rest) && e !in events[..i]
            invariant forall d :: d in rest <==>
              d.event in resolved && d.channel in Rules(db, d.event)
              && (d.event in events[..i] || (d.event == e && d.channel !in channels))
            decreases channels
          {
            var channel :| channel in channels;
            channels := channels - {channel};
            rest := rest + [Delivery(channel, e)];
          }
        }
        assert events[..i + 1] == events[..i] + [e];
      }
    }

    /** `persistDeliveries`: INSERT OR IGNORE in batches of fifty. */
    method PersistDeliveries(run: RunId, events: seq<Event>, deliveries: seq<Delivery>, now: nat)
      returns (ghost ws: seq<World>, ghost steps: seq<Step>)
      requires Inv(db) && run in db.runs && db.runs[run] == Inserting(events, deliveries) && now > 0
      modifies this
      ensures Leads(old(db), ws, steps, db) && Inv(db)
      ensures db == old(db).(outbox := db.outbox, runs := old(db).runs[run := Inserting(events, [])])
      ensures db.outbox.rows.Keys == old(db).outbox.rows.Keys + Elements(deliveries)
      ensures N.OnlyAdds(old(db).outbox, db.outbox, now)
    {
      hide Inv, InsertAll, N.OnlyAdds;
      NoneAdded(db.outbox, now);
      ws, steps := [db], [];
      ghost var start := db;
      var rest := deliveries;
      ghost var done := [];
      while rest != []
        invariant Leads(start, ws, steps, db) && Inv(db)
        invariant db == start.(outbox := db.outbox, runs := start.runs[run := Inserting(events, rest)])
        invariant deliveries == done + rest
        invariant db.outbox.rows.Keys == start.outbox.rows.Keys + Elements(done)
        invariant N.OnlyAdds(start.outbox, db.outbox, now)
        decreases |rest|
      {
        ghost var before := db;
        var batch := rest[..BatchSize(rest)];
        BoxIsOk(db);
        InsertedAll(db.outbox, batch, now);
        InsertBatchKeeps(db, run, events, rest, now);
        rest := rest[BatchSize(rest)..];
        db := At(db.(outbox := InsertAll(db.outbox, batch, now)), run, Inserting(events, rest));
        Onward(start, ws, steps, before, RunAdvances(run, now, []), db);
        ws, steps := ws + [db], steps + [RunAdvances(run, now, [])];
        done := done + batch;
        N.OnlyAddsThrough(start.outbox, before.outbox, db.outbox, now);
      }
      assert done == deliveries;
    }

    /** The first run only sets the cursor: nothing that happened before is announced. */
    method Bootstrap(run: RunId, now: nat) returns (ghost ws: seq<World>, ghost steps: seq<Step>)
      requires run in db.runs && db.runs[run] == SawUnset && db.updatedAt == 0 && now > 0
      modifies this
      ensures Leads(old(db), ws, steps, db)
      ensures IsNewest(old(db).queue, db.cursor) && db.updatedAt == now && db.outbox == old(db).outbox
      ensures db.runs == old(db).runs - {run} && SameRules(old(db), db) && Cleaned(old(db).queue, db.queue, db.cursor)
    {
      ws, steps := [db], [];
      var newest := NewestSequence();
      db := At(db, run, ReadNewest(newest));
      ws, steps := ws + [db], steps + [RunAdvances(run, now, [])];
      db := At(db.(cursor := newest, updatedAt := now, boundary := newest), run, Cleaning(newest));
      ws, steps := ws + [db], steps + [RunAdvances(run, now, [])];
      ghost var gone := CleanConsumedEvents(run, newest, now);
      ws, steps := ws + [db], steps + [RunAdvances(run, now, gone)];
    }

    /** Resolves the resources of a batch and matches its rules; with too many of them the run
        ends. */
    method Prepare(run: RunId, events: seq<Event>, now: nat)
      returns (ok: bool, deliveries: seq<Delivery>, ghost ws: seq<World>, ghost steps: seq<Step>)
      requires Inv(db) && run in db.runs && db.runs[run] == HasEvents(events) && now > 0
      requires RulesByKey(db, keyOf) && forall e | e in events :: e in db.events
      modifies this
      ensures Leads(old(db), ws, steps, db) && Inv(db)
      ensures ok <==> FitsRun(old(db), keyOf, events)
      ensures db == if ok then At(old(db), run, Inserting(events, deliveries)) else End(old(db), run)
      ensures ok && Distinct(events) ==> AreDue(old(db), events, deliveries)
      ensures ok ==> forall d :: d in deliveries <==> IsDue(old(db), events, d)
    {
      hide Inv, RulesByKey, FitsRun, MatchedRules;
      ghost var start := db;
      var resolved: set<Event> := set e | e in events && e in db.resolvable;
      ResolveKeeps(db, run, events);
      db := At(db, run, HasResources(events, resolved));
      ghost var looked := db;
      MovingKeepsRules(start, looked, keyOf, events);
      var rules;
      ok, rules := LoadRules(events, resolved);
      deliveries := [];
      if ok {
        deliveries := PrepareDeliveries(events, resolved, rules);
        PrepareKeeps(db, run, events, resolved, deliveries);
        db := At(db, run, Inserting(events, deliveries));
        PreparedIsNext(looked, run, now, events, resolved, deliveries);
        ws, steps := [start, looked, db], [RunAdvances(run, now, []), RunAdvances(run, now, [])];
      } else {
        db := End(db, run);
        NextKeeps(looked, RunDies(run), db);
        ws, steps := [start, looked, db], [RunAdvances(run, now, []), RunDies(run)];
      }
    }

    /** With every row in place: the cursor moves, and what it passed is cleaned. */
    method Pass(run: RunId, events: seq<Event>, now: nat) returns (ghost ws: seq<World>, ghost steps: seq<Step>)
      requires run in db.runs && db.runs[run] == Inserting(events, []) && events != [] && now > 0
      modifies this
      ensures Leads(old(db), ws, steps, db)
      ensures db.outbox == old(db).outbox && db.runs == old(db).runs - {run} && SameRules(old(db), db)
      ensures db.cursor == if old(db).cursor <= events[|events| - 1] then events[|events| - 1] else old(db).cursor
      ensures Cleaned(old(db).queue, db.queue, events[|events| - 1]) && (old(db).updatedAt > 0 ==> db.updatedAt > 0)
    {
      ghost var start := db;
      var last := events[|events| - 1];
      db := At(UpdateCursor(db, last, now), run, Cleaning(last));
      ghost var passed := db;
      ghost var gone := CleanConsumedEvents(run, last, now);
      ws, steps := [start, passed, db], [RunAdvances(run, now, []), RunAdvances(run, now, gone)];
    }

    /** A run with events: resolve, prepare, persist, and only then move the cursor. */
    method Deliver(run: RunId, events: seq<Event>, now: nat)
      returns (ok: bool, enqueued: nat, ghost ws: seq<World>, ghost steps: seq<Step>)
      requires Inv(db) && run in db.runs && db.runs[run] == HasEvents(events) && events != [] && now > 0
      requires Distinct(events) && RulesByKey(db, keyOf) && forall e | e in events :: e in db.events
      modifies this
      ensures Leads(old(db), ws, steps, db) && db.runs == old(db).runs - {run} && SameRules(old(db), db)
      ensures ok <==> FitsRun(old(db), keyOf, events)
      ensures !ok ==> db == End(old(db), run)
      ensures N.OnlyAdds(old(db).outbox, db.outbox, now)
      ensures ok ==>
        && DueCount(old(db), events, enqueued)
        && (forall d :: d in db.outbox.rows <==> d in old(db).outbox.rows || IsDue(old(db), events, d))
        && db.cursor == (if old(db).cursor <= events[|events| - 1] then events[|events| - 1] else old(db).cursor)
        && Cleaned(old(db).queue, db.queue, events[|events| - 1]) && (old(db).updatedAt > 0 ==> db.updatedAt > 0)
    {
      hide Inv, Leads, IsDue, AreDue, FitsRun, RulesByKey, Cleaned, N.OnlyAdds;
      NoneAdded(db.outbox, now);
      ghost var start := db;
      var deliveries;
      ok, deliveries, ws, steps := Prepare(run, events, now);
      enqueued := |deliveries|;
      if ok {
        ghost var prepared := db;
        ghost var ws', steps' := PersistDeliveries(run, events, deliveries, now);
        Joined(start, ws, steps, prepared, ws', steps', db);
        ws, steps := ws + ws'[1..], steps + steps';
        ghost var persisted := db;
        ws', steps' := Pass(run, events, now);
        Joined(start, ws, steps, persisted, ws', steps', db);
        ws, steps := ws + ws'[1..], steps + steps';
      }
    }

    /** The rest of a run once the cursor is read. */
    method DeliverNext(ghost start: World, run: RunId, cursor: Event, now: nat)
      returns (ok: bool, scanned: nat, enqueued: nat, ghost ws: seq<World>, ghost steps: seq<Step>)
      requires Inv(start) && start.updatedAt > 0 && start.cursor == cursor && run !in start.runs && now > 0
      requires db == At(start, run, HasCursor(cursor)) && RulesByKey(start, keyOf)
      modifies this
      ensures Leads(old(db), ws, steps, db) && db.runs == start.runs && SameRules(start, db)
      ensures Outcome(start, keyOf, ok, scanned, enqueued, db) && N.OnlyAdds(start.outbox, db.outbox, now)
    {
      hide Inv, Next, Loads, Announced, IsDue, AreDue, DueCount, FirstByRank, Leads, FitsRun, RulesByKey, Cleaned, Outcome,
           N.OnlyAdds;
      NoneAdded(start.outbox, now);
      var events := LoadEvents(cursor);
      SameQueue(db, start, cursor, events);
      ok, scanned, enqueued := true, |events|, 0;
      LoadedIsNext(db, run, now, cursor, events);
      ghost var before := db;
      if events == [] {
        db := At(db, run, Cleaning(cursor));
        ghost var loaded := db;
        ghost var gone := CleanConsumedEvents(run, cursor, now);
        TwoSteps(before, RunAdvances(run, now, []), loaded, RunAdvances(run, now, gone), db);
        ws, steps := [before, loaded, db], [RunAdvances(run, now, []), RunAdvances(run, now, gone)];
        NothingAnnounced(start, db);
        NothingToDo(start, keyOf, db);
      } else {
        db := At(db, run, HasEvents(events));
        ghost var loaded := db;
        assert db == At(start, run, HasEvents(events));
        LoadedIsBatch(start, run, events);
        LoadedAreThere(start, events);
        MovingKeepsRules(start, loaded, keyOf, events);
        ok, enqueued, ws, steps := Deliver(run, events, now);
        OneStep(before, RunAdvances(run, now, []), loaded);
        Joined(before, [before, loaded], [RunAdvances(run, now, [])], loaded, ws, steps, db);
        ws, steps := [before, loaded] + ws[1..], [RunAdvances(run, now, [])] + steps;
        if ok {
          BatchAnnounced(start, loaded, events, enqueued, db);
          BatchDone(start, keyOf, events, enqueued, db);
        } else {
          assert db == start;
          BatchTooLarge(start, keyOf, events, enqueued);
        }
      }
    }

    /** `loadEvents`. */
    method LoadEvents(cursor: Event) returns (events: seq<Event>)
      ensures Loads(db, cursor, events) && Distinct(events)
    {
      var open: set<Event> := set e | e in db.queue && e > cursor;
      events := SelectFirst(open, EventRank(db.queue), EVENT_LIMIT);
    }
  }

  /** The first hundred consumed events left the queue. */
  ghost predicate Cleaned(queue: set<Event>, queue': set<Event>, upTo: Event) {
    && queue' <= queue && (forall e | e in queue && e !in queue' :: e <= upTo)
    && (queue' == queue ==> forall e | e in queue :: e > upTo)
  }

  lemma SomeGo(queue: set<Event>, consumed: set<Event>, chosen: seq<Event>, upTo: Event)
    requires consumed == set e | e in queue && e <= upTo
    requires FirstByRank(consumed, EventRank(queue), EVENT_LIMIT, chosen)
    ensures Cleaned(queue, queue - Elements(chosen), upTo)
  {
    if consumed != {} {
      assert chosen[0] in chosen && chosen[0] in queue && chosen[0] !in queue - Elements(chosen);
    }
    assert forall e | e in queue && e <= upTo :: e in consumed;
  }

  // ---- rules ----------------------------------------------------------------------------------

  lemma NoRowsFor(w: World, keyOf: Event -> Key)
    ensures RowsFor(w, keyOf, []) == {}
  {
  }

  /** One more query: its rows are new, and a cut one is one too many. */
  lemma MoreRowsFor(w: World, keyOf: Event -> Key, keys: seq<Key>, offset: nat, end: nat, rows: set<Rule>)
    requires offset <= end <= |keys| && Distinct(keys) && |RowsFor(w, keyOf, keys[..offset])| <= MAX_MATCHED_RULES
    requires AnyUpTo(RowsFor(w, keyOf, keys[offset..end]), MAX_MATCHED_RULES - |RowsFor(w, keyOf, keys[..offset])| + 1, rows)
    ensures var before := RowsFor(w, keyOf, keys[..offset]);
      && |before + rows| == |before| + |rows|
      && (|before| + |rows| <= MAX_MATCHED_RULES ==> before + rows == RowsFor(w, keyOf, keys[..end]))
      && (|before| + |rows| > MAX_MATCHED_RULES ==> |RowsFor(w, keyOf, keys)| > MAX_MATCHED_RULES)
  {
    hide RowsFor;
    var before, batch := RowsFor(w, keyOf, keys[..offset]), RowsFor(w, keyOf, keys[offset..end]);
    RowsSplit(w, keyOf, keys, offset, end);
    assert |before + rows| == |before| + |rows|;
    if |before| + |rows| <= MAX_MATCHED_RULES {
      SubsetSizeLe(rows, batch);
      assert |batch - rows| == 0;
      assert rows == batch;
    }
    SubsetSizeLe(before + rows, RowsFor(w, keyOf, keys));
  }

  lemma RowsSplit(w: World, keyOf: Event -> Key, keys: seq<Key>, offset: nat, end: nat)
    requires offset <= end <= |keys| && Distinct(keys)
    ensures var before, batch := RowsFor(w, keyOf, keys[..offset]), RowsFor(w, keyOf, keys[offset..end]);
      RowsFor(w, keyOf, keys[..end]) == before + batch && before !! batch && before + batch <= RowsFor(w, keyOf, keys)
  {
    hide Rules;
    var before, batch := RowsFor(w, keyOf, keys[..offset]), RowsFor(w, keyOf, keys[offset..end]);
    assert keys[..end] == keys[..offset] + keys[offset..end];
    forall k | k in keys[..offset] ensures k in keys && k !in keys[offset..end] {
    }
    assert forall k | k in keys[offset..end] :: k in keys;
  }

  lemma RowsAreMatched(w: World, keyOf: Event -> Key, events: seq<Event>, resolved: set<Event>, keys: seq<Key>)
    requires RulesByKey(w, keyOf) && forall e | e in events :: e in w.events
    requires resolved == set e | e in events && e in w.resolvable
    requires forall k :: k in keys <==> exists e | e in events && e in resolved :: keyOf(e) == k
    ensures RowsFor(w, keyOf, keys) == MatchedRules(w, keyOf, events)
  {
    hide Rules;
    forall rule | rule in RowsFor(w, keyOf, keys) ensures rule in MatchedRules(w, keyOf, events) {
      var e, c :| e in w.events && keyOf(e) in keys && c in Rules(w, e) && rule == Rule(keyOf(e), c);
      var e' :| e' in events && e' in resolved && keyOf(e') == keyOf(e);
      assert c in Matching(w, e');
    }
    forall rule | rule in MatchedRules(w, keyOf, events) ensures rule in RowsFor(w, keyOf, keys) {
      var e, c :| e in events && c in Matching(w, e) && rule == Rule(keyOf(e), c);
      assert keyOf(e) in keys;
    }
  }

  lemma FoundByKey(w: World, keyOf: Event -> Key, events: seq<Event>, e: Event)
    requires RulesByKey(w, keyOf) && (forall e | e in events :: e in w.events) && e in events && e in w.resolvable
    ensures (set rule | rule in MatchedRules(w, keyOf, events) && rule.key == keyOf(e) :: rule.channel) == Rules(w, e)
  {
    hide Rules;
    forall c | c in Rules(w, e) ensures Rule(keyOf(e), c) in MatchedRules(w, keyOf, events) {
      assert c in Matching(w, e);
    }
    forall rule | rule in MatchedRules(w, keyOf, events) && rule.key == keyOf(e) ensures rule.channel in Rules(w, e) {
      var e', c :| e' in events && c in Matching(w, e') && rule == Rule(keyOf(e'), c);
    }
  }

  lemma MovingKeepsRules(w: World, w': World, keyOf: Event -> Key, events: seq<Event>)
    requires SameRules(w, w')
    ensures RulesByKey(w', keyOf) <==> RulesByKey(w, keyOf)
    ensures MatchedRules(w', keyOf, events) == MatchedRules(w, keyOf, events)
    ensures FitsRun(w', keyOf, events) <==> FitsRun(w, keyOf, events)
  {
    assert forall e :: Rules(w', e) == Rules(w, e);
    assert forall e :: Matching(w', e) == Matching(w, e);
  }

  // ---- what a run comes to ------------------------------------------------------------------

  /** How a run after the first one ends: either the next hundred events are announced and the cursor
      stands on the last of them, or they match too many rules and nothing has changed. */
  ghost predicate Outcome(w: World, keyOf: Event -> Key, ok: bool, scanned: nat, enqueued: nat, w': World) {
    exists events :: Loads(w, w.cursor, events) && OutcomeOf(w, keyOf, events, ok, scanned, enqueued, w')
  }

  ghost predicate OutcomeOf(w: World, keyOf: Event -> Key, events: seq<Event>, ok: bool, scanned: nat, enqueued: nat, w': World) {
    && (ok <==> FitsRun(w, keyOf, events))
    && (!ok ==> w' == w && events != [])
    && (ok ==> scanned == |events| && Announced(w, events, enqueued, w') && w'.updatedAt > 0
               && Cleaned(w.queue, w'.queue, w'.cursor))
    && (ok && scanned < EVENT_LIMIT ==> forall e | e in w.queue :: e <= w'.cursor)
  }

  lemma NothingToDo(w: World, keyOf: Event -> Key, w': World)
    requires Loads(w, w.cursor, []) && Announced(w, [], 0, w') && w.updatedAt > 0 && w'.updatedAt > 0
    requires Cleaned(w.queue, w'.queue, w.cursor) && w'.cursor == w.cursor
    ensures Outcome(w, keyOf, true, 0, 0, w')
  {
    hide Loads, Announced, Cleaned;
    CaughtUp(w, w.cursor, []);
    assert MatchedRules(w, keyOf, []) == {};
    assert OutcomeOf(w, keyOf, [], true, 0, 0, w');
  }

  lemma BatchDone(w: World, keyOf: Event -> Key, events: seq<Event>, enqueued: nat, w': World)
    requires events != [] && Loads(w, w.cursor, events) && Announced(w, events, enqueued, w') && w'.updatedAt > 0
    requires Cleaned(w.queue, w'.queue, events[|events| - 1]) && FitsRun(w, keyOf, events)
    requires forall e | e in events :: e <= events[|events| - 1]
    requires w.cursor < events[|events| - 1]
    ensures Outcome(w, keyOf, true, |events|, enqueued, w')
  {
    hide Loads, Cleaned, FitsRun, DueCount, IsDue;
    if |events| < EVENT_LIMIT { CaughtUp(w, w.cursor, events); }
    assert OutcomeOf(w, keyOf, events, true, |events|, enqueued, w');
  }

  lemma BatchTooLarge(w: World, keyOf: Event -> Key, events: seq<Event>, enqueued: nat)
    requires events != [] && Loads(w, w.cursor, events) && !FitsRun(w, keyOf, events)
    ensures Outcome(w, keyOf, false, |events|, enqueued, w)
  {
    hide Loads, FitsRun;
    assert OutcomeOf(w, keyOf, events, false, |events|, enqueued, w);
  }

  lemma LoadedAreThere(w: World, events: seq<Event>)
    requires Inv(w) && Loads(w, w.cursor, events)
    ensures forall e | e in events :: e in w.events
  {
    hide DeliveriesOk, MatchingOk, RunsOk, N.Inv;
  }

  lemma NoneAdded(box: N.Outbox<Delivery>, now: nat)
    ensures N.OnlyAdds(box, box, now)
  {
  }

  lemma OneStep(w: World, step: Step, w': World)
    requires Next(w, step, w')
    ensures Leads(w, [w, w'], [step], w')
  {
    hide Next;
  }

  lemma TwoSteps(w: World, first: Step, mid: World, second: Step, w': World)
    requires Next(w, first, mid) && Next(mid, second, w')
    ensures Leads(w, [w, mid, w'], [first, second], w')
  {
    hide Next;
  }

  lemma SameQueue(w: World, w': World, cursor: Event, events: seq<Event>)
    requires Loads(w, cursor, events) && w'.queue == w.queue
    ensures Loads(w', cursor, events)
  {
  }

  lemma NothingAnnounced(w: World, w': World)
    requires w'.outbox == w.outbox && w'.cursor == w.cursor
    ensures Announced(w, [], 0, w')
  {
    assert AreDue(w, [], []);
  }

  lemma SameDue(w: World, w': World, events: seq<Event>, n: nat)
    requires w' == w.(runs := w'.runs) && DueCount(w', events, n)
    ensures DueCount(w, events, n)
  {
    var deliveries :| AreDue(w', events, deliveries) && |deliveries| == n;
    assert forall d :: IsDue(w, events, d) == IsDue(w', events, d);
    assert AreDue(w, events, deliveries);
  }

  lemma BatchAnnounced(w: World, loaded: World, events: seq<Event>, enqueued: nat, w': World)
    requires events != [] && loaded == w.(runs := loaded.runs) && w.cursor <= events[|events| - 1]
    requires forall d :: d in w'.outbox.rows <==> d in loaded.outbox.rows || IsDue(loaded, events, d)
    requires w'.cursor == events[|events| - 1] && DueCount(loaded, events, enqueued)
    ensures Announced(w, events, enqueued, w')
  {
    hide DueCount;
    SameDue(w, loaded, events, enqueued);
  }

  /** `discoverNotificationEvents`; not `ok` is its error for a batch with too many rules. */
  method Discover(worker: Worker, run: RunId, now: nat)
    returns (ok: bool, scanned: nat, enqueued: nat, bootstrapped: bool, ghost ws: seq<World>, ghost steps: seq<Step>)
    requires Inv(worker.db) && run !in worker.db.runs && now > 0 && RulesByKey(worker.db, worker.keyOf)
    modifies worker
    ensures Leads(old(worker.db), ws, steps, worker.db) && worker.db.runs == old(worker.db).runs
    ensures SameRules(old(worker.db), worker.db) && N.OnlyAdds(old(worker.db).outbox, worker.db.outbox, now)
    ensures bootstrapped <==> old(worker.db).updatedAt == 0
    ensures bootstrapped ==>
      && ok && IsNewest(old(worker.db).queue, worker.db.cursor) && worker.db.outbox == old(worker.db).outbox
      && worker.db.updatedAt > 0 && Cleaned(old(worker.db).queue, worker.db.queue, worker.db.cursor)
    ensures !bootstrapped ==> Outcome(old(worker.db), worker.keyOf, ok, scanned, enqueued, worker.db)
  {
    hide Inv, Next, Loads, Outcome, DueCount, RulesByKey, Cleaned, N.OnlyAdds;
    NoneAdded(worker.db.outbox, now);
    ghost var start := worker.db;
    StartedIsNext(worker.db, run, now);
    var cursor := worker.db.cursor;
    bootstrapped := worker.db.updatedAt == 0;
    worker.db := At(worker.db, run, if bootstrapped then SawUnset else HasCursor(cursor));
    ws, steps := [start, At(start, run, Started), worker.db], [RunStarts(run), RunAdvances(run, now, [])];
    ghost var mid := worker.db;
    ok, scanned, enqueued := true, 0, 0;
    ghost var ws', steps';
    if bootstrapped {
      ws', steps' := worker.Bootstrap(run, now);
    } else {
      ok, scanned, enqueued, ws', steps' := worker.DeliverNext(start, run, cursor, now);
    }
    Joined(start, ws, steps, mid, ws', steps', worker.db);
    ws, steps := ws + ws'[1..], steps + steps';
    assert worker.db.runs == start.runs;
  }

  lemma LoadedIsNext(w: World, run: RunId, now: nat, cursor: Event, events: seq<Event>)
    requires run in w.runs && w.runs[run] == HasCursor(cursor) && now > 0 && Loads(w, cursor, events)
    ensures Next(w, RunAdvances(run, now, []), At(w, run, if events == [] then Cleaning(cursor) else HasEvents(events)))
  {
  }

  lemma StartedIsNext(w: World, run: RunId, now: nat)
    requires run !in w.runs && now > 0
    ensures Next(w, RunStarts(run), At(w, run, Started))
    ensures var at := if w.updatedAt == 0 then SawUnset else HasCursor(w.cursor);
      Next(At(w, run, Started), RunAdvances(run, now, []), At(w, run, at))
  {
    assert At(At(w, run, Started), run, SawUnset) == At(w, run, SawUnset);
    assert At(At(w, run, Started), run, HasCursor(w.cursor)) == At(w, run, HasCursor(w.cursor));
  }

  /** Fewer than a hundred loaded events means that none is left. */
  lemma CaughtUp(w: World, cursor: Event, events: seq<Event>)
    requires Loads(w, cursor, events) && |events| < EVENT_LIMIT
    ensures forall e | e in w.queue && e > cursor :: e in events
  {
    var all := set e | e in w.queue && e > cursor;
    AllChosen(all, EventRank(w.queue), EVENT_LIMIT, events);
    forall e | e in w.queue && e > cursor ensures e in events {
      assert e in all && e in Elements(events);
    }
  }

  lemma LoadedIsBatch(w: World, run: RunId, events: seq<Event>)
    requires Inv(w) && w.updatedAt > 0 && Loads(w, w.cursor, events) && events != []
    ensures Inv(At(w, run, HasEvents(events)))
    ensures w.cursor < events[|events| - 1] && forall e | e in events :: e <= events[|events| - 1]
  {
    hide DeliveriesOk, MatchingOk, RunsOk, N.Inv;
    LoadedBatch(w, w.cursor, events);
    MoveKeeps(w, run, HasEvents(events));
    assert events[|events| - 1] in events;
  }

  lemma PreparedIsNext(w: World, run: RunId, now: nat, events: seq<Event>, resolved: set<Event>, rest: seq<Delivery>)
    requires run in w.runs && w.runs[run] == HasResources(events, resolved) && now > 0
    requires Prepares(w, events, resolved, rest)
    ensures Next(w, RunAdvances(run, now, []), At(w, run, Inserting(events, rest)))
  {
  }

  lemma Joined(w: World, ws: seq<World>, steps: seq<Step>, mid: World, ws': seq<World>, steps': seq<Step>, w': World)
    requires Leads(w, ws, steps, mid) && Leads(mid, ws', steps', w')
    ensures |ws'| > 0 && Leads(w, ws + ws'[1..], steps + steps', w')
  {
    hide Next;
    var all, moves := ws + ws'[1..], steps + steps';
    forall i | 0 <= i < |moves| ensures Next(all[i], moves[i], all[i + 1]) {
      if i >= |steps| {
        assert Next(ws'[i - |steps|], steps'[i - |steps|], ws'[i - |steps| + 1]);
      }
    }
  }

  lemma BoxIsOk(w: World)
    requires Inv(w)
    ensures N.Inv(w.outbox)
  {
  }
}
