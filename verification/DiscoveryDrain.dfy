/** Repeated discovery: undisturbed runs announce everything that is queued and empty the queue, unless
    a hundred events match more rules than one run takes; there discovery stays. */
module DiscoveryDrain {
  import opened Options
  import opened Sql
  import N = NotificationOutbox
  import opened Discovery
  import opened DiscoverySafety
  import opened DiscoveryWorker

  /** The queued events that are still to be announced. */
  function OpenIn(w: World): set<Event> { set e | e in w.queue && e > w.cursor }

  /** The events in order. */
  ghost predicate Sorts(all: set<Event>, s: seq<Event>) {
    Ascending(s) && forall e :: e in s <==> e in all
  }

  function NextBatch(s: seq<Event>): nat { if |s| < EVENT_LIMIT then |s| else EVENT_LIMIT }

  /** Cut into hundreds, no batch matches more rules than a run takes. */
  predicate AllFit(w: World, keyOf: Event -> Key, s: seq<Event>)
    decreases |s|
  {
    s == [] || (FitsRun(w, keyOf, s[..NextBatch(s)]) && AllFit(w, keyOf, s[NextBatch(s)..]))
  }

  // ---- sorting ------------------------------------------------------------------------------

  lemma {:induction false} Largest(all: set<Event>) returns (m: Event)
    requires all != {}
    ensures m in all && forall e | e in all :: e <= m
    decreases all
  {
    m :| m in all;
    if all != {m} {
      var n := Largest(all - {m});
      assert all == all - {m} + {m};
      if m < n { m := n; }
    }
  }

  lemma {:induction false} Sort(all: set<Event>) returns (s: seq<Event>)
    ensures Sorts(all, s)
    decreases all
  {
    if all == {} {
      s := [];
    } else {
      var m := Largest(all);
      var init := Sort(all - {m});
      s := init + [m];
      forall i | 0 <= i < |init| ensures init[i] < m {
        assert init[i] in init;
      }
      assert forall e :: e in s <==> e in init || e == m;
    }
  }

  lemma {:induction false} SortedSize(all: set<Event>, s: seq<Event>)
    requires Sorts(all, s)
    ensures |s| == |all|
  {
    assert Distinct(s);
    DistinctSize(s);
    assert Elements(s) == all;
  }

  /** What a run loads is the front of the order. */
  lemma {:induction false} LoadsFront(w: World, events: seq<Event>, s: seq<Event>, i: nat)
    requires Loads(w, w.cursor, events) && Sorts(OpenIn(w), s) && i <= |events|
    ensures |events| == NextBatch(s) && events[..i] == s[..i]
    decreases i
  {
    SortedSize(OpenIn(w), s);
    assert OpenIn(w) == set e | e in w.queue && e > w.cursor;
    if i > 0 {
      LoadsFront(w, events, s, i - 1);
      var e, f := events[i - 1], s[i - 1];
      assert e in events && f in s;
      NotBefore(events, s, i - 1);
      LoadedAscend(w, events);
      if f in events { NotBefore(s, events, i - 1); }
      assert e == f;
    }
  }

  lemma LoadedAscend(w: World, events: seq<Event>)
    requires Loads(w, w.cursor, events)
    ensures Ascending(events)
  {
    forall i, j | 0 <= i < j < |events| ensures events[i] < events[j] {
      assert events[i] in events && events[j] in events;
    }
  }

  /** A member of an ascending sequence that is not among the first i is at least the next one. */
  lemma NotBefore(events: seq<Event>, s: seq<Event>, i: nat)
    requires Ascending(s) && i < |events| && i < |s| && events[..i] == s[..i]
    requires events[i] in s && Distinct(events)
    ensures s[i] <= events[i]
  {
    forall k | 0 <= k < i ensures s[k] != events[i] {
      assert events[..i][k] == s[..i][k];
    }
  }

  // ---- one run more -------------------------------------------------------------------------

  lemma {:induction false} PathKeeps(ws: seq<World>, steps: seq<Step>, i: nat)
    requires IsPath(ws, steps) && i <= |steps| && Inv(ws[0])
    ensures Inv(ws[i])
  {
    hide Inv, Next;
    if i > 0 {
      PathKeeps(ws, steps, i - 1);
      NextKeeps(ws[i - 1], steps[i - 1], ws[i]);
    }
  }

  lemma LeadsKeeps(w: World, ws: seq<World>, steps: seq<Step>, w': World)
    requires Leads(w, ws, steps, w') && Inv(w)
    ensures Inv(w')
  {
    hide Inv, Next;
    PathKeeps(ws, steps, |steps|);
  }

  /** What one successful run leaves: the front of the order is announced, the rest is still open, and
      the queue is shorter. */
  lemma RunTakesFront(w: World, keyOf: Event -> Key, scanned: nat, enqueued: nat, w': World, s: seq<Event>)
    requires Outcome(w, keyOf, true, scanned, enqueued, w') && Sorts(OpenIn(w), s)
    ensures FitsRun(w, keyOf, s[..NextBatch(s)])
    ensures Sorts(OpenIn(w'), s[NextBatch(s)..]) && w'.updatedAt > 0
    ensures forall d :: d in w'.outbox.rows <==> d in w.outbox.rows || IsDue(w, s[..NextBatch(s)], d)
    ensures w.queue != {} ==> w'.queue < w.queue
  {
    hide FitsRun, DueCount, IsDue;
    var events :| Loads(w, w.cursor, events) && OutcomeOf(w, keyOf, events, true, scanned, enqueued, w');
    LoadsFront(w, events, s, |events|);
    var n := NextBatch(s);
    assert events == s[..n];
    SplitAt(s, n);
    if n == 0 {
      assert s == [] && OpenIn(w) == {};
      assert forall e | e in w.queue :: e <= w.cursor;
    } else {
      assert events[n - 1] == s[n - 1] && s[n - 1] in OpenIn(w);
    }
    forall e ensures e in s[n..] <==> e in OpenIn(w') {
      assert e in s <==> e in OpenIn(w);
    }
  }

  lemma SplitAt(s: seq<Event>, n: nat)
    requires Ascending(s) && n <= |s|
    ensures Ascending(s[n..]) && (forall e | e in s :: e in s[..n] || e in s[n..])
    ensures forall e | e in s[n..] :: e in s
    ensures n > 0 ==> (forall e | e in s[..n] :: e <= s[n - 1]) && (forall e | e in s[n..] :: s[n - 1] < e)
  {
    assert s == s[..n] + s[n..];
  }

  lemma RunFails(w: World, keyOf: Event -> Key, scanned: nat, enqueued: nat, w': World, s: seq<Event>)
    requires Outcome(w, keyOf, false, scanned, enqueued, w') && Sorts(OpenIn(w), s)
    ensures w' == w && s != [] && !FitsRun(w, keyOf, s[..NextBatch(s)])
  {
    hide FitsRun, Loads;
    var events :| Loads(w, w.cursor, events) && OutcomeOf(w, keyOf, events, false, scanned, enqueued, w');
    LoadsFront(w, events, s, |events|);
    assert events == s[..NextBatch(s)];
  }

  /** A run succeeds exactly when the front of the order matches at most two thousand rules; failing
      changes nothing, so as long as nothing else does, every further run fails too. */
  lemma RunSucceedsIff(w: World, keyOf: Event -> Key, ok: bool, scanned: nat, enqueued: nat, w': World, s: seq<Event>)
    requires Outcome(w, keyOf, ok, scanned, enqueued, w') && Sorts(OpenIn(w), s)
    ensures ok <==> FitsRun(w, keyOf, s[..NextBatch(s)])
    ensures !ok ==> w' == w
  {
    hide FitsRun, Outcome, Sorts;
    if ok { RunTakesFront(w, keyOf, scanned, enqueued, w', s); } else { RunFails(w, keyOf, scanned, enqueued, w', s); }
  }

  lemma DueOnward(w: World, w': World, passed: seq<Event>, batch: seq<Event>, d: Delivery)
    requires SameRules(w, w')
    ensures IsDue(w, passed, d) || IsDue(w', batch, d) <==> IsDue(w, passed + batch, d)
  {
    assert Matching(w', d.event) == Matching(w, d.event);
  }

  // ---- draining -----------------------------------------------------------------------------

  /** How far discovery has got with the events that were open in `start`. */
  ghost predicate Drained(start: World, w: World, passed: seq<Event>, rest: seq<Event>) {
    && Sorts(OpenIn(start), passed + rest) && Sorts(OpenIn(w), rest)
    && SameRules(start, w) && w.updatedAt > 0
    && forall d :: d in w.outbox.rows <==> d in start.outbox.rows || IsDue(start, passed, d)
  }

  lemma DrainedOnward(start: World, keyOf: Event -> Key, w: World, passed: seq<Event>, rest: seq<Event>,
                      scanned: nat, enqueued: nat, w': World)
    requires Drained(start, w, passed, rest) && SameRules(w, w')
    requires Outcome(w, keyOf, true, scanned, enqueued, w')
    ensures var n := NextBatch(rest);
      && Drained(start, w', passed + rest[..n], rest[n..])
      && (AllFit(start, keyOf, rest) <==> AllFit(start, keyOf, rest[n..]))
  {
    hide IsDue, FitsRun, Outcome, Sorts;
    var n := NextBatch(rest);
    RunTakesFront(w, keyOf, scanned, enqueued, w', rest);
    MovingKeepsRules(start, w, keyOf, rest[..n]);
    assert passed + rest[..n] + rest[n..] == passed + rest;
    forall d ensures d in w'.outbox.rows <==> d in start.outbox.rows || IsDue(start, passed + rest[..n], d) {
      DueOnward(start, w, passed, rest[..n], d);
    }
  }

  /** Runs until the queue is empty or a run fails.  Then everything that was open is announced, or
      discovery stands before a batch that matches more than two thousand rules, which every further
      run will fail on as well; the first happens exactly when no hundred of the open events match
      so many. */
  method DrainQueue(worker: Worker, run: RunId, now: nat)
    returns (drained: bool, ghost passed: seq<Event>, ghost rest: seq<Event>)
    requires Inv(worker.db) && run !in worker.db.runs && now > 0 && RulesByKey(worker.db, worker.keyOf)
    requires worker.db.updatedAt > 0
    modifies worker
    ensures Inv(worker.db) && worker.db.runs == old(worker.db).runs
    ensures Drained(old(worker.db), worker.db, passed, rest)
    ensures drained ==> worker.db.queue == {} && rest == []
    ensures !drained ==> rest != [] && !FitsRun(worker.db, worker.keyOf, rest[..NextBatch(rest)])
    ensures drained <==> AllFit(old(worker.db), worker.keyOf, passed + rest)
    ensures N.OnlyAdds(old(worker.db).outbox, worker.db.outbox, now)
  {
    hide Inv, Leads, Outcome, RulesByKey, FitsRun, Drained, N.OnlyAdds;
    NoneAdded(worker.db.outbox, now);
    ghost var start := worker.db;
    rest := Sort(OpenIn(start));
    passed := [];
    assert passed + rest == rest;
    NothingDrained(start, rest);
    var failed := false;
    while !failed && worker.db.queue != {}
      invariant Inv(worker.db) && worker.db.runs == start.runs && worker.db.updatedAt > 0
      invariant SameRules(start, worker.db)
      invariant Drained(start, worker.db, passed, rest) && N.OnlyAdds(start.outbox, worker.db.outbox, now)
      invariant AllFit(start, worker.keyOf, passed + rest) <==> AllFit(start, worker.keyOf, rest)
      invariant failed ==> rest != [] && !FitsRun(worker.db, worker.keyOf, rest[..NextBatch(rest)])
      decreases !failed, worker.db.queue
    {
      ghost var before := worker.db;
      MovingKeepsRules(start, before, worker.keyOf, []);
      DrainedSorts(start, before, passed, rest);
      var ok, scanned, enqueued, bootstrapped;
      ghost var ws, steps;
      ok, scanned, enqueued, bootstrapped, ws, steps := Discover(worker, run, now);
      LeadsKeeps(before, ws, steps, worker.db);
      N.OnlyAddsThrough(start.outbox, before.outbox, worker.db.outbox, now);
      failed := !ok;
      if ok {
        DrainedOnward(start, worker.keyOf, before, passed, rest, scanned, enqueued, worker.db);
        RunTakesFront(before, worker.keyOf, scanned, enqueued, worker.db, rest);
        assert passed + rest[..NextBatch(rest)] + rest[NextBatch(rest)..] == passed + rest;
        passed, rest := passed + rest[..NextBatch(rest)], rest[NextBatch(rest)..];
      } else {
        RunFails(before, worker.keyOf, scanned, enqueued, worker.db, rest);
      }
    }
    drained := !failed;
    DrainedSorts(start, worker.db, passed, rest);
    if failed { MovingKeepsRules(start, worker.db, worker.keyOf, rest[..NextBatch(rest)]); }
  }

  lemma NothingDrained(w: World, rest: seq<Event>)
    requires Sorts(OpenIn(w), rest) && w.updatedAt > 0
    ensures Drained(w, w, [], rest)
  {
    assert [] + rest == rest;
  }

  lemma DrainedSorts(start: World, w: World, passed: seq<Event>, rest: seq<Event>)
    requires Drained(start, w, passed, rest)
    ensures Sorts(OpenIn(w), rest) && SameRules(start, w)
    ensures w.queue == {} ==> rest == []
  {
    if rest != [] { assert rest[0] in rest; }
  }
}
