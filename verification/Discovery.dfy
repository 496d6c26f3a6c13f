/** Discovery of notification events: any number of overlapping runs of
    `discoverNotificationEvents` over one cursor, one queue and one outbox.  A run can die between
    any two statements, and rules, channels and resources change while it works. */
module Discovery {
  import opened Options
  import opened Sql
  import N = NotificationOutbox

  const EVENT_LIMIT: nat := 100
  const INSERT_BATCH: nat := 50

  /** The place of an event in the queue; AUTOINCREMENT never reuses one. */
  type Event = nat
  type Channel = nat
  type RunId = nat

  datatype Delivery = Delivery(channel: Channel, event: Event)

  /** Where a run stands, with what it has read so far. */
  datatype Run =
    | Started
    | SawUnset
    | ReadNewest(newest: Event)
    | LostBootstrap
    | HasCursor(cursor: Event)
    | HasEvents(events: seq<Event>)
    | HasResources(events: seq<Event>, resolved: set<Event>)
    | Inserting(events: seq<Event>, rest: seq<Delivery>)
    | Cleaning(upTo: Event)

  /** `rules` has the enabled rules with enabled channels of each event's resource and dimension,
      `resolvable` the events whose resource still exists.  `always` and `ever` remember for every
      event which channels matched at all times and at some time since it was queued. */
  datatype World = World(
    events: set<Event>,
    queue: set<Event>,
    nextEvent: Event,
    cursor: Event,
    updatedAt: nat,
    boundary: Event,
    resolvable: set<Event>,
    rules: map<Event, set<Channel>>,
    outbox: N.Outbox<Delivery>,
    runs: map<RunId, Run>,
    always: map<Event, set<Channel>>,
    ever: map<Event, set<Channel>>)

  function Rules(w: World, e: Event): set<Channel> {
    if e in w.rules then w.rules[e] else {}
  }

  function Matching(w: World, e: Event): set<Channel> {
    if e in w.resolvable then Rules(w, e) else {}
  }

  // ---- statements ---------------------------------------------------------------------------

  function EventRank(queue: set<Event>): map<Event, Rank> {
    map e | e in queue :: (e, 0)
  }

  /** `newestSequence`. */
  ghost predicate IsNewest(queue: set<Event>, newest: Event) {
    if queue == {} then newest == 0 else newest in queue && forall e | e in queue :: e <= newest
  }

  /** `loadEvents`: the first hundred above the cursor.  A queue row goes with its event, so the
      join loses nothing. */
  ghost predicate Loads(w: World, cursor: Event, events: seq<Event>) {
    FirstByRank((set e | e in w.queue && e > cursor), EventRank(w.queue), EVENT_LIMIT, events)
  }

  function UpdateCursor(w: World, sequence: Event, now: nat): World {
    if w.cursor <= sequence then w.(cursor := sequence, updatedAt := now) else w
  }

  /** `cleanConsumedEvents`. */
  ghost predicate Cleans(w: World, w': World, upTo: Event, gone: seq<Event>) {
    && FirstByRank((set e | e in w.queue && e <= upTo), EventRank(w.queue), EVENT_LIMIT, gone)
    && w' == w.(queue := w.queue - Elements(gone))
  }

  function InsertAll(box: N.Outbox<Delivery>, batch: seq<Delivery>, now: nat): N.Outbox<Delivery> {
    if batch == [] then box else N.Insert(InsertAll(box, batch[..|batch| - 1], now), batch[|batch| - 1], now)
  }

  /** `prepareDeliveries`: one delivery for each event with a resource and each of its rules.
      A simplification: the source resolves machines and services by two queries and reads rules
      by a query for every 24 keys, and a change can fall between them; here all resources are read
      at one moment and all rules at one other. */
  ghost predicate Prepares(w: World, events: seq<Event>, resolved: set<Event>, rest: seq<Delivery>) {
    forall d :: d in rest <==> d.event in events && d.event in resolved && d.channel in Rules(w, d.event)
  }

  function BatchSize(rest: seq<Delivery>): (n: nat)
    ensures n <= |rest| && n <= 50 && (n < 50 ==> n == |rest|)
  {
    if |rest| < INSERT_BATCH then |rest| else INSERT_BATCH
  }

  // ---- steps --------------------------------------------------------------------------------

  datatype Step =
    | EventOccurs(resolves: bool, channels: set<Channel>)
    | EventExpires(event: Event)
    | RulesChange(resolvable: set<Event>, rules: map<Event, set<Channel>>)
    | OutboxWorks(step: N.Step<Delivery>)
    | RunStarts(run: RunId)
    | RunAdvances(run: RunId, now: nat, gone: seq<Event>)
    | RunDies(run: RunId)

  /** A state event is stored and its trigger queues it. */
  function Occur(w: World, resolves: bool, channels: set<Channel>): World {
    var e := w.nextEvent;
    var matching := if resolves then channels else {};
    w.(events := w.events + {e}, queue := w.queue + {e}, nextEvent := e + 1,
       resolvable := if resolves then w.resolvable + {e} else w.resolvable - {e},
       rules := w.rules[e := channels],
       always := w.always[e := matching], ever := w.ever[e := channels])
  }

  function ChangeRules(w: World, resolvable: set<Event>, rules: map<Event, set<Channel>>): World {
    var changed := w.(resolvable := resolvable, rules := rules);
    changed.(always := (map e | e in w.always :: w.always[e] * Matching(changed, e)),
             ever := (map e | e in w.ever :: w.ever[e] + Rules(changed, e)))
  }

  function At(w: World, run: RunId, at: Run): World { w.(runs := w.runs[run := at]) }

  function End(w: World, run: RunId): World { w.(runs := w.runs - {run}) }

  /** One statement of a run. */
  ghost predicate Advances(w: World, run: RunId, now: nat, gone: seq<Event>, w': World) {
    && run in w.runs && now > 0
    && match w.runs[run]
       case Started => w' == At(w, run, if w.updatedAt == 0 then SawUnset else HasCursor(w.cursor))
       case SawUnset => run in w'.runs && w'.runs[run].ReadNewest? && IsNewest(w.queue, w'.runs[run].newest)
                        && w' == At(w, run, w'.runs[run])
       case ReadNewest(newest) =>
         w' == if w.updatedAt == 0 then At(w.(cursor := newest, updatedAt := now, boundary := newest), run, Cleaning(newest))
               else At(w, run, LostBootstrap)
       case LostBootstrap => w' == At(w, run, HasCursor(w.cursor))
       case HasCursor(cursor) =>
         && run in w'.runs
         && (match w'.runs[run]
             case HasEvents(events) => events != [] && Loads(w, cursor, events) && w' == At(w, run, HasEvents(events))
             case Cleaning(upTo) => Loads(w, cursor, []) && upTo == cursor && w' == At(w, run, Cleaning(upTo))
             case _ => false)
       case HasEvents(events) => w' == At(w, run, HasResources(events, (set e | e in events && e in w.resolvable)))
       case HasResources(events, resolved) =>
         && run in w'.runs && w'.runs[run].Inserting? && w'.runs[run].events == events
         && Prepares(w, events, resolved, w'.runs[run].rest) && w' == At(w, run, w'.runs[run])
       case Inserting(events, rest) =>
         if rest == [] then
           events != [] && w' == At(UpdateCursor(w, events[|events| - 1], now), run, Cleaning(events[|events| - 1]))
         else
           w' == At(w.(outbox := InsertAll(w.outbox, rest[..BatchSize(rest)], now)), run,
                    Inserting(events, rest[BatchSize(rest)..]))
       case Cleaning(upTo) => run !in w'.runs && Cleans(w, w'.(runs := w.runs), upTo, gone) && w'.runs == w.runs - {run}
  }

  ghost predicate Next(w: World, step: Step, w': World) {
    match step
    case EventOccurs(resolves, channels) => w' == Occur(w, resolves, channels)
    case EventExpires(event) => w' == w.(events := w.events - {event}, queue := w.queue - {event})
    case RulesChange(resolvable, rules) => w' == ChangeRules(w, resolvable, rules)
    case OutboxWorks(boxStep) =>
      !boxStep.Inserts? && N.Next(w.outbox, boxStep, w'.outbox) && w' == w.(outbox := w'.outbox)
    case RunStarts(run) => run !in w.runs && w' == At(w, run, Started)
    case RunAdvances(run, now, gone) => Advances(w, run, now, gone, w')
    case RunDies(run) => w' == End(w, run)
  }

  ghost predicate Init(w: World) {
    w == World({}, {}, 1, 0, 0, 0, {}, map[], N.Outbox(map[], 0, {}, []), map[], map[], map[])
  }

  ghost predicate IsRun(ws: seq<World>, steps: seq<Step>) {
    && |ws| == |steps| + 1 && Init(ws[0])
    && forall i | 0 <= i < |steps| :: Next(ws[i], steps[i], ws[i + 1])
  }

  // ---- invariant ----------------------------------------------------------------------------

  ghost predicate QueueOk(w: World) {
    && w.queue <= w.events
    && (forall e | e in w.events :: e in w.always && e in w.ever)
    && (forall e | e in w.always :: e < w.nextEvent)
    && (forall e | e in w.ever :: e < w.nextEvent)
    && w.boundary <= w.cursor < w.nextEvent
    && (w.updatedAt == 0 ==> w.cursor == 0)
    && (forall e | e in w.events && e > w.cursor :: e in w.queue)
  }

  ghost predicate MatchingOk(w: World) {
    && (forall e | e in w.always :: w.always[e] <= Matching(w, e))
    && (forall e | e in w.ever :: Rules(w, e) <= w.ever[e])
  }

  ghost predicate Ascending(events: seq<Event>) {
    forall i, j | 0 <= i < j < |events| :: events[i] < events[j]
  }

  /** A batch holds every event above the cursor up to its last one. */
  ghost predicate BatchOk(w: World, events: seq<Event>) {
    && events != [] && w.updatedAt > 0 && Ascending(events)
    && (forall e | e in events :: w.boundary < e < w.nextEvent && e in w.ever)
    && (forall e | e in w.events && w.cursor < e <= events[|events| - 1] :: e in events)
  }

  ghost predicate RunOk(w: World, run: Run) {
    match run
    case ReadNewest(newest) => newest < w.nextEvent
    case HasCursor(cursor) => w.updatedAt > 0 && w.boundary <= cursor <= w.cursor
    case LostBootstrap => w.updatedAt > 0
    case HasEvents(events) => BatchOk(w, events)
    case HasResources(events, resolved) =>
      BatchOk(w, events) && forall e | e in events && e in w.always && w.always[e] != {} :: e in resolved
    case Inserting(events, rest) =>
      && BatchOk(w, events)
      && (forall d | d in rest :: d.event in events && d.event in w.ever && d.channel in w.ever[d.event])
      && (forall d: Delivery | d.event in events && d.event in w.always && d.channel in w.always[d.event] ::
            d in rest || d in w.outbox.rows)
    case Cleaning(upTo) => upTo <= w.cursor
    case _ => true
  }

  /** Every event the cursor has passed has its rows, and no row is without a reason. */
  ghost predicate DeliveriesOk(w: World) {
    && (forall d: Delivery | d.event in w.events && w.boundary < d.event <= w.cursor
          && d.event in w.always && d.channel in w.always[d.event] :: d in w.outbox.rows)
    && (w.updatedAt == 0 ==> w.outbox.rows.Keys == {})
    && (forall d | d in w.outbox.rows ::
          d.event > w.boundary && d.event in w.ever && d.channel in w.ever[d.event])
  }

  ghost predicate RunsOk(w: World) {
    forall r | r in w.runs :: RunOk(w, w.runs[r])
  }

  ghost predicate Inv(w: World) {
    QueueOk(w) && MatchingOk(w) && DeliveriesOk(w) && RunsOk(w) && N.Inv(w.outbox)
  }
}
