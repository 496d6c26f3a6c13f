/** The agent's durable spool: the tables behind `Spool`'s SQLite connection and what each
    statement or transaction does to them.

    Operations are functions or two-state relations on `Database`; a relation is used where SQL
    leaves a choice open (rows of equal rank, LIMIT without an order).  Times are milliseconds
    since 1970 and never negative. */
module SpoolModel {
  import opened Options
  import opened Sql

  const MINUTE: nat := 60_000
  const MAX_REPORT_SAMPLES: nat := 60
  const MAX_PROBES: nat := 512
  const MAX_COMMAND_RESULTS: nat := 16
  const STALE_MINUTE_LIMIT: nat := 256
  const MAX_SEQUENCE: nat := 9_007_199_254_740_991
  const QUARANTINE_REDRIVE_MS: nat := 3_600_000
  const MAX_DELIVERY_ATTEMPTS: nat := 8
  const REDRIVE_BATCH: nat := 64
  const I64_MAX: nat := 0x7FFF_FFFF_FFFF_FFFF

  type ReportId = nat
  type SampleId = nat
  type CommandId = nat
  type ProbeId = nat
  type Bytes = seq<bv8>

  datatype Sample = Sample(observedAt: nat, payload: Bytes)

  /** The plaintext report; the stored blob is its compressed encoding. */
  datatype Report = Report(
    id: ReportId,
    machinePk: nat,
    workspacePk: nat,
    minute: nat,
    samples: seq<Sample>,
    probes: seq<ProbeId>,
    commandResults: seq<CommandId>)

  datatype DeliveryState = Pending | Quarantined
  datatype ErrorCode = NoError | UploadFailed | LocalConfig | ServerRejectedPayload | PayloadTooLarge

  datatype Delivery = Delivery(
    minute: nat,
    payload: Report,
    nextAttemptAt: nat,
    attempts: nat,
    state: DeliveryState,
    lastError: ErrorCode)

  datatype SampleLink = SampleLink(report: ReportId, sample: SampleId)
  datatype CommandLink = CommandLink(report: ReportId, command: CommandId)
  datatype CommandState = CommandPending | CommandRunning | CommandCompleted
  datatype Probe = Probe(minute: nat, observedAt: nat)

  /** A sample deleted by an acknowledgement, and the report of its delivery. */
  datatype Gone = Gone(sample: Sample, report: Report)

  /** Where samples went; no operation reads it.  `reported` are the acknowledged samples that were
      in the payload, `parked` those that were not; `unrecorded` counts the dropped samples missing
      in `data_gaps`. */
  datatype Ledger = Ledger(
    appended: nat,
    reported: map<SampleId, Gone>,
    parked: map<SampleId, Gone>,
    compacted: nat,
    dropped: nat,
    unrecorded: nat)

  datatype Database = Database(
    samples: map<SampleId, Sample>,
    nextSampleId: nat,
    deliveries: map<ReportId, Delivery>,
    links: set<SampleLink>,
    commands: map<CommandId, CommandState>,
    results: map<CommandId, nat>,
    resultLinks: set<CommandLink>,
    probes: map<ProbeId, Probe>,
    sequence: nat,
    gaps: map<nat, nat>,
    ledger: Ledger)

  function SaturatingAdd(a: nat, b: nat): nat {
    if a + b > I64_MAX then I64_MAX else a + b
  }

  /** Adding stops at the largest 64-bit number. */
  lemma SaturatingAddIs(a: nat, b: nat)
    ensures SaturatingAdd(a, b) == if a + b < 0x8000_0000_0000_0000 then a + b else 0x7FFF_FFFF_FFFF_FFFF
  {
  }

  function FloorMinute(t: nat): nat { t / MINUTE * MINUTE }

  // ---- queries ------------------------------------------------------------------------------

  function Owned(db: Database): set<SampleId> { set l | l in db.links :: l.sample }

  /** Samples without a row in `delivery_samples`. */
  function Unassigned(db: Database): set<SampleId> { db.samples.Keys - Owned(db) }

  function MinuteOf(db: Database, id: SampleId): nat
    requires id in db.samples
  {
    FloorMinute(db.samples[id].observedAt)
  }

  function UnassignedBefore(db: Database, t: nat): set<SampleId> {
    set id | id in Unassigned(db) && db.samples[id].observedAt < t
  }

  function UnassignedIn(db: Database, minute: nat): set<SampleId> {
    set id | id in Unassigned(db) && minute <= db.samples[id].observedAt < minute + MINUTE
  }

  function OwnedBy(db: Database, r: ReportId): set<SampleId> {
    set l | l in db.links && l.report == r :: l.sample
  }

  function ResultsOf(db: Database, r: ReportId): set<CommandId> {
    set l | l in db.resultLinks && l.report == r :: l.command
  }

  function UnassignedResults(db: Database): set<CommandId> {
    db.results.Keys - (set l | l in db.resultLinks :: l.command)
  }

  predicate HasDelivery(db: Database, minute: nat) {
    exists r | r in db.deliveries :: db.deliveries[r].minute == minute
  }

  function SampleRank(db: Database): map<SampleId, Rank> {
    map id | id in db.samples :: (db.samples[id].observedAt, 0)
  }

  function ResultRank(db: Database): map<CommandId, Rank> {
    map c | c in db.results :: (db.results[c], 0)
  }

  function ProbesUpTo(db: Database, minute: nat): set<ProbeId> {
    set p | p in db.probes && db.probes[p].minute <= minute
  }

  function ProbeRank(db: Database): map<ProbeId, Rank> {
    map p | p in db.probes :: (db.probes[p].minute, db.probes[p].observedAt)
  }

  function DeliveryRank(db: Database): map<ReportId, Rank> {
    map r | r in db.deliveries :: (db.deliveries[r].minute, 0)
  }

  // ---- samples, probes and commands coming in -----------------------------------------------

  predicate BucketTaken(db: Database, observedAt: nat) {
    exists id | id in db.samples :: db.samples[id].observedAt == observedAt
  }

  /** A new row; identifiers are never reused. */
  function InsertSample(db: Database, sample: Sample): Database {
    db.(samples := db.samples[db.nextSampleId := sample],
        nextSampleId := db.nextSampleId + 1,
        ledger := db.ledger.(appended := db.ledger.appended + 1))
  }

  /** INSERT OR IGNORE: `sample_bucket` is unique. */
  function AppendSample(db: Database, sample: Sample): (Database, bool) {
    if BucketTaken(db, sample.observedAt) then (db, false) else (InsertSample(db, sample), true)
  }

  function AppendProbe(db: Database, id: ProbeId, probe: Probe): Database {
    if id in db.probes then db else db.(probes := db.probes[id := probe])
  }

  function AcceptCommand(db: Database, id: CommandId): Database {
    if id in db.commands then db else db.(commands := db.commands[id := CommandPending])
  }

  const MAX_OFFERS: nat := 8

  /** A command of an acknowledgement, and whether it is well formed and still good. */
  datatype Offer = Offer(id: CommandId, valid: bool)

  predicate Acceptable(offers: seq<Offer>) {
    |offers| <= MAX_OFFERS && forall o | o in offers :: o.valid
  }

  function AcceptAll(db: Database, offers: seq<Offer>): Database {
    if offers == [] then db else AcceptCommand(AcceptAll(db, offers[..|offers| - 1]), offers[|offers| - 1].id)
  }

  /** `mark_command_attempt`; None when the command is no longer pending. */
  function StartCommand(db: Database, id: CommandId): Option<Database> {
    if id in db.commands && db.commands[id] != CommandCompleted
    then Some(db.(commands := db.commands[id := CommandRunning]))
    else None
  }

  /** One transaction; None when the command is not pending. */
  function CompleteCommand(db: Database, id: CommandId, completedAt: nat): Option<Database> {
    if id in db.commands && db.commands[id] != CommandCompleted
    then Some(db.(commands := db.commands[id := CommandCompleted], results := db.results[id := completedAt]))
    else None
  }

  // ---- building the next delivery -----------------------------------------------------------

  /** Parks every unassigned sample of one minute on the delivery `r`. */
  function Park(db: Database, minute: nat, r: ReportId): Database {
    db.(links := db.links + (set id | id in UnassignedIn(db, minute) :: SampleLink(r, id)))
  }

  /** Parks every unassigned sample of the minutes before `bound` on the delivery of its
      minute. */
  function ParkBefore(db: Database, bound: nat): Database {
    db.(links := db.links
          + (set id, r | id in Unassigned(db) && r in db.deliveries
                         && db.deliveries[r].minute == MinuteOf(db, id) < bound :: SampleLink(r, id)))
  }

  /** The minutes before `bound` that still have unassigned samples. */
  function OpenMinutes(db: Database, bound: nat): set<nat> {
    set id | id in Unassigned(db) && MinuteOf(db, id) < bound :: MinuteOf(db, id)
  }

  ghost predicate AllHaveDelivery(db: Database, bound: nat) {
    forall m | m in OpenMinutes(db, bound) :: HasDelivery(db, m)
  }

  /** The final transaction of `create_next_delivery`. */
  function InsertDelivery(db: Database, report: Report, ids: seq<SampleId>, now: nat): Database {
    db.(deliveries := db.deliveries[report.id := Delivery(report.minute, report, now, 0, Pending, NoError)],
        links := db.links + (set id | id in ids :: SampleLink(report.id, id)),
        probes := (map p | p in db.probes && p !in report.probes :: db.probes[p]),
        resultLinks := db.resultLinks + (set c | c in report.commandResults :: CommandLink(report.id, c)))
  }

  /** What a report for `minute` contains: the oldest unassigned samples of the minute, the
      oldest stored probe results up to it and the oldest command results not yet in a report. */
  ghost predicate BuildsReport(db: Database, report: Report, ids: seq<SampleId>, minute: nat) {
    && report.minute == minute
    && FirstByRank(UnassignedIn(db, minute), SampleRank(db), MAX_REPORT_SAMPLES, ids)
    && |report.samples| == |ids|
    && (forall k | 0 <= k < |ids| :: report.samples[k] == db.samples[ids[k]])
    && FirstByRank(ProbesUpTo(db, minute), ProbeRank(db), MAX_PROBES, report.probes)
    && FirstByRank(UnassignedResults(db), ResultRank(db), MAX_COMMAND_RESULTS, report.commandResults)
  }

  /** `create_next_delivery` returning a report: every earlier minute with unassigned samples had
      a delivery and its samples are parked there; `report.minute` is the earliest closed minute
      that had none. */
  ghost predicate CreatesDelivery(db: Database, db': Database, report: Report, ids: seq<SampleId>, now: nat) {
    var minute := report.minute;
    var parked := ParkBefore(db, minute);
    && minute < FloorMinute(now)
    && minute in OpenMinutes(db, FloorMinute(now))
    && !HasDelivery(db, minute)
    && AllHaveDelivery(db, minute)
    && |OpenMinutes(db, minute)| < STALE_MINUTE_LIMIT
    && BuildsReport(parked, report, ids, minute)
    && db' == InsertDelivery(parked, report, ids, now)
  }

  /** `create_next_delivery` returning nothing: all minutes before `bound` are parked, and
      either no unassigned sample of a closed minute is left or 256 minutes were parked. */
  ghost predicate CreatesNothing(db: Database, db': Database, now: nat, bound: nat) {
    && bound <= FloorMinute(now)
    && AllHaveDelivery(db, bound)
    && db' == ParkBefore(db, bound)
    && |OpenMinutes(db, bound)| <= STALE_MINUTE_LIMIT
    && (|OpenMinutes(db, bound)| < STALE_MINUTE_LIMIT ==> bound == FloorMinute(now))
  }

  // ---- the life of a delivery ---------------------------------------------------------------

  predicate IsPending(db: Database, r: ReportId) {
    r in db.deliveries && db.deliveries[r].state == Pending
  }

  ghost predicate Due(db: Database, r: ReportId, now: nat) {
    IsPending(db, r) && db.deliveries[r].nextAttemptAt <= now
  }

  /** `due_delivery`: the due delivery of the earliest minute. */
  ghost predicate SelectsDue(db: Database, now: nat, chosen: Option<ReportId>) {
    match chosen
    case None => forall r | r in db.deliveries :: !Due(db, r, now)
    case Some(r) =>
      && Due(db, r, now)
      && forall other | other in db.deliveries && Due(db, other, now) ::
           db.deliveries[r].minute <= db.deliveries[other].minute
  }

  datatype Attempt = Begun(db: Database, sequence: nat) | SequenceExhausted | NotPending

  /** `begin_delivery_attempt`: reserves the next number and records the attempt in one
      transaction; a failure rolls both back. */
  function BeginAttempt(db: Database, r: ReportId, nextAttemptAt: nat): Attempt {
    if db.sequence + 1 > MAX_SEQUENCE then SequenceExhausted
    else if !IsPending(db, r) then NotPending
    else Begun(RecordAttempt(db.(sequence := db.sequence + 1), r, nextAttemptAt), db.sequence + 1)
  }

  function RecordAttempt(db: Database, r: ReportId, nextAttemptAt: nat): Database
    requires r in db.deliveries
  {
    var d := db.deliveries[r];
    db.(deliveries := db.deliveries[r := d.(attempts := d.attempts + 1, nextAttemptAt := nextAttemptAt, lastError := NoError)])
  }

  /** None when the statement changes no row: the source then fails. */
  function Reschedule(db: Database, r: ReportId, nextAttemptAt: nat, error: ErrorCode): Option<Database> {
    if !IsPending(db, r) then None
    else Some(db.(deliveries := db.deliveries[r := db.deliveries[r].(nextAttemptAt := nextAttemptAt, lastError := error)]))
  }

  function Quarantine(db: Database, r: ReportId, error: ErrorCode, now: nat): Option<Database> {
    if !IsPending(db, r) then None
    else Some(db.(deliveries := db.deliveries[r := db.deliveries[r].(
        state := Quarantined, lastError := error,
        nextAttemptAt := SaturatingAdd(now, QUARANTINE_REDRIVE_MS))]))
  }

  function Redrivable(db: Database, now: nat): set<ReportId> {
    set r | r in db.deliveries
         && db.deliveries[r].state == Quarantined && db.deliveries[r].nextAttemptAt <= now
         && db.deliveries[r].attempts < MAX_DELIVERY_ATTEMPTS && db.deliveries[r].lastError != PayloadTooLarge
  }

  function SetPending(db: Database, chosen: seq<ReportId>): Database {
    db.(deliveries := map r | r in db.deliveries ::
          if r in chosen then db.deliveries[r].(state := Pending) else db.deliveries[r])
  }

  ghost predicate Redrives(db: Database, db': Database, now: nat, chosen: seq<ReportId>) {
    && FirstByRank(Redrivable(db, now), DeliveryRank(db), REDRIVE_BATCH, chosen)
    && db' == SetPending(db, chosen)
  }

  function Sleeping(db: Database, retryAt: nat): set<ReportId> {
    set r | IsPending(db, r) && r in db.deliveries && db.deliveries[r].nextAttemptAt > retryAt
  }

  function SetNextAttempt(db: Database, chosen: seq<ReportId>, retryAt: nat): Database {
    db.(deliveries := map r | r in db.deliveries ::
          if r in chosen then db.deliveries[r].(nextAttemptAt := retryAt) else db.deliveries[r])
  }

  ghost predicate Wakes(db: Database, db': Database, retryAt: nat, limit: nat, chosen: seq<ReportId>) {
    && FirstByRank(Sleeping(db, retryAt), DeliveryRank(db), limit, chosen)
    && db' == SetNextAttempt(db, chosen, retryAt)
  }

  /** The sample's content is among the samples of the delivery's report. */
  predicate InPayload(db: Database, r: ReportId, id: SampleId) {
    r in db.deliveries && id in db.samples && db.samples[id] in db.deliveries[r].payload.samples
  }

  /** The samples that go with a delivery, in its payload or not. */
  function TakenAlong(db: Database, r: ReportId, inPayload: bool): map<SampleId, Gone> {
    map id | id in OwnedBy(db, r) && id in db.samples && r in db.deliveries && InPayload(db, r, id) == inPayload ::
      Gone(db.samples[id], db.deliveries[r].payload)
  }

  function Settled(db: Database, r: ReportId): Ledger {
    db.ledger.(reported := db.ledger.reported + TakenAlong(db, r, true),
               parked := db.ledger.parked + TakenAlong(db, r, false))
  }

  /** `acknowledge` when no foreign key stands in the way: the delivery goes, with every sample
      and command result it owns. */
  function Acknowledge(db: Database, r: ReportId): Database {
    db.(deliveries := db.deliveries - {r},
        links := (set l | l in db.links && l.report != r),
        resultLinks := (set l | l in db.resultLinks && l.report != r),
        samples := db.samples - OwnedBy(db, r),
        results := db.results - ResultsOf(db, r),
        commands := (map c | c in db.commands && !(c in ResultsOf(db, r) && db.commands[c] == CommandCompleted)
                       :: db.commands[c]),
        ledger := Settled(db, r))
  }

  /** `reconcile_sequence_checkpoint`; None is the error for a number above the limit. */
  function Reconcile(db: Database, checkpoint: nat): Option<Database> {
    if checkpoint > MAX_SEQUENCE then None
    else if db.sequence < checkpoint then Some(db.(sequence := checkpoint))
    else if db.sequence > MAX_SEQUENCE then None
    else Some(db)
  }
}
