/** The ingest worker: authenticated envelopes, the replay table and the five-slot block store.

    AES-GCM is ideal: a ciphertext opens only under the key, nonce and associated data it was
    sealed with.  The payload hash and the compression are ideal too: equal hashes mean equal
    reports. */
module Ingest {
  import opened Options
  import opened SpoolModel
  import opened SpoolInvariant
  import opened ReplayWindow

  const BLOCK: nat := 300_000
  const FUTURE_SKEW_MS: nat := 120_000

  type AgentId = nat

  datatype Header = Header(agent: AgentId, epoch: nat, sequence: nat, reportId: ReportId)
  datatype Hash = Hash(of: Report)
  datatype Status = Committed | Duplicate
  datatype DurableAck = DurableAck(reportId: ReportId, hash: Hash, status: Status, rotateTo: Option<nat>)

  datatype Direction = ClientToServer | ServerToClient
  datatype Body = ReportBody(report: Report) | AckBody(ack: DurableAck)

  /** A sealed body, or bytes nobody sealed. */
  datatype Ciphertext =
    | Sealed(direction: Direction, agent: AgentId, epoch: nat, nonce: nat, aad: Header, body: Body)
    | Forged(bytes: Bytes)

  datatype Envelope = Envelope(header: Header, ciphertext: Ciphertext)

  /** Opening under the key and nonce that a header names, with the header as associated data. */
  function Open(direction: Direction, header: Header, c: Ciphertext): Option<Body> {
    if c.Sealed? && c.direction == direction && c.agent == header.agent && c.epoch == header.epoch
       && c.nonce == header.sequence && c.aad == header
    then Some(c.body) else None
  }

  // ---- stored rows --------------------------------------------------------------------------

  datatype Entry = Entry(reportId: ReportId, hash: Hash)

  /** One row of `telemetry_blocks_5m`; an absent slot is a NULL id and hash. */
  datatype Block = Block(workspacePk: nat, slots: map<nat, Entry>)

  datatype BlockKey = BlockKey(machinePk: nat, start: nat)
  datatype KeyId = KeyId(agent: AgentId, epoch: nat)

  /** What an active agent key says about its owner. */
  datatype KeyRow = KeyRow(machinePk: nat, workspacePk: nat)

  datatype Server = Server(
    keys: map<KeyId, KeyRow>,
    replay: map<KeyId, Row>,
    blocks: map<BlockKey, Block>)

  function BlockStart(minute: nat): nat { minute / BLOCK * BLOCK }
  function ReportSlot(minute: nat): nat { (minute - BlockStart(minute)) / MINUTE }

  function KeyOf(report: Report): BlockKey { BlockKey(report.machinePk, BlockStart(report.minute)) }

  /** The entry stored for one minute of one machine. */
  function SlotOf(blocks: map<BlockKey, Block>, machinePk: nat, minute: nat): Option<Entry> {
    var key := BlockKey(machinePk, BlockStart(minute));
    if key in blocks && ReportSlot(minute) in blocks[key].slots
    then Some(blocks[key].slots[ReportSlot(minute)]) else None
  }

  // ---- claim_replay -------------------------------------------------------------------------

  function RowOf(server: Server, key: KeyId): Option<Row> {
    if key in server.replay then Some(server.replay[key]) else None
  }

  /** None when the statement changes no row: the request is then refused. */
  function ClaimNumber(server: Server, key: KeyId, sequence: nat): Option<Server> {
    var o := Claim(RowOf(server, key), sequence);
    if o.changes == 1 && o.row.Some? then Some(server.(replay := server.replay[key := o.row.value])) else None
  }

  // ---- the block store ----------------------------------------------------------------------

  datatype Class = Fresh | Repeated | Conflicting

  /** `classify_slot`: the query also names the workspace. */
  function Classify(blocks: map<BlockKey, Block>, report: Report): Class {
    var key := KeyOf(report);
    if key !in blocks || blocks[key].workspacePk != report.workspacePk then Fresh
    else
      match SlotOf(blocks, report.machinePk, report.minute)
      case None => Fresh
      case Some(e) => if e == Entry(report.id, Hash(report)) then Repeated else Conflicting
  }

  /** The block of the report's workspace already has this very report in its slot. */
  predicate HoldsThis(blocks: map<BlockKey, Block>, report: Report) {
    && KeyOf(report) in blocks && blocks[KeyOf(report)].workspacePk == report.workspacePk
    && SlotOf(blocks, report.machinePk, report.minute) == Some(Entry(report.id, Hash(report)))
  }

  /** ... or another one. */
  predicate HoldsOther(blocks: map<BlockKey, Block>, report: Report) {
    && KeyOf(report) in blocks && blocks[KeyOf(report)].workspacePk == report.workspacePk
    && SlotOf(blocks, report.machinePk, report.minute).Some?
    && SlotOf(blocks, report.machinePk, report.minute) != Some(Entry(report.id, Hash(report)))
  }

  /** `block_statement`: insert the row, or fill the slot of an existing row of the same workspace
      when it is empty or already holds this very report. */
  function WriteBlock(blocks: map<BlockKey, Block>, report: Report): map<BlockKey, Block> {
    var key := KeyOf(report);
    var entry := Entry(report.id, Hash(report));
    if key !in blocks then
      blocks[key := Block(report.workspacePk, map[ReportSlot(report.minute) := entry])]
    else if && blocks[key].workspacePk == report.workspacePk
            && (ReportSlot(report.minute) !in blocks[key].slots || blocks[key].slots[ReportSlot(report.minute)] == entry) then
      blocks[key := blocks[key].(slots := blocks[key].slots[ReportSlot(report.minute) := entry])]
    else
      blocks
  }

  /** Whole minutes are told apart by their block and slot, and the slot is one of five. */
  lemma MinuteFromSlot(minute: nat, other: nat)
    requires minute % MINUTE == 0 && other % MINUTE == 0
    ensures ReportSlot(minute) < 5
    ensures BlockStart(minute) + ReportSlot(minute) * MINUTE == minute
    ensures BlockStart(minute) == BlockStart(other) && ReportSlot(minute) == ReportSlot(other) ==> minute == other
  {
    WholeMinute(minute);
    WholeMinute(other);
  }

  lemma WholeMinute(minute: nat)
    requires minute % MINUTE == 0
    ensures ReportSlot(minute) < 5
    ensures BlockStart(minute) + ReportSlot(minute) * MINUTE == minute
  {
    var m := minute / MINUTE;
    assert minute == m * MINUTE;
    assert BlockStart(minute) == m / 5 * BLOCK;
    assert minute - BlockStart(minute) == (m % 5) * MINUTE;
  }

  /** A write touches nothing but the empty slot of its own minute: an entry once stored is never
      replaced. */
  lemma WritesOnlyItsSlot(blocks: map<BlockKey, Block>, report: Report, machinePk: nat, minute: nat)
    requires report.minute % MINUTE == 0 && minute % MINUTE == 0
    ensures var before := SlotOf(blocks, machinePk, minute);
            var after := SlotOf(WriteBlock(blocks, report), machinePk, minute);
            || after == before
            || (before == None && machinePk == report.machinePk && minute == report.minute
                && after == Some(Entry(report.id, Hash(report))))
  {
    MinuteFromSlot(minute, report.minute);
  }

  /** The samples of a report lie in its minute. */
  predicate TimesFit(report: Report) {
    && report.minute % MINUTE == 0
    && forall i | 0 <= i < |report.samples| :: report.minute <= report.samples[i].observedAt < report.minute + MINUTE
  }

  /** An entry is in the slot of its own report, in a block of the report's workspace. */
  ghost predicate EntriesBelong(blocks: map<BlockKey, Block>) {
    forall b, s | b in blocks && s in blocks[b].slots :: EntryBelongs(blocks[b], b, s)
  }

  ghost predicate EntryBelongs(block: Block, b: BlockKey, s: nat)
    requires s in block.slots
  {
    var report := block.slots[s].hash.of;
    && block.slots[s].reportId == report.id && report.workspacePk == block.workspacePk
    && KeyOf(report) == b && ReportSlot(report.minute) == s && TimesFit(report)
  }

  lemma WriteKeepsEntries(blocks: map<BlockKey, Block>, report: Report)
    requires EntriesBelong(blocks) && TimesFit(report)
    ensures EntriesBelong(WriteBlock(blocks, report))
  {
    hide TimesFit, BlockStart, ReportSlot;
  }

  /** A write after a favourable classification stores the report exactly when the row is new or
      belongs to the report's workspace: in a row of another workspace the statement changes
      nothing, although the report is acknowledged. */
  lemma WriteStores(blocks: map<BlockKey, Block>, report: Report)
    requires EntriesBelong(blocks) && Classify(blocks, report) == Fresh
    ensures var key := KeyOf(report);
      SlotOf(WriteBlock(blocks, report), report.machinePk, report.minute) == Some(Entry(report.id, Hash(report)))
      <==> key !in blocks || blocks[key].workspacePk == report.workspacePk
  {
    var key := KeyOf(report);
    if key in blocks && ReportSlot(report.minute) in blocks[key].slots {
      assert EntryBelongs(blocks[key], key, ReportSlot(report.minute));
    }
  }

  // ---- handle_report ------------------------------------------------------------------------

  /** The parts of `validate_report` about identity, scope, count and times. */
  predicate Validates(report: Report, header: Header, row: KeyRow, now: nat) {
    && report.id == header.reportId
    && report.machinePk == row.machinePk && report.workspacePk == row.workspacePk
    && 1 <= |report.samples| <= MAX_REPORT_SAMPLES
    && report.minute <= now + FUTURE_SKEW_MS
    && TimesFit(report)
  }

  /** The report a request carries, when it authenticates and validates. */
  function CarriedReport(server: Server, envelope: Envelope, now: nat): Option<Report> {
    var key := KeyId(envelope.header.agent, envelope.header.epoch);
    if !(1 <= envelope.header.sequence <= MAX_SEQUENCE) || key !in server.keys then None
    else
      match Open(ClientToServer, envelope.header, envelope.ciphertext)
      case Some(ReportBody(report)) =>
        if Validates(report, envelope.header, server.keys[key], now) then Some(report) else None
      case _ => None
  }

  /** Exactly the requests that a key's own agent sealed over this header, with a number from 1 to
      2^53 - 1 and a report of the key's machine and workspace: of the id the header names, of one to
      sixty samples, all in its minute, and at most two minutes ahead of the clock. */
  lemma CarriedIff(server: Server, envelope: Envelope, now: nat, report: Report)
    ensures CarriedReport(server, envelope, now) == Some(report) <==>
      var h, c := envelope.header, envelope.ciphertext;
      && 1 <= h.sequence <= 9_007_199_254_740_991 && KeyId(h.agent, h.epoch) in server.keys
      && c == Sealed(ClientToServer, h.agent, h.epoch, h.sequence, h, ReportBody(report))
      && report.id == h.reportId && KeyRow(report.machinePk, report.workspacePk) == server.keys[KeyId(h.agent, h.epoch)]
      && 1 <= |report.samples| <= 60 && report.minute <= now + 120_000 && report.minute % 60_000 == 0
      && forall s | s in report.samples :: report.minute <= s.observedAt < report.minute + 60_000
  {
    assert forall s | s in report.samples :: exists i | 0 <= i < |report.samples| :: report.samples[i] == s;
  }

  function AckEnvelope(header: Header, report: Report, status: Status, rotateTo: Option<nat>): Envelope {
    var responseHeader := Header(header.agent, header.epoch, header.sequence, report.id);
    Envelope(responseHeader,
             Sealed(ServerToClient, header.agent, header.epoch, header.sequence, responseHeader,
                    AckBody(DurableAck(report.id, Hash(report), status, rotateTo))))
  }

  /** How far a request gets: refused before anything is written; the number claimed and nothing
      more (a conflict, a failing later statement, a crash); the block written but the answer
      lost; everything done. */
  datatype Progress = Refused | Claimed | Written | Answered

  /** One request.  The rate limits, clock skew, key validity and the other writes of the handler
      can end it at any point; only what concerns replay and blocks is kept. */
  ghost predicate Handles(server: Server, server': Server, envelope: Envelope, now: nat,
                          progress: Progress, rotateTo: Option<nat>, report: Report, answer: Option<Envelope>)
  {
    var key := KeyId(envelope.header.agent, envelope.header.epoch);
    var claimed := ClaimNumber(server, key, envelope.header.sequence);
    if progress == Refused then server' == server && answer == None
    else
      && CarriedReport(server, envelope, now) == Some(report)
      && claimed.Some?
      && (if progress == Claimed then server' == claimed.value && answer == None
          else
            && Classify(claimed.value.blocks, report) != Conflicting
            && server' == AfterWrite(claimed.value, report)
            && answer == if progress == Written then None
                         else Some(AckEnvelope(envelope.header, report, StatusOf(claimed.value, report), rotateTo)))
  }

  /** The answer acknowledges this report with this status. */
  predicate Acknowledges(answer: Option<Envelope>, report: Report, status: Status) {
    && answer.Some? && answer.value.ciphertext.Sealed? && answer.value.ciphertext.direction == ServerToClient
    && answer.value.ciphertext.body.AckBody?
    && answer.value.ciphertext.body.ack.reportId == report.id && answer.value.ciphertext.body.ack.hash == Hash(report)
    && answer.value.ciphertext.body.ack.status == status
  }

  /** Only a report that is not there yet is written. */
  function AfterWrite(server: Server, report: Report): Server {
    if Classify(server.blocks, report) == Repeated then server
    else server.(blocks := WriteBlock(server.blocks, report))
  }

  function StatusOf(server: Server, report: Report): Status {
    if Classify(server.blocks, report) == Repeated then Duplicate else Committed
  }

  // ---- what the server keeps ----------------------------------------------------------------

  /** All keys of a machine name one workspace, and its blocks belong to it: the assumption that
      a machine never changes workspace. */
  ghost predicate ScopesAgree(server: Server) {
    && (forall k, k' | k in server.keys && k' in server.keys && server.keys[k].machinePk == server.keys[k'].machinePk ::
          server.keys[k].workspacePk == server.keys[k'].workspacePk)
    && (forall k, b | k in server.keys && b in server.blocks && server.keys[k].machinePk == b.machinePk ::
          server.blocks[b].workspacePk == server.keys[k].workspacePk)
  }

  ghost predicate Stored(server: Server, report: Report) {
    SlotOf(server.blocks, report.machinePk, report.minute) == Some(Entry(report.id, Hash(report)))
  }

  /** Entries of whole minutes are never lost or replaced. */
  ghost predicate KeepsSlots(server: Server, server': Server) {
    forall machinePk: nat, minute: nat | minute % MINUTE == 0 && SlotOf(server.blocks, machinePk, minute).Some? ::
      SlotOf(server'.blocks, machinePk, minute) == SlotOf(server.blocks, machinePk, minute)
  }

  lemma HandlesKeepsSlots(server: Server, server': Server, envelope: Envelope, now: nat,
                          progress: Progress, rotateTo: Option<nat>, report: Report, answer: Option<Envelope>)
    requires Handles(server, server', envelope, now, progress, rotateTo, report, answer)
    ensures KeepsSlots(server, server')
  {
    if progress != Refused {
      hide SlotOf, WriteBlock;
      forall machinePk: nat, minute: nat | minute % MINUTE == 0 && SlotOf(server.blocks, machinePk, minute).Some?
        ensures SlotOf(server'.blocks, machinePk, minute) == SlotOf(server.blocks, machinePk, minute)
      {
        WritesOnlyItsSlot(server.blocks, report, machinePk, minute);
      }
    }
  }

  lemma HandlesKeepsScopes(server: Server, server': Server, envelope: Envelope, now: nat,
                           progress: Progress, rotateTo: Option<nat>, report: Report, answer: Option<Envelope>)
    requires Handles(server, server', envelope, now, progress, rotateTo, report, answer)
    requires ScopesAgree(server)
    ensures ScopesAgree(server') && server'.keys == server.keys
  {
  }

  /** An acknowledgement leaves the server only when the slot of the report's minute holds exactly
      that report. */
  lemma AnswerMeansStored(server: Server, server': Server, envelope: Envelope, now: nat,
                          progress: Progress, rotateTo: Option<nat>, report: Report, answer: Option<Envelope>)
    requires Handles(server, server', envelope, now, progress, rotateTo, report, answer)
    requires ScopesAgree(server) && answer.Some?
    ensures Stored(server', report)
  {
  }

  /** What the slot decides about a request that is let through: a report that is already there is
      answered as a duplicate and changes no block, a new one is answered as committed, and only
      another report in the slot stops it. */
  lemma SlotDecides(server: Server, server': Server, envelope: Envelope, now: nat,
                    progress: Progress, rotateTo: Option<nat>, report: Report, answer: Option<Envelope>)
    requires Handles(server, server', envelope, now, progress, rotateTo, report, answer)
    requires progress == Written || progress == Answered
    ensures !HoldsOther(server.blocks, report)
    ensures HoldsThis(server.blocks, report) ==> server'.blocks == server.blocks
    ensures progress == Answered ==>
      Acknowledges(answer, report, if HoldsThis(server.blocks, report) then Duplicate else Committed)
  {
    hide Claim, CarriedReport, WriteBlock;
  }

  lemma HandlesKeepsEntries(server: Server, server': Server, envelope: Envelope, now: nat,
                            progress: Progress, rotateTo: Option<nat>, report: Report, answer: Option<Envelope>)
    requires Handles(server, server', envelope, now, progress, rotateTo, report, answer)
    requires EntriesBelong(server.blocks)
    ensures EntriesBelong(server'.blocks)
  {
    hide EntriesBelong, Claim, WriteBlock, Classify;
    if progress != Refused {
      CarriedFits(server, envelope, now);
      WriteKeepsEntries(server.blocks, report);
    }
  }

  lemma CarriedFits(server: Server, envelope: Envelope, now: nat)
    ensures CarriedReport(server, envelope, now).Some? ==> TimesFit(CarriedReport(server, envelope, now).value)
  {
    hide TimesFit;
  }

  /** Without the assumption: an acknowledged report is in its slot exactly when its block was new
      or belongs to its workspace. */
  lemma AnsweredStoresIff(server: Server, server': Server, envelope: Envelope, now: nat,
                          progress: Progress, rotateTo: Option<nat>, report: Report, answer: Option<Envelope>)
    requires Handles(server, server', envelope, now, progress, rotateTo, report, answer)
    requires EntriesBelong(server.blocks) && answer.Some?
    ensures Stored(server', report)
       <==> KeyOf(report) !in server.blocks || server.blocks[KeyOf(report)].workspacePk == report.workspacePk
  {
    hide EntriesBelong, Claim, CarriedReport, WriteBlock, EntryBelongs, BlockStart, ReportSlot;
    if Classify(server.blocks, report) == Fresh { WriteStores(server.blocks, report); }
  }

  /** Such an acknowledgement does happen: a machine that moved to workspace 2 reports into a block
      of workspace 1. */
  lemma AcknowledgedUnstored()
    returns (server: Server, server': Server, envelope: Envelope, report: Report, answer: Envelope)
    ensures EntriesBelong(server.blocks)
    ensures Handles(server, server', envelope, 0, Answered, None, report, Some(answer))
    ensures !Stored(server', report)
  {
    report := Report(1, 1, 2, 0, [Sample(0, [])], [], []);
    var key, header := KeyId(1, 1), Header(1, 1, 1, 1);
    envelope := Envelope(header, Sealed(ClientToServer, 1, 1, 1, header, ReportBody(report)));
    server := Server(map[key := KeyRow(1, 2)], map[], map[BlockKey(1, 0) := Block(1, map[])]);
    server' := ClaimNumber(server, key, 1).value;
    answer := AckEnvelope(header, report, Committed, None);
  }

  class IngestWorker {
    var server: Server

    method ClaimReplay(key: KeyId, sequence: nat) returns (accepted: bool)
      modifies this
      ensures accepted <==> ClaimNumber(old(server), key, sequence).Some?
      ensures server == if accepted then ClaimNumber(old(server), key, sequence).value else old(server)
    {
      var o := Claim(RowOf(server, key), sequence);
      accepted := o.changes == 1 && o.row.Some?;
      if accepted {
        server := server.(replay := server.replay[key := o.row.value]);
      }
    }

    /** `handle_report`; `reach` is how far the surroundings let the request get. */
    method HandleReport(envelope: Envelope, now: nat, reach: Progress, rotateTo: Option<nat>)
      returns (answer: Option<Envelope>, progress: Progress, report: Report)
      modifies this
      ensures Handles(old(server), server, envelope, now, progress, rotateTo, report, answer)
      ensures reach == Answered && CarriedReport(old(server), envelope, now).Some?
              && ClaimNumber(old(server), KeyId(envelope.header.agent, envelope.header.epoch), envelope.header.sequence).Some?
              ==> (var blocks := old(server).blocks;
                   && CarriedReport(old(server), envelope, now) == Some(report)
                   && progress == (if HoldsOther(blocks, report) then Claimed else Answered)
                   && (HoldsOther(blocks, report) || HoldsThis(blocks, report) ==> server.blocks == blocks)
                   && (progress == Answered ==>
                         Acknowledges(answer, report, if HoldsThis(blocks, report) then Duplicate else Committed)))
    {
      hide Claim;
      answer, progress, report := None, Refused, Report(0, 0, 0, 0, [], [], []);
      var carried := CarriedReport(server, envelope, now);
      if reach != Refused && carried.Some? {
        report := carried.value;
        var accepted := ClaimReplay(KeyId(envelope.header.agent, envelope.header.epoch), envelope.header.sequence);
        if accepted {
          progress := Claimed;
          var kind := Classify(server.blocks, report);
          if reach != Claimed && kind != Conflicting {
            progress := reach;
            if kind == Fresh {
              server := server.(blocks := WriteBlock(server.blocks, report));
            }
            if reach == Answered {
              answer := Some(AckEnvelope(envelope.header, report, if kind == Fresh then Committed else Duplicate, rotateTo));
            }
          }
        }
      }
    }
  }
}
