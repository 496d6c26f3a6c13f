/** The notification outbox: rows of `notification_deliveries` claimed, sent and finished by any
    number of workers.  A worker may be slow or die; its claim then expires and another takes the
    row. */
module NotificationOutbox {
  import opened Options
  import opened Sql

  const CLAIM_MS: nat := 30_000
  const MAX_ATTEMPTS: nat := 6
  const MAX_RETRY_MS: nat := 3_600_000
  const FIRST_RETRY_MS: nat := 60_000

  datatype RowState = Pending | Delivering | Sent | Dead

  /** `token` and `until` are the claim; a token is a random number, here one never drawn before. */
  datatype Row = Row(state: RowState, attempts: nat, nextAttemptAt: nat, token: Option<nat>, until: Option<nat>)

  function NewRow(now: nat): Row { Row(Pending, 0, now, None, None) }

  /** A worker between its claim and its finish. */
  datatype Worker<Id> = Worker(id: Id, token: nat, attempt: nat, sent: bool)

  datatype Send<Id> = Send(id: Id, attempt: nat)

  datatype Outbox<Id> = Outbox(rows: map<Id, Row>, nextToken: nat, workers: set<Worker<Id>>, sends: seq<Send<Id>>)

  datatype Outcome = Delivered | Failed(retryable: bool)

  function Pow2(n: nat): (p: nat)
    ensures p >= 1
  {
    if n == 0 then 1 else 2 * Pow2(n - 1)
  }

  function RetryDelay(attempt: nat): nat {
    var delay := FIRST_RETRY_MS * Pow2(if attempt >= 1 then attempt - 1 else 0);
    if delay < MAX_RETRY_MS then delay else MAX_RETRY_MS
  }

  /** The delay doubles from one minute until it stays at one hour. */
  lemma RetryDelayDoubles(attempt: nat)
    ensures RetryDelay(0) == RetryDelay(1) == FIRST_RETRY_MS
    ensures attempt >= 1 ==>
      RetryDelay(attempt + 1) == (if 2 * RetryDelay(attempt) < MAX_RETRY_MS then 2 * RetryDelay(attempt) else MAX_RETRY_MS)
  {
    assert Pow2(0) == 1;
    if attempt >= 1 { assert Pow2(attempt) == 2 * Pow2(attempt - 1); }
  }

  predicate Claimable(row: Row, now: nat) {
    (row.state == Pending && row.nextAttemptAt <= now)
    || (row.state == Delivering && row.until.Some? && row.until.value <= now)
  }

  /** The UPDATE of `claimDelivery`. */
  function Claimed(row: Row, token: nat, now: nat): Row {
    if row.attempts >= MAX_ATTEMPTS
    then row.(state := Dead, token := None, until := None, attempts := MAX_ATTEMPTS)
    else row.(state := Delivering, token := Some(token), until := Some(now + CLAIM_MS), attempts := row.attempts + 1)
  }

  /** The UPDATE of `finishDelivery` on a row that still carries the worker's token. */
  function Finished(row: Row, attempt: nat, outcome: Outcome, now: nat): Row {
    if outcome.Delivered? then row.(state := Sent, nextAttemptAt := 0, token := None, until := None)
    else if !outcome.retryable || attempt >= MAX_ATTEMPTS
    then row.(state := Dead, nextAttemptAt := 0, token := None, until := None)
    else row.(state := Pending, nextAttemptAt := now + RetryDelay(attempt), token := None, until := None)
  }

  predicate Holds<Id>(box: Outbox<Id>, worker: Worker<Id>) {
    worker.id in box.rows && box.rows[worker.id].state == Delivering && box.rows[worker.id].token == Some(worker.token)
  }

  // ---- steps --------------------------------------------------------------------------------

  datatype Step<Id> =
    | Inserts(id: Id, now: nat)
    | Claims(id: Id, now: nat)
    | Sends(worker: Worker<Id>)
    | Finishes(worker: Worker<Id>, outcome: Outcome, now: nat)
    | Dies(worker: Worker<Id>)

  /** INSERT OR IGNORE. */
  function Insert<Id>(box: Outbox<Id>, id: Id, now: nat): Outbox<Id> {
    if id in box.rows then box else box.(rows := box.rows[id := NewRow(now)])
  }

  /** `claimDelivery`: an exhausted row dies and leaves no worker. */
  function Claim<Id>(box: Outbox<Id>, id: Id, now: nat): Outbox<Id> {
    if id !in box.rows || !Claimable(box.rows[id], now) then box
    else
      var row := Claimed(box.rows[id], box.nextToken, now);
      var claimed := box.(rows := box.rows[id := row], nextToken := box.nextToken + 1);
      if row.state == Dead then claimed
      else claimed.(workers := claimed.workers + {Worker(id, box.nextToken, row.attempts, false)})
  }

  function MarkSent<Id>(box: Outbox<Id>, worker: Worker<Id>): Outbox<Id> {
    box.(workers := box.workers - {worker} + {worker.(sent := true)},
         sends := box.sends + [Send(worker.id, worker.attempt)])
  }

  function Finish<Id>(box: Outbox<Id>, worker: Worker<Id>, outcome: Outcome, now: nat): Outbox<Id> {
    var left := box.(workers := box.workers - {worker});
    if Holds(box, worker)
    then left.(rows := box.rows[worker.id := Finished(box.rows[worker.id], worker.attempt, outcome, now)])
    else left
  }

  ghost predicate Next<Id>(box: Outbox<Id>, step: Step<Id>, box': Outbox<Id>) {
    match step
    case Inserts(id, now) => box' == Insert(box, id, now)
    case Claims(id, now) => box' == Claim(box, id, now)
    case Sends(worker) => worker in box.workers && !worker.sent && box' == MarkSent(box, worker)
    case Finishes(worker, outcome, now) =>
      worker in box.workers && (outcome.Delivered? ==> worker.sent) && box' == Finish(box, worker, outcome, now)
    case Dies(worker) => box' == box.(workers := box.workers - {worker})
  }

  ghost predicate IsRun<Id>(boxes: seq<Outbox<Id>>, steps: seq<Step<Id>>) {
    && |boxes| == |steps| + 1
    && boxes[0] == Outbox(map[], 0, {}, [])
    && forall i | 0 <= i < |steps| :: Next(boxes[i], steps[i], boxes[i + 1])
  }

  // ---- invariant ----------------------------------------------------------------------------

  ghost predicate RowsOk<Id>(box: Outbox<Id>) {
    forall id | id in box.rows ::
      && box.rows[id].attempts <= MAX_ATTEMPTS
      && (box.rows[id].state == Delivering <==> box.rows[id].token.Some?)
      && (box.rows[id].token.Some? ==> box.rows[id].token.value < box.nextToken)
      && (box.rows[id].state == Sent ==> exists k :: Send(id, k) in box.sends)
  }

  /** Workers are told apart by their attempt and by their token; the claim of a row is that of
      its last attempt. */
  ghost predicate WorkersOk<Id>(box: Outbox<Id>) {
    && (forall w | w in box.workers ::
          && w.id in box.rows && w.token < box.nextToken
          && 1 <= w.attempt <= box.rows[w.id].attempts
          && (w.sent <==> Send(w.id, w.attempt) in box.sends)
          && (Holds(box, w) <==> box.rows[w.id].state == Delivering && w.attempt == box.rows[w.id].attempts))
    && (forall w, w' | w in box.workers && w' in box.workers && w.id == w'.id && w.attempt == w'.attempt :: w == w')
  }

  ghost predicate SendsOk<Id>(box: Outbox<Id>) {
    && (forall s | s in box.sends :: s.id in box.rows && 1 <= s.attempt <= box.rows[s.id].attempts)
    && Distinct(box.sends)
  }

  ghost predicate Inv<Id>(box: Outbox<Id>) {
    RowsOk(box) && WorkersOk(box) && SendsOk(box)
  }

  lemma InsertKeeps<Id>(box: Outbox<Id>, id: Id, now: nat)
    requires Inv(box)
    ensures Inv(Insert(box, id, now))
  {
  }

  lemma ClaimKeeps<Id>(box: Outbox<Id>, id: Id, now: nat)
    requires Inv(box)
    ensures Inv(Claim(box, id, now))
  {
  }

  lemma MarkSentKeeps<Id>(box: Outbox<Id>, worker: Worker<Id>)
    requires Inv(box) && worker in box.workers && !worker.sent
    ensures Inv(MarkSent(box, worker))
  {
  }

  lemma FinishKeeps<Id>(box: Outbox<Id>, worker: Worker<Id>, outcome: Outcome, now: nat)
    requires Inv(box) && worker in box.workers && (outcome.Delivered? ==> worker.sent)
    ensures Inv(Finish(box, worker, outcome, now))
  {
  }

  lemma NextKeeps<Id>(box: Outbox<Id>, step: Step<Id>, box': Outbox<Id>)
    requires Inv(box) && Next(box, step, box')
    ensures Inv(box')
  {
    match step
    case Inserts(id, now) => InsertKeeps(box, id, now);
    case Claims(id, now) => ClaimKeeps(box, id, now);
    case Sends(worker) => MarkSentKeeps(box, worker);
    case Finishes(worker, outcome, now) => FinishKeeps(box, worker, outcome, now);
    case Dies(worker) =>
  }

  lemma {:induction false} RunKeeps<Id>(boxes: seq<Outbox<Id>>, steps: seq<Step<Id>>, i: nat)
    requires IsRun(boxes, steps) && i < |boxes|
    ensures Inv(boxes[i])
  {
    if i > 0 {
      RunKeeps(boxes, steps, i - 1);
      assert Next(boxes[i - 1], steps[i - 1], boxes[i]);
      NextKeeps(boxes[i - 1], steps[i - 1], boxes[i]);
    }
  }

  // ---- what holds in every run --------------------------------------------------------------

  function SendsOf<Id(==)>(sends: seq<Send<Id>>, id: Id): seq<Send<Id>> {
    if sends == [] then []
    else
      var init, last := sends[..|sends| - 1], sends[|sends| - 1];
      if last.id == id then SendsOf(init, id) + [last] else SendsOf(init, id)
  }

  lemma {:induction false} SendsOfAreThose<Id>(sends: seq<Send<Id>>, id: Id)
    requires Distinct(sends)
    ensures Distinct(SendsOf(sends, id))
    ensures forall s | s in SendsOf(sends, id) :: s in sends && s.id == id
  {
    if sends != [] { SendsOfAreThose(sends[..|sends| - 1], id); }
  }

  /** However many workers race, crash or come back late, a delivery is sent six times at most. */
  lemma AtMostSixSends<Id>(boxes: seq<Outbox<Id>>, steps: seq<Step<Id>>, i: nat, id: Id)
    requires IsRun(boxes, steps) && i < |boxes|
    ensures |SendsOf(boxes[i].sends, id)| <= MAX_ATTEMPTS
  {
    RunKeeps(boxes, steps, i);
    assert RowsOk(boxes[i]) && SendsOk(boxes[i]);
    var mine := SendsOf(boxes[i].sends, id);
    SendsOfAreThose(boxes[i].sends, id);
    var all := {Send(id, 1), Send(id, 2), Send(id, 3), Send(id, 4), Send(id, 5), Send(id, 6)};
    forall s | s in mine ensures s in all {
      assert s.id == id && 1 <= s.attempt <= MAX_ATTEMPTS;
    }
    DistinctSize(mine);
    SubsetSizeLe(Elements(mine), all);
  }

  predicate Final(row: Row) { row.state == Sent || row.state == Dead }

  lemma StepKeepsFinal<Id>(box: Outbox<Id>, step: Step<Id>, box': Outbox<Id>, id: Id)
    requires Next(box, step, box') && id in box.rows && Final(box.rows[id])
    ensures id in box'.rows && box'.rows[id] == box.rows[id]
  {
  }

  /** A row that is sent or dead never changes again, and a sent row was really sent. */
  lemma {:induction false} FinalRowsStay<Id>(boxes: seq<Outbox<Id>>, steps: seq<Step<Id>>, i: nat, j: nat, id: Id)
    requires IsRun(boxes, steps) && i <= j < |boxes| && id in boxes[i].rows && Final(boxes[i].rows[id])
    ensures id in boxes[j].rows && boxes[j].rows[id] == boxes[i].rows[id]
    ensures boxes[i].rows[id].state == Sent ==> exists k :: Send(id, k) in boxes[i].sends
    decreases j - i
  {
    RunKeeps(boxes, steps, i);
    assert RowsOk(boxes[i]);
    if i < j {
      assert Next(boxes[i], steps[i], boxes[i + 1]);
      StepKeepsFinal(boxes[i], steps[i], boxes[i + 1], id);
      FinalRowsStay(boxes, steps, i + 1, j, id);
    }
  }

  /** Only the worker of the last claim can finish a row: of two workers on one delivery the
      earlier one changes nothing, whenever it wakes up. */
  lemma StaleWorkersChangeNothing<Id>(boxes: seq<Outbox<Id>>, steps: seq<Step<Id>>, i: nat,
                                      early: Worker<Id>, late: Worker<Id>, outcome: Outcome, now: nat)
    requires IsRun(boxes, steps) && i < |boxes|
    requires early in boxes[i].workers && late in boxes[i].workers
    requires early.id == late.id && early.attempt < late.attempt
    ensures Finish(boxes[i], early, outcome, now).rows == boxes[i].rows
  {
    RunKeeps(boxes, steps, i);
    assert WorkersOk(boxes[i]);
  }

  /** A successful claim leaves the row with the worker's token and lease. */
  ghost predicate ClaimedBy<Id>(box: Outbox<Id>, id: Id, token: nat, until: nat) {
    id in box.rows && box.rows[id].state == Delivering && box.rows[id].token == Some(token) && box.rows[id].until == Some(until)
  }

  /** The step neither finishes the claim with this token nor claims the row once its lease is
      over. */
  predicate LeavesLease<Id(==)>(step: Step<Id>, id: Id, token: nat, until: nat) {
    match step
    case Claims(other, now) => other == id ==> now < until
    case Finishes(worker, _, _) => worker.id == id ==> worker.token != token
    case _ => true
  }

  lemma StepKeepsLease<Id>(box: Outbox<Id>, step: Step<Id>, box': Outbox<Id>, id: Id, token: nat, until: nat)
    requires Next(box, step, box') && ClaimedBy(box, id, token, until) && LeavesLease(step, id, token, until)
    ensures ClaimedBy(box', id, token, until) && box'.rows[id] == box.rows[id]
  {
  }

  /** A lease is exclusive: from a claim on, as long as its worker has not finished and nobody has
      tried to claim the row thirty seconds or more later, the row stays exactly as the claim left
      it, and a claim within the thirty seconds changes nothing. */
  lemma {:induction false} LeaseIsExclusive<Id>(boxes: seq<Outbox<Id>>, steps: seq<Step<Id>>, i: nat, j: nat, id: Id,
                                               claimedAt: nat)
    requires IsRun(boxes, steps) && i < j < |boxes| && steps[i] == Claims(id, claimedAt)
    requires id in boxes[i].rows && Claimable(boxes[i].rows[id], claimedAt) && boxes[i].rows[id].attempts < MAX_ATTEMPTS
    requires forall k | i < k < j :: LeavesLease(steps[k], id, boxes[i].nextToken, claimedAt + CLAIM_MS)
    ensures ClaimedBy(boxes[j], id, boxes[i].nextToken, claimedAt + CLAIM_MS)
    ensures boxes[j].rows[id] == Claimed(boxes[i].rows[id], boxes[i].nextToken, claimedAt)
    ensures forall now: nat | now < claimedAt + CLAIM_MS :: Claim(boxes[j], id, now) == boxes[j]
    decreases j - i
  {
    if j == i + 1 {
      assert Next(boxes[i], steps[i], boxes[j]);
    } else {
      LeaseIsExclusive(boxes, steps, i, j - 1, id, claimedAt);
      assert Next(boxes[j - 1], steps[j - 1], boxes[j]);
      StepKeepsLease(boxes[j - 1], steps[j - 1], boxes[j], id, boxes[i].nextToken, claimedAt + CLAIM_MS);
    }
  }

  /** A retryable failure before the sixth attempt puts the row to sleep for the delay of its
      attempt; no claim succeeds before. */
  lemma FailuresWait<Id>(box: Outbox<Id>, worker: Worker<Id>, now: nat, later: nat)
    requires Inv(box) && worker in box.workers && Holds(box, worker) && worker.attempt < MAX_ATTEMPTS
    ensures var after := Finish(box, worker, Failed(true), now);
      && after.rows[worker.id].state == Pending
      && (Claim(after, worker.id, later) == after <==> later < now + RetryDelay(box.rows[worker.id].attempts))
  {
    hide RetryDelay;
  }

  // ---- getting a notification out -----------------------------------------------------------

  /** Any claim from this time on gets the row, for its attempt of this number. */
  ghost predicate CanBeClaimed<Id>(box: Outbox<Id>, id: Id, from: nat, attempt: nat) {
    forall now: nat | from <= now ::
      var after := Claim(box, id, now);
      && Worker(id, box.nextToken, attempt, false) in after.workers
      && ClaimedBy(after, id, box.nextToken, now + 30_000) && after.rows[id].attempts == attempt
  }

  /** Nobody gets the row before this time. */
  ghost predicate CannotBeClaimed<Id>(box: Outbox<Id>, id: Id, before: nat) {
    forall now: nat | now < before :: Claim(box, id, now) == box
  }

  /** A new row can be claimed from the moment of its insertion, and not before, for a first
      attempt; other rows are as they were. */
  lemma InsertedIsClaimable<Id>(box: Outbox<Id>, id: Id, now: nat)
    requires id !in box.rows
    ensures var after := Insert(box, id, now);
      && CanBeClaimed(after, id, now, 1) && CannotBeClaimed(after, id, now)
      && after.rows.Keys == box.rows.Keys + {id} && forall other | other in box.rows :: after.rows[other] == box.rows[other]
  {
  }

  /** Nothing but new rows, each for a first claim from this time on. */
  ghost predicate OnlyAdds<Id>(box: Outbox<Id>, box': Outbox<Id>, now: nat) {
    && box'.nextToken == box.nextToken && box'.workers == box.workers && box'.sends == box.sends
    && (forall id | id in box.rows :: id in box'.rows && box'.rows[id] == box.rows[id])
    && (forall id | id in box'.rows && id !in box.rows :: CanBeClaimed(box', id, now, 1) && CannotBeClaimed(box', id, now))
  }

  lemma SameClaims<Id>(box: Outbox<Id>, box': Outbox<Id>, id: Id, from: nat, attempt: nat)
    requires id in box.rows && id in box'.rows && box'.rows[id] == box.rows[id]
    requires box'.nextToken == box.nextToken && box'.workers == box.workers
    ensures CanBeClaimed(box, id, from, attempt) ==> CanBeClaimed(box', id, from, attempt)
    ensures CannotBeClaimed(box, id, from) ==> CannotBeClaimed(box', id, from)
  {
    if CannotBeClaimed(box, id, from) {
      forall now: nat | now < from ensures Claim(box', id, now) == box' {
        assert Claim(box, id, now) == box;
      }
    }
    forall now: nat ensures Claim(box', id, now).workers == Claim(box, id, now).workers
                            && Claim(box', id, now).rows[id] == Claim(box, id, now).rows[id] {
    }
  }

  lemma OnlyAddsThrough<Id>(a: Outbox<Id>, b: Outbox<Id>, c: Outbox<Id>, now: nat)
    requires OnlyAdds(a, b, now) && OnlyAdds(b, c, now)
    ensures OnlyAdds(a, c, now)
  {
    hide CanBeClaimed, CannotBeClaimed;
    forall id | id in b.rows ensures CanBeClaimed(b, id, now, 1) ==> CanBeClaimed(c, id, now, 1) {
      SameClaims(b, c, id, now, 1);
    }
    forall id | id in b.rows ensures CannotBeClaimed(b, id, now) ==> CannotBeClaimed(c, id, now) {
      SameClaims(b, c, id, now, 1);
    }
  }

  lemma InsertOnlyAdds<Id>(box: Outbox<Id>, id: Id, now: nat)
    ensures OnlyAdds(box, Insert(box, id, now), now)
  {
    hide CanBeClaimed, CannotBeClaimed;
    if id !in box.rows { InsertedIsClaimable(box, id, now); }
  }

  /** A row whose worker died can be taken again from thirty seconds after the claim on, and not
      before; after the sixth attempt such a claim buries it. */
  lemma DeadWorkerIsReplaced<Id>(box: Outbox<Id>, id: Id, now: nat, worker: Worker<Id>)
    requires Inv(box) && id in box.rows && worker == Worker(id, box.nextToken, box.rows[id].attempts + 1, false)
    requires worker in Claim(box, id, now).workers
    ensures var died := Claim(box, id, now).(workers := Claim(box, id, now).workers - {worker});
      && CannotBeClaimed(died, id, now + 30_000)
      && (worker.attempt < 6 ==> CanBeClaimed(died, id, now + 30_000, worker.attempt + 1))
      && (worker.attempt == 6 ==> forall later: nat | now + 30_000 <= later ::
            Claim(died, id, later).rows[id].state == Dead && Claim(died, id, later).workers == died.workers)
  {
  }

  /** What the finish of the worker that holds the row makes of it: sent; buried when the failure is
      final or was the sixth; otherwise claimable again after one, two, four, eight, sixteen
      minutes. */
  lemma FinishDecides<Id>(box: Outbox<Id>, worker: Worker<Id>, outcome: Outcome, now: nat)
    requires Inv(box) && worker in box.workers && Holds(box, worker)
    ensures var after := Finish(box, worker, outcome, now);
      && worker !in after.workers && worker.id in after.rows
      && (outcome.Delivered? ==> after.rows[worker.id].state == Sent)
      && (outcome == Failed(false) || (outcome == Failed(true) && worker.attempt == 6) ==> after.rows[worker.id].state == Dead)
      && (outcome == Failed(true) && worker.attempt < 6 ==>
            var wait := [0, 60_000, 120_000, 240_000, 480_000, 960_000][worker.attempt];
            && CanBeClaimed(after, worker.id, now + wait, worker.attempt + 1)
            && CannotBeClaimed(after, worker.id, now + wait))
      && (forall other | other in box.rows && other != worker.id :: after.rows[other] == box.rows[other])
  {
    FirstDelays();
    assert worker.attempt == box.rows[worker.id].attempts;
  }

  lemma FirstDelays()
    ensures RetryDelay(1) == 60_000 && RetryDelay(2) == 120_000 && RetryDelay(3) == 240_000
    ensures RetryDelay(4) == 480_000 && RetryDelay(5) == 960_000
  {
    assert Pow2(0) == 1 && Pow2(1) == 2 && Pow2(2) == 4 && Pow2(3) == 8 && Pow2(4) == 16;
  }

  /** Inserted, claimed, sent, finished: four steps leave the row sent. */
  lemma GetsSent<Id>(box: Outbox<Id>, id: Id, inserted: nat, claimed: nat, finished: nat)
    returns (boxes: seq<Outbox<Id>>, steps: seq<Step<Id>>)
    requires Inv(box) && id !in box.rows && inserted <= claimed
    ensures |boxes| == 5 && |steps| == 4 && boxes[0] == box
    ensures forall i | 0 <= i < 4 :: Next(boxes[i], steps[i], boxes[i + 1])
    ensures steps[0] == Inserts(id, inserted) && steps[1] == Claims(id, claimed) && steps[2].Sends? && steps[3].Finishes?
    ensures id in boxes[4].rows && boxes[4].rows[id].state == Sent && boxes[4].sends == box.sends + [Send(id, 1)]
  {
    var b1 := Insert(box, id, inserted);
    InsertKeeps(box, id, inserted);
    InsertedIsClaimable(box, id, inserted);
    var b2 := Claim(b1, id, claimed);
    ClaimKeeps(b1, id, claimed);
    var worker := Worker(id, b1.nextToken, 1, false);
    var b3 := MarkSent(b2, worker);
    MarkSentKeeps(b2, worker);
    var sender := worker.(sent := true);
    FinishDecides(b3, sender, Delivered, finished);
    boxes := [box, b1, b2, b3, Finish(b3, sender, Delivered, finished)];
    steps := [Inserts(id, inserted), Claims(id, claimed), Sends(worker), Finishes(sender, Delivered, finished)];
  }

  // ---- the statements -----------------------------------------------------------------------

  class OutboxTable<Id(==)> {
    var rows: map<Id, Row>
    ghost var nextToken: nat
    ghost var workers: set<Worker<Id>>
    ghost var sends: seq<Send<Id>>

    ghost function View(): Outbox<Id>
      reads this
    {
      Outbox(rows, nextToken, workers, sends)
    }

    /** `claimDelivery`; None when another worker has the row, it is not due or it is exhausted. */
    method ClaimDelivery(id: Id, now: nat, token: nat) returns (attempt: Option<nat>)
      requires Inv(View()) && token == nextToken
      modifies this
      ensures Inv(View()) && View() == Claim(old(View()), id, now)
      ensures attempt.Some? <==> Claim(old(View()), id, now).workers != old(workers)
      ensures attempt.Some? ==> Worker(id, token, attempt.value, false) in workers
    {
      hide Inv;
      ClaimKeeps(View(), id, now);
      NewWorker(View());
      attempt := None;
      if id in rows && Claimable(rows[id], now) {
        var row := rows[id];
        if row.attempts >= MAX_ATTEMPTS {
          row := row.(state := Dead, token := None, until := None, attempts := MAX_ATTEMPTS);
        } else {
          row := row.(state := Delivering, token := Some(token), until := Some(now + CLAIM_MS), attempts := row.attempts + 1);
        }
        rows := rows[id := row];
        nextToken := nextToken + 1;
        if row.token == Some(token) {
          workers := workers + {Worker(id, token, row.attempts, false)};
          attempt := Some(row.attempts);
        }
      }
    }

    method FinishDelivery(id: Id, token: nat, attempt: nat, ghost sent: bool, outcome: Outcome, now: nat)
      requires Inv(View()) && Worker(id, token, attempt, sent) in workers && (outcome.Delivered? ==> sent)
      modifies this
      ensures Inv(View()) && View() == Finish(old(View()), Worker(id, token, attempt, sent), outcome, now)
    {
      hide Inv;
      FinishKeeps(View(), Worker(id, token, attempt, sent), outcome, now);
      workers := workers - {Worker(id, token, attempt, sent)};
      var dead := outcome.Failed? && (!outcome.retryable || attempt >= MAX_ATTEMPTS);
      var state := if outcome.Delivered? then Sent else if dead then Dead else Pending;
      var nextAttemptAt := if outcome.Delivered? || dead then 0 else now + RetryDelay(attempt);
      if id in rows && rows[id].state == Delivering && rows[id].token == Some(token) {
        rows := rows[id := rows[id].(state := state, nextAttemptAt := nextAttemptAt, token := None, until := None)];
      }
    }
  }

  lemma NewWorker<Id>(box: Outbox<Id>)
    requires Inv(box)
    ensures forall w | w in box.workers :: w.token < box.nextToken
    ensures forall id | id in box.rows :: box.rows[id].token != Some(box.nextToken)
  {
  }
}
