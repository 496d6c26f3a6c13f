/** What the live hub does take: frames with gaps between their numbers go through. */
module LiveProgress {
  import opened Options
  import opened LiveModel
  import opened LiveSafety

  /** Every number the hub knows of a session: committed, under way, or held by an attachment. */
  ghost function KnownNumbers(hub: Hub, session: SessionId): set<nat> {
    var state := StateOf(hub, session);
    StoredNumbers(hub.sockets, session)
    + (if state.Some? && state.value.committed.Some? then {state.value.committed.value} else {})
    + (if state.Some? then state.value.pending else {})
  }

  /** The numbers that may follow the highest one known. */
  predicate MayFollow(h: Option<nat>, sequence: nat) {
    1 <= sequence <= 1_000_000 && (h.None? || h.value < sequence <= h.value + 1024)
  }

  /** A frame is taken up exactly when its number is from 1 to a million and, if any number of the
      session is known, above the highest of them by 1 to 1024.  A refused frame closes its socket
      and starts nothing; an accepted one starts one handler and leaves the sockets alone. */
  lemma TakenUpIff(hub: Hub, socket: SocketId, sequence: nat, h: Option<nat>)
    requires socket in hub.sockets && IsHighest(KnownNumbers(hub, hub.sockets[socket].session), h)
    ensures var (after, task) := Begin(hub, socket, sequence);
      && (task.Some? <==> MayFollow(h, sequence))
      && (task.None? ==> after.tasks == hub.tasks && after.sent == hub.sent
                         && after.sockets == hub.sockets[socket := hub.sockets[socket].(open := false)])
      && (task.Some? ==> after.tasks == hub.tasks + {task.value} && after.sent == hub.sent && after.sockets == hub.sockets
                         && task.value.session == hub.sockets[socket].session && task.value.sequence == sequence
                         && task.value.sockets == SocketsOf(hub.sockets, hub.sockets[socket].session))
  {
    hide HighestOf;
    var session := hub.sockets[socket].session;
    var ready := Refreshed(hub, session);
    var state := ready.cells[ready.states[session]];
    assert IsHighest(StoredNumbers(hub.sockets, session), Stored(hub, session));
    assert IsHighest(state.pending, HighestOf(state.pending));
    assert IsHighest(KnownNumbers(hub, session), HighestSeen(state));
    HighestIsUnique(KnownNumbers(hub, session), HighestSeen(state), h);
  }

  // ---- a stream of frames -------------------------------------------------------------------

  /** A frame that arrives and is decrypted before anything else happens. */
  ghost function OneFrame(hub: Hub, socket: SocketId, sequence: nat): Hub
    requires socket in hub.sockets
  {
    match Begin(hub, socket, sequence)
    case (after, None) => after
    case (after, Some(task)) => if task.cell in after.cells then Commit(after, task) else after
  }

  /** Each number may follow the one before. */
  predicate Spaced(h: Option<nat>, numbers: seq<nat>)
    decreases |numbers|
  {
    numbers == [] || (MayFollow(h, numbers[0]) && Spaced(Some(numbers[0]), numbers[1..]))
  }

  ghost function AllFrames(hub: Hub, socket: SocketId, numbers: seq<nat>): Hub
    requires socket in hub.sockets
    decreases |numbers|
  {
    if numbers == [] then hub
    else
      var after := OneFrame(hub, socket, numbers[0]);
      if socket in after.sockets then AllFrames(after, socket, numbers[1..]) else after
  }

  /** Nothing of the session is under way, and this is the highest number known of it. */
  ghost predicate Resting(hub: Hub, session: SessionId, h: Option<nat>) {
    && (forall t | t in hub.tasks :: t.session != session)
    && IsHighest(KnownNumbers(hub, session), h)
  }

  /** After a frame the session rests at its number, and it has been broadcast. */
  lemma FrameGoesThrough(hub: Hub, socket: SocketId, sequence: nat, h: Option<nat>)
    requires Inv(hub) && socket in hub.sockets && Resting(hub, hub.sockets[socket].session, h) && MayFollow(h, sequence)
    ensures var after := OneFrame(hub, socket, sequence);
      && Inv(after) && socket in after.sockets && after.sockets[socket].session == hub.sockets[socket].session
      && after.sockets[socket].open == hub.sockets[socket].open
      && Resting(after, hub.sockets[socket].session, Some(sequence))
      && |after.sent| == |hub.sent| + 1 && after.sent[..|hub.sent|] == hub.sent
      && after.sent[|hub.sent|].session == hub.sockets[socket].session && after.sent[|hub.sent|].sequence == sequence
  {
    hide Inv, Begin, Commit, KnownNumbers;
    TakenUpIff(hub, socket, sequence, h);
    BeginKeeps(hub, socket, sequence);
    var (begun, task) := Begin(hub, socket, sequence);
    TaskHasCell(begun, task.value);
    CommitKeeps(begun, task.value);
    BegunRests(hub, socket, sequence, h);
    CommitRests(begun, task.value, h);
  }

  lemma TaskHasCell(hub: Hub, task: Task)
    requires Inv(hub) && task in hub.tasks
    ensures task.cell in hub.cells && Attached(hub, task)
  {
  }

  /** While the frame decrypts, it is the only one of the session under way. */
  ghost predicate OnlyOneUnderWay(hub: Hub, task: Task, h: Option<nat>) {
    && task in hub.tasks && Attached(hub, task) && task.cell in hub.cells
    && (forall t | t in hub.tasks && t.session == task.session :: t == task)
    && hub.cells[task.cell].pending == {task.sequence}
    && NotAfter(hub.cells[task.cell].committed, h)
    && (forall n | n in StoredNumbers(hub.sockets, task.session) :: AtMost(n, h))
  }

  lemma BegunRests(hub: Hub, socket: SocketId, sequence: nat, h: Option<nat>)
    requires Inv(hub) && socket in hub.sockets && Resting(hub, hub.sockets[socket].session, h) && MayFollow(h, sequence)
    requires Begin(hub, socket, sequence).1.Some?
    ensures OnlyOneUnderWay(Begin(hub, socket, sequence).0, Begin(hub, socket, sequence).1.value, h)
  {
    hide HighestOf, SentOk, AttachmentsOk, BoundsOk;
    var session := hub.sockets[socket].session;
    if session in hub.states { IdleState(hub, session); }
    assert IsHighest(StoredNumbers(hub.sockets, session), Stored(hub, session));
    RefreshedAttaches(hub, session);
  }

  lemma CommitRests(hub: Hub, task: Task, h: Option<nat>)
    requires OnlyOneUnderWay(hub, task, h) && (h.None? || h.value < task.sequence)
    ensures var after := Commit(hub, task);
      && Resting(after, task.session, Some(task.sequence))
      && after.sent == hub.sent + [Broadcast(task.session, task.cell, task.sequence)]
      && after.sockets.Keys == hub.sockets.Keys
      && (forall id | id in hub.sockets :: after.sockets[id].session == hub.sockets[id].session
                                           && after.sockets[id].open == hub.sockets[id].open)
  {
    hide HighestOf;
    var after := Commit(hub, task);
    forall n | n in StoredNumbers(after.sockets, task.session) ensures n <= task.sequence {
      var id :| id in after.sockets && after.sockets[id].session == task.session && after.sockets[id].highest == Some(n);
      if after.sockets[id].highest == hub.sockets[id].highest {
        assert n in StoredNumbers(hub.sockets, task.session);
      }
    }
  }

  /** Frames may get lost on the way: as long as no more than 1023 in a row do, every frame that
      arrives is broadcast, in order, and the session's socket stays. */
  lemma {:induction false} GapsAreBridged(hub: Hub, socket: SocketId, numbers: seq<nat>, h: Option<nat>)
    requires Inv(hub) && socket in hub.sockets && Resting(hub, hub.sockets[socket].session, h) && Spaced(h, numbers)
    ensures var after := AllFrames(hub, socket, numbers);
      && socket in after.sockets && after.sockets[socket].open == hub.sockets[socket].open
      && |after.sent| == |hub.sent| + |numbers| && after.sent[..|hub.sent|] == hub.sent
      && forall i | |hub.sent| <= i < |after.sent| ::
           after.sent[i].session == hub.sockets[socket].session && after.sent[i].sequence == numbers[i - |hub.sent|]
    decreases |numbers|
  {
    hide Inv, Resting, OneFrame, MayFollow;
    assert hub.sent[..|hub.sent|] == hub.sent;
    if numbers != [] {
      var after := OneFrame(hub, socket, numbers[0]);
      FrameGoesThrough(hub, socket, numbers[0], h);
      GapsAreBridged(after, socket, numbers[1..], Some(numbers[0]));
      var all := AllFrames(hub, socket, numbers);
      assert all == AllFrames(after, socket, numbers[1..]);
      assert all.sent[..|hub.sent|] == all.sent[..|after.sent|][..|hub.sent|];
      forall i | |hub.sent| <= i < |all.sent|
        ensures all.sent[i].session == hub.sockets[socket].session && all.sent[i].sequence == numbers[i - |hub.sent|]
      {
        if i == |hub.sent| {
          assert all.sent[i] == all.sent[..|after.sent|][i];
        } else {
          assert numbers[i - |hub.sent|] == numbers[1..][i - |after.sent|];
        }
      }
    }
  }

  // ---- what the other handlers change -------------------------------------------------------

  /** A session has room for two sockets that have not expired.  An accepted one starts open and
      without a number; expired ones of the session are shut; nothing else changes. */
  lemma ConnectedIff(hub: Hub, socket: SocketId, session: SessionId, expired: set<SocketId>)
    requires socket !in hub.sockets
    ensures var after := Connect(hub, socket, session, expired);
      && (socket in after.sockets <==>
            |set id | id in hub.sockets && hub.sockets[id].session == session && id !in expired| < 2)
      && (socket in after.sockets ==> after.sockets[socket] == Socket(session, None, true))
      && after.sockets.Keys <= hub.sockets.Keys + {socket}
      && (forall id | id in hub.sockets :: id in after.sockets
            && after.sockets[id] == if id in expired && hub.sockets[id].session == session
                                    then hub.sockets[id].(open := false) else hub.sockets[id])
      && after == hub.(sockets := after.sockets)
  {
    assert (set id | id in hub.sockets && hub.sockets[id].session == session && id !in expired)
        == SocketsOf(hub.sockets, session) - expired;
  }

  /** A decrypted frame is broadcast once, is no longer pending, and raises the committed number and
      the attachments that were captured with it, and only those, to at least its own. */
  lemma CommitWrites(hub: Hub, task: Task)
    requires task.cell in hub.cells
    ensures var (after, before) := (Commit(hub, task), hub.cells[task.cell]);
      var committed := if before.committed.Some? && before.committed.value > task.sequence
                       then before.committed.value else task.sequence;
      && after.cells == hub.cells[task.cell := SequenceState(Some(committed), before.pending - {task.sequence})]
      && after.sent == hub.sent + [Broadcast(task.session, task.cell, task.sequence)]
      && after.tasks == hub.tasks - {task} && after.states == hub.states && after.sockets.Keys == hub.sockets.Keys
      && (forall id | id in hub.sockets ::
            var old' := hub.sockets[id];
            after.sockets[id] == if id in task.sockets && old'.session == task.session
                                    && (old'.highest.None? || old'.highest.value < committed)
                                 then old'.(highest := Some(committed)) else old')
  {
  }

  /** A frame that does not decrypt is withdrawn and its socket closed; the committed number and what
      was broadcast stay. */
  lemma AbandonWithdraws(hub: Hub, task: Task, socket: SocketId)
    requires task.cell in hub.cells && socket in hub.sockets
    ensures var (after, before) := (Abandon(hub, task, socket), hub.cells[task.cell]);
      && after.cells == hub.cells[task.cell := before.(pending := before.pending - {task.sequence})]
      && after.tasks == hub.tasks - {task} && after.sent == hub.sent && after.states == hub.states
      && after.sockets == hub.sockets[socket := hub.sockets[socket].(open := false)]
  {
  }

  /** A close takes its socket, and the state of its session exactly when no other socket of the
      session is open and nothing is pending. */
  lemma CloseTakes(hub: Hub, socket: SocketId)
    requires CellsOk(hub) && socket in hub.sockets
    ensures var (after, session) := (Close(hub, socket), hub.sockets[socket].session);
      && after.sockets == hub.sockets - {socket}
      && (session in hub.states ==>
            (session in after.states <==>
               || hub.cells[hub.states[session]].pending != {}
               || exists id | id in hub.sockets :: id != socket && hub.sockets[id].session == session && hub.sockets[id].open))
      && (forall s | s in hub.states && s != session :: s in after.states && after.states[s] == hub.states[s])
      && after == hub.(sockets := after.sockets, states := after.states)
  {
  }
}
