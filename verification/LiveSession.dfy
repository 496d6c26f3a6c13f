/** A live session across the hub's losses of memory. */
module LiveSessions {
  import opened Options
  import opened LiveModel
  import opened LiveSafety

  /** The last committed number the hub would recover for a session: from its state or, without
      one, from the attachments. */
  ghost function Recalled(hub: Hub, session: SessionId): Option<nat> {
    var state := StateOf(hub, session);
    if state.Some? then state.value.committed else Stored(hub, session)
  }

  /** A hibernation or a close loses nothing the session has committed. */
  ghost predicate Remembers(hub: Hub, step: Step, hub': Hub, session: SessionId) {
    step.Hibernates? || step.Closes? ==> NotAfter(Recalled(hub, session), Recalled(hub', session))
  }

  // ---- what the hub recalls -----------------------------------------------------------------

  lemma StoredGrows(hub: Hub, hub': Hub, session: SessionId)
    requires forall id | id in hub.sockets && hub.sockets[id].session == session && hub.sockets[id].highest.Some? ::
      id in hub'.sockets && hub'.sockets[id].session == session && NotAfter(hub.sockets[id].highest, hub'.sockets[id].highest)
    ensures NotAfter(Stored(hub, session), Stored(hub', session))
  {
    hide HighestOf;
    var stored := Stored(hub, session);
    if stored.Some? {
      assert IsHighest(StoredNumbers(hub.sockets, session), stored);
      var id :| id in hub.sockets && hub.sockets[id].session == session && hub.sockets[id].highest == stored;
      assert hub'.sockets[id].highest.value in StoredNumbers(hub'.sockets, session);
      assert IsHighest(StoredNumbers(hub'.sockets, session), Stored(hub', session));
    }
  }

  lemma SameStored(hub: Hub, hub': Hub, session: SessionId)
    requires StoredNumbers(hub.sockets, session) == StoredNumbers(hub'.sockets, session)
    ensures Stored(hub', session) == Stored(hub, session)
  {
  }

  lemma RefreshedRecalls(hub: Hub, mine: SessionId, session: SessionId)
    requires CellsOk(hub)
    ensures NotAfter(Recalled(hub, session), Recalled(Refreshed(hub, mine), session))
  {
    hide HighestOf;
    SameStored(hub, Refreshed(hub, mine), session);
  }

  lemma ShutRecalls(hub: Hub, socket: SocketId, session: SessionId)
    ensures NotAfter(Recalled(hub, session), Recalled(Shut(hub, socket), session))
  {
    StoredGrows(hub, Shut(hub, socket), session);
  }

  lemma NotAfterThrough(a: Option<nat>, b: Option<nat>, c: Option<nat>)
    requires NotAfter(a, b) && NotAfter(b, c)
    ensures NotAfter(a, c)
  {
  }

  lemma BeginRecalls(hub: Hub, socket: SocketId, sequence: nat, session: SessionId)
    requires CellsOk(hub) && socket in hub.sockets
    ensures NotAfter(Recalled(hub, session), Recalled(Begin(hub, socket, sequence).0, session))
  {
    hide Refreshed, Recalled, Continues, Shut;
    var mine := hub.sockets[socket].session;
    var ready, after := Refreshed(hub, mine), Begin(hub, socket, sequence).0;
    RefreshedRecalls(hub, mine, session);
    RefreshedAttaches(hub, mine);
    if !InBounds(sequence) {
      ShutRecalls(hub, socket, session);
    } else if !Continues(ready.cells[ready.states[mine]], sequence) {
      ShutRecalls(ready, socket, session);
      NotAfterThrough(Recalled(hub, session), Recalled(ready, session), Recalled(after, session));
    } else {
      PendingRecalls(ready, after, session);
    }
  }

  /** More pending numbers do not matter for what is recalled. */
  lemma PendingRecalls(hub: Hub, hub': Hub, session: SessionId)
    requires hub'.sockets == hub.sockets && hub'.states == hub.states && hub'.cells.Keys == hub.cells.Keys
    requires forall c | c in hub.cells :: hub'.cells[c].committed == hub.cells[c].committed
    ensures Recalled(hub', session) == Recalled(hub, session)
  {
    hide HighestOf;
    SameStored(hub, hub', session);
  }

  lemma CommitRecalls(hub: Hub, task: Task, session: SessionId)
    requires Inv(hub) && task in hub.tasks && task.cell in hub.cells
    ensures NotAfter(Recalled(hub, session), Recalled(Commit(hub, task), session))
  {
    hide HighestOf, SentOk, TasksOk, BoundsOk, AttachmentsOk;
    StoredGrows(hub, Commit(hub, task), session);
  }

  lemma StepRecalls(hub: Hub, step: Step, hub': Hub, session: SessionId)
    requires Inv(hub) && Next(hub, step, hub') && Remembers(hub, step, hub', session)
    ensures NotAfter(Recalled(hub, session), Recalled(hub', session))
  {
    hide Recalled, Begin, Commit, Inv, Connect;
    match step
    case Connects(socket, mine, expired) => ConnectRecalls(hub, socket, mine, expired, session);
    case FrameArrives(socket, sequence) => CellsAre(hub); BeginRecalls(hub, socket, sequence, session);
    case Decrypts(task) => CommitRecalls(hub, task, session);
    case FailsToDecrypt(task, socket) => AbandonRecalls(hub, task, socket, session);
    case Shuts(socket) => ShutRecalls(hub, socket, session);
    case _ =>
  }

  lemma CellsAre(hub: Hub)
    requires Inv(hub)
    ensures CellsOk(hub)
  {
  }

  lemma ConnectRecalls(hub: Hub, socket: SocketId, mine: SessionId, expired: set<SocketId>, session: SessionId)
    requires socket !in hub.sockets
    ensures NotAfter(Recalled(hub, session), Recalled(Connect(hub, socket, mine, expired), session))
  {
    hide SocketsOf, HighestOf;
    StoredGrows(hub, Connect(hub, socket, mine, expired), session);
  }

  lemma AbandonRecalls(hub: Hub, task: Task, socket: SocketId, session: SessionId)
    requires task.cell in hub.cells
    ensures NotAfter(Recalled(hub, session), Recalled(Abandon(hub, task, socket), session))
  {
    var state := hub.cells[task.cell];
    var gone := hub.(cells := hub.cells[task.cell := state.(pending := state.pending - {task.sequence})],
                     tasks := hub.tasks - {task});
    hide Recalled, Shut;
    PendingRecalls(hub, gone, session);
    ShutRecalls(gone, socket, session);
  }

  // ---- one session --------------------------------------------------------------------------

  /** What a session has broadcast is recalled, not pending again, and different. */
  ghost predicate SessionOk(hub: Hub, session: SessionId) {
    && (forall b | b in hub.sent && b.session == session :: AtMost(b.sequence, Recalled(hub, session)))
    && (forall b | b in hub.sent && b.session == session && StateOf(hub, session).Some? ::
          b.sequence !in StateOf(hub, session).value.pending)
    && NoRepeats(hub.sent, session)
  }

  ghost predicate NoRepeats(sent: seq<Broadcast>, session: SessionId) {
    forall i, j | 0 <= i < j < |sent| && sent[i].session == session && sent[j].session == session ::
      sent[i].sequence != sent[j].sequence
  }

  /** A step that broadcasts nothing and lets no old number in. */
  lemma QuietStep(hub: Hub, hub': Hub, session: SessionId)
    requires SessionOk(hub, session) && hub'.sent == hub.sent && NotAfter(Recalled(hub, session), Recalled(hub', session))
    requires StateOf(hub', session).Some? ==>
      forall n | n in StateOf(hub', session).value.pending ::
        (StateOf(hub, session).Some? && n in StateOf(hub, session).value.pending) || !AtMost(n, Recalled(hub, session))
    ensures SessionOk(hub', session)
  {
    hide Recalled, StateOf;
  }

  lemma BeginSession(hub: Hub, socket: SocketId, sequence: nat, session: SessionId)
    requires Inv(hub) && SessionOk(hub, session) && socket in hub.sockets
    ensures SessionOk(Begin(hub, socket, sequence).0, session)
  {
    hide SessionOk, Recalled, HighestOf, TasksOk, SentOk, BoundsOk, AttachmentsOk;
    BeginRecalls(hub, socket, sequence, session);
    BeginPending(hub, socket, sequence, session);
    QuietStep(hub, Begin(hub, socket, sequence).0, session);
  }

  /** A frame is taken up only above everything recalled. */
  lemma BeginPending(hub: Hub, socket: SocketId, sequence: nat, session: SessionId)
    requires CellsOk(hub) && socket in hub.sockets
    ensures var after := Begin(hub, socket, sequence).0;
      StateOf(after, session).Some? ==>
        forall n | n in StateOf(after, session).value.pending ::
          (StateOf(hub, session).Some? && n in StateOf(hub, session).value.pending) || !AtMost(n, Recalled(hub, session))
  {
    hide HighestOf;
    var mine := hub.sockets[socket].session;
    RefreshedRecalls(hub, mine, mine);
  }

  lemma CommitSession(hub: Hub, task: Task, session: SessionId)
    requires Inv(hub) && SessionOk(hub, session) && task in hub.tasks && task.cell in hub.cells
    ensures SessionOk(Commit(hub, task), session)
  {
    hide HighestOf, SentOk, BoundsOk, AttachmentsOk, Remember;
    CommitRecalls(hub, task, session);
    assert Attached(hub, task);
  }

  lemma StepSession(hub: Hub, step: Step, hub': Hub, session: SessionId)
    requires Inv(hub) && SessionOk(hub, session) && Next(hub, step, hub') && Remembers(hub, step, hub', session)
    ensures SessionOk(hub', session)
  {
    hide SessionOk, Recalled, Begin, Commit, Inv, SocketsOf;
    StepRecalls(hub, step, hub', session);
    match step
    case FrameArrives(socket, sequence) => BeginSession(hub, socket, sequence, session);
    case Decrypts(task) => CommitSession(hub, task, session);
    case _ => QuietStep(hub, hub', session);
  }

  /** A hibernation leaves it recoverable exactly when it is harmless: some attachment holds the last
      committed number. */
  lemma RemembersIff(hub: Hub, session: SessionId)
    requires Inv(hub) && hub.tasks == {} && session in hub.states
    ensures Remembers(hub, Hibernates, Hibernate(hub), session)
       <==> Stored(hub, session) == hub.cells[hub.states[session]].committed
  {
    hide HighestOf;
    IdleState(hub, session);
    SameStored(hub, Hibernate(hub), session);
  }

  /** The close of this socket leaves the session's state in the map, if it has one. */
  predicate StateStays(hub: Hub, socket: SocketId, session: SessionId)
    requires socket in hub.sockets
  {
    && session in hub.states && hub.states[session] in hub.cells
    && (session != hub.sockets[socket].session || OthersOpen(hub, socket) || hub.cells[hub.states[session]].pending != {})
  }

  /** Another socket's attachment holds the number to recall, if there is one. */
  ghost predicate HeldElsewhere(hub: Hub, socket: SocketId, session: SessionId) {
    || Recalled(hub, session).None?
    || exists id | id in hub.sockets ::
         id != socket && hub.sockets[id].session == session && hub.sockets[id].highest == Recalled(hub, session)
  }

  /** What a close forgets can be told before it: it leaves everything recoverable exactly when the
      state stays or another attachment of the session holds the last committed number. */
  lemma CloseRemembersIff(hub: Hub, socket: SocketId, session: SessionId)
    requires Inv(hub) && socket in hub.sockets
    ensures Remembers(hub, Closes(socket), Close(hub, socket), session)
       <==> StateStays(hub, socket, session) || HeldElsewhere(hub, socket, session)
  {
    hide HighestOf, TasksOk, SentOk, BoundsOk, AttachmentsOk, Recalled, HeldElsewhere;
    var after := Close(hub, socket);
    if StateStays(hub, socket, session) {
      StayingRecalls(hub, socket, session);
    } else {
      GoneRecalls(hub, socket, session);
      RecallBounds(hub, session);
      HeldIff(hub, socket, session);
    }
  }

  lemma StayingRecalls(hub: Hub, socket: SocketId, session: SessionId)
    requires socket in hub.sockets && StateStays(hub, socket, session)
    ensures Recalled(Close(hub, socket), session) == Recalled(hub, session)
  {
    hide HighestOf;
  }

  lemma GoneRecalls(hub: Hub, socket: SocketId, session: SessionId)
    requires CellsOk(hub) && socket in hub.sockets && !StateStays(hub, socket, session)
    ensures Recalled(Close(hub, socket), session) == HighestOf(StoredNumbers(hub.sockets - {socket}, session))
  {
    hide HighestOf;
  }

  /** No attachment holds more than what is recalled. */
  lemma RecallBounds(hub: Hub, session: SessionId)
    requires CellsOk(hub) && AttachmentsOk(hub)
    ensures forall id | id in hub.sockets && hub.sockets[id].session == session ::
      NotAfter(hub.sockets[id].highest, Recalled(hub, session))
  {
    hide HighestOf;
    assert IsHighest(StoredNumbers(hub.sockets, session), Stored(hub, session));
    forall id | id in hub.sockets && hub.sockets[id].session == session
      ensures NotAfter(hub.sockets[id].highest, Recalled(hub, session))
    {
      if hub.sockets[id].highest.Some? {
        assert hub.sockets[id].highest.value in StoredNumbers(hub.sockets, session);
      }
    }
  }

  lemma HeldIff(hub: Hub, socket: SocketId, session: SessionId)
    requires forall id | id in hub.sockets && hub.sockets[id].session == session ::
      NotAfter(hub.sockets[id].highest, Recalled(hub, session))
    ensures NotAfter(Recalled(hub, session), HighestOf(StoredNumbers(hub.sockets - {socket}, session)))
       <==> HeldElsewhere(hub, socket, session)
  {
    hide HighestOf, Recalled;
    var left := hub.sockets - {socket};
    var rest := StoredNumbers(left, session);
    assert IsHighest(rest, HighestOf(rest));
    if HeldElsewhere(hub, socket, session) && Recalled(hub, session).Some? {
      var id :| id in hub.sockets && id != socket && hub.sockets[id].session == session
                && hub.sockets[id].highest == Recalled(hub, session);
      assert id in left && left[id].highest.value in rest;
    }
    if Recalled(hub, session).Some? && HighestOf(rest).Some? {
      var n := HighestOf(rest).value;
      assert n in rest;
      var id :| id in left && left[id].session == session && left[id].highest == Some(n);
      assert id in hub.sockets;
    }
  }

  /** What a caller can look at before the step: the hibernation finds an attachment with the last
      committed number, the close leaves the state or another attachment that holds it. */
  ghost predicate Recoverable(hub: Hub, step: Step, session: SessionId) {
    match step
    case Hibernates => hub.tasks != {} || StateOf(hub, session).None? || Stored(hub, session) == StateOf(hub, session).value.committed
    case Closes(socket) => socket in hub.sockets ==> StateStays(hub, socket, session) || HeldElsewhere(hub, socket, session)
    case _ => true
  }

  lemma RecoverableIff(hub: Hub, step: Step, hub': Hub, session: SessionId)
    requires Inv(hub) && Next(hub, step, hub')
    ensures Remembers(hub, step, hub', session) <==> Recoverable(hub, step, session)
  {
    hide HighestOf, TasksOk, SentOk, BoundsOk, AttachmentsOk, StateStays, HeldElsewhere, Close, Begin, Connect, Commit, Abandon;
    if step.Closes? {
      CloseRemembersIff(hub, step.socket, session);
    } else if step.Hibernates? && hub.tasks == {} && session in hub.states {
      RemembersIff(hub, session);
    } else if step.Hibernates? && hub.tasks == {} {
      SameStored(hub, hub', session);
    }
  }

  /** A session repeats no number, however often its state is lost and rebuilt, as long as every
      hibernation and every close finds what the session has committed recoverable. */
  lemma {:induction false} SessionRepeatsNothing(hubs: seq<Hub>, steps: seq<Step>, i: nat, session: SessionId)
    requires IsRun(hubs, steps) && i < |hubs|
    requires forall k | 0 <= k < i :: Recoverable(hubs[k], steps[k], session)
    ensures SessionOk(hubs[i], session) && NoRepeats(hubs[i].sent, session)
  {
    hide Next, Inv, SessionOk, Recoverable, Remembers;
    if i == 0 {
      NothingSent(hubs[0], session);
    } else {
      SessionRepeatsNothing(hubs, steps, i - 1, session);
      RunKeepsInvariant(hubs, steps, i - 1);
      assert Next(hubs[i - 1], steps[i - 1], hubs[i]);
      RecoverableIff(hubs[i - 1], steps[i - 1], hubs[i], session);
      StepSession(hubs[i - 1], steps[i - 1], hubs[i], session);
    }
    SessionIsOk(hubs[i], session);
  }

  lemma NothingSent(hub: Hub, session: SessionId)
    requires hub.sent == []
    ensures SessionOk(hub, session)
  {
  }

  lemma SessionIsOk(hub: Hub, session: SessionId)
    requires SessionOk(hub, session)
    ensures NoRepeats(hub.sent, session)
  {
  }
}
