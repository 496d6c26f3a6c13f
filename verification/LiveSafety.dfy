/** What the live hub keeps under every interleaving of its handlers. */
module LiveSafety {
  import opened Options
  import opened LiveModel

  lemma HighestIs(numbers: set<nat>, highest: Option<nat>)
    requires IsHighest(numbers, highest)
    ensures HighestOf(numbers) == highest
  {
    HighestIsUnique(numbers, highest, HighestOf(numbers));
  }

  // ---- the steps keep the invariant ---------------------------------------------------------

  /** Sockets may be shut, added without a memory or removed. */
  ghost predicate NothingLearnt(sockets: map<SocketId, Socket>, sockets': map<SocketId, Socket>) {
    forall id | id in sockets' :: sockets'[id].highest == None
      || (id in sockets && sockets[id].session == sockets'[id].session && sockets[id].highest == sockets'[id].highest)
  }

  lemma SocketsKeep(hub: Hub, hub': Hub)
    requires Inv(hub) && hub' == hub.(sockets := hub'.sockets) && NothingLearnt(hub.sockets, hub'.sockets)
    ensures Inv(hub')
  {
  }

  lemma RefreshedKeeps(hub: Hub, session: SessionId)
    requires Inv(hub)
    ensures Inv(Refreshed(hub, session))
  {
    hide Refreshed, SentOk, TasksOk, AttachmentsOk, BoundsOk;
    RefreshedKeepsCells(hub, session);
    RefreshedKeepsTasks(hub, session);
    RefreshedKeepsSent(hub, session);
    RefreshedKeepsAttachments(hub, session);
    RefreshedKeepsBounds(hub, session);
  }

  lemma RefreshedKeepsCells(hub: Hub, session: SessionId)
    requires CellsOk(hub)
    ensures CellsOk(Refreshed(hub, session))
  {
    hide HighestOf, StoredNumbers;
  }

  lemma RefreshedKeepsTasks(hub: Hub, session: SessionId)
    requires CellsOk(hub) && TasksOk(hub)
    ensures TasksOk(Refreshed(hub, session))
  {
    hide HighestOf, StoredNumbers;
    var ready := Refreshed(hub, session);
    forall c, n | c in ready.cells && n in ready.cells[c].pending ensures UnderWay(ready, c, n) {
      assert c in hub.cells && UnderWay(hub, c, n);
    }
  }

  lemma RefreshedKeepsAttachments(hub: Hub, session: SessionId)
    requires CellsOk(hub) && AttachmentsOk(hub)
    ensures AttachmentsOk(Refreshed(hub, session))
  {
    hide HighestOf;
    forall id | id in hub.sockets && hub.sockets[id].session == session && hub.sockets[id].highest.Some?
      ensures AtMost(hub.sockets[id].highest.value, Stored(hub, session))
    {
      assert hub.sockets[id].highest.value in StoredNumbers(hub.sockets, session);
    }
  }

  lemma RefreshedKeepsBounds(hub: Hub, session: SessionId)
    requires CellsOk(hub) && BoundsOk(hub)
    ensures BoundsOk(Refreshed(hub, session))
  {
    hide HighestOf;
    assert IsHighest(StoredNumbers(hub.sockets, session), Stored(hub, session));
  }

  lemma RefreshedKeepsSent(hub: Hub, session: SessionId)
    requires CellsOk(hub) && SentOk(hub)
    ensures SentOk(Refreshed(hub, session))
  {
    hide HighestOf, IsHighest;
  }

  /** A number that continues the session is neither pending nor broadcast. */
  lemma ContinuingIsNew(hub: Hub, cell: CellId, sequence: nat)
    requires SentOk(hub) && cell in hub.cells && Continues(hub.cells[cell], sequence)
    ensures sequence !in hub.cells[cell].pending
    ensures forall b | b in hub.sent && b.cell == cell :: b.sequence < sequence
  {
    var state := hub.cells[cell];
    assert IsHighest(state.pending, HighestOf(state.pending));
  }

  lemma AdmittedKeeps(hub: Hub, task: Task)
    requires Inv(hub) && Attached(hub, task) && InBounds(task.sequence) && Continues(hub.cells[task.cell], task.sequence)
    ensures var state := hub.cells[task.cell];
      Inv(hub.(cells := hub.cells[task.cell := state.(pending := state.pending + {task.sequence})], tasks := hub.tasks + {task}))
  {
    ContinuingIsNew(hub, task.cell, task.sequence);
  }

  lemma BeginKeeps(hub: Hub, socket: SocketId, sequence: nat)
    requires Inv(hub) && socket in hub.sockets
    ensures Inv(Begin(hub, socket, sequence).0)
  {
    hide Inv, Refreshed, Continues, SocketsOf;
    var session := hub.sockets[socket].session;
    RefreshedKeeps(hub, session);
    RefreshedAttaches(hub, session);
    var ready := Refreshed(hub, session);
    SocketsKeep(hub, Shut(hub, socket));
    SocketsKeep(ready, Shut(ready, socket));
    if InBounds(sequence) && Continues(ready.cells[ready.states[session]], sequence) {
      AdmittedKeeps(ready, Task(session, ready.states[session], sequence, SocketsOf(hub.sockets, session)));
    }
  }

  lemma RefreshedAttaches(hub: Hub, session: SessionId)
    ensures var ready := Refreshed(hub, session); session in ready.states && ready.states[session] in ready.cells
  {
  }

  lemma CommitKeeps(hub: Hub, task: Task)
    requires Inv(hub) && task in hub.tasks
    ensures Inv(Commit(hub, task))
  {
    CommitKeepsSent(hub, task);
    CommitKeepsAttachments(hub, task);
  }

  lemma CommitKeepsSent(hub: Hub, task: Task)
    requires Inv(hub) && task in hub.tasks
    ensures SentOk(Commit(hub, task))
  {
    hide Remember, AttachmentsOk;
    assert forall b | b in hub.sent && b.cell == task.cell :: b.sequence != task.sequence;
  }

  lemma CommitKeepsAttachments(hub: Hub, task: Task)
    requires Inv(hub) && task in hub.tasks
    ensures AttachmentsOk(Commit(hub, task))
  {
    hide SentOk;
    assert Attached(hub, task);
  }

  lemma WithdrawKeeps(hub: Hub, task: Task)
    requires Inv(hub) && task in hub.tasks
    ensures var state := hub.cells[task.cell];
      Inv(hub.(cells := hub.cells[task.cell := state.(pending := state.pending - {task.sequence})], tasks := hub.tasks - {task}))
  {
  }

  lemma AbandonKeeps(hub: Hub, task: Task, socket: SocketId)
    requires Inv(hub) && task in hub.tasks && task.cell in hub.cells
    ensures Inv(Abandon(hub, task, socket))
  {
    hide Inv;
    var state := hub.cells[task.cell];
    var gone := hub.(cells := hub.cells[task.cell := state.(pending := state.pending - {task.sequence})],
                     tasks := hub.tasks - {task});
    WithdrawKeeps(hub, task);
    SocketsKeep(gone, Shut(gone, socket));
  }

  /** Only a state that no handler works on is forgotten. */
  lemma CloseKeeps(hub: Hub, socket: SocketId)
    requires Inv(hub) && socket in hub.sockets
    ensures Inv(Close(hub, socket))
  {
    var gone := hub.(sockets := hub.sockets - {socket});
    SocketsKeep(hub, gone);
  }

  lemma ConnectKeeps(hub: Hub, socket: SocketId, session: SessionId, expired: set<SocketId>)
    requires Inv(hub)
    ensures Inv(Connect(hub, socket, session, expired))
  {
    hide Inv, SocketsOf;
    SocketsKeep(hub, Connect(hub, socket, session, expired));
  }

  lemma NextKeeps(hub: Hub, step: Step, hub': Hub)
    requires Inv(hub) && Next(hub, step, hub')
    ensures Inv(hub')
  {
    match step
    case Connects(socket, session, expired) => ConnectKeeps(hub, socket, session, expired);
    case FrameArrives(socket, sequence) => BeginKeeps(hub, socket, sequence);
    case Decrypts(task) => CommitKeeps(hub, task);
    case FailsToDecrypt(task, socket) => AbandonKeeps(hub, task, socket);
    case Shuts(socket) => SocketsKeep(hub, hub');
    case Closes(socket) => CloseKeeps(hub, socket);
    case Hibernates =>
  }

  lemma {:induction false} RunKeepsInvariant(hubs: seq<Hub>, steps: seq<Step>, i: nat)
    requires IsRun(hubs, steps) && i < |hubs|
    ensures Inv(hubs[i])
  {
    if i > 0 {
      RunKeepsInvariant(hubs, steps, i - 1);
      assert Next(hubs[i - 1], steps[i - 1], hubs[i]);
      NextKeeps(hubs[i - 1], steps[i - 1], hubs[i]);
    }
  }

  // ---- what holds in every run --------------------------------------------------------------

  lemma StepExtends(hub: Hub, step: Step, hub': Hub)
    requires CellsOk(hub) && Next(hub, step, hub')
    ensures hub.sent <= hub'.sent
    ensures forall c | c in hub.cells :: c in hub'.cells && NotAfter(hub.cells[c].committed, hub'.cells[c].committed)
  {
    hide HighestOf, Continues, Remember, SocketsOf, OthersOpen;
  }

  lemma {:induction false} RunExtends(hubs: seq<Hub>, steps: seq<Step>, i: nat, j: nat, cell: CellId)
    requires IsRun(hubs, steps) && i <= j < |hubs|
    ensures hubs[i].sent <= hubs[j].sent
    ensures cell in hubs[i].cells ==>
      cell in hubs[j].cells && NotAfter(hubs[i].cells[cell].committed, hubs[j].cells[cell].committed)
    decreases j - i
  {
    if i < j {
      RunKeepsInvariant(hubs, steps, i);
      assert Next(hubs[i], steps[i], hubs[i + 1]) && CellsOk(hubs[i]);
      StepExtends(hubs[i], steps[i], hubs[i + 1]);
      RunExtends(hubs, steps, i + 1, j, cell);
    }
  }

  /** As long as a session's state lives, no frame number is broadcast twice, however the
      decryptions of its frames interleave, fail or overtake each other. */
  lemma NothingIsBroadcastTwice(hubs: seq<Hub>, steps: seq<Step>, i: nat, a: nat, b: nat)
    requires IsRun(hubs, steps) && i < |hubs| && a < b < |hubs[i].sent|
    requires hubs[i].sent[a].cell == hubs[i].sent[b].cell
    ensures hubs[i].sent[a].sequence != hubs[i].sent[b].sequence
  {
    RunKeepsInvariant(hubs, steps, i);
    assert SentOk(hubs[i]);
  }

  /** A state's committed number never decreases and covers everything broadcast under it. */
  lemma CommittedNeverDecreases(hubs: seq<Hub>, steps: seq<Step>, i: nat, j: nat, cell: CellId)
    requires IsRun(hubs, steps) && i <= j < |hubs| && cell in hubs[i].cells
    ensures cell in hubs[j].cells && NotAfter(hubs[i].cells[cell].committed, hubs[j].cells[cell].committed)
    ensures forall b | b in hubs[i].sent && b.cell == cell :: AtMost(b.sequence, hubs[j].cells[cell].committed)
  {
    RunExtends(hubs, steps, i, j, cell);
    RunKeepsInvariant(hubs, steps, j);
    assert SentOk(hubs[j]);
    forall b | b in hubs[i].sent && b.cell == cell ensures b in hubs[j].sent {
      var k :| 0 <= k < |hubs[i].sent| && hubs[i].sent[k] == b;
      assert hubs[j].sent[k] == b;
    }
  }

  /** The state a handler holds is the session's state in the map for as long as the handler is in
      flight: neither a closing socket nor another frame replaces it. */
  lemma HandlersKeepTheirState(hubs: seq<Hub>, steps: seq<Step>, i: nat, task: Task)
    requires IsRun(hubs, steps) && i < |hubs| && task in hubs[i].tasks
    ensures Attached(hubs[i], task) && task.cell in hubs[i].cells
    ensures task.sequence in hubs[i].cells[task.cell].pending
  {
    RunKeepsInvariant(hubs, steps, i);
    assert TasksOk(hubs[i]);
  }

  /** The decision about the next frame of a session. */
  ghost predicate Accepts(hub: Hub, socket: SocketId, sequence: nat)
    requires socket in hub.sockets
  {
    Begin(hub, socket, sequence).1.Some?
  }

  lemma AcceptsIff(hub: Hub, socket: SocketId, sequence: nat)
    requires socket in hub.sockets
    ensures Accepts(hub, socket, sequence) <==>
      InBounds(sequence) && StateOf(Refreshed(hub, hub.sockets[socket].session), hub.sockets[socket].session).Some?
      && Continues(StateOf(Refreshed(hub, hub.sockets[socket].session), hub.sockets[socket].session).value, sequence)
  {
    hide Continues, HighestOf;
  }

  /** The memory of an idle session: its attachments, which lag behind the state. */
  lemma IdleState(hub: Hub, session: SessionId)
    requires Inv(hub) && session in hub.states && forall t | t in hub.tasks :: t.session != session
    ensures hub.states[session] in hub.cells
    ensures var state := hub.cells[hub.states[session]];
      && state.pending == {} && NotAfter(Stored(hub, session), state.committed)
      && (state.committed.Some? ==> InBounds(state.committed.value))
  {
    hide HighestOf, SentOk;
    var cell := hub.states[session];
    assert forall n | n in hub.cells[cell].pending :: UnderWay(hub, cell, n);
    assert IsHighest(StoredNumbers(hub.sockets, session), Stored(hub, session));
  }

  /** Losing the memory of an idle hub changes no decision about a session exactly when some
      attachment of the session still remembers the last committed number. */
  lemma HibernationIsHarmlessIff(hub: Hub, socket: SocketId)
    requires Inv(hub) && hub.tasks == {} && socket in hub.sockets
    requires hub.sockets[socket].session in hub.states
    ensures var session := hub.sockets[socket].session;
      (forall n: nat :: Accepts(Hibernate(hub), socket, n) == Accepts(hub, socket, n))
      <==> Stored(hub, session) == hub.cells[hub.states[session]].committed
  {
    hide Inv, Accepts, HighestOf;
    var session := hub.sockets[socket].session;
    IdleState(hub, session);
    var committed, stored := hub.cells[hub.states[session]].committed, Stored(hub, session);
    forall n: nat
      ensures Accepts(hub, socket, n) <==> InBounds(n) && Continues(SequenceState(committed, {}), n)
      ensures Accepts(Hibernate(hub), socket, n) <==> InBounds(n) && Continues(SequenceState(stored, {}), n)
    {
      AcceptsIff(hub, socket, n);
      AcceptsIff(Hibernate(hub), socket, n);
    }
    HighestIs({}, None);
    if stored != committed {
      var n := if stored.None? then committed.value else stored.value + 1;
      assert InBounds(n) && Continues(SequenceState(stored, {}), n) && !Continues(SequenceState(committed, {}), n);
    }
  }

  /** A commit is remembered: as long as one of the sockets captured with the frame is still
      connected, its attachment now holds the committed number, and hibernating is harmless. */
  lemma CommitIsRemembered(hub: Hub, task: Task, socket: SocketId)
    requires Inv(hub) && task in hub.tasks
    requires socket in task.sockets && socket in hub.sockets && hub.sockets[socket].session == task.session
    ensures var after := Commit(hub, task);
      && AtMost(task.sequence, after.cells[task.cell].committed)
      && Stored(after, task.session) == after.cells[task.cell].committed
  {
    hide SentOk, BoundsOk, HighestOf;
    var after := Commit(hub, task);
    var committed := after.cells[task.cell].committed;
    CommitKeepsAttachments(hub, task);
    assert Attached(hub, task);
    assert after.sockets[socket].highest == committed;
    assert committed.value in StoredNumbers(after.sockets, task.session);
    HighestIs(StoredNumbers(after.sockets, task.session), committed);
  }

  /** Nothing is remembered across a full disconnect: once the last socket of an idle session has
      closed, a new one may start again at any number. */
  lemma DisconnectForgets(hub: Hub, last: SocketId, next: SocketId, sequence: nat)
    requires Inv(hub) && last in hub.sockets && next != last && next !in hub.sockets && InBounds(sequence)
    requires SocketsOf(hub.sockets, hub.sockets[last].session) == {last}
    requires forall t | t in hub.tasks :: t.session != hub.sockets[last].session
    ensures var again := Connect(Close(hub, last), next, hub.sockets[last].session, {});
      next in again.sockets && Accepts(again, next, sequence)
  {
    var session := hub.sockets[last].session;
    var again := Connect(Close(hub, last), next, session, {});
    if session in hub.states { IdleState(hub, session); }
    forall id | id in hub.sockets && id != last ensures hub.sockets[id].session != session {
      assert id !in SocketsOf(hub.sockets, session);
    }
    assert SocketsOf(Close(hub, last).sockets, session) == {};
    assert StoredNumbers(again.sockets, session) == {};
    HighestIs({}, None);
    AcceptsIff(again, next, sequence);
  }
}
