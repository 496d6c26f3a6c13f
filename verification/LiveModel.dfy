/** The live hub as a state machine.  A frame is decrypted asynchronously, so many handlers are in
    flight at once; each remembers the sequence-state object it started with.  The objects are cells
    numbered in the order of their creation, `states` is the hub's map from sessions to cells, and a
    handler works on its cell whether or not the map still holds it. */
module LiveModel {
  import opened Options

  const MAX_LIVE_SEQUENCE: nat := 1_000_000
  const MAX_SEQUENCE_JUMP: nat := 1_024
  const MAX_AGENT_CONNECTIONS_PER_SESSION: nat := 2

  type SocketId = nat
  type SessionId = nat
  type CellId = nat

  /** An agent's socket and its attachment, which outlives the hub's memory. */
  datatype Socket = Socket(session: SessionId, highest: Option<nat>, open: bool)

  datatype SequenceState = SequenceState(committed: Option<nat>, pending: set<nat>)

  /** A handler waiting for its frame to be decrypted. */
  datatype Task = Task(session: SessionId, cell: CellId, sequence: nat, sockets: set<SocketId>)

  datatype Broadcast = Broadcast(session: SessionId, cell: CellId, sequence: nat)

  datatype Hub = Hub(
    sockets: map<SocketId, Socket>,
    states: map<SessionId, CellId>,
    cells: map<CellId, SequenceState>,
    nextCell: CellId,
    tasks: set<Task>,
    sent: seq<Broadcast>)

  // ---- numbers ------------------------------------------------------------------------------

  function Max(a: nat, b: nat): nat { if a < b then b else a }

  /** The larger of two numbers, either of which may be absent. */
  function Later(a: Option<nat>, b: Option<nat>): Option<nat> {
    if a.None? then b else if b.None? then a else Some(Max(a.value, b.value))
  }

  predicate AtMost(n: nat, bound: Option<nat>) { bound.Some? && n <= bound.value }

  predicate NotAfter(a: Option<nat>, b: Option<nat>) { a.None? || AtMost(a.value, b) }

  ghost predicate IsHighest(numbers: set<nat>, highest: Option<nat>) {
    && (highest.None? <==> numbers == {})
    && (highest.Some? ==> highest.value in numbers)
    && forall n | n in numbers :: AtMost(n, highest)
  }

  lemma HighestIsUnique(numbers: set<nat>, a: Option<nat>, b: Option<nat>)
    requires IsHighest(numbers, a) && IsHighest(numbers, b)
    ensures a == b
  {
  }

  ghost function HighestOf(numbers: set<nat>): (highest: Option<nat>)
    ensures IsHighest(numbers, highest)
  {
    if numbers == {} then None
    else
      var n :| n in numbers;
      var rest := HighestOf(numbers - {n});
      assert numbers == numbers - {n} + {n};
      Later(Some(n), rest)
  }

  // ---- handling a frame ---------------------------------------------------------------------

  function SocketsOf(sockets: map<SocketId, Socket>, session: SessionId): set<SocketId> {
    set id | id in sockets && sockets[id].session == session
  }

  function StoredNumbers(sockets: map<SocketId, Socket>, session: SessionId): set<nat> {
    set id | id in sockets && sockets[id].session == session && sockets[id].highest.Some? :: sockets[id].highest.value
  }

  /** The highest number an attachment of the session remembers. */
  ghost function Stored(hub: Hub, session: SessionId): Option<nat> {
    HighestOf(StoredNumbers(hub.sockets, session))
  }

  predicate InBounds(sequence: nat) { 0 < sequence <= MAX_LIVE_SEQUENCE }

  ghost function HighestSeen(state: SequenceState): Option<nat> {
    Later(state.committed, HighestOf(state.pending))
  }

  /** The number continues the session: above everything committed or under way, by 1024 at
      most. */
  ghost predicate Continues(state: SequenceState, sequence: nat) {
    var highest := HighestSeen(state);
    highest.None? || highest.value < sequence <= highest.value + MAX_SEQUENCE_JUMP
  }

  /** The session's cell, created or brought up to what the attachments remember. */
  ghost function Refreshed(hub: Hub, session: SessionId): Hub {
    var stored := Stored(hub, session);
    if session in hub.states && hub.states[session] in hub.cells then
      var id := hub.states[session];
      var state := hub.cells[id];
      hub.(cells := hub.cells[id := state.(committed := Later(state.committed, stored))])
    else
      hub.(states := hub.states[session := hub.nextCell],
           cells := hub.cells[hub.nextCell := SequenceState(stored, {})],
           nextCell := hub.nextCell + 1)
  }

  function Shut(hub: Hub, socket: SocketId): Hub {
    if socket in hub.sockets
    then hub.(sockets := hub.sockets[socket := hub.sockets[socket].(open := false)])
    else hub
  }

  ghost function StateOf(hub: Hub, session: SessionId): Option<SequenceState> {
    if session in hub.states && hub.states[session] in hub.cells then Some(hub.cells[hub.states[session]]) else None
  }

  /** `webSocketMessage` up to the decryption; None when the frame is refused and the socket
      closed. */
  ghost function Begin(hub: Hub, socket: SocketId, sequence: nat): (Hub, Option<Task>)
    requires socket in hub.sockets
  {
    var session := hub.sockets[socket].session;
    if !InBounds(sequence) then (Shut(hub, socket), None)
    else
      var ready := Refreshed(hub, session);
      var id := ready.states[session];
      var state := ready.cells[id];
      if !Continues(state, sequence) then (Shut(ready, socket), None)
      else
        var task := Task(session, id, sequence, SocketsOf(hub.sockets, session));
        (ready.(cells := ready.cells[id := state.(pending := state.pending + {sequence})],
                tasks := ready.tasks + {task}),
         Some(task))
  }

  /** The attachments a commit writes: those captured when the frame arrived. */
  function Remember(sockets: map<SocketId, Socket>, task: Task, committed: nat): map<SocketId, Socket> {
    map id | id in sockets ::
      if id in task.sockets && sockets[id].session == task.session
         && (sockets[id].highest.None? || sockets[id].highest.value < committed)
      then sockets[id].(highest := Some(committed))
      else sockets[id]
  }

  /** The rest of `webSocketMessage` when the frame decrypts. */
  function Commit(hub: Hub, task: Task): Hub
    requires task.cell in hub.cells
  {
    var state := hub.cells[task.cell];
    var committed := Later(state.committed, Some(task.sequence));
    hub.(cells := hub.cells[task.cell := SequenceState(committed, state.pending - {task.sequence})],
         sockets := Remember(hub.sockets, task, committed.value),
         tasks := hub.tasks - {task},
         sent := hub.sent + [Broadcast(task.session, task.cell, task.sequence)])
  }

  /** ... and when it does not. */
  function Abandon(hub: Hub, task: Task, socket: SocketId): Hub
    requires task.cell in hub.cells
  {
    var state := hub.cells[task.cell];
    Shut(hub.(cells := hub.cells[task.cell := state.(pending := state.pending - {task.sequence})],
              tasks := hub.tasks - {task}),
         socket)
  }

  /** Two unexpired sockets are enough; expired ones met while counting are closed. */
  function Connect(hub: Hub, socket: SocketId, session: SessionId, expired: set<SocketId>): Hub {
    var counted := hub.(sockets := map id | id in hub.sockets ::
                          if id in expired && hub.sockets[id].session == session
                          then hub.sockets[id].(open := false) else hub.sockets[id]);
    if |SocketsOf(hub.sockets, session) - expired| < MAX_AGENT_CONNECTIONS_PER_SESSION
    then counted.(sockets := counted.sockets[socket := Socket(session, None, true)])
    else counted
  }

  predicate OthersOpen(hub: Hub, socket: SocketId)
    requires socket in hub.sockets
  {
    exists id | id in hub.sockets ::
      id != socket && hub.sockets[id].session == hub.sockets[socket].session && hub.sockets[id].open
  }

  /** `webSocketClose`: the last open socket takes the session's state with it, unless a frame is
      still being decrypted. */
  function Close(hub: Hub, socket: SocketId): Hub
    requires socket in hub.sockets
  {
    var session := hub.sockets[socket].session;
    var idle := !(session in hub.states && hub.states[session] in hub.cells)
                || hub.cells[hub.states[session]].pending == {};
    var gone := hub.(sockets := hub.sockets - {socket});
    if !OthersOpen(hub, socket) && idle then gone.(states := gone.states - {session}) else gone
  }

  /** The runtime may drop the hub's memory while no handler runs; sockets and their attachments
      stay. */
  function Hibernate(hub: Hub): Hub {
    if hub.tasks == {} then hub.(states := map[]) else hub
  }

  // ---- steps --------------------------------------------------------------------------------

  datatype Step =
    | Connects(socket: SocketId, session: SessionId, expired: set<SocketId>)
    | FrameArrives(socket: SocketId, sequence: nat)
    | Decrypts(task: Task)
    | FailsToDecrypt(task: Task, socket: SocketId)
    | Shuts(socket: SocketId)
    | Closes(socket: SocketId)
    | Hibernates

  ghost predicate Next(hub: Hub, step: Step, hub': Hub) {
    match step
    case Connects(socket, session, expired) => socket !in hub.sockets && hub' == Connect(hub, socket, session, expired)
    case FrameArrives(socket, sequence) => socket in hub.sockets && hub' == Begin(hub, socket, sequence).0
    case Decrypts(task) => task in hub.tasks && task.cell in hub.cells && hub' == Commit(hub, task)
    case FailsToDecrypt(task, socket) => task in hub.tasks && task.cell in hub.cells && hub' == Abandon(hub, task, socket)
    case Shuts(socket) => hub' == Shut(hub, socket)
    case Closes(socket) => socket in hub.sockets && hub' == Close(hub, socket)
    case Hibernates => hub' == Hibernate(hub)
  }

  const EMPTY: Hub := Hub(map[], map[], map[], 0, {}, [])

  ghost predicate IsRun(hubs: seq<Hub>, steps: seq<Step>) {
    && |hubs| == |steps| + 1 && hubs[0] == EMPTY
    && forall i | 0 <= i < |steps| :: Next(hubs[i], steps[i], hubs[i + 1])
  }

  // ---- invariant ----------------------------------------------------------------------------

  /** Objects exist before they are referred to, and no two sessions share one. */
  ghost predicate CellsOk(hub: Hub) {
    && (forall id | id in hub.cells :: id < hub.nextCell)
    && (forall s | s in hub.states :: hub.states[s] in hub.cells)
    && (forall s, s' | s in hub.states && s' in hub.states && hub.states[s] == hub.states[s'] :: s == s')
  }

  ghost predicate Attached(hub: Hub, task: Task) {
    task.session in hub.states && hub.states[task.session] == task.cell
  }

  /** The cell of a handler in flight is the one in the map, and the pending numbers are exactly
      those of the handlers. */
  ghost predicate TasksOk(hub: Hub) {
    && (forall t | t in hub.tasks :: Attached(hub, t) && t.cell in hub.cells
                                     && t.sequence in hub.cells[t.cell].pending)
    && (forall t, t' | t in hub.tasks && t' in hub.tasks && t.cell == t'.cell && t.sequence == t'.sequence :: t == t')
    && (forall c, n | c in hub.cells && n in hub.cells[c].pending :: UnderWay(hub, c, n))
  }

  ghost predicate UnderWay(hub: Hub, cell: CellId, n: nat) {
    exists t | t in hub.tasks :: t.cell == cell && t.sequence == n
  }

  ghost predicate BoundsOk(hub: Hub) {
    && (forall id | id in hub.sockets && hub.sockets[id].highest.Some? :: InBounds(hub.sockets[id].highest.value))
    && (forall c | c in hub.cells && hub.cells[c].committed.Some? :: InBounds(hub.cells[c].committed.value))
    && (forall t | t in hub.tasks :: InBounds(t.sequence))
  }

  /** Whatever a cell has broadcast is committed in it and no longer pending. */
  ghost predicate SentOk(hub: Hub) {
    && (forall b | b in hub.sent ::
          && b.cell in hub.cells
          && AtMost(b.sequence, hub.cells[b.cell].committed)
          && b.sequence !in hub.cells[b.cell].pending)
    && (forall i, j | 0 <= i < j < |hub.sent| && hub.sent[i].cell == hub.sent[j].cell ::
          hub.sent[i].sequence != hub.sent[j].sequence)
  }

  /** While a session has a state, no attachment remembers more than it. */
  ghost predicate AttachmentsOk(hub: Hub) {
    forall id | id in hub.sockets && hub.sockets[id].session in hub.states
                && hub.states[hub.sockets[id].session] in hub.cells ::
      NotAfter(hub.sockets[id].highest, hub.cells[hub.states[hub.sockets[id].session]].committed)
  }

  ghost predicate Inv(hub: Hub) {
    CellsOk(hub) && TasksOk(hub) && SentOk(hub) && AttachmentsOk(hub) && BoundsOk(hub)
  }
}
