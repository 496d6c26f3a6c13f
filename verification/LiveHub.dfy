/** The live hub itself: its handlers, and the state machine of LiveModel that they run. */
module LiveHubs {
  import opened Options
  import opened LiveModel
  import opened LiveSafety
  import opened LiveProgress

  /** What a handler keeps across its `await`; `cell` is its reference to the state object. */
  datatype Handler = Handler(session: SessionId, cell: CellId, sequence: nat, sockets: set<SocketId>)

  /** The decision in numbers, for any highest known number. */
  lemma DecisionIs(hub: Hub, socket: SocketId, sequence: nat)
    requires socket in hub.sockets
    ensures forall h: Option<nat> | IsHighest(KnownNumbers(hub, hub.sockets[socket].session), h) ::
      Begin(hub, socket, sequence).1.Some? <==> MayFollow(h, sequence)
    ensures Begin(hub, socket, sequence).1.None? ==>
      var after := Begin(hub, socket, sequence).0;
      after.tasks == hub.tasks && after.sockets == hub.sockets[socket := hub.sockets[socket].(open := false)]
  {
    hide Begin, IsHighest, KnownNumbers, HighestOf;
    var known := KnownNumbers(hub, hub.sockets[socket].session);
    forall h: Option<nat> | IsHighest(known, h)
      ensures Begin(hub, socket, sequence).1.Some? <==> MayFollow(h, sequence)
    {
      TakenUpIff(hub, socket, sequence, h);
    }
    assert IsHighest(known, HighestOf(known)) by { HighestOfIs(known); }
    TakenUpIff(hub, socket, sequence, HighestOf(known));
  }

  lemma HighestOfIs(numbers: set<nat>)
    ensures IsHighest(numbers, HighestOf(numbers))
  {
  }

  /** State objects are shared between the map and the handlers in flight, so they are named:
      `cells` is the memory they live in. */
  class LiveHub {
    var sockets: map<SocketId, Socket>
    var sequenceStates: map<SessionId, CellId>
    var cells: map<CellId, SequenceState>
    var nextCell: CellId
    ghost var tasks: set<Task>
    ghost var sent: seq<Broadcast>

    ghost function View(): Hub
      reads this
    {
      Hub(sockets, sequenceStates, cells, nextCell, tasks, sent)
    }

    ghost predicate Valid()
      reads this
    {
      Inv(View())
    }

    constructor ()
      ensures Valid() && View() == EMPTY
    {
      sockets, sequenceStates, cells, nextCell, tasks, sent := map[], map[], map[], 0, {}, [];
    }

    /** The highest number any attachment of the session remembers. */
    method HighestStored(session: SessionId) returns (committed: Option<nat>)
      ensures committed == HighestOf(StoredNumbers(sockets, session))
    {
      committed := None;
      var rest := SocketsOf(sockets, session);
      ghost var done := {};
      while rest != {}
        invariant forall id | id in sockets && sockets[id].session == session :: id in rest || id in done
        invariant forall id | id in rest + done :: id in sockets && sockets[id].session == session
        invariant forall id | id in done :: NotAfter(sockets[id].highest, committed)
        invariant committed.Some? ==> exists id | id in done && id in sockets :: sockets[id].highest == committed
        decreases rest
      {
        var id :| id in rest;
        rest, done := rest - {id}, done + {id};
        committed := Later(committed, sockets[id].highest);
      }
      ghost var numbers := StoredNumbers(sockets, session);
      if committed.Some? {
        ghost var id :| id in done && id in sockets && sockets[id].highest == committed;
        assert sockets[id].highest.value in numbers;
      }
      assert IsHighest(numbers, committed);
      HighestIs(numbers, committed);
    }

    method HighestPending(pending: set<nat>, committed: Option<nat>) returns (highest: Option<nat>)
      ensures highest == Later(committed, HighestOf(pending))
    {
      highest := committed;
      var rest := pending;
      while rest != {}
        invariant rest <= pending
        invariant NotAfter(committed, highest)
        invariant forall n | n in pending && n !in rest :: AtMost(n, highest)
        invariant highest == committed || (highest.Some? && highest.value in pending && highest.value !in rest)
        decreases rest
      {
        var n :| n in rest;
        rest := rest - {n};
        highest := Later(highest, Some(n));
      }
      assert IsHighest(pending, HighestOf(pending));
    }

    /** Looks the session's state up, or makes it, and brings it up to the attachments. */
    method Refresh(session: SessionId) returns (cell: CellId)
      requires Valid()
      modifies this
      ensures View() == Refreshed(old(View()), session)
      ensures session in sequenceStates && cell == sequenceStates[session] && cell in cells
    {
      hide HighestOf, StoredNumbers, TasksOk, SentOk, AttachmentsOk, BoundsOk;
      var stored := HighestStored(session);
      if session in sequenceStates {
        cell := sequenceStates[session];
        cells := cells[cell := cells[cell].(committed := Later(cells[cell].committed, stored))];
      } else {
        cell := nextCell;
        nextCell := nextCell + 1;
        cells := cells[cell := SequenceState(stored, {})];
        sequenceStates := sequenceStates[session := cell];
      }
    }

    method Reject(socket: SocketId)
      modifies this
      ensures View() == Shut(old(View()), socket)
    {
      if socket in sockets {
        sockets := sockets[socket := sockets[socket].(open := false)];
      }
    }

    /** `webSocketMessage` up to its `await`.  None: the frame was refused and its socket closed. */
    method Receive(socket: SocketId, sequence: nat) returns (handler: Option<Handler>)
      requires Valid() && socket in sockets
      modifies this
      ensures Valid()
      ensures match Begin(old(View()), socket, sequence)
              case (hub, None) => View() == hub && handler == None
              case (hub, Some(task)) =>
                View() == hub && handler == Some(Handler(task.session, task.cell, task.sequence, task.sockets))
      ensures forall h: Option<nat> | IsHighest(KnownNumbers(old(View()), old(sockets)[socket].session), h) ::
        handler.Some? <==> 1 <= sequence <= 1_000_000 && (h.None? || h.value < sequence <= h.value + 1024)
      ensures handler.None? ==> tasks == old(tasks) && sockets == old(sockets)[socket := old(sockets)[socket].(open := false)]
    {
      hide Inv, HighestOf, Refreshed, StoredNumbers, SocketsOf, KnownNumbers;
      handler := None;
      DecisionIs(View(), socket, sequence);
      BeginKeeps(View(), socket, sequence);
      var session := sockets[socket].session;
      if !InBounds(sequence) {
        Reject(socket);
      } else {
        var sessionSockets := SocketsOf(sockets, session);
        var cell := Refresh(session);
        var highest := HighestPending(cells[cell].pending, cells[cell].committed);
        if highest.Some? && (sequence <= highest.value || sequence > highest.value + MAX_SEQUENCE_JUMP) {
          Reject(socket);
        } else {
          cells := cells[cell := cells[cell].(pending := cells[cell].pending + {sequence})];
          handler := Some(Handler(session, cell, sequence, sessionSockets));
          tasks := tasks + {Task(session, cell, sequence, sessionSockets)};
        }
      }
    }

    /** The rest of `webSocketMessage`, after the frame decrypted or failed to. */
    method Resume(handler: Handler, socket: SocketId, decrypted: bool)
      requires Valid() && Task(handler.session, handler.cell, handler.sequence, handler.sockets) in tasks
      modifies this
      ensures Valid() && handler.cell in old(cells)
      ensures var task := Task(handler.session, handler.cell, handler.sequence, handler.sockets);
        View() == if decrypted then Commit(old(View()), task) else Abandon(old(View()), task, socket)
    {
      hide CellsOk, SentOk, AttachmentsOk, BoundsOk, UnderWay, Attached, Remember;
      ghost var task := Task(handler.session, handler.cell, handler.sequence, handler.sockets);
      if decrypted { CommitKeeps(View(), task); } else { AbandonKeeps(View(), task, socket); }
      var state := cells[handler.cell];
      state := state.(pending := state.pending - {handler.sequence});
      tasks := tasks - {task};
      if decrypted {
        state := state.(committed := Later(state.committed, Some(handler.sequence)));
        sockets := Remember(sockets, Task(handler.session, handler.cell, handler.sequence, handler.sockets), state.committed.value);
        sent := sent + [Broadcast(handler.session, handler.cell, handler.sequence)];
      }
      cells := cells[handler.cell := state];
      if !decrypted { Reject(socket); }
    }

    /** `webSocketClose`. */
    method Closed(socket: SocketId)
      requires Valid() && socket in sockets
      modifies this
      ensures Valid() && View() == Close(old(View()), socket)
    {
      hide TasksOk, SentOk, AttachmentsOk, BoundsOk;
      CloseKeeps(View(), socket);
      var session := sockets[socket].session;
      var others := exists id | id in sockets :: id != socket && sockets[id].session == session && sockets[id].open;
      if !others && (session !in sequenceStates || cells[sequenceStates[session]].pending == {}) {
        sequenceStates := sequenceStates - {session};
      }
      sockets := sockets - {socket};
    }
  }
}
