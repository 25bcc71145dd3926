/**
 * What the network and a poll do to the multiplexer, on values: each move keeps the ownership invariant,
 * loses and gains no accepted Goal, and leaves bindings that nobody owns where they are.
 */
module MuxMoves {
  import opened ActionTypes
  import opened MuxSpec
  import opened MuxCalls
  import opened MuxEvents
  import opened MuxLeftovers
  import E = ServerEndpointSpec
  import V = ServerServicesSpec

  /** The Services of a connection that has just been initialised. */
  function NewServices(slotCounts: seq<nat>): V.Services {
    V.Services(seq(|slotCounts|, i requires 0 <= i < |slotCounts| =>
                   V.Action(map[], E.Endpoint(true, slotCounts[i], map[], []))), [])
  }

  /** What holds across anything but an application call. */
  ghost predicate Moves(m: Mux, n: Mux) { Shifts(m, n) && Leftovers(m, n) }

  /** The same, without a word on bindings that nobody owns. */
  ghost predicate Shifts(m: Mux, n: Mux) { Inv(n) && Evolves(m, n) && SameGoals(m, n) }

  lemma ShiftsBoth(m: Mux, n: Mux, o: Mux)
    requires Shifts(m, n) && Shifts(n, o)
    ensures Shifts(m, o)
  {
    EvolvesBoth(m, n, o);
    SameGoalsBoth(m, n, o);
  }

  lemma ProcessedStays(m: Mux, n: Mux)
    requires Evolves(m, n)
    ensures forall i | 0 <= i < |m.slots| :: m.slots[i].processed ==> n.slots[i].processed
  {
    forall i | 0 <= i < |m.slots| && m.slots[i].processed ensures n.slots[i].processed {
      assert Survives(m.slots[i], n.slots[i]);
    }
  }

  lemma MovesBoth(m: Mux, n: Mux, o: Mux)
    requires Moves(m, n) && Moves(n, o)
    ensures Moves(m, o)
  {
    ShiftsBoth(m, n, o);
    ProcessedStays(n, o);
    LeftoversBoth(m, n, o);
  }

  lemma MovesItself(m: Mux)
    requires Inv(m)
    ensures Moves(m, m)
  {
    EvolvesItself(m, m.owners);
    AllHad(m.owners, m.owners);
    LeftoversItself(m, m.owners);
  }

  lemma AllHad(before: seq<Owner>, after: seq<Owner>)
    requires forall o | o in after :: o in before
    ensures forall o | o in after :: HadOwner(before, o.action, o.goal, o.conn)
  {
    forall o | o in after ensures HadOwner(before, o.action, o.goal, o.conn) { InIsHad(before, o); }
  }

  lemma ShiftsOne(m: Mux, i: nat, slot: Slot, owners: seq<Owner>)
    requires i < |m.slots| && Survives(m.slots[i], slot)
    requires forall a, g :: Holds(slot, a, g) <==> Holds(m.slots[i], a, g)
    requires Inv(m.(slots := m.slots[i := slot], owners := owners))
    ensures Shifts(m, m.(slots := m.slots[i := slot], owners := owners))
  {
    EvolvesOne(m, i, slot, owners);
  }

  lemma MovesOne(m: Mux, i: nat, slot: Slot, owners: seq<Owner>)
    requires i < |m.slots| && Survives(m.slots[i], slot)
    requires forall a, g :: Holds(slot, a, g) <==> Holds(m.slots[i], a, g)
    requires KeepsForsaken(m, i, slot) && forall o | o in owners :: o in m.owners
    requires Inv(m.(slots := m.slots[i := slot], owners := owners))
    ensures Moves(m, m.(slots := m.slots[i := slot], owners := owners))
  {
    ShiftsOne(m, i, slot, owners);
    AllHad(m.owners, owners);
    LeftoversOne(m, i, slot, owners);
  }

  lemma LostMoves(m: Mux, i: nat)
    requires Inv(m) && i < |m.slots|
    ensures Moves(m, m.(slots := m.slots[i := m.slots[i].(disconnected := true)]))
  {
    ConnectionLostInv(m, i);
    MovesOne(m, i, m.slots[i].(disconnected := true), m.owners);
  }

  lemma PacketMoves(m: Mux, i: nat, action: nat, p: RequestPacket)
    requires Inv(m) && i < |m.slots| && action < |m.slots[i].server.actions| && !m.slots[i].disconnected
    ensures Moves(m, m.(slots := m.slots[i := After(m.slots[i], action, V.OpReceive(p))]))
  {
    PacketInv(m, i, action, p);
    var next := After(m.slots[i], action, V.OpReceive(p));
    assert forall a, g :: Holds(next, a, g) == Holds(m.slots[i], a, g) && Stuck(next, a, g) == Stuck(m.slots[i], a, g);
    assert forall a, g :: Awaits(next, a, g) == Awaits(m.slots[i], a, g);
    MovesOne(m, i, next, m.owners);
  }

  lemma NewConnectionMoves(m: Mux, server: V.Services)
    requires Inv(m) && FreshServer(server) && LiveCount(m.slots) < m.expected
    ensures Moves(m, m.(slots := m.slots + [Slot(m.nextId, server, false, false, false, false)],
                        nextId := m.nextId + 1))
  {
    NewConnectionInv(m, server);
    EvolvesItself(m, m.owners);
    NewConnectionLeftovers(m, server);
  }

  lemma NewConnectionLeftovers(m: Mux, server: V.Services)
    ensures Leftovers(m, m.(slots := m.slots + [Slot(m.nextId, server, false, false, false, false)],
                            nextId := m.nextId + 1))
  {
  }

  /** The state after one session was looked at and had room. */
  function Adopted(m: Mux, slotCounts: seq<nat>, initialises: bool): Mux {
    var slot := Slot(m.nextId, NewServices(slotCounts), false, false, false, false);
    m.(slots := if initialises then m.slots + [slot] else m.slots, nextId := m.nextId + 1)
  }

  lemma AdoptedMoves(m: Mux, slotCounts: seq<nat>, initialises: bool)
    requires Inv(m) && LiveCount(m.slots) < m.expected
    ensures Moves(m, Adopted(m, slotCounts, initialises))
  {
    if initialises {
      NewIsFresh(slotCounts);
      NewConnectionMoves(m, NewServices(slotCounts));
    } else {
      UnusedIdMoves(m);
    }
  }

  lemma NewIsFresh(slotCounts: seq<nat>)
    ensures FreshServer(NewServices(slotCounts))
  {
  }

  lemma AdoptedUntouched(m: Mux, slotCounts: seq<nat>, initialises: bool)
    ensures Untouched(m, Adopted(m, slotCounts, initialises))
  {
  }

  /** Processing losses leaves every open connection as it was. */
  lemma LiveUntouched(m: Mux, n: Mux)
    requires |n.slots| == |m.slots| && Evolves(m, n)
    requires forall i | 0 <= i < |n.slots| :: n.slots[i].disconnected ==> n.slots[i].processed
    requires forall i | 0 <= i < |n.slots| :: !n.slots[i].disconnected ==> n.slots[i] == m.slots[i]
    ensures Untouched(m, n)
  {
  }

  lemma UnusedIdMoves(m: Mux)
    requires Inv(m)
    ensures Moves(m, m.(nextId := m.nextId + 1))
  {
    UnusedIdInv(m);
    EvolvesItself(m, m.owners);
    MovesItself(m);
  }

  lemma PolledSlotAwaits(slot: Slot)
    requires Sims(slot.server)
    ensures forall a: nat, g | Awaits(slot, a, g) :: Awaits(PolledSlot(slot), a, g)
  {
    PollServices(slot.server);
    forall a: nat, g | Awaits(slot, a, g) ensures Awaits(PolledSlot(slot), a, g) {
      assert ActionKeeps(slot.server.actions[a], PolledSlot(slot).server.actions[a]);
    }
  }

  lemma PollSlotMoves(m: Mux, i: nat)
    requires Inv(m) && i < |m.slots|
    ensures Moves(m, m.(slots := m.slots[i := PolledSlot(m.slots[i])]))
  {
    PollSlotInv(m, i);
    assert SlotOk(m.slots[i]);
    PolledSlotSurvives(m.slots[i]);
    PolledSlotAwaits(m.slots[i]);
    MovesOne(m, i, PolledSlot(m.slots[i]), m.owners);
  }

  lemma DuplicateShifts(m: Mux, i: nat, action: nat, goal: GoalId, sent: bool)
    requires Inv(m) && i < |m.slots| && action < |m.slots[i].server.actions|
    requires forall o | o in m.owners && o.action == action && o.goal == goal :: o.conn != m.slots[i].conn
    ensures Shifts(m, m.(slots := m.slots[i := After(m.slots[i], action, V.OpRejectGoal(goal, sent))]))
  {
    DuplicateInv(m, i, action, goal, sent);
    var op := V.OpRejectGoal(goal, sent);
    CallKeepsStuck(m.slots[i], action, op);
    RejectHoldsSame(m.slots[i], action, goal, sent);
    ShiftsOne(m, i, After(m.slots[i], action, op), m.owners);
  }

  lemma NewOwnerShifts(m: Mux, i: nat, action: nat, goal: GoalId)
    requires Inv(m) && i < |m.slots| && OwnerIndex(m.owners, action, goal).None?
    requires Awaits(m.slots[i], action, goal) && !m.slots[i].processed
    ensures Shifts(m, m.(owners := m.owners + [Owner(action, goal, m.slots[i].conn, Pending)]))
  {
    NewOwnerInv(m, i, action, goal);
    EvolvesItself(m, m.owners + [Owner(action, goal, m.slots[i].conn, Pending)]);
  }

  lemma DiscardMoves(m: Mux, i: nat, k: nat)
    requires Inv(m) && i < |m.slots| && k < |m.owners|
    requires m.owners[k].conn == m.slots[i].conn && m.owners[k].state == Pending && !m.slots[i].processed
    ensures m.owners[k].action < |m.slots[i].server.actions|
    ensures V.DiscardPendingGoal(m.slots[i].server.actions[m.owners[k].action], m.owners[k].goal).ok
    ensures Moves(m, m.(slots := m.slots[i := After(m.slots[i], m.owners[k].action, V.OpDiscard(m.owners[k].goal))],
                        owners := m.owners[..k] + m.owners[k + 1..]))
  {
    DiscardSucceeds(m, i, m.owners[k]);
    DiscardInv(m, i, k);
    var op := V.OpDiscard(m.owners[k].goal);
    CallKeepsStuck(m.slots[i], m.owners[k].action, op);
    DiscardHoldsSame(m.slots[i], m.owners[k].action, m.owners[k].goal);
    DiscardKeepsForsaken(m, i, k);
    MovesOne(m, i, After(m.slots[i], m.owners[k].action, op), m.owners[..k] + m.owners[k + 1..]);
  }

  lemma DiscardKeepsForsaken(m: Mux, i: nat, k: nat)
    requires i < |m.slots| && k < |m.owners| && m.owners[k].conn == m.slots[i].conn
    requires m.owners[k].action < |m.slots[i].server.actions|
    ensures KeepsForsaken(m, i, After(m.slots[i], m.owners[k].action, V.OpDiscard(m.owners[k].goal)))
  {
    var (o, op) := (m.owners[k], V.OpDiscard(m.owners[k].goal));
    InIsHad(m.owners, o);
    forall a, g | Forsaken(m, i, a, g) ensures Awaits(After(m.slots[i], o.action, op), a, g) {
      CallElsewhere(m.slots[i], o.action, op, a, g);
    }
  }

  lemma DiscardHoldsSame(slot: Slot, action: nat, goal: GoalId)
    requires action < |slot.server.actions|
    ensures forall a, g :: Holds(After(slot, action, V.OpDiscard(goal)), a, g) <==> Holds(slot, a, g)
  {
  }

  lemma OrphanMoves(m: Mux, i: nat, server: V.Services)
    requires Inv(m) && i < |m.slots| && m.slots[i].disconnected && !m.slots[i].processed
    requires forall o | o in m.owners && o.conn == m.slots[i].conn :: o.state == Active
    requires exists o :: o in m.owners && o.conn == m.slots[i].conn
    requires V.Notified(V.StopAll(m.slots[i].server), server)
    ensures Moves(m, m.(slots := m.slots[i := m.slots[i].(server := server, processed := true, orphaned := true)]))
  {
    OrphanInv(m, i, server);
    assert SlotOk(m.slots[i]);
    StopAllFacts(m.slots[i].server);
    MovesOne(m, i, m.slots[i].(server := server, processed := true, orphaned := true), m.owners);
  }

  lemma RetireMoves(m: Mux, i: nat)
    requires Inv(m) && i < |m.slots| && m.slots[i].disconnected && !m.slots[i].processed
    requires forall o | o in m.owners :: o.conn != m.slots[i].conn
    ensures Moves(m, m.(slots := m.slots[i := m.slots[i].(server := V.ClearAll(V.StopAll(m.slots[i].server)),
                                                          processed := true, retired := true)]))
  {
    RetireInv(m, i);
    assert AllOwned(m.slots[i], m.owners);
    MovesOne(m, i, m.slots[i].(server := V.ClearAll(V.StopAll(m.slots[i].server)), processed := true, retired := true),
             m.owners);
  }

  // ----- what polling one slot can surface -----

  /** A Goal Request surfaces only on a connection whose loss is not yet processed, for a Goal it does not own. */
  lemma RequestIsNew(m: Mux, i: nat)
    requires Inv(m) && i < |m.slots| && V.Poll(m.slots[i].server).1.GoalRequest?
    ensures var e := V.Poll(m.slots[i].server).1;
            && e.action < |PolledSlot(m.slots[i]).server.actions|
            && Awaits(PolledSlot(m.slots[i]), e.action, e.goal) && !m.slots[i].processed
            && (forall o | o in m.owners && o.action == e.action && o.goal == e.goal :: o.conn != m.slots[i].conn)
  {
    var slot := m.slots[i];
    var e := V.Poll(slot.server).1;
    assert SlotOk(slot);
    PollServices(slot.server);
    PollRequest(slot.server);
    forall o | o in m.owners && o.action == e.action && o.goal == e.goal ensures o.conn != slot.conn {
      if o.conn == slot.conn { OwnerFits(m, i, o); }
    }
  }

  // ----- one slot's turn in a poll -----

  function OnConnection(conn: nat, replies: seq<(nat, ServerPacket)>): seq<Wire> {
    seq(|replies|, i requires 0 <= i < |replies| => Wire(conn, replies[i].0, replies[i].1))
  }

  datatype Turned = Turned(next: Mux, event: V.Event, wires: seq<Wire>)

  /** A duplicate request is rejected on its own connection, sent or not. */
  function Duplicate(m: Mux, i: nat, action: nat, goal: GoalId, sent: bool): (Mux, seq<Wire>)
    requires i < |m.slots|
  {
    var slot := m.slots[i];
    if action >= |slot.server.actions| then (m, []) else
    var r := V.RejectGoal(slot.server.actions[action], goal, sent);
    (m.(slots := m.slots[i := slot.(server := V.Lift(slot.server, action, r))]),
     if r.attempt.Some? then [Wire(slot.conn, action, r.attempt.value)] else [])
  }

  /** The slot's Services are polled; a request for an owned Goal is rejected, any other becomes a pending owner. */
  function Turn(m: Mux, i: nat, rejectSent: bool): Turned
    requires i < |m.slots|
  {
    var (server, e, replies) := V.Poll(m.slots[i].server);
    var conn := m.slots[i].conn;
    var polled := m.(slots := m.slots[i := m.slots[i].(server := server)]);
    var wires := OnConnection(conn, replies);
    if !e.GoalRequest? then Turned(polled, e, wires)
    else if OwnerIndex(m.owners, e.action, e.goal).None? then
      Turned(polled.(owners := m.owners + [Owner(e.action, e.goal, conn, Pending)]), e, wires)
    else
      var (n, rejects) := Duplicate(polled, i, e.action, e.goal, rejectSent);
      Turned(n, V.NoEvent, wires + rejects)
  }

  lemma DuplicateIs(m: Mux, i: nat, action: nat, goal: GoalId, sent: bool)
    requires i < |m.slots| && action < |m.slots[i].server.actions|
    ensures Duplicate(m, i, action, goal, sent).0 ==
            m.(slots := m.slots[i := After(m.slots[i], action, V.OpRejectGoal(goal, sent))])
  {
  }

  /** Routing a request touches only its own ID, and nothing that was left over before it was polled. */
  lemma RoutedLeftovers(m: Mux, polled: Mux, n: Mux, i: nat, action: nat, goal: GoalId)
    requires Leftovers(m, polled) && ConnsIncrease(m.slots, m.nextId) && i < |m.slots| && |polled.slots| == |m.slots|
    requires !Awaits(m.slots[i], action, goal) && polled.slots[i].conn == m.slots[i].conn
    requires i < |n.slots| && n.slots == polled.slots[i := n.slots[i]]
    requires forall k | 0 <= k < |m.slots| :: polled.slots[k].conn == m.slots[k].conn
    requires n.slots[i].conn == m.slots[i].conn && (polled.slots[i].processed ==> n.slots[i].processed)
    requires forall a, g | (a != action || g != goal) && Awaits(polled.slots[i], a, g) :: Awaits(n.slots[i], a, g)
    requires forall o | o in n.owners ::
               HadOwner(polled.owners, o.action, o.goal, o.conn)
                 || (o.action == action && o.goal == goal && o.conn == m.slots[i].conn)
    ensures Leftovers(m, n)
  {
    forall k, a, g | 0 <= k < |m.slots| && Forsaken(m, k, a, g) ensures n.slots[k].processed || Forsaken(n, k, a, g) {
      assert polled.slots[k].processed || Forsaken(polled, k, a, g);
      if k != i { assert m.slots[k].conn != m.slots[i].conn; }
    }
  }

  /** A request that was just surfaced was not waiting before. */
  lemma NotWaitingBefore(m: Mux, i: nat)
    requires Inv(m) && i < |m.slots| && V.Poll(m.slots[i].server).1.GoalRequest?
    ensures var e := V.Poll(m.slots[i].server).1; !Awaits(m.slots[i], e.action, e.goal)
  {
    assert SlotOk(m.slots[i]);
    PollRequest(m.slots[i].server);
  }

  lemma TurnDuplicateMoves(m: Mux, i: nat, rejectSent: bool)
    requires Inv(m) && i < |m.slots| && V.Poll(m.slots[i].server).1.GoalRequest?
    requires var e := V.Poll(m.slots[i].server).1; OwnerIndex(m.owners, e.action, e.goal).Some?
    ensures Moves(m, Turn(m, i, rejectSent).next)
  {
    var e := V.Poll(m.slots[i].server).1;
    var polled := m.(slots := m.slots[i := PolledSlot(m.slots[i])]);
    var n := Turn(m, i, rejectSent).next;
    PollSlotMoves(m, i);
    RequestIsNew(m, i);
    NotWaitingBefore(m, i);
    DuplicateIs(polled, i, e.action, e.goal, rejectSent);
    DuplicateShifts(polled, i, e.action, e.goal, rejectSent);
    ShiftsBoth(m, polled, n);
    var op := V.OpRejectGoal(e.goal, rejectSent);
    forall a, g | (a != e.action || g != e.goal) && Awaits(polled.slots[i], a, g) ensures Awaits(n.slots[i], a, g) {
      CallElsewhere(polled.slots[i], e.action, op, a, g);
    }
    AllHad(polled.owners, n.owners);
    RoutedLeftovers(m, polled, n, i, e.action, e.goal);
  }

  lemma TurnRequestMoves(m: Mux, i: nat, rejectSent: bool)
    requires Inv(m) && i < |m.slots| && V.Poll(m.slots[i].server).1.GoalRequest?
    requires var e := V.Poll(m.slots[i].server).1; OwnerIndex(m.owners, e.action, e.goal).None?
    ensures Moves(m, Turn(m, i, rejectSent).next)
  {
    var e := V.Poll(m.slots[i].server).1;
    var polled := m.(slots := m.slots[i := PolledSlot(m.slots[i])]);
    var n := Turn(m, i, rejectSent).next;
    PollSlotMoves(m, i);
    RequestIsNew(m, i);
    NotWaitingBefore(m, i);
    NewOwnerShifts(polled, i, e.action, e.goal);
    ShiftsBoth(m, polled, n);
    forall o | o in n.owners
      ensures HadOwner(polled.owners, o.action, o.goal, o.conn)
              || o == Owner(e.action, e.goal, m.slots[i].conn, Pending)
    {
      if o in m.owners { InIsHad(m.owners, o); }
    }
    RoutedLeftovers(m, polled, n, i, e.action, e.goal);
  }

  /** A turn keeps everything a move keeps. */
  lemma TurnMoves(m: Mux, i: nat, rejectSent: bool)
    requires Inv(m) && i < |m.slots|
    ensures Moves(m, Turn(m, i, rejectSent).next)
  {
    var e := V.Poll(m.slots[i].server).1;
    if !e.GoalRequest? {
      PollSlotMoves(m, i);
    } else if OwnerIndex(m.owners, e.action, e.goal).None? {
      TurnRequestMoves(m, i, rejectSent);
    } else {
      TurnDuplicateMoves(m, i, rejectSent);
    }
  }

  /** A turn touches its own slot only, and no flag of it. */
  lemma TurnFrame(m: Mux, i: nat, rejectSent: bool)
    requires i < |m.slots|
    ensures var t := Turn(m, i, rejectSent);
            && t.next.slots == m.slots[i := m.slots[i].(server := t.next.slots[i].server)]
            && t.next.nextId == m.nextId && t.next.expected == m.expected
            && t.next.owners ==
               m.owners + (if t.event.GoalRequest? then [Owner(t.event.action, t.event.goal, m.slots[i].conn, Pending)]
                           else [])
  {
  }

  /** Nothing leaves on a connection whose loss is processed. */
  lemma ProcessedIsSilent(m: Mux, i: nat)
    requires Inv(m) && i < |m.slots| && m.slots[i].processed
    ensures V.Poll(m.slots[i].server).2 == [] && !V.Poll(m.slots[i].server).1.GoalRequest?
  {
    assert SlotOk(m.slots[i]);
    PollServices(m.slots[i].server);
    PollRuntimeKeeps(m.slots[i].server);
    var (t, event) := V.PollRuntime(m.slots[i].server);
    if event == V.NoEvent { PollActionsQuiet(t, 0, []); }
  }

  lemma DuplicateAnswers(a: V.Action, b: V.Action, goal: GoalId, sent: bool)
    requires RequestHead(a.ep, goal) && goal in b.ep.bindings && b.ep.bindings[goal].slot == a.ep.inbox[0].slot
    ensures var r := V.RejectGoal(b, goal, sent); r.attempt.Some? ==> AnswersHead(a.ep, r.attempt.value)
  {
  }

  /** Whatever a turn sends answers a request of its own connection. */
  lemma TurnAnswers(m: Mux, i: nat, rejectSent: bool)
    requires Inv(m) && i < |m.slots|
    ensures forall w | w in Turn(m, i, rejectSent).wires :: AnswersAt(m.slots[i], w)
  {
    var slot := m.slots[i];
    if slot.processed {
      ProcessedIsSilent(m, i);
    } else {
      var (server, e, replies) := V.Poll(slot.server);
      PollReplies(slot.server);
      if e.GoalRequest? {
        DuplicateAnswers(slot.server.actions[e.action], server.actions[e.action], e.goal, rejectSent);
      }
      forall k | 0 <= k < |replies| ensures AnswersAt(slot, OnConnection(slot.conn, replies)[k]) {}
    }
  }

  // ----- the slots in order -----

  ghost predicate AllProcessed(m: Mux) {
    forall i | 0 <= i < |m.slots| :: m.slots[i].disconnected ==> m.slots[i].processed
  }

  /** The loop over the slots before slot `i`: nothing surfaced so far, and the remaining slots are as they were. */
  ghost predicate Halfway(start: Mux, m: Mux, i: nat, wires: seq<Wire>) {
    && Moves(start, m) && i <= |m.slots| == |start.slots| && m.owners == start.owners && AllProcessed(m)
    && (forall k | i <= k < |m.slots| :: m.slots[k] == start.slots[k])
    && (forall w | w in wires :: Answers(start, w))
  }

  /** The loop after it has yielded an event or run out of slots. */
  ghost predicate Finished(start: Mux, m: Mux, event: V.Event, conn: nat, wires: seq<Wire>) {
    && Moves(start, m) && AllProcessed(m) && (forall w | w in wires :: Answers(start, w))
    && m.owners == start.owners + (if event.GoalRequest? then [Owner(event.action, event.goal, conn, Pending)] else [])
  }

  lemma HalfwayStart(m: Mux)
    requires Inv(m) && AllProcessed(m)
    ensures Halfway(m, m, 0, [])
  {
    MovesItself(m);
  }

  lemma HalfwaySkip(start: Mux, m: Mux, i: nat, wires: seq<Wire>)
    requires Halfway(start, m, i, wires) && i < |m.slots|
    ensures Halfway(start, m, i + 1, wires)
  {
  }

  lemma HalfwayEnd(start: Mux, m: Mux, wires: seq<Wire>, conn: nat)
    requires Halfway(start, m, |m.slots|, wires)
    ensures Finished(start, m, V.NoEvent, conn, wires)
  {
    assert start.owners + [] == start.owners;
  }

  lemma TurnWires(start: Mux, m: Mux, i: nat, wires: seq<Wire>, rejectSent: bool)
    requires Halfway(start, m, i, wires) && i < |m.slots|
    ensures forall w | w in wires + Turn(m, i, rejectSent).wires :: Answers(start, w)
  {
    TurnAnswers(m, i, rejectSent);
    forall w | w in Turn(m, i, rejectSent).wires ensures Answers(start, w) { assert AnswersAt(start.slots[i], w); }
  }

  lemma TurnNext(start: Mux, m: Mux, i: nat, wires: seq<Wire>, rejectSent: bool)
    requires Halfway(start, m, i, wires) && i < |m.slots|
    ensures var t := Turn(m, i, rejectSent);
            if t.event == V.NoEvent then Halfway(start, t.next, i + 1, wires + t.wires)
            else Finished(start, t.next, t.event, m.slots[i].conn, wires + t.wires)
  {
    var t := Turn(m, i, rejectSent);
    TurnMoves(m, i, rejectSent);
    MovesBoth(start, m, t.next);
    TurnFrame(m, i, rejectSent);
    TurnWires(start, m, i, wires, rejectSent);
    if t.event == V.NoEvent { assert m.owners + [] == m.owners; }
  }
}
