/** Every application call on the multiplexer keeps the ownership invariant, and what that gives after a disconnect. */
module MuxCalls {
  import opened ActionTypes
  import opened MuxSpec
  import G = ServerGoalMachine
  import V = ServerServicesSpec

  predicate IsCall(op: V.Op) {
    !op.OpReceive? && !op.OpPoll? && !op.OpRuntimeCancel? && !op.OpStop? && !op.OpClear?
  }

  /** A call reads nothing from the queue and leaves no client cancel behind that was not there. */
  lemma CallIsLocal(a: V.Action, op: V.Op)
    requires IsCall(op)
    ensures V.Apply(a, op).ep.inbox == a.ep.inbox
    ensures forall g <- V.Apply(a, op).goals ::
              (g in a.goals && V.Apply(a, op).goals[g] == a.goals[g]) || V.Apply(a, op).goals[g].origin == G.NoOrigin
  {
    forall g <- V.Apply(a, op).goals
      ensures (g in a.goals && V.Apply(a, op).goals[g] == a.goals[g]) || V.Apply(a, op).goals[g].origin == G.NoOrigin
    {
      if g != op.goal { V.OthersUntouched(a, op, g); }
    }
  }

  function After(slot: Slot, action: nat, op: V.Op): Slot
    requires action < |slot.server.actions|
  {
    slot.(server := slot.server.(actions := slot.server.actions[action := V.Apply(slot.server.actions[action], op)]))
  }

  lemma CallKeepsSlotOk(slot: Slot, action: nat, op: V.Op)
    requires SlotOk(slot) && action < |slot.server.actions| && IsCall(op)
    ensures SlotOk(After(slot, action, op))
  {
    assert V.Simulates(slot.server.actions[action]);
    V.ApplySimulates(slot.server.actions[action], op);
    CallIsLocal(slot.server.actions[action], op);
  }

  /** What a call does not touch. */
  lemma CallElsewhere(slot: Slot, action: nat, op: V.Op, a: nat, g: GoalId)
    requires action < |slot.server.actions| && IsCall(op) && (a != action || g != op.goal)
    ensures Holds(After(slot, action, op), a, g) == Holds(slot, a, g)
    ensures Awaits(After(slot, action, op), a, g) == Awaits(slot, a, g)
  {
    if a == action { V.OthersUntouched(slot.server.actions[action], op, g); }
  }

  /** The effect of a call on its own Goal is the one the owner table records. */
  ghost predicate Recorded(slot: Slot, goal: GoalId, action: nat, owners: seq<Owner>) {
    && (Holds(slot, action, goal) ==> Owner(action, goal, slot.conn, Active) in owners)
    && (forall st :: Owner(action, goal, slot.conn, st) in owners ==> Fits(slot, Owner(action, goal, slot.conn, st)))
    && (slot.processed && !slot.retired ==> exists o :: o in owners && o.conn == slot.conn)
  }

  /** The owners of other Goals are the same ones. */
  ghost predicate SameOtherGoals(before: seq<Owner>, after: seq<Owner>, action: nat, goal: GoalId) {
    forall o: Owner | o.action != action || o.goal != goal :: o in before <==> o in after
  }

  lemma CallKeepsInv(m: Mux, i: nat, action: nat, op: V.Op, owners: seq<Owner>)
    requires Inv(m) && i < |m.slots| && action < |m.slots[i].server.actions| && IsCall(op)
    requires KeysUnique(owners) && SameOtherGoals(m.owners, owners, action, op.goal)
    requires forall o | o in m.owners || o in owners :: o.action == action && o.goal == op.goal ==>
             o.conn == m.slots[i].conn
    requires Recorded(After(m.slots[i], action, op), op.goal, action, owners)
    ensures Inv(m.(slots := m.slots[i := After(m.slots[i], action, op)], owners := owners))
  {
    var slot := m.slots[i];
    var next := After(slot, action, op);
    assert SlotOk(slot) && AllOwned(slot, m.owners);
    CallKeepsSlotOk(slot, action, op);
    forall a, g | Holds(next, a, g) ensures Owner(a, g, next.conn, Active) in owners {
      if a != action || g != op.goal { CallElsewhere(slot, action, op, a, g); }
    }
    forall o | o in owners && o.conn == next.conn ensures Fits(next, o) {
      if o.action != action || o.goal != op.goal {
        OwnerFits(m, i, o);
        CallElsewhere(slot, action, op, o.action, o.goal);
      } else {
        assert o == Owner(action, op.goal, slot.conn, o.state);
      }
    }
    Replace(m, i, next, owners);
  }

  // ----- the owner of the Goal -----

  /** Unique keys make the first owner found the only one. */
  lemma OnlyOwner(m: Mux, k: nat, o: Owner)
    requires KeysUnique(m.owners) && k < |m.owners| && o in m.owners
    requires o.action == m.owners[k].action && o.goal == m.owners[k].goal
    ensures o == m.owners[k]
  {
  }

  /** Removing an owner removes exactly it. */
  lemma RemoveOwnerIs(m: Mux, action: nat, goal: GoalId)
    requires KeysUnique(m.owners)
    ensures var r := RemoveOwner(m.owners, action, goal);
            && KeysUnique(r)
            && SameOtherGoals(m.owners, r, action, goal)
            && OwnerIndex(r, action, goal).None?
            && (forall st, conn :: Owner(action, goal, conn, st) !in r)
  {
    var r := RemoveOwner(m.owners, action, goal);
    match OwnerIndex(m.owners, action, goal)
    case None =>
    case Some(k) =>
      forall j | 0 <= j < |r| ensures r[j] == m.owners[if j < k then j else j + 1] {}
      forall o: Owner | o.action != action || o.goal != goal ensures o in m.owners <==> o in r {
        if o in m.owners {
          var j :| 0 <= j < |m.owners| && m.owners[j] == o;
          assert r[if j < k then j else j - 1] == o;
        }
      }
  }

  lemma MarkActiveIs(owners: seq<Owner>, k: nat)
    requires KeysUnique(owners) && k < |owners|
    ensures var r := owners[k := owners[k].(state := Active)];
            && KeysUnique(r)
            && SameOtherGoals(owners, r, owners[k].action, owners[k].goal)
            && owners[k].(state := Active) in r
            && (forall o | o in r && o.action == owners[k].action && o.goal == owners[k].goal ::
                o == owners[k].(state := Active))
  {
    var r := owners[k := owners[k].(state := Active)];
    assert r[k] == owners[k].(state := Active);
    forall o: Owner | o.action != owners[k].action || o.goal != owners[k].goal ensures o in owners <==> o in r {
      if o in owners {
        var j :| 0 <= j < |owners| && owners[j] == o;
        assert r[j] == o;
      }
    }
  }

  /** What it means for an owner lookup to succeed. */
  lemma LookupIs(m: Mux, action: nat, goal: GoalId, state: OwnerState)
    requires Inv(m) && OwnerSlotIndex(m, action, goal, state).Some?
    ensures var i := OwnerSlotIndex(m, action, goal, state).value;
            && i < |m.slots|
            && Owner(action, goal, m.slots[i].conn, state) in m.owners
            && Fits(m.slots[i], Owner(action, goal, m.slots[i].conn, state))
            && (forall o | o in m.owners && o.action == action && o.goal == goal ::
                o == Owner(action, goal, m.slots[i].conn, state))
  {
    var k := OwnerIndex(m.owners, action, goal).value;
    var o := m.owners[k];
    OwnerSlot(m, o);
    forall p | p in m.owners && p.action == action && p.goal == goal ensures p == o { OnlyOwner(m, k, p); }
  }

  lemma SlotIndexOf(m: Mux, i: nat)
    requires ConnsIncrease(m.slots, m.nextId) && i < |m.slots|
    ensures SlotIndex(m.slots, m.slots[i].conn) == Some(i)
  {
  }

  // ----- each call -----

  lemma AcceptGoalInv(m: Mux, action: nat, goal: GoalId, sent: bool)
    requires Inv(m)
    ensures Inv(AcceptGoal(m, action, goal, sent).next)
  {
    var at := OwnerSlotIndex(m, action, goal, Pending);
    if at.Some? {
      var i := at.value;
      LookupIs(m, action, goal, Pending);
      var slot := m.slots[i];
      if !slot.disconnected {
        var op := V.OpAcceptGoal(goal, sent);
        var r := V.AcceptGoal(slot.server.actions[action], goal, sent);
        var k := OwnerIndex(m.owners, action, goal).value;
        assert V.Simulates(slot.server.actions[action]) && V.Agrees(slot.server.actions[action], goal);
        var owners := if r.ok then m.owners[k := m.owners[k].(state := Active)] else m.owners;
        if r.ok { MarkActiveIs(m.owners, k); }
        assert After(slot, action, op) == slot.(server := V.Lift(slot.server, action, r));
        CallKeepsInv(m, i, action, op, owners);
      }
    }
  }

  lemma RejectedRecorded(slot: Slot, action: nat, goal: GoalId, sent: bool, owners: seq<Owner>)
    requires SlotOk(slot) && Fits(slot, Owner(action, goal, slot.conn, Pending))
    requires if V.RejectGoal(slot.server.actions[action], goal, sent).ok
             then forall st :: Owner(action, goal, slot.conn, st) !in owners
             else forall o | o in owners && o.action == action && o.goal == goal :: o.state == Pending
    ensures Recorded(After(slot, action, V.OpRejectGoal(goal, sent)), goal, action, owners)
  {
    assert V.Simulates(slot.server.actions[action]) && V.Agrees(slot.server.actions[action], goal);
  }

  lemma RejectGoalInv(m: Mux, action: nat, goal: GoalId, sent: bool)
    requires Inv(m)
    ensures Inv(RejectGoal(m, action, goal, sent).next)
  {
    var at := OwnerSlotIndex(m, action, goal, Pending);
    if at.Some? {
      var i := at.value;
      LookupIs(m, action, goal, Pending);
      var slot := m.slots[i];
      if !slot.disconnected {
        var op := V.OpRejectGoal(goal, sent);
        var r := V.RejectGoal(slot.server.actions[action], goal, sent);
        var owners := if r.ok then RemoveOwner(m.owners, action, goal) else m.owners;
        RemoveOwnerIs(m, action, goal);
        RejectedRecorded(slot, action, goal, sent, owners);
        CallKeepsInv(m, i, action, op, owners);
        assert After(slot, action, op) == slot.(server := V.Lift(slot.server, action, r));
      }
    }
  }

  /** Calls that neither accept nor end a Goal leave the owner table alone. */
  lemma SteadyCallInv(m: Mux, i: nat, action: nat, op: V.Op)
    requires Inv(m) && IsCall(op) && OwnerSlotIndex(m, action, op.goal, Active) == Some(i)
    requires i < |m.slots| && action < |m.slots[i].server.actions|
    requires op.goal in V.Apply(m.slots[i].server.actions[action], op).goals
    ensures Inv(m.(slots := m.slots[i := After(m.slots[i], action, op)]))
  {
    LookupIs(m, action, op.goal, Active);
    CallKeepsInv(m, i, action, op, m.owners);
  }

  function CancelOp(goal: GoalId, accept: bool, sent: bool): V.Op {
    if accept then V.OpAcceptCancel(goal, sent) else V.OpRejectCancel(goal, sent)
  }

  lemma DecideCancelIs(m: Mux, i: nat, action: nat, goal: GoalId, accept: bool, sent: bool)
    requires i < |m.slots| && OwnerSlotIndex(m, action, goal, Active) == Some(i) && Holds(m.slots[i], action, goal)
    ensures DecideCancel(m, action, goal, accept, sent).next ==
            m.(slots := m.slots[i := After(m.slots[i], action, CancelOp(goal, accept, sent))])
    ensures goal in V.Apply(m.slots[i].server.actions[action], CancelOp(goal, accept, sent)).goals
  {
  }

  lemma DecideCancelInv(m: Mux, action: nat, goal: GoalId, accept: bool, sent: bool)
    requires Inv(m)
    ensures Inv(DecideCancel(m, action, goal, accept, sent).next)
  {
    var at := OwnerSlotIndex(m, action, goal, Active);
    if at.Some? {
      LookupIs(m, action, goal, Active);
      DecideCancelIs(m, at.value, action, goal, accept, sent);
      SteadyCallInv(m, at.value, action, CancelOp(goal, accept, sent));
    }
  }

  lemma SendFeedbackIs(m: Mux, i: nat, action: nat, goal: GoalId, pdu: AppPdu, sent: bool)
    requires i < |m.slots| && OwnerSlotIndex(m, action, goal, Active) == Some(i)
    requires Holds(m.slots[i], action, goal) && !m.slots[i].disconnected
    ensures SendFeedback(m, action, goal, pdu, sent).next ==
            m.(slots := m.slots[i := After(m.slots[i], action, V.OpSendFeedback(goal, pdu, sent))])
    ensures goal in V.Apply(m.slots[i].server.actions[action], V.OpSendFeedback(goal, pdu, sent)).goals
  {
  }

  lemma SendFeedbackInv(m: Mux, action: nat, goal: GoalId, pdu: AppPdu, sent: bool)
    requires Inv(m)
    ensures Inv(SendFeedback(m, action, goal, pdu, sent).next)
  {
    var at := OwnerSlotIndex(m, action, goal, Active);
    if at.Some? && !m.slots[at.value].disconnected {
      LookupIs(m, action, goal, Active);
      SendFeedbackIs(m, at.value, action, goal, pdu, sent);
      SteadyCallInv(m, at.value, action, V.OpSendFeedback(goal, pdu, sent));
    }
  }

  lemma ClearAllHoldsNothing(slot: Slot)
    requires Sims(slot.server)
    ensures Sims(V.ClearAll(slot.server)) && Quiet(V.ClearAll(slot.server)) && Drains(V.ClearAll(slot.server))
    ensures forall a, g :: !Holds(slot.(server := V.ClearAll(slot.server)), a, g)
  {
    var s := V.ClearAll(slot.server);
    forall a | 0 <= a < |s.actions| ensures V.Simulates(s.actions[a]) {
      assert V.Simulates(slot.server.actions[a]);
      assert s.actions[a] == V.Apply(slot.server.actions[a], V.OpClear);
      V.ApplySimulates(slot.server.actions[a], V.OpClear);
    }
  }

  lemma CompletedRecorded(slot: Slot, action: nat, op: V.Op, owners: seq<Owner>)
    requires action < |slot.server.actions| && IsCall(op) && op.goal !in V.Apply(slot.server.actions[action], op).goals
    requires forall st, conn :: Owner(action, op.goal, conn, st) !in owners
    requires slot.processed && !slot.retired ==> exists o :: o in owners && o.conn == slot.conn
    ensures Recorded(After(slot, action, op), op.goal, action, owners)
  {
  }

  /** A completed Goal leaves the table; its connection, if lost, still has owners. */
  lemma CompletedInv(m: Mux, i: nat, action: nat, op: V.Op)
    requires Inv(m) && IsCall(op) && OwnerSlotIndex(m, action, op.goal, Active) == Some(i)
    requires i < |m.slots| && action < |m.slots[i].server.actions|
    requires op.goal !in V.Apply(m.slots[i].server.actions[action], op).goals
    requires m.slots[i].processed && !m.slots[i].retired ==>
               exists o :: o in RemoveOwner(m.owners, action, op.goal) && o.conn == m.slots[i].conn
    ensures Inv(m.(slots := m.slots[i := After(m.slots[i], action, op)],
                   owners := RemoveOwner(m.owners, action, op.goal)))
  {
    LookupIs(m, action, op.goal, Active);
    RemoveOwnerIs(m, action, op.goal);
    CompletedRecorded(m.slots[i], action, op, RemoveOwner(m.owners, action, op.goal));
    CallKeepsInv(m, i, action, op, RemoveOwner(m.owners, action, op.goal));
  }

  /** The last Goal of a lost connection retires its slot. */
  lemma LastCompletedInv(m: Mux, i: nat, action: nat, op: V.Op)
    requires Inv(m) && IsCall(op) && OwnerSlotIndex(m, action, op.goal, Active) == Some(i)
    requires i < |m.slots| && action < |m.slots[i].server.actions| && m.slots[i].orphaned
    requires forall o | o in RemoveOwner(m.owners, action, op.goal) :: o.conn != m.slots[i].conn
    ensures var done := After(m.slots[i], action, op);
            Inv(m.(slots := m.slots[i := done.(server := V.ClearAll(done.server), retired := true)],
                   owners := RemoveOwner(m.owners, action, op.goal)))
  {
    LookupIs(m, action, op.goal, Active);
    RemoveOwnerIs(m, action, op.goal);
    assert SlotOk(m.slots[i]);
    CallKeepsSlotOk(m.slots[i], action, op);
    var done := After(m.slots[i], action, op);
    ClearAllHoldsNothing(done);
    Replace(m, i, done.(server := V.ClearAll(done.server), retired := true), RemoveOwner(m.owners, action, op.goal));
  }

  /** A completed Goal of a live connection leaves the table. */
  lemma CompleteLiveInv(m: Mux, i: nat, action: nat, op: V.Op)
    requires Inv(m) && op.OpComplete? && OwnerSlotIndex(m, action, op.goal, Active) == Some(i)
    requires i < |m.slots| && action < |m.slots[i].server.actions| && !m.slots[i].disconnected
    requires op.goal !in V.Apply(m.slots[i].server.actions[action], op).goals
    ensures Inv(Reclaim(m.(slots := m.slots[i := After(m.slots[i], action, op)],
                           owners := RemoveOwner(m.owners, action, op.goal)), i))
  {
    assert SlotOk(m.slots[i]) && !m.slots[i].orphaned;
    CompletedInv(m, i, action, op);
  }

  lemma ReclaimIs(m: Mux, i: nat, slot: Slot, owners: seq<Owner>)
    requires i < |m.slots|
    ensures var n := m.(slots := m.slots[i := slot], owners := owners);
            if slot.orphaned && forall o | o in owners :: o.conn != slot.conn
            then Reclaim(n, i) == m.(slots := m.slots[i := slot.(server := V.ClearAll(slot.server), retired := true)],
                                     owners := owners)
            else Reclaim(n, i) == n
  {
    var retired := slot.(server := V.ClearAll(slot.server), retired := true);
    assert m.slots[i := slot][i := retired] == m.slots[i := retired];
  }

  /** A completed Goal of a dead connection leaves the table, and the last one retires the slot. */
  lemma CompleteDeadInv(m: Mux, i: nat, action: nat, op: V.Op)
    requires Inv(m) && op.OpCompleteLocally? && OwnerSlotIndex(m, action, op.goal, Active) == Some(i)
    requires i < |m.slots| && action < |m.slots[i].server.actions| && m.slots[i].disconnected
    requires op.goal !in V.Apply(m.slots[i].server.actions[action], op).goals
    ensures Inv(Reclaim(m.(slots := m.slots[i := After(m.slots[i], action, op)],
                           owners := RemoveOwner(m.owners, action, op.goal)), i))
  {
    var slot := m.slots[i];
    var owners := RemoveOwner(m.owners, action, op.goal);
    ReclaimIs(m, i, After(slot, action, op), owners);
    if slot.orphaned && forall o | o in owners :: o.conn != slot.conn {
      LastCompletedInv(m, i, action, op);
    } else {
      assert SlotOk(slot);
      CompletedInv(m, i, action, op);
    }
  }

  /** The state a completion leads to. */
  lemma CompleteIs(m: Mux, i: nat, action: nat, op: V.Op, sent: bool)
    requires i < |m.slots| && (if m.slots[i].disconnected then op.OpCompleteLocally?
                               else op.OpComplete? && op.sent == sent)
    requires OwnerSlotIndex(m, action, op.goal, Active) == Some(i) && Holds(m.slots[i], action, op.goal)
    ensures var n := m.(slots := m.slots[i := After(m.slots[i], action, op)]);
            var a := m.slots[i].server.actions[action];
            var ok := if op.OpComplete? then V.Complete(a, op.goal, op.status, op.pdu, sent).ok
                      else V.CompleteLocally(a, op.goal, op.status, op.pdu).ok;
            && Complete(m, action, op.goal, op.status, op.pdu, sent).ok == ok
            && Complete(m, action, op.goal, op.status, op.pdu, sent).next ==
               (if ok then Reclaim(n.(owners := RemoveOwner(m.owners, action, op.goal)), i) else n)
            && (ok <==> op.goal !in V.Apply(a, op).goals)
  {
  }

  lemma CompleteInv(m: Mux, action: nat, goal: GoalId, status: TerminalStatus, pdu: AppPdu, sent: bool)
    requires Inv(m)
    ensures Inv(Complete(m, action, goal, status, pdu, sent).next)
  {
    var at := OwnerSlotIndex(m, action, goal, Active);
    if at.Some? {
      var i := at.value;
      LookupIs(m, action, goal, Active);
      var dead := m.slots[i].disconnected;
      var op := if dead then V.OpCompleteLocally(goal, status, pdu) else V.OpComplete(goal, status, pdu, sent);
      CompleteIs(m, i, action, op, sent);
      if !Complete(m, action, goal, status, pdu, sent).ok {
        SteadyCallInv(m, i, action, op);
      } else if dead {
        CompleteDeadInv(m, i, action, op);
      } else {
        CompleteLiveInv(m, i, action, op);
      }
    }
  }

  // ----- after a disconnect -----

  /** The Goal's connection has been found dead and its runtime cancel has been delivered or was not needed. */
  predicate Delivered(m: Mux, action: nat, goal: GoalId) {
    var at := OwnerSlotIndex(m, action, goal, Active);
    at.Some? && m.slots[at.value].processed && (action, goal) !in m.slots[at.value].server.runtimeEvents
  }

  /** Services answer on the wire only a cancel that came over it. */
  lemma CancelNeedsNoWire(a: V.Action, goal: GoalId, sent: bool)
    requires goal in a.goals && a.goals[goal].origin != G.FromClient
    ensures V.AcceptCancel(a, goal, sent).attempt == None && V.RejectCancel(a, goal, sent).attempt == None
  {
  }

  /** Once the runtime cancel is delivered, no operation on the Goal tries to send anything. */
  lemma NoWireAfterRuntimeCancel(
    m: Mux, action: nat, goal: GoalId, accept: bool, status: TerminalStatus, pdu: AppPdu, sent: bool)
    requires Inv(m) && Delivered(m, action, goal)
    ensures DecideCancel(m, action, goal, accept, sent).attempt == None
    ensures SendFeedback(m, action, goal, pdu, sent).attempt == None
    ensures Complete(m, action, goal, status, pdu, sent).attempt == None
    ensures AcceptGoal(m, action, goal, sent).attempt == None && RejectGoal(m, action, goal, sent).attempt == None
  {
    LookupIs(m, action, goal, Active);
    var slot := m.slots[OwnerSlotIndex(m, action, goal, Active).value];
    assert slot.disconnected && Drains(slot.server) by { assert SlotOk(slot); }
    CancelNeedsNoWire(slot.server.actions[action], goal, sent);
  }

  predicate StatusFits(c: G.Context, status: TerminalStatus) {
    (c.state == Executing && StatusAllowed(false, status)) || (c.state == Canceling && StatusAllowed(true, status))
  }

  /**
   * Draining: on a dead connection a completion succeeds exactly when its status fits the Goal's
   * state and its packet is valid, and it frees the Goal ID for good.
   */
  lemma DeadCompletionFrees(m: Mux, action: nat, goal: GoalId, status: TerminalStatus, pdu: AppPdu, sent: bool)
    requires Inv(m) && Delivered(m, action, goal)
    ensures var i := OwnerSlotIndex(m, action, goal, Active).value;
            var r := Complete(m, action, goal, status, pdu, sent);
            && i < |m.slots| && Holds(m.slots[i], action, goal)
            && (r.ok <==> StatusFits(m.slots[i].server.actions[action].goals[goal], status) && pdu.Valid())
            && (r.ok ==> OwnerIndex(r.next.owners, action, goal).None?)
            && (!r.ok ==> r.next == m)
  {
    LookupIs(m, action, goal, Active);
    RemoveOwnerIs(m, action, goal);
    var i := OwnerSlotIndex(m, action, goal, Active).value;
    assert SlotOk(m.slots[i]);
    DeadCompletionIs(m.slots[i].server.actions[action], goal, status, pdu);
    CompleteIs(m, i, action, V.OpCompleteLocally(goal, status, pdu), sent);
    if !Complete(m, action, goal, status, pdu, sent).ok {
      assert m.slots[i].server.actions[action := m.slots[i].server.actions[action]] == m.slots[i].server.actions;
      assert m.slots[i := m.slots[i]] == m.slots;
    }
  }

  lemma DeadCompletionIs(a: V.Action, goal: GoalId, status: TerminalStatus, pdu: AppPdu)
    requires V.Simulates(a) && goal in a.goals
    ensures V.CompleteLocally(a, goal, status, pdu).ok <==> StatusFits(a.goals[goal], status) && pdu.Valid()
    ensures !V.CompleteLocally(a, goal, status, pdu).ok ==> V.CompleteLocally(a, goal, status, pdu).next == a
  {
    assert V.Agrees(a, goal);
  }

  lemma AcceptDeadAction(a: V.Action, goal: GoalId, sent: bool)
    requires V.Simulates(a) && goal in a.goals && a.goals[goal].cancelPending && a.goals[goal].origin != G.FromClient
    ensures V.AcceptCancel(a, goal, sent).ok
    ensures var b := V.AcceptCancel(a, goal, sent).next; goal in b.goals && b.goals[goal].state == Canceling
  {
    assert V.Agrees(a, goal);
  }

  lemma StillDelivered(m: Mux, i: nat, slot: Slot, action: nat, goal: GoalId)
    requires ConnsIncrease(m.slots, m.nextId) && i < |m.slots| && OwnerSlotIndex(m, action, goal, Active) == Some(i)
    requires slot.conn == m.slots[i].conn && slot.processed && (action, goal) !in slot.server.runtimeEvents
    ensures OwnerSlotIndex(m.(slots := m.slots[i := slot]), action, goal, Active) == Some(i)
    ensures Delivered(m.(slots := m.slots[i := slot]), action, goal)
  {
    SlotIndexOf(m.(slots := m.slots[i := slot]), i);
  }

  /** Accepting a delivered runtime cancel works, and leaves the Goal CANCELING. */
  lemma AcceptDead(m: Mux, action: nat, goal: GoalId, sent: bool)
    requires Inv(m) && Delivered(m, action, goal)
    requires var i := OwnerSlotIndex(m, action, goal, Active).value;
             i < |m.slots| && Holds(m.slots[i], action, goal)
               && m.slots[i].server.actions[action].goals[goal].cancelPending
    ensures var i := OwnerSlotIndex(m, action, goal, Active).value;
            var r := DecideCancel(m, action, goal, true, sent);
            && r.ok && Delivered(r.next, action, goal) && OwnerSlotIndex(r.next, action, goal, Active) == Some(i)
            && i < |r.next.slots| && Holds(r.next.slots[i], action, goal)
            && r.next.slots[i].server.actions[action].goals[goal].state == Canceling
  {
    var i := OwnerSlotIndex(m, action, goal, Active).value;
    assert SlotOk(m.slots[i]);
    AcceptDeadAction(m.slots[i].server.actions[action], goal, sent);
    var op := CancelOp(goal, true, sent);
    DecideCancelIs(m, i, action, goal, true, sent);
    StillDelivered(m, i, After(m.slots[i], action, op), action, goal);
  }

  /** Accepting the runtime cancel always works, and then CANCELED or ABORTED completes and frees the ID. */
  lemma AcceptThenComplete(m: Mux, action: nat, goal: GoalId, status: TerminalStatus, pdu: AppPdu, sent: bool)
    requires Inv(m) && Delivered(m, action, goal) && StatusAllowed(true, status) && pdu.Valid()
    requires var i := OwnerSlotIndex(m, action, goal, Active).value;
             i < |m.slots| && Holds(m.slots[i], action, goal)
               && m.slots[i].server.actions[action].goals[goal].cancelPending
    ensures var r := DecideCancel(m, action, goal, true, sent);
            && r.ok
            && Complete(r.next, action, goal, status, pdu, sent).ok
            && OwnerIndex(Complete(r.next, action, goal, status, pdu, sent).next.owners, action, goal).None?
  {
    AcceptDead(m, action, goal, sent);
    var r := DecideCancel(m, action, goal, true, sent);
    DecideCancelInv(m, action, goal, true, sent);
    DeadCompletionFrees(r.next, action, goal, status, pdu, sent);
  }

  /** Services refuse every call on a Goal that is FINISHING. */
  lemma FinishingRefuses(a: V.Action, goal: GoalId, status: TerminalStatus, pdu: AppPdu, sent: bool)
    requires V.Agrees(a, goal) && goal in a.goals && a.goals[goal].state == Finishing
    ensures !V.Complete(a, goal, status, pdu, sent).ok && V.Complete(a, goal, status, pdu, sent).next == a
    ensures !V.CompleteLocally(a, goal, status, pdu).ok && V.CompleteLocally(a, goal, status, pdu).next == a
    ensures !V.AcceptCancel(a, goal, sent).ok && !V.RejectCancel(a, goal, sent).ok
            && !V.SendFeedback(a, goal, pdu, sent).ok
  {
  }

  /** A Goal whose Result was lost after the commit point cannot be completed by any call, live or dead. */
  lemma FinishingIsStuck(m: Mux, action: nat, goal: GoalId, status: TerminalStatus, pdu: AppPdu, sent: bool)
    requires Inv(m) && OwnerSlotIndex(m, action, goal, Active).Some?
    requires var i := OwnerSlotIndex(m, action, goal, Active).value;
             i < |m.slots| && Holds(m.slots[i], action, goal)
               && m.slots[i].server.actions[action].goals[goal].state == Finishing
    ensures !Complete(m, action, goal, status, pdu, sent).ok && Complete(m, action, goal, status, pdu, sent).next == m
    ensures !DecideCancel(m, action, goal, true, sent).ok && !DecideCancel(m, action, goal, false, sent).ok
    ensures !SendFeedback(m, action, goal, pdu, sent).ok
  {
    var i := OwnerSlotIndex(m, action, goal, Active).value;
    var slot := m.slots[i];
    assert V.Agrees(slot.server.actions[action], goal) by {
      assert SlotOk(slot) && V.Simulates(slot.server.actions[action]);
    }
    FinishingRefuses(slot.server.actions[action], goal, status, pdu, sent);
    assert slot.server.actions[action := slot.server.actions[action]] == slot.server.actions;
    assert m.slots[i := slot] == m.slots;
  }

  /** The packet names the Goal, and goes out on the connection of the Goal's owner. */
  predicate Routed(m: Mux, action: nat, goal: GoalId, w: Wire) {
    && w.action == action && w.packet.goal == goal && OwnerIndex(m.owners, action, goal).Some?
    && m.owners[OwnerIndex(m.owners, action, goal).value].conn == w.conn
  }

  lemma AttemptIsRouted(m: Mux, i: nat, action: nat, goal: GoalId, state: OwnerState, r: V.Outcome)
    requires i < |m.slots| && OwnerSlotIndex(m, action, goal, state) == Some(i)
    requires r.attempt.Some? ==> r.attempt.value.goal == goal
    ensures var w := Attempt(m, i, action, r); w.Some? ==> Routed(m, action, goal, w.value)
  {
  }

  lemma PendingCallRouted(m: Mux, action: nat, goal: GoalId, sent: bool, w: Wire)
    requires AcceptGoal(m, action, goal, sent).attempt == Some(w)
             || RejectGoal(m, action, goal, sent).attempt == Some(w)
    ensures Routed(m, action, goal, w)
  {
    var i := OwnerSlotIndex(m, action, goal, Pending).value;
    var a := m.slots[i].server.actions[action];
    AttemptIsRouted(m, i, action, goal, Pending, V.AcceptGoal(a, goal, sent));
    AttemptIsRouted(m, i, action, goal, Pending, V.RejectGoal(a, goal, sent));
  }

  lemma DecideCancelRouted(m: Mux, action: nat, goal: GoalId, accept: bool, sent: bool, w: Wire)
    requires DecideCancel(m, action, goal, accept, sent).attempt == Some(w)
    ensures Routed(m, action, goal, w)
  {
    var i := OwnerSlotIndex(m, action, goal, Active).value;
    var a := m.slots[i].server.actions[action];
    AttemptIsRouted(m, i, action, goal, Active,
      if accept then V.AcceptCancel(a, goal, sent) else V.RejectCancel(a, goal, sent));
  }

  lemma SendFeedbackRouted(m: Mux, action: nat, goal: GoalId, pdu: AppPdu, sent: bool, w: Wire)
    requires SendFeedback(m, action, goal, pdu, sent).attempt == Some(w)
    ensures Routed(m, action, goal, w)
  {
    var i := OwnerSlotIndex(m, action, goal, Active).value;
    AttemptIsRouted(m, i, action, goal, Active, V.SendFeedback(m.slots[i].server.actions[action], goal, pdu, sent));
  }

  lemma CompleteRouted(m: Mux, action: nat, goal: GoalId, status: TerminalStatus, pdu: AppPdu, sent: bool, w: Wire)
    requires Complete(m, action, goal, status, pdu, sent).attempt == Some(w)
    ensures Routed(m, action, goal, w)
  {
    var i := OwnerSlotIndex(m, action, goal, Active).value;
    var a := m.slots[i].server.actions[action];
    AttemptIsRouted(m, i, action, goal, Active,
      if m.slots[i].disconnected then V.CompleteLocally(a, goal, status, pdu)
        else V.Complete(a, goal, status, pdu, sent));
  }

  /** Routing: whatever a call on a Goal sends goes out on the connection that owns the Goal, which is unique. */
  lemma PacketsStayOnOwningConnection(
    m: Mux, action: nat, goal: GoalId, accept: bool, status: TerminalStatus, pdu: AppPdu, sent: bool, w: Wire)
    requires KeysUnique(m.owners)
    requires || AcceptGoal(m, action, goal, sent).attempt == Some(w)
             || RejectGoal(m, action, goal, sent).attempt == Some(w)
             || DecideCancel(m, action, goal, accept, sent).attempt == Some(w)
             || SendFeedback(m, action, goal, pdu, sent).attempt == Some(w)
             || Complete(m, action, goal, status, pdu, sent).attempt == Some(w)
    ensures w.action == action && w.packet.goal == goal
    ensures exists o :: o in m.owners && o.action == action && o.goal == goal
    ensures forall o | o in m.owners && o.action == action && o.goal == goal :: o.conn == w.conn
  {
    if DecideCancel(m, action, goal, accept, sent).attempt == Some(w) {
      DecideCancelRouted(m, action, goal, accept, sent, w);
    } else if SendFeedback(m, action, goal, pdu, sent).attempt == Some(w) {
      SendFeedbackRouted(m, action, goal, pdu, sent, w);
    } else if Complete(m, action, goal, status, pdu, sent).attempt == Some(w) {
      CompleteRouted(m, action, goal, status, pdu, sent, w);
    } else {
      PendingCallRouted(m, action, goal, sent, w);
    }
    var k := OwnerIndex(m.owners, action, goal).value;
    forall o | o in m.owners && o.action == action && o.goal == goal ensures o.conn == w.conn { OnlyOwner(m, k, o); }
  }
}
