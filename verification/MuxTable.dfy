/**
 * What each call on the multiplexer answers, sends and leaves behind, told by who owns the Goal and whether that
 * connection is still up.
 */
module MuxTable {
  import opened ActionTypes
  import opened MuxSpec
  import opened MuxCalls
  import G = ServerGoalMachine
  import E = ServerEndpointSpec
  import K = ServerCalls
  import V = ServerServicesSpec

  /** Connection `i` owns the Goal, in this state. */
  predicate OwnedAt(m: Mux, i: nat, a: nat, g: GoalId, state: OwnerState) {
    i < |m.slots| && Owner(a, g, m.slots[i].conn, state) in m.owners
  }

  /** The calls an application makes through the multiplexer. */
  predicate Offered(op: V.Op) {
    op.OpAcceptGoal? || op.OpRejectGoal? || op.OpAcceptCancel? || op.OpRejectCancel? || op.OpSendFeedback?
      || op.OpComplete?
  }

  predicate Decides(op: V.Op) { op.OpAcceptGoal? || op.OpRejectGoal? }

  function Wanted(op: V.Op): OwnerState { if Decides(op) then Pending else Active }

  function CallOn(m: Mux, a: nat, op: V.Op): Called
    requires Offered(op)
  {
    match op
    case OpAcceptGoal(g, sent) => AcceptGoal(m, a, g, sent)
    case OpRejectGoal(g, sent) => RejectGoal(m, a, g, sent)
    case OpAcceptCancel(g, sent) => DecideCancel(m, a, g, true, sent)
    case OpRejectCancel(g, sent) => DecideCancel(m, a, g, false, sent)
    case OpSendFeedback(g, pdu, sent) => SendFeedback(m, a, g, pdu, sent)
    case OpComplete(g, status, pdu, sent) => Complete(m, a, g, status, pdu, sent)
  }

  lemma Lookup(m: Mux, i: nat, a: nat, g: GoalId, state: OwnerState)
    requires Inv(m) && OwnedAt(m, i, a, g, state)
    ensures OwnerSlotIndex(m, a, g, state) == Some(i) && Fits(m.slots[i], Owner(a, g, m.slots[i].conn, state))
  {
    var o := Owner(a, g, m.slots[i].conn, state);
    SlotIndexOf(m, i);
    OwnerFits(m, i, o);
    var k := OwnerIndex(m.owners, a, g);
    OnlyOwner(m, k.value, o);
  }

  /** With no owner in the state it wants, a call is refused and does nothing. */
  lemma NobodyHome(m: Mux, a: nat, op: V.Op)
    requires Inv(m) && Offered(op) && forall i :: !OwnedAt(m, i, a, op.goal, Wanted(op))
    ensures CallOn(m, a, op) == Called(m, false, None)
  {
    var at := OwnerSlotIndex(m, a, op.goal, Wanted(op));
    if at.Some? {
      LookupIs(m, a, op.goal, Wanted(op));
      assert OwnedAt(m, at.value, a, op.goal, Wanted(op));
    }
  }

  /** The Services call behind it: on a lost connection a Goal is completed locally. */
  function Below(slot: Slot, op: V.Op): V.Op
    requires Offered(op)
  {
    if op.OpComplete? && slot.disconnected then V.OpCompleteLocally(op.goal, op.status, op.pdu) else op
  }

  /** Nothing can be sent for the Goal any more: only its cancel and its completion can still be decided. */
  predicate CutOff(slot: Slot, op: V.Op) { slot.disconnected && (Decides(op) || op.OpSendFeedback?) }

  /** Exactly when a call succeeds. */
  predicate Succeeds(slot: Slot, a: nat, op: V.Op)
    requires Offered(op) && (Decides(op) || Holds(slot, a, op.goal))
  {
    if Decides(op) then !slot.disconnected && op.sent
    else
      var c := slot.server.actions[a].goals[op.goal];
      match op
      case OpSendFeedback(_, pdu, sent) => !slot.disconnected && V.MayReport(c) && pdu.Sendable() && sent
      case OpComplete(_, status, pdu, sent) =>
        V.MayFinish(c, status) && if slot.disconnected then pdu.Valid() else pdu.Sendable() && sent
      case _ => V.Undecided(c) && (c.origin == G.FromClient ==> op.sent)
  }

  lemma PendingAnswers(a: V.Action, g: GoalId, sent: bool)
    requires V.Simulates(a) && E.InState(a.ep, g, E.AwaitingGoalDecision)
    ensures V.AcceptGoal(a, g, sent).ok == sent && V.RejectGoal(a, g, sent).ok == sent
  {
    assert V.Agrees(a, g);
  }

  /** The call goes to the connection that owns the Goal, and answers by the Goal's state there. */
  lemma AnswersExactly(m: Mux, i: nat, a: nat, op: V.Op)
    requires Inv(m) && Offered(op) && OwnedAt(m, i, a, op.goal, Wanted(op))
    ensures a < |m.slots[i].server.actions| && (Decides(op) || Holds(m.slots[i], a, op.goal))
    ensures CallOn(m, a, op).ok <==> Succeeds(m.slots[i], a, op)
  {
    var (slot, g) := (m.slots[i], op.goal);
    Lookup(m, i, a, g, Wanted(op));
    assert SlotOk(slot) && V.Simulates(slot.server.actions[a]);
    if Decides(op) {
      PendingAnswers(slot.server.actions[a], g, op.sent);
    } else {
      ActiveAnswers(m, i, a, op);
    }
  }

  lemma ActiveAnswers(m: Mux, i: nat, a: nat, op: V.Op)
    requires Offered(op) && !Decides(op) && i < |m.slots| && OwnerSlotIndex(m, a, op.goal, Active) == Some(i)
    requires Holds(m.slots[i], a, op.goal) && V.Simulates(m.slots[i].server.actions[a])
    ensures CallOn(m, a, op).ok <==> Succeeds(m.slots[i], a, op)
  {
    var x := m.slots[i].server.actions[a];
    var (status, pdu) := (if op.OpComplete? then op.status else NoStatus,
                          if op.OpComplete? || op.OpSendFeedback? then op.pdu else EmptyPdu);
    V.OnlyTransportRefuses(x, op.goal, status, pdu, op.sent);
  }

  /** The owner entry after a call: gone with a rejected or completed Goal, ACTIVE with an accepted one. */
  ghost predicate OwnersAfter(m: Mux, n: Mux, conn: nat, a: nat, op: V.Op, ok: bool) {
    if !ok || !(Decides(op) || op.OpComplete?) then n.owners == m.owners
    else
      && SameOtherGoals(m.owners, n.owners, a, op.goal)
      && forall o: Owner | o.action == a && o.goal == op.goal ::
           o in n.owners <==> op.OpAcceptGoal? && o == Owner(a, op.goal, conn, Active)
  }

  /** The connection's slot after a call: its Services have taken it, and with its last Goal a lost one is retired. */
  ghost predicate SlotAfter(slot: Slot, next: Slot, owners: seq<Owner>, a: nat, op: V.Op, ok: bool)
    requires Offered(op) && a < |slot.server.actions|
  {
    var done := After(slot, a, Below(slot, op));
    if ok && op.OpComplete? && slot.orphaned && forall o | o in owners :: o.conn != slot.conn
    then next == slot.(server := V.ClearAll(done.server), retired := true)
    else next == done
  }

  /** The packet goes out on the owner's connection. */
  function Wired(conn: nat, a: nat, attempt: Option<ServerPacket>): Option<Wire> {
    if attempt.Some? then Some(Wire(conn, a, attempt.value)) else None
  }

  ghost predicate Left(m: Mux, i: nat, a: nat, op: V.Op, r: Called)
    requires Offered(op) && i < |m.slots| && a < |m.slots[i].server.actions|
  {
    var slot := m.slots[i];
    if CutOff(slot, op) then r == Called(m, false, None)
    else
      && |r.next.slots| == |m.slots| && r.next.nextId == m.nextId && r.next.expected == m.expected
      && (forall k | 0 <= k < |m.slots| && k != i :: r.next.slots[k] == m.slots[k])
      && SlotAfter(slot, r.next.slots[i], r.next.owners, a, op, r.ok) && OwnersAfter(m, r.next, slot.conn, a, op, r.ok)
      && r.attempt == Wired(slot.conn, a, K.OutcomeOf(slot.server.actions[a], Below(slot, op)).attempt)
  }

  lemma DecisionLeaves(m: Mux, i: nat, a: nat, op: V.Op)
    requires Inv(m) && Decides(op) && OwnedAt(m, i, a, op.goal, Pending) && a < |m.slots[i].server.actions|
    ensures Left(m, i, a, op, CallOn(m, a, op))
  {
    Lookup(m, i, a, op.goal, Pending);
    LookupIs(m, a, op.goal, Pending);
    var k := OwnerIndex(m.owners, a, op.goal).value;
    OnlyOwner(m, k, Owner(a, op.goal, m.slots[i].conn, Pending));
    MarkActiveIs(m.owners, k);
    RemoveOwnerIs(m, a, op.goal);
  }

  lemma SteadyLeaves(m: Mux, i: nat, a: nat, op: V.Op)
    requires Inv(m) && (op.OpAcceptCancel? || op.OpRejectCancel? || op.OpSendFeedback?)
    requires OwnedAt(m, i, a, op.goal, Active) && a < |m.slots[i].server.actions|
    ensures Left(m, i, a, op, CallOn(m, a, op))
  {
    Lookup(m, i, a, op.goal, Active);
  }

  lemma CompletionSends(m: Mux, i: nat, a: nat, op: V.Op)
    requires op.OpComplete? && i < |m.slots| && OwnerSlotIndex(m, a, op.goal, Active) == Some(i)
    requires a < |m.slots[i].server.actions|
    ensures CallOn(m, a, op).attempt ==
            Wired(m.slots[i].conn, a, K.OutcomeOf(m.slots[i].server.actions[a], Below(m.slots[i], op)).attempt)
  {
  }

  lemma OwnerGone(m: Mux, n: Mux, conn: nat, a: nat, op: V.Op)
    requires KeysUnique(m.owners) && op.OpComplete? && n.owners == RemoveOwner(m.owners, a, op.goal)
    ensures OwnersAfter(m, n, conn, a, op, true)
  {
    RemoveOwnerIs(m, a, op.goal);
    forall o: Owner | o.action == a && o.goal == op.goal ensures o !in n.owners {
      assert o == Owner(a, op.goal, o.conn, o.state);
    }
  }

  lemma CompletionEnds(m: Mux, i: nat, a: nat, op: V.Op, n: Mux)
    requires op.OpComplete? && i < |m.slots| && a < |m.slots[i].server.actions|
    requires n == Reclaim(m.(slots := m.slots[i := After(m.slots[i], a, Below(m.slots[i], op))],
                             owners := RemoveOwner(m.owners, a, op.goal)), i)
    ensures |n.slots| == |m.slots| && n.nextId == m.nextId && n.expected == m.expected
    ensures n.owners == RemoveOwner(m.owners, a, op.goal)
    ensures forall k | 0 <= k < |m.slots| && k != i :: n.slots[k] == m.slots[k]
    ensures SlotAfter(m.slots[i], n.slots[i], n.owners, a, op, true)
  {
    ReclaimIs(m, i, After(m.slots[i], a, Below(m.slots[i], op)), RemoveOwner(m.owners, a, op.goal));
  }

  lemma CompletionLeaves(m: Mux, i: nat, a: nat, op: V.Op)
    requires Inv(m) && op.OpComplete? && OwnedAt(m, i, a, op.goal, Active) && a < |m.slots[i].server.actions|
    ensures Left(m, i, a, op, CallOn(m, a, op))
  {
    var (slot, r) := (m.slots[i], CallOn(m, a, op));
    Lookup(m, i, a, op.goal, Active);
    CompleteIs(m, i, a, Below(slot, op), op.sent);
    CompletionSends(m, i, a, op);
    if r.ok {
      CompletionEnds(m, i, a, op, r.next);
      OwnerGone(m, r.next, slot.conn, a, op);
    }
  }

  /** Everything a call leaves: the slot it went to, its owner, its packet, and all the rest as it was. */
  lemma LeavesExactly(m: Mux, i: nat, a: nat, op: V.Op)
    requires Inv(m) && Offered(op) && OwnedAt(m, i, a, op.goal, Wanted(op))
    ensures a < |m.slots[i].server.actions| && Left(m, i, a, op, CallOn(m, a, op))
  {
    Lookup(m, i, a, op.goal, Wanted(op));
    if Decides(op) { DecisionLeaves(m, i, a, op); }
    else if op.OpComplete? { CompletionLeaves(m, i, a, op); }
    else { SteadyLeaves(m, i, a, op); }
  }
}
