/**
 * The server endpoint against the transaction table of the design: which calls a binding permits, what
 * each permitted call hands to the transport, and what it leaves behind.
 */
module ServerTable {
  import opened ActionTypes
  import opened ServerEndpointSpec

  /** The table of permitted calls, one line per binding state. */
  predicate Permits(b: Binding, op: Op)
    requires IsCall(op)
  {
    match b.state
    case AwaitingGoalDecision => op.OpAcceptGoal? || op.OpRejectGoal? || op.OpDiscard?
    case GoalAccepted =>
      || ((op.OpAcceptCancel? || op.OpRejectCancel?) && b.cancelPending)
      || op.OpAcceptCancelLocally? || op.OpSendFeedback?
      || ((op.OpComplete? || op.OpCompleteLocally?) && (op.status == Succeeded || op.status == Aborted))
    case CancelAccepted =>
      || op.OpSendFeedback?
      || ((op.OpComplete? || op.OpCompleteLocally?) && (op.status == Canceled || op.status == Aborted))
    case ResultCommitted => false
  }

  /** The application's packet is good enough for the call to begin. */
  predicate Begins(op: Op) {
    && (op.OpSendFeedback? ==> op.pdu.Sendable())
    && (op.OpComplete? || op.OpCompleteLocally? ==> op.pdu.Valid())
  }

  predicate Goes(ep: Endpoint, op: Op)
    requires IsCall(op)
  {
    op.goal in ep.bindings && Permits(ep.bindings[op.goal], op) && Begins(op)
  }

  /** The packet of a permitted call, addressed to the slot and Goal of the binding. */
  function Outgoing(b: Binding, op: Op): Option<ServerPacket>
    requires IsCall(op)
  {
    match op
    case OpAcceptGoal(g, _) => Some(GoalResponse(b.slot, g, Accepted))
    case OpRejectGoal(g, _) => Some(GoalResponse(b.slot, g, Rejected))
    case OpAcceptCancel(g, _) => Some(CancelResponse(b.slot, g, Accepted))
    case OpRejectCancel(g, _) => Some(CancelResponse(b.slot, g, Rejected))
    case OpSendFeedback(g, pdu, _) => if pdu.Sendable() then Some(Feedback(b.slot, g, b.nextSeq, pdu.body)) else None
    case OpComplete(g, status, pdu, _) => if pdu.Sendable() then Some(Result(b.slot, g, status, pdu.body)) else None
    case _ => None
  }

  /** The call is done: local, or its packet was sent. */
  predicate Done(b: Binding, op: Op)
    requires IsCall(op)
  {
    op.OpAcceptCancelLocally? || op.OpCompleteLocally? || op.OpDiscard? || (Outgoing(b, op).Some? && op.sent)
  }

  /** The binding after a call that was done: none when the transaction is over. */
  function Settled(b: Binding, op: Op): Option<Binding>
    requires IsCall(op)
  {
    match op
    case OpAcceptGoal(_, _) => Some(Binding(b.slot, GoalAccepted, b.nextSeq, b.cancelPending))
    case OpAcceptCancel(_, _) => Some(Binding(b.slot, CancelAccepted, b.nextSeq, false))
    case OpAcceptCancelLocally(_) => Some(Binding(b.slot, CancelAccepted, b.nextSeq, false))
    case OpRejectCancel(_, _) => Some(Binding(b.slot, b.state, b.nextSeq, false))
    case OpSendFeedback(_, _, _) => Some(Binding(b.slot, b.state, Next32(b.nextSeq), b.cancelPending))
    case _ => None
  }

  /**
   * A call that the table forbids, or that begins with a bad packet, does nothing.  A permitted one hands
   * over its packet; if it is done the binding is settled, otherwise it stays, except that a Result that was
   * not sent leaves the transaction committed.
   */
  lemma MeetsTable(ep: Endpoint, op: Op)
    requires IsCall(op) && ep.initialized && SlotsDistinct(ep)
    ensures if !Goes(ep, op) then Apply(ep, op) == (ep, None) else
            var b := ep.bindings[op.goal];
            var (next, attempt) := Apply(ep, op);
            && attempt == Outgoing(b, op)
            && (Done(b, op) ==>
                  next == if Settled(b, op).None? then Release(ep, op.goal)
                    else Rebind(ep, op.goal, Settled(b, op).value))
            && (!Done(b, op) && !op.OpComplete? ==> next == ep)
            && (!Done(b, op) && op.OpComplete? ==>
                  next == Rebind(ep, op.goal, Binding(b.slot, ResultCommitted, b.nextSeq, false)))
  {
    if op.OpComplete? { TableOfComplete(ep, op); }
  }

  lemma TableOfComplete(ep: Endpoint, op: Op)
    requires op.OpComplete? && ep.initialized && SlotsDistinct(ep)
    ensures if !Goes(ep, op) then Apply(ep, op) == (ep, None) else
            var b := ep.bindings[op.goal];
            var (next, attempt) := Apply(ep, op);
            && attempt == Outgoing(b, op)
            && (Done(b, op) ==> next == Release(ep, op.goal))
            && (!Done(b, op) ==> next == Rebind(ep, op.goal, Binding(b.slot, ResultCommitted, b.nextSeq, false)))
  {
    if Goes(ep, op) && Done(ep.bindings[op.goal], op) {
      var committed := Apply(ep, OpComplete(op.goal, op.status, op.pdu, false)).0;
      assert committed.bindings - {op.goal} == ep.bindings - {op.goal};
    }
  }

  /** The answer a call gives: done or not; for a completion, what became of the commit. */
  function Answer(ep: Endpoint, op: Op): bool
    requires IsCall(op)
  {
    match op
    case OpAcceptGoal(g, sent) => AcceptGoal(ep, g, sent).result
    case OpRejectGoal(g, sent) => RejectGoal(ep, g, sent).result
    case OpAcceptCancel(g, sent) => AcceptCancel(ep, g, sent).result
    case OpRejectCancel(g, sent) => RejectCancel(ep, g, sent).result
    case OpAcceptCancelLocally(g) => AcceptCancelLocally(ep, g).result
    case OpSendFeedback(g, pdu, sent) => SendFeedback(ep, g, pdu, sent).result
    case OpComplete(g, status, pdu, sent) => Complete(ep, g, status, pdu, sent).result == CompleteResult.Sent
    case OpCompleteLocally(g, status, pdu) => CompleteLocally(ep, g, status, pdu).result
    case OpDiscard(g) => DiscardPendingGoal(ep, g).result
  }

  /** The caller is told the truth. */
  lemma AnswersTruly(ep: Endpoint, op: Op)
    requires IsCall(op) && ep.initialized && SlotsDistinct(ep)
    ensures Answer(ep, op) <==> Goes(ep, op) && Done(ep.bindings[op.goal], op)
    ensures op.OpComplete? ==>
              (Complete(ep, op.goal, op.status, op.pdu, op.sent).result == SendFailedAfterCommit <==>
                 Goes(ep, op) && !Done(ep.bindings[op.goal], op))
  {
  }

  // ----- polling -----

  /** A request the receive side lets through: decoded, of this version, for a valid Goal and a configured slot. */
  predicate Readable(ep: Endpoint, p: RequestPacket, kind: nat) {
    p.layoutOk && p.version == 1 && p.kind == kind && p.goal != 0 && p.slot < ep.slotCount
  }

  /** A Goal Request for an ID and a slot that are both free. */
  predicate Opens(ep: Endpoint, p: RequestPacket) {
    Readable(ep, p, 1) && p.goal !in ep.bindings && forall g <- ep.bindings :: ep.bindings[g].slot != p.slot
  }

  /** A Goal Request for an ID or a slot that is taken. */
  predicate Clashes(ep: Endpoint, p: RequestPacket) { Readable(ep, p, 1) && !Opens(ep, p) }

  /** A Cancel Request for an accepted Goal in its own slot, with no cancel undecided. */
  predicate Cancels(ep: Endpoint, p: RequestPacket) {
    && Readable(ep, p, 2) && p.goal in ep.bindings
    && ep.bindings[p.goal] == Binding(p.slot, GoalAccepted, ep.bindings[p.goal].nextSeq, false)
  }

  /** What a poll makes of the packet at the head of the queue. */
  lemma PollMeetsTable(ep: Endpoint)
    requires ep.initialized && ep.inbox != []
    ensures var (p, r) := (ep.inbox[0], Poll(ep));
            var rest := ep.(inbox := ep.inbox[1..]);
            && (r.result == GoalRequest(p.goal, p.body) <==> Opens(ep, p))
            && (r.result == CancelRequest(p.goal, p.body) <==> Cancels(ep, p))
            && (r.attempt == Some(GoalResponse(p.slot, p.goal, Rejected)) <==> Clashes(ep, p))
            && (!Opens(ep, p) && !Cancels(ep, p) ==> r.result == NoEvent && r.next == rest)
            && (!Clashes(ep, p) ==> r.attempt == None)
            && (Opens(ep, p) ==> r.next == Rebind(rest, p.goal, Binding(p.slot, AwaitingGoalDecision, 0, false)))
            && (Cancels(ep, p) ==> r.next == Rebind(rest, p.goal, ep.bindings[p.goal].(cancelPending := true)))
  {
    var p := ep.inbox[0];
    assert SlotOwned(ep, p.slot) <==> !(forall g <- ep.bindings :: ep.bindings[g].slot != p.slot);
  }

  /**
   * The queue: what was received last is polled last; clearing drops packets only; a reset frees every slot as
   * well.
   */
  lemma QueueIs(ep: Endpoint, p: RequestPacket)
    ensures Receive(ClearPendingEvents(ep), p).inbox == [p]
    ensures ep.inbox != [] ==>
              Receive(ep, p).inbox[0] == ep.inbox[0] && Receive(ep, p).inbox[1..] == ep.inbox[1..] + [p]
    ensures ClearPendingEvents(ep).bindings == ep.bindings && Poll(ClearPendingEvents(ep)).result == NoEvent
    ensures Poll(ResetContexts(ep)).result == NoEvent && forall slot :: !SlotOwned(ResetContexts(ep), slot)
  {
  }
}
