/**
 * The client endpoint against the design: what each send answers and hands to the transport, and which
 * packets and deadlines a poll turns into which events.
 */
module ClientTable {
  import opened ActionTypes
  import opened ClientEndpointSpec

  // ----- sending -----

  /** The ID is valid and unbound, and there is a free slot for it. */
  predicate Reservable(ep: Endpoint, goal: GoalId) {
    goal != 0 && ep.initialized && goal !in ep.bindings && exists i: nat :: i < ep.slotCount && !SlotOwned(ep, i)
  }

  /** The lowest slot that no binding names. */
  predicate LowestFree(ep: Endpoint, slot: nat) {
    slot < ep.slotCount && !SlotOwned(ep, slot) && forall i: nat | i < slot :: SlotOwned(ep, i)
  }

  /** Each answer has exactly its own cause. */
  lemma SendGoalAnswers(ep: Endpoint, goal: GoalId, pdu: AppPdu, timeout: nat, now: nat, sent: bool)
    ensures var answer := SendGoal(ep, goal, pdu, timeout, now, sent).1;
            && (answer == InvalidArgument <==> goal == 0)
            && (answer == NotInitialized <==> goal != 0 && !ep.initialized)
            && (answer == DuplicateGoal <==> goal != 0 && ep.initialized && goal in ep.bindings)
            && (answer == NoFreeSlot <==>
                  && goal != 0 && ep.initialized && goal !in ep.bindings
                  && forall i: nat | i < ep.slotCount :: SlotOwned(ep, i))
            && (answer == InvalidPacket <==> Reservable(ep, goal) && !pdu.Sendable())
            && (answer == TransportError <==> Reservable(ep, goal) && pdu.Sendable() && !sent)
            && (answer == Success <==> Reservable(ep, goal) && pdu.Sendable() && sent)
  {
  }

  /**
   * A packet is handed over exactly when the send got as far as the transport.  It is a Goal Request of that
   * Goal with the application's body, for the lowest free slot; that slot is bound if and only if it was sent.
   */
  lemma SendGoalHandsOver(ep: Endpoint, goal: GoalId, pdu: AppPdu, timeout: nat, now: nat, sent: bool)
    ensures var (next, answer, attempt) := SendGoal(ep, goal, pdu, timeout, now, sent);
            && (attempt.Some? <==> answer == Success || answer == TransportError)
            && (answer != Success ==> next == ep)
            && (attempt.Some? ==>
                  && LowestFree(ep, attempt.value.slot)
                  && attempt.value == RequestPacket(attempt.value.slot, true, 1, 1, goal, pdu.body)
                  && (answer == Success ==>
                        next == Rebind(ep, goal, Binding(attempt.value.slot, AwaitingGoalResponse, now, timeout, 0))))
  {
    if Reservable(ep, goal) {
      var slot := FreeSlotFrom(ep, 0).value;
      assert ep.bindings[goal := Binding(slot, AwaitingGoalResponse, now, timeout, 0)] - {goal} == ep.bindings;
    }
  }

  /** A cancel goes out exactly for an accepted Goal, to the slot it is bound to, and is awaited only if it was sent. */
  lemma SendCancelHandsOver(ep: Endpoint, goal: GoalId, sent: bool)
    requires SlotsDistinct(ep)
    ensures var (next, ok, attempt) := SendCancel(ep, goal, sent);
            var mayCancel := goal in ep.bindings && ep.bindings[goal].state == GoalAccepted;
            && (attempt.Some? <==> mayCancel) && (ok <==> mayCancel && sent)
            && (mayCancel ==> attempt == Some(RequestPacket(ep.bindings[goal].slot, true, 1, 2, goal, [])))
            && (ok ==> next == Rebind(ep, goal, ep.bindings[goal].(state := AwaitingCancelResponse)))
            && (!ok ==> next == ep)
  {
    if MayCancel(ep, goal) {
      var b := ep.bindings[goal];
      assert ep.bindings[goal := b.(state := AwaitingCancelResponse)][goal := b] == ep.bindings;
      assert b.(state := GoalAccepted) == b;
    }
  }

  // ----- receiving -----

  /** The results each state takes. */
  predicate TakesResult(state: BindingState, status: TerminalStatus) {
    match state
    case GoalAccepted => status == Succeeded || status == Aborted
    case AwaitingCancelResponse => status == Succeeded || status == Aborted
    case Cancelling => status == Canceled || status == Aborted
    case _ => false
  }

  /** The packets a binding listens to: those for its slot that answer what it waits for, in order. */
  predicate Hears(b: Binding, p: ServerPacket) {
    && p.slot == b.slot
    && match p
       case GoalResponse(_, _, decision) => b.state == AwaitingGoalResponse && decision != NoDecision
       case CancelResponse(_, _, decision) => b.state == AwaitingCancelResponse && decision != NoDecision
       case Result(_, _, status, _) => TakesResult(b.state, status)
       case Feedback(_, _, seqNo, _) =>
         b.state != AwaitingGoalResponse && b.state != GoalResponseTimedOut && seqNo == b.nextSeq
       case Garbage(_, _) => false
  }

  /** The binding afterwards; none when the packet ends the Goal. */
  function Heard(b: Binding, p: ServerPacket): Option<Binding> {
    match p
    case GoalResponse(_, _, decision) => if decision == Rejected then None else Some(b.(state := GoalAccepted))
    case CancelResponse(_, _, decision) =>
      Some(b.(state := if decision == Rejected then GoalAccepted else Cancelling))
    case Feedback(_, _, _, _) => Some(b.(nextSeq := Next32(b.nextSeq)))
    case _ => None
  }

  /** The packet is for a bound Goal that listens to it. */
  predicate Listened(ep: Endpoint, p: ServerPacket) { p.goal in ep.bindings && Hears(ep.bindings[p.goal], p) }

  /** A poll delivers the head of the queue exactly when somebody listens to it, and then nothing else changes. */
  lemma PollDelivers(ep: Endpoint, now: nat)
    requires SlotsDistinct(ep) && ep.inbox != []
    ensures var (p, rest) := (ep.inbox[0], ep.(inbox := ep.inbox[1..]));
            && (Poll(ep, now).1 == Delivered(p) <==> Listened(ep, p))
            && (Listened(ep, p) ==>
                  var after := Heard(ep.bindings[p.goal], p);
                  Poll(ep, now).0 == if after.None? then Release(rest, p.goal) else Rebind(rest, p.goal, after.value))
            && (!Listened(ep, p) ==> Poll(ep, now) == CheckTimeouts(rest, now))
  {
  }

  /** The wait for a Goal Response has run out. */
  predicate Overdue(ep: Endpoint, g: GoalId, now: nat) {
    && g in ep.bindings && ep.bindings[g].state == AwaitingGoalResponse
    && ep.bindings[g].timeout != 0 && ep.bindings[g].sentAt <= now
       && now >= ep.bindings[g].sentAt + ep.bindings[g].timeout
  }

  /** Otherwise it reports the first overdue wait in table order, and quarantines that one Goal. */
  lemma PollTimesOut(ep: Endpoint, now: nat)
    requires SlotsDistinct(ep)
    ensures var (next, event) := CheckTimeouts(ep, now);
            && (event == NoEvent <==> forall g :: !Overdue(ep, g, now))
            && (event == NoEvent ==> next == ep)
            && (forall g :: event == TimedOut(g) <==> Overdue(ep, g, now) && forall h | Overdue(ep, h, now) :: g <= h)
            && (event.TimedOut? ==>
                  next == Rebind(ep, event.goal, ep.bindings[event.goal].(state := GoalResponseTimedOut)))
            && !event.Delivered?
  {
    forall g ensures Overdue(ep, g, now) <==> g in ExpiredGoals(ep, now) {}
  }

  /**
   * The queue: what was received last is polled last; clearing drops packets only; a reset frees every slot as
   * well.
   */
  lemma QueueIs(ep: Endpoint, p: ServerPacket)
    ensures Receive(ClearPendingEvents(ep), p).inbox == [p]
    ensures ep.inbox != [] ==>
              Receive(ep, p).inbox[0] == ep.inbox[0] && Receive(ep, p).inbox[1..] == ep.inbox[1..] + [p]
    ensures ClearPendingEvents(ep).bindings == ep.bindings
    ensures ResetContexts(ep).inbox == [] && forall slot :: !SlotOwned(ResetContexts(ep), slot)
  {
  }
}
