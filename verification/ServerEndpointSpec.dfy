/**
 * The server packet endpoint as a value: one binding per Goal, and no separate slot table.  A slot
 * is owned exactly when some binding names it; module ServerEndpoint keeps the source's redundant
 * slot vector and is proved to compute these functions.
 */
module ServerEndpointSpec {
  import opened ActionTypes

  datatype BindingState = AwaitingGoalDecision | GoalAccepted | CancelAccepted | ResultCommitted

  datatype Binding = Binding(slot: nat, state: BindingState, nextSeq: nat, cancelPending: bool)

  datatype Endpoint = Endpoint(
    initialized: bool, slotCount: nat, bindings: map<GoalId, Binding>, inbox: seq<RequestPacket>)

  datatype Event = NoEvent | GoalRequest(goal: GoalId, body: Payload) | CancelRequest(goal: GoalId, body: Payload)

  datatype CompleteResult = NotCommitted | Sent | SendFailedAfterCommit

  /** Result of one call: next state, answer, and the packet given to the transport, if any. */
  datatype Step<R> = Step(next: Endpoint, result: R, attempt: Option<ServerPacket>)
  {
    function Delivered(sent: bool): seq<ServerPacket> {
      if sent && attempt.Some? then [attempt.value] else []
    }
  }

  predicate SlotOwned(ep: Endpoint, slot: nat) {
    exists g :: g in ep.bindings && ep.bindings[g].slot == slot
  }

  predicate InState(ep: Endpoint, goal: GoalId, state: BindingState) {
    goal in ep.bindings && ep.bindings[goal].state == state
  }

  /** Bindings sit in distinct slots of the routing table. */
  ghost predicate SlotsDistinct(ep: Endpoint) {
    && (forall g <- ep.bindings :: ValidGoalId(g) && ep.bindings[g].slot < ep.slotCount)
    && (forall g, h | g in ep.bindings && h in ep.bindings && g != h :: ep.bindings[g].slot != ep.bindings[h].slot)
    && (!ep.initialized ==> ep.bindings == map[])
  }

  function Release(ep: Endpoint, goal: GoalId): Endpoint {
    ep.(bindings := ep.bindings - {goal})
  }

  function Rebind(ep: Endpoint, goal: GoalId, b: Binding): Endpoint {
    ep.(bindings := ep.bindings[goal := b])
  }

  /** A refused call: nothing changes and nothing is sent. */
  function Refuse<R>(ep: Endpoint, answer: R): Step<R> { Step(ep, answer, None) }

  function Poll(ep: Endpoint): Step<Event> {
    if !ep.initialized || ep.inbox == [] then Refuse(ep, NoEvent) else
    var p := ep.inbox[0];
    var ep1 := ep.(inbox := ep.inbox[1..]);
    if p.slot >= ep.slotCount || !p.WellFormed() then Refuse(ep1, NoEvent)
    else if p.kind == REQUEST_KIND_CANCEL then
      if CancelIgnored(ep, p) then Refuse(ep1, NoEvent)
      else Step(Rebind(ep1, p.goal, ep.bindings[p.goal].(cancelPending := true)), CancelRequest(p.goal, p.body), None)
    else if p.goal in ep.bindings || SlotOwned(ep, p.slot) then
      Step(ep1, NoEvent, Some(GoalResponse(p.slot, p.goal, Rejected)))
    else
      Step(Rebind(ep1, p.goal, Binding(p.slot, AwaitingGoalDecision, 0, false)), GoalRequest(p.goal, p.body), None)
  }

  predicate CancelIgnored(ep: Endpoint, p: RequestPacket) {
    || p.goal !in ep.bindings
    || ep.bindings[p.goal].slot != p.slot
    || ep.bindings[p.goal].state != GoalAccepted
    || ep.bindings[p.goal].cancelPending
  }

  predicate ErrorReplyFires(ep: Endpoint) {
    Poll(ep).attempt.Some?
  }

  function AcceptGoal(ep: Endpoint, goal: GoalId, sent: bool): Step<bool> {
    if !ValidGoalId(goal) || !ep.initialized || !InState(ep, goal, AwaitingGoalDecision) then Refuse(ep, false) else
    var b := ep.bindings[goal];
    Step(if sent then Rebind(ep, goal, b.(state := GoalAccepted)) else ep, sent,
         Some(GoalResponse(b.slot, goal, Accepted)))
  }

  function RejectGoal(ep: Endpoint, goal: GoalId, sent: bool): Step<bool> {
    if !ValidGoalId(goal) || !ep.initialized || !InState(ep, goal, AwaitingGoalDecision) then Refuse(ep, false) else
    Step(if sent then Release(ep, goal) else ep, sent,
         Some(GoalResponse(ep.bindings[goal].slot, goal, Rejected)))
  }

  predicate CancelOpen(ep: Endpoint, goal: GoalId) {
    ValidGoalId(goal) && ep.initialized && InState(ep, goal, GoalAccepted) && ep.bindings[goal].cancelPending
  }

  function AcceptCancel(ep: Endpoint, goal: GoalId, sent: bool): Step<bool> {
    if !CancelOpen(ep, goal) then Refuse(ep, false) else
    var b := ep.bindings[goal];
    Step(if sent then Rebind(ep, goal, b.(state := CancelAccepted, cancelPending := false)) else ep, sent,
         Some(CancelResponse(b.slot, goal, Accepted)))
  }

  function RejectCancel(ep: Endpoint, goal: GoalId, sent: bool): Step<bool> {
    if !CancelOpen(ep, goal) then Refuse(ep, false) else
    var b := ep.bindings[goal];
    Step(if sent then Rebind(ep, goal, b.(cancelPending := false)) else ep, sent,
         Some(CancelResponse(b.slot, goal, Rejected)))
  }

  function AcceptCancelLocally(ep: Endpoint, goal: GoalId): Step<bool> {
    if !ValidGoalId(goal) || !ep.initialized || !InState(ep, goal, GoalAccepted) then Refuse(ep, false) else
    Step(Rebind(ep, goal, ep.bindings[goal].(state := CancelAccepted, cancelPending := false)), true, None)
  }

  function SendFeedback(ep: Endpoint, goal: GoalId, pdu: AppPdu, sent: bool): Step<bool> {
    if !ValidGoalId(goal) || !ep.initialized
       || !(InState(ep, goal, GoalAccepted) || InState(ep, goal, CancelAccepted))
       || ep.bindings[goal].slot >= ep.slotCount || !pdu.Sendable()
    then Refuse(ep, false) else
    var b := ep.bindings[goal];
    Step(if sent then Rebind(ep, goal, b.(nextSeq := Next32(b.nextSeq))) else ep, sent,
         Some(Feedback(b.slot, goal, b.nextSeq, pdu.body)))
  }

  /** State, status and capacity checks in front of the terminal commit point. */
  predicate MayCommit(ep: Endpoint, goal: GoalId, status: TerminalStatus, pdu: AppPdu) {
    && ValidGoalId(goal) && ep.initialized && goal in ep.bindings
    && (|| (ep.bindings[goal].state == GoalAccepted && StatusAllowed(false, status))
        || (ep.bindings[goal].state == CancelAccepted && StatusAllowed(true, status)))
    && ep.bindings[goal].slot < ep.slotCount
    && pdu.Valid()
  }

  function Complete(ep: Endpoint, goal: GoalId, status: TerminalStatus, pdu: AppPdu, sent: bool): Step<CompleteResult> {
    if !MayCommit(ep, goal, status, pdu) then Refuse(ep, NotCommitted) else
    var b := ep.bindings[goal];
    var committed := Rebind(ep, goal, b.(state := ResultCommitted, cancelPending := false));
    if !pdu.headerFits then Step(committed, SendFailedAfterCommit, None) else
    var result := Some(Result(b.slot, goal, status, pdu.body));
    if sent then Step(Release(committed, goal), Sent, result) else Step(committed, SendFailedAfterCommit, result)
  }

  function CompleteLocally(ep: Endpoint, goal: GoalId, status: TerminalStatus, pdu: AppPdu): Step<bool> {
    if !MayCommit(ep, goal, status, pdu) then Refuse(ep, false) else Step(Release(ep, goal), true, None)
  }

  function DiscardPendingGoal(ep: Endpoint, goal: GoalId): Step<bool> {
    if !ValidGoalId(goal) || !InState(ep, goal, AwaitingGoalDecision) then Refuse(ep, false)
    else Step(Release(ep, goal), true, None)
  }

  function Receive(ep: Endpoint, p: RequestPacket): Endpoint { ep.(inbox := ep.inbox + [p]) }

  function ClearPendingEvents(ep: Endpoint): Endpoint { ep.(inbox := []) }

  function ResetContexts(ep: Endpoint): Endpoint { ep.(inbox := [], bindings := map[]) }

  /** One call on the endpoint together with the answer of the transport. */
  datatype Op =
    | OpReceive(packet: RequestPacket)
    | OpPoll(sent: bool)
    | OpAcceptGoal(goal: GoalId, sent: bool)
    | OpRejectGoal(goal: GoalId, sent: bool)
    | OpAcceptCancel(goal: GoalId, sent: bool)
    | OpRejectCancel(goal: GoalId, sent: bool)
    | OpAcceptCancelLocally(goal: GoalId)
    | OpSendFeedback(goal: GoalId, pdu: AppPdu, sent: bool)
    | OpComplete(goal: GoalId, status: TerminalStatus, pdu: AppPdu, sent: bool)
    | OpCompleteLocally(goal: GoalId, status: TerminalStatus, pdu: AppPdu)
    | OpDiscard(goal: GoalId)
    | OpClear

  /** Calls whose packet the transport accepted; error replies are not counted. */
  predicate SentFlag(op: Op) {
    (op.OpAcceptGoal? || op.OpRejectGoal? || op.OpAcceptCancel? || op.OpRejectCancel? || op.OpSendFeedback?
     || op.OpComplete?) && op.sent
  }

  /** Next state and attempted packet of any call except a reset. */
  function Apply(ep: Endpoint, op: Op): (Endpoint, Option<ServerPacket>) {
    match op
    case OpReceive(p) => (Receive(ep, p), None)
    case OpPoll(_) => var r := Poll(ep); (r.next, r.attempt)
    case OpAcceptGoal(g, sent) => var r := AcceptGoal(ep, g, sent); (r.next, r.attempt)
    case OpRejectGoal(g, sent) => var r := RejectGoal(ep, g, sent); (r.next, r.attempt)
    case OpAcceptCancel(g, sent) => var r := AcceptCancel(ep, g, sent); (r.next, r.attempt)
    case OpRejectCancel(g, sent) => var r := RejectCancel(ep, g, sent); (r.next, r.attempt)
    case OpAcceptCancelLocally(g) => var r := AcceptCancelLocally(ep, g); (r.next, r.attempt)
    case OpSendFeedback(g, pdu, sent) => var r := SendFeedback(ep, g, pdu, sent); (r.next, r.attempt)
    case OpComplete(g, st, pdu, sent) => var r := Complete(ep, g, st, pdu, sent); (r.next, r.attempt)
    case OpCompleteLocally(g, st, pdu) => var r := CompleteLocally(ep, g, st, pdu); (r.next, r.attempt)
    case OpDiscard(g) => var r := DiscardPendingGoal(ep, g); (r.next, r.attempt)
    case OpClear => (ClearPendingEvents(ep), None)
  }

  function Run(ep: Endpoint, ops: seq<Op>): Endpoint
    decreases |ops|
  {
    if ops == [] then ep else Run(Apply(ep, ops[0]).0, ops[1..])
  }

  /** What a call may do to the table of bindings. */
  predicate TableChange(before: map<GoalId, Binding>, after: map<GoalId, Binding>, goal: GoalId) {
    || after == before
    || after == before - {goal}
    || (goal in before && goal in after && after == before[goal := after[goal]]
        && after[goal].slot == before[goal].slot)
  }

  /** Except for a surfaced Goal Request, a call touches at most the binding of its own Goal and never moves it. */
  lemma OneBinding(ep: Endpoint, op: Op) returns (goal: GoalId)
    requires !(op.OpPoll? && Poll(ep).result.GoalRequest?)
    ensures TableChange(ep.bindings, Apply(ep, op).0.bindings, goal)
    ensures Apply(ep, op).0.(inbox := ep.inbox, bindings := ep.bindings) == ep
  {
    goal := if op.OpPoll? then (if ep.inbox == [] then 0 else ep.inbox[0].goal)
            else if op.OpReceive? || op.OpClear? then 0 else op.goal;
  }

  /** Calls by the application; receiving, polling and clearing are about the queue. */
  predicate IsCall(op: Op) { !op.OpReceive? && !op.OpPoll? && !op.OpClear? }

  lemma CallTouchesOwnGoal(ep: Endpoint, op: Op, other: GoalId)
    requires IsCall(op) && other != op.goal
    ensures var (next, attempt) := Apply(ep, op);
            && next.inbox == ep.inbox
            && (other in next.bindings <==> other in ep.bindings)
            && (other in ep.bindings ==> next.bindings[other] == ep.bindings[other])
            && (attempt.Some? ==> attempt.value.goal == op.goal)
  {
  }

  lemma TableChangeKeepsSlots(ep: Endpoint, next: Endpoint, goal: GoalId)
    requires SlotsDistinct(ep) && TableChange(ep.bindings, next.bindings, goal)
    requires next.(inbox := ep.inbox, bindings := ep.bindings) == ep
    ensures SlotsDistinct(next)
  {
  }

  lemma GoalRequestKeepsSlots(ep: Endpoint)
    requires SlotsDistinct(ep) && Poll(ep).result.GoalRequest?
    ensures SlotsDistinct(Poll(ep).next)
  {
  }

  /** No call ever puts two Goals into one slot. */
  lemma ApplyKeepsSlots(ep: Endpoint, op: Op)
    requires SlotsDistinct(ep)
    ensures SlotsDistinct(Apply(ep, op).0)
    ensures Apply(ep, op).0.slotCount == ep.slotCount && Apply(ep, op).0.initialized == ep.initialized
  {
    if op.OpPoll? && Poll(ep).result.GoalRequest? {
      GoalRequestKeepsSlots(ep);
    } else {
      var goal := OneBinding(ep, op);
      TableChangeKeepsSlots(ep, Apply(ep, op).0, goal);
    }
  }

  /**
   * Exactness of the commit point: a refused completion changes nothing, the result leaves the
   * endpoint exactly when it was handed over, and the indeterminate outcome happens exactly when
   * the checks pass but the header does not fit or the transport fails.
   */
  lemma CommitPoint(ep: Endpoint, goal: GoalId, status: TerminalStatus, pdu: AppPdu, sent: bool)
    ensures var r := Complete(ep, goal, status, pdu, sent);
            && (r.result == NotCommitted <==> !MayCommit(ep, goal, status, pdu))
            && (r.result == NotCommitted ==> r.next == ep && r.attempt == None)
            && (r.result == Sent <==> MayCommit(ep, goal, status, pdu) && pdu.headerFits && sent)
            && (r.result == Sent ==> r.attempt.Some? && goal !in r.next.bindings)
            && (r.result == SendFailedAfterCommit <==> MayCommit(ep, goal, status, pdu) && !(pdu.headerFits && sent))
            && (r.result == SendFailedAfterCommit ==>
                  InState(r.next, goal, ResultCommitted) && r.next.bindings[goal].slot == ep.bindings[goal].slot)
  {
  }

  /** The reply to a duplicate Goal Request, the one packet that can still name a committed Goal. */
  predicate DuplicateReply(p: ServerPacket) { p.GoalResponse? && p.decision == Rejected }

  /**
   * One call on a committed Goal's endpoint: its binding stays, and the only packet that can name the
   * Goal is the error reply to a Goal Request that reuses its ID.
   */
  lemma CommittedFrozen(ep: Endpoint, op: Op, goal: GoalId)
    requires InState(ep, goal, ResultCommitted)
    ensures var (next, attempt) := Apply(ep, op);
            && goal in next.bindings && next.bindings[goal] == ep.bindings[goal]
            && (attempt.Some? && attempt.value.goal == goal ==>
                  && op.OpPoll? && DuplicateReply(attempt.value)
                  && ep.inbox != [] && ep.inbox[0].goal == goal && ep.inbox[0].kind == REQUEST_KIND_GOAL)
  {
  }

  /** Everything a run hands to the transport, delivered or not. */
  function Attempts(ep: Endpoint, ops: seq<Op>): seq<ServerPacket>
    decreases |ops|
  {
    if ops == [] then [] else
    var (next, attempt) := Apply(ep, ops[0]);
    (if attempt.Some? then [attempt.value] else []) + Attempts(next, ops[1..])
  }

  /**
   * After SEND_FAILED_AFTER_COMMIT, through every later run without a reset: the Goal and its slot are
   * held, and no response, feedback or Result for the Goal is handed to the transport again; only
   * duplicate Goal Requests under its ID are answered.
   */
  lemma {:induction false} CommittedForever(ep: Endpoint, ops: seq<Op>, goal: GoalId)
    requires InState(ep, goal, ResultCommitted)
    ensures goal in Run(ep, ops).bindings && Run(ep, ops).bindings[goal] == ep.bindings[goal]
    ensures forall p | p in Attempts(ep, ops) && p.goal == goal :: DuplicateReply(p)
    decreases |ops|
  {
    if ops == [] {
    } else {
      CommittedFrozen(ep, ops[0], goal);
      CommittedForever(Apply(ep, ops[0]).0, ops[1..], goal);
    }
  }
}
