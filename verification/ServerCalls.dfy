/**
 * What each call on the server Services answers, sends and leaves behind, told by the state of the Goal it names:
 * the layer's own decision, and below it one call that the endpoint's transaction table answers.
 */
module ServerCalls {
  import opened ActionTypes
  import G = ServerGoalMachine
  import E = ServerEndpointSpec
  import T = ServerTable
  import opened V = ServerServicesSpec

  predicate IsCall(op: Op) {
    !op.OpReceive? && !op.OpPoll? && !op.OpRuntimeCancel? && !op.OpStop? && !op.OpClear?
  }

  function OutcomeOf(a: Action, op: Op): Outcome
    requires IsCall(op)
  {
    match op
    case OpAcceptGoal(g, sent) => AcceptGoal(a, g, sent)
    case OpRejectGoal(g, sent) => RejectGoal(a, g, sent)
    case OpAcceptCancel(g, sent) => AcceptCancel(a, g, sent)
    case OpRejectCancel(g, sent) => RejectCancel(a, g, sent)
    case OpSendFeedback(g, pdu, sent) => SendFeedback(a, g, pdu, sent)
    case OpComplete(g, st, pdu, sent) => Complete(a, g, st, pdu, sent)
    case OpCompleteLocally(g, st, pdu) => CompleteLocally(a, g, st, pdu)
    case OpDiscard(g) => DiscardPendingGoal(a, g)
  }

  /** A runtime cancel is rejected without telling the endpoint. */
  predicate RejectsQuietly(a: Action, op: Op) {
    op.OpRejectCancel? && op.goal in a.goals && Undecided(a.goals[op.goal]) && a.goals[op.goal].origin != G.FromClient
  }

  /** The answer, the packet and the endpoint are those of the one endpoint call below, if there is one. */
  predicate Passed(a: Action, op: Op)
    requires IsCall(op) && a.ep.initialized && (EndpointOps(a, op).Some? ==> E.IsCall(EndpointOps(a, op).value))
  {
    var r := OutcomeOf(a, op);
    match EndpointOps(a, op)
    case None => r.ok == RejectsQuietly(a, op) && r.attempt == None && r.next.ep == a.ep
    case Some(e) => r.ok == T.Answer(a.ep, e) && r.attempt == E.Apply(a.ep, e).1 && r.next.ep == E.Apply(a.ep, e).0
  }

  /** The contexts after a call: begun, decided, ended, or finishing with the Result lost. */
  function Contexts(a: Action, op: Op, ok: bool): map<GoalId, G.Context>
    requires IsCall(op)
  {
    var g := op.goal;
    if op.OpAcceptGoal? && ok then a.goals[g := G.Context(Executing, false, G.NoOrigin, NoStatus)]
    else if op.OpAcceptCancel? && ok then a.goals[g := G.Context(Canceling, false, G.NoOrigin, NoStatus)]
    else if op.OpRejectCancel? && ok then a.goals[g := G.Context(Executing, false, G.NoOrigin, NoStatus)]
    else if (op.OpComplete? || op.OpCompleteLocally?) && ok then a.goals - {g}
    else if op.OpComplete? && EndpointOps(a, op).Some? && op.pdu.Valid() then
      a.goals[g := G.Context(Finishing, false, G.NoOrigin, op.status)]
    else a.goals
  }

  lemma BelowIsCall(a: Action, op: Op)
    requires IsCall(op) && EndpointOps(a, op).Some?
    ensures E.IsCall(EndpointOps(a, op).value) && EndpointOps(a, op).value.goal == op.goal
  {
  }

  lemma GoalCallExactly(a: Action, op: Op)
    requires Simulates(a) && (op.OpAcceptGoal? || op.OpRejectGoal? || op.OpDiscard?)
    ensures Passed(a, op) && OutcomeOf(a, op).next.goals == Contexts(a, op, OutcomeOf(a, op).ok)
  {
    assert Agrees(a, op.goal);
  }

  lemma CancelCallExactly(a: Action, op: Op)
    requires Simulates(a) && (op.OpAcceptCancel? || op.OpRejectCancel?)
    ensures Passed(a, op) && OutcomeOf(a, op).next.goals == Contexts(a, op, OutcomeOf(a, op).ok)
  {
    assert Agrees(a, op.goal);
  }

  lemma FeedbackExactly(a: Action, op: Op)
    requires Simulates(a) && op.OpSendFeedback?
    ensures Passed(a, op) && OutcomeOf(a, op).next.goals == Contexts(a, op, OutcomeOf(a, op).ok)
  {
    assert Agrees(a, op.goal);
  }

  lemma EndExactly(a: Action, op: Op)
    requires Simulates(a) && (op.OpComplete? || op.OpCompleteLocally?)
    ensures Passed(a, op) && OutcomeOf(a, op).next.goals == Contexts(a, op, OutcomeOf(a, op).ok)
  {
    assert Agrees(a, op.goal);
  }

  /** Every call, exactly: its answer, its packet, the endpoint and the contexts it leaves. */
  lemma CallExactly(a: Action, op: Op)
    requires Simulates(a) && IsCall(op)
    ensures EndpointOps(a, op).Some? ==> E.IsCall(EndpointOps(a, op).value)
    ensures Passed(a, op) && OutcomeOf(a, op).next.goals == Contexts(a, op, OutcomeOf(a, op).ok)
  {
    if EndpointOps(a, op).Some? { BelowIsCall(a, op); }
    if op.OpAcceptGoal? || op.OpRejectGoal? || op.OpDiscard? { GoalCallExactly(a, op); }
    else if op.OpAcceptCancel? || op.OpRejectCancel? { CancelCallExactly(a, op); }
    else if op.OpSendFeedback? { FeedbackExactly(a, op); }
    else { EndExactly(a, op); }
  }
}
