/** The client Goal transaction layer as a value: one context per accepted Goal over one packet endpoint. */
module ClientServicesSpec {
  import opened ActionTypes
  import C = ClientGoalMachine
  import E = ClientEndpointSpec

  datatype Action = Action(goals: map<GoalId, C.Context>, ep: E.Endpoint)

  datatype Event = NoEvent | Surfaced(packet: ServerPacket) | TimeoutEvent(goal: GoalId) | ErrorEvent(goal: GoalId)

  function SendGoal(a: Action, goal: GoalId, pdu: AppPdu, timeout: nat, now: nat, sent: bool)
    : (Action, E.GoalSendResult, Option<RequestPacket>)
  {
    if pdu.EmptyPdu? || !ValidGoalId(goal) then (a, E.InvalidArgument, None)
    else if goal in a.goals then (a, E.DuplicateGoal, None)
    else
      var (ep, answer, attempt) := E.SendGoal(a.ep, goal, pdu, timeout, now, sent);
      (a.(ep := ep), answer, attempt)
  }

  function SendCancel(a: Action, goal: GoalId, sent: bool): (Action, bool, Option<RequestPacket>) {
    if !ValidGoalId(goal) || goal !in a.goals then (a, false, None) else
    var t := C.Transit(a.goals[goal], C.RequestCancel);
    if !t.Transitioned? then (a, false, None) else
    var (ep, ok, attempt) := E.SendCancel(a.ep, goal, sent);
    (Action(if ok then a.goals[goal := t.next] else a.goals, ep), ok, attempt)
  }

  /** The reducer event of a packet for an accepted Goal. */
  function ReducerEvent(p: ServerPacket): C.Event
    requires p.Feedback? || p.CancelResponse? || p.Result?
  {
    match p
    case Feedback(_, _, seqNo, _) => C.FeedbackReceived(seqNo)
    case CancelResponse(_, _, d) => if d == Accepted then C.CancelResponseAccepted else C.CancelResponseRejected
    case Result(_, _, status, _) => C.ResultReceived(status)
  }

  /** What the layer makes of a packet its endpoint has taken. */
  function Handle(a: Action, p: ServerPacket): (Action, Event) {
    if !ValidGoalId(p.goal) || p.Garbage? || ((p.GoalResponse? || p.CancelResponse?) && p.decision == NoDecision) then
      (a, ErrorEvent(p.goal))
    else if p.GoalResponse? then
      if p.decision == Rejected then (a, Surfaced(p))
      else if p.goal in a.goals then (a, ErrorEvent(p.goal))
      else (a.(goals := a.goals[p.goal := C.INITIAL]), Surfaced(p))
    else if p.goal !in a.goals then (a, ErrorEvent(p.goal))
    else match C.Transit(a.goals[p.goal], ReducerEvent(p))
      case Failed(_) => (a, ErrorEvent(p.goal))
      case Nop => (a, NoEvent)
      case Transitioned(c) =>
        (a.(goals := if p.Result? then a.goals - {p.goal} else a.goals[p.goal := c]), Surfaced(p))
  }

  function PollAction(a: Action, now: nat): (Action, Event) {
    var (ep, event) := E.Poll(a.ep, now);
    match event
    case NoEvent => (a.(ep := ep), NoEvent)
    case TimedOut(g) => (a.(ep := ep), TimeoutEvent(g))
    case Delivered(p) => Handle(a.(ep := ep), p)
  }

  function PollActions(actions: seq<Action>, from: nat, now: nat): (seq<Action>, Event, nat)
    decreases |actions| - from
  {
    if from >= |actions| then (actions, NoEvent, from) else
    var (a, event) := PollAction(actions[from], now);
    var next := actions[from := a];
    if event != NoEvent then (next, event, from) else PollActions(next, from + 1, now)
  }

  // ----- the context is the image of the binding -----

  predicate Live(b: E.Binding) {
    b.state == E.GoalAccepted || b.state == E.AwaitingCancelResponse || b.state == E.Cancelling
  }

  function Image(b: E.Binding): C.Context {
    C.Context(if b.state == E.Cancelling then Canceling else Executing,
              b.state == E.AwaitingCancelResponse, true, b.nextSeq, NoStatus)
  }

  predicate Agrees(a: Action, g: GoalId) {
    && (g in a.goals <==> g in a.ep.bindings && Live(a.ep.bindings[g]))
    && (g in a.goals ==> a.goals[g] == Image(a.ep.bindings[g]))
    && (g in a.ep.bindings && a.ep.bindings[g].state == E.AwaitingGoalResponse ==> a.ep.bindings[g].nextSeq == 0)
  }

  ghost predicate Mirrors(a: Action) { forall g :: Agrees(a, g) }

  datatype Op =
    | OpSendGoal(goal: GoalId, pdu: AppPdu, timeout: nat, now: nat, sent: bool)
    | OpSendCancel(goal: GoalId, sent: bool)
    | OpReceive(packet: ServerPacket)
    | OpPoll(now: nat)
    | OpStop
    | OpClear

  function Apply(a: Action, op: Op): Action {
    match op
    case OpSendGoal(g, pdu, timeout, now, sent) => SendGoal(a, g, pdu, timeout, now, sent).0
    case OpSendCancel(g, sent) => SendCancel(a, g, sent).0
    case OpReceive(p) => a.(ep := E.Receive(a.ep, p))
    case OpPoll(now) => PollAction(a, now).0
    case OpStop => a.(ep := E.ClearPendingEvents(a.ep))
    case OpClear => Action(map[], E.ResetContexts(a.ep))
  }

  function Run(a: Action, ops: seq<Op>): Action
    decreases |ops|
  {
    if ops == [] then a else Run(Apply(a, ops[0]), ops[1..])
  }

  /** A packet the endpoint takes is surfaced by the layer above, and both move alike. */
  lemma TakenIsSurfaced(a: Action, p: ServerPacket)
    requires Agrees(a, p.goal) && E.Taken(a.ep, p)
    ensures var (b, event) := Handle(a.(ep := E.Absorb(a.ep, p)), p);
            event == Surfaced(p) && Agrees(b, p.goal)
  {
  }

  lemma HandleTouchesOneGoal(a: Action, p: ServerPacket, g: GoalId)
    requires g != p.goal && Agrees(a, g) && E.Taken(a.ep, p)
    ensures Agrees(Handle(a.(ep := E.Absorb(a.ep, p)), p).0, g)
  {
  }

  lemma TimeoutAgrees(a: Action, now: nat, g: GoalId)
    requires Agrees(a, g)
    ensures Agrees(a.(ep := E.CheckTimeouts(a.ep, now).0), g)
  {
  }

  /**
   * Services never answers an endpoint event with silence or an error: what the endpoint delivers is
   * what the application sees.
   */
  lemma PollSurfaces(a: Action, now: nat)
    requires Mirrors(a)
    ensures match E.Poll(a.ep, now).1
            case NoEvent => PollAction(a, now).1 == NoEvent
            case TimedOut(g) => PollAction(a, now).1 == TimeoutEvent(g)
            case Delivered(p) => PollAction(a, now).1 == Surfaced(p)
    ensures Mirrors(PollAction(a, now).0)
  {
    var popped := if a.ep.inbox == [] then a else a.(ep := a.ep.(inbox := a.ep.inbox[1..]));
    assert forall g :: Agrees(popped, g) <==> Agrees(a, g);
    if a.ep.inbox != [] && E.Taken(a.ep, a.ep.inbox[0]) {
      var p := a.ep.inbox[0];
      assert E.Taken(popped.ep, p);
      TakenIsSurfaced(popped, p);
      forall g ensures Agrees(PollAction(a, now).0, g) {
        if g != p.goal { HandleTouchesOneGoal(popped, p, g); }
      }
    } else {
      forall g ensures Agrees(PollAction(a, now).0, g) { TimeoutAgrees(popped, now, g); }
    }
  }

  lemma SendAgrees(a: Action, op: Op, g: GoalId)
    requires op.OpSendGoal? || op.OpSendCancel?
    requires Agrees(a, g) && Agrees(a, op.goal)
    ensures Agrees(Apply(a, op), g)
  {
  }

  lemma ApplyMirrors(a: Action, op: Op)
    requires Mirrors(a)
    ensures Mirrors(Apply(a, op))
  {
    if op.OpPoll? {
      PollSurfaces(a, op.now);
    } else {
      forall g ensures Agrees(Apply(a, op), g) {
        assert Agrees(a, g);
        if op.OpSendGoal? || op.OpSendCancel? {
          assert Agrees(a, op.goal);
          SendAgrees(a, op, g);
        }
      }
    }
  }

  /** Layer simulation: in every run the Services context is the image of the endpoint binding. */
  lemma {:induction false} RunMirrors(a: Action, ops: seq<Op>)
    requires Mirrors(a)
    ensures Mirrors(Run(a, ops))
    decreases |ops|
  {
    if ops == [] {
    } else {
      ApplyMirrors(a, ops[0]);
      RunMirrors(Apply(a, ops[0]), ops[1..]);
    }
  }

  /**
   * The two cancel checks are one: on a mirrored state the reducer allows a cancel exactly when the
   * endpoint does, so the call succeeds exactly when the request is sent.
   */
  lemma CancelChecksAgree(a: Action, g: GoalId, sent: bool)
    requires Mirrors(a) && a.ep.initialized && ValidGoalId(g)
    ensures (g in a.goals && C.Transit(a.goals[g], C.RequestCancel).Transitioned?) <==> E.MayCancel(a.ep, g)
    ensures SendCancel(a, g, sent).1 <==> E.MayCancel(a.ep, g) && sent
    ensures !SendCancel(a, g, sent).1 ==> SendCancel(a, g, sent).0 == a
  {
    assert Agrees(a, g);
    E.FailedSendRestores(a.ep, g, EmptyPdu, 0, 0, sent);
  }
}
