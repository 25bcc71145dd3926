/**
 * The server Goal transaction layer as a value: one context per accepted Goal over one packet
 * endpoint per Action, plus the queue of runtime cancel requests.  An Action is named by its index;
 * an index out of range is an unknown Action name.
 */
module ServerServicesSpec {
  import opened ActionTypes
  import G = ServerGoalMachine
  import E = ServerEndpointSpec

  datatype Action = Action(goals: map<GoalId, G.Context>, ep: E.Endpoint)

  datatype Services = Services(actions: seq<Action>, runtimeEvents: seq<(nat, GoalId)>)

  datatype Event =
    | NoEvent
    | GoalRequest(action: nat, goal: GoalId, body: Payload)
    | CancelRequest(action: nat, goal: GoalId)
    | RuntimeCancelRequest(action: nat, goal: GoalId)
    | ErrorEvent(action: nat, goal: GoalId)

  /** Result of one call on one Action. */
  datatype Outcome = Outcome(next: Action, ok: bool, attempt: Option<ServerPacket>)

  function Refuse(a: Action): Outcome { Outcome(a, false, None) }

  function AcceptGoal(a: Action, goal: GoalId, sent: bool): Outcome {
    if !ValidGoalId(goal) || goal in a.goals then Refuse(a) else
    var r := E.AcceptGoal(a.ep, goal, sent);
    Outcome(Action(if r.result then a.goals[goal := G.INITIAL] else a.goals, r.next), r.result, r.attempt)
  }

  function RejectGoal(a: Action, goal: GoalId, sent: bool): Outcome {
    if !ValidGoalId(goal) || goal in a.goals then Refuse(a) else
    var r := E.RejectGoal(a.ep, goal, sent);
    Outcome(a.(ep := r.next), r.result, r.attempt)
  }

  function AcceptCancel(a: Action, goal: GoalId, sent: bool): Outcome {
    if !ValidGoalId(goal) || goal !in a.goals then Refuse(a) else
    var t := G.Transit(a.goals[goal], G.AcceptCancel);
    if !t.Transitioned? then Refuse(a) else
    var r := if a.goals[goal].origin == G.FromClient then E.AcceptCancel(a.ep, goal, sent)
             else E.AcceptCancelLocally(a.ep, goal);
    Outcome(Action(if r.result then a.goals[goal := t.next] else a.goals, r.next), r.result, r.attempt)
  }

  function RejectCancel(a: Action, goal: GoalId, sent: bool): Outcome {
    if !ValidGoalId(goal) || goal !in a.goals then Refuse(a) else
    var t := G.Transit(a.goals[goal], G.RejectCancel);
    if !t.Transitioned? then Refuse(a)
    else if a.goals[goal].origin != G.FromClient then Outcome(a.(goals := a.goals[goal := t.next]), true, None)
    else
      var r := E.RejectCancel(a.ep, goal, sent);
      Outcome(Action(if r.result then a.goals[goal := t.next] else a.goals, r.next), r.result, r.attempt)
  }

  function SendFeedback(a: Action, goal: GoalId, pdu: AppPdu, sent: bool): Outcome {
    if !ValidGoalId(goal) || pdu.EmptyPdu? || goal !in a.goals || !G.Transit(a.goals[goal], G.PublishFeedback).Nop?
      then Refuse(a)
    else
      var r := E.SendFeedback(a.ep, goal, pdu, sent);
      Outcome(a.(ep := r.next), r.result, r.attempt)
  }

  function Complete(a: Action, goal: GoalId, status: TerminalStatus, pdu: AppPdu, sent: bool): Outcome {
    if !ValidGoalId(goal) || pdu.EmptyPdu? || goal !in a.goals then Refuse(a) else
    var t := G.Transit(a.goals[goal], G.Complete(status));
    if !t.Transitioned? then Refuse(a) else
    var r := E.Complete(a.ep, goal, status, pdu, sent);
    match r.result
    case NotCommitted => Outcome(a.(ep := r.next), false, r.attempt)
    case Sent => Outcome(Action(a.goals - {goal}, r.next), true, r.attempt)
    case SendFailedAfterCommit => Outcome(Action(a.goals[goal := t.next], r.next), false, r.attempt)
  }

  function CompleteLocally(a: Action, goal: GoalId, status: TerminalStatus, pdu: AppPdu): Outcome {
    if !ValidGoalId(goal) || pdu.EmptyPdu? || goal !in a.goals then Refuse(a)
    else if !G.Transit(a.goals[goal], G.Complete(status)).Transitioned? then Refuse(a)
    else
      var r := E.CompleteLocally(a.ep, goal, status, pdu);
      Outcome(Action(if r.result then a.goals - {goal} else a.goals, r.next), r.result, None)
  }

  function DiscardPendingGoal(a: Action, goal: GoalId): Outcome {
    if !ValidGoalId(goal) || goal in a.goals then Refuse(a) else
    var r := E.DiscardPendingGoal(a.ep, goal);
    Outcome(a.(ep := r.next), r.result, None)
  }

  datatype Handled = Ignored | Surfaced | Unknown

  /** A client or runtime cancel reaching the reducer. */
  function HandleCancel(a: Action, goal: GoalId, cancel: G.Event): (Action, Handled) {
    if goal !in a.goals then (a, Unknown) else
    match G.Transit(a.goals[goal], cancel)
    case Failed(_) => (a, Unknown)
    case Nop => (a, Ignored)
    case Transitioned(c) => (a.(goals := a.goals[goal := c]), Surfaced)
  }

  /** One endpoint poll of one Action; the attempt is an error reply to a bad Goal Request. */
  function PollAction(a: Action, name: nat): (Action, Event, Option<ServerPacket>) {
    var r := E.Poll(a.ep);
    var a1 := a.(ep := r.next);
    match r.result
    case NoEvent => (a1, NoEvent, r.attempt)
    case GoalRequest(g, body) => (a1, GoalRequest(name, g, body), r.attempt)
    case CancelRequest(g, _) =>
      var (a2, handled) := HandleCancel(a1, g, G.CancelRequestReceived);
      var event := match handled
        case Ignored => NoEvent
        case Surfaced => CancelRequest(name, g)
        case Unknown => ErrorEvent(name, g);
      (a2, event, r.attempt)
  }

  function PollRuntime(s: Services): (Services, Event)
    decreases |s.runtimeEvents|
  {
    if s.runtimeEvents == [] then (s, NoEvent) else
    var (name, goal) := s.runtimeEvents[0];
    var s1 := s.(runtimeEvents := s.runtimeEvents[1..]);
    if name >= |s.actions| then PollRuntime(s1) else
    var (a, handled) := HandleCancel(s.actions[name], goal, G.RuntimeCancelRequested);
    var s2 := s1.(actions := s.actions[name := a]);
    match handled
    case Ignored => PollRuntime(s2)
    case Surfaced => (s2, RuntimeCancelRequest(name, goal))
    case Unknown => (s2, ErrorEvent(name, goal))
  }

  /** First event in Action order; `replies` collects the error replies on the way. */
  function PollActions(
    s: Services, from: nat, replies: seq<(nat, ServerPacket)>): (Services, Event, seq<(nat, ServerPacket)>)
    decreases |s.actions| - from
  {
    if from >= |s.actions| then (s, NoEvent, replies) else
    var (a, event, attempt) := PollAction(s.actions[from], from);
    var s1 := s.(actions := s.actions[from := a]);
    var replies1 := if attempt.Some? then replies + [(from, attempt.value)] else replies;
    if event != NoEvent then (s1, event, replies1) else PollActions(s1, from + 1, replies1)
  }

  function Poll(s: Services): (Services, Event, seq<(nat, ServerPacket)>) {
    var (s1, event) := PollRuntime(s);
    if event != NoEvent then (s1, event, []) else PollActions(s1, 0, [])
  }

  function ClearAll(s: Services): Services {
    Services(seq(|s.actions|, i requires 0 <= i < |s.actions| => Action(map[], E.ResetContexts(s.actions[i].ep))), [])
  }

  function StopAll(s: Services): Services {
    Services(seq(|s.actions|, i requires 0 <= i < |s.actions| =>
                 s.actions[i].(ep := E.ClearPendingEvents(s.actions[i].ep))), [])
  }

  /**
   * Effect of a transport disconnect: every accepted Goal has a runtime cancel queued, nothing else
   * is added, and nothing is queued twice.  The order within an Action is the order of acceptance,
   * which this value does not keep.
   */
  ghost predicate Notified(s: Services, t: Services) {
    && t.actions == s.actions
    && s.runtimeEvents <= t.runtimeEvents
    && (forall n: nat, g | n < |s.actions| && g in s.actions[n].goals :: (n, g) in t.runtimeEvents)
    && (forall k | |s.runtimeEvents| <= k < |t.runtimeEvents| ::
          var (n, g) := t.runtimeEvents[k];
          n < |s.actions| && g in s.actions[n].goals && (n, g) !in t.runtimeEvents[..k])
  }

  /** A call on a named Action, and what it did to the whole layer. */
  function Lift(s: Services, name: nat, r: Outcome): Services
    requires name < |s.actions|
  {
    s.(actions := s.actions[name := r.next])
  }

  // ----- the two layers agree -----

  predicate Matches(c: G.Context, b: E.Binding) {
    && G.ValidContext(c)
    && (c.state == Executing <==> b.state == E.GoalAccepted)
    && (c.state == Canceling <==> b.state == E.CancelAccepted)
    && (c.state == Finishing <==> b.state == E.ResultCommitted)
    && (c.origin == G.FromClient ==> b.cancelPending)
  }

  /** The agreement of one Goal: accepted exactly when bound past its Goal decision, in matching states. */
  predicate Agrees(a: Action, g: GoalId) {
    && (g in a.goals <==> g in a.ep.bindings && a.ep.bindings[g].state != E.AwaitingGoalDecision)
    && (g in a.goals ==> Matches(a.goals[g], a.ep.bindings[g]))
  }

  ghost predicate Simulates(a: Action) {
    a.ep.initialized && E.SlotsDistinct(a.ep) && forall g :: Agrees(a, g)
  }

  /** Any call on one Action. */
  datatype Op =
    | OpReceive(packet: RequestPacket)
    | OpPoll
    | OpRuntimeCancel(goal: GoalId)
    | OpAcceptGoal(goal: GoalId, sent: bool)
    | OpRejectGoal(goal: GoalId, sent: bool)
    | OpAcceptCancel(goal: GoalId, sent: bool)
    | OpRejectCancel(goal: GoalId, sent: bool)
    | OpSendFeedback(goal: GoalId, pdu: AppPdu, sent: bool)
    | OpComplete(goal: GoalId, status: TerminalStatus, pdu: AppPdu, sent: bool)
    | OpCompleteLocally(goal: GoalId, status: TerminalStatus, pdu: AppPdu)
    | OpDiscard(goal: GoalId)
    | OpStop
    | OpClear

  function Apply(a: Action, op: Op): Action {
    match op
    case OpReceive(p) => a.(ep := E.Receive(a.ep, p))
    case OpPoll => PollAction(a, 0).0
    case OpRuntimeCancel(g) => HandleCancel(a, g, G.RuntimeCancelRequested).0
    case OpAcceptGoal(g, sent) => AcceptGoal(a, g, sent).next
    case OpRejectGoal(g, sent) => RejectGoal(a, g, sent).next
    case OpAcceptCancel(g, sent) => AcceptCancel(a, g, sent).next
    case OpRejectCancel(g, sent) => RejectCancel(a, g, sent).next
    case OpSendFeedback(g, pdu, sent) => SendFeedback(a, g, pdu, sent).next
    case OpComplete(g, st, pdu, sent) => Complete(a, g, st, pdu, sent).next
    case OpCompleteLocally(g, st, pdu) => CompleteLocally(a, g, st, pdu).next
    case OpDiscard(g) => DiscardPendingGoal(a, g).next
    case OpStop => a.(ep := E.ClearPendingEvents(a.ep))
    case OpClear => Action(map[], E.ResetContexts(a.ep))
  }

  function Run(a: Action, ops: seq<Op>): Action
    decreases |ops|
  {
    if ops == [] then a else Run(Apply(a, ops[0]), ops[1..])
  }

  /** The Goal a call is about; 0 when it is about none. */
  function Subject(a: Action, op: Op): GoalId {
    match op
    case OpReceive(_) => 0
    case OpPoll => if a.ep.inbox == [] then 0 else a.ep.inbox[0].goal
    case OpStop => 0
    case OpClear => 0
    case _ => op.goal
  }

  predicate SameGoal(a: Action, b: Action, g: GoalId) {
    && (g in b.goals <==> g in a.goals) && (g in a.goals ==> b.goals[g] == a.goals[g])
    && (g in b.ep.bindings <==> g in a.ep.bindings) && (g in a.ep.bindings ==> b.ep.bindings[g] == a.ep.bindings[g])
  }

  lemma OthersUntouchedByCancels(a: Action, op: Op, g: GoalId)
    requires g != Subject(a, op) && (op.OpPoll? || op.OpRuntimeCancel? || op.OpAcceptCancel? || op.OpRejectCancel?)
    ensures SameGoal(a, Apply(a, op), g)
  {
  }

  lemma OthersUntouchedByEnds(a: Action, op: Op, g: GoalId)
    requires g != Subject(a, op) && (op.OpComplete? || op.OpCompleteLocally? || op.OpSendFeedback?)
    ensures SameGoal(a, Apply(a, op), g)
  {
  }

  /** A call changes the context and the binding of its own Goal only. */
  lemma OthersUntouched(a: Action, op: Op, g: GoalId)
    requires g != Subject(a, op) && !op.OpClear?
    ensures g in Apply(a, op).goals <==> g in a.goals
    ensures g in a.goals ==> Apply(a, op).goals[g] == a.goals[g]
    ensures g in Apply(a, op).ep.bindings <==> g in a.ep.bindings
    ensures g in a.ep.bindings ==> Apply(a, op).ep.bindings[g] == a.ep.bindings[g]
  {
    if op.OpPoll? || op.OpRuntimeCancel? || op.OpAcceptCancel? || op.OpRejectCancel? {
      OthersUntouchedByCancels(a, op, g);
    } else if op.OpComplete? || op.OpCompleteLocally? || op.OpSendFeedback? {
      OthersUntouchedByEnds(a, op, g);
    }
  }

  lemma PollAgrees(a: Action)
    requires a.ep.inbox != [] && Agrees(a, a.ep.inbox[0].goal)
    ensures Agrees(PollAction(a, 0).0, a.ep.inbox[0].goal)
  {
  }

  /** The heart of the simulation: a call keeps the agreement of the Goal it is about. */
  lemma SubjectAgrees(a: Action, op: Op)
    requires Agrees(a, Subject(a, op)) && !op.OpClear?
    ensures Agrees(Apply(a, op), Subject(a, op))
  {
    if op.OpPoll? && a.ep.inbox != [] { PollAgrees(a); }
  }

  /** A cancel decision is open. */
  predicate Undecided(c: G.Context) { c.state == Executing && c.cancelPending }

  predicate MayFinish(c: G.Context, status: TerminalStatus) {
    (c.state == Executing && (status == Succeeded || status == Aborted))
    || (c.state == Canceling && (status == Canceled || status == Aborted))
  }

  predicate MayReport(c: G.Context) { c.state == Executing || c.state == Canceling }

  /** The endpoint call below a call, by the state of the Goal it names: none if the layer itself refuses. */
  function EndpointOps(a: Action, op: Op): Option<E.Op> {
    match op
    case OpReceive(p) => Some(E.OpReceive(p))
    case OpPoll => Some(E.OpPoll(true))
    case OpAcceptGoal(g, sent) => if ValidGoalId(g) && g !in a.goals then Some(E.OpAcceptGoal(g, sent)) else None
    case OpRejectGoal(g, sent) => if ValidGoalId(g) && g !in a.goals then Some(E.OpRejectGoal(g, sent)) else None
    case OpAcceptCancel(g, sent) =>
      if g !in a.goals || !Undecided(a.goals[g]) then None
      else if a.goals[g].origin == G.FromClient then Some(E.OpAcceptCancel(g, sent))
      else Some(E.OpAcceptCancelLocally(g))
    case OpRejectCancel(g, sent) =>
      if g in a.goals && Undecided(a.goals[g]) && a.goals[g].origin == G.FromClient then Some(E.OpRejectCancel(g, sent))
      else None
    case OpSendFeedback(g, pdu, sent) =>
      if g in a.goals && MayReport(a.goals[g]) then Some(E.OpSendFeedback(g, pdu, sent)) else None
    case OpComplete(g, st, pdu, sent) =>
      if g in a.goals && MayFinish(a.goals[g], st) then Some(E.OpComplete(g, st, pdu, sent)) else None
    case OpCompleteLocally(g, st, pdu) =>
      if g in a.goals && MayFinish(a.goals[g], st) then Some(E.OpCompleteLocally(g, st, pdu)) else None
    case OpDiscard(g) => if ValidGoalId(g) && g !in a.goals then Some(E.OpDiscard(g)) else None
    case OpStop => Some(E.OpClear)
    case _ => None
  }

  predicate AtMostOne(a: Action, op: Op) {
    match EndpointOps(a, op)
    case None => Apply(a, op).ep == a.ep
    case Some(e) => Apply(a, op).ep == E.Apply(a.ep, e).0
  }

  lemma OneCallOfCancel(a: Action, op: Op)
    requires op.OpAcceptCancel? || op.OpRejectCancel? || op.OpSendFeedback?
    requires a.ep.initialized && E.SlotsDistinct(a.ep) && Agrees(a, op.goal)
    ensures AtMostOne(a, op)
  {
  }

  lemma OneCallOfEnd(a: Action, op: Op)
    requires op.OpComplete? || op.OpCompleteLocally?
    requires a.ep.initialized && E.SlotsDistinct(a.ep) && Agrees(a, op.goal)
    ensures AtMostOne(a, op)
  {
  }

  /** Below every call there is at most one endpoint call. */
  lemma OneEndpointCall(a: Action, op: Op)
    requires !op.OpClear? && a.ep.initialized && E.SlotsDistinct(a.ep) && Agrees(a, Subject(a, op))
    ensures match EndpointOps(a, op)
            case None => Apply(a, op).ep == a.ep
            case Some(e) => Apply(a, op).ep == E.Apply(a.ep, e).0
  {
    if op.OpAcceptCancel? || op.OpRejectCancel? || op.OpSendFeedback? { OneCallOfCancel(a, op); }
    else if op.OpComplete? || op.OpCompleteLocally? { OneCallOfEnd(a, op); }
  }

  lemma EndpointStaysValid(a: Action, op: Op)
    requires a.ep.initialized && E.SlotsDistinct(a.ep) && Agrees(a, Subject(a, op))
    ensures Apply(a, op).ep.initialized && E.SlotsDistinct(Apply(a, op).ep)
  {
    if !op.OpClear? {
      OneEndpointCall(a, op);
      if EndpointOps(a, op).Some? { E.ApplyKeepsSlots(a.ep, EndpointOps(a, op).value); }
    }
  }

  lemma AllAgree(a: Action, op: Op, g: GoalId)
    requires (forall h :: Agrees(a, h)) && !op.OpClear?
    ensures Agrees(Apply(a, op), g)
  {
    assert Agrees(a, g) && Agrees(a, Subject(a, op));
    if g == Subject(a, op) { SubjectAgrees(a, op); } else { OthersUntouched(a, op, g); }
  }

  lemma ApplySimulates(a: Action, op: Op)
    requires Simulates(a)
    ensures Simulates(Apply(a, op))
  {
    assert Agrees(a, Subject(a, op));
    EndpointStaysValid(a, op);
    if !op.OpClear? {
      forall g ensures Agrees(Apply(a, op), g) { AllAgree(a, op, g); }
    }
  }

  /** Layer simulation: in every run the Goal contexts and the packet bindings agree. */
  lemma {:induction false} RunSimulates(a: Action, ops: seq<Op>)
    requires Simulates(a)
    ensures Simulates(Run(a, ops))
    decreases |ops|
  {
    if ops == [] {
    } else {
      ApplySimulates(a, ops[0]);
      RunSimulates(Apply(a, ops[0]), ops[1..]);
    }
  }

  lemma CompletionRefusals(a: Action, g: GoalId, status: TerminalStatus, pdu: AppPdu, sent: bool)
    requires Simulates(a) && g in a.goals
    ensures Complete(a, g, status, pdu, sent).ok <==> MayFinish(a.goals[g], status) && pdu.Sendable() && sent
    ensures CompleteLocally(a, g, status, pdu).ok <==> MayFinish(a.goals[g], status) && pdu.Valid()
  {
    assert Agrees(a, g) && ValidGoalId(g);
  }

  lemma CancelRefusals(a: Action, g: GoalId, sent: bool)
    requires Simulates(a) && g in a.goals
    ensures AcceptCancel(a, g, sent).ok <==>
              a.goals[g].state == Executing && a.goals[g].cancelPending && (a.goals[g].origin == G.FromClient ==> sent)
    ensures RejectCancel(a, g, sent).ok <==>
              a.goals[g].state == Executing && a.goals[g].cancelPending && (a.goals[g].origin == G.FromClient ==> sent)
    ensures !AcceptCancel(a, g, sent).ok ==> AcceptCancel(a, g, sent).next == a
    ensures !RejectCancel(a, g, sent).ok ==> RejectCancel(a, g, sent).next == a
  {
    assert Agrees(a, g) && ValidGoalId(g);
  }

  /**
   * When the Goal's state allows an operation, the endpoint's own guard passes too: only an invalid
   * packet or a failed send can refuse it.  Each equivalence says exactly when the call succeeds.
   */
  lemma OnlyTransportRefuses(a: Action, g: GoalId, status: TerminalStatus, pdu: AppPdu, sent: bool)
    requires Simulates(a) && g in a.goals
    ensures AcceptCancel(a, g, sent).ok <==>
              a.goals[g].state == Executing && a.goals[g].cancelPending && (a.goals[g].origin == G.FromClient ==> sent)
    ensures RejectCancel(a, g, sent).ok <==>
              a.goals[g].state == Executing && a.goals[g].cancelPending && (a.goals[g].origin == G.FromClient ==> sent)
    ensures SendFeedback(a, g, pdu, sent).ok <==>
              (a.goals[g].state == Executing || a.goals[g].state == Canceling) && pdu.Sendable() && sent
    ensures Complete(a, g, status, pdu, sent).ok <==> MayFinish(a.goals[g], status) && pdu.Sendable() && sent
    ensures CompleteLocally(a, g, status, pdu).ok <==> MayFinish(a.goals[g], status) && pdu.Valid()
  {
    CancelRefusals(a, g, sent);
    CompletionRefusals(a, g, status, pdu, sent);
    assert Agrees(a, g) && ValidGoalId(g);
  }

  /** A completion that fails leaves everything as it was, or the Goal in FINISHING with its packet lost. */
  lemma LostResult(a: Action, g: GoalId, status: TerminalStatus, pdu: AppPdu, sent: bool)
    requires Simulates(a)
    ensures var r := Complete(a, g, status, pdu, sent);
            !r.ok && r.next != a ==>
              && g in a.goals && pdu.Valid() && !(pdu.headerFits && sent)
              && r.next.goals == a.goals[g := G.Context(Finishing, false, G.NoOrigin, status)]
  {
    assert Agrees(a, g);
  }

  /** A refused call changes nothing, except that a Result lost after the commit point leaves its Goal FINISHING. */
  lemma RefusalLeavesState(a: Action, g: GoalId, status: TerminalStatus, pdu: AppPdu, sent: bool)
    requires Simulates(a)
    ensures !AcceptCancel(a, g, sent).ok ==> AcceptCancel(a, g, sent).next == a
    ensures !RejectCancel(a, g, sent).ok ==> RejectCancel(a, g, sent).next == a
    ensures !SendFeedback(a, g, pdu, sent).ok ==> SendFeedback(a, g, pdu, sent).next == a
    ensures !AcceptGoal(a, g, sent).ok ==> AcceptGoal(a, g, sent).next == a
    ensures var r := Complete(a, g, status, pdu, sent);
            !r.ok && r.next != a ==>
              && g in a.goals && pdu.Valid() && !(pdu.headerFits && sent)
              && r.next.goals == a.goals[g := G.Context(Finishing, false, G.NoOrigin, status)]
  {
    if g in a.goals { CancelRefusals(a, g, sent); }
    LostResult(a, g, status, pdu, sent);
  }

  /** A Goal that has just been accepted in a fresh Action with one slot. */
  function JustAccepted(g: GoalId): Action {
    Action(map[g := G.Context(Executing, false, G.NoOrigin, NoStatus)],
           E.Endpoint(true, 1, map[g := E.Binding(0, E.GoalAccepted, 0, false)], []))
  }

  lemma FirstThree(g: GoalId, request: RequestPacket)
    requires ValidGoalId(g)
    requires request == RequestPacket(0, true, PROTOCOL_VERSION, REQUEST_KIND_GOAL, g, [])
    ensures Apply(Apply(Apply(Action(map[], E.Endpoint(true, 1, map[], [])), OpReceive(request)), OpPoll),
                  OpAcceptGoal(g, true)) ==
            JustAccepted(g)
  {
    var a1 := Apply(Action(map[], E.Endpoint(true, 1, map[], [])), OpReceive(request));
    assert a1.ep.inbox == [request] && a1.ep.inbox[1..] == [];
    assert Apply(a1, OpPoll).ep.bindings == map[g := E.Binding(0, E.AwaitingGoalDecision, 0, false)];
  }

  lemma CancelSurfaces(g: GoalId, cancel: RequestPacket)
    requires ValidGoalId(g)
    requires cancel == RequestPacket(0, true, PROTOCOL_VERSION, REQUEST_KIND_CANCEL, g, [])
    ensures var a := Apply(Apply(JustAccepted(g), OpReceive(cancel)), OpPoll);
            && g in a.goals && a.goals[g] == G.Context(Executing, true, G.FromClient, NoStatus)
            && g in a.ep.bindings && a.ep.bindings[g] == E.Binding(0, E.GoalAccepted, 0, true)
  {
    assert Apply(JustAccepted(g), OpReceive(cancel)).ep.inbox == [cancel];
  }

  /** The runtime takes the cancel over, and its rejection is not passed on to the endpoint. */
  lemma RuntimeRejects(a: Action, g: GoalId)
    requires ValidGoalId(g) && g in a.goals && a.goals[g] == G.Context(Executing, true, G.FromClient, NoStatus)
    ensures var b := Apply(Apply(a, OpRuntimeCancel(g)), OpRejectCancel(g, true));
            g in b.goals && !b.goals[g].cancelPending && b.ep == a.ep
  {
  }

  /**
   * The endpoint's pending flag is not the reducer's: a client cancel reclassified by a disconnect
   * and then rejected leaves the flag set with no decision pending.
   */
  lemma StaleCancelFlag(g: GoalId, request: RequestPacket, cancel: RequestPacket)
    requires ValidGoalId(g)
    requires request == RequestPacket(0, true, PROTOCOL_VERSION, REQUEST_KIND_GOAL, g, [])
    requires cancel == RequestPacket(0, true, PROTOCOL_VERSION, REQUEST_KIND_CANCEL, g, [])
    ensures var a := Run(
                Action(map[], E.Endpoint(true, 1, map[], [])),
                [OpReceive(request), OpPoll, OpAcceptGoal(g, true), OpReceive(cancel), OpPoll, OpRuntimeCancel(g),
                 OpRejectCancel(g, true)]);
            && g in a.goals && g in a.ep.bindings
            && a.ep.bindings[g].cancelPending && !a.goals[g].cancelPending
  {
    var start := Action(map[], E.Endpoint(true, 1, map[], []));
    FirstThree(g, request);
    CancelSurfaces(g, cancel);
    RuntimeRejects(Apply(Apply(JustAccepted(g), OpReceive(cancel)), OpPoll), g);
    RunSeven(start, OpReceive(request), OpPoll, OpAcceptGoal(g, true), OpReceive(cancel), OpPoll, OpRuntimeCancel(g),
             OpRejectCancel(g, true));
  }

  lemma RunSeven(a: Action, o1: Op, o2: Op, o3: Op, o4: Op, o5: Op, o6: Op, o7: Op)
    ensures Run(a, [o1, o2, o3, o4, o5, o6, o7]) ==
            Apply(Apply(Apply(Apply(Apply(Apply(Apply(a, o1), o2), o3), o4), o5), o6), o7)
  {
    RunCons(a, o1, [o2, o3, o4, o5, o6, o7]);
    var a1 := Apply(a, o1);
    RunCons(a1, o2, [o3, o4, o5, o6, o7]);
    var a2 := Apply(a1, o2);
    RunCons(a2, o3, [o4, o5, o6, o7]);
    var a3 := Apply(a2, o3);
    RunCons(a3, o4, [o5, o6, o7]);
    var a4 := Apply(a3, o4);
    RunCons(a4, o5, [o6, o7]);
    var a5 := Apply(a4, o5);
    RunCons(a5, o6, [o7]);
    RunCons(Apply(a5, o6), o7, []);
  }

  lemma RunCons(a: Action, op: Op, ops: seq<Op>)
    ensures Run(a, [op] + ops) == Run(Apply(a, op), ops)
  {
    assert ([op] + ops)[1..] == ops;
  }
}
