/** Two things a caller of the server Services layer might not expect, with exactly when they happen. */
module CancelEdges {
  import opened ActionTypes
  import G = ServerGoalMachine
  import E = ServerEndpointSpec
  import V = ServerServicesSpec

  // ----- a pending flag in the endpoint that no decision will clear -----

  predicate Flagged(a: V.Action, g: GoalId) { g in a.ep.bindings && a.ep.bindings[g].cancelPending }

  predicate Undecided(a: V.Action, g: GoalId) { g in a.goals && a.goals[g].cancelPending }

  /** The endpoint believes a cancel is waiting for its decision; the reducer knows of none. */
  predicate Stale(a: V.Action, g: GoalId) { Flagged(a, g) && !Undecided(a, g) }

  /** Only an accepted Goal's binding is ever flagged. */
  predicate Tidy(a: V.Action, g: GoalId) { Flagged(a, g) ==> a.ep.bindings[g].state == E.GoalAccepted }

  lemma TidyKept(a: V.Action, op: V.Op, g: GoalId)
    requires Tidy(a, g)
    ensures Tidy(V.Apply(a, op), g)
  {
    if g != V.Subject(a, op) && !op.OpClear? { V.OthersUntouched(a, op, g); }
  }

  /** Rejecting a runtime cancel that took over from a client cancel decides it without telling the endpoint. */
  predicate Breaks(a: V.Action, op: V.Op, g: GoalId) {
    op.OpRejectCancel? && op.goal == g && Undecided(a, g) && a.goals[g].origin == G.FromRuntime && Flagged(a, g)
  }

  /** A new runtime cancel gives the flag something to stand for; a completion or a reset clears it. */
  predicate Repairs(op: V.Op, g: GoalId) {
    match op
    case OpRuntimeCancel(h) => h == g
    case OpComplete(h, status, pdu, _) => h == g && StatusAllowed(false, status) && pdu.Valid()
    case OpCompleteLocally(h, status, pdu) => h == g && StatusAllowed(false, status) && pdu.Valid()
    case OpClear => true
    case _ => false
  }

  /** Exactly one operation makes a flag stale, and exactly these end it. */
  lemma StaleStep(a: V.Action, op: V.Op, g: GoalId)
    requires V.Simulates(a) && Tidy(a, g)
    ensures Stale(V.Apply(a, op), g) <==> if Stale(a, g) then !Repairs(op, g) else Breaks(a, op, g)
  {
    assert V.Agrees(a, g);
    if !op.OpClear? {
      if g != V.Subject(a, op) { V.OthersUntouched(a, op, g); } else { StaleSubject(a, op, g); }
    }
  }

  lemma StaleSubject(a: V.Action, op: V.Op, g: GoalId)
    requires a.ep.initialized && V.Agrees(a, g) && Tidy(a, g) && g == V.Subject(a, op) && !op.OpClear?
    requires g in a.ep.bindings ==> ValidGoalId(g) && a.ep.bindings[g].slot < a.ep.slotCount
    ensures Stale(V.Apply(a, op), g) <==> if Stale(a, g) then !Repairs(op, g) else Breaks(a, op, g)
  {
  }

  /**
   * Whether the flag is stale after a run: set by a breaking operation, cleared by a repairing one, and nothing
   * else counts.
   */
  predicate StaleAfter(a: V.Action, ops: seq<V.Op>, g: GoalId, stale: bool)
    decreases |ops|
  {
    if ops == [] then stale
    else StaleAfter(V.Apply(a, ops[0]), ops[1..], g, if stale then !Repairs(ops[0], g) else Breaks(a, ops[0], g))
  }

  lemma {:induction false} StaleExactly(a: V.Action, ops: seq<V.Op>, g: GoalId)
    requires V.Simulates(a) && Tidy(a, g)
    ensures Stale(V.Run(a, ops), g) <==> StaleAfter(a, ops, g, Stale(a, g))
    decreases |ops|
  {
    if ops == [] {
    } else {
      StaleStep(a, ops[0], g);
      V.ApplySimulates(a, ops[0]);
      TidyKept(a, ops[0], g);
      StaleExactly(V.Apply(a, ops[0]), ops[1..], g);
    }
  }

  /** What a stale flag costs: the next cancel of the client is swallowed, and stays unanswered. */
  lemma StaleSwallowsCancel(a: V.Action, name: nat)
    requires a.ep.initialized && a.ep.inbox != [] && a.ep.inbox[0].kind == REQUEST_KIND_CANCEL
             && Stale(a, a.ep.inbox[0].goal)
    ensures V.PollAction(a, name) == (a.(ep := a.ep.(inbox := a.ep.inbox[1..])), V.NoEvent, None)
  {
  }

  // ----- a runtime cancel that comes too late -----

  ghost predicate Sims(s: V.Services) { forall n | 0 <= n < |s.actions| :: V.Simulates(s.actions[n]) }

  /** The Goal of this queued runtime cancel has ended. */
  predicate Late(s: V.Services, e: (nat, GoalId)) { e.0 < |s.actions| && e.1 !in s.actions[e.0].goals }

  /** This queued runtime cancel is consumed without an event. */
  predicate Skipped(s: V.Services, e: (nat, GoalId)) {
    e.0 >= |s.actions| ||
    (e.1 in s.actions[e.0].goals &&
     (s.actions[e.0].goals[e.1].state != Executing || s.actions[e.0].goals[e.1].origin == G.FromRuntime))
  }

  /** The first queued runtime cancel that is not skipped, if any. */
  function FirstHandled(s: V.Services, queue: seq<(nat, GoalId)>): Option<(nat, GoalId)> {
    if queue == [] then None
    else if Skipped(s, queue[0]) then FirstHandled(s, queue[1..])
    else Some(queue[0])
  }

  lemma HandledIs(a: V.Action, g: GoalId)
    requires V.Simulates(a)
    ensures var (b, handled) := V.HandleCancel(a, g, G.RuntimeCancelRequested);
            && (handled == V.Unknown <==> g !in a.goals)
            && (handled == V.Ignored <==>
                  g in a.goals && (a.goals[g].state != Executing || a.goals[g].origin == G.FromRuntime))
            && (handled != V.Surfaced ==> b == a)
  {
    assert V.Agrees(a, g);
  }

  /** What a poll of the runtime queue reports. */
  lemma {:induction false} PollRuntimeIs(s: V.Services)
    requires Sims(s)
    ensures V.PollRuntime(s).1 ==
            match FirstHandled(s, s.runtimeEvents)
            case None => V.NoEvent
            case Some(e) => if Late(s, e) then V.ErrorEvent(e.0, e.1) else V.RuntimeCancelRequest(e.0, e.1)
    ensures FirstHandled(s, s.runtimeEvents).None? ==> V.PollRuntime(s).0 == s.(runtimeEvents := [])
    decreases |s.runtimeEvents|
  {
    if s.runtimeEvents == [] {
    } else {
      var (n, g) := s.runtimeEvents[0];
      var rest := s.(runtimeEvents := s.runtimeEvents[1..]);
      SameFirst(s, rest, rest.runtimeEvents);
      if n < |s.actions| {
        HandledIs(s.actions[n], g);
        assert s.actions[n := s.actions[n]] == s.actions;
        assert rest.(actions := s.actions[n := s.actions[n]]) == rest;
      }
      if Skipped(s, (n, g)) { PollRuntimeIs(rest); }
    }
  }

  /** The queue behind the first runtime cancel that is not skipped. */
  function Behind(s: V.Services, queue: seq<(nat, GoalId)>): seq<(nat, GoalId)> {
    if queue == [] then [] else if Skipped(s, queue[0]) then Behind(s, queue[1..]) else queue[1..]
  }

  /** The Action after its runtime cancel was handled: the Goal waits for a decision asked for by the runtime. */
  function Told(a: V.Action, g: GoalId): V.Action {
    if g !in a.goals then a else a.(goals := a.goals[g := G.Context(Executing, true, G.FromRuntime, NoStatus)])
  }

  lemma HandledTells(a: V.Action, g: GoalId)
    requires V.Simulates(a) && V.HandleCancel(a, g, G.RuntimeCancelRequested).1 != V.Ignored
    ensures V.HandleCancel(a, g, G.RuntimeCancelRequested).0 == Told(a, g)
  {
    assert V.Agrees(a, g);
  }

  /** What such a poll leaves: the queue behind the cancel it handled, and that one Goal notified. */
  lemma {:induction false} PollRuntimeLeaves(s: V.Services)
    requires Sims(s) && FirstHandled(s, s.runtimeEvents).Some?
    ensures var c := FirstHandled(s, s.runtimeEvents).value;
            && c.0 < |s.actions| && c in s.runtimeEvents
            && V.PollRuntime(s).0 ==
               V.Services(s.actions[c.0 := Told(s.actions[c.0], c.1)], Behind(s, s.runtimeEvents))
    decreases |s.runtimeEvents|
  {
    var (n, g) := s.runtimeEvents[0];
    var rest := s.(runtimeEvents := s.runtimeEvents[1..]);
    SameFirst(s, rest, rest.runtimeEvents);
    if n < |s.actions| {
      HandledIs(s.actions[n], g);
      assert rest.(actions := s.actions[n := s.actions[n]]) == rest;
    }
    if Skipped(s, (n, g)) {
      PollRuntimeLeaves(rest);
      SameBehind(s, rest, rest.runtimeEvents);
    } else {
      HandledTells(s.actions[n], g);
    }
  }

  lemma {:induction false} SameBehind(s: V.Services, t: V.Services, queue: seq<(nat, GoalId)>)
    requires t.actions == s.actions
    ensures Behind(t, queue) == Behind(s, queue)
  {
    if queue == [] {
    } else {
      SameBehind(s, t, queue[1..]);
    }
  }

  lemma {:induction false} SameFirst(s: V.Services, t: V.Services, queue: seq<(nat, GoalId)>)
    requires t.actions == s.actions
    ensures FirstHandled(t, queue) == FirstHandled(s, queue)
  {
    if queue == [] {
    } else {
      SameFirst(s, t, queue[1..]);
    }
  }

  /** A client cancel never leads to an error, because the endpoint surfaces it only for an accepted Goal. */
  lemma PollActionNoError(a: V.Action, name: nat)
    requires V.Simulates(a)
    ensures !V.PollAction(a, name).1.ErrorEvent?
  {
    if a.ep.inbox != [] { assert V.Agrees(a, a.ep.inbox[0].goal); }
  }

  lemma {:induction false} PollActionsNoError(s: V.Services, from: nat, replies: seq<(nat, ServerPacket)>)
    requires Sims(s)
    ensures !V.PollActions(s, from, replies).1.ErrorEvent?
    decreases |s.actions| - from
  {
    if from >= |s.actions| {
    } else {
      var (a, event, attempt) := V.PollAction(s.actions[from], from);
      PollActionNoError(s.actions[from], from);
      V.ApplySimulates(s.actions[from], V.OpPoll);
      assert a == V.Apply(s.actions[from], V.OpPoll);
      if event == V.NoEvent {
        PollActionsNoError(s.(actions := s.actions[from := a]), from + 1,
                           if attempt.Some? then replies + [(from, attempt.value)] else replies);
      }
    }
  }

  /** A poll reports ERROR exactly when the first runtime cancel that is not skipped is late. */
  lemma ErrorExactly(s: V.Services, n: nat, g: GoalId)
    requires Sims(s)
    ensures V.Poll(s).1 == V.ErrorEvent(n, g) <==> FirstHandled(s, s.runtimeEvents) == Some((n, g)) && Late(s, (n, g))
  {
    PollRuntimeIs(s);
    if V.PollRuntime(s).1 == V.NoEvent {
      assert V.PollRuntime(s).0 == s.(runtimeEvents := []);
      PollActionsNoError(V.PollRuntime(s).0, 0, []);
    }
  }

  /** The state after a number of polls. */
  function Polls(s: V.Services, count: nat): V.Services
    decreases count
  {
    if count == 0 then s else Polls(V.Poll(s).0, count - 1)
  }

  /** A poll of a queue that holds a late cancel reports it, or reports another and leaves it in a shorter queue. */
  lemma {:induction false} PollRuntimeShortens(s: V.Services, n: nat, g: GoalId)
    requires Sims(s) && (n, g) in s.runtimeEvents && Late(s, (n, g))
    ensures var (t, event) := V.PollRuntime(s);
            event == V.ErrorEvent(n, g)
            || (event != V.NoEvent && (n, g) in t.runtimeEvents && |t.runtimeEvents| < |s.runtimeEvents|
                && |t.actions| == |s.actions|
                && (forall k | 0 <= k < |s.actions| :: t.actions[k].goals.Keys == s.actions[k].goals.Keys)
                && Sims(t))
    decreases |s.runtimeEvents|
  {
    var (m, h) := s.runtimeEvents[0];
    var rest := s.(runtimeEvents := s.runtimeEvents[1..]);
    if (m, h) != (n, g) { assert (n, g) in rest.runtimeEvents; }
    if m < |s.actions| {
      HandledIs(s.actions[m], h);
      var (a, handled) := V.HandleCancel(s.actions[m], h, G.RuntimeCancelRequested);
      assert a == V.Apply(s.actions[m], V.OpRuntimeCancel(h));
      V.ApplySimulates(s.actions[m], V.OpRuntimeCancel(h));
      assert a.goals.Keys == s.actions[m].goals.Keys;
      assert rest.(actions := s.actions[m := s.actions[m]]) == rest;
    }
    if Skipped(s, (m, h)) { PollRuntimeShortens(rest, n, g); }
  }

  /** Every late runtime cancel is reported as an ERROR after some number of polls. */
  lemma {:induction false} LateIsReported(s: V.Services, n: nat, g: GoalId) returns (polls: nat)
    requires Sims(s) && (n, g) in s.runtimeEvents && Late(s, (n, g))
    ensures V.Poll(Polls(s, polls)).1 == V.ErrorEvent(n, g)
    decreases |s.runtimeEvents|
  {
    PollRuntimeShortens(s, n, g);
    if V.Poll(s).1 == V.ErrorEvent(n, g) {
      polls := 0;
    } else {
      var more := LateIsReported(V.Poll(s).0, n, g);
      polls := more + 1;
    }
  }

  /** A completion, over the wire or local, that ends the Goal. */
  function Completed(a: V.Action, op: V.Op): V.Outcome
    requires op.OpComplete? || op.OpCompleteLocally?
  {
    if op.OpComplete? then V.Complete(a, op.goal, op.status, op.pdu, op.sent)
    else V.CompleteLocally(a, op.goal, op.status, op.pdu)
  }

  lemma CompletedIsGone(a: V.Action, op: V.Op)
    requires (op.OpComplete? || op.OpCompleteLocally?) && Completed(a, op).ok
    ensures Completed(a, op).next == V.Apply(a, op) && op.goal !in Completed(a, op).next.goals
  {
  }

  /**
   * Reached whenever a Goal completes between a disconnect and its report: after the notification,
   * completing the Goal by either call and polling on, ERROR is reported for it.
   */
  lemma CompletedBeforeReport(s: V.Services, t: V.Services, n: nat, op: V.Op) returns (polls: nat)
    requires Sims(s) && V.Notified(s, t) && n < |s.actions| && (op.OpComplete? || op.OpCompleteLocally?)
    requires op.goal in s.actions[n].goals && Completed(t.actions[n], op).ok
    ensures var done := V.Lift(t, n, Completed(t.actions[n], op));
            V.Poll(Polls(done, polls)).1 == V.ErrorEvent(n, op.goal)
  {
    var done := V.Lift(t, n, Completed(t.actions[n], op));
    CompletedIsGone(t.actions[n], op);
    V.ApplySimulates(t.actions[n], op);
    assert (n, op.goal) in done.runtimeEvents;
    polls := LateIsReported(done, n, op.goal);
  }
}
