/** What each call and poll of the client Services answers, sends and leaves behind. */
module ClientCalls {
  import opened ActionTypes
  import C = ClientGoalMachine
  import E = ClientEndpointSpec
  import T = ClientTable
  import opened ClientServicesSpec

  ghost predicate Sound(a: Action) { Mirrors(a) && E.SlotsDistinct(a.ep) }

  /**
   * The layer turns away an empty packet and the invalid ID; everything else is the endpoint's answer, packet and
   * state.  Its own check for an accepted ID never differs from the endpoint's.
   */
  lemma SendGoalExactly(a: Action, goal: GoalId, pdu: AppPdu, timeout: nat, now: nat, sent: bool)
    requires Sound(a)
    ensures SendGoal(a, goal, pdu, timeout, now, sent) ==
            if pdu.EmptyPdu? || goal == 0 then (a, E.InvalidArgument, None)
            else
              var (ep, answer, attempt) := E.SendGoal(a.ep, goal, pdu, timeout, now, sent);
              (Action(a.goals, ep), answer, attempt)
  {
    assert Agrees(a, goal);
  }

  /** A cancel goes out exactly for an EXECUTING Goal with none pending, and is pending exactly if it was sent. */
  lemma SendCancelExactly(a: Action, goal: GoalId, sent: bool)
    requires Sound(a)
    ensures var (b, ok, attempt) := SendCancel(a, goal, sent);
            var may := goal in a.goals && a.goals[goal].state == Executing && !a.goals[goal].cancelPending;
            && (attempt.Some? <==> may) && (ok <==> may && sent)
            && (may ==> attempt == Some(RequestPacket(a.ep.bindings[goal].slot, true, 1, 2, goal, [])))
            && b.ep == E.SendCancel(a.ep, goal, sent).0
            && b.goals == if ok then a.goals[goal := a.goals[goal].(cancelPending := true)] else a.goals
  {
    assert Agrees(a, goal);
    T.SendCancelHandsOver(a.ep, goal, sent);
  }

  /** The contexts after a packet that a Goal listened to. */
  function Learned(goals: map<GoalId, C.Context>, p: ServerPacket): map<GoalId, C.Context>
    requires p.GoalResponse? || p.goal in goals
  {
    match p
    case GoalResponse(_, g, decision) => if decision == Accepted then goals[g := C.INITIAL] else goals
    case CancelResponse(_, g, decision) =>
      goals[g := goals[g].(cancelPending := false, state := if decision == Accepted then Canceling else Executing)]
    case Feedback(_, g, _, _) => goals[g := goals[g].(nextSeq := Next32(goals[g].nextSeq))]
    case _ => goals - {p.goal}
  }

  /** What the endpoint's poll gives is what the application gets, and the contexts follow the packet. */
  lemma PollActionExactly(a: Action, now: nat)
    requires Sound(a)
    ensures var ((b, event), (ep, below)) := (PollAction(a, now), E.Poll(a.ep, now));
            && b.ep == ep
            && match below
               case NoEvent => event == NoEvent && b.goals == a.goals
               case TimedOut(g) => event == TimeoutEvent(g) && b.goals == a.goals
               case Delivered(p) =>
                 && event == Surfaced(p) && (p.GoalResponse? || p.goal in a.goals)
                 && b.goals == Learned(a.goals, p)
  {
    PollSurfaces(a, now);
    if a.ep.inbox != [] { assert Agrees(a, a.ep.inbox[0].goal); }
  }

  ghost predicate AllSound(actions: seq<Action>) { forall k | 0 <= k < |actions| :: Sound(actions[k]) }

  predicate Yields(a: Action, now: nat) { E.Poll(a.ep, now).1 != E.NoEvent }

  /** The event is that of the first Action from `from` on whose endpoint has one. */
  ghost predicate FirstYield(actions: seq<Action>, from: nat, now: nat, event: Event, at: nat) {
    if event == NoEvent then forall k | from <= k < |actions| :: !Yields(actions[k], now)
    else
      && from <= at < |actions| && Yields(actions[at], now) && event == PollAction(actions[at], now).1
      && forall k | from <= k < at :: !Yields(actions[k], now)
  }

  /** Each Action up to that one has been polled once, the others not at all. */
  ghost predicate PolledUpTo(actions: seq<Action>, next: seq<Action>, from: nat, now: nat, event: Event, at: nat) {
    && |next| == |actions|
    && forall k | 0 <= k < |actions| ::
         next[k] == if k < from || (event != NoEvent && at < k) then actions[k] else PollAction(actions[k], now).0
  }

  lemma YieldAfter(actions: seq<Action>, a: Action, from: nat, now: nat, event: Event, at: nat)
    requires from < |actions| && !Yields(actions[from], now) && FirstYield(actions[from := a], from + 1, now, event, at)
    ensures FirstYield(actions, from, now, event, at)
  {
    var later := actions[from := a];
    forall k | from <= k < |actions| && (event == NoEvent || k < at) ensures !Yields(actions[k], now) {
      if k > from { assert later[k] == actions[k]; }
    }
  }

  lemma EventExactly(a: Action, now: nat)
    requires Sound(a)
    ensures PollAction(a, now).1 != NoEvent <==> Yields(a, now)
  {
    PollActionExactly(a, now);
  }

  /** The Actions are polled in order up to the first whose endpoint has an event, and the others not at all. */
  lemma {:induction false} PollActionsExactly(actions: seq<Action>, from: nat, now: nat)
    requires AllSound(actions)
    ensures var (next, event, at) := PollActions(actions, from, now);
            FirstYield(actions, from, now, event, at) && PolledUpTo(actions, next, from, now, event, at)
    decreases |actions| - from
  {
    if from >= |actions| {
    } else {
      var (a, event) := PollAction(actions[from], now);
      EventExactly(actions[from], now);
      StaysSound(actions[from], now);
      if event == NoEvent {
        PollActionsExactly(actions[from := a], from + 1, now);
        var (_, later, at) := PollActions(actions[from := a], from + 1, now);
        YieldAfter(actions, a, from, now, later, at);
      }
    }
  }

  lemma StaysSound(a: Action, now: nat)
    requires Sound(a)
    ensures Sound(PollAction(a, now).0)
  {
    PollSurfaces(a, now);
    PollActionExactly(a, now);
    E.ApplyKeepsSlots(a.ep, E.OpPoll(now));
  }

  /** Stopping drops what is queued and keeps every Goal; receiving queues; clearing forgets everything. */
  lemma QueueIs(a: Action, p: ServerPacket)
    ensures var (received, stopped) := (Apply(a, OpReceive(p)), Apply(a, OpStop));
            && received.goals == a.goals && received.ep.inbox == a.ep.inbox + [p]
               && received.ep.bindings == a.ep.bindings
            && stopped.goals == a.goals && stopped.ep.inbox == [] && stopped.ep.bindings == a.ep.bindings
    ensures Apply(a, OpClear).goals == map[] && Apply(a, OpClear).ep.bindings == map[]
            && Apply(a, OpClear).ep.inbox == []
  {
  }
}
