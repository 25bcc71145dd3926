/**
 * What a poll of the server Services tells the application: exactly which queued packets and runtime
 * cancels become which events, in which order.
 */
module ServerPolls {
  import opened ActionTypes
  import G = ServerGoalMachine
  import E = ServerEndpointSpec
  import T = ServerTable
  import V = ServerServicesSpec
  import opened CancelEdges

  /** The head of the queue is a Goal Request for an ID and a slot that are both free. */
  predicate NewGoal(a: V.Action, g: GoalId, body: Payload) {
    a.ep.inbox != [] && T.Opens(a.ep, a.ep.inbox[0]) && a.ep.inbox[0].goal == g && a.ep.inbox[0].body == body
  }

  /** The head of the queue cancels an EXECUTING Goal in its own slot, and neither layer has a cancel undecided. */
  predicate NewCancel(a: V.Action, g: GoalId) {
    && a.ep.inbox != [] && T.Cancels(a.ep, a.ep.inbox[0]) && a.ep.inbox[0].goal == g
    && g in a.goals && a.goals[g].state == Executing && !a.goals[g].cancelPending
  }

  /** The head of the queue is news for the application. */
  predicate Yields(a: V.Action) {
    a.ep.inbox != [] && (NewGoal(a, a.ep.inbox[0].goal, a.ep.inbox[0].body) || NewCancel(a, a.ep.inbox[0].goal))
  }

  /** An empty or uninitialised endpoint has nothing to say. */
  lemma PollEmpty(a: V.Action, n: nat)
    requires a.ep.inbox == []
    ensures V.PollAction(a, n) == (a, V.NoEvent, None)
  {
  }

  /**
   * Both directions: a Goal Request or a client cancel is surfaced exactly when the head of the queue is one
   * that the tables let through, with the body it carries; anything else is no event, and no Goal's context
   * changes except that of a surfaced cancel.
   */
  lemma PollActionExactly(a: V.Action, n: nat)
    requires V.Simulates(a)
    ensures var (b, event, attempt) := V.PollAction(a, n);
            && (forall g, body :: event == V.GoalRequest(n, g, body) <==> NewGoal(a, g, body))
            && (forall g :: event == V.CancelRequest(n, g) <==> NewCancel(a, g))
            && (event == V.NoEvent <==> !Yields(a))
            && (attempt.Some? <==> a.ep.inbox != [] && T.Clashes(a.ep, a.ep.inbox[0]))
            && (forall g | NewCancel(a, g) ::
                b.goals == a.goals[g := G.Context(Executing, true, G.FromClient, NoStatus)])
            && ((forall g :: !NewCancel(a, g)) ==> b.goals == a.goals)
  {
    if a.ep.inbox == [] {
      PollEmpty(a, n);
    } else {
      T.PollMeetsTable(a.ep);
      assert V.Agrees(a, a.ep.inbox[0].goal);
    }
  }

  // ----- the Actions in order -----

  lemma PolledSims(s: V.Services, n: nat)
    requires Sims(s) && n < |s.actions|
    ensures Sims(s.(actions := s.actions[n := V.PollAction(s.actions[n], n).0]))
  {
    assert V.Simulates(s.actions[n]);
    V.ApplySimulates(s.actions[n], V.OpPoll);
    assert V.PollAction(s.actions[n], n).0 == V.Apply(s.actions[n], V.OpPoll);
  }

  /** Event `e` is that of the first Action from `from` on whose queue yields one. */
  ghost predicate FirstYield(s: V.Services, from: nat, e: V.Event) {
    if e == V.NoEvent then forall k | from <= k < |s.actions| :: !Yields(s.actions[k])
    else
      && (e.GoalRequest? || e.CancelRequest?) && from <= e.action < |s.actions|
      && (e.GoalRequest? ==> NewGoal(s.actions[e.action], e.goal, e.body))
      && (e.CancelRequest? ==> NewCancel(s.actions[e.action], e.goal))
      && forall k | from <= k < e.action :: !Yields(s.actions[k])
  }

  /** There is only one such event. */
  lemma OneFirst(s: V.Services, d: V.Event, e: V.Event)
    requires FirstYield(s, 0, d) && FirstYield(s, 0, e)
    ensures d == e
  {
    assert d != V.NoEvent ==> Yields(s.actions[d.action]);
    assert e != V.NoEvent ==> Yields(s.actions[e.action]);
  }

  /** Each Action up to the one that yields has been polled once, the others not at all. */
  ghost predicate PolledUpTo(s: V.Services, t: V.Services, from: nat, e: V.Event) {
    && |t.actions| == |s.actions| && t.runtimeEvents == s.runtimeEvents
    && forall k | 0 <= k < |s.actions| ::
         t.actions[k] == if k < from || (e != V.NoEvent && e.action < k) then s.actions[k]
                         else V.PollAction(s.actions[k], k).0
  }

  lemma {:induction false} PollActionsExactly(s: V.Services, from: nat, replies: seq<(nat, ServerPacket)>)
    requires Sims(s)
    ensures var (t, e, _) := V.PollActions(s, from, replies); FirstYield(s, from, e) && PolledUpTo(s, t, from, e)
    decreases |s.actions| - from
  {
    if from >= |s.actions| {
    } else {
      var (a, event, attempt) := V.PollAction(s.actions[from], from);
      var s1 := s.(actions := s.actions[from := a]);
      var more := if attempt.Some? then replies + [(from, attempt.value)] else replies;
      assert V.Simulates(s.actions[from]);
      PollActionExactly(s.actions[from], from);
      PolledSims(s, from);
      if event == V.NoEvent {
        PollActionsExactly(s1, from + 1, more);
        var (t, e, _) := V.PollActions(s1, from + 1, more);
        YieldAfter(s, s1, from, e);
      } else {
        EventIsNew(s.actions[from], from);
      }
    }
  }

  lemma EventIsNew(a: V.Action, n: nat)
    requires V.Simulates(a) && V.PollAction(a, n).1 != V.NoEvent
    ensures var e := V.PollAction(a, n).1;
            && (e.GoalRequest? || e.CancelRequest?) && e.action == n
            && (e.GoalRequest? ==> NewGoal(a, e.goal, e.body)) && (e.CancelRequest? ==> NewCancel(a, e.goal))
  {
    PollActionExactly(a, n);
    var p := a.ep.inbox[0];
    if NewGoal(a, p.goal, p.body) { assert V.PollAction(a, n).1 == V.GoalRequest(n, p.goal, p.body); }
    else { assert V.PollAction(a, n).1 == V.CancelRequest(n, p.goal); }
  }

  lemma YieldAfter(s: V.Services, s1: V.Services, from: nat, e: V.Event)
    requires from < |s.actions| && |s1.actions| == |s.actions| && !Yields(s.actions[from])
    requires forall k | from < k < |s.actions| :: s1.actions[k] == s.actions[k]
    requires FirstYield(s1, from + 1, e)
    ensures FirstYield(s, from, e)
  {
    forall k | from <= k < |s.actions| && (e == V.NoEvent || k < e.action) ensures !Yields(s.actions[k]) {
      if k > from { assert s1.actions[k] == s.actions[k]; }
    }
  }

  // ----- the whole poll -----

  /**
   * A poll of the layer: the first queued runtime cancel that is not skipped, as a report or as an ERROR if its
   * Goal has ended; with none, the event of the first Action whose queue yields one; with none, nothing.
   */
  lemma PollExactly(s: V.Services)
    requires Sims(s)
    ensures var (t, e, replies) := V.Poll(s);
            match FirstHandled(s, s.runtimeEvents)
            case Some(c) =>
              && c.0 < |s.actions| && replies == []
              && e == (if Late(s, c) then V.ErrorEvent(c.0, c.1) else V.RuntimeCancelRequest(c.0, c.1))
              && t == V.Services(s.actions[c.0 := Told(s.actions[c.0], c.1)], Behind(s, s.runtimeEvents))
            case None =>
              FirstYield(s, 0, e) && PolledUpTo(s.(runtimeEvents := []), t, 0, e)
  {
    PollRuntimeIs(s);
    if FirstHandled(s, s.runtimeEvents).Some? {
      PollRuntimeLeaves(s);
    } else {
      var quiet := s.(runtimeEvents := []);
      assert V.PollRuntime(s).0 == quiet && Sims(quiet);
      PollActionsExactly(quiet, 0, []);
      SameYield(s, quiet, V.PollActions(quiet, 0, []).1);
    }
  }

  lemma SameYield(s: V.Services, t: V.Services, e: V.Event)
    requires t.actions == s.actions && FirstYield(t, 0, e)
    ensures FirstYield(s, 0, e)
  {
  }

  /** So the application hears nothing exactly when nothing is waiting for it. */
  lemma SilentExactly(s: V.Services)
    requires Sims(s)
    ensures V.Poll(s).1 == V.NoEvent <==>
              FirstHandled(s, s.runtimeEvents).None? && forall k | 0 <= k < |s.actions| :: !Yields(s.actions[k])
  {
    PollExactly(s);
    var e := V.Poll(s).1;
    if FirstHandled(s, s.runtimeEvents).None? && e != V.NoEvent { assert Yields(s.actions[e.action]); }
  }
}
