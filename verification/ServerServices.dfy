/**
 * The server Goal transaction layer in the form of the source: accepted Goals live in a vector that
 * is searched, appended to and erased from in place.  The ghost field `model` is the value the
 * object stands for, and every method moves it as ServerServicesSpec says.
 */
module ServerServices {
  import opened ActionTypes
  import opened GoalVector
  import G = ServerGoalMachine
  import E = ServerEndpointSpec
  import Spec = ServerServicesSpec

  datatype ActionInstance = ActionInstance(goals: seq<GoalInstance<G.Context>>, ep: E.Endpoint)

  class ActionServicesServer {
    var actions: seq<ActionInstance>
    var runtimeEvents: seq<(nat, GoalId)>
    ghost var model: Spec.Services

    ghost predicate Valid()
      reads this
    {
      runtimeEvents == model.runtimeEvents && AllStand(actions, model)
    }

    static ghost predicate AllStand(actions: seq<ActionInstance>, s: Spec.Services) {
      |actions| == |s.actions| && forall i | 0 <= i < |actions| :: Stands(actions[i], s.actions[i])
    }

    static ghost predicate Stands(x: ActionInstance, a: Spec.Action) {
      x.ep == a.ep && Represents(x.goals, a.goals)
    }

    /** From `before`, the object did `r` on Action `name`, or refused an unknown Action. */
    ghost predicate Did(before: Spec.Services, name: nat, r: Spec.Outcome, ok: bool, attempt: Option<ServerPacket>)
      reads this
    {
      && Valid()
      && (name < |before.actions| ==> model == Spec.Lift(before, name, r) && ok == r.ok && attempt == r.attempt)
      && (name >= |before.actions| ==> model == before && !ok && attempt == None)
    }

    ghost function ActionModel(name: nat): Spec.Action
      reads this
    {
      if name < |model.actions| then model.actions[name] else Spec.Action(map[], E.Endpoint(false, 0, map[], []))
    }

    constructor (endpoints: seq<E.Endpoint>)
      ensures Valid()
      ensures model == Spec.Services(seq(|endpoints|, i requires 0 <= i < |endpoints| =>
                                         Spec.Action(map[], endpoints[i])), [])
    {
      actions := seq(|endpoints|, i requires 0 <= i < |endpoints| => ActionInstance([], endpoints[i]));
      runtimeEvents := [];
      model := Spec.Services(seq(|endpoints|, i requires 0 <= i < |endpoints| => Spec.Action(map[], endpoints[i])), []);
    }

    /** Write back one Action together with its meaning. */
    method Store(name: nat, x: ActionInstance, ghost a: Spec.Action)
      requires Valid() && name < |actions| && Stands(x, a)
      modifies this`actions, this`model
      ensures Valid() && model == old(model).(actions := old(model).actions[name := a])
    {
      actions := actions[name := x];
      model := model.(actions := model.actions[name := a]);
    }

    method AcceptGoal(name: nat, goal: GoalId, sent: bool) returns (ok: bool, attempt: Option<ServerPacket>)
      requires Valid()
      modifies this`actions, this`model
      ensures Did(old(model), name, Spec.AcceptGoal(old(ActionModel(name)), goal, sent), ok, attempt)
    {
      ok, attempt := false, None;
      if !ValidGoalId(goal) || name >= |actions| { return; }
      var x := actions[name];
      ghost var a := model.actions[name];
      assert Stands(x, a);
      var found := FindGoal(x.goals, goal);
      if found.Some? { return; }
      // The semantic instance is staged before the wire send and popped again if the send fails.
      AppendRepresents(x.goals, a.goals, goal, G.INITIAL);
      var staged := x.goals + [GoalInstance(goal, G.INITIAL)];
      var r := E.AcceptGoal(x.ep, goal, sent);
      ok, attempt := r.result, r.attempt;
      var goals := if ok then staged else staged[..|staged| - 1];
      assert !ok ==> goals == x.goals;
      Store(name, ActionInstance(goals, r.next), Spec.AcceptGoal(a, goal, sent).next);
    }

    method RejectGoal(name: nat, goal: GoalId, sent: bool) returns (ok: bool, attempt: Option<ServerPacket>)
      requires Valid()
      modifies this`actions, this`model
      ensures Did(old(model), name, Spec.RejectGoal(old(ActionModel(name)), goal, sent), ok, attempt)
    {
      ok, attempt := false, None;
      if !ValidGoalId(goal) || name >= |actions| { return; }
      var x := actions[name];
      ghost var a := model.actions[name];
      assert Stands(x, a);
      var found := FindGoal(x.goals, goal);
      if found.Some? { return; }
      var r := E.RejectGoal(x.ep, goal, sent);
      ok, attempt := r.result, r.attempt;
      Store(name, x.(ep := r.next), a.(ep := r.next));
    }

    method AcceptCancel(name: nat, goal: GoalId, sent: bool) returns (ok: bool, attempt: Option<ServerPacket>)
      requires Valid()
      modifies this`actions, this`model
      ensures Did(old(model), name, Spec.AcceptCancel(old(ActionModel(name)), goal, sent), ok, attempt)
    {
      ok, attempt := false, None;
      if !ValidGoalId(goal) || name >= |actions| { return; }
      var x := actions[name];
      ghost var a := model.actions[name];
      assert Stands(x, a);
      var found := FindGoal(x.goals, goal);
      if found.None? { return; }
      var c := x.goals[found.value].context;
      var t := G.Transit(c, G.AcceptCancel);
      if !t.Transitioned? { return; }
      var r := if c.origin == G.FromClient then E.AcceptCancel(x.ep, goal, sent) else E.AcceptCancelLocally(x.ep, goal);
      ok, attempt := r.result, r.attempt;
      UpdateRepresents(x.goals, a.goals, found.value, t.next);
      var goals := if ok then x.goals[found.value := x.goals[found.value].(context := t.next)] else x.goals;
      Store(name, ActionInstance(goals, r.next), Spec.AcceptCancel(a, goal, sent).next);
    }

    method RejectCancel(name: nat, goal: GoalId, sent: bool) returns (ok: bool, attempt: Option<ServerPacket>)
      requires Valid()
      modifies this`actions, this`model
      ensures Did(old(model), name, Spec.RejectCancel(old(ActionModel(name)), goal, sent), ok, attempt)
    {
      ok, attempt := false, None;
      if !ValidGoalId(goal) || name >= |actions| { return; }
      var x := actions[name];
      ghost var a := model.actions[name];
      assert Stands(x, a);
      var found := FindGoal(x.goals, goal);
      if found.None? { return; }
      var c := x.goals[found.value].context;
      var t := G.Transit(c, G.RejectCancel);
      if !t.Transitioned? { return; }
      var ep := x.ep;
      ok := true;
      if c.origin == G.FromClient {
        var r := E.RejectCancel(x.ep, goal, sent);
        ok, attempt, ep := r.result, r.attempt, r.next;
      }
      UpdateRepresents(x.goals, a.goals, found.value, t.next);
      var goals := if ok then x.goals[found.value := x.goals[found.value].(context := t.next)] else x.goals;
      Store(name, ActionInstance(goals, ep), Spec.RejectCancel(a, goal, sent).next);
    }

    method SendFeedback(name: nat, goal: GoalId, pdu: AppPdu, sent: bool)
      returns (ok: bool, attempt: Option<ServerPacket>)
      requires Valid()
      modifies this`actions, this`model
      ensures Did(old(model), name, Spec.SendFeedback(old(ActionModel(name)), goal, pdu, sent), ok, attempt)
    {
      ok, attempt := false, None;
      if !ValidGoalId(goal) || pdu.EmptyPdu? || name >= |actions| { return; }
      var x := actions[name];
      ghost var a := model.actions[name];
      assert Stands(x, a);
      var found := FindGoal(x.goals, goal);
      if found.None? { return; }
      if !G.Transit(x.goals[found.value].context, G.PublishFeedback).Nop? { return; }
      var r := E.SendFeedback(x.ep, goal, pdu, sent);
      ok, attempt := r.result, r.attempt;
      Store(name, x.(ep := r.next), a.(ep := r.next));
    }

    method Complete(name: nat, goal: GoalId, status: TerminalStatus, pdu: AppPdu, sent: bool)
      returns (ok: bool, attempt: Option<ServerPacket>)
      requires Valid()
      modifies this`actions, this`model
      ensures Did(old(model), name, Spec.Complete(old(ActionModel(name)), goal, status, pdu, sent), ok, attempt)
    {
      ok, attempt := false, None;
      if !ValidGoalId(goal) || pdu.EmptyPdu? || name >= |actions| { return; }
      var x := actions[name];
      ghost var a := model.actions[name];
      assert Stands(x, a);
      var found := FindGoal(x.goals, goal);
      if found.None? { return; }
      var t := G.Transit(x.goals[found.value].context, G.Complete(status));
      if !t.Transitioned? { return; }
      var r := E.Complete(x.ep, goal, status, pdu, sent);
      attempt := r.attempt;
      var goals := x.goals;
      match r.result {
        case NotCommitted =>
        case Sent =>
          EraseRepresents(x.goals, a.goals, found.value);
          goals, ok := Erase(x.goals, found.value), true;
        case SendFailedAfterCommit =>
          UpdateRepresents(x.goals, a.goals, found.value, t.next);
          goals := x.goals[found.value := x.goals[found.value].(context := t.next)];
      }
      Store(name, ActionInstance(goals, r.next), Spec.Complete(a, goal, status, pdu, sent).next);
    }

    method CompleteLocally(name: nat, goal: GoalId, status: TerminalStatus, pdu: AppPdu) returns (ok: bool)
      requires Valid()
      modifies this`actions, this`model
      ensures Did(old(model), name, Spec.CompleteLocally(old(ActionModel(name)), goal, status, pdu), ok, None)
    {
      ok := false;
      if !ValidGoalId(goal) || pdu.EmptyPdu? || name >= |actions| { return; }
      var x := actions[name];
      ghost var a := model.actions[name];
      assert Stands(x, a);
      var found := FindGoal(x.goals, goal);
      if found.None? { return; }
      if !G.Transit(x.goals[found.value].context, G.Complete(status)).Transitioned? { return; }
      var r := E.CompleteLocally(x.ep, goal, status, pdu);
      ok := r.result;
      EraseRepresents(x.goals, a.goals, found.value);
      var goals := if ok then Erase(x.goals, found.value) else x.goals;
      Store(name, ActionInstance(goals, r.next), Spec.CompleteLocally(a, goal, status, pdu).next);
    }

    method DiscardPendingGoal(name: nat, goal: GoalId) returns (ok: bool)
      requires Valid()
      modifies this`actions, this`model
      ensures Did(old(model), name, Spec.DiscardPendingGoal(old(ActionModel(name)), goal), ok, None)
    {
      ok := false;
      if !ValidGoalId(goal) || name >= |actions| { return; }
      var x := actions[name];
      ghost var a := model.actions[name];
      assert Stands(x, a);
      var found := FindGoal(x.goals, goal);
      if found.Some? { return; }
      var r := E.DiscardPendingGoal(x.ep, goal);
      ok := r.result;
      Store(name, x.(ep := r.next), a.(ep := r.next));
    }

    method HandleCancel(name: nat, goal: GoalId, cancel: G.Event) returns (handled: Spec.Handled)
      requires Valid() && name < |actions|
      modifies this`actions, this`model
      ensures Valid()
      ensures var (a, h) := Spec.HandleCancel(old(model).actions[name], goal, cancel);
              handled == h && model == old(model).(actions := old(model).actions[name := a])
    {
      var x := actions[name];
      ghost var a := model.actions[name];
      assert Stands(x, a);
      var found := FindGoal(x.goals, goal);
      if found.None? { return Spec.Unknown; }
      match G.Transit(x.goals[found.value].context, cancel) {
        case Failed(_) => handled := Spec.Unknown;
        case Nop => handled := Spec.Ignored;
        case Transitioned(c) =>
          UpdateRepresents(x.goals, a.goals, found.value, c);
          Store(name, x.(goals := x.goals[found.value := x.goals[found.value].(context := c)]),
                a.(goals := a.goals[goal := c]));
          handled := Spec.Surfaced;
      }
    }

    /** Runtime cancels come first; ignored ones are skipped in the same poll. */
    method PollRuntime() returns (event: Spec.Event)
      requires Valid()
      modifies this
      ensures Valid() && (model, event) == Spec.PollRuntime(old(model))
    {
      while runtimeEvents != []
        invariant Valid() && Spec.PollRuntime(model) == Spec.PollRuntime(old(model))
        decreases |runtimeEvents|
      {
        var (name, goal) := runtimeEvents[0];
        ghost var before := model;
        runtimeEvents := runtimeEvents[1..];
        model := model.(runtimeEvents := model.runtimeEvents[1..]);
        if name >= |actions| { continue; }
        var handled := HandleCancel(name, goal, G.RuntimeCancelRequested);
        if handled.Surfaced? { return Spec.RuntimeCancelRequest(name, goal); }
        if handled.Unknown? { return Spec.ErrorEvent(name, goal); }
      }
      event := Spec.NoEvent;
    }

    method PollAction(name: nat) returns (event: Spec.Event, attempt: Option<ServerPacket>)
      requires Valid() && name < |actions|
      modifies this`actions, this`model
      ensures Valid()
      ensures var (a, e, r) := Spec.PollAction(old(model).actions[name], name);
              event == e && attempt == r && model == old(model).(actions := old(model).actions[name := a])
    {
      var x := actions[name];
      assert Stands(x, model.actions[name]);
      var r := E.Poll(x.ep);
      attempt := r.attempt;
      Store(name, x.(ep := r.next), model.actions[name].(ep := r.next));
      match r.result {
        case NoEvent => event := Spec.NoEvent;
        case GoalRequest(g, body) => event := Spec.GoalRequest(name, g, body);
        case CancelRequest(g, _) =>
          var handled := HandleCancel(name, g, G.CancelRequestReceived);
          event := match handled
            case Ignored => Spec.NoEvent
            case Surfaced => Spec.CancelRequest(name, g)
            case Unknown => Spec.ErrorEvent(name, g);
      }
    }

    /** First event in Action order. */
    method Poll() returns (event: Spec.Event, replies: seq<(nat, ServerPacket)>)
      requires Valid()
      modifies this
      ensures Valid() && (model, event, replies) == Spec.Poll(old(model))
    {
      replies := [];
      event := PollRuntime();
      if event == Spec.NoEvent { event, replies := PollActions(); }
    }

    /** The Actions in order, until one yields an event. */
    method PollActions() returns (event: Spec.Event, replies: seq<(nat, ServerPacket)>)
      requires Valid()
      modifies this`actions, this`model
      ensures Valid() && (model, event, replies) == Spec.PollActions(old(model), 0, [])
    {
      replies := [];
      var name := 0;
      ghost var whole := Spec.PollActions(model, 0, []);
      while name < |actions|
        invariant Valid() && 0 <= name <= |actions|
        invariant whole == Spec.PollActions(model, name, replies)
        decreases |actions| - name
      {
        var attempt;
        event, attempt := PollAction(name);
        if attempt.Some? { replies := replies + [(name, attempt.value)]; }
        if event != Spec.NoEvent { return; }
        name := name + 1;
      }
      event := Spec.NoEvent;
    }

    method StopAll()
      requires Valid()
      modifies this
      ensures Valid() && model == Spec.StopAll(old(model))
    {
      runtimeEvents := [];
      actions := seq(|actions|, i requires 0 <= i < |actions| reads this =>
                     actions[i].(ep := E.ClearPendingEvents(actions[i].ep)));
      model := Spec.StopAll(model);
    }

    method ClearAll()
      requires Valid()
      modifies this
      ensures Valid() && model == Spec.ClearAll(old(model))
    {
      runtimeEvents := [];
      actions := seq(|actions|, i requires 0 <= i < |actions| reads this =>
                     ActionInstance([], E.ResetContexts(actions[i].ep)));
      model := Spec.ClearAll(model);
    }

    /** Queue a runtime cancel for every accepted Goal that has none queued yet. */
    method NotifyTransportDisconnected()
      requires Valid()
      modifies this`runtimeEvents, this`model
      ensures Valid() && Spec.Notified(old(model), model)
    {
      var queue := WithRuntimeCancels(actions, runtimeEvents, model);
      runtimeEvents := queue;
      model := model.(runtimeEvents := queue);
    }

    /** The queue together with a runtime cancel for every Goal that is not in it yet. */
    static method WithRuntimeCancels(actions: seq<ActionInstance>, events: seq<(nat, GoalId)>, ghost s: Spec.Services)
      returns (queue: seq<(nat, GoalId)>)
      requires events == s.runtimeEvents && AllStand(actions, s)
      ensures Spec.Notified(s, s.(runtimeEvents := queue))
    {
      queue := events;
      for n := 0 to |actions|
        invariant RowsQueued(queue, actions, n) && Extends(s, queue)
      {
        for i := 0 to |actions[n].goals|
          invariant RowsQueued(queue, actions, n) && RowQueued(queue, n, actions[n].goals[..i]) && Extends(s, queue)
        {
          var goal := actions[n].goals[i].goal;
          assert actions[n].goals[..i + 1] == actions[n].goals[..i] + [actions[n].goals[i]];
          if (n, goal) !in queue {
            assert Stands(actions[n], s.actions[n]);
            ExtendOne(s, queue, n, goal);
            RowsStayQueued(queue, (n, goal), actions, n);
            queue := queue + [(n, goal)];
          }
        }
        assert actions[n].goals[..|actions[n].goals|] == actions[n].goals;
      }
      QueuedIsNotified(queue, actions, s);
    }
  }

  // ----- the queue of runtime cancels while it grows -----

  /** The Goals of one Action are queued. */
  ghost predicate RowQueued(queue: seq<(nat, GoalId)>, n: nat, row: seq<GoalInstance<G.Context>>) {
    forall k | 0 <= k < |row| :: (n, row[k].goal) in queue
  }

  ghost predicate RowsQueued(queue: seq<(nat, GoalId)>, actions: seq<ActionInstance>, n: nat) {
    n <= |actions| && forall m | 0 <= m < n :: RowQueued(queue, m, actions[m].goals)
  }

  /** The queue extends the present one by accepted Goals, none of them twice. */
  ghost predicate Extends(s: Spec.Services, queue: seq<(nat, GoalId)>) {
    && s.runtimeEvents <= queue
    && forall k | |s.runtimeEvents| <= k < |queue| :: Newly(s, queue, k)
  }

  ghost predicate Newly(s: Spec.Services, queue: seq<(nat, GoalId)>, k: nat)
    requires k < |queue|
  {
    var (n, g) := queue[k];
    n < |s.actions| && g in s.actions[n].goals && (n, g) !in queue[..k]
  }

  lemma ExtendOne(s: Spec.Services, queue: seq<(nat, GoalId)>, n: nat, g: GoalId)
    requires Extends(s, queue) && n < |s.actions| && g in s.actions[n].goals && (n, g) !in queue
    ensures Extends(s, queue + [(n, g)])
  {
    var longer := queue + [(n, g)];
    forall k | |s.runtimeEvents| <= k < |longer| ensures Newly(s, longer, k) {
      if k < |queue| {
        assert Newly(s, queue, k) && longer[..k] == queue[..k];
      } else {
        assert longer[..k] == queue;
      }
    }
  }

  lemma QueuedIsNotified(queue: seq<(nat, GoalId)>, actions: seq<ActionInstance>, s: Spec.Services)
    requires ActionServicesServer.AllStand(actions, s) && RowsQueued(queue, actions, |actions|) && Extends(s, queue)
    ensures Spec.Notified(s, s.(runtimeEvents := queue))
  {
    forall n: nat, g | n < |s.actions| && g in s.actions[n].goals ensures (n, g) in queue {
      assert ActionServicesServer.Stands(actions[n], s.actions[n]) && RowQueued(queue, n, actions[n].goals);
    }
    forall k | |s.runtimeEvents| <= k < |queue|
      ensures var (n, g) := queue[k]; n < |s.actions| && g in s.actions[n].goals && (n, g) !in queue[..k]
    {
      assert Newly(s, queue, k);
    }
  }

  lemma RowsStayQueued(queue: seq<(nat, GoalId)>, next: (nat, GoalId), actions: seq<ActionInstance>, n: nat)
    requires RowsQueued(queue, actions, n)
    ensures RowsQueued(queue + [next], actions, n)
    ensures forall m, row | RowQueued(queue, m, row) :: RowQueued(queue + [next], m, row)
  {
    forall m | 0 <= m < n ensures RowQueued(queue + [next], m, actions[m].goals) {
      assert RowQueued(queue, m, actions[m].goals);
    }
  }
}
