/**
 * The client Goal transaction layer in the form of the source: a vector of accepted Goals per
 * Action, updated in place.  Every method moves the ghost value `model` as ClientServicesSpec says.
 */
module ClientServices {
  import opened ActionTypes
  import opened GoalVector
  import C = ClientGoalMachine
  import E = ClientEndpointSpec
  import Spec = ClientServicesSpec

  datatype ActionInstance = ActionInstance(goals: seq<GoalInstance<C.Context>>, ep: E.Endpoint)

  class ActionServicesClient {
    var actions: seq<ActionInstance>
    ghost var model: seq<Spec.Action>

    static ghost predicate Stands(x: ActionInstance, a: Spec.Action) {
      x.ep == a.ep && Represents(x.goals, a.goals)
    }

    ghost predicate Valid()
      reads this
    {
      |actions| == |model| && forall i | 0 <= i < |actions| :: Stands(actions[i], model[i])
    }

    constructor (endpoints: seq<E.Endpoint>)
      ensures Valid()
      ensures model == seq(|endpoints|, i requires 0 <= i < |endpoints| => Spec.Action(map[], endpoints[i]))
    {
      actions := seq(|endpoints|, i requires 0 <= i < |endpoints| => ActionInstance([], endpoints[i]));
      model := seq(|endpoints|, i requires 0 <= i < |endpoints| => Spec.Action(map[], endpoints[i]));
    }

    method Store(name: nat, x: ActionInstance, ghost a: Spec.Action)
      requires Valid() && name < |actions| && Stands(x, a)
      modifies this
      ensures Valid() && model == old(model)[name := a]
    {
      actions := actions[name := x];
      model := model[name := a];
    }

    method SendGoal(name: nat, goal: GoalId, pdu: AppPdu, timeout: nat, now: nat, sent: bool)
      returns (answer: E.GoalSendResult, attempt: Option<RequestPacket>)
      requires Valid()
      modifies this
      ensures Valid()
      ensures name < |old(model)| ==>
                var (a, r, p) := Spec.SendGoal(old(model)[name], goal, pdu, timeout, now, sent);
                model == old(model)[name := a] && answer == r && attempt == p
      ensures name >= |old(model)| ==> model == old(model) && answer != E.Success && attempt == None
    {
      attempt := None;
      if pdu.EmptyPdu? || !ValidGoalId(goal) { return E.InvalidArgument, None; }
      if name >= |actions| { return E.ActionNotFound, None; }
      var x := actions[name];
      assert Stands(x, model[name]);
      var found := FindGoal(x.goals, goal);
      if found.Some? { return E.DuplicateGoal, None; }
      var (ep, r, p) := E.SendGoal(x.ep, goal, pdu, timeout, now, sent);
      Store(name, x.(ep := ep), model[name].(ep := ep));
      answer, attempt := r, p;
    }

    method SendCancel(name: nat, goal: GoalId, sent: bool) returns (ok: bool, attempt: Option<RequestPacket>)
      requires Valid()
      modifies this
      ensures Valid()
      ensures name < |old(model)| ==>
                var (a, r, p) := Spec.SendCancel(old(model)[name], goal, sent);
                model == old(model)[name := a] && ok == r && attempt == p
      ensures name >= |old(model)| ==> model == old(model) && !ok && attempt == None
    {
      ok, attempt := false, None;
      if !ValidGoalId(goal) || name >= |actions| { return; }
      var x := actions[name];
      ghost var a := model[name];
      assert Stands(x, a);
      var found := FindGoal(x.goals, goal);
      if found.None? { return; }
      var t := C.Transit(x.goals[found.value].context, C.RequestCancel);
      if !t.Transitioned? { return; }
      var (ep, r, p) := E.SendCancel(x.ep, goal, sent);
      ok, attempt := r, p;
      UpdateRepresents(x.goals, a.goals, found.value, t.next);
      var goals := if ok then x.goals[found.value := x.goals[found.value].(context := t.next)] else x.goals;
      Store(name, ActionInstance(goals, ep), Spec.SendCancel(a, goal, sent).0);
    }

    /** The four handlers for what the endpoint delivered. */
    method Handle(name: nat, p: ServerPacket) returns (event: Spec.Event)
      requires Valid() && name < |actions|
      modifies this
      ensures Valid()
      ensures var (a, e) := Spec.Handle(old(model)[name], p);
              model == old(model)[name := a] && event == e
    {
      if !ValidGoalId(p.goal) || p.Garbage? || ((p.GoalResponse? || p.CancelResponse?) && p.decision == NoDecision) {
        return Spec.ErrorEvent(p.goal);
      }
      var x := actions[name];
      ghost var a := model[name];
      assert Stands(x, a);
      var found := FindGoal(x.goals, p.goal);
      if p.GoalResponse? {
        if p.decision == Rejected { return Spec.Surfaced(p); }
        if found.Some? { return Spec.ErrorEvent(p.goal); }
        AppendRepresents(x.goals, a.goals, p.goal, C.INITIAL);
        Store(name, x.(goals := x.goals + [GoalInstance(p.goal, C.INITIAL)]), Spec.Handle(a, p).0);
        return Spec.Surfaced(p);
      }
      if found.None? { return Spec.ErrorEvent(p.goal); }
      match C.Transit(x.goals[found.value].context, Spec.ReducerEvent(p)) {
        case Failed(_) => event := Spec.ErrorEvent(p.goal);
        case Nop => event := Spec.NoEvent;
        case Transitioned(c) =>
          if p.Result? {
            EraseRepresents(x.goals, a.goals, found.value);
            Store(name, x.(goals := Erase(x.goals, found.value)), Spec.Handle(a, p).0);
          } else {
            UpdateRepresents(x.goals, a.goals, found.value, c);
            Store(name, x.(goals := x.goals[found.value := x.goals[found.value].(context := c)]), Spec.Handle(a, p).0);
          }
          event := Spec.Surfaced(p);
      }
    }

    method PollAction(name: nat, now: nat) returns (event: Spec.Event)
      requires Valid() && name < |actions|
      modifies this
      ensures Valid()
      ensures var (a, e) := Spec.PollAction(old(model)[name], now);
              model == old(model)[name := a] && event == e
    {
      var x := actions[name];
      assert Stands(x, model[name]);
      var (ep, delivered) := E.Poll(x.ep, now);
      Store(name, x.(ep := ep), model[name].(ep := ep));
      match delivered {
        case NoEvent => event := Spec.NoEvent;
        case TimedOut(g) => event := Spec.TimeoutEvent(g);
        case Delivered(p) => event := Handle(name, p);
      }
    }

    /** First event in Action order, and the Action it belongs to. */
    method Poll(now: nat) returns (event: Spec.Event, name: nat)
      requires Valid()
      modifies this
      ensures Valid() && (model, event, name) == Spec.PollActions(old(model), 0, now)
    {
      name := 0;
      while name < |actions|
        invariant Valid() && 0 <= name <= |actions|
        invariant Spec.PollActions(model, name, now) == Spec.PollActions(old(model), 0, now)
        decreases |actions| - name
      {
        event := PollAction(name, now);
        if event != Spec.NoEvent { return; }
        name := name + 1;
      }
      event := Spec.NoEvent;
    }

    method StopAll()
      requires Valid()
      modifies this
      ensures Valid() && |model| == |old(model)|
      ensures forall i | 0 <= i < |model| :: model[i] == Spec.Apply(old(model)[i], Spec.OpStop)
    {
      actions := seq(|actions|, i requires 0 <= i < |actions| reads this =>
                     actions[i].(ep := E.ClearPendingEvents(actions[i].ep)));
      model := seq(|model|, i requires 0 <= i < |model| reads this => Spec.Apply(model[i], Spec.OpStop));
    }

    method ClearAll()
      requires Valid()
      modifies this
      ensures Valid() && |model| == |old(model)|
      ensures forall i | 0 <= i < |model| :: model[i] == Spec.Apply(old(model)[i], Spec.OpClear)
    {
      actions := seq(|actions|, i requires 0 <= i < |actions| reads this =>
                     ActionInstance([], E.ResetContexts(actions[i].ep)));
      model := seq(|model|, i requires 0 <= i < |model| reads this => Spec.Apply(model[i], Spec.OpClear));
    }
  }
}
