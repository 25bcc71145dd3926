/**
 * What a multiplexer can leave behind, and what it answers on its own account: bindings that wait for a
 * decision nobody can make, and the replies a poll sends.
 */
module MuxLeftovers {
  import opened ActionTypes
  import opened MuxSpec
  import opened MuxCalls
  import opened MuxEvents
  import G = ServerGoalMachine
  import E = ServerEndpointSpec
  import V = ServerServicesSpec

  predicate HadOwner(owners: seq<Owner>, action: nat, goal: GoalId, conn: nat) {
    Owner(action, goal, conn, Pending) in owners || Owner(action, goal, conn, Active) in owners
  }

  lemma InIsHad(owners: seq<Owner>, o: Owner)
    requires o in owners
    ensures HadOwner(owners, o.action, o.goal, o.conn)
  {
    if o.state == Pending {
      assert o == Owner(o.action, o.goal, o.conn, Pending);
    } else {
      assert o == Owner(o.action, o.goal, o.conn, Active);
    }
  }

  // ----- bindings without owner -----

  /** The connection waits for a decision on a Goal it does not own, so no call can make the decision. */
  predicate Forsaken(m: Mux, i: nat, a: nat, g: GoalId) {
    i < |m.slots| && Awaits(m.slots[i], a, g) && !HadOwner(m.owners, a, g, m.slots[i].conn)
  }

  /** Such a binding stays until its connection is processed. */
  ghost predicate Leftovers(m: Mux, n: Mux) {
    && |m.slots| <= |n.slots|
    && forall i, a, g | 0 <= i < |m.slots| && Forsaken(m, i, a, g) :: n.slots[i].processed || Forsaken(n, i, a, g)
  }

  lemma LeftoversItself(m: Mux, owners: seq<Owner>)
    requires forall o | o in owners :: HadOwner(m.owners, o.action, o.goal, o.conn)
    ensures Leftovers(m, m.(owners := owners))
  {
  }

  lemma LeftoversBoth(m: Mux, n: Mux, o: Mux)
    requires Leftovers(m, n) && Leftovers(n, o)
    requires forall i | 0 <= i < |n.slots| :: n.slots[i].processed ==> o.slots[i].processed
    ensures Leftovers(m, o)
  {
    forall i, a, g | 0 <= i < |m.slots| && Forsaken(m, i, a, g) ensures o.slots[i].processed || Forsaken(o, i, a, g) {
      assert n.slots[i].processed || Forsaken(n, i, a, g);
    }
  }

  /** A slot lets go of no binding that nobody owns, unless it is processed. */
  ghost predicate KeepsForsaken(m: Mux, i: nat, slot: Slot)
    requires i < |m.slots|
  {
    slot.processed || forall a, g | Forsaken(m, i, a, g) :: Awaits(slot, a, g)
  }

  lemma LeftoversOne(m: Mux, i: nat, slot: Slot, owners: seq<Owner>)
    requires i < |m.slots| && slot.conn == m.slots[i].conn && KeepsForsaken(m, i, slot)
    requires forall o | o in owners :: HadOwner(m.owners, o.action, o.goal, o.conn)
    ensures Leftovers(m, m.(slots := m.slots[i := slot], owners := owners))
  {
    var n := m.(slots := m.slots[i := slot], owners := owners);
    forall k, a, g | 0 <= k < |m.slots| && Forsaken(m, k, a, g) ensures n.slots[k].processed || Forsaken(n, k, a, g) {
      assert !HadOwner(owners, a, g, m.slots[k].conn);
    }
  }

  /** A call decides only what its own connection owns. */
  lemma CallLeftovers(m: Mux, i: nat, action: nat, op: V.Op, owners: seq<Owner>)
    requires i < |m.slots| && action < |m.slots[i].server.actions| && IsCall(op)
    requires HadOwner(m.owners, action, op.goal, m.slots[i].conn)
    requires forall o | o in owners :: HadOwner(m.owners, o.action, o.goal, o.conn)
    ensures Leftovers(m, m.(slots := m.slots[i := After(m.slots[i], action, op)], owners := owners))
  {
    var slot := After(m.slots[i], action, op);
    forall a, g | Forsaken(m, i, a, g) ensures Awaits(slot, a, g) { CallElsewhere(m.slots[i], action, op, a, g); }
    LeftoversOne(m, i, slot, owners);
  }

  lemma LookupHad(m: Mux, action: nat, goal: GoalId, state: OwnerState)
    requires OwnerSlotIndex(m, action, goal, state).Some?
    ensures var i := OwnerSlotIndex(m, action, goal, state).value;
            i < |m.slots| && HadOwner(m.owners, action, goal, m.slots[i].conn)
  {
    var k := OwnerIndex(m.owners, action, goal).value;
    InIsHad(m.owners, m.owners[k]);
  }

  lemma ReclaimLeftovers(m: Mux, i: nat)
    requires i < |m.slots| && (m.slots[i].orphaned ==> m.slots[i].processed)
    ensures Leftovers(m, Reclaim(m, i))
    ensures forall k | 0 <= k < |m.slots| :: m.slots[k].processed ==> Reclaim(m, i).slots[k].processed
  {
    forall o | o in m.owners ensures HadOwner(m.owners, o.action, o.goal, o.conn) { InIsHad(m.owners, o); }
    LeftoversItself(m, m.owners);
    if Reclaim(m, i) != m { LeftoversOne(m, i, Reclaim(m, i).slots[i], m.owners); }
  }

  // ----- replies of a poll -----

  /** The packet is the REJECT of the Goal Request at the head of the endpoint's queue. */
  predicate AnswersHead(ep: E.Endpoint, p: ServerPacket) {
    && ep.inbox != [] && ep.inbox[0].kind == REQUEST_KIND_GOAL
    && p == GoalResponse(ep.inbox[0].slot, ep.inbox[0].goal, Rejected)
  }

  lemma PollActionReply(a: V.Action, name: nat)
    ensures var (b, event, attempt) := V.PollAction(a, name);
            && (attempt.Some? ==> AnswersHead(a.ep, attempt.value))
            && (event.GoalRequest? ==>
                  && a.ep.inbox != [] && a.ep.inbox[0].kind == REQUEST_KIND_GOAL && a.ep.inbox[0].goal == event.goal
                  && event.goal in b.ep.bindings && b.ep.bindings[event.goal].slot == a.ep.inbox[0].slot)
  {
  }

  lemma {:induction false} PollActionsReplies(s: V.Services, from: nat, replies: seq<(nat, ServerPacket)>)
    ensures var (t, event, all) := V.PollActions(s, from, replies);
            && replies <= all && |t.actions| == |s.actions|
            && (forall k | |replies| <= k < |all| ::
                  from <= all[k].0 < |s.actions| && AnswersHead(s.actions[all[k].0].ep, all[k].1))
            && (event.GoalRequest? ==>
                  && from <= event.action < |s.actions| && RequestHead(s.actions[event.action].ep, event.goal)
                  && event.goal in t.actions[event.action].ep.bindings
                  && t.actions[event.action].ep.bindings[event.goal].slot == s.actions[event.action].ep.inbox[0].slot)
    decreases |s.actions| - from
  {
    if from >= |s.actions| {
    } else {
      PollActionReply(s.actions[from], from);
      var (a, event, attempt) := V.PollAction(s.actions[from], from);
      var more := if attempt.Some? then replies + [(from, attempt.value)] else replies;
      if event == V.NoEvent { PollActionsReplies(s.(actions := s.actions[from := a]), from + 1, more); }
      else { PollActionEventIs(s.actions[from], from); }
    }
  }

  predicate RequestHead(ep: E.Endpoint, goal: GoalId) {
    ep.inbox != [] && ep.inbox[0].kind == REQUEST_KIND_GOAL && ep.inbox[0].goal == goal
  }

  lemma PollActionEventIs(a: V.Action, name: nat)
    ensures var event := V.PollAction(a, name).1; event.GoalRequest? ==> event.action == name
  {
  }

  /** The runtime queue does not touch the endpoints. */
  lemma {:induction false} PollRuntimeEndpoints(s: V.Services)
    ensures var t := V.PollRuntime(s).0;
            |t.actions| == |s.actions| && (forall n | 0 <= n < |s.actions| :: t.actions[n].ep == s.actions[n].ep)
    ensures !V.PollRuntime(s).1.GoalRequest?
    decreases |s.runtimeEvents|
  {
    if s.runtimeEvents == [] {
    } else {
      var (name, goal) := s.runtimeEvents[0];
      var s1 := s.(runtimeEvents := s.runtimeEvents[1..]);
      if name >= |s.actions| {
        PollRuntimeEndpoints(s1);
      } else {
        var (a, handled) := V.HandleCancel(s.actions[name], goal, G.RuntimeCancelRequested);
        if handled.Ignored? { PollRuntimeEndpoints(s1.(actions := s.actions[name := a])); }
      }
    }
  }

  /** Every reply of a poll answers the request at the head of the queue it came from. */
  lemma PollReplies(s: V.Services)
    ensures var (t, event, replies) := V.Poll(s);
            && |t.actions| == |s.actions|
            && (forall k | 0 <= k < |replies| ::
                  0 <= replies[k].0 < |s.actions| && AnswersHead(s.actions[replies[k].0].ep, replies[k].1))
            && (event.GoalRequest? ==>
                  && event.action < |s.actions| && RequestHead(s.actions[event.action].ep, event.goal)
                  && event.goal in t.actions[event.action].ep.bindings
                  && t.actions[event.action].ep.bindings[event.goal].slot == s.actions[event.action].ep.inbox[0].slot)
  {
    PollRuntimeEndpoints(s);
    var (t, event) := V.PollRuntime(s);
    if event == V.NoEvent { PollActionsReplies(t, 0, []); }
  }

  /** A packet of a poll, seen from the connection it leaves on. */
  predicate AnswersAt(slot: Slot, w: Wire) {
    && w.conn == slot.conn && !slot.processed && w.action < |slot.server.actions|
    && AnswersHead(slot.server.actions[w.action].ep, w.packet)
  }

  ghost predicate Answers(m: Mux, w: Wire) { exists k :: 0 <= k < |m.slots| && AnswersAt(m.slots[k], w) }

  /** As far as replies go, nothing has happened to the connections that are still open. */
  ghost predicate Untouched(m: Mux, n: Mux) {
    && |m.slots| <= |n.slots|
    && (forall k | 0 <= k < |m.slots| && !n.slots[k].processed ::
          n.slots[k].server == m.slots[k].server && n.slots[k].conn == m.slots[k].conn && !m.slots[k].processed)
    && (forall k | |m.slots| <= k < |n.slots| && !n.slots[k].processed :: Quiet(n.slots[k].server))
  }

  lemma UntouchedBoth(m: Mux, n: Mux, o: Mux)
    requires Untouched(m, n) && Untouched(n, o)
    ensures Untouched(m, o)
  {
    forall k | 0 <= k < |m.slots| && !o.slots[k].processed
      ensures o.slots[k].server == m.slots[k].server && o.slots[k].conn == m.slots[k].conn && !m.slots[k].processed
    {
      assert !n.slots[k].processed;
    }
    forall k | |m.slots| <= k < |o.slots| && !o.slots[k].processed ensures Quiet(o.slots[k].server) {
      if k < |n.slots| { assert !n.slots[k].processed && o.slots[k].server == n.slots[k].server; }
    }
  }

  lemma AnswersBefore(m: Mux, n: Mux, w: Wire)
    requires Untouched(m, n) && Answers(n, w)
    ensures Answers(m, w)
  {
    var k :| 0 <= k < |n.slots| && AnswersAt(n.slots[k], w);
    assert k < |m.slots|;
    assert AnswersAt(m.slots[k], w);
  }
}
