/** Polling a connection, taking in new ones and processing lost ones keep the ownership invariant. */
module MuxEvents {
  import opened ActionTypes
  import opened MuxSpec
  import opened MuxCalls
  import G = ServerGoalMachine
  import E = ServerEndpointSpec
  import V = ServerServicesSpec

  // ----- polling one connection's Services -----

  /** A poll neither accepts nor ends a Goal, and forgets no Goal that waits for its decision. */
  ghost predicate PollKeeps(s: V.Services, t: V.Services) {
    && |t.actions| == |s.actions|
    && (forall a | 0 <= a < |s.actions| :: ActionKeeps(s.actions[a], t.actions[a]))
  }

  ghost predicate ActionKeeps(a: V.Action, b: V.Action) {
    && (V.Simulates(a) ==> V.Simulates(b))
    && b.goals.Keys == a.goals.Keys
    && (forall g | E.InState(a.ep, g, E.AwaitingGoalDecision) :: E.InState(b.ep, g, E.AwaitingGoalDecision))
    && (forall g <- a.goals :: a.goals[g].state == Finishing ==> b.goals[g] == a.goals[g])
  }

  lemma PollKeepsOne(s: V.Services, at: nat, a: V.Action, events: seq<(nat, GoalId)>)
    requires at < |s.actions| && ActionKeeps(s.actions[at], a)
    ensures PollKeeps(s, V.Services(s.actions[at := a], events))
  {
    forall k | 0 <= k < |s.actions| && k != at ensures ActionKeeps(s.actions[k], s.actions[k]) {}
  }

  lemma PollKeepsBoth(s: V.Services, t: V.Services, u: V.Services)
    requires PollKeeps(s, t) && PollKeeps(t, u)
    ensures PollKeeps(s, u)
  {
    forall k | 0 <= k < |s.actions| ensures ActionKeeps(s.actions[k], u.actions[k]) {
      assert ActionKeeps(s.actions[k], t.actions[k]) && ActionKeeps(t.actions[k], u.actions[k]);
    }
  }

  lemma PollKeepsSims(s: V.Services, t: V.Services)
    requires PollKeeps(s, t) && Sims(s)
    ensures Sims(t)
  {
    forall k | 0 <= k < |t.actions| ensures V.Simulates(t.actions[k]) {
      assert ActionKeeps(s.actions[k], t.actions[k]) && V.Simulates(s.actions[k]);
    }
  }

  lemma PollKeepsItself(s: V.Services, events: seq<(nat, GoalId)>)
    ensures PollKeeps(s, s.(runtimeEvents := events))
  {
    forall k | 0 <= k < |s.actions| ensures ActionKeeps(s.actions[k], s.actions[k]) {}
  }

  lemma PollActionKeeps(a: V.Action, name: nat)
    ensures ActionKeeps(a, V.PollAction(a, name).0)
  {
    var b := V.PollAction(a, name).0;
    assert b == V.Apply(a, V.OpPoll);
    if V.Simulates(a) { V.ApplySimulates(a, V.OpPoll); }
    PollActionGoals(a, name);
  }

  lemma PollActionGoals(a: V.Action, name: nat)
    ensures var b := V.PollAction(a, name).0;
            && b.goals.Keys == a.goals.Keys
            && (forall g | E.InState(a.ep, g, E.AwaitingGoalDecision) :: E.InState(b.ep, g, E.AwaitingGoalDecision))
            && (forall g <- a.goals :: a.goals[g].state == Finishing ==> b.goals[g] == a.goals[g])
  {
    var b := V.PollAction(a, name).0;
    assert b.goals.Keys == a.goals.Keys;
  }

  lemma PollActionRequest(a: V.Action, name: nat)
    ensures var (b, event, attempt) := V.PollAction(a, name);
            && (event.GoalRequest? ==>
                  && event.action == name && event.goal !in a.ep.bindings && ValidGoalId(event.goal)
                  && E.InState(b.ep, event.goal, E.AwaitingGoalDecision))
            && (a.ep.inbox == [] ==> b == a && event == V.NoEvent)
  {
  }

  lemma RuntimeCancelKeeps(a: V.Action, g: GoalId)
    ensures var b := V.HandleCancel(a, g, G.RuntimeCancelRequested).0;
            && ActionKeeps(a, b) && b.ep == a.ep
            && (forall h <- a.goals :: h != g ==> b.goals[h] == a.goals[h])
            && (V.Simulates(a) && g in a.goals ==> b.goals[g].origin != G.FromClient)
  {
    var b := V.HandleCancel(a, g, G.RuntimeCancelRequested).0;
    assert b == V.Apply(a, V.OpRuntimeCancel(g));
    if V.Simulates(a) {
      V.ApplySimulates(a, V.OpRuntimeCancel(g));
      assert V.Agrees(a, g);
    }
    assert b.goals.Keys == a.goals.Keys;
  }

  /** The first runtime cancel in the queue, taken out and handled. */
  lemma RuntimeCancelOne(s: V.Services)
    requires Sims(s) && s.runtimeEvents != [] && s.runtimeEvents[0].0 < |s.actions|
    ensures var (name, goal) := s.runtimeEvents[0];
            var a := V.HandleCancel(s.actions[name], goal, G.RuntimeCancelRequested).0;
            var t := s.(runtimeEvents := s.runtimeEvents[1..], actions := s.actions[name := a]);
            Sims(t) && PollKeeps(s, t) && (Quiet(s) ==> Quiet(t)) && (Drains(s) ==> Drains(t))
  {
    var (name, goal) := s.runtimeEvents[0];
    assert V.Simulates(s.actions[name]);
    RuntimeCancelKeeps(s.actions[name], goal);
    var a := V.HandleCancel(s.actions[name], goal, G.RuntimeCancelRequested).0;
    var t := s.(runtimeEvents := s.runtimeEvents[1..], actions := s.actions[name := a]);
    PollKeepsOne(s, name, a, t.runtimeEvents);
    PollKeepsSims(s, t);
    if Drains(s) { DrainsAfterOne(s, t); }
  }

  lemma {:induction false} PollRuntimeKeeps(s: V.Services)
    requires Sims(s)
    ensures var (t, event) := V.PollRuntime(s);
            && PollKeeps(s, t) && !event.GoalRequest?
            && (Quiet(s) ==> Quiet(t)) && (Drains(s) ==> Drains(t))
    decreases |s.runtimeEvents|
  {
    if s.runtimeEvents == [] {
      PollKeepsItself(s, []);
    } else {
      var (name, goal) := s.runtimeEvents[0];
      var s1 := s.(runtimeEvents := s.runtimeEvents[1..]);
      if name < |s.actions| {
        RuntimeCancelOne(s);
        var (a, handled) := V.HandleCancel(s.actions[name], goal, G.RuntimeCancelRequested);
        var s2 := s1.(actions := s.actions[name := a]);
        if handled.Ignored? {
          PollRuntimeKeeps(s2);
          PollKeepsBoth(s, s2, V.PollRuntime(s2).0);
        }
      } else {
        PollKeepsItself(s, s1.runtimeEvents);
        if Drains(s) { DrainsAfterOne(s, s1); }
        PollRuntimeKeeps(s1);
        PollKeepsBoth(s, s1, V.PollRuntime(s1).0);
      }
    }
  }

  predicate Suffix(a: seq<(nat, GoalId)>, b: seq<(nat, GoalId)>) { |a| <= |b| && a == b[|b| - |a|..] }

  lemma SuffixKeepsUnique(a: seq<(nat, GoalId)>, b: seq<(nat, GoalId)>)
    requires Suffix(a, b)
    ensures Unique(b) ==> Unique(a)
    ensures forall e | e in a :: e in b
  {
    forall i | 0 <= i < |a| ensures a[i] == b[|b| - |a| + i] {}
  }

  /** Polling only consumes queued runtime cancels, and a reported one is out of the queue and pending. */
  lemma {:induction false} PollRuntimeConsumes(s: V.Services)
    requires Unique(s.runtimeEvents)
    ensures var (t, event) := V.PollRuntime(s);
            && Suffix(t.runtimeEvents, s.runtimeEvents)
            && (event.RuntimeCancelRequest? ==>
                  && s.runtimeEvents != [] && (event.action, event.goal) !in t.runtimeEvents
                  && event.action < |t.actions| && event.goal in t.actions[event.action].goals
                  && t.actions[event.action].goals[event.goal].cancelPending)
    decreases |s.runtimeEvents|
  {
    if s.runtimeEvents == [] {
    } else {
      var (name, goal) := s.runtimeEvents[0];
      var s1 := s.(runtimeEvents := s.runtimeEvents[1..]);
      assert (name, goal) !in s1.runtimeEvents;
      if name < |s.actions| {
        var (a, handled) := V.HandleCancel(s.actions[name], goal, G.RuntimeCancelRequested);
        var s2 := s1.(actions := s.actions[name := a]);
        if handled.Ignored? { PollRuntimeConsumes(s2); }
      } else {
        PollRuntimeConsumes(s1);
      }
    }
  }

  lemma {:induction false} PollActionsQueue(s: V.Services, from: nat, replies: seq<(nat, ServerPacket)>)
    ensures V.PollActions(s, from, replies).0.runtimeEvents == s.runtimeEvents
    ensures !V.PollActions(s, from, replies).1.RuntimeCancelRequest?
    decreases |s.actions| - from
  {
    if from >= |s.actions| {
    } else {
      var (a, event, attempt) := V.PollAction(s.actions[from], from);
      if event == V.NoEvent {
        PollActionsQueue(s.(actions := s.actions[from := a]), from + 1,
                         if attempt.Some? then replies + [(from, attempt.value)] else replies);
      }
    }
  }

  lemma PollConsumes(s: V.Services)
    requires Unique(s.runtimeEvents)
    ensures var (t, event, _) := V.Poll(s);
            && Suffix(t.runtimeEvents, s.runtimeEvents)
            && (event.RuntimeCancelRequest? ==>
                  && s.runtimeEvents != [] && (event.action, event.goal) !in t.runtimeEvents
                  && event.action < |t.actions| && event.goal in t.actions[event.action].goals
                  && t.actions[event.action].goals[event.goal].cancelPending)
  {
    PollRuntimeConsumes(s);
    var (t, event) := V.PollRuntime(s);
    if event == V.NoEvent { PollActionsQueue(t, 0, []); }
  }

  /** Consuming one queued runtime cancel: its Goal, if accepted, no longer waits for a client cancel. */
  lemma DrainsAfterOne(s: V.Services, t: V.Services)
    requires Drains(s) && s.runtimeEvents != [] && t.runtimeEvents == s.runtimeEvents[1..] && |t.actions| == |s.actions|
    requires var (name, goal) := s.runtimeEvents[0];
             && (forall a | 0 <= a < |s.actions| :: t.actions[a].goals.Keys == s.actions[a].goals.Keys)
             && (forall a: nat, g | a < |s.actions| && g in s.actions[a].goals && (a, g) != (name, goal) ::
                   t.actions[a].goals[g] == s.actions[a].goals[g])
             && (name < |s.actions| && goal in s.actions[name].goals ==>
                 t.actions[name].goals[goal].origin != G.FromClient)
    ensures Drains(t)
  {
    forall a: nat, g | a < |t.actions| && g in t.actions[a].goals
      ensures (a, g) in t.runtimeEvents || t.actions[a].goals[g].origin != G.FromClient
    {
      assert (a, g) in s.runtimeEvents || s.actions[a].goals[g].origin != G.FromClient;
    }
  }

  lemma {:induction false} PollActionsKeeps(s: V.Services, from: nat, replies: seq<(nat, ServerPacket)>)
    ensures PollKeeps(s, V.PollActions(s, from, replies).0)
    decreases |s.actions| - from
  {
    if from >= |s.actions| {
      PollKeepsItself(s, s.runtimeEvents);
    } else {
      PollActionKeeps(s.actions[from], from);
      var (a, event, attempt) := V.PollAction(s.actions[from], from);
      PollKeepsOne(s, from, a, s.runtimeEvents);
      if event == V.NoEvent {
        var s1 := s.(actions := s.actions[from := a]);
        var replies1 := if attempt.Some? then replies + [(from, attempt.value)] else replies;
        PollActionsKeeps(s1, from + 1, replies1);
        PollKeepsBoth(s, s1, V.PollActions(s1, from + 1, replies1).0);
      }
    }
  }

  /** A Goal Request comes from an Action that had no binding for it, and leaves one waiting for a decision. */
  lemma {:induction false} PollActionsRequest(s: V.Services, from: nat, replies: seq<(nat, ServerPacket)>)
    ensures var (t, event, _) := V.PollActions(s, from, replies);
            event.GoalRequest? ==>
              && from <= event.action < |s.actions| == |t.actions|
              && event.goal !in s.actions[event.action].ep.bindings
              && E.InState(t.actions[event.action].ep, event.goal, E.AwaitingGoalDecision)
    decreases |s.actions| - from
  {
    if from >= |s.actions| {
    } else {
      PollActionRequest(s.actions[from], from);
      var (a, event, attempt) := V.PollAction(s.actions[from], from);
      if event == V.NoEvent {
        PollActionsRequest(s.(actions := s.actions[from := a]), from + 1,
                           if attempt.Some? then replies + [(from, attempt.value)] else replies);
      }
    }
  }

  lemma {:induction false} PollActionsQuiet(s: V.Services, from: nat, replies: seq<(nat, ServerPacket)>)
    requires Quiet(s)
    ensures V.PollActions(s, from, replies) == (s, V.NoEvent, replies)
    decreases |s.actions| - from
  {
    if from >= |s.actions| {
    } else {
      assert s.actions[from].ep.inbox == [];
      assert s.actions[from := s.actions[from]] == s.actions;
      PollActionsQuiet(s, from + 1, replies);
    }
  }

  lemma PollServices(s: V.Services)
    requires Sims(s)
    ensures PollKeeps(s, V.Poll(s).0) && Sims(V.Poll(s).0)
    ensures Quiet(s) ==> Quiet(V.Poll(s).0) && !V.Poll(s).1.GoalRequest?
    ensures Quiet(s) && Drains(s) ==> Drains(V.Poll(s).0)
  {
    PollRuntimeKeeps(s);
    var (t, event) := V.PollRuntime(s);
    if event == V.NoEvent {
      PollActionsKeeps(t, 0, []);
      PollKeepsBoth(s, t, V.PollActions(t, 0, []).0);
      if Quiet(s) { PollActionsQuiet(t, 0, []); }
    }
    PollKeepsSims(s, V.Poll(s).0);
  }

  lemma PollRequest(s: V.Services)
    requires Sims(s) && V.Poll(s).1.GoalRequest?
    ensures var (t, event, _) := V.Poll(s);
            && event.action < |s.actions| == |t.actions|
            && event.goal !in s.actions[event.action].goals
            && !E.InState(s.actions[event.action].ep, event.goal, E.AwaitingGoalDecision)
            && E.InState(t.actions[event.action].ep, event.goal, E.AwaitingGoalDecision)
  {
    PollRuntimeKeeps(s);
    var t := V.PollRuntime(s).0;
    PollActionsRequest(t, 0, []);
    var event := V.Poll(s).1;
    PollKeepsSims(s, t);
    assert ActionKeeps(s.actions[event.action], t.actions[event.action]);
    assert V.Agrees(t.actions[event.action], event.goal);
  }

  /** A slot after its Services were polled. */
  function PolledSlot(slot: Slot): Slot { slot.(server := V.Poll(slot.server).0) }

  lemma PolledSlotFits(m: Mux, i: nat)
    requires Inv(m) && i < |m.slots|
    ensures SlotOk(PolledSlot(m.slots[i]))
    ensures AllOwned(PolledSlot(m.slots[i]), m.owners) && NewOwners(PolledSlot(m.slots[i]), m.owners)
  {
    var slot := m.slots[i];
    var next := PolledSlot(slot);
    assert SlotOk(slot) && AllOwned(slot, m.owners);
    PollServices(slot.server);
    PollConsumes(slot.server);
    SuffixKeepsUnique(next.server.runtimeEvents, slot.server.runtimeEvents);
    forall a: nat, g ensures (Holds(next, a, g) <==> Holds(slot, a, g)) && (Awaits(slot, a, g) ==> Awaits(next, a, g)) {
      if a < |slot.server.actions| { assert ActionKeeps(slot.server.actions[a], next.server.actions[a]); }
    }
    forall o | o in m.owners && o.conn == next.conn ensures Fits(next, o) { OwnerFits(m, i, o); }
  }

  /** The poll of one slot, whatever event it yields. */
  lemma PollSlotInv(m: Mux, i: nat)
    requires Inv(m) && i < |m.slots|
    ensures Inv(m.(slots := m.slots[i := PolledSlot(m.slots[i])]))
  {
    PolledSlotFits(m, i);
    Replace(m, i, PolledSlot(m.slots[i]), m.owners);
  }

  /** A surfaced Goal Request that nobody owns becomes a pending owner of its connection. */
  lemma NewOwnerInv(m: Mux, i: nat, action: nat, goal: GoalId)
    requires Inv(m) && i < |m.slots| && OwnerIndex(m.owners, action, goal).None?
    requires Awaits(m.slots[i], action, goal) && !m.slots[i].processed
    ensures Inv(m.(owners := m.owners + [Owner(action, goal, m.slots[i].conn, Pending)]))
  {
    var o := Owner(action, goal, m.slots[i].conn, Pending);
    var owners := m.owners + [o];
    var slot := m.slots[i];
    assert SlotOk(slot) && AllOwned(slot, m.owners);
    forall p | p in owners && p.conn == slot.conn ensures Fits(slot, p) {
      if p != o { OwnerFits(m, i, p); }
    }
    Replace(m, i, slot, owners);
    assert m.slots[i := slot] == m.slots;
  }

  /** A duplicate Goal Request is rejected on its own connection, sent or not, without touching the owner. */
  lemma DuplicateInv(m: Mux, i: nat, action: nat, goal: GoalId, sent: bool)
    requires Inv(m) && i < |m.slots| && action < |m.slots[i].server.actions|
    requires forall o | o in m.owners && o.action == action && o.goal == goal :: o.conn != m.slots[i].conn
    ensures Inv(m.(slots := m.slots[i := After(m.slots[i], action, V.OpRejectGoal(goal, sent))]))
  {
    var slot := m.slots[i];
    var op := V.OpRejectGoal(goal, sent);
    var next := After(slot, action, op);
    assert SlotOk(slot) && AllOwned(slot, m.owners);
    CallKeepsSlotOk(slot, action, op);
    forall a, g | Holds(next, a, g) ensures Owner(a, g, next.conn, Active) in m.owners {
      if a != action || g != goal { CallElsewhere(slot, action, op, a, g); } else { assert Holds(slot, a, g); }
    }
    forall o | o in m.owners && o.conn == next.conn ensures Fits(next, o) {
      OwnerFits(m, i, o);
      CallElsewhere(slot, action, op, o.action, o.goal);
    }
    Replace(m, i, next, m.owners);
  }

  // ----- connections come and go -----

  lemma ConnectionLostInv(m: Mux, i: nat)
    requires Inv(m) && i < |m.slots|
    ensures Inv(m.(slots := m.slots[i := m.slots[i].(disconnected := true)]))
  {
    var slot := m.slots[i];
    var next := slot.(disconnected := true);
    assert SlotOk(slot) && AllOwned(slot, m.owners);
    forall a, g ensures Holds(next, a, g) == Holds(slot, a, g) && Awaits(next, a, g) == Awaits(slot, a, g) {}
    forall o | o in m.owners && o.conn == next.conn ensures Fits(next, o) { OwnerFits(m, i, o); }
    Replace(m, i, next, m.owners);
  }

  /** A packet arrives on a connection that is still up. */
  lemma PacketInv(m: Mux, i: nat, action: nat, p: RequestPacket)
    requires Inv(m) && i < |m.slots| && action < |m.slots[i].server.actions| && !m.slots[i].disconnected
    ensures Inv(m.(slots := m.slots[i := After(m.slots[i], action, V.OpReceive(p))]))
  {
    var slot := m.slots[i];
    var next := After(slot, action, V.OpReceive(p));
    assert SlotOk(slot) && AllOwned(slot, m.owners) && V.Simulates(slot.server.actions[action]);
    V.ApplySimulates(slot.server.actions[action], V.OpReceive(p));
    forall a, g ensures Holds(next, a, g) == Holds(slot, a, g) && Awaits(next, a, g) == Awaits(slot, a, g) {}
    forall o | o in m.owners && o.conn == next.conn ensures Fits(next, o) { OwnerFits(m, i, o); }
    Replace(m, i, next, m.owners);
  }

  ghost predicate FreshServer(s: V.Services) {
    && s.runtimeEvents == []
    && forall a | 0 <= a < |s.actions| ::
         s.actions[a].goals == map[] && s.actions[a].ep.bindings == map[] && s.actions[a].ep.initialized
  }

  /** A new connection gets an identity never used before. */
  lemma FreshSims(server: V.Services)
    requires FreshServer(server)
    ensures Sims(server)
  {
    forall a | 0 <= a < |server.actions| ensures V.Simulates(server.actions[a]) {
      forall g ensures V.Agrees(server.actions[a], g) {}
    }
  }

  lemma PlacedInMore(slots: seq<Slot>, slot: Slot, o: Owner)
    requires Placed(slots, o)
    ensures Placed(slots + [slot], o)
  {
    var k :| 0 <= k < |slots| && slots[k].conn == o.conn && Fits(slots[k], o);
    assert (slots + [slot])[k] == slots[k];
  }

  lemma NewConnectionInv(m: Mux, server: V.Services)
    requires Inv(m) && FreshServer(server) && LiveCount(m.slots) < m.expected
    ensures Inv(m.(slots := m.slots + [Slot(m.nextId, server, false, false, false, false)], nextId := m.nextId + 1))
  {
    var slot := Slot(m.nextId, server, false, false, false, false);
    var slots := m.slots + [slot];
    assert slots[..|m.slots|] == m.slots;
    FreshSims(server);
    forall k | 0 <= k < |slots| ensures SlotOk(slots[k]) && AllOwned(slots[k], m.owners) {
      if k < |m.slots| { assert SlotOk(m.slots[k]) && AllOwned(m.slots[k], m.owners); }
    }
    forall o | o in m.owners ensures Placed(slots, o) { PlacedInMore(m.slots, slot, o); }
  }

  lemma UnusedIdInv(m: Mux)
    requires Inv(m)
    ensures Inv(m.(nextId := m.nextId + 1))
  {
    assert forall i | 0 <= i < |m.slots| :: SlotOk(m.slots[i]) && AllOwned(m.slots[i], m.owners);
  }

  // ----- processing a lost connection -----

  /** Discarding a pending Goal of a lost connection always succeeds. */
  lemma DiscardSucceeds(m: Mux, i: nat, o: Owner)
    requires Inv(m) && i < |m.slots| && o in m.owners && o.conn == m.slots[i].conn && o.state == Pending
    ensures o.action < |m.slots[i].server.actions|
    ensures V.DiscardPendingGoal(m.slots[i].server.actions[o.action], o.goal).ok
  {
    OwnerFits(m, i, o);
    var a := m.slots[i].server.actions[o.action];
    assert SlotOk(m.slots[i]) && V.Simulates(a) && V.Agrees(a, o.goal);
  }

  lemma DiscardInv(m: Mux, i: nat, k: nat)
    requires Inv(m) && i < |m.slots| && k < |m.owners|
    requires m.owners[k].conn == m.slots[i].conn && m.owners[k].state == Pending && !m.slots[i].processed
    requires m.owners[k].action < |m.slots[i].server.actions|
    ensures Inv(m.(slots := m.slots[i := After(m.slots[i], m.owners[k].action, V.OpDiscard(m.owners[k].goal))],
                   owners := m.owners[..k] + m.owners[k + 1..]))
  {
    var o := m.owners[k];
    DiscardSucceeds(m, i, o);
    assert OwnerIndex(m.owners, o.action, o.goal) == Some(k);
    RemoveOwnerIs(m, o.action, o.goal);
    var owners := m.owners[..k] + m.owners[k + 1..];
    forall p | p in m.owners && p.action == o.action && p.goal == o.goal ensures p.conn == m.slots[i].conn {
      OnlyOwner(m, k, p);
    }
    OwnerFits(m, i, o);
    assert SlotOk(m.slots[i]);
    DiscardRecorded(m.slots[i], o.action, o.goal, owners);
    CallKeepsInv(m, i, o.action, V.OpDiscard(o.goal), owners);
  }

  lemma DiscardRecorded(slot: Slot, action: nat, goal: GoalId, owners: seq<Owner>)
    requires Awaits(slot, action, goal) && V.Simulates(slot.server.actions[action]) && !slot.processed
    requires forall st, conn :: Owner(action, goal, conn, st) !in owners
    ensures Recorded(After(slot, action, V.OpDiscard(goal)), goal, action, owners)
  {
    assert V.Agrees(slot.server.actions[action], goal);
  }

  lemma StopAllFacts(s: V.Services)
    requires Sims(s)
    ensures Sims(V.StopAll(s)) && Quiet(V.StopAll(s)) && |V.StopAll(s).actions| == |s.actions|
    ensures forall a | 0 <= a < |s.actions| :: V.StopAll(s).actions[a].goals == s.actions[a].goals
    ensures forall a | 0 <= a < |s.actions| :: V.StopAll(s).actions[a].ep.bindings == s.actions[a].ep.bindings
  {
    var t := V.StopAll(s);
    forall a | 0 <= a < |s.actions| ensures V.Simulates(t.actions[a]) {
      assert V.Simulates(s.actions[a]) && t.actions[a] == V.Apply(s.actions[a], V.OpStop);
      V.ApplySimulates(s.actions[a], V.OpStop);
    }
  }

  lemma NotifiedUnique(s: V.Services, t: V.Services)
    requires V.Notified(s, t) && s.runtimeEvents == []
    ensures Unique(t.runtimeEvents)
  {
    forall i, j | 0 <= i < j < |t.runtimeEvents| ensures t.runtimeEvents[i] != t.runtimeEvents[j] {
      assert t.runtimeEvents[i] == t.runtimeEvents[..j][i];
    }
  }

  /** A lost connection with accepted Goals is orphaned and told about every one of them. */
  lemma OrphanInv(m: Mux, i: nat, server: V.Services)
    requires Inv(m) && i < |m.slots| && m.slots[i].disconnected && !m.slots[i].processed
    requires forall o | o in m.owners && o.conn == m.slots[i].conn :: o.state == Active
    requires exists o :: o in m.owners && o.conn == m.slots[i].conn
    requires V.Notified(V.StopAll(m.slots[i].server), server)
    ensures Inv(m.(slots := m.slots[i := m.slots[i].(server := server, processed := true, orphaned := true)]))
  {
    var slot := m.slots[i];
    var next := slot.(server := server, processed := true, orphaned := true);
    assert SlotOk(slot) && AllOwned(slot, m.owners);
    StopAllFacts(slot.server);
    assert server.actions == V.StopAll(slot.server).actions;
    NotifiedUnique(V.StopAll(slot.server), server);
    forall a, g ensures Holds(next, a, g) == Holds(slot, a, g) {}
    forall o | o in m.owners && o.conn == next.conn ensures Fits(next, o) { OwnerFits(m, i, o); }
    Replace(m, i, next, m.owners);
  }

  /** A lost connection without owners is cleared and retired. */
  lemma RetireInv(m: Mux, i: nat)
    requires Inv(m) && i < |m.slots| && m.slots[i].disconnected && !m.slots[i].processed
    requires forall o | o in m.owners :: o.conn != m.slots[i].conn
    ensures Inv(m.(slots := m.slots[i := m.slots[i].(server := V.ClearAll(V.StopAll(m.slots[i].server)),
                                                     processed := true, retired := true)]))
  {
    var slot := m.slots[i];
    assert SlotOk(slot) && AllOwned(slot, m.owners);
    StopAllFacts(slot.server);
    ClearAllHoldsNothing(slot.(server := V.StopAll(slot.server)));
    Replace(m, i, slot.(server := V.ClearAll(V.StopAll(slot.server)), processed := true, retired := true), m.owners);
  }

  // ----- what never goes backwards -----

  predicate Stuck(slot: Slot, a: nat, g: GoalId) {
    Holds(slot, a, g) && slot.server.actions[a].goals[g].state == Finishing
  }

  /**
   * A slot keeps its identity, its flags only rise, its queue of runtime cancels only shrinks, and a Goal stuck
   * in FINISHING stays.
   */
  ghost predicate Survives(x: Slot, y: Slot) {
    && y.conn == x.conn
    && (x.disconnected ==> y.disconnected) && (x.processed ==> y.processed) && (x.retired ==> y.retired)
    && (x.processed ==> forall e | e in y.server.runtimeEvents :: e in x.server.runtimeEvents)
    && (forall a, g | Stuck(x, a, g) :: Stuck(y, a, g))
  }

  /** No slot disappears and new connections get new identities. */
  ghost predicate Evolves(m: Mux, n: Mux) {
    && n.expected == m.expected && m.nextId <= n.nextId && |m.slots| <= |n.slots|
    && (forall i | 0 <= i < |m.slots| :: Survives(m.slots[i], n.slots[i]))
    && (forall i | |m.slots| <= i < |n.slots| :: n.slots[i].conn >= m.nextId)
  }

  /** As far as polling goes, accepted Goals come and go only by application calls. */
  ghost predicate SameGoals(m: Mux, n: Mux) {
    && |m.slots| <= |n.slots|
    && (forall i, a, g | 0 <= i < |m.slots| :: Holds(n.slots[i], a, g) <==> Holds(m.slots[i], a, g))
    && (forall i, a, g | |m.slots| <= i < |n.slots| :: !Holds(n.slots[i], a, g))
  }

  lemma EvolvesBoth(m: Mux, n: Mux, o: Mux)
    requires Evolves(m, n) && Evolves(n, o)
    ensures Evolves(m, o)
  {
    forall i | 0 <= i < |m.slots| ensures Survives(m.slots[i], o.slots[i]) {
      assert Survives(m.slots[i], n.slots[i]) && Survives(n.slots[i], o.slots[i]);
    }
    forall i | |m.slots| <= i < |o.slots| ensures o.slots[i].conn >= m.nextId {
      if i < |n.slots| { assert Survives(n.slots[i], o.slots[i]); }
    }
  }

  lemma SameGoalsBoth(m: Mux, n: Mux, o: Mux)
    requires SameGoals(m, n) && SameGoals(n, o)
    ensures SameGoals(m, o)
  {
  }

  lemma EvolvesOne(m: Mux, i: nat, slot: Slot, owners: seq<Owner>)
    requires i < |m.slots| && Survives(m.slots[i], slot)
    ensures Evolves(m, m.(slots := m.slots[i := slot], owners := owners))
    ensures (forall a, g :: Holds(slot, a, g) <==> Holds(m.slots[i], a, g)) ==>
              SameGoals(m, m.(slots := m.slots[i := slot], owners := owners))
  {
    forall k | 0 <= k < |m.slots| && k != i ensures Survives(m.slots[k], m.slots[k]) {}
  }

  lemma EvolvesItself(m: Mux, owners: seq<Owner>)
    ensures Evolves(m, m.(owners := owners)) && SameGoals(m, m.(owners := owners))
  {
    forall k | 0 <= k < |m.slots| ensures Survives(m.slots[k], m.slots[k]) {}
  }

  /** No call moves a Goal out of FINISHING. */
  lemma CallKeepsStuck(slot: Slot, action: nat, op: V.Op)
    requires action < |slot.server.actions| && IsCall(op)
    ensures Survives(slot, After(slot, action, op))
  {
    var next := After(slot, action, op);
    forall a, g | Stuck(slot, a, g) ensures Stuck(next, a, g) {
      if a == action && g != op.goal { V.OthersUntouched(slot.server.actions[action], op, g); }
    }
  }

  lemma PolledSlotSurvives(slot: Slot)
    requires Sims(slot.server) && Unique(slot.server.runtimeEvents)
    ensures Survives(slot, PolledSlot(slot))
    ensures forall a, g :: Holds(PolledSlot(slot), a, g) <==> Holds(slot, a, g)
  {
    PollServices(slot.server);
    PollConsumes(slot.server);
    var next := PolledSlot(slot);
    SuffixKeepsUnique(next.server.runtimeEvents, slot.server.runtimeEvents);
    forall a: nat, g ensures (Holds(next, a, g) <==> Holds(slot, a, g)) && (Stuck(slot, a, g) ==> Stuck(next, a, g)) {
      if a < |slot.server.actions| { assert ActionKeeps(slot.server.actions[a], next.server.actions[a]); }
    }
  }

  lemma RejectHoldsSame(slot: Slot, action: nat, goal: GoalId, sent: bool)
    requires action < |slot.server.actions|
    ensures forall a, g :: Holds(After(slot, action, V.OpRejectGoal(goal, sent)), a, g) <==> Holds(slot, a, g)
  {
  }

  lemma CallEvolves(m: Mux, i: nat, action: nat, op: V.Op, owners: seq<Owner>)
    requires i < |m.slots| && action < |m.slots[i].server.actions| && IsCall(op)
    ensures Evolves(m, m.(slots := m.slots[i := After(m.slots[i], action, op)], owners := owners))
  {
    CallKeepsStuck(m.slots[i], action, op);
    EvolvesOne(m, i, After(m.slots[i], action, op), owners);
  }

  lemma AcceptGoalEvolves(m: Mux, action: nat, goal: GoalId, sent: bool)
    ensures Evolves(m, AcceptGoal(m, action, goal, sent).next)
  {
    var at := OwnerSlotIndex(m, action, goal, Pending);
    if at.None? || m.slots[at.value].disconnected || action >= |m.slots[at.value].server.actions| {
      EvolvesItself(m, m.owners);
    } else {
      CallEvolves(m, at.value, action, V.OpAcceptGoal(goal, sent), AcceptGoal(m, action, goal, sent).next.owners);
    }
  }

  lemma RejectGoalEvolves(m: Mux, action: nat, goal: GoalId, sent: bool)
    ensures Evolves(m, RejectGoal(m, action, goal, sent).next)
  {
    var at := OwnerSlotIndex(m, action, goal, Pending);
    if at.None? || m.slots[at.value].disconnected || action >= |m.slots[at.value].server.actions| {
      EvolvesItself(m, m.owners);
    } else {
      CallEvolves(m, at.value, action, V.OpRejectGoal(goal, sent), RejectGoal(m, action, goal, sent).next.owners);
    }
  }

  lemma DecideCancelEvolves(m: Mux, action: nat, goal: GoalId, accept: bool, sent: bool)
    ensures Evolves(m, DecideCancel(m, action, goal, accept, sent).next)
  {
    var at := OwnerSlotIndex(m, action, goal, Active);
    if at.None? || action >= |m.slots[at.value].server.actions| {
      EvolvesItself(m, m.owners);
    } else {
      CallEvolves(m, at.value, action, CancelOp(goal, accept, sent), m.owners);
      assert DecideCancel(m, action, goal, accept, sent).next ==
             m.(slots := m.slots[at.value := After(m.slots[at.value], action, CancelOp(goal, accept, sent))]);
    }
  }

  lemma SendFeedbackEvolves(m: Mux, action: nat, goal: GoalId, pdu: AppPdu, sent: bool)
    ensures Evolves(m, SendFeedback(m, action, goal, pdu, sent).next)
  {
    var at := OwnerSlotIndex(m, action, goal, Active);
    if at.None? || m.slots[at.value].disconnected || action >= |m.slots[at.value].server.actions| {
      EvolvesItself(m, m.owners);
    } else {
      CallEvolves(m, at.value, action, V.OpSendFeedback(goal, pdu, sent), m.owners);
    }
  }

  /** Retiring the last owner's slot loses no Goal, stuck ones included. */
  lemma ReclaimEvolves(m: Mux, i: nat)
    requires i < |m.slots|
    requires forall a, g | Holds(m.slots[i], a, g) :: exists o :: o in m.owners && o.conn == m.slots[i].conn
    ensures Evolves(m, Reclaim(m, i))
  {
    EvolvesItself(m, m.owners);
    if Reclaim(m, i) != m {
      forall a, g ensures !Stuck(m.slots[i], a, g) {}
      EvolvesOne(m, i, Reclaim(m, i).slots[i], m.owners);
    }
  }

  lemma CompletedEvolves(m: Mux, i: nat, action: nat, op: V.Op)
    requires Inv(m) && i < |m.slots| && action < |m.slots[i].server.actions| && IsCall(op)
    requires op.goal !in V.Apply(m.slots[i].server.actions[action], op).goals
    ensures var n := m.(slots := m.slots[i := After(m.slots[i], action, op)],
                        owners := RemoveOwner(m.owners, action, op.goal));
            Evolves(m, Reclaim(n, i))
  {
    var n := m.(slots := m.slots[i := After(m.slots[i], action, op)], owners := RemoveOwner(m.owners, action, op.goal));
    CallEvolves(m, i, action, op, n.owners);
    HeldGoalsOwned(m, i, action, op);
    ReclaimEvolves(n, i);
    EvolvesBoth(m, n, Reclaim(n, i));
  }

  lemma CompleteEvolvesAt(m: Mux, i: nat, action: nat, op: V.Op, next: Mux)
    requires Inv(m) && i < |m.slots| && action < |m.slots[i].server.actions| && IsCall(op)
    requires var n := m.(slots := m.slots[i := After(m.slots[i], action, op)]);
             next == if op.goal !in V.Apply(m.slots[i].server.actions[action], op).goals
                     then Reclaim(n.(owners := RemoveOwner(m.owners, action, op.goal)), i) else n
    ensures Evolves(m, next)
  {
    if op.goal !in V.Apply(m.slots[i].server.actions[action], op).goals {
      CompletedEvolves(m, i, action, op);
    } else {
      CallEvolves(m, i, action, op, m.owners);
    }
  }

  lemma CompleteEvolves(m: Mux, action: nat, goal: GoalId, status: TerminalStatus, pdu: AppPdu, sent: bool)
    requires Inv(m)
    ensures Evolves(m, Complete(m, action, goal, status, pdu, sent).next)
  {
    var at := OwnerSlotIndex(m, action, goal, Active);
    if at.Some? {
      var i := at.value;
      LookupIs(m, action, goal, Active);
      var op := if m.slots[i].disconnected then V.OpCompleteLocally(goal, status, pdu)
                else V.OpComplete(goal, status, pdu, sent);
      CompleteIs(m, i, action, op, sent);
      CompleteEvolvesAt(m, i, action, op, Complete(m, action, goal, status, pdu, sent).next);
    } else {
      EvolvesItself(m, m.owners);
    }
  }

  /** After a completion every Goal still held has an owner on the same connection. */
  lemma HeldGoalsOwned(m: Mux, i: nat, action: nat, op: V.Op)
    requires Inv(m) && i < |m.slots| && action < |m.slots[i].server.actions| && IsCall(op)
    requires op.goal !in V.Apply(m.slots[i].server.actions[action], op).goals
    ensures forall a, g | Holds(After(m.slots[i], action, op), a, g) ::
              exists o :: o in RemoveOwner(m.owners, action, op.goal) && o.conn == m.slots[i].conn
  {
    RemoveOwnerIs(m, action, op.goal);
    assert AllOwned(m.slots[i], m.owners);
    forall a, g | Holds(After(m.slots[i], action, op), a, g)
      ensures exists o :: o in RemoveOwner(m.owners, action, op.goal) && o.conn == m.slots[i].conn
    {
      CallElsewhere(m.slots[i], action, op, a, g);
      assert Owner(a, g, m.slots[i].conn, Active) in RemoveOwner(m.owners, action, op.goal);
    }
  }

  // ----- consequences over whole runs -----

  /** A connection whose loss is processed stays orphaned exactly while it has ACTIVE owners, and has no others. */
  lemma OrphanedExactly(m: Mux, i: nat)
    requires Inv(m) && i < |m.slots| && m.slots[i].processed
    ensures m.slots[i].retired <==> forall o | o in m.owners :: o.conn != m.slots[i].conn
    ensures forall o | o in m.owners && o.conn == m.slots[i].conn ::
            o.state == Active && Holds(m.slots[i], o.action, o.goal)
  {
    assert SlotOk(m.slots[i]) && AllOwned(m.slots[i], m.owners);
    forall o | o in m.owners && o.conn == m.slots[i].conn ensures Fits(m.slots[i], o) { OwnerFits(m, i, o); }
  }

  /**
   * A duplicate Goal Request leaves nothing behind exactly when its REJECT was sent; otherwise its
   * connection keeps a binding that waits for a decision and that no owner stands for.
   */
  lemma DuplicateRejectExactly(m: Mux, i: nat, action: nat, goal: GoalId, sent: bool)
    requires Inv(m) && i < |m.slots| && Awaits(m.slots[i], action, goal) && ValidGoalId(goal)
    requires forall o | o in m.owners && o.action == action && o.goal == goal :: o.conn != m.slots[i].conn
    ensures Awaits(After(m.slots[i], action, V.OpRejectGoal(goal, sent)), action, goal) <==> !sent
    ensures forall st :: Owner(action, goal, m.slots[i].conn, st) !in m.owners
  {
    assert SlotOk(m.slots[i]) && V.Simulates(m.slots[i].server.actions[action]);
    assert V.Agrees(m.slots[i].server.actions[action], goal);
  }
}
