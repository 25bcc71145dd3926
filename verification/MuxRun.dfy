/**
 * Runs of the multiplexer.  Every method is a labelled step between two states; this module says what
 * a step promises and what follows for whole runs: where packets go, what a reported runtime cancel
 * means from then on, and which Goals can never be got rid of.
 */
module MuxRun {
  import opened ActionTypes
  import opened MuxSpec
  import opened MuxCalls
  import opened MuxEvents
  import opened MuxLeftovers
  import V = ServerServicesSpec

  datatype Label =
    | Network(replies: seq<Wire>)
    | Surfaced(action: nat, goal: GoalId, conn: nat, replies: seq<Wire>)
    | CancelReported(action: nat, goal: GoalId, conn: nat, replies: seq<Wire>)
    | Call(action: nat, goal: GoalId, wire: Option<Wire>, completed: bool)

  predicate Ends(l: Label, action: nat, goal: GoalId) { l.Call? && l.completed && l.action == action && l.goal == goal }

  /**
   * An entry keeps its connection until it is removed, new ones come from surfaced requests, and only a
   * completion removes an ACTIVE one.
   */
  ghost predicate OwnersStep(before: seq<Owner>, after: seq<Owner>, l: Label) {
    && (forall o | o in after ::
          || HadOwner(before, o.action, o.goal, o.conn)
          || (l.Surfaced? && o == Owner(l.action, l.goal, l.conn, Pending)))
    && (forall o | o in before && o.state == Active :: o in after || Ends(l, o.action, o.goal))
    && (l.Surfaced? ==> Owner(l.action, l.goal, l.conn, Pending) in after)
  }

  /**
   * A call sends only for the Goal it names, on a connection that owns it, and never after its runtime
   * cancel was delivered.  A poll sends only REJECTs, each on the connection whose own request it answers.
   */
  ghost predicate SendsRight(m: Mux, l: Label) {
    if !l.Call? then forall w | w in l.replies :: Answers(m, w)
    else
      l.wire.Some? ==>
        && l.wire.value.action == l.action && l.wire.value.packet.goal == l.goal
        && HadOwner(m.owners, l.action, l.goal, l.wire.value.conn)
        && !Delivered(m, l.action, l.goal)
  }

  /** The runtime cancel of a Goal waits for the application's decision. */
  predicate CancelWaits(m: Mux, action: nat, goal: GoalId) {
    var at := OwnerSlotIndex(m, action, goal, Active);
    at.Some? && Holds(m.slots[at.value], action, goal)
      && m.slots[at.value].server.actions[action].goals[goal].cancelPending
  }

  ghost predicate Step(m: Mux, l: Label, n: Mux) {
    && Inv(n) && Evolves(m, n) && Leftovers(m, n) && OwnersStep(m.owners, n.owners, l) && SendsRight(m, l)
    && (l.CancelReported? ==> Delivered(n, l.action, l.goal) && CancelWaits(n, l.action, l.goal)
                              && Owner(l.action, l.goal, l.conn, Active) in n.owners)
  }

  // ----- steps of the calls -----

  lemma LookupActive(m: Mux, i: nat, action: nat, goal: GoalId)
    requires KeysUnique(m.owners) && ConnsIncrease(m.slots, m.nextId) && i < |m.slots|
    requires Owner(action, goal, m.slots[i].conn, Active) in m.owners
    ensures OwnerSlotIndex(m, action, goal, Active) == Some(i)
  {
    SlotIndexOf(m, i);
    var k := OwnerIndex(m.owners, action, goal);
    assert k.Some?;
    OnlyOwner(m, k.value, Owner(action, goal, m.slots[i].conn, Active));
  }

  lemma SameOthersStep(before: seq<Owner>, after: seq<Owner>, l: Label)
    requires l.Call? && SameOtherGoals(before, after, l.action, l.goal)
    requires forall o | o in after && o.action == l.action && o.goal == l.goal ::
             HadOwner(before, o.action, o.goal, o.conn)
    requires forall o | o in before && o.action == l.action && o.goal == l.goal && o.state == Active ::
             o in after || l.completed
    ensures OwnersStep(before, after, l)
  {
    forall o | o in after ensures HadOwner(before, o.action, o.goal, o.conn) {
      if o.action != l.action || o.goal != l.goal { InIsHad(before, o); }
    }
    forall o | o in before && o.state == Active ensures o in after || Ends(l, o.action, o.goal) {
      if o.action != l.action || o.goal != l.goal { assert o in after; }
    }
  }

  lemma OwnersSame(owners: seq<Owner>, l: Label)
    requires l.Call? || l.Network? || l.CancelReported?
    ensures OwnersStep(owners, owners, l)
  {
    forall o | o in owners ensures HadOwner(owners, o.action, o.goal, o.conn) { InIsHad(owners, o); }
  }

  lemma AcceptGoalOwners(m: Mux, action: nat, goal: GoalId, sent: bool, wire: Option<Wire>)
    requires KeysUnique(m.owners)
    ensures OwnersStep(m.owners, AcceptGoal(m, action, goal, sent).next.owners, Call(action, goal, wire, false))
  {
    var l := Call(action, goal, wire, false);
    var n := AcceptGoal(m, action, goal, sent).next;
    OwnersSame(m.owners, l);
    if n.owners != m.owners {
      var k := OwnerIndex(m.owners, action, goal).value;
      MarkActiveIs(m.owners, k);
      assert m.owners[k] == Owner(action, goal, m.owners[k].conn, Pending);
      forall o | o in m.owners && o.action == action && o.goal == goal ensures o == m.owners[k] { OnlyOwner(m, k, o); }
      SameOthersStep(m.owners, n.owners, l);
    }
  }

  lemma RejectGoalOwners(m: Mux, action: nat, goal: GoalId, sent: bool, wire: Option<Wire>)
    requires KeysUnique(m.owners)
    ensures OwnersStep(m.owners, RejectGoal(m, action, goal, sent).next.owners, Call(action, goal, wire, false))
  {
    var l := Call(action, goal, wire, false);
    var n := RejectGoal(m, action, goal, sent).next;
    OwnersSame(m.owners, l);
    if n.owners != m.owners {
      var k := OwnerIndex(m.owners, action, goal).value;
      RemoveOwnerIs(m, action, goal);
      forall o | o in m.owners && o.action == action && o.goal == goal ensures o == m.owners[k] { OnlyOwner(m, k, o); }
      assert forall o | o in n.owners :: o.action != action || o.goal != goal;
      SameOthersStep(m.owners, n.owners, l);
    }
  }

  lemma CompleteOwners(
    m: Mux, action: nat, goal: GoalId, status: TerminalStatus, pdu: AppPdu, sent: bool, wire: Option<Wire>)
    requires KeysUnique(m.owners)
    ensures var r := Complete(m, action, goal, status, pdu, sent);
            OwnersStep(m.owners, r.next.owners, Call(action, goal, wire, r.ok))
  {
    var r := Complete(m, action, goal, status, pdu, sent);
    var l := Call(action, goal, wire, r.ok);
    if r.ok {
      RemoveOwnerIs(m, action, goal);
      assert r.next.owners == RemoveOwner(m.owners, action, goal);
      assert forall o | o in r.next.owners :: o.action != action || o.goal != goal;
      SameOthersStep(m.owners, r.next.owners, l);
    } else {
      OwnersSame(m.owners, l);
    }
  }

  // A call leaves what nobody owns alone; the owners it leaves are those that OwnersStep allows.

  lemma StillLeftOver(m: Mux, l: Label, n: Mux)
    requires l.Call? && OwnersStep(m.owners, n.owners, l) && n == m.(owners := n.owners)
    ensures Leftovers(m, n)
  {
    LeftoversItself(m, n.owners);
  }

  lemma AcceptGoalLeftovers(m: Mux, action: nat, goal: GoalId, sent: bool, l: Label)
    requires l.Call? && OwnersStep(m.owners, AcceptGoal(m, action, goal, sent).next.owners, l)
    ensures Leftovers(m, AcceptGoal(m, action, goal, sent).next)
  {
    var n := AcceptGoal(m, action, goal, sent).next;
    var at := OwnerSlotIndex(m, action, goal, Pending);
    if at.None? || m.slots[at.value].disconnected || action >= |m.slots[at.value].server.actions| {
      StillLeftOver(m, l, n);
    } else {
      LookupHad(m, action, goal, Pending);
      CallLeftovers(m, at.value, action, V.OpAcceptGoal(goal, sent), n.owners);
    }
  }

  lemma RejectGoalLeftovers(m: Mux, action: nat, goal: GoalId, sent: bool, l: Label)
    requires l.Call? && OwnersStep(m.owners, RejectGoal(m, action, goal, sent).next.owners, l)
    ensures Leftovers(m, RejectGoal(m, action, goal, sent).next)
  {
    var n := RejectGoal(m, action, goal, sent).next;
    var at := OwnerSlotIndex(m, action, goal, Pending);
    if at.None? || m.slots[at.value].disconnected || action >= |m.slots[at.value].server.actions| {
      StillLeftOver(m, l, n);
    } else {
      LookupHad(m, action, goal, Pending);
      CallLeftovers(m, at.value, action, V.OpRejectGoal(goal, sent), n.owners);
    }
  }

  lemma DecideCancelLeftovers(m: Mux, action: nat, goal: GoalId, accept: bool, sent: bool, l: Label)
    requires l.Call? && OwnersStep(m.owners, m.owners, l)
    ensures Leftovers(m, DecideCancel(m, action, goal, accept, sent).next)
  {
    var at := OwnerSlotIndex(m, action, goal, Active);
    if at.None? || action >= |m.slots[at.value].server.actions| {
      StillLeftOver(m, l, m);
    } else {
      LookupHad(m, action, goal, Active);
      CallLeftovers(m, at.value, action, CancelOp(goal, accept, sent), m.owners);
      assert DecideCancel(m, action, goal, accept, sent).next ==
             m.(slots := m.slots[at.value := After(m.slots[at.value], action, CancelOp(goal, accept, sent))]);
    }
  }

  lemma SendFeedbackLeftovers(m: Mux, action: nat, goal: GoalId, pdu: AppPdu, sent: bool, l: Label)
    requires l.Call? && OwnersStep(m.owners, m.owners, l)
    ensures Leftovers(m, SendFeedback(m, action, goal, pdu, sent).next)
  {
    var at := OwnerSlotIndex(m, action, goal, Active);
    if at.None? || m.slots[at.value].disconnected || action >= |m.slots[at.value].server.actions| {
      StillLeftOver(m, l, m);
    } else {
      LookupHad(m, action, goal, Active);
      CallLeftovers(m, at.value, action, V.OpSendFeedback(goal, pdu, sent), m.owners);
    }
  }

  lemma CompletedLeftovers(m: Mux, i: nat, action: nat, op: V.Op, l: Label, next: Mux)
    requires i < |m.slots| && action < |m.slots[i].server.actions| && IsCall(op) && l.Call?
    requires HadOwner(m.owners, action, op.goal, m.slots[i].conn) && (m.slots[i].orphaned ==> m.slots[i].processed)
    requires var n := m.(slots := m.slots[i := After(m.slots[i], action, op)]);
             next == if op.goal !in V.Apply(m.slots[i].server.actions[action], op).goals
                     then Reclaim(n.(owners := RemoveOwner(m.owners, action, op.goal)), i) else n
    requires OwnersStep(m.owners, next.owners, l)
    ensures Leftovers(m, next)
  {
    var n := m.(slots := m.slots[i := After(m.slots[i], action, op)], owners := next.owners);
    CallLeftovers(m, i, action, op, next.owners);
    if next != n {
      ReclaimLeftovers(n, i);
      LeftoversBoth(m, n, next);
    }
  }

  lemma CompleteLeftovers(m: Mux, action: nat, goal: GoalId, status: TerminalStatus, pdu: AppPdu, sent: bool, l: Label)
    requires Inv(m) && l.Call? && OwnersStep(m.owners, Complete(m, action, goal, status, pdu, sent).next.owners, l)
    ensures Leftovers(m, Complete(m, action, goal, status, pdu, sent).next)
  {
    var at := OwnerSlotIndex(m, action, goal, Active);
    if at.None? {
      StillLeftOver(m, l, m);
    } else {
      var i := at.value;
      LookupIs(m, action, goal, Active);
      LookupHad(m, action, goal, Active);
      var op := if m.slots[i].disconnected then V.OpCompleteLocally(goal, status, pdu)
                else V.OpComplete(goal, status, pdu, sent);
      CompleteIs(m, i, action, op, sent);
      assert SlotOk(m.slots[i]);
      CompletedLeftovers(m, i, action, op, l, Complete(m, action, goal, status, pdu, sent).next);
    }
  }

  lemma AcceptGoalStep(m: Mux, action: nat, goal: GoalId, sent: bool)
    requires Inv(m)
    ensures var r := AcceptGoal(m, action, goal, sent); Step(m, Call(action, goal, r.attempt, false), r.next)
  {
    var r := AcceptGoal(m, action, goal, sent);
    AcceptGoalInv(m, action, goal, sent);
    AcceptGoalEvolves(m, action, goal, sent);
    AcceptGoalOwners(m, action, goal, sent, r.attempt);
    AcceptGoalLeftovers(m, action, goal, sent, Call(action, goal, r.attempt, false));
    if r.attempt.Some? { PendingCallRouted(m, action, goal, sent, r.attempt.value); }
    if Delivered(m, action, goal) { NoWireAfterRuntimeCancel(m, action, goal, true, NoStatus, EmptyPdu, sent); }
    RoutedIsRight(m, action, goal, r.attempt, false);
  }

  lemma RejectGoalStep(m: Mux, action: nat, goal: GoalId, sent: bool)
    requires Inv(m)
    ensures var r := RejectGoal(m, action, goal, sent); Step(m, Call(action, goal, r.attempt, false), r.next)
  {
    var r := RejectGoal(m, action, goal, sent);
    RejectGoalInv(m, action, goal, sent);
    RejectGoalEvolves(m, action, goal, sent);
    RejectGoalOwners(m, action, goal, sent, r.attempt);
    RejectGoalLeftovers(m, action, goal, sent, Call(action, goal, r.attempt, false));
    if r.attempt.Some? { PendingCallRouted(m, action, goal, sent, r.attempt.value); }
    if Delivered(m, action, goal) { NoWireAfterRuntimeCancel(m, action, goal, true, NoStatus, EmptyPdu, sent); }
    RoutedIsRight(m, action, goal, r.attempt, false);
  }

  lemma DecideCancelStep(m: Mux, action: nat, goal: GoalId, accept: bool, sent: bool)
    requires Inv(m)
    ensures var r := DecideCancel(m, action, goal, accept, sent); Step(m, Call(action, goal, r.attempt, false), r.next)
  {
    var r := DecideCancel(m, action, goal, accept, sent);
    DecideCancelInv(m, action, goal, accept, sent);
    DecideCancelEvolves(m, action, goal, accept, sent);
    OwnersSame(m.owners, Call(action, goal, r.attempt, false));
    DecideCancelLeftovers(m, action, goal, accept, sent, Call(action, goal, r.attempt, false));
    if r.attempt.Some? { DecideCancelRouted(m, action, goal, accept, sent, r.attempt.value); }
    if Delivered(m, action, goal) { NoWireAfterRuntimeCancel(m, action, goal, accept, NoStatus, EmptyPdu, sent); }
    RoutedIsRight(m, action, goal, r.attempt, false);
  }

  lemma SendFeedbackStep(m: Mux, action: nat, goal: GoalId, pdu: AppPdu, sent: bool)
    requires Inv(m)
    ensures var r := SendFeedback(m, action, goal, pdu, sent); Step(m, Call(action, goal, r.attempt, false), r.next)
  {
    var r := SendFeedback(m, action, goal, pdu, sent);
    SendFeedbackInv(m, action, goal, pdu, sent);
    SendFeedbackEvolves(m, action, goal, pdu, sent);
    OwnersSame(m.owners, Call(action, goal, r.attempt, false));
    SendFeedbackLeftovers(m, action, goal, pdu, sent, Call(action, goal, r.attempt, false));
    if r.attempt.Some? { SendFeedbackRouted(m, action, goal, pdu, sent, r.attempt.value); }
    if Delivered(m, action, goal) { NoWireAfterRuntimeCancel(m, action, goal, true, NoStatus, pdu, sent); }
    RoutedIsRight(m, action, goal, r.attempt, false);
  }

  lemma CompleteStep(m: Mux, action: nat, goal: GoalId, status: TerminalStatus, pdu: AppPdu, sent: bool)
    requires Inv(m)
    ensures var r := Complete(m, action, goal, status, pdu, sent); Step(m, Call(action, goal, r.attempt, r.ok), r.next)
  {
    var r := Complete(m, action, goal, status, pdu, sent);
    CompleteInv(m, action, goal, status, pdu, sent);
    CompleteEvolves(m, action, goal, status, pdu, sent);
    CompleteOwners(m, action, goal, status, pdu, sent, r.attempt);
    CompleteLeftovers(m, action, goal, status, pdu, sent, Call(action, goal, r.attempt, r.ok));
    if r.attempt.Some? { CompleteRouted(m, action, goal, status, pdu, sent, r.attempt.value); }
    if Delivered(m, action, goal) { NoWireAfterRuntimeCancel(m, action, goal, true, status, pdu, sent); }
    RoutedIsRight(m, action, goal, r.attempt, r.ok);
  }

  lemma RoutedIsRight(m: Mux, action: nat, goal: GoalId, wire: Option<Wire>, completed: bool)
    requires wire.Some? ==> Routed(m, action, goal, wire.value) && !Delivered(m, action, goal)
    ensures SendsRight(m, Call(action, goal, wire, completed))
  {
    if wire.Some? { InIsHad(m.owners, m.owners[OwnerIndex(m.owners, action, goal).value]); }
  }

  // ----- steps of the network and of polls -----

  /** What a poll or the network may do to the owner table: entries of lost requests go, at most one new one comes. */
  ghost predicate Sifted(before: seq<Owner>, after: seq<Owner>) {
    && (forall o | o in after :: o in before)
    && (forall o | o in before && o.state == Active :: o in after)
  }

  lemma SiftedTwice(a: seq<Owner>, b: seq<Owner>, c: seq<Owner>)
    requires Sifted(a, b) && Sifted(b, c)
    ensures Sifted(a, c)
  {
  }

  lemma SiftedStep(before: seq<Owner>, mid: seq<Owner>, after: seq<Owner>, l: Label)
    requires Sifted(before, mid) && !l.Call?
    requires if l.Surfaced? then after == mid + [Owner(l.action, l.goal, l.conn, Pending)] else Sifted(mid, after)
    ensures OwnersStep(before, after, l)
  {
    forall o | o in after
      ensures HadOwner(before, o.action, o.goal, o.conn)
              || (l.Surfaced? && o == Owner(l.action, l.goal, l.conn, Pending))
    {
      if o in before { InIsHad(before, o); }
    }
    if l.Surfaced? { assert after[|mid|] == Owner(l.action, l.goal, l.conn, Pending); }
  }

  lemma PollStep(m: Mux, l: Label, n: Mux)
    requires Inv(n) && Evolves(m, n) && Leftovers(m, n) && OwnersStep(m.owners, n.owners, l) && !l.Call?
    requires forall w | w in l.replies :: Answers(m, w)
    requires l.CancelReported? ==> Delivered(n, l.action, l.goal) && CancelWaits(n, l.action, l.goal)
                                   && Owner(l.action, l.goal, l.conn, Active) in n.owners
    ensures Step(m, l, n)
  {
  }

  /** A runtime cancel that polling a slot reports is delivered, and waits for its decision. */
  lemma ReportIsDelivered(m: Mux, i: nat)
    requires Inv(m) && i < |m.slots| && V.Poll(m.slots[i].server).1.RuntimeCancelRequest?
    ensures var e := V.Poll(m.slots[i].server).1;
            var n := m.(slots := m.slots[i := PolledSlot(m.slots[i])]);
            && Delivered(n, e.action, e.goal) && CancelWaits(n, e.action, e.goal)
            && Owner(e.action, e.goal, m.slots[i].conn, Active) in n.owners
  {
    var e := V.Poll(m.slots[i].server).1;
    var n := m.(slots := m.slots[i := PolledSlot(m.slots[i])]);
    assert SlotOk(m.slots[i]);
    PollConsumes(m.slots[i].server);
    PollSlotInv(m, i);
    assert Holds(n.slots[i], e.action, e.goal);
    OwnerExactly(n, i, e.action, e.goal);
    LookupActive(n, i, e.action, e.goal);
  }

  // ----- runs -----

  ghost predicate IsRun(states: seq<Mux>, labels: seq<Label>) {
    |states| == |labels| + 1 && Inv(states[0]) && StepsAll(states, labels)
  }

  ghost predicate StepsAll(states: seq<Mux>, labels: seq<Label>)
    requires |states| == |labels| + 1
  {
    forall i | 0 <= i < |labels| :: Steps(states, labels, i)
  }

  ghost predicate Steps(states: seq<Mux>, labels: seq<Label>, i: nat)
    requires i < |labels| == |states| - 1
  {
    Step(states[i], labels[i], states[i + 1])
  }

  lemma RunInv(states: seq<Mux>, labels: seq<Label>, i: nat)
    requires IsRun(states, labels) && i < |states|
    ensures Inv(states[i])
  {
    if i > 0 { StepAt(states, labels, i - 1); }
  }

  lemma EvolvesAt(states: seq<Mux>, labels: seq<Label>, k: nat)
    requires IsRun(states, labels) && k < |labels|
    ensures Evolves(states[k], states[k + 1])
  {
    StepAt(states, labels, k);
  }

  lemma {:induction false} RunEvolves(states: seq<Mux>, labels: seq<Label>, i: nat, j: nat)
    requires IsRun(states, labels) && i <= j < |states|
    ensures Evolves(states[i], states[j])
    decreases j
  {
    if i == j {
      EvolvesItself(states[i], states[i].owners);
    } else {
      RunEvolves(states, labels, i, j - 1);
      EvolvesAt(states, labels, j - 1);
      EvolvesBoth(states[i], states[j - 1], states[j]);
    }
  }

  predicate IsRequest(l: Label, action: nat, goal: GoalId) { l.Surfaced? && l.action == action && l.goal == goal }

  predicate IsRequestFrom(l: Label, action: nat, goal: GoalId, conn: nat) {
    IsRequest(l, action, goal) && l.conn == conn
  }

  /** The last Goal Request surfaced for this ID before step `i` came from this connection. */
  ghost predicate LastRequestFrom(labels: seq<Label>, i: nat, action: nat, goal: GoalId, conn: nat) {
    exists j: nat :: j < i <= |labels| && IsRequestFrom(labels[j], action, goal, conn)
                     && forall k: nat | j < k < i :: !IsRequest(labels[k], action, goal)
  }

  lemma JustSurfaced(labels: seq<Label>, i: nat, action: nat, goal: GoalId, conn: nat)
    requires i < |labels| && IsRequestFrom(labels[i], action, goal, conn)
    ensures LastRequestFrom(labels, i + 1, action, goal, conn)
  {
  }

  lemma RequestStands(labels: seq<Label>, i: nat, action: nat, goal: GoalId, conn: nat)
    requires i < |labels| && LastRequestFrom(labels, i, action, goal, conn) && !IsRequest(labels[i], action, goal)
    ensures LastRequestFrom(labels, i + 1, action, goal, conn)
  {
    var j: nat :|
      && j < i && IsRequestFrom(labels[j], action, goal, conn)
      && forall k: nat | j < k < i :: !IsRequest(labels[k], action, goal);
    assert forall k: nat | j < k < i + 1 :: !IsRequest(labels[k], action, goal);
  }

  /**
   * In every run every owner entry stands for the last request surfaced under its ID, and names the connection
   * it came from.
   */
  lemma {:induction false} OwnerOrigin(states: seq<Mux>, labels: seq<Label>, i: nat, o: Owner)
    requires IsRun(states, labels) && states[0].owners == [] && i < |states| && o in states[i].owners
    ensures LastRequestFrom(labels, i, o.action, o.goal, o.conn)
    decreases i
  {
    if i == 0 {
    } else {
      var was := OwnerBeforeAt(states, labels, i - 1, o);
      if IsRequest(labels[i - 1], o.action, o.goal) {
        JustSurfaced(labels, i - 1, o.action, o.goal, o.conn);
      } else {
        OwnerOrigin(states, labels, i - 1, was);
        RequestStands(labels, i - 1, o.action, o.goal, o.conn);
      }
    }
  }

  /** An entry is new with its request, or was there before. */
  lemma OwnerBefore(m: Mux, l: Label, n: Mux, o: Owner) returns (was: Owner)
    requires Step(m, l, n) && o in n.owners
    ensures if IsRequest(l, o.action, o.goal) then l.conn == o.conn
            else was in m.owners && was.action == o.action && was.goal == o.goal && was.conn == o.conn
  {
    was := Owner(o.action, o.goal, o.conn, Pending);
    if IsRequest(l, o.action, o.goal) {
      SameKey(n, o, Owner(l.action, l.goal, l.conn, Pending));
    } else if was !in m.owners {
      was := Owner(o.action, o.goal, o.conn, Active);
    }
  }

  lemma OwnerBeforeAt(states: seq<Mux>, labels: seq<Label>, k: nat, o: Owner) returns (was: Owner)
    requires IsRun(states, labels) && k < |labels| && o in states[k + 1].owners
    ensures if IsRequest(labels[k], o.action, o.goal) then labels[k].conn == o.conn
            else was in states[k].owners && was.action == o.action && was.goal == o.goal && was.conn == o.conn
  {
    StepAt(states, labels, k);
    was := OwnerBefore(states[k], labels[k], states[k + 1], o);
  }

  lemma SameKey(n: Mux, o: Owner, p: Owner)
    requires KeysUnique(n.owners) && o in n.owners && p in n.owners && o.action == p.action && o.goal == p.goal
    ensures o == p
  {
    var k :| 0 <= k < |n.owners| && n.owners[k] == p;
    OnlyOwner(n, k, o);
  }

  /** Routing over every run: a packet for a Goal leaves only on the connection its request came from. */
  lemma PacketsFollowTheirRequest(states: seq<Mux>, labels: seq<Label>, i: nat)
    requires IsRun(states, labels) && states[0].owners == []
    requires i < |labels| && labels[i].Call? && labels[i].wire.Some?
    ensures labels[i].wire.value.action == labels[i].action && labels[i].wire.value.packet.goal == labels[i].goal
    ensures LastRequestFrom(labels, i, labels[i].action, labels[i].goal, labels[i].wire.value.conn)
  {
    var (l, conn) := (labels[i], labels[i].wire.value.conn);
    StepAt(states, labels, i);
    var o := if Owner(l.action, l.goal, conn, Pending) in states[i].owners then Owner(l.action, l.goal, conn, Pending)
             else Owner(l.action, l.goal, conn, Active);
    OwnerOrigin(states, labels, i, o);
  }

  /** And what a poll itself sends is the REJECT of a request on the connection that request came from. */
  lemma RepliesAnswerTheirRequest(states: seq<Mux>, labels: seq<Label>, i: nat, w: Wire)
    requires IsRun(states, labels) && i < |labels| && !labels[i].Call? && w in labels[i].replies
    ensures exists k :: 0 <= k < |states[i].slots| && AnswersAt(states[i].slots[k], w)
  {
    StepAt(states, labels, i);
    assert Answers(states[i], w);
  }

  /**
   * What an unsent duplicate REJECT costs, over every run: the binding without owner stays until its
   * connection is processed, and until then no request for its ID is surfaced from there.
   */
  lemma {:induction false} ForsakenStays(
    states: seq<Mux>, labels: seq<Label>, i: nat, j: nat, s: nat, a: nat, g: GoalId)
    requires IsRun(states, labels) && i <= j < |states| && Forsaken(states[i], s, a, g)
    requires s < |states[j].slots| && !states[j].slots[s].processed
    ensures Forsaken(states[j], s, a, g) && states[j].slots[s].conn == states[i].slots[s].conn
    ensures forall k | i <= k < j :: !IsRequestFrom(labels[k], a, g, states[i].slots[s].conn)
    decreases j
  {
    if i >= j {
    } else {
      OpenBefore(states, labels, i, j - 1, s);
      ForsakenStays(states, labels, i, j - 1, s, a, g);
      ForsakenNext(states, labels, j - 1, s, a, g);
    }
  }

  lemma OpenBefore(states: seq<Mux>, labels: seq<Label>, i: nat, k: nat, s: nat)
    requires IsRun(states, labels) && i <= k < |labels| && s < |states[i].slots|
    requires s < |states[k + 1].slots| && !states[k + 1].slots[s].processed
    ensures s < |states[k].slots| && !states[k].slots[s].processed
  {
    RunEvolves(states, labels, i, k);
    SameConnection(states[i], states[k], s);
    StepAt(states, labels, k);
    StillOpen(states[k], labels[k], states[k + 1], s);
  }

  lemma ForsakenNext(states: seq<Mux>, labels: seq<Label>, k: nat, s: nat, a: nat, g: GoalId)
    requires IsRun(states, labels) && k < |labels| && Forsaken(states[k], s, a, g)
    requires s < |states[k + 1].slots| && !states[k + 1].slots[s].processed
    ensures Forsaken(states[k + 1], s, a, g) && states[k + 1].slots[s].conn == states[k].slots[s].conn
    ensures !IsRequestFrom(labels[k], a, g, states[k].slots[s].conn)
  {
    StepAt(states, labels, k);
    ForsakenStep(states[k], labels[k], states[k + 1], s, a, g);
    SameConnection(states[k], states[k + 1], s);
  }

  /** Nor is any request for the endpoint slot it sits in: what is surfaced from there has another one. */
  lemma ForsakenBlocksSlot(states: seq<Mux>, labels: seq<Label>, i: nat, k: nat, s: nat, a: nat, g: GoalId, h: GoalId)
    requires IsRun(states, labels) && i <= k < |labels| && Forsaken(states[i], s, a, g)
    requires s < |states[k + 1].slots| && !states[k + 1].slots[s].processed
    requires IsRequestFrom(labels[k], a, h, states[i].slots[s].conn)
    ensures Awaits(states[k + 1].slots[s], a, g) && Awaits(states[k + 1].slots[s], a, h) && g != h
    ensures var ep := states[k + 1].slots[s].server.actions[a].ep; ep.bindings[g].slot != ep.bindings[h].slot
  {
    ForsakenStays(states, labels, i, k + 1, s, a, g);
    StepAt(states, labels, k);
    var n := states[k + 1];
    OwnerFits(n, s, Owner(a, h, n.slots[s].conn, Pending));
    TwoWaiting(n.slots[s], a, g, h);
  }

  lemma TwoWaiting(slot: Slot, a: nat, g: GoalId, h: GoalId)
    requires SlotOk(slot) && Awaits(slot, a, g) && Awaits(slot, a, h) && g != h
    ensures slot.server.actions[a].ep.bindings[g].slot != slot.server.actions[a].ep.bindings[h].slot
  {
    assert V.Simulates(slot.server.actions[a]);
  }

  lemma StepAt(states: seq<Mux>, labels: seq<Label>, k: nat)
    requires IsRun(states, labels) && k < |labels|
    ensures Step(states[k], labels[k], states[k + 1])
  {
    assert Steps(states, labels, k);
  }

  lemma SameConnection(m: Mux, n: Mux, s: nat)
    requires Evolves(m, n) && s < |m.slots|
    ensures s < |n.slots| && n.slots[s].conn == m.slots[s].conn
  {
    assert Survives(m.slots[s], n.slots[s]);
  }

  lemma StillOpen(m: Mux, l: Label, n: Mux, s: nat)
    requires Step(m, l, n) && s < |m.slots| && s < |n.slots| && !n.slots[s].processed
    ensures !m.slots[s].processed
  {
    assert Survives(m.slots[s], n.slots[s]);
  }

  lemma ForsakenStep(m: Mux, l: Label, n: Mux, s: nat, a: nat, g: GoalId)
    requires Step(m, l, n) && Forsaken(m, s, a, g) && s < |n.slots| && !n.slots[s].processed
    ensures Forsaken(n, s, a, g) && !IsRequestFrom(l, a, g, m.slots[s].conn)
  {
    SameConnection(m, n, s);
    assert Forsaken(n, s, a, g);
  }

  /** A Goal stuck in FINISHING keeps its slot from ever being retired and its ID from ever being freed. */
  lemma StuckForever(states: seq<Mux>, labels: seq<Label>, i: nat, j: nat, s: nat, a: nat, g: GoalId)
    requires IsRun(states, labels) && i <= j < |states| && s < |states[i].slots| && Stuck(states[i].slots[s], a, g)
    ensures s < |states[j].slots| && !states[j].slots[s].retired
    ensures Owner(a, g, states[i].slots[s].conn, Active) in states[j].owners
  {
    RunEvolves(states, labels, i, j);
    RunInv(states, labels, j);
    assert Survives(states[i].slots[s], states[j].slots[s]) && Stuck(states[j].slots[s], a, g);
    OwnerExactly(states[j], s, a, g);
    OwnerFits(states[j], s, Owner(a, g, states[j].slots[s].conn, Active));
  }

  /** Delivery is remembered: one step forgets it only by completing the Goal. */
  lemma DeliveredStep(m: Mux, l: Label, n: Mux, a: nat, g: GoalId)
    requires Inv(m) && Step(m, l, n) && Delivered(m, a, g) && !Ends(l, a, g)
    ensures Delivered(n, a, g)
  {
    LookupIs(m, a, g, Active);
    var i := OwnerSlotIndex(m, a, g, Active).value;
    assert Survives(m.slots[i], n.slots[i]);
    assert Owner(a, g, m.slots[i].conn, Active) in n.owners;
    LookupActive(n, i, a, g);
  }

  lemma {:induction false} StaysDelivered(states: seq<Mux>, labels: seq<Label>, i: nat, j: nat, a: nat, g: GoalId)
    requires IsRun(states, labels) && i <= j < |states| && Delivered(states[i], a, g)
    requires forall k | i <= k < j :: !Ends(labels[k], a, g)
    ensures Delivered(states[j], a, g)
    decreases j
  {
    if i >= j {
    } else {
      StaysDelivered(states, labels, i, j - 1, a, g);
      DeliveredRunStep(states, labels, j - 1, a, g);
    }
  }

  lemma DeliveredRunStep(states: seq<Mux>, labels: seq<Label>, k: nat, a: nat, g: GoalId)
    requires IsRun(states, labels) && k < |labels| && Delivered(states[k], a, g) && !Ends(labels[k], a, g)
    ensures Delivered(states[k + 1], a, g)
  {
    RunInv(states, labels, k);
    StepAt(states, labels, k);
    DeliveredStep(states[k], labels[k], states[k + 1], a, g);
  }

  /**
   * Draining over every run: from the moment a runtime cancel is reported until its Goal is completed,
   * the Goal stays delivered, so completing it needs only a fitting status and a valid packet (by
   * DeadCompletionFrees), and nothing is handed to a transport for it.
   */
  lemma ReportedIsDrained(states: seq<Mux>, labels: seq<Label>, i: nat, j: nat, a: nat, g: GoalId)
    requires IsRun(states, labels) && i < j < |states|
    requires labels[i].CancelReported? && labels[i].action == a && labels[i].goal == g
    requires forall k | i < k < j :: !Ends(labels[k], a, g)
    ensures Inv(states[j]) && Delivered(states[j], a, g)
    ensures forall k | i < k < j && labels[k].Call? && labels[k].action == a && labels[k].goal == g ::
            labels[k].wire.None?
  {
    RunInv(states, labels, j);
    DeliveredAfterReport(states, labels, i, j, a, g);
    forall k | i < k < j && labels[k].Call? && labels[k].action == a && labels[k].goal == g
      ensures labels[k].wire.None?
    {
      SilentAfterReport(states, labels, i, k, a, g);
    }
  }

  lemma DeliveredAfterReport(states: seq<Mux>, labels: seq<Label>, i: nat, j: nat, a: nat, g: GoalId)
    requires IsRun(states, labels) && i < j < |states|
    requires labels[i].CancelReported? && labels[i].action == a && labels[i].goal == g
    requires forall k | i < k < j :: !Ends(labels[k], a, g)
    ensures Delivered(states[j], a, g)
  {
    JustReported(states, labels, i);
    StaysDelivered(states, labels, i + 1, j, a, g);
  }

  lemma SilentAfterReport(states: seq<Mux>, labels: seq<Label>, i: nat, k: nat, a: nat, g: GoalId)
    requires IsRun(states, labels) && i < k < |labels|
    requires labels[i].CancelReported? && labels[i].action == a && labels[i].goal == g
    requires forall n | i < n < k :: !Ends(labels[n], a, g)
    requires labels[k].Call? && labels[k].action == a && labels[k].goal == g
    ensures labels[k].wire.None?
  {
    DeliveredAfterReport(states, labels, i, k, a, g);
    SilentOnce(states, labels, k);
  }

  lemma JustReported(states: seq<Mux>, labels: seq<Label>, k: nat)
    requires IsRun(states, labels) && k < |labels| && labels[k].CancelReported?
    ensures Delivered(states[k + 1], labels[k].action, labels[k].goal)
  {
    StepAt(states, labels, k);
  }

  lemma SilentOnce(states: seq<Mux>, labels: seq<Label>, k: nat)
    requires IsRun(states, labels) && k < |labels| && labels[k].Call?
             && Delivered(states[k], labels[k].action, labels[k].goal)
    ensures labels[k].wire.None?
  {
    StepAt(states, labels, k);
  }

  /** Right after the report, accepting the cancel and completing with CANCELED or ABORTED works and frees the ID. */
  lemma ReportedCanBeCompleted(m: Mux, l: Label, n: Mux, status: TerminalStatus, pdu: AppPdu, sent: bool)
    requires Inv(m) && Step(m, l, n) && l.CancelReported? && StatusAllowed(true, status) && pdu.Valid()
    ensures var r := DecideCancel(n, l.action, l.goal, true, sent);
            && r.ok && Complete(r.next, l.action, l.goal, status, pdu, sent).ok
            && OwnerIndex(Complete(r.next, l.action, l.goal, status, pdu, sent).next.owners, l.action, l.goal).None?
  {
    AcceptThenComplete(n, l.action, l.goal, status, pdu, sent);
  }
}
