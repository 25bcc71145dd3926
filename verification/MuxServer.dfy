/** The connection multiplexer as an object: tables updated in place, proved against its value model. */
module MuxServer {
  import opened ActionTypes
  import opened MuxSpec
  import opened MuxCalls
  import opened MuxEvents
  import opened MuxLeftovers
  import opened MuxMoves
  import opened MuxPolls
  import opened MuxSweeps
  import opened MuxProgress
  import R = MuxRun
  import V = ServerServicesSpec

  datatype Polled = Polled(event: V.Event, conn: nat, wires: seq<Wire>)

  /** After a notification every accepted Goal has one runtime cancel queued. */
  method QueueRuntimeCancels(s: V.Services) returns (t: V.Services)
    requires s.runtimeEvents == []
    ensures V.Notified(s, t)
  {
    var queue: seq<(nat, GoalId)> := [];
    for n := 0 to |s.actions|
      invariant forall m: nat, g | m < n && g in s.actions[m].goals :: (m, g) in queue
      invariant Accepted(s, queue)
    {
      var rest := s.actions[n].goals.Keys;
      while rest != {}
        invariant rest <= s.actions[n].goals.Keys
        invariant forall m: nat, g | m < n && g in s.actions[m].goals :: (m, g) in queue
        invariant forall g | g in s.actions[n].goals :: g in rest || (n, g) in queue
        invariant Accepted(s, queue)
        decreases |rest|
      {
        var g :| g in rest;
        if (n, g) !in queue {
          QueueOne(s, queue, n, g);
          queue := queue + [(n, g)];
        }
        rest := rest - {g};
      }
    }
    t := s.(runtimeEvents := queue);
  }

  ghost predicate Accepted(s: V.Services, queue: seq<(nat, GoalId)>) {
    forall k | 0 <= k < |queue| ::
      var (n, g) := queue[k];
      n < |s.actions| && g in s.actions[n].goals && (n, g) !in queue[..k]
  }

  lemma QueueOne(s: V.Services, queue: seq<(nat, GoalId)>, n: nat, g: GoalId)
    requires Accepted(s, queue) && n < |s.actions| && g in s.actions[n].goals && (n, g) !in queue
    ensures Accepted(s, queue + [(n, g)])
  {
    var longer := queue + [(n, g)];
    forall k | 0 <= k < |longer|
      ensures var (a, h) := longer[k]; a < |s.actions| && h in s.actions[a].goals && (a, h) !in longer[..k]
    {
      assert longer[..k] == queue[..k];
    }
  }

  /** Exactly the pending owners of one connection have been erased. */
  ghost predicate OnlyPendingGone(before: seq<Owner>, after: seq<Owner>, conn: nat) {
    forall o :: o in after <==> o in before && (o.conn != conn || o.state == Active)
  }

  /** The same, with the erasing loop at position `k`. */
  ghost predicate Swept(before: seq<Owner>, owners: seq<Owner>, conn: nat, k: nat, active: bool) {
    && k <= |owners|
    && (forall o | o in owners :: o in before)
    && (forall o | o in before && (o.conn != conn || o.state == Active) :: o in owners)
    && (forall j | 0 <= j < k :: owners[j].conn != conn || owners[j].state == Active)
    && (active <==> exists j :: 0 <= j < k && owners[j].conn == conn)
  }

  lemma SweepOne(before: seq<Owner>, owners: seq<Owner>, conn: nat, k: nat, active: bool)
    requires Swept(before, owners, conn, k, active) && k < |owners|
    ensures owners[k].conn != conn ==> Swept(before, owners, conn, k + 1, active)
    ensures owners[k].conn == conn && owners[k].state == Active ==> Swept(before, owners, conn, k + 1, true)
    ensures owners[k].conn == conn && owners[k].state == Pending ==>
              Swept(before, owners[..k] + owners[k + 1..], conn, k, active)
  {
    var shorter := owners[..k] + owners[k + 1..];
    assert forall j | 0 <= j < k :: shorter[j] == owners[j];
    if owners[k].conn == conn && owners[k].state == Pending {
      forall o | o in before && (o.conn != conn || o.state == Active) ensures o in shorter {
        var j :| 0 <= j < |owners| && owners[j] == o;
        assert shorter[if j < k then j else j - 1] == o;
      }
    }
  }

  lemma SweptAll(before: seq<Owner>, owners: seq<Owner>, conn: nat, active: bool)
    requires Swept(before, owners, conn, |owners|, active)
    ensures OnlyPendingGone(before, owners, conn)
    ensures active <==> exists o :: o in owners && o.conn == conn
  {
    if exists o :: o in owners && o.conn == conn {
      var o :| o in owners && o.conn == conn;
      var j :| 0 <= j < |owners| && owners[j] == o;
      assert owners[j].conn == conn;
    }
  }

  /** The answer is that of a round of turns from `start`: the first slot with something to say, or silence. */
  ghost predicate RoundIs(start: Mux, rejectSent: set<nat>, r: Polled, n: Mux) {
    var x := Rounds(start, 0, rejectSent, []);
    && Decides(start, 0, x) && r.event == x.event && r.wires == x.wires && n == x.next
    && (x.event != V.NoEvent ==> r.conn == start.slots[x.at].conn)
  }

  /** What the loop over the slots has computed. */
  ghost predicate Gives(start: Mux, rejectSent: set<nat>, r: Polled, n: Mux) {
    var x := Rounds(start, 0, rejectSent, []);
    && r.event == x.event && r.wires == x.wires && n == x.next
    && (x.event != V.NoEvent ==> x.at < |x.next.slots| && r.conn == x.next.slots[x.at].conn)
  }

  lemma RoundIsDecided(start: Mux, rejectSent: set<nat>, r: Polled, n: Mux)
    requires Inv(start) && Gives(start, rejectSent, r, n)
    ensures RoundIs(start, rejectSent, r, n) && CameFrom(start, Rounds(start, 0, rejectSent, []), r.conn)
  {
    RoundsExactly(start, 0, rejectSent, []);
    var x := Rounds(start, 0, rejectSent, []);
    if x.event != V.NoEvent { RoundsKeepConn(start, 0, rejectSent, [], x.at); }
  }

  lemma RoundKeeps(start: Mux, rejectSent: set<nat>, r: Polled, n: Mux)
    requires Inv(start) && AllProcessed(start) && Gives(start, rejectSent, r, n)
    ensures Finished(start, n, r.event, r.conn, r.wires) && RoundIs(start, rejectSent, r, n)
  {
    HalfwayStart(start);
    RoundIsDecided(start, rejectSent, r, n);
    RoundsFinish(start, start, 0, rejectSent, [], r.conn);
  }

  lemma RoundTells(start: Mux, rejectSent: set<nat>, r: Polled, n: Mux)
    requires Inv(start) && RoundIs(start, rejectSent, r, n)
    ensures r.event.RuntimeCancelRequest? ==>
              && Delivered(n, r.event.action, r.event.goal) && R.CancelWaits(n, r.event.action, r.event.goal)
              && Owner(r.event.action, r.event.goal, r.conn, Active) in n.owners
  {
    RoundsReport(start, 0, rejectSent, []);
  }

  ghost predicate Reports(n: Mux, e: V.Event, conn: nat)
    requires e.RuntimeCancelRequest?
  {
    && Delivered(n, e.action, e.goal) && R.CancelWaits(n, e.action, e.goal)
    && Owner(e.action, e.goal, conn, Active) in n.owners
  }

  /** A runtime cancel that a round reports is delivered, and waits for its decision on that connection. */
  lemma {:induction false} RoundsReport(m: Mux, i: nat, rejectSent: set<nat>, wires: seq<Wire>)
    requires Inv(m)
    ensures var x := Rounds(m, i, rejectSent, wires);
            x.event.RuntimeCancelRequest? ==> x.at < |m.slots| && Reports(x.next, x.event, m.slots[x.at].conn)
    decreases |m.slots| - i
  {
    if i >= |m.slots| {
    } else if m.slots[i].retired {
      RoundsReport(m, i + 1, rejectSent, wires);
    } else {
      var sent := m.slots[i].conn in rejectSent;
      var t := Turn(m, i, sent);
      if t.event.RuntimeCancelRequest? { TurnReports(m, i, sent); }
      if t.event == V.NoEvent {
        QuietTurn(m, i, sent);
        TurnFrame(m, i, sent);
        RoundsReport(t.next, i + 1, rejectSent, wires + t.wires);
      }
    }
  }

  /** State `n` is `m` with some of the losses processed. */
  ghost predicate Sweeping(m: Mux, n: Mux) {
    && |n.slots| == |m.slots| && n.nextId == m.nextId && n.expected == m.expected
    && (forall k | 0 <= k < |m.slots| ::
          Wanes(m.slots[k], n.slots[k]) && (n.slots[k].disconnected <==> m.slots[k].disconnected))
    && (forall o | o in m.owners :: o in n.owners || (o.state == Pending && Gone(n, o.conn)))
    && (forall o | o in n.owners :: o in m.owners)
  }

  lemma SweepingOn(m: Mux, mid: Mux, n: Mux, i: nat)
    requires Sweeping(m, mid) && i < |m.slots| && mid.slots[i].disconnected && !mid.slots[i].processed
    requires |n.slots| == |mid.slots| && n.nextId == mid.nextId && n.expected == mid.expected
    requires forall k | 0 <= k < |n.slots| && k != i :: n.slots[k] == mid.slots[k]
    requires n.slots[i].conn == mid.slots[i].conn && Laid(mid.slots[i].server, n.slots[i])
    requires OnlyPendingGone(mid.owners, n.owners, n.slots[i].conn)
    ensures Sweeping(m, n)
  {
    assert Wanes(mid.slots[i], n.slots[i]);
    WanesBoth(m.slots[i], mid.slots[i], n.slots[i]);
    forall o | o in m.owners ensures o in n.owners || (o.state == Pending && Gone(n, o.conn)) {
      if o in mid.owners && o !in n.owners {
        assert n.slots[i].conn == o.conn;
      } else if o !in mid.owners {
        var k :| 0 <= k < |mid.slots| && mid.slots[k].conn == o.conn && mid.slots[k].disconnected;
        assert n.slots[k].conn == o.conn && n.slots[k].disconnected;
      }
    }
  }

  lemma SweepingDone(m: Mux, n: Mux)
    requires Sweeping(m, n) && AllProcessed(n)
    ensures SweptBy(m, {}, n)
  {
  }

  /** The sweep has looked at the slots before `i`. */
  ghost predicate SweptUpTo(m: Mux, n: Mux, i: nat) {
    && Moves(m, n) && Sweeping(m, n) && R.Sifted(m.owners, n.owners) && i <= |m.slots|
    && (forall k | 0 <= k < i :: n.slots[k].disconnected ==> n.slots[k].processed)
    && (forall k | 0 <= k < |m.slots| :: !n.slots[k].disconnected || k >= i ==> n.slots[k] == m.slots[k])
  }

  lemma SweptUpToStart(m: Mux)
    requires Inv(m)
    ensures SweptUpTo(m, m, 0)
  {
    MovesItself(m);
  }

  lemma SweptUpToSkip(m: Mux, n: Mux, i: nat)
    requires SweptUpTo(m, n, i) && i < |m.slots| && (n.slots[i].disconnected ==> n.slots[i].processed)
    ensures SweptUpTo(m, n, i + 1)
  {
  }

  lemma SweptUpToNext(m: Mux, mid: Mux, n: Mux, i: nat)
    requires SweptUpTo(m, mid, i) && i < |m.slots| && mid.slots[i].disconnected && !mid.slots[i].processed
    requires Moves(mid, n) && |n.slots| == |mid.slots| && n.nextId == mid.nextId && n.expected == mid.expected
    requires forall k | 0 <= k < |n.slots| && k != i :: n.slots[k] == mid.slots[k]
    requires n.slots[i].conn == mid.slots[i].conn && Laid(mid.slots[i].server, n.slots[i])
    requires OnlyPendingGone(mid.owners, n.owners, n.slots[i].conn)
    ensures SweptUpTo(m, n, i + 1)
  {
    MovesBoth(m, mid, n);
    SweepingOn(m, mid, n, i);
    R.SiftedTwice(m.owners, mid.owners, n.owners);
  }

  /** What a poll means for the run. */
  function LabelOf(r: Polled): R.Label {
    match r.event
    case GoalRequest(a, g, _) => R.Surfaced(a, g, r.conn, r.wires)
    case RuntimeCancelRequest(a, g) => R.CancelReported(a, g, r.conn, r.wires)
    case _ => R.Network(r.wires)
  }

  const QUIET: R.Label := R.Network([])

  lemma PolledOwners(before: seq<Owner>, mid: seq<Owner>, after: seq<Owner>, r: Polled)
    requires R.Sifted(before, mid)
    requires if r.event.GoalRequest? then after == mid + [Owner(r.event.action, r.event.goal, r.conn, Pending)]
             else R.Sifted(mid, after)
    ensures R.OwnersStep(before, after, LabelOf(r))
  {
    R.SiftedStep(before, mid, after, LabelOf(r));
  }

  /** The two halves of a poll put together. */
  lemma PollMoves(m: Mux, mid: Mux, n: Mux, r: Polled)
    requires Moves(m, mid) && Moves(mid, n) && R.Sifted(m.owners, mid.owners) && Untouched(m, mid)
    requires forall w | w in r.wires :: Answers(mid, w)
    requires if r.event.GoalRequest?
             then n.owners == mid.owners + [Owner(r.event.action, r.event.goal, r.conn, Pending)]
             else R.Sifted(mid.owners, n.owners)
    requires r.event.RuntimeCancelRequest? ==>
               && Delivered(n, r.event.action, r.event.goal) && R.CancelWaits(n, r.event.action, r.event.goal)
               && Owner(r.event.action, r.event.goal, r.conn, Active) in n.owners
    ensures Moves(m, n) && R.Step(m, LabelOf(r), n)
  {
    MovesBoth(m, mid, n);
    PolledOwners(m.owners, mid.owners, n.owners, r);
    forall w | w in r.wires ensures Answers(m, w) { AnswersBefore(m, mid, w); }
    R.PollStep(m, LabelOf(r), n);
  }

  lemma TurnReports(m: Mux, i: nat, rejectSent: bool)
    requires Inv(m) && i < |m.slots| && Turn(m, i, rejectSent).event.RuntimeCancelRequest?
    ensures var t := Turn(m, i, rejectSent);
            && Delivered(t.next, t.event.action, t.event.goal) && R.CancelWaits(t.next, t.event.action, t.event.goal)
            && Owner(t.event.action, t.event.goal, m.slots[i].conn, Active) in t.next.owners
  {
    R.ReportIsDelivered(m, i);
  }

  lemma QuietStep(m: Mux, n: Mux)
    requires Moves(m, n) && n.owners == m.owners
    ensures R.Step(m, QUIET, n)
  {
    R.OwnersSame(m.owners, QUIET);
    R.PollStep(m, QUIET, n);
  }

  class ActionServicesMuxServer {
    const expectedCount: nat
    const slotCounts: seq<nat>
    var isOpen: bool
    var started: bool
    var slots: seq<Slot>
    var owners: seq<Owner>
    var nextConnectionId: nat

    ghost function View(): Mux
      reads this
    {
      Mux(slots, owners, nextConnectionId, expectedCount)
    }

    ghost predicate Valid()
      reads this
    {
      Inv(View()) && (started ==> isOpen) && (isOpen ==> expectedCount > 0)
    }

    constructor (expectedCount: nat, slotCounts: seq<nat>)
      ensures Valid() && !started && slots == [] && owners == [] && this.expectedCount == expectedCount
    {
      this.expectedCount := expectedCount;
      this.slotCounts := slotCounts;
      isOpen, started := false, false;
      slots, owners, nextConnectionId := [], [], 1;
    }

    method Initialize(openOk: bool) returns (ok: bool)
      requires Valid()
      modifies this`isOpen
      ensures Valid() && ok == (old(isOpen) || (openOk && expectedCount > 0)) && isOpen == ok
    {
      if !isOpen && openOk && expectedCount > 0 { isOpen := true; }
      ok := isOpen;
    }

    method Start(startOk: bool) returns (ok: bool)
      requires Valid()
      modifies this`started
      ensures Valid() && ok == (old(started) || (isOpen && startOk)) && started == ok
    {
      if !started && isOpen && startOk { started := true; }
      ok := started;
    }

    /** Identities are not reused even across a stop. */
    method Stop()
      requires Valid()
      modifies this`isOpen, this`started, this`slots, this`owners
      ensures Valid() && !started && !isOpen && slots == [] && owners == []
    {
      owners, slots := [], [];
      isOpen, started := false, false;
    }

    // ----- lookups -----

    method FindOwner(action: nat, goal: GoalId) returns (k: Option<nat>)
      ensures k == OwnerIndex(owners, action, goal)
    {
      var i := 0;
      while i < |owners|
        invariant i <= |owners|
        invariant forall j | 0 <= j < i :: owners[j].action != action || owners[j].goal != goal
      {
        if owners[i].action == action && owners[i].goal == goal { return Some(i); }
        i := i + 1;
      }
      k := None;
    }

    method FindSlot(conn: nat) returns (k: Option<nat>)
      ensures k == SlotIndex(slots, conn)
    {
      var i := 0;
      while i < |slots|
        invariant i <= |slots|
        invariant forall j | 0 <= j < i :: slots[j].conn != conn
      {
        if slots[i].conn == conn { return Some(i); }
        i := i + 1;
      }
      k := None;
    }

    /** The slot of the Goal's owner, if the owner is in the wanted state. */
    method FindOwnerSlot(action: nat, goal: GoalId, state: OwnerState) returns (i: Option<nat>)
      ensures i == OwnerSlotIndex(View(), action, goal, state)
    {
      var k := FindOwner(action, goal);
      if k.None? || owners[k.value].state != state { return None; }
      i := FindSlot(owners[k.value].conn);
    }

    method ConnectedCount() returns (n: nat)
      ensures n == LiveCount(slots)
    {
      n := 0;
      for i := 0 to |slots|
        invariant n == LiveCount(slots[..i])
      {
        assert slots[..i + 1][..i] == slots[..i];
        if !slots[i].disconnected { n := n + 1; }
      }
      assert slots[..|slots|] == slots;
    }

    /** Ready means exactly the expected number of live connections, never more. */
    method IsReady() returns (ready: bool)
      requires Valid()
      ensures ready <==> started && LiveCount(slots) == expectedCount
    {
      var n := ConnectedCount();
      ready := started && n >= expectedCount;
    }

    method RemoveOwnerOf(action: nat, goal: GoalId)
      modifies this`owners
      ensures owners == RemoveOwner(old(owners), action, goal)
    {
      var k := FindOwner(action, goal);
      if k.Some? { owners := owners[..k.value] + owners[k.value + 1..]; }
    }

    // ----- calls of the application -----

    method AcceptGoal(action: nat, goal: GoalId, sent: bool) returns (ok: bool, ghost attempt: Option<Wire>)
      requires Valid()
      modifies this`slots, this`owners
      ensures Valid() && R.Step(old(View()), R.Call(action, goal, attempt, false), View())
      ensures Called(View(), ok, attempt) == MuxSpec.AcceptGoal(old(View()), action, goal, sent)
    {
      R.AcceptGoalStep(View(), action, goal, sent);
      ok, attempt := RouteAcceptance(action, goal, sent);
    }

    method RouteAcceptance(action: nat, goal: GoalId, sent: bool) returns (ok: bool, ghost attempt: Option<Wire>)
      modifies this`slots, this`owners
      ensures Called(View(), ok, attempt) == MuxSpec.AcceptGoal(old(View()), action, goal, sent)
    {
      ok, attempt := false, None;
      var at := FindOwnerSlot(action, goal, Pending);
      if at.None? { return; }
      var i := at.value;
      if slots[i].disconnected || action >= |slots[i].server.actions| { return; }
      var k := FindOwner(action, goal);
      var r := V.AcceptGoal(slots[i].server.actions[action], goal, sent);
      attempt := Attempt(View(), i, action, r);
      slots := slots[i := slots[i].(server := V.Lift(slots[i].server, action, r))];
      ok := r.ok;
      if ok { owners := owners[k.value := owners[k.value].(state := Active)]; }
    }

    method RejectGoal(action: nat, goal: GoalId, sent: bool) returns (ok: bool, ghost attempt: Option<Wire>)
      requires Valid()
      modifies this`slots, this`owners
      ensures Valid() && R.Step(old(View()), R.Call(action, goal, attempt, false), View())
      ensures Called(View(), ok, attempt) == MuxSpec.RejectGoal(old(View()), action, goal, sent)
    {
      R.RejectGoalStep(View(), action, goal, sent);
      ok, attempt := RouteRejection(action, goal, sent);
    }

    method RouteRejection(action: nat, goal: GoalId, sent: bool) returns (ok: bool, ghost attempt: Option<Wire>)
      modifies this`slots, this`owners
      ensures Called(View(), ok, attempt) == MuxSpec.RejectGoal(old(View()), action, goal, sent)
    {
      ok, attempt := false, None;
      var at := FindOwnerSlot(action, goal, Pending);
      if at.None? { return; }
      var i := at.value;
      if slots[i].disconnected || action >= |slots[i].server.actions| { return; }
      var r := V.RejectGoal(slots[i].server.actions[action], goal, sent);
      attempt := Attempt(View(), i, action, r);
      slots := slots[i := slots[i].(server := V.Lift(slots[i].server, action, r))];
      ok := r.ok;
      if ok { RemoveOwnerOf(action, goal); }
    }

    method DecideCancel(action: nat, goal: GoalId, accept: bool, sent: bool)
      returns (ok: bool, ghost attempt: Option<Wire>)
      requires Valid()
      modifies this`slots
      ensures Valid() && R.Step(old(View()), R.Call(action, goal, attempt, false), View())
      ensures Called(View(), ok, attempt) == MuxSpec.DecideCancel(old(View()), action, goal, accept, sent)
    {
      R.DecideCancelStep(View(), action, goal, accept, sent);
      ok, attempt := false, None;
      var at := FindOwnerSlot(action, goal, Active);
      if at.None? || action >= |slots[at.value].server.actions| { return; }
      var i := at.value;
      var a := slots[i].server.actions[action];
      var r := if accept then V.AcceptCancel(a, goal, sent) else V.RejectCancel(a, goal, sent);
      attempt := Attempt(View(), i, action, r);
      slots := slots[i := slots[i].(server := V.Lift(slots[i].server, action, r))];
      ok := r.ok;
    }

    method SendFeedback(action: nat, goal: GoalId, pdu: AppPdu, sent: bool)
      returns (ok: bool, ghost attempt: Option<Wire>)
      requires Valid()
      modifies this`slots
      ensures Valid() && R.Step(old(View()), R.Call(action, goal, attempt, false), View())
      ensures Called(View(), ok, attempt) == MuxSpec.SendFeedback(old(View()), action, goal, pdu, sent)
    {
      R.SendFeedbackStep(View(), action, goal, pdu, sent);
      ok, attempt := false, None;
      var at := FindOwnerSlot(action, goal, Active);
      if at.None? { return; }
      var i := at.value;
      if slots[i].disconnected || action >= |slots[i].server.actions| { return; }
      var r := V.SendFeedback(slots[i].server.actions[action], goal, pdu, sent);
      attempt := Attempt(View(), i, action, r);
      slots := slots[i := slots[i].(server := V.Lift(slots[i].server, action, r))];
      ok := r.ok;
    }

    method ReclaimOrphanedSlot(i: nat)
      requires i < |slots|
      modifies this`slots
      ensures View() == Reclaim(old(View()), i)
    {
      var conn := slots[i].conn;
      for k := 0 to |owners|
        invariant forall j | 0 <= j < k :: owners[j].conn != conn
        invariant slots == old(slots)
      {
        if owners[k].conn == conn { return; }
      }
      if slots[i].orphaned { slots := slots[i := slots[i].(server := V.ClearAll(slots[i].server), retired := true)]; }
    }

    method Complete(action: nat, goal: GoalId, status: TerminalStatus, pdu: AppPdu, sent: bool)
      returns (ok: bool, ghost attempt: Option<Wire>)
      requires Valid()
      modifies this`slots, this`owners
      ensures Valid() && R.Step(old(View()), R.Call(action, goal, attempt, ok), View())
      ensures Called(View(), ok, attempt) == MuxSpec.Complete(old(View()), action, goal, status, pdu, sent)
    {
      R.CompleteStep(View(), action, goal, status, pdu, sent);
      ok, attempt := RouteCompletion(action, goal, status, pdu, sent);
    }

    method RouteCompletion(action: nat, goal: GoalId, status: TerminalStatus, pdu: AppPdu, sent: bool)
      returns (ok: bool, ghost attempt: Option<Wire>)
      modifies this`slots, this`owners
      ensures Called(View(), ok, attempt) == MuxSpec.Complete(old(View()), action, goal, status, pdu, sent)
    {
      ok, attempt := false, None;
      var at := FindOwnerSlot(action, goal, Active);
      if at.None? || action >= |slots[at.value].server.actions| { return; }
      var i := at.value;
      var a := slots[i].server.actions[action];
      var r := if slots[i].disconnected then V.CompleteLocally(a, goal, status, pdu)
               else V.Complete(a, goal, status, pdu, sent);
      attempt := Attempt(View(), i, action, r);
      slots := slots[i := slots[i].(server := V.Lift(slots[i].server, action, r))];
      ok := r.ok;
      if ok {
        RemoveOwnerOf(action, goal);
        ReclaimOrphanedSlot(i);
      }
    }

    // ----- the network -----

    /** The disconnect callbacks of some connections fire. */
    method LoseConnections(lost: set<nat>)
      requires Valid()
      modifies this`slots
      ensures Valid() && Moves(old(View()), View()) && |slots| == |old(slots)|
      ensures forall i | 0 <= i < |slots| ::
                slots[i] == if old(slots[i]).conn in lost then old(slots[i]).(disconnected := true) else old(slots[i])
      ensures View() == Lose(old(View()), lost)
      ensures R.Step(old(View()), QUIET, View()) && Untouched(old(View()), View())
    {
      LoseMoves(View(), lost);
      RaiseFlags(lost);
      QuietStep(old(View()), View());
    }

    method RaiseFlags(lost: set<nat>)
      modifies this`slots
      ensures View() == Lose(old(View()), lost)
    {
      for i := 0 to |slots|
        invariant |slots| == |old(slots)| && forall k | i <= k < |slots| :: slots[k] == old(slots[k])
        invariant forall k | 0 <= k < i ::
                    slots[k] == if old(slots[k]).conn in lost then old(slots[k]).(disconnected := true)
                      else old(slots[k])
      {
        if slots[i].conn in lost { slots := slots[i := slots[i].(disconnected := true)]; }
      }
      assert slots == Lose(old(View()), lost).slots;
    }

    /** A packet reaches a connection that is still up. */
    method PacketArrives(i: nat, action: nat, p: RequestPacket)
      requires Valid() && i < |slots| && !slots[i].disconnected && action < |slots[i].server.actions|
      modifies this`slots
      ensures Valid() && slots == old(slots)[i := After(old(slots[i]), action, V.OpReceive(p))]
      ensures R.Step(old(View()), QUIET, View())
    {
      PacketMoves(View(), i, action, p);
      slots := slots[i := After(slots[i], action, V.OpReceive(p))];
      QuietStep(old(View()), View());
    }

    /** Sessions beyond the expected number are turned away; identities are handed out once. */
    method AcceptNewConnections(arrivals: seq<Arrival>)
      requires Valid()
      modifies this`slots, this`nextConnectionId
      ensures Valid() && Moves(old(View()), View()) && Untouched(old(View()), View())
      ensures R.Step(old(View()), QUIET, View()) && View() == AdmitAll(old(View()), slotCounts, arrivals)
    {
      MovesItself(View());
      for k := 0 to |arrivals|
        invariant Valid() && Moves(old(View()), View()) && Untouched(old(View()), View())
        invariant View() == AdmitAll(old(View()), slotCounts, arrivals[..k])
      {
        assert arrivals[..k + 1][..k] == arrivals[..k];
        ghost var before := View();
        HandleArrival(arrivals[k]);
        MovesBoth(old(View()), before, View());
        UntouchedBoth(old(View()), before, View());
      }
      assert arrivals[..|arrivals|] == arrivals;
      QuietStep(old(View()), View());
    }

    method HandleArrival(arrival: Arrival)
      requires Valid()
      modifies this`slots, this`nextConnectionId
      ensures Valid() && Moves(old(View()), View()) && Untouched(old(View()), View())
      ensures View() == Admit(old(View()), slotCounts, arrival)
    {
      LoseConnections(arrival.lostBefore);
      var live := ConnectedCount();
      if arrival.present && live < expectedCount {
        ghost var before := View();
        AcceptOne(arrival.initialises);
        MovesBoth(old(View()), before, View());
        UntouchedBoth(old(View()), before, View());
      }
    }

    /** The identity is used up even when the Services of the new connection do not come up. */
    method AcceptOne(initialises: bool)
      requires Valid() && LiveCount(slots) < expectedCount
      modifies this`slots, this`nextConnectionId
      ensures Valid() && Moves(old(View()), View()) && Untouched(old(View()), View())
      ensures View() == Adopted(old(View()), slotCounts, initialises)
    {
      AdoptedMoves(View(), slotCounts, initialises);
      AdoptedUntouched(View(), slotCounts, initialises);
      TakeIdentity(initialises);
    }

    method TakeIdentity(initialises: bool)
      modifies this`slots, this`nextConnectionId
      ensures View() == Adopted(old(View()), slotCounts, initialises)
    {
      var slot := Slot(nextConnectionId, NewServices(slotCounts), false, false, false, false);
      nextConnectionId := nextConnectionId + 1;
      if initialises { slots := slots + [slot]; }
    }

    /** Erases the pending owners of a lost connection; no discard ever fails. */
    method DiscardPending(i: nat) returns (hasActiveOwner: bool, discardFailed: bool)
      requires Valid() && i < |slots| && slots[i].disconnected && !slots[i].processed
      modifies this`slots, this`owners
      ensures Valid() && Moves(old(View()), View()) && !discardFailed
      ensures |slots| == |old(slots)| && slots[i] == old(slots[i]).(server := slots[i].server)
      ensures forall k | 0 <= k < |slots| && k != i :: slots[k] == old(slots[k])
      ensures OnlyPendingGone(old(owners), owners, slots[i].conn)
      ensures hasActiveOwner <==> exists o :: o in owners && o.conn == slots[i].conn
      ensures SameContexts(old(slots[i]).server, slots[i].server)
    {
      MovesItself(View());
      hasActiveOwner, discardFailed := false, false;
      ghost var conn := slots[i].conn;
      var k := 0;
      while k < |owners|
        invariant Valid() && Moves(old(View()), View()) && !discardFailed
        invariant |slots| == |old(slots)| && slots[i] == old(slots[i]).(server := slots[i].server)
        invariant forall j | 0 <= j < |slots| && j != i :: slots[j] == old(slots[j])
        invariant Swept(old(owners), owners, conn, k, hasActiveOwner)
        invariant SameContexts(old(slots[i]).server, slots[i].server)
        decreases |owners| - k
      {
        SweepOne(old(owners), owners, conn, k, hasActiveOwner);
        if owners[k].conn != slots[i].conn {
          k := k + 1;
        } else if owners[k].state == Active {
          hasActiveOwner := true;
          k := k + 1;
        } else {
          ghost var before := View();
          var failed := DiscardOne(i, k);
          discardFailed := discardFailed || failed;
          MovesBoth(old(View()), before, View());
        }
      }
      SweptAll(old(owners), owners, conn, hasActiveOwner);
    }

    method DiscardOne(i: nat, k: nat) returns (failed: bool)
      requires Valid() && i < |slots| && slots[i].disconnected && !slots[i].processed
      requires k < |owners| && owners[k].conn == slots[i].conn && owners[k].state == Pending
      modifies this`slots, this`owners
      ensures Valid() && Moves(old(View()), View()) && !failed
      ensures |slots| == |old(slots)| && slots[i] == old(slots[i]).(server := slots[i].server)
      ensures forall j | 0 <= j < |slots| && j != i :: slots[j] == old(slots[j])
      ensures owners == old(owners)[..k] + old(owners)[k + 1..]
      ensures SameContexts(old(slots[i]).server, slots[i].server)
    {
      DiscardMoves(View(), i, k);
      DiscardSameContexts(slots[i], owners[k].action, owners[k].goal);
      failed := EraseOwner(i, k);
    }

    method EraseOwner(i: nat, k: nat) returns (failed: bool)
      requires i < |slots| && k < |owners| && owners[k].action < |slots[i].server.actions|
      modifies this`slots, this`owners
      ensures failed == !V.DiscardPendingGoal(old(slots[i]).server.actions[old(owners[k]).action],
                                              old(owners[k]).goal).ok
      ensures slots == old(slots)[i := After(old(slots[i]), old(owners[k]).action, V.OpDiscard(old(owners[k]).goal))]
      ensures owners == old(owners)[..k] + old(owners)[k + 1..]
    {
      var r := V.DiscardPendingGoal(slots[i].server.actions[owners[k].action], owners[k].goal);
      slots := slots[i := slots[i].(server := V.Lift(slots[i].server, owners[k].action, r))];
      failed := !r.ok;
      owners := owners[..k] + owners[k + 1..];
    }

    method ProcessLostSlot(i: nat) returns (discardFailed: bool)
      requires Valid() && i < |slots| && slots[i].disconnected && !slots[i].processed
      modifies this`slots, this`owners
      ensures Valid() && Moves(old(View()), View()) && !discardFailed
      ensures |slots| == |old(slots)| && slots[i].conn == old(slots[i]).conn && Laid(old(slots[i]).server, slots[i])
      ensures forall k | 0 <= k < |slots| && k != i :: slots[k] == old(slots[k])
      ensures OnlyPendingGone(old(owners), owners, slots[i].conn)
      ensures nextConnectionId == old(nextConnectionId)
    {
      var hasActiveOwner;
      hasActiveOwner, discardFailed := DiscardPending(i);
      ghost var before := View();
      LaidOut(before, i, old(slots[i]).server);
      var quiet := V.StopAll(slots[i].server);
      if hasActiveOwner { Orphan(i, quiet, old(slots[i]).server); } else { Retire(i, quiet); }
      MovesBoth(old(View()), before, View());
    }

    /** Its Goals are told that their connection is gone. */
    method Orphan(i: nat, quiet: V.Services, ghost before: V.Services)
      requires Valid() && i < |slots| && slots[i].disconnected && !slots[i].processed
      requires forall o | o in owners && o.conn == slots[i].conn :: o.state == Active
      requires exists o :: o in owners && o.conn == slots[i].conn
      requires quiet == V.StopAll(slots[i].server) && Quiet(quiet) && quiet.runtimeEvents == []
      requires SameContexts(before, quiet)
      modifies this`slots
      ensures Valid() && Moves(old(View()), View()) && Told(before, slots[i].server)
      ensures slots == old(slots)[i := old(slots[i]).(server := slots[i].server, processed := true, orphaned := true)]
    {
      var server := QueueRuntimeCancels(quiet);
      NotifiedIsTold(before, quiet, server);
      OrphanMoves(View(), i, server);
      slots := slots[i := slots[i].(server := server, processed := true, orphaned := true)];
    }

    method Retire(i: nat, quiet: V.Services)
      requires Valid() && i < |slots| && slots[i].disconnected && !slots[i].processed
      requires (forall o | o in owners :: o.conn != slots[i].conn) && quiet == V.StopAll(slots[i].server)
      modifies this`slots
      ensures Valid() && Moves(old(View()), View()) && Goals(slots[i].server) == {}
      ensures slots == old(slots)[i := old(slots[i]).(server := slots[i].server, processed := true, retired := true)]
    {
      RetireMoves(View(), i);
      ClearedHasNoGoals(quiet);
      slots := slots[i := slots[i].(server := V.ClearAll(quiet), processed := true, retired := true)];
    }

    /** Afterwards every lost connection is orphaned or retired, and only their pending owners are gone. */
    method ProcessDisconnected() returns (discardFailed: bool)
      requires Valid()
      modifies this`slots, this`owners
      ensures Valid() && Moves(old(View()), View()) && !discardFailed
      ensures |slots| == |old(slots)| && AllProcessed(View())
      ensures forall i | 0 <= i < |slots| :: !slots[i].disconnected ==> slots[i] == old(slots[i])
      ensures Untouched(old(View()), View())
      ensures R.Sifted(old(owners), owners) && SweptBy(old(View()), {}, View())
    {
      SweptUpToStart(View());
      discardFailed := false;
      for i := 0 to |slots|
        invariant Valid() && !discardFailed && |slots| == |old(slots)| && SweptUpTo(old(View()), View(), i)
      {
        if slots[i].disconnected && !slots[i].processed {
          ghost var before := View();
          var failed := ProcessLostSlot(i);
          discardFailed := discardFailed || failed;
          SweptUpToNext(old(View()), before, View(), i);
        } else {
          SweptUpToSkip(old(View()), View(), i);
        }
      }
      LiveUntouched(old(View()), View());
      SweepingDone(old(View()), View());
    }

    // ----- polling -----

    /** One slot's turn in a poll; `event` is empty when the next slot gets its turn. */
    method PollSlot(i: nat, rejectSent: bool) returns (event: V.Event, wires: seq<Wire>)
      requires i < |slots|
      modifies this`slots, this`owners
      ensures Turned(View(), event, wires) == Turn(old(View()), i, rejectSent)
    {
      var (server, candidate, replies) := V.Poll(slots[i].server);
      wires := OnConnection(slots[i].conn, replies);
      slots := slots[i := slots[i].(server := server)];
      if !candidate.GoalRequest? { return candidate, wires; }
      var owner := FindOwner(candidate.action, candidate.goal);
      if owner.Some? {
        var rejects := RejectDuplicate(i, candidate.action, candidate.goal, rejectSent);
        return V.NoEvent, wires + rejects;
      }
      owners := owners + [Owner(candidate.action, candidate.goal, slots[i].conn, Pending)];
      event := candidate;
    }

    method RejectDuplicate(i: nat, action: nat, goal: GoalId, sent: bool) returns (wires: seq<Wire>)
      requires i < |slots|
      modifies this`slots
      ensures (View(), wires) == Duplicate(old(View()), i, action, goal, sent)
    {
      if action >= |slots[i].server.actions| { return []; }
      var r := V.RejectGoal(slots[i].server.actions[action], goal, sent);
      slots := slots[i := slots[i].(server := V.Lift(slots[i].server, action, r))];
      wires := if r.attempt.Some? then [Wire(slots[i].conn, action, r.attempt.value)] else [];
    }

    /** Some connections drop, and `process_disconnected_` runs. */
    method Sweep(lost: set<nat>)
      requires Valid()
      modifies this`slots, this`owners
      ensures Valid() && Moves(old(View()), View()) && AllProcessed(View())
      ensures R.Sifted(old(owners), owners) && Untouched(old(View()), View()) && SweptBy(old(View()), lost, View())
    {
      LoseConnections(lost);
      ghost var before := View();
      var failed := ProcessDisconnected();
      LostAndSwept(old(View()), lost, View());
      MovesBoth(old(View()), before, View());
      UntouchedBoth(old(View()), before, View());
    }

    /** Each slot gets its turn until one yields an event. */
    method PollSlots(rejectSent: set<nat>) returns (r: Polled)
      requires Valid() && AllProcessed(View())
      modifies this`slots, this`owners
      ensures Valid() && Finished(old(View()), View(), r.event, r.conn, r.wires)
      ensures r.event.RuntimeCancelRequest? ==> Reported(r.event, r.conn)
      ensures RoundIs(old(View()), rejectSent, r, View())
    {
      r := GiveTurns(rejectSent);
      RoundKeeps(old(View()), rejectSent, r, View());
      RoundTells(old(View()), rejectSent, r, View());
    }

    /** The loop over the slots; a retired slot gets no turn. */
    method GiveTurns(rejectSent: set<nat>) returns (r: Polled)
      modifies this`slots, this`owners
      ensures var x := Rounds(old(View()), 0, rejectSent, []);
              && r.event == x.event && r.wires == x.wires && View() == x.next
              && (x.event != V.NoEvent ==> x.at < |x.next.slots| && r.conn == x.next.slots[x.at].conn)
    {
      r := Polled(V.NoEvent, 0, []);
      var i := 0;
      while i < |slots|
        invariant i <= |slots| && r.event == V.NoEvent
        invariant Rounds(old(View()), 0, rejectSent, []) == Rounds(View(), i, rejectSent, r.wires)
        decreases |slots| - i
      {
        if !slots[i].retired {
          TurnFrame(View(), i, slots[i].conn in rejectSent);
          var event, wires := PollSlot(i, slots[i].conn in rejectSent);
          r := Polled(event, slots[i].conn, r.wires + wires);
          if event != V.NoEvent { return; }
        }
        i := i + 1;
      }
    }

    /** The reported runtime cancel is delivered and waits for its decision on this connection. */
    ghost predicate Reported(event: V.Event, conn: nat)
      requires event.RuntimeCancelRequest?
      reads this
    {
      && Delivered(View(), event.action, event.goal) && R.CancelWaits(View(), event.action, event.goal)
      && Owner(event.action, event.goal, conn, Active) in owners
    }

    /**
     * Polls the slots in order until one yields an event.  A Goal Request that is surfaced has become
     * a pending owner of its connection; a runtime cancel that is reported is delivered and waits for its
     * decision; accepted Goals are never lost or gained; every loss known to the poll is processed; and
     * whatever the poll sends is the REJECT of a request on the connection that request came from.
     */
    method Poll(w: Weather) returns (r: Polled, ghost swept: Mux)
      requires Valid()
      modifies this`slots, this`owners, this`nextConnectionId
      ensures Valid() && Moves(old(View()), View()) && R.Step(old(View()), LabelOf(r), View())
      ensures !started ==> r == Polled(V.NoEvent, 0, []) && View() == old(View())
      ensures started ==>
                && AllProcessed(View()) && Decides(swept, 0, Rounds(swept, 0, w.rejectSent, []))
                && Passes(old(View()), slotCounts, Pass(w, swept, r.event, r.conn, r.wires), View())
    {
      swept := View();
      if !started {
        MovesItself(View());
        QuietStep(View(), View());
        return Polled(V.NoEvent, 0, []), View();
      }
      r, swept := PollStarted(w);
    }

    method PollStarted(w: Weather) returns (r: Polled, ghost swept: Mux)
      requires Valid()
      modifies this`slots, this`owners, this`nextConnectionId
      ensures Valid() && Moves(old(View()), View()) && R.Step(old(View()), LabelOf(r), View()) && AllProcessed(View())
      ensures Decides(swept, 0, Rounds(swept, 0, w.rejectSent, []))
      ensures Passes(old(View()), slotCounts, Pass(w, swept, r.event, r.conn, r.wires), View())
    {
      AdoptAndSweep(w);
      swept := View();
      r := PollAndSweep(w);
      PollMoves(old(View()), swept, View(), r);
    }

    method AdoptAndSweep(w: Weather)
      requires Valid()
      modifies this`slots, this`owners, this`nextConnectionId
      ensures Valid() && Moves(old(View()), View()) && AllProcessed(View())
      ensures R.Sifted(old(owners), owners) && Untouched(old(View()), View())
      ensures SweptBy(AdmitAll(old(View()), slotCounts, w.arrivals), w.lostFirst, View())
    {
      AcceptNewConnections(w.arrivals);
      ghost var before := View();
      Sweep(w.lostFirst);
      MovesBoth(old(View()), before, View());
      UntouchedBoth(old(View()), before, View());
    }

    method PollAndSweep(w: Weather) returns (r: Polled)
      requires Valid() && AllProcessed(View())
      modifies this`slots, this`owners
      ensures Valid() && Moves(old(View()), View()) && AllProcessed(View())
      ensures forall x | x in r.wires :: Answers(old(View()), x)
      ensures if r.event.GoalRequest?
              then owners == old(owners) + [Owner(r.event.action, r.event.goal, r.conn, Pending)]
              else R.Sifted(old(owners), owners)
      ensures r.event.RuntimeCancelRequest? ==> Reported(r.event, r.conn)
      ensures var x := Rounds(old(View()), 0, w.rejectSent, []);
              && Decides(old(View()), 0, x) && r.event == x.event && r.wires == x.wires
              && (if x.event == V.NoEvent then SweptBy(x.next, w.lostLast, View())
                  else r.conn == old(View()).slots[x.at].conn && View() == x.next)
    {
      r := PollSlots(w.rejectSent);
      if r.event == V.NoEvent {
        ghost var before := View();
        Sweep(w.lostLast);
        MovesBoth(old(View()), before, View());
      }
    }
  }
}
