/** A run in which two connections send the same Goal ID and the REJECT of the second is not sent. */
module MuxDuplicate {
  import opened ActionTypes
  import opened MuxSpec
  import opened MuxCalls
  import opened MuxEvents
  import opened MuxLeftovers
  import opened MuxMoves
  import opened MuxServer
  import R = MuxRun
  import C = ClientEndpointSpec
  import E = ServerEndpointSpec
  import V = ServerServicesSpec

  /** One Action with one slot, in three states of a request. */
  function Empty(): V.Services { NewServices([1]) }

  function Asked(g: GoalId): V.Services {
    V.Services([V.Action(map[], E.Endpoint(true, 1, map[], [C.GoalRequestPacket(0, g, [])]))], [])
  }

  function Waiting(g: GoalId): V.Services {
    V.Services([V.Action(map[], E.Endpoint(true, 1, map[g := E.Binding(0, E.AwaitingGoalDecision, 0, false)], []))], [])
  }

  lemma EmptyIs()
    ensures Empty() == V.Services([V.Action(map[], E.Endpoint(true, 1, map[], []))], [])
  {
  }

  function Line(conn: nat, server: V.Services): Slot { Slot(conn, server, false, false, false, false) }

  /** Two connections, each with its own Services. */
  function Two(first: V.Services, second: V.Services, owners: seq<Owner>): Mux {
    Mux([Line(1, first), Line(2, second)], owners, 3, 2)
  }

  lemma AskedPolls(g: GoalId)
    requires ValidGoalId(g)
    ensures V.Poll(Asked(g)) == (Waiting(g), V.GoalRequest(0, g, []), [])
  {
    var a := Asked(g).actions[0];
    assert a.ep.inbox[1..] == [] && !E.SlotOwned(a.ep, 0);
    assert E.Poll(a.ep).next == Waiting(g).actions[0].ep;
    assert Asked(g).actions[0 := Waiting(g).actions[0]] == Waiting(g).actions;
  }

  lemma WaitingPolls(g: GoalId)
    ensures V.Poll(Waiting(g)) == (Waiting(g), V.NoEvent, [])
  {
    PollActionsQuiet(Waiting(g), 0, []);
  }

  lemma UnsentReject(g: GoalId)
    requires ValidGoalId(g)
    ensures var a := Waiting(g).actions[0];
            V.RejectGoal(a, g, false) == V.Outcome(a, false, Some(GoalResponse(0, g, Rejected)))
  {
  }

  // ----- the turns -----

  function FirstOwner(g: GoalId): Owner { Owner(0, g, 1, Pending) }

  lemma FirstTurn(g: GoalId)
    requires ValidGoalId(g)
    ensures Turn(Two(Asked(g), Asked(g), []), 0, false) ==
            Turned(Two(Waiting(g), Asked(g), [FirstOwner(g)]), V.GoalRequest(0, g, []), [])
  {
    AskedPolls(g);
    var m := Two(Asked(g), Asked(g), []);
    assert m.slots[0 := Line(1, Waiting(g))] == Two(Waiting(g), Asked(g), []).slots;
    assert m.owners + [FirstOwner(g)] == [FirstOwner(g)];
  }

  lemma IdleTurn(g: GoalId)
    ensures Turn(Two(Waiting(g), Asked(g), [FirstOwner(g)]), 0, false) ==
            Turned(Two(Waiting(g), Asked(g), [FirstOwner(g)]), V.NoEvent, [])
  {
    WaitingPolls(g);
    var m := Two(Waiting(g), Asked(g), [FirstOwner(g)]);
    assert m.slots[0 := Line(1, Waiting(g))] == m.slots;
  }

  function LostReject(g: GoalId): Wire { Wire(2, 0, GoalResponse(0, g, Rejected)) }

  lemma SecondTurn(g: GoalId)
    requires ValidGoalId(g)
    ensures Turn(Two(Waiting(g), Asked(g), [FirstOwner(g)]), 1, false) ==
            Turned(Two(Waiting(g), Waiting(g), [FirstOwner(g)]), V.NoEvent, [LostReject(g)])
  {
    AskedPolls(g);
    UnsentReject(g);
    var m := Two(Waiting(g), Asked(g), [FirstOwner(g)]);
    var end := Two(Waiting(g), Waiting(g), [FirstOwner(g)]);
    assert m.slots[1 := Line(2, Waiting(g))] == end.slots && end.slots[1 := end.slots[1]] == end.slots;
    assert Waiting(g).actions[0 := Waiting(g).actions[0]] == Waiting(g).actions;
    assert OwnerIndex([FirstOwner(g)], 0, g) == Some(0);
    assert [] + [LostReject(g)] == [LostReject(g)];
  }

  // ----- the steps -----

  const NOBODY: Mux := Mux([], [], 1, 2)

  const ONE: Mux := Mux([Line(1, Empty())], [], 2, 2)

  lemma FirstArrival()
    ensures Inv(NOBODY) && R.Step(NOBODY, QUIET, ONE)
  {
    assert Adopted(NOBODY, [1], true) == ONE;
    AdoptedMoves(NOBODY, [1], true);
    QuietStep(NOBODY, ONE);
  }

  lemma SecondArrival()
    requires Inv(ONE)
    ensures R.Step(ONE, QUIET, Two(Empty(), Empty(), []))
  {
    assert LiveCount(ONE.slots) == 1 by { assert ONE.slots[..0] == []; }
    assert Adopted(ONE, [1], true).slots == [Line(1, Empty()), Line(2, Empty())];
    AdoptedMoves(ONE, [1], true);
    QuietStep(ONE, Two(Empty(), Empty(), []));
  }

  lemma PacketStep(m: Mux, i: nat, g: GoalId, n: Mux)
    requires Inv(m) && i < |m.slots| && m.slots[i].server == Empty() && !m.slots[i].disconnected
    requires n == m.(slots := m.slots[i := m.slots[i].(server := Asked(g))])
    ensures R.Step(m, QUIET, n)
  {
    EmptyIs();
    var p := C.GoalRequestPacket(0, g, []);
    PacketMoves(m, i, 0, p);
    assert E.Receive(Empty().actions[0].ep, p) == Asked(g).actions[0].ep by { assert [] + [p] == [p]; }
    assert Empty().actions[0 := Asked(g).actions[0]] == Asked(g).actions;
    QuietStep(m, n);
  }

  lemma Requests(g: GoalId)
    requires Inv(Two(Empty(), Empty(), []))
    ensures R.Step(Two(Empty(), Empty(), []), QUIET, Two(Asked(g), Empty(), []))
    ensures R.Step(Two(Asked(g), Empty(), []), QUIET, Two(Asked(g), Asked(g), []))
  {
    var m := Two(Empty(), Empty(), []);
    var n := Two(Asked(g), Empty(), []);
    assert m.slots[0 := Line(1, Asked(g))] == n.slots;
    PacketStep(m, 0, g, n);
    assert n.slots[1 := Line(2, Asked(g))] == Two(Asked(g), Asked(g), []).slots;
    PacketStep(n, 1, g, Two(Asked(g), Asked(g), []));
  }

  lemma FirstPoll(g: GoalId)
    requires ValidGoalId(g) && Inv(Two(Asked(g), Asked(g), []))
    ensures R.Step(Two(Asked(g), Asked(g), []), R.Surfaced(0, g, 1, []), Two(Waiting(g), Asked(g), [FirstOwner(g)]))
  {
    var m := Two(Asked(g), Asked(g), []);
    HalfwayStart(m);
    TurnNext(m, m, 0, [], false);
    FirstTurn(g);
    MovesItself(m);
    PollMoves(m, m, Two(Waiting(g), Asked(g), [FirstOwner(g)]), Polled(V.GoalRequest(0, g, []), 1, []));
  }

  lemma IdleFirst(m: Mux)
    requires Inv(m) && AllProcessed(m) && m.slots != [] && Turn(m, 0, false) == Turned(m, V.NoEvent, [])
    ensures Halfway(m, m, 1, [])
  {
    HalfwayStart(m);
    TurnNext(m, m, 0, [], false);
  }

  /** Two slots' turns, neither of which yields an event. */
  lemma TwoTurns(m: Mux, n: Mux, wires: seq<Wire>)
    requires Inv(m) && AllProcessed(m) && |m.slots| == 2
    requires Turn(m, 0, false) == Turned(m, V.NoEvent, []) && Turn(m, 1, false) == Turned(n, V.NoEvent, wires)
    ensures Finished(m, n, V.NoEvent, 0, wires)
  {
    IdleFirst(m);
    TurnNext(m, m, 1, [], false);
    assert [] + wires == wires;
    HalfwayEnd(m, n, wires, 0);
  }

  lemma SecondPollTurns(g: GoalId)
    requires ValidGoalId(g) && Inv(Two(Waiting(g), Asked(g), [FirstOwner(g)]))
    ensures var m := Two(Waiting(g), Asked(g), [FirstOwner(g)]);
            Finished(m, Two(Waiting(g), Waiting(g), [FirstOwner(g)]), V.NoEvent, 0, [LostReject(g)])
  {
    IdleTurn(g);
    SecondTurn(g);
    TwoTurns(Two(Waiting(g), Asked(g), [FirstOwner(g)]), Two(Waiting(g), Waiting(g), [FirstOwner(g)]), [LostReject(g)]);
  }

  lemma SecondPoll(g: GoalId)
    requires ValidGoalId(g) && Inv(Two(Waiting(g), Asked(g), [FirstOwner(g)]))
    ensures R.Step(Two(Waiting(g), Asked(g), [FirstOwner(g)]), R.Network([LostReject(g)]),
                   Two(Waiting(g), Waiting(g), [FirstOwner(g)]))
  {
    var m := Two(Waiting(g), Asked(g), [FirstOwner(g)]);
    SecondPollTurns(g);
    MovesItself(m);
    PollMoves(m, m, Two(Waiting(g), Waiting(g), [FirstOwner(g)]), Polled(V.NoEvent, 0, [LostReject(g)]));
  }

  lemma StepInv(m: Mux, l: R.Label, n: Mux)
    requires R.Step(m, l, n)
    ensures Inv(n)
  {
  }

  lemma SecondIsForsaken(g: GoalId)
    ensures var end := Two(Waiting(g), Waiting(g), [FirstOwner(g)]);
            Forsaken(end, 1, 0, g) && !end.slots[1].processed && HadOwner(end.owners, 0, g, 1)
  {
    var end := Two(Waiting(g), Waiting(g), [FirstOwner(g)]);
    assert end.slots[1] == Line(2, Waiting(g)) && end.owners == [FirstOwner(g)];
  }

  lemma StepKept(states: seq<Mux>, labels: seq<R.Label>, l: R.Label, n: Mux, i: nat)
    requires |states| == |labels| + 1 && i < |labels| && R.Steps(states, labels, i)
    ensures R.Steps(states + [n], labels + [l], i)
  {
    assert (states + [n])[i] == states[i] && (states + [n])[i + 1] == states[i + 1] && (labels + [l])[i] == labels[i];
  }

  lemma StepAdded(states: seq<Mux>, labels: seq<R.Label>, l: R.Label, n: Mux)
    requires |states| == |labels| + 1 && R.Step(states[|labels|], l, n)
    ensures R.Steps(states + [n], labels + [l], |labels|)
  {
    var k := |labels|;
    assert (states + [n])[k] == states[k] && (states + [n])[k + 1] == n && (labels + [l])[k] == l;
  }

  lemma AllKept(states: seq<Mux>, labels: seq<R.Label>, l: R.Label, n: Mux)
    requires R.IsRun(states, labels)
    ensures forall i | 0 <= i < |labels| :: R.Steps(states + [n], labels + [l], i)
  {
    forall i | 0 <= i < |labels| ensures R.Steps(states + [n], labels + [l], i) { StepKept(states, labels, l, n, i); }
  }

  lemma OneMore(states: seq<Mux>, labels: seq<R.Label>, k: nat)
    requires |states| == |labels| + 1 && |labels| == k + 1
    requires (forall i | 0 <= i < k :: R.Steps(states, labels, i)) && R.Steps(states, labels, k)
    ensures R.StepsAll(states, labels)
  {
  }

  /** A run one step longer. */
  lemma Longer(states: seq<Mux>, labels: seq<R.Label>, l: R.Label, n: Mux)
    requires R.IsRun(states, labels) && R.Step(states[|labels|], l, n)
    ensures R.IsRun(states + [n], labels + [l])
  {
    assert (states + [n])[0] == states[0];
    AllKept(states, labels, l, n);
    StepAdded(states, labels, l, n);
    OneMore(states + [n], labels + [l], |labels|);
  }

  lemma RunToArrivals() returns (states: seq<Mux>, labels: seq<R.Label>)
    ensures R.IsRun(states, labels) && |labels| == 2 && states[0] == NOBODY && states[2] == Two(Empty(), Empty(), [])
  {
    FirstArrival();
    StepInv(NOBODY, QUIET, ONE);
    SecondArrival();
    states, labels := [NOBODY], [];
    Longer(states, labels, QUIET, ONE);
    states, labels := states + [ONE], labels + [QUIET];
    Longer(states, labels, QUIET, Two(Empty(), Empty(), []));
    states, labels := states + [Two(Empty(), Empty(), [])], labels + [QUIET];
  }

  lemma RunToRequests(g: GoalId) returns (states: seq<Mux>, labels: seq<R.Label>)
    ensures R.IsRun(states, labels) && |labels| == 4 && states[0] == NOBODY && states[4] == Two(Asked(g), Asked(g), [])
  {
    var (one, both) := (Two(Asked(g), Empty(), []), Two(Asked(g), Asked(g), []));
    states, labels := RunToArrivals();
    R.RunInv(states, labels, 2);
    Requests(g);
    Longer(states, labels, QUIET, one);
    states, labels := states + [one], labels + [QUIET];
    Longer(states, labels, QUIET, both);
    states, labels := states + [both], labels + [QUIET];
  }

  /** The run ends with a binding on the second connection that nobody owns. */
  lemma UnsentRejectIsReached(g: GoalId) returns (states: seq<Mux>, labels: seq<R.Label>)
    requires ValidGoalId(g)
    ensures R.IsRun(states, labels) && states[0].owners == []
    ensures var end := states[|labels|];
            Forsaken(end, 1, 0, g) && !end.slots[1].processed && HadOwner(end.owners, 0, g, 1)
  {
    var (s5, s6) := (Two(Waiting(g), Asked(g), [FirstOwner(g)]), Two(Waiting(g), Waiting(g), [FirstOwner(g)]));
    states, labels := RunToRequests(g);
    R.RunInv(states, labels, 4);
    FirstPoll(g);
    Longer(states, labels, R.Surfaced(0, g, 1, []), s5);
    states, labels := states + [s5], labels + [R.Surfaced(0, g, 1, [])];
    R.RunInv(states, labels, 5);
    SecondPoll(g);
    Longer(states, labels, R.Network([LostReject(g)]), s6);
    states, labels := states + [s6], labels + [R.Network([LostReject(g)])];
    SecondIsForsaken(g);
  }

  /** While a binding waits, no request for its slot is surfaced from that connection either. */
  lemma SlotIsBlocked(ep: E.Endpoint, g: GoalId)
    requires g in ep.bindings && ep.inbox != []
    requires ep.inbox[0].slot == ep.bindings[g].slot || ep.inbox[0].goal == g
    ensures !E.Poll(ep).result.GoalRequest?
  {
    if ep.inbox[0].slot == ep.bindings[g].slot { assert E.SlotOwned(ep, ep.inbox[0].slot); }
  }
}
