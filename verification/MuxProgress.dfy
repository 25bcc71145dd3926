/**
 * No loss goes unnoticed: the runtime cancel of an accepted Goal whose connection was lost is reported after a
 * bounded number of polls, whatever else the network does in the meantime.
 */
module MuxProgress {
  import opened ActionTypes
  import opened MuxSpec
  import opened MuxCalls
  import opened MuxEvents
  import opened MuxMoves
  import opened MuxPolls
  import opened MuxSweeps
  import Tab = MuxTable
  import G = ServerGoalMachine
  import E = ServerEndpointSpec
  import CE = CancelEdges
  import P = ServerPolls
  import V = ServerServicesSpec

  // ----- how much a slot can still say -----

  /** Packets waiting in the queues of the Actions. */
  function Backlog(actions: seq<V.Action>): nat {
    if actions == [] then 0 else Backlog(actions[..|actions| - 1]) + |actions[|actions| - 1].ep.inbox|
  }

  /** Packets, and the runtime cancels that are queued or will be once the connection is lost. */
  function Work(slot: Slot): nat {
    if slot.retired then 0
    else Backlog(slot.server.actions) + if slot.processed then |slot.server.runtimeEvents| else |Goals(slot.server)|
  }

  function WorkUpTo(slots: seq<Slot>, n: nat): nat
    requires n <= |slots|
  {
    if n == 0 then 0 else WorkUpTo(slots, n - 1) + Work(slots[n - 1])
  }

  lemma {:induction false} BacklogLess(s: seq<V.Action>, t: seq<V.Action>)
    requires |t| == |s| && forall k | 0 <= k < |s| :: |t[k].ep.inbox| <= |s[k].ep.inbox|
    ensures Backlog(t) <= Backlog(s)
    ensures (exists k :: 0 <= k < |s| && |t[k].ep.inbox| < |s[k].ep.inbox|) ==> Backlog(t) < Backlog(s)
  {
    if s == [] {
    } else {
      var n := |s| - 1;
      BacklogLess(s[..n], t[..n]);
      if exists k :: 0 <= k < |s| && |t[k].ep.inbox| < |s[k].ep.inbox| {
        var k :| 0 <= k < |s| && |t[k].ep.inbox| < |s[k].ep.inbox|;
        if k < n { assert |t[..n][k].ep.inbox| < |s[..n][k].ep.inbox|; }
      }
    }
  }

  lemma {:induction false} BacklogSame(s: seq<V.Action>, t: seq<V.Action>)
    requires |t| == |s| && forall k | 0 <= k < |s| :: |t[k].ep.inbox| == |s[k].ep.inbox|
    ensures Backlog(t) == Backlog(s)
  {
    if s == [] {
    } else {
      BacklogSame(s[..|s| - 1], t[..|s| - 1]);
    }
  }

  lemma {:induction false} BacklogOne(s: seq<V.Action>, n: nat, a: V.Action)
    requires n < |s|
    ensures Backlog(s[n := a]) == Backlog(s) - |s[n].ep.inbox| + |a.ep.inbox|
  {
    var last := |s| - 1;
    if n == last {
      assert s[n := a][..last] == s[..last];
    } else {
      BacklogOne(s[..last], n, a);
      assert s[n := a][..last] == s[..last][n := a];
    }
  }

  lemma {:induction false} BacklogOfQuiet(actions: seq<V.Action>)
    requires forall k | 0 <= k < |actions| :: actions[k].ep.inbox == []
    ensures Backlog(actions) == 0
  {
    if actions == [] {
    } else {
      BacklogOfQuiet(actions[..|actions| - 1]);
    }
  }

  /** A queue without repetition is as long as the set it lists. */
  lemma {:induction false} UniqueCount(queue: seq<(nat, GoalId)>, all: set<(nat, GoalId)>)
    requires Unique(queue) && forall e :: e in queue <==> e in all
    ensures |queue| == |all|
  {
    if queue == [] {
      assert all == {};
    } else {
      var (rest, last) := (queue[..|queue| - 1], queue[|queue| - 1]);
      forall e ensures e in rest <==> e in all - {last} {
        if e in rest {
          var k :| 0 <= k < |rest| && rest[k] == e;
          assert queue[k] != last;
        }
        if e in all - {last} {
          var k :| 0 <= k < |queue| && queue[k] == e;
          assert rest[k] == e;
        }
      }
      UniqueCount(rest, all - {last});
      assert last in queue && all == (all - {last}) + {last};
    }
  }

  lemma {:induction false} WorkLess(s: seq<Slot>, t: seq<Slot>, n: nat)
    requires n <= |s| && n <= |t| && forall k | 0 <= k < n :: Work(t[k]) <= Work(s[k])
    ensures WorkUpTo(t, n) <= WorkUpTo(s, n)
    ensures forall k | 0 <= k < n && Work(t[k]) < Work(s[k]) :: WorkUpTo(t, n) < WorkUpTo(s, n)
  {
    if n == 0 {
    } else {
      WorkLess(s, t, n - 1);
    }
  }

  lemma {:induction false} WorkOne(s: seq<Slot>, t: seq<Slot>, i: nat, n: nat)
    requires n <= |s| == |t| && i < |s| && t == s[i := t[i]] && Work(t[i]) <= Work(s[i]) + 1
    ensures WorkUpTo(t, n) <= WorkUpTo(s, n) + 1
    ensures n <= i ==> WorkUpTo(t, n) == WorkUpTo(s, n)
  {
    if n == 0 {
    } else {
      WorkOne(s, t, i, n - 1);
    }
  }

  // ----- a turn only uses work up -----

  lemma PolledActionShorter(a: V.Action, n: nat)
    requires V.Simulates(a)
    ensures var (b, e, _) := V.PollAction(a, n);
            && |b.ep.inbox| <= |a.ep.inbox| && (e != V.NoEvent ==> |b.ep.inbox| < |a.ep.inbox|)
            && b.goals.Keys == a.goals.Keys
  {
    P.PollActionExactly(a, n);
  }

  lemma {:induction false} BehindShorter(s: V.Services, queue: seq<(nat, GoalId)>)
    requires CE.FirstHandled(s, queue).Some?
    ensures |CE.Behind(s, queue)| < |queue|
  {
    if CE.Skipped(s, queue[0]) { BehindShorter(s, queue[1..]); }
  }

  lemma SameKeysSameGoals(s: V.Services, t: V.Services)
    requires |t.actions| == |s.actions|
    requires forall k | 0 <= k < |s.actions| :: t.actions[k].goals.Keys == s.actions[k].goals.Keys
    ensures Goals(t) == Goals(s)
  {
    forall a: nat, g ensures (a, g) in Goals(t) <==> (a, g) in Goals(s) {}
  }

  /** What the Services of a slot have left after a poll. */
  function Left(s: V.Services): nat { Backlog(s.actions) + |s.runtimeEvents| }

  lemma RuntimePollUses(s: V.Services)
    requires CE.Sims(s) && CE.FirstHandled(s, s.runtimeEvents).Some?
    ensures Left(V.Poll(s).0) < Left(s) && Goals(V.Poll(s).0) == Goals(s)
    ensures Backlog(V.Poll(s).0.actions) == Backlog(s.actions)
  {
    P.PollExactly(s);
    var t := V.Poll(s).0;
    BehindShorter(s, s.runtimeEvents);
    BacklogSame(s.actions, t.actions);
    SameKeysSameGoals(s, t);
  }

  lemma PacketPollUses(s: V.Services)
    requires CE.Sims(s) && CE.FirstHandled(s, s.runtimeEvents).None?
    ensures var (t, e, _) := V.Poll(s);
            && Goals(t) == Goals(s) && t.runtimeEvents == []
            && Backlog(t.actions) <= Backlog(s.actions) && (e != V.NoEvent ==> Backlog(t.actions) < Backlog(s.actions))
  {
    P.PollExactly(s);
    var (t, e, _) := V.Poll(s);
    forall k | 0 <= k < |s.actions|
      ensures |t.actions[k].ep.inbox| <= |s.actions[k].ep.inbox| && t.actions[k].goals.Keys == s.actions[k].goals.Keys
    {
      assert V.Simulates(s.actions[k]);
      PolledActionShorter(s.actions[k], k);
    }
    BacklogLess(s.actions, t.actions);
    SameKeysSameGoals(s, t);
    if e != V.NoEvent {
      assert V.Simulates(s.actions[e.action]);
      P.PollActionExactly(s.actions[e.action], e.action);
      PolledActionShorter(s.actions[e.action], e.action);
      assert |t.actions[e.action].ep.inbox| < |s.actions[e.action].ep.inbox|;
    }
  }

  lemma PollUses(slot: Slot)
    requires SlotOk(slot) && !slot.retired
    ensures Work(PolledSlot(slot)) <= Work(slot)
    ensures V.Poll(slot.server).1 != V.NoEvent ==> Work(PolledSlot(slot)) < Work(slot)
  {
    assert CE.Sims(slot.server);
    if CE.FirstHandled(slot.server, slot.server.runtimeEvents).Some? {
      RuntimePollUses(slot.server);
    } else {
      PacketPollUses(slot.server);
    }
  }

  lemma RejectKeepsWork(slot: Slot, action: nat, goal: GoalId, sent: bool)
    requires action < |slot.server.actions|
    ensures Work(After(slot, action, V.OpRejectGoal(goal, sent))) == Work(slot)
  {
    var next := After(slot, action, V.OpRejectGoal(goal, sent));
    BacklogSame(slot.server.actions, next.server.actions);
    SameKeysSameGoals(slot.server, next.server);
  }

  lemma TurnUses(m: Mux, i: nat, sent: bool)
    requires Inv(m) && i < |m.slots| && !m.slots[i].retired
    ensures var t := Turn(m, i, sent);
            && i < |t.next.slots| && Work(t.next.slots[i]) <= Work(m.slots[i])
            && (t.event != V.NoEvent ==> Work(t.next.slots[i]) < Work(m.slots[i]))
  {
    assert SlotOk(m.slots[i]);
    PollUses(m.slots[i]);
    var e := V.Poll(m.slots[i].server).1;
    if e.GoalRequest? && OwnerIndex(m.owners, e.action, e.goal).Some? {
      var polled := m.(slots := m.slots[i := PolledSlot(m.slots[i])]);
      RequestIsNew(m, i);
      DuplicateIs(polled, i, e.action, e.goal, sent);
      RejectKeepsWork(polled.slots[i], e.action, e.goal, sent);
    }
  }

  lemma TurnUsesAll(m: Mux, i: nat, sent: bool)
    requires Inv(m) && i < |m.slots| && !m.slots[i].retired
    ensures var t := Turn(m, i, sent);
            && |t.next.slots| == |m.slots| && (forall k | 0 <= k < |m.slots| && k != i :: t.next.slots[k] == m.slots[k])
            && (forall k | 0 <= k < |m.slots| :: Work(t.next.slots[k]) <= Work(m.slots[k]))
            && (t.event != V.NoEvent ==> Work(t.next.slots[i]) < Work(m.slots[i]))
  {
    TurnUses(m, i, sent);
    TurnFrame(m, i, sent);
  }

  /** Slots have at most the work they had; the one that yielded has less, and those behind it are as they were. */
  ghost predicate Used(m: Mux, r: Round) {
    && |r.next.slots| == |m.slots|
    && (forall k | 0 <= k < |m.slots| :: Work(r.next.slots[k]) <= Work(m.slots[k]))
    && (r.event != V.NoEvent ==>
          && r.at < |m.slots| && Work(r.next.slots[r.at]) < Work(m.slots[r.at])
          && forall k | r.at < k < |m.slots| :: r.next.slots[k] == m.slots[k])
  }

  lemma UsedLater(m: Mux, n: Mux, i: nat, r: Round)
    requires i < |m.slots| == |n.slots| && Used(n, r) && (r.event != V.NoEvent ==> i < r.at)
    requires forall k | 0 <= k < |m.slots| && k != i :: n.slots[k] == m.slots[k]
    requires Work(n.slots[i]) <= Work(m.slots[i])
    ensures Used(m, r)
  {
    forall k | 0 <= k < |m.slots| ensures Work(r.next.slots[k]) <= Work(m.slots[k]) {
      assert Work(r.next.slots[k]) <= Work(n.slots[k]);
    }
  }

  lemma {:induction false} RoundsFrom(m: Mux, i: nat, rejectSent: set<nat>, wires: seq<Wire>)
    ensures Rounds(m, i, rejectSent, wires).event != V.NoEvent ==> i <= Rounds(m, i, rejectSent, wires).at
    decreases |m.slots| - i
  {
    if i >= |m.slots| {
    } else if m.slots[i].retired {
      RoundsFrom(m, i + 1, rejectSent, wires);
    } else {
      var t := Turn(m, i, m.slots[i].conn in rejectSent);
      TurnFrame(m, i, m.slots[i].conn in rejectSent);
      if t.event == V.NoEvent { RoundsFrom(t.next, i + 1, rejectSent, wires + t.wires); }
    }
  }

  /** A round uses work up where it had a turn, and touches no slot behind the one that yielded. */
  lemma {:induction false} RoundsUse(m: Mux, i: nat, rejectSent: set<nat>, wires: seq<Wire>)
    requires Inv(m)
    ensures Used(m, Rounds(m, i, rejectSent, wires))
    decreases |m.slots| - i
  {
    if i >= |m.slots| {
    } else if m.slots[i].retired {
      RoundsUse(m, i + 1, rejectSent, wires);
    } else {
      var sent := m.slots[i].conn in rejectSent;
      var t := Turn(m, i, sent);
      TurnUsesAll(m, i, sent);
      if t.event == V.NoEvent {
        QuietTurn(m, i, sent);
        RoundsUse(t.next, i + 1, rejectSent, wires + t.wires);
        RoundsFrom(t.next, i + 1, rejectSent, wires + t.wires);
        UsedLater(m, t.next, i, Rounds(t.next, i + 1, rejectSent, wires + t.wires));
      }
    }
  }

  // ----- the Goal whose loss is to be reported -----

  /** The Goal runs on a lost connection, and the runtime has not yet asked for its cancel decision. */
  ghost predicate Unreported(m: Mux, i: nat, a: nat, g: GoalId) {
    && i < |m.slots| && m.slots[i].disconnected && !m.slots[i].retired && Holds(m.slots[i], a, g)
    && m.slots[i].server.actions[a].goals[g].state == Executing
    && m.slots[i].server.actions[a].goals[g].origin != G.FromRuntime
    && (m.slots[i].processed ==> (a, g) in m.slots[i].server.runtimeEvents)
  }

  lemma {:induction false} FirstOrBehind(s: V.Services, queue: seq<(nat, GoalId)>, e: (nat, GoalId))
    requires e in queue && !CE.Skipped(s, e)
    ensures CE.FirstHandled(s, queue).Some?
    ensures CE.FirstHandled(s, queue) == Some(e) || e in CE.Behind(s, queue)
  {
    if CE.Skipped(s, queue[0]) {
      assert e in queue[1..];
      FirstOrBehind(s, queue[1..], e);
    } else if e != queue[0] {
      assert e in queue[1..];
    }
  }

  /** The turn of the slot itself: the report, or another one and the Goal's own stays queued. */
  lemma OwnTurn(m: Mux, i: nat, sent: bool, a: nat, g: GoalId)
    requires Inv(m) && Unreported(m, i, a, g) && m.slots[i].processed
    ensures var t := Turn(m, i, sent);
            t.event == V.RuntimeCancelRequest(a, g) || (t.event != V.NoEvent && Unreported(t.next, i, a, g))
  {
    var s := m.slots[i].server;
    assert SlotOk(m.slots[i]);
    assert CE.Sims(s);
    FirstOrBehind(s, s.runtimeEvents, (a, g));
    P.PollExactly(s);
  }

  /** Before that slot's turn every other turn leaves it alone, and after it nobody has a turn. */
  lemma {:induction false} RoundsReach(
    m: Mux, k: nat, rejectSent: set<nat>, wires: seq<Wire>, i: nat, a: nat, g: GoalId)
    requires Inv(m) && k <= i && Unreported(m, i, a, g) && m.slots[i].processed
    ensures var r := Rounds(m, k, rejectSent, wires);
            && r.event != V.NoEvent && r.at <= i
            && (Unreported(r.next, i, a, g) || (r.event == V.RuntimeCancelRequest(a, g) && r.at == i))
    decreases |m.slots| - k
  {
    var sent := m.slots[k].conn in rejectSent;
    if k == i {
      OwnTurn(m, i, sent, a, g);
    } else if m.slots[k].retired {
      RoundsReach(m, k + 1, rejectSent, wires, i, a, g);
    } else {
      TurnFrame(m, k, sent);
      var t := Turn(m, k, sent);
      assert t.next.slots[i] == m.slots[i];
      if t.event == V.NoEvent {
        QuietTurn(m, k, sent);
        RoundsReach(t.next, k + 1, rejectSent, wires + t.wires, i, a, g);
      }
    }
  }

  // ----- sweeps and arrivals -----

  lemma WanesUses(x: Slot, y: Slot)
    requires Wanes(x, y) && SlotOk(x)
    ensures Work(y) <= Work(x)
  {
    if !x.processed && y.processed && y.orphaned && !y.retired {
      BacklogOfQuiet(y.server.actions);
      UniqueCount(y.server.runtimeEvents, Goals(x.server));
    }
  }

  lemma WanesUnreported(m: Mux, n: Mux, i: nat, a: nat, g: GoalId)
    requires Unreported(m, i, a, g) && i < |n.slots| && Wanes(m.slots[i], n.slots[i])
    ensures Unreported(n, i, a, g)
  {
    assert (a, g) in Goals(m.slots[i].server);
  }

  lemma AdmitIs(m: Mux, slotCounts: seq<nat>, arrival: Arrival, i: nat)
    requires i < |m.slots| && SlotOk(m.slots[i])
    ensures var n := Admit(m, slotCounts, arrival);
            i < |n.slots| && Wanes(m.slots[i], n.slots[i]) && SlotOk(n.slots[i])
  {
  }

  lemma {:induction false} AdmitAllIs(m: Mux, slotCounts: seq<nat>, arrivals: seq<Arrival>, i: nat)
    requires i < |m.slots| && SlotOk(m.slots[i])
    ensures var n := AdmitAll(m, slotCounts, arrivals);
            i < |n.slots| && Wanes(m.slots[i], n.slots[i]) && SlotOk(n.slots[i])
  {
    if arrivals == [] {
    } else {
      var before := arrivals[..|arrivals| - 1];
      AdmitAllIs(m, slotCounts, before, i);
      AdmitIs(AdmitAll(m, slotCounts, before), slotCounts, arrivals[|arrivals| - 1], i);
    }
  }

  // ----- one poll -----

  /** What the network does while `poll` runs: which connections drop, and which REJECTs get through. */
  datatype Weather = Weather(arrivals: seq<Arrival>, lostFirst: set<nat>, lostLast: set<nat>, rejectSent: set<nat>)

  /** One poll of a started multiplexer: admit, sweep, give turns, and sweep again if nobody had news. */
  datatype Pass = Pass(weather: Weather, swept: Mux, event: V.Event, conn: nat, wires: seq<Wire>)

  ghost predicate Passes(m: Mux, slotCounts: seq<nat>, p: Pass, n: Mux) {
    && Inv(p.swept) && SweptBy(AdmitAll(m, slotCounts, p.weather.arrivals), p.weather.lostFirst, p.swept)
    && var r := Rounds(p.swept, 0, p.weather.rejectSent, []);
       && p.event == r.event && p.wires == r.wires
       && (if r.event == V.NoEvent then SweptBy(r.next, p.weather.lostLast, n)
           else r.at < |p.swept.slots| && p.conn == p.swept.slots[r.at].conn && n == r.next)
  }

  lemma SweptFirst(m: Mux, slotCounts: seq<nat>, p: Pass, n: Mux, k: nat)
    requires Inv(m) && Passes(m, slotCounts, p, n) && k < |m.slots|
    ensures k < |p.swept.slots| && Wanes(m.slots[k], p.swept.slots[k])
  {
    assert SlotOk(m.slots[k]);
    AdmitAllIs(m, slotCounts, p.weather.arrivals, k);
    WanesBoth(m.slots[k], AdmitAll(m, slotCounts, p.weather.arrivals).slots[k], p.swept.slots[k]);
  }

  lemma SweptUses(m: Mux, slotCounts: seq<nat>, p: Pass, n: Mux, i: nat)
    requires Inv(m) && Passes(m, slotCounts, p, n) && i < |m.slots|
    ensures i < |p.swept.slots| && WorkUpTo(p.swept.slots, i + 1) <= WorkUpTo(m.slots, i + 1)
  {
    SweptSlotUses(m, slotCounts, p, n, i);
    forall k | 0 <= k < i + 1 ensures Work(p.swept.slots[k]) <= Work(m.slots[k]) {
      SweptSlotUses(m, slotCounts, p, n, k);
    }
    WorkLess(m.slots, p.swept.slots, i + 1);
  }

  lemma SweptSlotUses(m: Mux, slotCounts: seq<nat>, p: Pass, n: Mux, k: nat)
    requires Inv(m) && Passes(m, slotCounts, p, n) && k < |m.slots|
    ensures k < |p.swept.slots| && Work(p.swept.slots[k]) <= Work(m.slots[k])
  {
    SweptFirst(m, slotCounts, p, n, k);
    assert SlotOk(m.slots[k]);
    WanesUses(m.slots[k], p.swept.slots[k]);
  }

  lemma RoundsProgress(m: Mux, rejectSent: set<nat>, i: nat, a: nat, g: GoalId)
    requires Inv(m) && Unreported(m, i, a, g) && m.slots[i].processed
    ensures var r := Rounds(m, 0, rejectSent, []);
            && i < |r.next.slots| && r.event != V.NoEvent && r.at <= i && r.next.slots[i].conn == m.slots[i].conn
            && WorkUpTo(r.next.slots, i + 1) < WorkUpTo(m.slots, i + 1)
            && (Unreported(r.next, i, a, g) || (r.event == V.RuntimeCancelRequest(a, g) && r.at == i))
  {
    RoundsReach(m, 0, rejectSent, [], i, a, g);
    RoundsUse(m, 0, rejectSent, []);
    RoundsKeepConn(m, 0, rejectSent, [], i);
    WorkLess(m.slots, Rounds(m, 0, rejectSent, []).next.slots, i + 1);
  }

  /** A poll reports the loss, or reports something else and there is less left to report before it. */
  lemma PassProgress(m: Mux, slotCounts: seq<nat>, p: Pass, n: Mux, i: nat, a: nat, g: GoalId)
    requires Inv(m) && Passes(m, slotCounts, p, n) && Unreported(m, i, a, g)
    ensures i < |n.slots| && WorkUpTo(n.slots, i + 1) < WorkUpTo(m.slots, i + 1)
    ensures n.slots[i].conn == m.slots[i].conn
    ensures || Unreported(n, i, a, g)
            || (p.event == V.RuntimeCancelRequest(a, g) && p.conn == m.slots[i].conn)
  {
    SweptUses(m, slotCounts, p, n, i);
    SweptFirst(m, slotCounts, p, n, i);
    WanesUnreported(m, p.swept, i, a, g);
    RoundsProgress(p.swept, p.weather.rejectSent, i, a, g);
  }

  // ----- any mixture of polls, packets and calls -----

  datatype Happening =
    | Polls(pass: Pass)
    | Arrives(at: nat, action: nat, packet: RequestPacket)
    | Calls(action: nat, op: V.Op)

  ghost predicate Happens(m: Mux, slotCounts: seq<nat>, h: Happening, n: Mux) {
    match h
    case Polls(p) => Passes(m, slotCounts, p, n)
    case Arrives(k, action, packet) =>
      && k < |m.slots| && !m.slots[k].disconnected && action < |m.slots[k].server.actions|
      && n == m.(slots := m.slots[k := After(m.slots[k], action, V.OpReceive(packet))])
    case Calls(action, op) => Tab.Offered(op) && n == Tab.CallOn(m, action, op).next
  }

  /** The application has something to say about this Goal. */
  predicate Concerns(h: Happening, a: nat, g: GoalId) {
    h.Calls? && Tab.Offered(h.op) && h.action == a && h.op.goal == g
  }

  ghost predicate Unfolds(states: seq<Mux>, slotCounts: seq<nat>, happenings: seq<Happening>) {
    && |states| == |happenings| + 1 && (forall k | 0 <= k < |states| :: Inv(states[k]))
    && forall k | 0 <= k < |happenings| :: HappensAt(states, slotCounts, happenings, k)
  }

  ghost predicate HappensAt(states: seq<Mux>, slotCounts: seq<nat>, happenings: seq<Happening>, k: nat)
    requires k < |happenings| == |states| - 1
  {
    Happens(states[k], slotCounts, happenings[k], states[k + 1])
  }

  function PollCount(happenings: seq<Happening>): nat {
    if happenings == [] then 0
    else PollCount(happenings[..|happenings| - 1]) + if happenings[|happenings| - 1].Polls? then 1 else 0
  }

  predicate Reports(h: Happening, a: nat, g: GoalId, conn: nat) {
    h.Polls? && h.pass.event == V.RuntimeCancelRequest(a, g) && h.pass.conn == conn
  }

  lemma ArrivalProgress(m: Mux, slotCounts: seq<nat>, h: Happening, n: Mux, i: nat, a: nat, g: GoalId)
    requires Happens(m, slotCounts, h, n) && h.Arrives? && Unreported(m, i, a, g)
    ensures Unreported(n, i, a, g) && WorkUpTo(n.slots, i + 1) <= WorkUpTo(m.slots, i + 1) + 1
    ensures n.slots[i].conn == m.slots[i].conn
  {
    var (before, after) := (m.slots[h.at], n.slots[h.at]);
    BacklogOne(before.server.actions, h.action, after.server.actions[h.action]);
    SameKeysSameGoals(before.server, after.server);
    WorkOne(m.slots, n.slots, h.at, i + 1);
  }

  // A call touches one slot, and adds at most the Goal it accepts.

  lemma AcceptedAtMostOne(a: V.Action, op: V.Op)
    requires IsCall(op)
    ensures |V.Apply(a, op).ep.inbox| == |a.ep.inbox| && V.Apply(a, op).goals.Keys <= a.goals.Keys + {op.goal}
  {
    CallIsLocal(a, op);
    forall g <- V.Apply(a, op).goals ensures g in a.goals.Keys + {op.goal} {
      if g != op.goal { V.OthersUntouched(a, op, g); }
    }
  }

  lemma GoalsGrowByOne(slot: Slot, action: nat, op: V.Op)
    requires action < |slot.server.actions| && IsCall(op)
    ensures |Goals(After(slot, action, op).server)| <= |Goals(slot.server)| + 1
  {
    var (s, t) := (slot.server, After(slot, action, op).server);
    AcceptedAtMostOne(s.actions[action], op);
    forall e | e in Goals(t) ensures e in Goals(s) + {(action, op.goal)} {
      if e.0 != action { assert t.actions[e.0] == s.actions[e.0]; }
    }
    SubsetSize(Goals(t), Goals(s) + {(action, op.goal)});
  }

  lemma {:induction false} SubsetSize(x: set<(nat, GoalId)>, y: set<(nat, GoalId)>)
    requires x <= y
    ensures |x| <= |y|
  {
    if x == {} {
    } else {
      var e :| e in x;
      SubsetSize(x - {e}, y - {e});
    }
  }

  lemma CallWork(slot: Slot, action: nat, op: V.Op)
    requires action < |slot.server.actions| && IsCall(op)
    ensures Work(After(slot, action, op)) <= Work(slot) + 1
  {
    AcceptedAtMostOne(slot.server.actions[action], op);
    BacklogOne(slot.server.actions, action, After(slot, action, op).server.actions[action]);
    GoalsGrowByOne(slot, action, op);
  }

  lemma CallLeavesGoal(slot: Slot, action: nat, op: V.Op, a: nat, g: GoalId)
    requires action < |slot.server.actions| && IsCall(op) && (action != a || op.goal != g) && Holds(slot, a, g)
    ensures var next := After(slot, action, op);
            Holds(next, a, g) && next.server.actions[a].goals[g] == slot.server.actions[a].goals[g]
  {
    if action == a { V.OthersUntouched(slot.server.actions[a], op, g); }
  }

  lemma BelowIsCall(slot: Slot, op: V.Op)
    requires Tab.Offered(op)
    ensures IsCall(Tab.Below(slot, op)) && Tab.Below(slot, op).goal == op.goal
  {
  }

  lemma SlotAfterWork(slot: Slot, next: Slot, owners: seq<Owner>, action: nat, op: V.Op, ok: bool)
    requires Tab.Offered(op) && action < |slot.server.actions| && Tab.SlotAfter(slot, next, owners, action, op, ok)
    ensures Work(next) <= Work(slot) + 1 && next.conn == slot.conn
  {
    BelowIsCall(slot, op);
    CallWork(slot, action, Tab.Below(slot, op));
  }

  /** A slot with an unreported Goal has an owner for it, and so is not retired by a call on another Goal. */
  lemma SlotAfterKeeps(m: Mux, n: Mux, i: nat, action: nat, op: V.Op, ok: bool, a: nat, g: GoalId)
    requires Inv(m) && Unreported(m, i, a, g) && Tab.Offered(op) && (action != a || op.goal != g)
    requires i < |n.slots| && action < |m.slots[i].server.actions|
    requires Tab.SlotAfter(m.slots[i], n.slots[i], n.owners, action, op, ok)
    requires Tab.OwnersAfter(m, n, m.slots[i].conn, action, op, ok)
    ensures Unreported(n, i, a, g)
  {
    var slot := m.slots[i];
    OwnerExactly(m, i, a, g);
    assert Owner(a, g, slot.conn, Active) in n.owners;
    BelowIsCall(slot, op);
    CallLeavesGoal(slot, action, Tab.Below(slot, op), a, g);
  }

  lemma CallWorkAt(m: Mux, n: Mux, k: nat, action: nat, op: V.Op, ok: bool, i: nat)
    requires k < |m.slots| == |n.slots| && i < |m.slots| && Tab.Offered(op) && action < |m.slots[k].server.actions|
    requires forall j | 0 <= j < |m.slots| && j != k :: n.slots[j] == m.slots[j]
    requires Tab.SlotAfter(m.slots[k], n.slots[k], n.owners, action, op, ok)
    ensures n.slots[i].conn == m.slots[i].conn && WorkUpTo(n.slots, i + 1) <= WorkUpTo(m.slots, i + 1) + 1
  {
    SlotAfterWork(m.slots[k], n.slots[k], n.owners, action, op, ok);
    assert n.slots == m.slots[k := n.slots[k]];
    WorkOne(m.slots, n.slots, k, i + 1);
  }

  lemma ElsewhereUnreported(m: Mux, n: Mux, i: nat, a: nat, g: GoalId)
    requires Unreported(m, i, a, g) && i < |n.slots| && n.slots[i] == m.slots[i]
    ensures Unreported(n, i, a, g)
  {
  }

  lemma CallProgressAt(m: Mux, h: Happening, n: Mux, k: nat, i: nat, a: nat, g: GoalId)
    requires Inv(m) && h.Calls? && Tab.Offered(h.op) && !Concerns(h, a, g) && Unreported(m, i, a, g)
    requires k < |m.slots| && h.action < |m.slots[k].server.actions|
    requires n == Tab.CallOn(m, h.action, h.op).next && Tab.Left(m, k, h.action, h.op, Tab.CallOn(m, h.action, h.op))
    ensures Unreported(n, i, a, g) && n.slots[i].conn == m.slots[i].conn
    ensures WorkUpTo(n.slots, i + 1) <= WorkUpTo(m.slots, i + 1) + 1
  {
    var ok := Tab.CallOn(m, h.action, h.op).ok;
    if !Tab.CutOff(m.slots[k], h.op) {
      CallWorkAt(m, n, k, h.action, h.op, ok, i);
      if k == i { SlotAfterKeeps(m, n, i, h.action, h.op, ok, a, g); } else { ElsewhereUnreported(m, n, i, a, g); }
    }
  }

  lemma CallProgress(m: Mux, h: Happening, n: Mux, i: nat, a: nat, g: GoalId)
    requires Inv(m) && h.Calls? && Tab.Offered(h.op) && n == Tab.CallOn(m, h.action, h.op).next
    requires Unreported(m, i, a, g) && !Concerns(h, a, g)
    ensures Unreported(n, i, a, g) && n.slots[i].conn == m.slots[i].conn
    ensures WorkUpTo(n.slots, i + 1) <= WorkUpTo(m.slots, i + 1) + 1
  {
    if k: nat :| Tab.OwnedAt(m, k, h.action, h.op.goal, Tab.Wanted(h.op)) {
      Tab.LeavesExactly(m, k, h.action, h.op);
      CallProgressAt(m, h, n, k, i, a, g);
    } else {
      Tab.NobodyHome(m, h.action, h.op);
    }
  }

  /** The loss is still to be reported; a poll has used work up, a packet or a call has added one piece at most. */
  ghost predicate Progress(m: Mux, h: Happening, n: Mux, i: nat, a: nat, g: GoalId) {
    && Unreported(m, i, a, g) && Unreported(n, i, a, g) && n.slots[i].conn == m.slots[i].conn
    && WorkUpTo(n.slots, i + 1) + (if h.Polls? then 1 else 0) <= WorkUpTo(m.slots, i + 1) + (if h.Polls? then 0 else 1)
  }

  lemma HappeningProgress(m: Mux, slotCounts: seq<nat>, h: Happening, n: Mux, i: nat, a: nat, g: GoalId)
    requires Inv(m) && Happens(m, slotCounts, h, n) && Unreported(m, i, a, g)
    requires !Reports(h, a, g, m.slots[i].conn) && !Concerns(h, a, g)
    ensures Progress(m, h, n, i, a, g)
  {
    if h.Polls? {
      PassProgress(m, slotCounts, h.pass, n, i, a, g);
    } else if h.Calls? {
      CallProgress(m, h, n, i, a, g);
    } else {
      ArrivalProgress(m, slotCounts, h, n, i, a, g);
    }
  }

  /** As long as the loss is not reported, every poll has used up work that was there or that arrived. */
  lemma {:induction false} StillUnreported(
    states: seq<Mux>, slotCounts: seq<nat>, happenings: seq<Happening>, i: nat, a: nat, g: GoalId)
    requires Unfolds(states, slotCounts, happenings) && Unreported(states[0], i, a, g)
    requires forall h | h in happenings :: !Reports(h, a, g, states[0].slots[i].conn) && !Concerns(h, a, g)
    ensures var (end, polls) := (states[|happenings|], PollCount(happenings));
            && Unreported(end, i, a, g) && end.slots[i].conn == states[0].slots[i].conn
            && WorkUpTo(end.slots, i + 1) + polls <= WorkUpTo(states[0].slots, i + 1) + (|happenings| - polls)
    decreases |happenings|
  {
    if happenings == [] {
    } else {
      var k := |happenings| - 1;
      Shorter(states, slotCounts, happenings);
      StillUnreported(states[..k + 1], slotCounts, happenings[..k], i, a, g);
      assert happenings[k] in happenings;
      ProgressAt(states, slotCounts, happenings, k, i, a, g);
    }
  }

  lemma ProgressAt(
    states: seq<Mux>, slotCounts: seq<nat>, happenings: seq<Happening>, k: nat, i: nat, a: nat, g: GoalId)
    requires Unfolds(states, slotCounts, happenings) && k < |happenings| && Unreported(states[k], i, a, g)
    requires !Reports(happenings[k], a, g, states[k].slots[i].conn) && !Concerns(happenings[k], a, g)
    ensures Progress(states[k], happenings[k], states[k + 1], i, a, g)
  {
    assert HappensAt(states, slotCounts, happenings, k);
    HappeningProgress(states[k], slotCounts, happenings[k], states[k + 1], i, a, g);
  }

  lemma Shorter(states: seq<Mux>, slotCounts: seq<nat>, happenings: seq<Happening>)
    requires Unfolds(states, slotCounts, happenings) && happenings != []
    ensures Unfolds(states[..|happenings|], slotCounts, happenings[..|happenings| - 1])
  {
    var k := |happenings| - 1;
    var (before, early) := (states[..k + 1], happenings[..k]);
    forall j | 0 <= j < k ensures HappensAt(before, slotCounts, early, j) {
      assert HappensAt(states, slotCounts, happenings, j);
    }
  }

  /**
   * Over every mixture of polls, arriving packets and calls on other Goals, with connections coming and going: once
   * the polls outnumber the work in front of it and the packets and calls in between, the lost Goal's runtime cancel
   * has been reported, and as coming from its own connection.
   */
  lemma LossIsReported(
    states: seq<Mux>, slotCounts: seq<nat>, happenings: seq<Happening>, i: nat, a: nat, g: GoalId)
    requires Unfolds(states, slotCounts, happenings) && Unreported(states[0], i, a, g)
    requires forall h | h in happenings :: !Concerns(h, a, g)
    requires PollCount(happenings) > WorkUpTo(states[0].slots, i + 1) + (|happenings| - PollCount(happenings))
    ensures exists h :: h in happenings && Reports(h, a, g, states[0].slots[i].conn)
  {
    if forall h | h in happenings :: !Reports(h, a, g, states[0].slots[i].conn) {
      StillUnreported(states, slotCounts, happenings, i, a, g);
    }
  }
}
