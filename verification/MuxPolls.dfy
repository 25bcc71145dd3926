/**
 * What a poll of the multiplexer tells the application: the slots that are not retired get their turn in
 * order, and the first one with news decides the event.
 */
module MuxPolls {
  import opened ActionTypes
  import opened MuxSpec
  import opened MuxEvents
  import opened MuxMoves
  import CE = CancelEdges
  import P = ServerPolls
  import V = ServerServicesSpec

  /** The outcome of a round of turns: `at` is the slot the event came from. */
  datatype Round = Round(next: Mux, event: V.Event, at: nat, wires: seq<Wire>)

  /** Turns from slot `i` on, until one yields an event; `rejectSent` names the connections whose REJECTs get out. */
  function Rounds(m: Mux, i: nat, rejectSent: set<nat>, wires: seq<Wire>): Round
    decreases |m.slots| - i
  {
    if i >= |m.slots| then Round(m, V.NoEvent, i, wires)
    else if m.slots[i].retired then Rounds(m, i + 1, rejectSent, wires)
    else
      var t := Turn(m, i, m.slots[i].conn in rejectSent);
      if t.event != V.NoEvent then Round(t.next, t.event, i, wires + t.wires)
      else Rounds(t.next, i + 1, rejectSent, wires + t.wires)
  }

  /** The request is a duplicate: some connection owns its Goal. */
  predicate Owned(m: Mux, e: V.Event) {
    e.GoalRequest? && exists o :: o in m.owners && o.action == e.action && o.goal == e.goal
  }

  /**
   * What slot `k` has to say, read off its queues: the first runtime cancel its Services do not skip; with none,
   * the first packet they would surface, unless that is a Goal Request for a Goal that is owned already.
   */
  ghost predicate Says(m: Mux, k: nat, e: V.Event)
    requires k < |m.slots|
  {
    var s := m.slots[k].server;
    match CE.FirstHandled(s, s.runtimeEvents)
    case Some(c) => e == if CE.Late(s, c) then V.ErrorEvent(c.0, c.1) else V.RuntimeCancelRequest(c.0, c.1)
    case None => if e == V.NoEvent then Hushed(m, s) else P.FirstYield(s, 0, e) && !Owned(m, e)
  }

  /** No packet would be surfaced, or the first that would is a duplicate request. */
  ghost predicate Hushed(m: Mux, s: V.Services) {
    P.FirstYield(s, 0, V.NoEvent) || exists d :: P.FirstYield(s, 0, d) && Owned(m, d)
  }

  lemma OwnedIs(m: Mux, e: V.Event)
    requires e.GoalRequest?
    ensures Owned(m, e) <==> OwnerIndex(m.owners, e.action, e.goal).Some?
  {
  }

  /** A slot's turn yields exactly what the slot has to say. */
  lemma TurnSays(m: Mux, k: nat, rejectSent: bool)
    requires Inv(m) && k < |m.slots|
    ensures Says(m, k, Turn(m, k, rejectSent).event)
  {
    var s := m.slots[k].server;
    assert SlotOk(m.slots[k]);
    assert CE.Sims(s);
    P.PollExactly(s);
    var e := V.Poll(s).1;
    if e.GoalRequest? { OwnedIs(m, e); }
  }

  /** A duplicate request hides, for this poll, what later Actions of its connection have to say. */
  lemma DuplicateHides(m: Mux, k: nat, rejectSent: bool, d: V.Event, n: nat)
    requires Inv(m) && k < |m.slots| && d.GoalRequest? && d.action < n < |m.slots[k].server.actions| && Owned(m, d)
    requires var s := m.slots[k].server;
             CE.FirstHandled(s, s.runtimeEvents).None? && P.FirstYield(s, 0, d) && P.Yields(s.actions[n])
    ensures Turn(m, k, rejectSent).event == V.NoEvent
  {
    TurnSays(m, k, rejectSent);
    var (s, e) := (m.slots[k].server, Turn(m, k, rejectSent).event);
    if e != V.NoEvent { P.OneFirst(s, d, e); }
  }

  lemma SaysSame(m: Mux, n: Mux, k: nat, e: V.Event)
    requires k < |m.slots| && k < |n.slots| && n.slots[k] == m.slots[k] && n.owners == m.owners
    ensures Says(m, k, e) <==> Says(n, k, e)
  {
    forall d ensures Owned(m, d) == Owned(n, d) {}
    if Hushed(m, m.slots[k].server) && !P.FirstYield(m.slots[k].server, 0, V.NoEvent) {
      var d :| P.FirstYield(m.slots[k].server, 0, d) && Owned(m, d);
      assert Owned(n, d);
    }
    if Hushed(n, m.slots[k].server) && !P.FirstYield(m.slots[k].server, 0, V.NoEvent) {
      var d :| P.FirstYield(m.slots[k].server, 0, d) && Owned(n, d);
      assert Owned(m, d);
    }
  }

  /** No slot from `i` up to `end` that is not retired has anything to say. */
  ghost predicate Silent(m: Mux, i: nat, end: nat) {
    forall k | i <= k < end && k < |m.slots| && !m.slots[k].retired :: Says(m, k, V.NoEvent)
  }

  /** The event of a round is that of the first slot with something to say. */
  ghost predicate Decides(m: Mux, i: nat, r: Round) {
    if r.event == V.NoEvent then Silent(m, i, |m.slots|)
    else i <= r.at < |m.slots| && !m.slots[r.at].retired && Says(m, r.at, r.event) && Silent(m, i, r.at)
  }

  lemma QuietTurn(m: Mux, i: nat, rejectSent: bool)
    requires Inv(m) && i < |m.slots| && Turn(m, i, rejectSent).event == V.NoEvent
    ensures var n := Turn(m, i, rejectSent).next;
            && Inv(n) && n.owners == m.owners && |n.slots| == |m.slots|
            && forall k | i < k < |m.slots| :: n.slots[k] == m.slots[k]
  {
    TurnMoves(m, i, rejectSent);
    TurnFrame(m, i, rejectSent);
    assert m.owners + [] == m.owners;
  }

  lemma DecidesLater(m: Mux, n: Mux, i: nat, r: Round)
    requires i < |m.slots| == |n.slots| && n.owners == m.owners && Decides(n, i + 1, r)
    requires forall k | i < k < |m.slots| :: n.slots[k] == m.slots[k]
    requires m.slots[i].retired || Says(m, i, V.NoEvent)
    ensures Decides(m, i, r)
  {
    var end := if r.event == V.NoEvent then |m.slots| else r.at;
    forall k | i <= k < end && !m.slots[k].retired ensures Says(m, k, V.NoEvent) {
      if k > i { SaysSame(m, n, k, V.NoEvent); }
    }
    if r.event != V.NoEvent { SaysSame(m, n, r.at, r.event); }
  }

  /** Both directions: silence means that nobody had news, an event is the news of the first who had. */
  lemma {:induction false} RoundsExactly(m: Mux, i: nat, rejectSent: set<nat>, wires: seq<Wire>)
    requires Inv(m)
    ensures Decides(m, i, Rounds(m, i, rejectSent, wires))
    decreases |m.slots| - i
  {
    if i >= |m.slots| {
    } else if m.slots[i].retired {
      RoundsExactly(m, i + 1, rejectSent, wires);
      DecidesLater(m, m, i, Rounds(m, i + 1, rejectSent, wires));
    } else {
      var sent := m.slots[i].conn in rejectSent;
      var t := Turn(m, i, sent);
      TurnSays(m, i, sent);
      if t.event == V.NoEvent {
        QuietTurn(m, i, sent);
        RoundsExactly(t.next, i + 1, rejectSent, wires + t.wires);
        DecidesLater(m, t.next, i, Rounds(t.next, i + 1, rejectSent, wires + t.wires));
      }
    }
  }

  /** Where the event of a round came from; any number if there was none. */
  predicate CameFrom(start: Mux, r: Round, conn: nat) {
    r.event == V.NoEvent || (r.at < |start.slots| && conn == start.slots[r.at].conn)
  }

  /** A round keeps what the loop over the slots keeps, and every packet it sends answers a request. */
  lemma {:induction false} RoundsFinish(start: Mux, m: Mux, i: nat, rejectSent: set<nat>, wires: seq<Wire>, conn: nat)
    requires Halfway(start, m, i, wires) && CameFrom(start, Rounds(m, i, rejectSent, wires), conn)
    ensures var r := Rounds(m, i, rejectSent, wires); Finished(start, r.next, r.event, conn, r.wires)
    decreases |m.slots| - i
  {
    if i >= |m.slots| {
      HalfwayEnd(start, m, wires, conn);
    } else if m.slots[i].retired {
      HalfwaySkip(start, m, i, wires);
      RoundsFinish(start, m, i + 1, rejectSent, wires, conn);
    } else {
      var sent := m.slots[i].conn in rejectSent;
      var t := Turn(m, i, sent);
      TurnNext(start, m, i, wires, sent);
      TurnFrame(m, i, sent);
      if t.event == V.NoEvent { RoundsFinish(start, t.next, i + 1, rejectSent, wires + t.wires, conn); }
    }
  }

  lemma {:induction false} RoundsKeepConn(m: Mux, k: nat, rejectSent: set<nat>, wires: seq<Wire>, i: nat)
    requires i < |m.slots|
    ensures var r := Rounds(m, k, rejectSent, wires);
            i < |r.next.slots| == |m.slots| && r.next.slots[i].conn == m.slots[i].conn
    decreases |m.slots| - k
  {
    if k >= |m.slots| {
    } else if m.slots[k].retired {
      RoundsKeepConn(m, k + 1, rejectSent, wires, i);
    } else {
      var t := Turn(m, k, m.slots[k].conn in rejectSent);
      TurnFrame(m, k, m.slots[k].conn in rejectSent);
      if t.event == V.NoEvent { RoundsKeepConn(t.next, k + 1, rejectSent, wires + t.wires, i); }
    }
  }
}
