/**
 * One client endpoint, one server endpoint and one lossless queue in each direction, as a step
 * system.  The client endpoint drops its lock between reserving a slot and sending, and between
 * committing a cancel and sending; those are separate steps here.  Sends may fail, Goals may time
 * out, and the server may act without telling the client; contexts are not reset.
 */
module Composition {
  import opened ActionTypes
  import opened GoalView
  import C = ClientEndpointSpec
  import S = ServerEndpointSpec

  /** The queues are the endpoints' inboxes; `cancelling` lists every open cancel send of a Goal, oldest first. */
  datatype System = System(
    c: C.Endpoint, s: S.Endpoint, sending: map<GoalId, nat>, cancelling: map<GoalId, seq<nat>>, takenOver: set<GoalId>)

  datatype Step =
    | Reserve(goal: GoalId, timeout: nat, now: nat)
    | SendGoal(goal: GoalId, body: Payload)
    | RollBack(goal: GoalId)
    | CommitCancel(goal: GoalId)
    | SendCancel(goal: GoalId, which: nat)
    | RollBackCancel(goal: GoalId, which: nat)
    | ClientPoll(now: nat)
    | ServerPoll(sent: bool)
    | ServerCall(op: S.Op)

  /** The slots of a Goal's open cancel sends. */
  function Open(sys: System, goal: GoalId): seq<nat> { if goal in sys.cancelling then sys.cancelling[goal] else [] }

  /**
   * The guard of the agreement: a Goal ID is not reserved again while a cancel send for it is still
   * open.  Module CancelGuard shows that the guard is exact, module ServicesLock that the Services layer meets it.
   */
  predicate Disciplined(sys: System, step: Step) {
    step.Reserve? ==> Open(sys, step.goal) == []
  }

  function Put<T>(m: map<GoalId, T>, goal: GoalId, v: T): map<GoalId, T> { m[goal := v] }

  function Upload(sys: System, p: RequestPacket): System { sys.(s := S.Receive(sys.s, p)) }

  function Download(sys: System, p: ServerPacket): System { sys.(c := C.Receive(sys.c, p)) }

  predicate LocalCall(op: S.Op) { op.OpAcceptCancelLocally? || op.OpCompleteLocally? || op.OpDiscard? }

  function Next(sys: System, step: Step): System {
    match step
    case Reserve(g, timeout, now) =>
      var (c, answer) := C.Reserve(sys.c, g, timeout, now);
      if answer != C.Success then sys
      else sys.(c := c, sending := Put(sys.sending, g, c.bindings[g].slot), takenOver := sys.takenOver - {g})
    case SendGoal(g, body) =>
      if g !in sys.sending then sys
      else Upload(sys.(sending := sys.sending - {g}), C.GoalRequestPacket(sys.sending[g], g, body))
    case RollBack(g) =>
      if g !in sys.sending then sys else sys.(c := C.Release(sys.c, g), sending := sys.sending - {g})
    case CommitCancel(g) =>
      if !C.MayCancel(sys.c, g) then sys
      else sys.(c := C.CommitCancel(sys.c, g),
                cancelling := Put(sys.cancelling, g, Open(sys, g) + [sys.c.bindings[g].slot]))
    case SendCancel(g, i) =>
      if i >= |Open(sys, g)| then sys
      else Upload(sys.(cancelling := Put(sys.cancelling, g, RemoveAt(Open(sys, g), i))),
                  C.CancelRequestPacket(Open(sys, g)[i], g))
    case RollBackCancel(g, i) =>
      if i >= |Open(sys, g)| then sys
      else sys.(c := C.RollBackCancel(sys.c, g), cancelling := Put(sys.cancelling, g, RemoveAt(Open(sys, g), i)))
    case ClientPoll(now) => sys.(c := C.Poll(sys.c, now).0)
    case ServerPoll(sent) =>
      var r := S.Poll(sys.s);
      var next := sys.(s := r.next);
      if sent && r.attempt.Some? then Download(next, r.attempt.value) else next
    case ServerCall(op) =>
      if !S.IsCall(op) then sys else
      var (s, attempt) := S.Apply(sys.s, op);
      var taken := if LocalCall(op) && s != sys.s then sys.takenOver + {op.goal} else sys.takenOver;
      var next := sys.(s := s, takenOver := taken);
      if S.SentFlag(op) && attempt.Some? then Download(next, attempt.value) else next
  }

  function Run(sys: System, steps: seq<Step>): System
    decreases |steps|
  {
    if steps == [] then sys else Run(Next(sys, steps[0]), steps[1..])
  }

  predicate DisciplinedRun(sys: System, steps: seq<Step>)
    decreases |steps|
  {
    steps == [] || (Disciplined(sys, steps[0]) && DisciplinedRun(Next(sys, steps[0]), steps[1..]))
  }

  function Start(slotCount: nat): System {
    System(C.Endpoint(true, slotCount, map[], []), S.Endpoint(true, slotCount, map[], []), map[], map[], {})
  }

  // ----- views -----

  function UpFor(q: seq<RequestPacket>, goal: GoalId): seq<RequestPacket> {
    if q == [] then [] else (if q[0].goal == goal then [q[0]] else []) + UpFor(q[1..], goal)
  }

  function DownFor(q: seq<ServerPacket>, goal: GoalId): seq<ServerPacket> {
    if q == [] then [] else (if q[0].goal == goal then [q[0]] else []) + DownFor(q[1..], goal)
  }

  lemma {:induction false} UpForAppend(q: seq<RequestPacket>, p: RequestPacket, goal: GoalId)
    ensures UpFor(q + [p], goal) == UpFor(q, goal) + (if p.goal == goal then [p] else [])
  {
    var last := if p.goal == goal then [p] else [];
    if q == [] {
      assert q + [p] == [p] && [p][1..] == [];
    } else {
      var head := if q[0].goal == goal then [q[0]] else [];
      assert (q + [p])[0] == q[0] && (q + [p])[1..] == q[1..] + [p];
      UpForAppend(q[1..], p, goal);
      assert UpFor(q + [p], goal) == head + (UpFor(q[1..], goal) + last);
    }
  }

  lemma {:induction false} DownForAppend(q: seq<ServerPacket>, p: ServerPacket, goal: GoalId)
    ensures DownFor(q + [p], goal) == DownFor(q, goal) + (if p.goal == goal then [p] else [])
  {
    var last := if p.goal == goal then [p] else [];
    if q == [] {
      assert q + [p] == [p] && [p][1..] == [];
    } else {
      var head := if q[0].goal == goal then [q[0]] else [];
      assert (q + [p])[0] == q[0] && (q + [p])[1..] == q[1..] + [p];
      DownForAppend(q[1..], p, goal);
      assert DownFor(q + [p], goal) == head + (DownFor(q[1..], goal) + last);
    }
  }

  function At<T>(m: map<GoalId, T>, goal: GoalId): Option<T> { if goal in m then Some(m[goal]) else None }

  function ViewOf(sys: System, goal: GoalId): View {
    View(goal, At(sys.c.bindings, goal), At(sys.s.bindings, goal),
         UpFor(sys.s.inbox, goal), DownFor(sys.c.inbox, goal),
         At(sys.sending, goal), Open(sys, goal), goal in sys.takenOver)
  }

  ghost predicate Tables(sys: System) {
    && C.SlotsDistinct(sys.c) && S.SlotsDistinct(sys.s)
    && sys.c.initialized && sys.s.initialized && sys.c.slotCount == sys.s.slotCount
  }

  /** Ownership of every Goal: holds in every run. */
  ghost predicate Owned(sys: System) { Tables(sys) && forall g :: Ownership(ViewOf(sys, g)) }

  /** Soundness of every Goal: holds in every disciplined run. */
  ghost predicate Good(sys: System) { Tables(sys) && forall g :: Sound(ViewOf(sys, g)) }

  lemma GoodIsOwned(sys: System)
    requires Good(sys)
    ensures Owned(sys)
  {
    forall g ensures Ownership(ViewOf(sys, g)) { assert Sound(ViewOf(sys, g)); }
  }

  // ----- every step is a move of one Goal's view -----

  ghost predicate OneMove(sys: System, next: System, g: GoalId, m: Move) {
    && Tables(next)
    && Allowed(ViewOf(sys, g), m) && ViewOf(next, g) == After(ViewOf(sys, g), m)
    && (forall h | h != g :: ViewOf(next, h) == ViewOf(sys, h))
  }

  lemma MoveKeepsOwned(sys: System, next: System, g: GoalId, m: Move)
    requires Owned(sys) && OneMove(sys, next, g, m)
    ensures Owned(next)
  {
    forall h ensures Ownership(ViewOf(next, h)) {
      assert Ownership(ViewOf(sys, h));
      if h == g { OwnedKept(ViewOf(sys, g), m); } else { assert ViewOf(next, h) == ViewOf(sys, h); }
    }
  }

  lemma MoveKeepsGood(sys: System, next: System, g: GoalId, m: Move)
    requires Good(sys) && OneMove(sys, next, g, m) && Guarded(ViewOf(sys, g), m)
    ensures Good(next)
  {
    forall h ensures Sound(ViewOf(next, h)) {
      assert Sound(ViewOf(sys, h));
      if h == g { SoundKept(ViewOf(sys, g), m); } else { assert ViewOf(next, h) == ViewOf(sys, h); }
    }
  }

  // ----- client steps -----

  lemma ReserveMove(sys: System, g: GoalId, timeout: nat, now: nat)
    requires Tables(sys) && C.Reserve(sys.c, g, timeout, now).1 == C.Success
    ensures OneMove(sys, Next(sys, Reserve(g, timeout, now)), g,
                    Reserved(C.Reserve(sys.c, g, timeout, now).0.bindings[g]))
  {
    C.ReserveKeepsSlots(sys.c, g, timeout, now);
  }

  lemma SendGoalMove(sys: System, g: GoalId, body: Payload)
    requires Tables(sys) && g in sys.sending
    ensures OneMove(sys, Next(sys, SendGoal(g, body)), g, GoalSent(body))
  {
    var p := C.GoalRequestPacket(sys.sending[g], g, body);
    forall h ensures UpFor(sys.s.inbox + [p], h) == UpFor(sys.s.inbox, h) + (if h == g then [p] else []) {
      UpForAppend(sys.s.inbox, p, h);
    }
  }

  lemma RollBackMove(sys: System, g: GoalId)
    requires Tables(sys) && g in sys.sending
    ensures OneMove(sys, Next(sys, RollBack(g)), g, RolledBack)
  {
    C.SmallChangeKeepsSlots(sys.c, Next(sys, RollBack(g)).c, g);
  }

  lemma CommitCancelMove(sys: System, g: GoalId)
    requires Tables(sys) && C.MayCancel(sys.c, g)
    ensures OneMove(sys, Next(sys, CommitCancel(g)), g, CancelCommitted)
  {
    C.SmallChangeKeepsSlots(sys.c, Next(sys, CommitCancel(g)).c, g);
  }

  lemma SendCancelMove(sys: System, g: GoalId, i: nat)
    requires Tables(sys) && i < |Open(sys, g)|
    ensures OneMove(sys, Next(sys, SendCancel(g, i)), g, CancelSent(i))
  {
    var p := C.CancelRequestPacket(Open(sys, g)[i], g);
    forall h ensures UpFor(sys.s.inbox + [p], h) == UpFor(sys.s.inbox, h) + (if h == g then [p] else []) {
      UpForAppend(sys.s.inbox, p, h);
    }
  }

  lemma RollBackCancelView(sys: System, g: GoalId, i: nat)
    requires i < |Open(sys, g)|
    ensures Allowed(ViewOf(sys, g), CancelRolledBack(i))
    ensures ViewOf(Next(sys, RollBackCancel(g, i)), g) == After(ViewOf(sys, g), CancelRolledBack(i))
  {
  }

  lemma RollBackCancelOthers(sys: System, g: GoalId, i: nat, h: GoalId)
    requires i < |Open(sys, g)| && h != g
    ensures ViewOf(Next(sys, RollBackCancel(g, i)), h) == ViewOf(sys, h)
  {
  }

  lemma RollBackCancelMove(sys: System, g: GoalId, i: nat)
    requires Tables(sys) && i < |Open(sys, g)|
    ensures OneMove(sys, Next(sys, RollBackCancel(g, i)), g, CancelRolledBack(i))
  {
    C.SmallChangeKeepsSlots(sys.c, Next(sys, RollBackCancel(g, i)).c, g);
    RollBackCancelView(sys, g, i);
    forall h | h != g ensures ViewOf(Next(sys, RollBackCancel(g, i)), h) == ViewOf(sys, h) {
      RollBackCancelOthers(sys, g, i, h);
    }
  }

  /** Taking the next packet off the client's queue, without the timeout scan. */
  function Pop(sys: System): System
    requires sys.c.inbox != []
  {
    var p := sys.c.inbox[0];
    var c := sys.c.(inbox := sys.c.inbox[1..]);
    sys.(c := if C.Taken(sys.c, p) then C.Absorb(c, p) else c)
  }

  /** The head of the queue is the head of its Goal's view. */
  lemma DownHead(q: seq<ServerPacket>)
    requires q != []
    ensures DownFor(q, q[0].goal) != [] && DownFor(q, q[0].goal)[0] == q[0]
    ensures DownFor(q, q[0].goal)[1..] == DownFor(q[1..], q[0].goal)
    ensures forall g | g != q[0].goal :: DownFor(q, g) == DownFor(q[1..], g)
  {
    assert DownFor(q, q[0].goal) == [q[0]] + DownFor(q[1..], q[0].goal);
  }

  lemma UpHead(q: seq<RequestPacket>)
    requires q != []
    ensures UpFor(q, q[0].goal) != [] && UpFor(q, q[0].goal)[0] == q[0]
    ensures UpFor(q, q[0].goal)[1..] == UpFor(q[1..], q[0].goal)
    ensures forall g | g != q[0].goal :: UpFor(q, g) == UpFor(q[1..], g)
  {
    assert UpFor(q, q[0].goal) == [q[0]] + UpFor(q[1..], q[0].goal);
  }

  lemma PopBinding(sys: System)
    requires sys.c.inbox != [] && sys.c.inbox[0].goal in sys.c.bindings
    requires ValidGoalId(sys.c.inbox[0].goal) && sys.c.bindings[sys.c.inbox[0].goal].slot < sys.c.slotCount
    ensures Pop(sys) == sys.(c := Pop(sys).c) && Pop(sys).c.inbox == sys.c.inbox[1..]
    ensures var (g, b) := (sys.c.inbox[0].goal, sys.c.bindings[sys.c.inbox[0].goal]);
            At(Pop(sys).c.bindings, g) ==
            match C.React(b, sys.c.inbox[0]) case Ignore => Some(b) case Keep(after) => Some(after) case Finish => None
  {
  }

  lemma PopView(sys: System)
    requires sys.c.inbox != [] && sys.c.inbox[0].goal in sys.c.bindings
    requires ValidGoalId(sys.c.inbox[0].goal) && sys.c.bindings[sys.c.inbox[0].goal].slot < sys.c.slotCount
    ensures var g := sys.c.inbox[0].goal;
            ViewOf(sys, g).down != [] && ViewOf(Pop(sys), g) == AfterReceived(ViewOf(sys, g))
  {
    DownHead(sys.c.inbox);
    PopBinding(sys);
  }

  lemma PopOthers(sys: System, h: GoalId)
    requires sys.c.inbox != [] && h != sys.c.inbox[0].goal
    ensures ViewOf(Pop(sys), h) == ViewOf(sys, h)
  {
    DownHead(sys.c.inbox);
  }

  lemma PopMove(sys: System)
    requires Owned(sys) && sys.c.inbox != []
    ensures OneMove(sys, Pop(sys), sys.c.inbox[0].goal, Received)
  {
    var g := sys.c.inbox[0].goal;
    C.SmallChangeKeepsSlots(sys.c, Pop(sys).c, g);
    DownHead(sys.c.inbox);
    assert Ownership(ViewOf(sys, g));
    PopView(sys);
    forall h | h != g ensures ViewOf(Pop(sys), h) == ViewOf(sys, h) { PopOthers(sys, h); }
  }

  lemma TimeoutMove(sys: System, now: nat)
    requires Tables(sys) && C.CheckTimeouts(sys.c, now).1.TimedOut?
    ensures OneMove(sys, sys.(c := C.CheckTimeouts(sys.c, now).0), C.CheckTimeouts(sys.c, now).1.goal, TimedOut)
  {
    var (c, event) := C.CheckTimeouts(sys.c, now);
    C.SmallChangeKeepsSlots(sys.c, c, event.goal);
  }

  /** A poll takes a packet, and looks for a timeout when there is none to deliver. */
  lemma ClientPollIs(sys: System, now: nat)
    ensures Next(sys, ClientPoll(now)) ==
            if sys.c.inbox == [] then sys.(c := C.CheckTimeouts(sys.c, now).0)
            else if C.Taken(sys.c, sys.c.inbox[0]) then Pop(sys)
            else Pop(sys).(c := C.CheckTimeouts(Pop(sys).c, now).0)
  {
  }

  lemma TimeoutOwned(sys: System, now: nat)
    requires Owned(sys)
    ensures Owned(sys.(c := C.CheckTimeouts(sys.c, now).0))
  {
    var (c, event) := C.CheckTimeouts(sys.c, now);
    if event.TimedOut? {
      TimeoutMove(sys, now);
      MoveKeepsOwned(sys, sys.(c := c), event.goal, TimedOut);
    }
  }

  lemma TimeoutGood(sys: System, now: nat)
    requires Good(sys)
    ensures Good(sys.(c := C.CheckTimeouts(sys.c, now).0))
  {
    var (c, event) := C.CheckTimeouts(sys.c, now);
    if event.TimedOut? {
      TimeoutMove(sys, now);
      MoveKeepsGood(sys, sys.(c := c), event.goal, TimedOut);
    }
  }

  lemma ClientPollOwned(sys: System, now: nat)
    requires Owned(sys)
    ensures Owned(Next(sys, ClientPoll(now)))
  {
    ClientPollIs(sys, now);
    if sys.c.inbox == [] {
      TimeoutOwned(sys, now);
    } else {
      PopMove(sys);
      MoveKeepsOwned(sys, Pop(sys), sys.c.inbox[0].goal, Received);
      if !C.Taken(sys.c, sys.c.inbox[0]) { TimeoutOwned(Pop(sys), now); }
    }
  }

  lemma ClientPollGood(sys: System, now: nat)
    requires Good(sys)
    ensures Good(Next(sys, ClientPoll(now)))
  {
    ClientPollIs(sys, now);
    GoodIsOwned(sys);
    if sys.c.inbox == [] {
      TimeoutGood(sys, now);
    } else {
      PopMove(sys);
      MoveKeepsGood(sys, Pop(sys), sys.c.inbox[0].goal, Received);
      if !C.Taken(sys.c, sys.c.inbox[0]) { TimeoutGood(Pop(sys), now); }
    }
  }

  // ----- server steps -----

  /** Safe slot reuse at the server: a queued Goal Request finds its ID unbound and its slot free. */
  lemma NoErrorReply(sys: System)
    requires Owned(sys)
    ensures !S.ErrorReplyFires(sys.s)
  {
    if sys.s.inbox != [] {
      var p := sys.s.inbox[0];
      UpHead(sys.s.inbox);
      assert Ownership(ViewOf(sys, p.goal));
      PolledOwned(ViewOf(sys, p.goal));
      if p.kind == REQUEST_KIND_GOAL {
        forall h | h in sys.s.bindings ensures sys.s.bindings[h].slot != p.slot {
          assert Ownership(ViewOf(sys, h));
        }
      }
    }
  }

  lemma ServerPollView(sys: System, sent: bool)
    requires sys.s.initialized && sys.s.inbox != [] && !S.ErrorReplyFires(sys.s)
    requires var p := sys.s.inbox[0];
             Ownership(ViewOf(sys, p.goal))
             && (p.goal in sys.c.bindings ==> ValidGoalId(p.goal) && sys.c.bindings[p.goal].slot < sys.s.slotCount)
             && (p.goal in sys.s.bindings ==> ValidGoalId(p.goal) && sys.s.bindings[p.goal].slot < sys.s.slotCount)
    ensures var g := sys.s.inbox[0].goal;
            ViewOf(sys, g).up != [] && ViewOf(Next(sys, ServerPoll(sent)), g) == AfterPolled(ViewOf(sys, g))
  {
    UpHead(sys.s.inbox);
    PolledOwned(ViewOf(sys, sys.s.inbox[0].goal));
  }

  lemma PollTouchesHead(s: S.Endpoint, h: GoalId)
    requires s.initialized && s.inbox != [] && h != s.inbox[0].goal
    ensures S.Poll(s).next.inbox == s.inbox[1..] && At(S.Poll(s).next.bindings, h) == At(s.bindings, h)
  {
  }

  lemma ServerPollOthers(sys: System, sent: bool, h: GoalId)
    requires sys.s.initialized && sys.s.inbox != [] && !S.ErrorReplyFires(sys.s) && h != sys.s.inbox[0].goal
    ensures ViewOf(Next(sys, ServerPoll(sent)), h) == ViewOf(sys, h)
  {
    UpHead(sys.s.inbox);
    PollTouchesHead(sys.s, h);
    assert Next(sys, ServerPoll(sent)) == sys.(s := S.Poll(sys.s).next);
  }

  lemma ServerPollMove(sys: System, sent: bool)
    requires Owned(sys) && sys.s.inbox != []
    ensures OneMove(sys, Next(sys, ServerPoll(sent)), sys.s.inbox[0].goal, Polled)
  {
    var g := sys.s.inbox[0].goal;
    NoErrorReply(sys);
    S.ApplyKeepsSlots(sys.s, S.OpPoll(sent));
    assert Ownership(ViewOf(sys, g));
    UpHead(sys.s.inbox);
    PolledOwned(ViewOf(sys, g));
    ServerPollView(sys, sent);
    forall h | h != g ensures ViewOf(Next(sys, ServerPoll(sent)), h) == ViewOf(sys, h) {
      ServerPollOthers(sys, sent, h);
    }
  }

  lemma CallViewsOfOthers(sys: System, op: S.Op, h: GoalId)
    requires S.IsCall(op) && h != op.goal
    ensures ViewOf(Next(sys, ServerCall(op)), h) == ViewOf(sys, h)
  {
    S.CallTouchesOwnGoal(sys.s, op, h);
    var (s, attempt) := S.Apply(sys.s, op);
    var next := Next(sys, ServerCall(op));
    if S.SentFlag(op) && attempt.Some? {
      DownForAppend(sys.c.inbox, attempt.value, h);
      assert next.c == C.Receive(sys.c, attempt.value);
    }
    assert next.s == s;
  }

  /** The view after a call in terms of what the endpoint did. */
  function CallResult(sys: System, op: S.Op): View
    requires S.IsCall(op)
  {
    var v := ViewOf(sys, op.goal);
    var (s, attempt) := S.Apply(sys.s, op);
    var w := v.(sb := At(s.bindings, op.goal), takenOver := v.takenOver || (LocalCall(op) && s != sys.s));
    if S.SentFlag(op) && attempt.Some? then w.(down := w.down + [attempt.value]) else w
  }

  lemma AttemptIsOwn(s: S.Endpoint, op: S.Op)
    requires S.IsCall(op) && S.Apply(s, op).1.Some?
    ensures S.Apply(s, op).1.value.goal == op.goal
  {
  }

  /** A call seen from outside: the server's next state, and a packet if one was sent. */
  function Called(sys: System, goal: GoalId, s: S.Endpoint, sent: Option<ServerPacket>, local: bool): System {
    var next := sys.(s := s, takenOver := if local then sys.takenOver + {goal} else sys.takenOver);
    if sent.Some? then Download(next, sent.value) else next
  }

  lemma CalledView(sys: System, goal: GoalId, s: S.Endpoint, sent: Option<ServerPacket>, local: bool)
    requires s.inbox == sys.s.inbox && (sent.Some? ==> sent.value.goal == goal)
    ensures var v := ViewOf(sys, goal);
            var w := v.(sb := At(s.bindings, goal), takenOver := v.takenOver || local);
            ViewOf(Called(sys, goal, s, sent, local), goal) ==
            if sent.Some? then w.(down := w.down + [sent.value]) else w
  {
    if sent.Some? { DownForAppend(sys.c.inbox, sent.value, goal); }
  }

  lemma CallKeepsInbox(s: S.Endpoint, op: S.Op)
    requires S.IsCall(op)
    ensures S.Apply(s, op).0.inbox == s.inbox && S.Apply(s, op).0.slotCount == s.slotCount
  {
  }

  lemma CallStepIs(sys: System, op: S.Op)
    requires S.IsCall(op)
    ensures var (s, attempt) := S.Apply(sys.s, op);
            Next(sys, ServerCall(op)) ==
            Called(sys, op.goal, s, if S.SentFlag(op) then attempt else None, LocalCall(op) && s != sys.s)
  {
  }

  lemma CallViewIs(sys: System, op: S.Op)
    requires S.IsCall(op)
    ensures ViewOf(Next(sys, ServerCall(op)), op.goal) == CallResult(sys, op)
  {
    var (s, attempt) := S.Apply(sys.s, op);
    var sent := if S.SentFlag(op) then attempt else None;
    if attempt.Some? { AttemptIsOwn(sys.s, op); }
    CallKeepsInbox(sys.s, op);
    CalledView(sys, op.goal, s, sent, LocalCall(op) && s != sys.s);
    CallStepIs(sys, op);
  }

  /** The move a call comes to; none if it is refused or sends nothing. */
  function CallMove(s: S.Endpoint, op: S.Op): Option<Move>
    requires S.IsCall(op)
  {
    match op
    case OpAcceptGoal(g, sent) => if S.AcceptGoal(s, g, sent).result then Some(GoalDecided(true)) else None
    case OpRejectGoal(g, sent) => if S.RejectGoal(s, g, sent).result then Some(GoalDecided(false)) else None
    case OpAcceptCancel(g, sent) => if S.AcceptCancel(s, g, sent).result then Some(CancelDecided(true)) else None
    case OpRejectCancel(g, sent) => if S.RejectCancel(s, g, sent).result then Some(CancelDecided(false)) else None
    case OpSendFeedback(g, pdu, sent) =>
      if S.SendFeedback(s, g, pdu, sent).result then Some(FeedbackSent(pdu.body)) else None
    case OpComplete(g, status, pdu, sent) =>
      (match S.Complete(s, g, status, pdu, sent).result
       case Sent => Some(ResultSent(status, pdu.body))
       case SendFailedAfterCommit => Some(ResultLost)
       case NotCommitted => None)
    case OpAcceptCancelLocally(g) => if S.AcceptCancelLocally(s, g).result then Some(TakenOver(true)) else None
    case OpCompleteLocally(g, status, pdu) =>
      if S.CompleteLocally(s, g, status, pdu).result then Some(TakenOver(false)) else None
    case OpDiscard(g) => if S.DiscardPendingGoal(s, g).result then Some(TakenOver(false)) else None
    case _ => None
  }

  predicate CallIsMove(sys: System, op: S.Op)
    requires S.IsCall(op)
  {
    var v := ViewOf(sys, op.goal);
    var move := CallMove(sys.s, op);
    if move.None? then CallResult(sys, op) == v
      else Allowed(v, move.value) && CallResult(sys, op) == After(v, move.value)
  }

  /** The step moved one Goal's view, or none. */
  ghost predicate Moved(sys: System, next: System, move: Option<(GoalId, Move)>) {
    if move.None? then Tables(next) && forall h :: ViewOf(next, h) == ViewOf(sys, h)
    else OneMove(sys, next, move.value.0, move.value.1)
  }

  lemma GoalCallIs(sys: System, op: S.Op)
    requires op.OpAcceptGoal? || op.OpRejectGoal?
    ensures CallIsMove(sys, op)
  {
  }

  lemma CancelCallIs(sys: System, op: S.Op)
    requires op.OpAcceptCancel? || op.OpRejectCancel?
    ensures CallIsMove(sys, op)
  {
  }

  lemma FeedbackCallIs(sys: System, op: S.Op)
    requires op.OpSendFeedback?
    ensures CallIsMove(sys, op)
  {
  }

  lemma CompleteCallIs(sys: System, op: S.Op)
    requires op.OpComplete?
    ensures CallIsMove(sys, op)
  {
    S.CommitPoint(sys.s, op.goal, op.status, op.pdu, op.sent);
  }

  lemma LocalCancelIs(sys: System, op: S.Op)
    requires op.OpAcceptCancelLocally?
    ensures CallIsMove(sys, op)
  {
  }

  lemma LocalEndIs(sys: System, op: S.Op)
    requires op.OpCompleteLocally? || op.OpDiscard?
    ensures CallIsMove(sys, op)
  {
  }

  lemma CallIs(sys: System, op: S.Op)
    requires S.IsCall(op)
    ensures CallIsMove(sys, op)
  {
    if op.OpAcceptCancelLocally? { LocalCancelIs(sys, op); }
    else if op.OpCompleteLocally? || op.OpDiscard? { LocalEndIs(sys, op); }
    else if op.OpSendFeedback? { FeedbackCallIs(sys, op); }
    else if op.OpComplete? { CompleteCallIs(sys, op); }
    else if op.OpAcceptGoal? || op.OpRejectGoal? { GoalCallIs(sys, op); }
    else { CancelCallIs(sys, op); }
  }

  /** The view of the Goal a call names, after the call. */
  lemma OwnCallView(sys: System, op: S.Op)
    requires S.IsCall(op)
    ensures var (v, w, move) := (ViewOf(sys, op.goal), ViewOf(Next(sys, ServerCall(op)), op.goal), CallMove(sys.s, op));
            if move.None? then w == v else Allowed(v, move.value) && w == After(v, move.value)
  {
    CallViewIs(sys, op);
    CallIs(sys, op);
  }

  lemma CallTables(sys: System, op: S.Op)
    requires Tables(sys) && S.IsCall(op)
    ensures Tables(Next(sys, ServerCall(op)))
  {
    S.ApplyKeepsSlots(sys.s, op);
    CallStepIs(sys, op);
  }

  lemma MovedOne(sys: System, next: System, g: GoalId, move: Option<Move>)
    requires Tables(next) && forall h | h != g :: ViewOf(next, h) == ViewOf(sys, h)
    requires if move.None? then ViewOf(next, g) == ViewOf(sys, g)
             else Allowed(ViewOf(sys, g), move.value) && ViewOf(next, g) == After(ViewOf(sys, g), move.value)
    ensures Moved(sys, next, if move.None? then None else Some((g, move.value)))
  {
  }

  lemma ServerCallMove(sys: System, op: S.Op)
    requires Tables(sys) && S.IsCall(op)
    ensures Moved(sys, Next(sys, ServerCall(op)), StepMove(sys, ServerCall(op)))
  {
    var next := Next(sys, ServerCall(op));
    CallTables(sys, op);
    forall h | h != op.goal ensures ViewOf(next, h) == ViewOf(sys, h) { CallViewsOfOthers(sys, op, h); }
    OwnCallView(sys, op);
    MovedOne(sys, next, op.goal, CallMove(sys.s, op));
  }

  // ----- whole runs -----

  lemma {:induction false} RunAppend(sys: System, first: seq<Step>, second: seq<Step>)
    ensures Run(sys, first + second) == Run(Run(sys, first), second)
    decreases |first|
  {
    if first == [] {
      assert first + second == second;
    } else {
      assert (first + second)[1..] == first[1..] + second;
      RunAppend(Next(sys, first[0]), first[1..], second);
    }
  }

  lemma RunOne(sys: System, step: Step)
    ensures Run(sys, [step]) == Next(sys, step)
  {
    assert [step][1..] == [];
  }

  lemma ViewsKept(sys: System, next: System)
    requires Tables(next) && forall h :: ViewOf(next, h) == ViewOf(sys, h)
    ensures Owned(sys) ==> Owned(next)
    ensures Good(sys) ==> Good(next)
  {
    forall h ensures Ownership(ViewOf(sys, h)) ==> Ownership(ViewOf(next, h)) {
      assert ViewOf(next, h) == ViewOf(sys, h);
    }
    forall h ensures Sound(ViewOf(sys, h)) ==> Sound(ViewOf(next, h)) { assert ViewOf(next, h) == ViewOf(sys, h); }
  }

  /** The move of a step other than a client poll; none if the step changes nothing. */
  function StepMove(sys: System, step: Step): Option<(GoalId, Move)>
    requires !step.ClientPoll?
  {
    match step
    case Reserve(g, timeout, now) =>
      var (c, answer) := C.Reserve(sys.c, g, timeout, now);
      if answer == C.Success then Some((g, Reserved(c.bindings[g]))) else None
    case SendGoal(g, body) => if g in sys.sending then Some((g, GoalSent(body))) else None
    case RollBack(g) => if g in sys.sending then Some((g, RolledBack)) else None
    case CommitCancel(g) => if C.MayCancel(sys.c, g) then Some((g, CancelCommitted)) else None
    case SendCancel(g, i) => if i < |Open(sys, g)| then Some((g, CancelSent(i))) else None
    case RollBackCancel(g, i) => if i < |Open(sys, g)| then Some((g, CancelRolledBack(i))) else None
    case ServerPoll(_) => if sys.s.inbox != [] then Some((sys.s.inbox[0].goal, Polled)) else None
    case ServerCall(op) =>
      if !S.IsCall(op) then None else match CallMove(sys.s, op) case None => None case Some(m) => Some((op.goal, m))
  }

  lemma StepIsMove(sys: System, step: Step)
    requires Owned(sys) && !step.ClientPoll?
    ensures Moved(sys, Next(sys, step), StepMove(sys, step))
  {
    if step.ServerCall? {
      if S.IsCall(step.op) { ServerCallMove(sys, step.op); }
    } else if StepMove(sys, step).Some? {
      match step {
        case Reserve(g, timeout, now) => ReserveMove(sys, g, timeout, now);
        case SendGoal(g, body) => SendGoalMove(sys, g, body);
        case RollBack(g) => RollBackMove(sys, g);
        case CommitCancel(g) => CommitCancelMove(sys, g);
        case SendCancel(g, i) => SendCancelMove(sys, g, i);
        case RollBackCancel(g, i) => RollBackCancelMove(sys, g, i);
        case ServerPoll(sent) => ServerPollMove(sys, sent);
      }
    }
  }

  lemma StepOwned(sys: System, step: Step)
    requires Owned(sys)
    ensures Owned(Next(sys, step))
  {
    if step.ClientPoll? {
      ClientPollOwned(sys, step.now);
    } else {
      StepIsMove(sys, step);
      match StepMove(sys, step)
      case None => ViewsKept(sys, Next(sys, step));
      case Some((g, m)) => MoveKeepsOwned(sys, Next(sys, step), g, m);
    }
  }

  lemma StepGood(sys: System, step: Step)
    requires Good(sys) && Disciplined(sys, step)
    ensures Good(Next(sys, step))
  {
    GoodIsOwned(sys);
    if step.ClientPoll? {
      ClientPollGood(sys, step.now);
    } else {
      StepIsMove(sys, step);
      match StepMove(sys, step)
      case None => ViewsKept(sys, Next(sys, step));
      case Some((g, m)) => MoveKeepsGood(sys, Next(sys, step), g, m);
    }
  }

  lemma {:induction false} RunOwned(sys: System, steps: seq<Step>)
    requires Owned(sys)
    ensures Owned(Run(sys, steps))
    decreases |steps|
  {
    if steps == [] {
    } else {
      StepOwned(sys, steps[0]);
      RunOwned(Next(sys, steps[0]), steps[1..]);
    }
  }

  lemma {:induction false} RunGood(sys: System, steps: seq<Step>)
    requires Good(sys) && DisciplinedRun(sys, steps)
    ensures Good(Run(sys, steps))
    decreases |steps|
  {
    if steps == [] {
    } else {
      StepGood(sys, steps[0]);
      RunGood(Next(sys, steps[0]), steps[1..]);
    }
  }

  lemma StartGood(slotCount: nat)
    ensures Good(Start(slotCount)) && Owned(Start(slotCount))
  {
    forall g ensures Sound(ViewOf(Start(slotCount), g)) && Ownership(ViewOf(Start(slotCount), g)) {}
  }

  /**
   * Safe slot reuse over every run, without any discipline: every Goal bound at the server is bound at
   * the client in the same slot, so the duplicate-ID and owned-slot replies never fire, and a Goal
   * Request at the head of the queue is always surfaced to the application.
   */
  lemma SafeSlotReuse(slotCount: nat, steps: seq<Step>)
    ensures var sys := Run(Start(slotCount), steps);
            && (forall g <- sys.s.bindings :: g in sys.c.bindings && sys.c.bindings[g].slot == sys.s.bindings[g].slot)
            && !S.ErrorReplyFires(sys.s)
            && (sys.s.inbox != [] && sys.s.inbox[0].kind == REQUEST_KIND_GOAL ==>
                  S.Poll(sys.s).result == S.GoalRequest(sys.s.inbox[0].goal, sys.s.inbox[0].body))
  {
    var sys := Run(Start(slotCount), steps);
    StartGood(slotCount);
    RunOwned(Start(slotCount), steps);
    NoErrorReply(sys);
    forall g <- sys.s.bindings ensures g in sys.c.bindings && sys.c.bindings[g].slot == sys.s.bindings[g].slot {
      assert Ownership(ViewOf(sys, g));
    }
    if sys.s.inbox != [] {
      var p := sys.s.inbox[0];
      assert Ownership(ViewOf(sys, p.goal));
      UpHead(sys.s.inbox);
      PolledOwned(ViewOf(sys, p.goal));
    }
  }

  /**
   * Agreement over every disciplined run, for every Goal the client still follows: folding the packets
   * in flight over the client's binding gives the state that corresponds to the server's binding.
   */
  lemma AgreementOfEveryRun(slotCount: nat, steps: seq<Step>, g: GoalId)
    requires DisciplinedRun(Start(slotCount), steps)
    ensures var v := ViewOf(Run(Start(slotCount), steps), g);
            Followed(v) && !OpenSend(v) ==> Corresponds(v, Fold(v.cb.value, v.down))
  {
    StartGood(slotCount);
    RunGood(Start(slotCount), steps);
    assert Sound(ViewOf(Run(Start(slotCount), steps), g));
  }

  /**
   * Nothing is dropped: in every disciplined run the packet at the head of the client's queue is
   * delivered, unless its Goal timed out or was taken over by the server.
   */
  lemma NothingDropped(slotCount: nat, steps: seq<Step>, now: nat)
    requires DisciplinedRun(Start(slotCount), steps)
    ensures var sys := Run(Start(slotCount), steps);
            sys.c.inbox != [] ==>
              var p := sys.c.inbox[0];
              && p.goal in sys.c.bindings
              && (|| C.Poll(sys.c, now).1 == C.Delivered(p)
                  || sys.c.bindings[p.goal].state == C.GoalResponseTimedOut
                  || p.goal in sys.takenOver)
  {
    var sys := Run(Start(slotCount), steps);
    StartGood(slotCount);
    RunGood(Start(slotCount), steps);
    if sys.c.inbox != [] {
      var p := sys.c.inbox[0];
      var v := ViewOf(sys, p.goal);
      DownHead(sys.c.inbox);
      assert Sound(v);
      ReceivedSound(v);
    }
  }
}
