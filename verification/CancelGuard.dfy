/**
 * The guard of the agreement is exact: from any good state a reservation is safe if and only if no cancel
 * send is open for its ID.
 */
module CancelGuard {
  import opened ActionTypes
  import opened GoalView
  import opened Composition
  import C = ClientEndpointSpec
  import S = ServerEndpointSpec

  // ----- letting the queues run until a Goal's own packet has been read -----

  ghost predicate NoReserve(steps: seq<Step>) { forall i | 0 <= i < |steps| :: !steps[i].Reserve? }

  lemma {:induction false} NoReserveIsDisciplined(sys: System, steps: seq<Step>)
    requires NoReserve(steps)
    ensures DisciplinedRun(sys, steps)
    decreases |steps|
  {
    if steps == [] {
    } else {
      NoReserveIsDisciplined(Next(sys, steps[0]), steps[1..]);
    }
  }

  lemma ServerPollTowards(sys: System, g: GoalId)
    requires Owned(sys) && |ViewOf(sys, g).up| == 1
    ensures sys.s.inbox != [] && Allowed(ViewOf(sys, g), Polled)
    ensures var next := Next(sys, ServerPoll(true));
            && Owned(next)
            && (if sys.s.inbox[0].goal == g then ViewOf(next, g) == After(ViewOf(sys, g), Polled)
                else ViewOf(next, g) == ViewOf(sys, g) && |next.s.inbox| < |sys.s.inbox|)
  {
    assert Ownership(ViewOf(sys, g));
    PolledOwned(ViewOf(sys, g));
    ServerPollMove(sys, true);
    StepOwned(sys, ServerPoll(true));
    ShorterInbox(sys);
  }

  /** A step that reserves nothing, in front of a run. */
  lemma Prepend(sys: System, step: Step, mid: System, more: seq<Step>)
    requires mid == Next(sys, step) && !step.Reserve? && NoReserve(more)
    ensures Run(sys, [step] + more) == Run(mid, more) && NoReserve([step] + more)
  {
    assert ([step] + more)[1..] == more;
  }

  lemma {:induction false} ServerReads(sys: System, g: GoalId) returns (steps: seq<Step>)
    requires Owned(sys) && |ViewOf(sys, g).up| == 1
    ensures NoReserve(steps) && Owned(Run(sys, steps))
    ensures Allowed(ViewOf(sys, g), Polled) && ViewOf(Run(sys, steps), g) == After(ViewOf(sys, g), Polled)
    decreases |sys.s.inbox|
  {
    var mid := Next(sys, ServerPoll(true));
    ServerPollTowards(sys, g);
    var more := [];
    if sys.s.inbox[0].goal != g { more := ServerReads(mid, g); }
    Prepend(sys, ServerPoll(true), mid, more);
    steps := [ServerPoll(true)] + more;
  }

  lemma ShorterInbox(sys: System)
    requires Owned(sys) && sys.s.inbox != []
    ensures |Next(sys, ServerPoll(true)).s.inbox| < |sys.s.inbox|
  {
    NoErrorReply(sys);
    PollTouchesHead(sys.s, sys.s.inbox[0].goal + 1);
  }

  /** One client poll in front of the packet that matters leaves the Goal alone, unless the Goal is due to time out. */
  lemma ClientPollElsewhere(sys: System, g: GoalId, now: nat)
    requires Owned(sys) && sys.c.inbox != [] && sys.c.inbox[0].goal != g
    requires g in sys.c.bindings && !C.HasExpired(sys.c.bindings[g], now)
    ensures ViewOf(Next(sys, ClientPoll(now)), g) == ViewOf(sys, g)
    ensures Next(sys, ClientPoll(now)).c.inbox == sys.c.inbox[1..]
  {
    ClientPollIs(sys, now);
    PopMove(sys);
    PopOthers(sys, g);
    BoundSame(sys, Pop(sys), g);
    TimeoutElsewhere(Pop(sys), g, now);
  }

  lemma TimeoutElsewhere(sys: System, g: GoalId, now: nat)
    requires Tables(sys) && g in sys.c.bindings && !C.HasExpired(sys.c.bindings[g], now)
    ensures ViewOf(sys.(c := C.CheckTimeouts(sys.c, now).0), g) == ViewOf(sys, g)
    ensures C.CheckTimeouts(sys.c, now).0.inbox == sys.c.inbox
  {
    var (c, event) := C.CheckTimeouts(sys.c, now);
    if event.TimedOut? { TimeoutMove(sys, now); }
  }

  lemma ClientPollOwn(sys: System, now: nat)
    requires Owned(sys) && sys.c.inbox != []
    requires var g := sys.c.inbox[0].goal;
             g in sys.c.bindings && C.React(sys.c.bindings[g], sys.c.inbox[0]) != C.Ignore
    ensures ViewOf(sys, sys.c.inbox[0].goal).down != []
    ensures ViewOf(Next(sys, ClientPoll(now)), sys.c.inbox[0].goal) == AfterReceived(ViewOf(sys, sys.c.inbox[0].goal))
  {
    ClientPollIs(sys, now);
    PopMove(sys);
    assert Ownership(ViewOf(sys, sys.c.inbox[0].goal));
    assert C.Taken(sys.c, sys.c.inbox[0]);
  }

  /** The Goal's one packet is waiting and will be taken. */
  ghost predicate Expects(sys: System, g: GoalId, now: nat) {
    && Owned(sys) && |ViewOf(sys, g).down| == 1 && g in sys.c.bindings
    && !C.HasExpired(sys.c.bindings[g], now) && C.React(sys.c.bindings[g], ViewOf(sys, g).down[0]) != C.Ignore
  }

  lemma ClientPollTowards(sys: System, g: GoalId, now: nat)
    requires Expects(sys, g, now)
    ensures sys.c.inbox != []
    ensures var next := Next(sys, ClientPoll(now));
            && Owned(next)
            && (if sys.c.inbox[0].goal == g then ViewOf(next, g) == AfterReceived(ViewOf(sys, g))
                else Expects(next, g, now) && ViewOf(next, g) == ViewOf(sys, g) && |next.c.inbox| < |sys.c.inbox|)
  {
    StepOwned(sys, ClientPoll(now));
    if sys.c.inbox[0].goal == g {
      DownHead(sys.c.inbox);
      ClientPollOwn(sys, now);
    } else {
      ClientPollElsewhere(sys, g, now);
      BoundSame(sys, Next(sys, ClientPoll(now)), g);
    }
  }

  lemma {:induction false} ClientReads(sys: System, g: GoalId, now: nat) returns (steps: seq<Step>)
    requires Expects(sys, g, now)
    ensures NoReserve(steps) && Owned(Run(sys, steps))
    ensures ViewOf(Run(sys, steps), g) == AfterReceived(ViewOf(sys, g))
    decreases |sys.c.inbox|
  {
    var mid := Next(sys, ClientPoll(now));
    ClientPollTowards(sys, g, now);
    var more := [];
    if sys.c.inbox[0].goal != g { more := ClientReads(mid, g, now); }
    Prepend(sys, ClientPoll(now), mid, more);
    steps := [ClientPoll(now)] + more;
  }

  lemma BoundSame(sys: System, next: System, g: GoalId)
    requires ViewOf(next, g) == ViewOf(sys, g) && g in sys.c.bindings
    ensures g in next.c.bindings && next.c.bindings[g] == sys.c.bindings[g]
  {
    assert ViewOf(next, g).cb == ViewOf(sys, g).cb;
  }

  // ----- the race -----

  /** A step whose move is known, as an addition to a run. */
  lemma Extend(start: System, steps: seq<Step>, sys: System, step: Step)
    requires sys == Run(start, steps) && NoReserve(steps) && !step.Reserve? && Owned(sys)
    ensures Run(start, steps + [step]) == Next(sys, step) && NoReserve(steps + [step]) && Owned(Next(sys, step))
  {
    RunAppend(start, steps, [step]);
    RunOne(sys, step);
    StepOwned(sys, step);
  }

  lemma ExtendMany(start: System, steps: seq<Step>, sys: System, more: seq<Step>)
    requires sys == Run(start, steps) && NoReserve(steps) && NoReserve(more)
    ensures Run(start, steps + more) == Run(sys, more) && NoReserve(steps + more)
  {
    RunAppend(start, steps, more);
  }

  /** The view of a Goal that nothing is in flight for. */
  function Still(g: GoalId, cb: C.Binding, sb: Option<S.Binding>, open: seq<nat>): View {
    View(g, Some(cb), sb, [], [], None, open, false)
  }

  /** From the reservation to a Goal that both sides hold as accepted, with the old cancel send still open. */
  lemma Accept(start: System, g: GoalId, cb: C.Binding, open: seq<nat>) returns (steps: seq<Step>)
    requires Owned(start) && ValidGoalId(g) && cb.state == C.AwaitingGoalResponse && cb.nextSeq == 0
    requires ViewOf(start, g) == View(g, Some(cb), None, [], [], Some(cb.slot), open, false)
    ensures NoReserve(steps) && Owned(Run(start, steps))
    ensures ViewOf(Run(start, steps), g) ==
            Still(g, cb.(state := C.GoalAccepted), Some(S.Binding(cb.slot, S.GoalAccepted, 0, false)), open)
  {
    var s1 := Next(start, SendGoal(g, []));
    SendGoalMove(start, g, []);
    assert Run(start, []) == start;
    Extend(start, [], start, SendGoal(g, []));
    assert ViewOf(s1, g).up == [C.GoalRequestPacket(cb.slot, g, [])];
    steps := [] + [SendGoal(g, [])];
    var served := ServerReads(s1, g);
    ExtendMany(start, steps, s1, served);
    var s2 := Run(s1, served);
    steps := steps + served;
    assert ViewOf(s2, g) == Still(g, cb, Some(S.Binding(cb.slot, S.AwaitingGoalDecision, 0, false)), open);
    var s3 := AcceptedByServer(start, steps, s2, g, cb, open);
    steps := steps + [ServerCall(S.OpAcceptGoal(g, true))];
    AcceptTaken(cb, g);
    var learns := ClientReads(s3, g, cb.sentAt);
    ExtendMany(start, steps, s3, learns);
    steps := steps + learns;
  }

  lemma AcceptTaken(cb: C.Binding, g: GoalId)
    requires cb.state == C.AwaitingGoalResponse
    ensures !C.HasExpired(cb, cb.sentAt)
            && C.React(cb, GoalResponse(cb.slot, g, Accepted)) == C.Keep(cb.(state := C.GoalAccepted))
  {
  }

  lemma AcceptedByServer(start: System, steps: seq<Step>, sys: System, g: GoalId, cb: C.Binding, open: seq<nat>)
    returns (next: System)
    requires sys == Run(start, steps) && NoReserve(steps) && Owned(sys) && ValidGoalId(g)
             && cb.state == C.AwaitingGoalResponse
    requires ViewOf(sys, g) == Still(g, cb, Some(S.Binding(cb.slot, S.AwaitingGoalDecision, 0, false)), open)
    ensures next == Run(start, steps + [ServerCall(S.OpAcceptGoal(g, true))]) && Owned(next)
    ensures NoReserve(steps + [ServerCall(S.OpAcceptGoal(g, true))])
    ensures ViewOf(next, g) == Still(g, cb, Some(S.Binding(cb.slot, S.GoalAccepted, 0, false)), open)
                                 .(down := [GoalResponse(cb.slot, g, Accepted)])
    ensures g in next.c.bindings && next.c.bindings[g] == cb
  {
    var op := S.OpAcceptGoal(g, true);
    next := Next(sys, ServerCall(op));
    Extend(start, steps, sys, ServerCall(op));
    BoundAt(sys, g, S.Binding(cb.slot, S.AwaitingGoalDecision, 0, false));
    CallMoves(sys, op, GoalDecided(true));
    assert ViewOf(next, g).cb == Some(cb);
  }

  lemma CancelGoesUp(sys: System, g: GoalId, cb: C.Binding, sb: S.Binding)
    requires Owned(sys) && ViewOf(sys, g) == Still(g, cb, Some(sb), [cb.slot])
    ensures var next := Next(sys, SendCancel(g, 0));
            Owned(next) && ViewOf(next, g) == Still(g, cb, Some(sb), []).(up := [C.CancelRequestPacket(cb.slot, g)])
  {
    SendCancelMove(sys, g, 0);
    MoveKeepsOwned(sys, Next(sys, SendCancel(g, 0)), g, CancelSent(0));
    SentView(g, cb, sb);
  }

  lemma SentView(g: GoalId, cb: C.Binding, sb: S.Binding)
    ensures var v := Still(g, cb, Some(sb), [cb.slot]);
            Allowed(v, CancelSent(0))
            && After(v, CancelSent(0)) == Still(g, cb, Some(sb), []).(up := [C.CancelRequestPacket(cb.slot, g)])
  {
    assert RemoveAt([cb.slot], 0) == []
           && [] + [C.CancelRequestPacket(cb.slot, g)] == [C.CancelRequestPacket(cb.slot, g)];
  }

  /** A cancel is sent and read by the server. */
  lemma CancelIsRead(sys: System, g: GoalId, cb: C.Binding) returns (steps: seq<Step>)
    requires Owned(sys) && ViewOf(sys, g) == Still(g, cb, Some(S.Binding(cb.slot, S.GoalAccepted, 0, false)), [cb.slot])
    ensures NoReserve(steps) && Owned(Run(sys, steps))
    ensures ViewOf(Run(sys, steps), g) == Still(g, cb, Some(S.Binding(cb.slot, S.GoalAccepted, 0, true)), [])
  {
    var mid := Next(sys, SendCancel(g, 0));
    CancelGoesUp(sys, g, cb, S.Binding(cb.slot, S.GoalAccepted, 0, false));
    var served := ServerReads(mid, g);
    Prepend(sys, SendCancel(g, 0), mid, served);
    steps := [SendCancel(g, 0)] + served;
  }

  /** The accepted Goal is cancelled, the old send fails in between, and then the new cancel goes its way. */
  lemma Part(start: System, g: GoalId, cb: C.Binding, stale: nat) returns (steps: seq<Step>)
    requires Owned(start) && ValidGoalId(g) && cb.state == C.GoalAccepted
    requires ViewOf(start, g) == Still(g, cb, Some(S.Binding(cb.slot, S.GoalAccepted, 0, false)), [stale])
    ensures NoReserve(steps) && Owned(Run(start, steps))
    ensures ViewOf(Run(start, steps), g) ==
            Still(g, cb, Some(S.Binding(cb.slot, S.CancelAccepted, 0, false)), [])
              .(down := [CancelResponse(cb.slot, g, Accepted)])
  {
    var mid := RolledBackByOther(start, g, cb, stale);
    steps := [CommitCancel(g), RollBackCancel(g, 0)];
    var read := CancelIsRead(mid, g, cb);
    ExtendMany(start, steps, mid, read);
    steps := steps + read;
    AnsweredByServer(start, steps, Run(mid, read), g, cb);
    steps := steps + [ServerCall(S.OpAcceptCancel(g, true))];
  }

  lemma RolledBackByOther(start: System, g: GoalId, cb: C.Binding, stale: nat) returns (next: System)
    requires Owned(start) && ValidGoalId(g) && cb.state == C.GoalAccepted
    requires ViewOf(start, g) == Still(g, cb, Some(S.Binding(cb.slot, S.GoalAccepted, 0, false)), [stale])
    ensures next == Run(start, [CommitCancel(g), RollBackCancel(g, 0)]) && Owned(next)
    ensures NoReserve([CommitCancel(g), RollBackCancel(g, 0)])
    ensures ViewOf(next, g) == Still(g, cb, Some(S.Binding(cb.slot, S.GoalAccepted, 0, false)), [cb.slot])
  {
    var s1 := CommittedNext(start, g, cb, [stale]);
    next := Next(s1, RollBackCancel(g, 0));
    RollBackCancelMove(s1, g, 0);
    RollBackView(g, cb, Some(S.Binding(cb.slot, S.GoalAccepted, 0, false)), stale);
    Extend(start, [CommitCancel(g)], s1, RollBackCancel(g, 0));
    assert [CommitCancel(g)] + [RollBackCancel(g, 0)] == [CommitCancel(g), RollBackCancel(g, 0)];
  }

  lemma CommittedNext(start: System, g: GoalId, cb: C.Binding, open: seq<nat>) returns (next: System)
    requires Owned(start) && ValidGoalId(g) && cb.state == C.GoalAccepted
    requires ViewOf(start, g) == Still(g, cb, Some(S.Binding(cb.slot, S.GoalAccepted, 0, false)), open)
    ensures next == Run(start, [CommitCancel(g)]) && Owned(next)
    ensures ViewOf(next, g) ==
            Still(g, Waiting(cb), Some(S.Binding(cb.slot, S.GoalAccepted, 0, false)), open + [cb.slot])
  {
    next := Next(start, CommitCancel(g));
    assert ViewOf(start, g).cb == Some(cb);
    assert C.MayCancel(start.c, g);
    CommitCancelMove(start, g);
    StepOwned(start, CommitCancel(g));
    RunOne(start, CommitCancel(g));
  }

  lemma RollBackView(g: GoalId, cb: C.Binding, sb: Option<S.Binding>, stale: nat)
    requires cb.state == C.GoalAccepted
    ensures var v := Still(g, Waiting(cb), sb, [stale] + [cb.slot]);
            After(v, CancelRolledBack(0)) == Still(g, cb, sb, [cb.slot])
  {
    assert RemoveAt([stale] + [cb.slot], 0) == [cb.slot];
    assert Waiting(cb).(state := C.GoalAccepted) == cb;
  }

  lemma AnsweredByServer(start: System, steps: seq<Step>, sys: System, g: GoalId, cb: C.Binding)
    requires sys == Run(start, steps) && NoReserve(steps) && Owned(sys) && ValidGoalId(g)
    requires ViewOf(sys, g) == Still(g, cb, Some(S.Binding(cb.slot, S.GoalAccepted, 0, true)), [])
    ensures var all := steps + [ServerCall(S.OpAcceptCancel(g, true))];
            && NoReserve(all) && Owned(Run(start, all))
            && ViewOf(Run(start, all), g) ==
               Still(g, cb, Some(S.Binding(cb.slot, S.CancelAccepted, 0, false)), [])
                 .(down := [CancelResponse(cb.slot, g, Accepted)])
  {
    var op := S.OpAcceptCancel(g, true);
    Extend(start, steps, sys, ServerCall(op));
    BoundAt(sys, g, S.Binding(cb.slot, S.GoalAccepted, 0, true));
    CallMoves(sys, op, CancelDecided(true));
  }

  lemma BoundAt(sys: System, g: GoalId, b: S.Binding)
    requires ViewOf(sys, g).sb == Some(b)
    ensures g in sys.s.bindings && sys.s.bindings[g] == b
  {
  }

  /** A server call whose move is known. */
  lemma CallMoves(sys: System, op: S.Op, m: Move)
    requires Owned(sys) && S.IsCall(op) && CallMove(sys.s, op) == Some(m)
    ensures Allowed(ViewOf(sys, op.goal), m)
            && ViewOf(Next(sys, ServerCall(op)), op.goal) == After(ViewOf(sys, op.goal), m)
  {
    OwnCallView(sys, op);
  }

  /** The client never drops a packet of a Goal it follows. */
  predicate KeepsUp(sys: System, g: GoalId) {
    var v := ViewOf(sys, g);
    Followed(v) && !OpenSend(v) ==> Fold(v.cb.value, v.down) != Dropped
  }

  /** In a good state an ID that can be reserved has one open cancel send at most, and nothing else in flight. */
  lemma ReservedAgain(sys: System, g: GoalId, timeout: nat, now: nat)
    requires Good(sys) && C.Reserve(sys.c, g, timeout, now).1 == C.Success && Open(sys, g) != []
    ensures var next := Next(sys, Reserve(g, timeout, now));
            var cb := C.Reserve(sys.c, g, timeout, now).0.bindings[g];
            && Owned(next) && ValidGoalId(g) && cb.state == C.AwaitingGoalResponse && cb.nextSeq == 0
            && ViewOf(next, g) == View(g, Some(cb), None, [], [], Some(cb.slot), [Open(sys, g)[0]], false)
  {
    var v := ViewOf(sys, g);
    assert Sound(v);
    GoodIsOwned(sys);
    ReserveMove(sys, g, timeout, now);
    StepOwned(sys, Reserve(g, timeout, now));
    assert v.cb.None? && v.sb.None? && v.down == [] && v.up == [] && v.sending.None?;
    assert v.cancelling == [v.cancelling[0]];
  }

  /** The client has gone back to GoalAccepted, so the answer to its cancel is dropped. */
  lemma AnswerIsDropped(sys: System, g: GoalId, cb: C.Binding)
    requires cb.state == C.GoalAccepted
    requires ViewOf(sys, g) ==
             Still(g, cb, Some(S.Binding(cb.slot, S.CancelAccepted, 0, false)), [])
               .(down := [CancelResponse(cb.slot, g, Accepted)])
    ensures !KeepsUp(sys, g)
  {
    var w := ViewOf(sys, g);
    assert !GoalQueued(w) && Fold(w.cb.value, w.down) == Dropped;
  }

  /** From every good state in which the guard fails, the system can go on with discipline and part all the same. */
  lemma RaceParts(sys: System, g: GoalId, timeout: nat, now: nat) returns (steps: seq<Step>)
    requires Good(sys) && C.Reserve(sys.c, g, timeout, now).1 == C.Success && Open(sys, g) != []
    ensures var next := Next(sys, Reserve(g, timeout, now));
            DisciplinedRun(next, steps) && !KeepsUp(Run(next, steps), g)
  {
    var next := Next(sys, Reserve(g, timeout, now));
    var cb := C.Reserve(sys.c, g, timeout, now).0.bindings[g];
    var stale := Open(sys, g)[0];
    ReservedAgain(sys, g, timeout, now);
    steps := FollowReservation(next, g, cb, stale);
    NoReserveIsDisciplined(next, steps);
  }

  lemma FollowReservation(next: System, g: GoalId, cb: C.Binding, stale: nat) returns (steps: seq<Step>)
    requires Owned(next) && ValidGoalId(g) && cb.state == C.AwaitingGoalResponse && cb.nextSeq == 0
    requires ViewOf(next, g) == View(g, Some(cb), None, [], [], Some(cb.slot), [stale], false)
    ensures NoReserve(steps) && !KeepsUp(Run(next, steps), g)
  {
    var first := Accept(next, g, cb, [stale]);
    var mid := Run(next, first);
    var second := Part(mid, g, cb.(state := C.GoalAccepted), stale);
    ExtendMany(next, first, mid, second);
    steps := first + second;
    AnswerIsDropped(Run(mid, second), g, cb.(state := C.GoalAccepted));
  }

  /**
   * The guard is exact.  From any good state, a reservation that succeeds is followed only by runs in
   * which no packet of the Goal is dropped if and only if no cancel send was open for its ID.
   */
  lemma ReserveSafeExactly(sys: System, g: GoalId, timeout: nat, now: nat)
    requires Good(sys) && C.Reserve(sys.c, g, timeout, now).1 == C.Success
    ensures Open(sys, g) == [] <==>
              forall steps | DisciplinedRun(Next(sys, Reserve(g, timeout, now)), steps) ::
                KeepsUp(Run(Next(sys, Reserve(g, timeout, now)), steps), g)
  {
    var next := Next(sys, Reserve(g, timeout, now));
    if Open(sys, g) == [] {
      StepGood(sys, Reserve(g, timeout, now));
      forall steps | DisciplinedRun(next, steps) ensures KeepsUp(Run(next, steps), g) {
        RunGood(next, steps);
        assert Sound(ViewOf(Run(next, steps), g));
      }
    } else {
      var steps := RaceParts(sys, g, timeout, now);
      assert DisciplinedRun(next, steps) && !KeepsUp(Run(next, steps), g);
    }
  }

  // ----- the race is reached -----

  /** Only a reservation binds a Goal at the client. */
  lemma {:induction false} NothingNewBound(sys: System, steps: seq<Step>)
    requires NoReserve(steps)
    ensures Run(sys, steps).c.bindings.Keys <= sys.c.bindings.Keys && Run(sys, steps).c.initialized == sys.c.initialized
    ensures Run(sys, steps).c.slotCount == sys.c.slotCount
    decreases |steps|
  {
    if steps == [] {
    } else {
      NothingNewBoundStep(sys, steps[0]);
      NothingNewBound(Next(sys, steps[0]), steps[1..]);
    }
  }

  lemma NothingNewBoundStep(sys: System, step: Step)
    requires !step.Reserve?
    ensures Next(sys, step).c.bindings.Keys <= sys.c.bindings.Keys
    ensures Next(sys, step).c.initialized == sys.c.initialized && Next(sys, step).c.slotCount == sys.c.slotCount
  {
  }

  /** The Result reaches a client that still waits for the answer to its cancel. */
  lemma ResultIsRead(sys: System, g: GoalId, cb: C.Binding) returns (steps: seq<Step>)
    requires Owned(sys) && g in sys.c.bindings && sys.c.bindings[g] == Waiting(cb)
    requires ViewOf(sys, g) == Still(g, Waiting(cb), None, [cb.slot]).(down := [Result(cb.slot, g, Succeeded, [])])
    ensures NoReserve(steps) && ViewOf(Run(sys, steps), g) == View(g, None, None, [], [], None, [cb.slot], false)
  {
    assert C.React(Waiting(cb), Result(cb.slot, g, Succeeded, [])) == C.Finish && !C.HasExpired(Waiting(cb), cb.sentAt);
    steps := ClientReads(sys, g, cb.sentAt);
  }

  /** An accepted Goal is cancelled, and its Result overtakes the send of the cancel. */
  lemma Overtaken(start: System, g: GoalId, cb: C.Binding) returns (steps: seq<Step>)
    requires Owned(start) && ValidGoalId(g) && cb.state == C.GoalAccepted && cb.slot < start.s.slotCount
    requires ViewOf(start, g) == Still(g, cb, Some(S.Binding(cb.slot, S.GoalAccepted, 0, false)), [])
    ensures NoReserve(steps) && ViewOf(Run(start, steps), g) == View(g, None, None, [], [], None, [cb.slot], false)
  {
    var s1 := CommittedNext(start, g, cb, []);
    steps := [CommitCancel(g)];
    SlotCountKept(start, steps);
    assert [] + [cb.slot] == [cb.slot];
    var op := S.OpComplete(g, Succeeded, AppPdu(true, true, []), true);
    var s2 := Completed(start, steps, s1, g, cb, op);
    steps := steps + [ServerCall(op)];
    var learns := ResultIsRead(s2, g, cb);
    ExtendMany(start, steps, s2, learns);
    steps := steps + learns;
  }

  lemma Completed(start: System, steps: seq<Step>, sys: System, g: GoalId, cb: C.Binding, op: S.Op)
    returns (next: System)
    requires sys == Run(start, steps) && NoReserve(steps) && Owned(sys) && ValidGoalId(g) && cb.slot < sys.s.slotCount
    requires op == S.OpComplete(g, Succeeded, AppPdu(true, true, []), true)
    requires ViewOf(sys, g) == Still(g, Waiting(cb), Some(S.Binding(cb.slot, S.GoalAccepted, 0, false)), [cb.slot])
    ensures next == Run(start, steps + [ServerCall(op)]) && Owned(next) && NoReserve(steps + [ServerCall(op)])
    ensures ViewOf(next, g) == Still(g, Waiting(cb), None, [cb.slot]).(down := [Result(cb.slot, g, Succeeded, [])])
    ensures g in next.c.bindings && next.c.bindings[g] == Waiting(cb)
  {
    next := Next(sys, ServerCall(op));
    Extend(start, steps, sys, ServerCall(op));
    BoundAt(sys, g, S.Binding(cb.slot, S.GoalAccepted, 0, false));
    CallMoves(sys, op, ResultSent(Succeeded, []));
    assert ViewOf(next, g).cb == Some(Waiting(cb));
  }

  /** A disciplined run ends with a cancel send open for an ID that can be reserved again. */
  lemma RaceIsReachable(g: GoalId, timeout: nat, now: nat) returns (steps: seq<Step>)
    requires ValidGoalId(g)
    ensures DisciplinedRun(Start(1), steps)
    ensures var sys := Run(Start(1), steps); Open(sys, g) != [] && C.Reserve(sys.c, g, timeout, now).1 == C.Success
  {
    var s0 := Start(1);
    StartGood(1);
    assert !C.SlotOwned(s0.c, 0) && C.FreeSlotFrom(s0.c, 0) == Some(0);
    var s1 := Next(s0, Reserve(g, timeout, now));
    ReserveMove(s0, g, timeout, now);
    StepOwned(s0, Reserve(g, timeout, now));
    var cb := C.Binding(0, C.AwaitingGoalResponse, now, timeout, 0);
    var first := Accept(s1, g, cb, []);
    var mid := Run(s1, first);
    assert mid.s.slotCount == 1 by { SlotCountKept(s1, first); }
    var second := Overtaken(mid, g, cb.(state := C.GoalAccepted));
    ExtendMany(s1, first, mid, second);
    steps := [Reserve(g, timeout, now)] + (first + second);
    assert steps[1..] == first + second;
    NoReserveIsDisciplined(s1, first + second);
    var end := Run(s1, first + second);
    NothingNewBound(s1, first + second);
    assert ViewOf(end, g).cb == None;
    assert end.c.bindings.Keys == {} && end.c.bindings == map[];
    assert !C.SlotOwned(end.c, 0);
    assert C.FreeSlotFrom(end.c, 0) == Some(0);
  }

  lemma {:induction false} SlotCountKept(sys: System, steps: seq<Step>)
    ensures Run(sys, steps).s.slotCount == sys.s.slotCount
    decreases |steps|
  {
    if steps == [] {
    } else {
      SlotCountKeptStep(sys, steps[0]);
      SlotCountKept(Next(sys, steps[0]), steps[1..]);
    }
  }

  lemma SlotCountKeptStep(sys: System, step: Step)
    ensures Next(sys, step).s.slotCount == sys.s.slotCount
  {
    if step.ServerCall? && S.IsCall(step.op) {
      CallKeepsInbox(sys.s, step.op);
      CallStepIs(sys, step.op);
    }
  }
}
