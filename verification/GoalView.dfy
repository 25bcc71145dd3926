/**
 * One Goal seen across a client endpoint, a server endpoint and the two queues between them.  The
 * composed system (module Composition) is a family of such views, one per Goal ID; this module says
 * which views are sound and shows that every way the system can move a view keeps it sound.
 */
module GoalView {
  import opened ActionTypes
  import C = ClientEndpointSpec
  import S = ServerEndpointSpec

  /**
   * `up` and `down` are the Goal's own packets in each queue.  `sending` holds the slot of a Goal send
   * whose lock has been dropped and whose outcome is open; `cancelling` holds the slots of all such
   * cancel sends, one per thread.  `takenOver` marks a Goal the server has cancelled, completed or
   * discarded without telling the client.
   */
  datatype View = View(
    goal: GoalId,
    cb: Option<C.Binding>,
    sb: Option<S.Binding>,
    up: seq<RequestPacket>,
    down: seq<ServerPacket>,
    sending: Option<nat>,
    cancelling: seq<nat>,
    takenOver: bool)

  // ----- folding the packets in flight over the client's binding -----

  datatype Folded = Dropped | Ended | At(binding: C.Binding)

  function Fold(b: C.Binding, q: seq<ServerPacket>): Folded
    decreases |q|
  {
    if q == [] then At(b) else
    match C.React(b, q[0])
    case Ignore => Dropped
    case Finish => if |q| == 1 then Ended else Dropped
    case Keep(n) => Fold(n, q[1..])
  }

  lemma {:induction false} FoldAppend(b: C.Binding, q: seq<ServerPacket>, p: ServerPacket)
    ensures Fold(b, q + [p]) == (match Fold(b, q) case At(n) => Fold(n, [p]) case _ => Dropped)
    decreases |q|
  {
    if q == [] {
      assert q + [p] == [p];
    } else {
      assert (q + [p])[1..] == q[1..] + [p];
      var r := C.React(b, q[0]);
      if r.Keep? { FoldAppend(r.next, q[1..], p); }
    }
  }

  function CancelAnswers(q: seq<ServerPacket>): nat {
    if q == [] then 0 else (if q[0].CancelResponse? then 1 else 0) + CancelAnswers(q[1..])
  }

  lemma {:induction false} CancelAnswersAppend(q: seq<ServerPacket>, p: ServerPacket)
    ensures CancelAnswers(q + [p]) == CancelAnswers(q) + (if p.CancelResponse? then 1 else 0)
  {
    if q == [] {
      assert q + [p] == [p];
    } else {
      assert (q + [p])[1..] == q[1..] + [p];
      CancelAnswersAppend(q[1..], p);
    }
  }

  function Waiting(b: C.Binding): C.Binding { b.(state := C.AwaitingCancelResponse) }

  /** With no cancel response in flight, a pending cancel changes nothing about what is in flight. */
  lemma {:induction false} FoldWaiting(b: C.Binding, q: seq<ServerPacket>)
    requires b.state == C.GoalAccepted && CancelAnswers(q) == 0
    ensures match Fold(b, q)
            case At(n) => n.state == C.GoalAccepted && Fold(Waiting(b), q) == At(Waiting(n))
            case r => Fold(Waiting(b), q) == r
    decreases |q|
  {
    if q == [] {
    } else {
      var r := C.React(b, q[0]);
      if r.Keep? { FoldWaiting(r.next, q[1..]); }
    }
  }

  lemma {:induction false} FoldKeepsSlot(b: C.Binding, q: seq<ServerPacket>)
    ensures Fold(b, q).At? ==> Fold(b, q).binding.slot == b.slot
    decreases |q|
  {
    if q == [] {
    } else {
      var r := C.React(b, q[0]);
      if r.Keep? { FoldKeepsSlot(r.next, q[1..]); }
    }
  }

  // ----- who holds what -----

  predicate IsGoal(v: View, p: RequestPacket) {
    v.cb.Some? && p == C.GoalRequestPacket(v.cb.value.slot, v.goal, p.body)
  }

  predicate IsCancel(v: View, p: RequestPacket) { p == C.CancelRequestPacket(p.slot, v.goal) }

  predicate GoalQueued(v: View) { exists i :: 0 <= i < |v.up| && v.up[i].kind == REQUEST_KIND_GOAL }

  /** Upstream holds cancels and at most one Goal Request. */
  predicate UpKinds(v: View) {
    && (forall i | 0 <= i < |v.up| :: IsGoal(v, v.up[i]) || IsCancel(v, v.up[i]))
    && (forall i, j | 0 <= i < j < |v.up| :: v.up[i].kind == REQUEST_KIND_CANCEL || v.up[j].kind == REQUEST_KIND_CANCEL)
  }

  predicate Final(p: ServerPacket) { p.Result? || (p.GoalResponse? && p.decision == Rejected) }

  predicate Early(v: View) {
    v.cb.Some? && (v.cb.value.state == C.AwaitingGoalResponse || v.cb.value.state == C.GoalResponseTimedOut)
  }

  predicate OpenSend(v: View) { v.sending.Some? || GoalQueued(v) }

  /** What every move keeps, whatever timed out, failed, was taken over or was cancelled late. */
  predicate Ownership(v: View) {
    && UpKinds(v)
    && (v.sb.Some? ==> v.cb.Some? && v.cb.value.slot == v.sb.value.slot && !OpenSend(v))
    && (OpenSend(v) ==> Early(v) && v.down == [] && !(v.sending.Some? && GoalQueued(v)))
    && (v.sending.Some? ==> v.sending.value == v.cb.value.slot)
    && (v.cb.None? ==> v.down == [])
    && (forall i | 0 <= i < |v.down| - 1 :: !Final(v.down[i]))
    && (v.down != [] && Final(v.down[|v.down| - 1]) ==> v.sb.None?)
    && (v.sb.Some? && v.sb.value.state == S.AwaitingGoalDecision ==> Early(v) && v.down == [])
  }

  // ----- where a cancel is, and what the two sides believe -----

  predicate CancelQueued(v: View) { v.up != [] && v.up[0].kind == REQUEST_KIND_CANCEL }

  predicate CancelSurfaced(v: View) { v.sb.Some? && v.sb.value.cancelPending }

  function Tokens(v: View): nat {
    (if CancelQueued(v) then 1 else 0) + |v.cancelling| + (if CancelSurfaced(v) then 1 else 0) + CancelAnswers(v.down)
  }

  /** Upstream holds at most a cancel and then a Goal Request; both counters start at 0. */
  predicate Shape(v: View) {
    && |v.up| <= 2
    && (|v.up| == 2 ==> v.up[0].kind == REQUEST_KIND_CANCEL && v.up[1].kind == REQUEST_KIND_GOAL)
    && (v.sb.Some? && v.sb.value.state == S.AwaitingGoalDecision ==> v.sb.value.nextSeq == 0)
    && (Early(v) && v.cb.value.state == C.AwaitingGoalResponse ==> v.cb.value.nextSeq == 0)
  }

  /** At most one cancel is under way, and none unless the client waits for it or has let go of the Goal. */
  predicate CancelToken(v: View) {
    && Tokens(v) <= 1
    && (v.cancelling != [] ==> v.up == [] && v.sending.None?)
    && (v.cb.Some? && (v.cb.value.state == C.GoalAccepted || v.cb.value.state == C.Cancelling) ==> Tokens(v) == 0)
    && (Early(v) ==>
          && v.cancelling == [] && !CancelSurfaced(v) && CancelAnswers(v.down) == 0
          && (v.up == [] || OpenSend(v)))
    && (CancelSurfaced(v) ==> v.sb.value.state == S.GoalAccepted)
    && (v.cb.Some? && v.cb.value.state == C.AwaitingCancelResponse ==>
          && (CancelQueued(v) ==> v.up[0].slot == v.cb.value.slot)
          && (v.cancelling != [] ==> v.cancelling[0] == v.cb.value.slot))
  }

  /** The goals the client still follows: bound, not timed out, not taken over by the server. */
  predicate Followed(v: View) { v.cb.Some? && v.cb.value.state != C.GoalResponseTimedOut && !v.takenOver }

  /** A cancel for the slot the Goal is in now; the server ignores cancels that name another slot. */
  predicate CancelUnderWay(v: View)
    requires v.cb.Some?
  {
    || (exists i :: 0 <= i < |v.up| && v.up[i].kind == REQUEST_KIND_CANCEL && v.up[i].slot == v.cb.value.slot)
    || v.cb.value.slot in v.cancelling
    || CancelSurfaced(v)
  }

  /** The client state a server state stands for, once everything in flight has arrived. */
  predicate Corresponds(v: View, f: Folded)
    requires v.cb.Some?
  {
    match v.sb
    case None => f == Ended
    case Some(b) =>
      && f.At? && f.binding.nextSeq == b.nextSeq
      && match b.state
         case AwaitingGoalDecision => f.binding.state == C.AwaitingGoalResponse
         case GoalAccepted =>
           f.binding.state == (if CancelUnderWay(v) then C.AwaitingCancelResponse else C.GoalAccepted)
         case CancelAccepted => f.binding.state == C.Cancelling && !CancelUnderWay(v)
         case ResultCommitted =>
           f.binding.state == C.GoalAccepted || f.binding.state == C.AwaitingCancelResponse
             || f.binding.state == C.Cancelling
  }

  predicate Agreement(v: View) {
    Followed(v) && !OpenSend(v) ==> Corresponds(v, Fold(v.cb.value, v.down))
  }

  predicate Sound(v: View) { Ownership(v) && Shape(v) && CancelToken(v) && Agreement(v) }

  // ----- moves -----

  /** Every way the system can change the view of one Goal. */
  datatype Move =
    | Reserved(binding: C.Binding)
    | GoalSent(body: Payload)
    | RolledBack
    | CancelCommitted
    | CancelSent(which: nat)
    | CancelRolledBack(which: nat)
    | TimedOut
    | Received
    | Polled
    | GoalDecided(accepted: bool)
    | CancelDecided(accepted: bool)
    | FeedbackSent(body: Payload)
    | ResultSent(status: TerminalStatus, body: Payload)
    | ResultLost
    | TakenOver(cancelled: bool)

  predicate ResultFits(b: S.Binding, status: TerminalStatus) {
    (b.state == S.GoalAccepted && StatusAllowed(false, status))
      || (b.state == S.CancelAccepted && StatusAllowed(true, status))
  }

  /** When a move can happen: the guards of the code, read on one Goal. */
  predicate Allowed(v: View, m: Move) {
    match m
    case Reserved(b) => v.cb.None? && b.state == C.AwaitingGoalResponse && b.nextSeq == 0
    case GoalSent(_) => v.sending.Some?
    case RolledBack => v.sending.Some?
    case CancelCommitted => v.cb.Some? && v.cb.value.state == C.GoalAccepted
    case CancelSent(i) => i < |v.cancelling|
    case CancelRolledBack(i) => i < |v.cancelling|
    case TimedOut => v.cb.Some? && v.cb.value.state == C.AwaitingGoalResponse
    case Received => v.down != [] && v.cb.Some?
    case Polled => v.up != [] && (v.up[0].kind == REQUEST_KIND_GOAL ==> v.sb.None?)
    case GoalDecided(_) => v.sb.Some? && v.sb.value.state == S.AwaitingGoalDecision
    case CancelDecided(_) => v.sb.Some? && v.sb.value.state == S.GoalAccepted && v.sb.value.cancelPending
    case FeedbackSent(_) => v.sb.Some? && (v.sb.value.state == S.GoalAccepted || v.sb.value.state == S.CancelAccepted)
    case ResultSent(status, _) => v.sb.Some? && ResultFits(v.sb.value, status)
    case ResultLost => v.sb.Some? && (v.sb.value.state == S.GoalAccepted || v.sb.value.state == S.CancelAccepted)
    case TakenOver(cancelled) => v.sb.Some? && (cancelled ==> v.sb.value.state == S.GoalAccepted)
  }

  function RemoveAt(s: seq<nat>, i: nat): seq<nat>
    requires i < |s|
  {
    s[..i] + s[i + 1..]
  }

  /** What the client makes of its next packet for this Goal. */
  function AfterReceived(v: View): View
    requires v.down != [] && v.cb.Some?
  {
    var w := v.(down := v.down[1..]);
    match C.React(v.cb.value, v.down[0])
    case Ignore => w
    case Keep(b) => w.(cb := Some(b))
    case Finish => w.(cb := None)
  }

  /** What the server makes of its next packet for this Goal, given that the slot is free. */
  function AfterPolled(v: View): View
    requires v.up != []
  {
    var p := v.up[0];
    var w := v.(up := v.up[1..]);
    if p.kind == REQUEST_KIND_GOAL then
      w.(sb := Some(S.Binding(p.slot, S.AwaitingGoalDecision, 0, false)))
    else if v.sb.None? || v.sb.value.slot != p.slot || v.sb.value.state != S.GoalAccepted || v.sb.value.cancelPending
    then w
    else w.(sb := Some(v.sb.value.(cancelPending := true)))
  }

  /** A failed cancel send puts the Goal back whichever send it belongs to. */
  function AfterRollBack(v: View, i: nat): View
    requires i < |v.cancelling|
  {
    var w := v.(cancelling := RemoveAt(v.cancelling, i));
    if v.cb.Some? && v.cb.value.state == C.AwaitingCancelResponse
      then w.(cb := Some(v.cb.value.(state := C.GoalAccepted))) else w
  }

  /** The server sends `p` and rebinds or releases the Goal. */
  function Sent(v: View, sb: Option<S.Binding>, p: ServerPacket): View { v.(sb := sb, down := v.down + [p]) }

  function After(v: View, m: Move): View
    requires Allowed(v, m)
  {
    match m
    case Reserved(b) => v.(cb := Some(b), sending := Some(b.slot), takenOver := false)
    case GoalSent(body) => v.(sending := None, up := v.up + [C.GoalRequestPacket(v.sending.value, v.goal, body)])
    case RolledBack => v.(cb := None, sending := None)
    case CancelCommitted => v.(cb := Some(Waiting(v.cb.value)), cancelling := v.cancelling + [v.cb.value.slot])
    case CancelSent(i) =>
      v.(cancelling := RemoveAt(v.cancelling, i), up := v.up + [C.CancelRequestPacket(v.cancelling[i], v.goal)])
    case CancelRolledBack(i) => AfterRollBack(v, i)
    case TimedOut => v.(cb := Some(v.cb.value.(state := C.GoalResponseTimedOut)))
    case Received => AfterReceived(v)
    case Polled => AfterPolled(v)
    case GoalDecided(accepted) =>
      var b := v.sb.value;
      if accepted then Sent(v, Some(b.(state := S.GoalAccepted)), GoalResponse(b.slot, v.goal, Accepted))
      else Sent(v, None, GoalResponse(b.slot, v.goal, Rejected))
    case CancelDecided(accepted) =>
      var b := v.sb.value.(cancelPending := false);
      Sent(v, Some(if accepted then b.(state := S.CancelAccepted) else b),
           CancelResponse(b.slot, v.goal, if accepted then Accepted else Rejected))
    case FeedbackSent(body) =>
      var b := v.sb.value;
      Sent(v, Some(b.(nextSeq := Next32(b.nextSeq))), Feedback(b.slot, v.goal, b.nextSeq, body))
    case ResultSent(status, body) => Sent(v, None, Result(v.sb.value.slot, v.goal, status, body))
    case ResultLost => v.(sb := Some(v.sb.value.(state := S.ResultCommitted, cancelPending := false)))
    case TakenOver(cancelled) =>
      v.(sb := if cancelled then Some(v.sb.value.(state := S.CancelAccepted, cancelPending := false)) else None,
         takenOver := true)
  }

  // ----- ownership: every move, no discipline -----

  lemma ReceivedOwned(v: View)
    requires Ownership(v) && Allowed(v, Received)
    ensures Ownership(After(v, Received))
  {
    assert !OpenSend(v);
    var w := After(v, Received);
    var r := C.React(v.cb.value, v.down[0]);
    if r.Finish? { assert Final(v.down[0]) && |v.down| == 1; }
    assert w.up == v.up && !GoalQueued(w);
  }

  lemma PolledOwned(v: View)
    requires Ownership(v) && v.up != []
    ensures Allowed(v, Polled) && Ownership(After(v, Polled))
    ensures v.up[0].kind == REQUEST_KIND_GOAL ==> v.cb.Some? && v.cb.value.slot == v.up[0].slot
  {
    if v.up[0].kind == REQUEST_KIND_GOAL { assert GoalQueued(v); }
    var w := After(v, Polled);
    assert forall i | 0 <= i < |w.up| :: w.up[i] == v.up[i + 1];
    if GoalQueued(w) {
      var i :| 0 <= i < |w.up| && w.up[i].kind == REQUEST_KIND_GOAL;
      assert v.up[i + 1].kind == REQUEST_KIND_GOAL;
      assert GoalQueued(v);
    }
  }

  lemma QueuedOwned(v: View, p: RequestPacket)
    requires Ownership(v) && (IsCancel(v, p) || (IsGoal(v, p) && v.sending.Some?))
    ensures var w := v.(up := v.up + [p], sending := if IsCancel(v, p) then v.sending else None);
            Ownership(w) && (IsCancel(v, p) ==> GoalQueued(w) == GoalQueued(v))
  {
    var w := v.(up := v.up + [p], sending := if IsCancel(v, p) then v.sending else None);
    if GoalQueued(v) {
      var i :| 0 <= i < |v.up| && v.up[i].kind == REQUEST_KIND_GOAL;
      assert w.up[i].kind == REQUEST_KIND_GOAL;
    }
    if IsGoal(v, p) { assert forall i | 0 <= i < |v.up| :: v.up[i].kind == REQUEST_KIND_CANCEL; }
  }

  lemma ClientMoveOwned(v: View, m: Move)
    requires Ownership(v) && Allowed(v, m)
    requires m.Reserved? || m.RolledBack? || m.CancelCommitted? || m.CancelRolledBack? || m.TimedOut?
    ensures Ownership(After(v, m))
  {
    var w := After(v, m);
    assert w.up == v.up && w.down == v.down && w.sb == v.sb;
    assert GoalQueued(w) == GoalQueued(v);
  }

  lemma SentOwned(v: View, sb: Option<S.Binding>, p: ServerPacket)
    requires Ownership(v) && v.sb.Some? && (Final(p) ==> sb.None?)
    requires sb.Some? ==> sb.value.slot == v.sb.value.slot && sb.value.state != S.AwaitingGoalDecision
    ensures Ownership(Sent(v, sb, p))
  {
    var w := Sent(v, sb, p);
    assert GoalQueued(w) == GoalQueued(v);
    assert forall i | 0 <= i < |v.down| :: !Final(v.down[i]);
  }

  lemma ServerMoveOwned(v: View, m: Move)
    requires Ownership(v) && Allowed(v, m) && (m.ResultLost? || m.TakenOver?)
    ensures Ownership(After(v, m))
  {
    assert GoalQueued(After(v, m)) == GoalQueued(v);
  }

  /** No move needs anything but ownership to keep it. */
  lemma OwnedKept(v: View, m: Move)
    requires Ownership(v) && Allowed(v, m)
    ensures Ownership(After(v, m))
  {
    match m
    case GoalSent(body) => QueuedOwned(v, C.GoalRequestPacket(v.sending.value, v.goal, body));
    case CancelSent(i) =>
      QueuedOwned(v, C.CancelRequestPacket(v.cancelling[i], v.goal));
      RetractOwned(v.(up := v.up + [C.CancelRequestPacket(v.cancelling[i], v.goal)]), RemoveAt(v.cancelling, i));
    case Received => ReceivedOwned(v);
    case Polled => PolledOwned(v);
    case GoalDecided(_) => SentOwned(v, After(v, m).sb, After(v, m).down[|v.down|]);
    case CancelDecided(_) => SentOwned(v, After(v, m).sb, After(v, m).down[|v.down|]);
    case FeedbackSent(_) => SentOwned(v, After(v, m).sb, After(v, m).down[|v.down|]);
    case ResultSent(_, _) => SentOwned(v, None, After(v, m).down[|v.down|]);
    case ResultLost => ServerMoveOwned(v, m);
    case TakenOver(_) => ServerMoveOwned(v, m);
    case _ => ClientMoveOwned(v, m);
  }

  lemma RetractOwned(v: View, open: seq<nat>)
    requires Ownership(v)
    ensures Ownership(v.(cancelling := open))
  {
    assert GoalQueued(v.(cancelling := open)) == GoalQueued(v);
  }

  // ----- the rest of soundness -----

  /** A reservation is safe only if no cancel send for the Goal is open. */
  predicate Guarded(v: View, m: Move) { m.Reserved? ==> v.cancelling == [] }

  /** A sound view lists its upstream packets completely. */
  lemma UpIs(v: View)
    requires Ownership(v) && Shape(v)
    ensures GoalQueued(v) <==> v.up != [] && v.up[|v.up| - 1].kind == REQUEST_KIND_GOAL
    ensures v.cb.Some? && !OpenSend(v) ==>
              (CancelUnderWay(v) <==>
                || (CancelQueued(v) && v.up[0].slot == v.cb.value.slot)
                || v.cb.value.slot in v.cancelling || CancelSurfaced(v))
  {
    if GoalQueued(v) {
      var i :| 0 <= i < |v.up| && v.up[i].kind == REQUEST_KIND_GOAL;
      assert i == |v.up| - 1;
    }
  }

  lemma ReservedSound(v: View, b: C.Binding)
    requires Sound(v) && Allowed(v, Reserved(b)) && v.cancelling == []
    ensures Sound(After(v, Reserved(b)))
  {
    OwnedKept(v, Reserved(b));
    UpIs(v);
    UpIs(After(v, Reserved(b)));
  }

  lemma GoalSentSound(v: View, body: Payload)
    requires Sound(v) && Allowed(v, GoalSent(body))
    ensures Sound(After(v, GoalSent(body)))
  {
    var w := After(v, GoalSent(body));
    OwnedKept(v, GoalSent(body));
    UpIs(v);
    assert v.up == [] || v.up == [v.up[0]];
    assert w.up[|w.up| - 1].kind == REQUEST_KIND_GOAL;
    UpIs(w);
  }

  lemma RolledBackSound(v: View)
    requires Sound(v) && Allowed(v, RolledBack)
    ensures Sound(After(v, RolledBack))
  {
    OwnedKept(v, RolledBack);
    UpIs(v);
  }

  lemma CancelCommittedSound(v: View)
    requires Sound(v) && Allowed(v, CancelCommitted)
    ensures v.cancelling == [] && Sound(After(v, CancelCommitted))
  {
    var w := After(v, CancelCommitted);
    OwnedKept(v, CancelCommitted);
    FoldWaiting(v.cb.value, v.down);
    UpIs(v);
    assert v.up == [];
    UpIs(w);
    assert w.cancelling == [v.cb.value.slot];
  }

  lemma CancelSentSound(v: View, i: nat)
    requires Sound(v) && Allowed(v, CancelSent(i))
    ensures Sound(After(v, CancelSent(i)))
  {
    var w := After(v, CancelSent(i));
    OwnedKept(v, CancelSent(i));
    UpIs(v);
    assert i == 0 && w.cancelling == [] && w.up == [C.CancelRequestPacket(v.cancelling[0], v.goal)];
    UpIs(w);
  }

  lemma CancelRolledBackSound(v: View, i: nat)
    requires Sound(v) && Allowed(v, CancelRolledBack(i))
    ensures Sound(After(v, CancelRolledBack(i)))
  {
    var w := After(v, CancelRolledBack(i));
    OwnedKept(v, CancelRolledBack(i));
    UpIs(v);
    assert i == 0 && w.cancelling == [] && w.up == [];
    UpIs(w);
    if v.cb.Some? && v.cb.value.state == C.AwaitingCancelResponse {
      var b := v.cb.value.(state := C.GoalAccepted);
      assert Waiting(b) == v.cb.value;
      FoldWaiting(b, v.down);
    }
  }

  lemma TimedOutSound(v: View)
    requires Sound(v) && Allowed(v, TimedOut)
    ensures Sound(After(v, TimedOut))
  {
    OwnedKept(v, TimedOut);
    UpIs(v);
    UpIs(After(v, TimedOut));
  }

  /** The client takes every packet of a followed Goal. */
  lemma FollowedTakes(v: View)
    requires Sound(v) && v.down != []
    ensures v.cb.Some? && !OpenSend(v)
    ensures Followed(v) ==> C.React(v.cb.value, v.down[0]) != C.Ignore
  {
  }

  lemma ReceivedShape(v: View)
    requires Shape(v) && v.down != [] && v.cb.Some?
    ensures Shape(After(v, Received))
  {
  }

  lemma ReceivedTokens(v: View)
    requires v.down != [] && v.cb.Some?
    ensures Tokens(v) == Tokens(After(v, Received)) + if v.down[0].CancelResponse? then 1 else 0
  {
    assert CancelQueued(After(v, Received)) == CancelQueued(v);
  }

  lemma ReceivedToken(v: View)
    requires CancelToken(v) && v.down != [] && v.cb.Some? && !OpenSend(v)
    ensures CancelToken(After(v, Received))
  {
    ReceivedTokens(v);
  }

  /** Whatever the client learns leaves a cancel where it is. */
  lemma ReceivedUnderWay(v: View)
    requires v.down != [] && v.cb.Some? && C.React(v.cb.value, v.down[0]).Keep?
    ensures CancelUnderWay(After(v, Received)) == CancelUnderWay(v) && OpenSend(After(v, Received)) == OpenSend(v)
  {
    var w := After(v, Received);
    assert w.up == v.up && w.cb.value.slot == v.cb.value.slot;
  }

  lemma ReceivedAgreement(v: View)
    requires Agreement(v) && v.down != [] && v.cb.Some? && !OpenSend(v)
    ensures Agreement(After(v, Received))
  {
    if C.React(v.cb.value, v.down[0]).Keep? { ReceivedUnderWay(v); }
  }

  /** A finished Goal leaves nothing behind. */
  lemma ReceivedSound(v: View)
    requires Sound(v) && v.down != []
    ensures v.cb.Some? && Sound(After(v, Received))
    ensures Followed(v) ==> C.React(v.cb.value, v.down[0]) != C.Ignore
  {
    FollowedTakes(v);
    ReceivedOwned(v);
    ReceivedShape(v);
    ReceivedToken(v);
    ReceivedAgreement(v);
  }

  lemma PolledSound(v: View)
    requires Sound(v) && v.up != []
    ensures Allowed(v, Polled) && Sound(After(v, Polled))
  {
    PolledOwned(v);
    var w := After(v, Polled);
    if |v.up| == 1 { assert w.up == []; } else { assert w.up == [v.up[1]]; }
    UpIs(v);
    UpIs(w);
    if v.cb.Some? { FoldKeepsSlot(v.cb.value, v.down); }
  }

  lemma GoalDecidedSound(v: View, accepted: bool)
    requires Sound(v) && Allowed(v, GoalDecided(accepted))
    ensures Sound(After(v, GoalDecided(accepted)))
  {
    OwnedKept(v, GoalDecided(accepted));
    var p := GoalResponse(v.sb.value.slot, v.goal, if accepted then Accepted else Rejected);
    assert v.down + [p] == [p];
    assert Fold(v.cb.value, []) == At(v.cb.value);
    CancelAnswersAppend([], p);
    UpIs(v);
    UpIs(After(v, GoalDecided(accepted)));
  }

  lemma CancelDecidedSound(v: View, accepted: bool)
    requires Sound(v) && Allowed(v, CancelDecided(accepted))
    ensures Sound(After(v, CancelDecided(accepted)))
  {
    OwnedKept(v, CancelDecided(accepted));
    var p := CancelResponse(v.sb.value.slot, v.goal, if accepted then Accepted else Rejected);
    CancelAnswersAppend(v.down, p);
    FoldAppend(v.cb.value, v.down, p);
    FoldKeepsSlot(v.cb.value, v.down);
    UpIs(v);
    UpIs(After(v, CancelDecided(accepted)));
  }

  lemma FeedbackSentSound(v: View, body: Payload)
    requires Sound(v) && Allowed(v, FeedbackSent(body))
    ensures Sound(After(v, FeedbackSent(body)))
  {
    OwnedKept(v, FeedbackSent(body));
    var p := Feedback(v.sb.value.slot, v.goal, v.sb.value.nextSeq, body);
    CancelAnswersAppend(v.down, p);
    FoldAppend(v.cb.value, v.down, p);
    FoldKeepsSlot(v.cb.value, v.down);
    UpIs(v);
    UpIs(After(v, FeedbackSent(body)));
  }

  /** A Result that fits the server's state ends the Goal at the client too. */
  lemma ResultSentAgreement(v: View, status: TerminalStatus, body: Payload)
    requires Sound(v) && Allowed(v, ResultSent(status, body))
    ensures Agreement(After(v, ResultSent(status, body)))
  {
    var p := Result(v.sb.value.slot, v.goal, status, body);
    FoldAppend(v.cb.value, v.down, p);
    FoldKeepsSlot(v.cb.value, v.down);
  }

  lemma ResultSentToken(v: View, status: TerminalStatus, body: Payload)
    requires Sound(v) && Allowed(v, ResultSent(status, body))
    ensures Shape(After(v, ResultSent(status, body))) && CancelToken(After(v, ResultSent(status, body)))
  {
    var w := After(v, ResultSent(status, body));
    CancelAnswersAppend(v.down, Result(v.sb.value.slot, v.goal, status, body));
    assert w.up == v.up && GoalQueued(w) == GoalQueued(v);
  }

  lemma ResultSentSound(v: View, status: TerminalStatus, body: Payload)
    requires Sound(v) && Allowed(v, ResultSent(status, body))
    ensures Sound(After(v, ResultSent(status, body)))
  {
    OwnedKept(v, ResultSent(status, body));
    ResultSentToken(v, status, body);
    ResultSentAgreement(v, status, body);
  }

  lemma ServerMoveSound(v: View, m: Move)
    requires Sound(v) && Allowed(v, m) && (m.ResultLost? || m.TakenOver?)
    ensures Sound(After(v, m))
  {
    OwnedKept(v, m);
    UpIs(v);
    UpIs(After(v, m));
  }

  /** Every guarded move keeps a sound view sound. */
  lemma SoundKept(v: View, m: Move)
    requires Sound(v) && Allowed(v, m) && Guarded(v, m)
    ensures Sound(After(v, m))
  {
    match m
    case Reserved(b) => ReservedSound(v, b);
    case GoalSent(body) => GoalSentSound(v, body);
    case RolledBack => RolledBackSound(v);
    case CancelCommitted => CancelCommittedSound(v);
    case CancelSent(i) => CancelSentSound(v, i);
    case CancelRolledBack(i) => CancelRolledBackSound(v, i);
    case TimedOut => TimedOutSound(v);
    case Received => ReceivedSound(v);
    case Polled => PolledSound(v);
    case GoalDecided(accepted) => GoalDecidedSound(v, accepted);
    case CancelDecided(accepted) => CancelDecidedSound(v, accepted);
    case FeedbackSent(body) => FeedbackSentSound(v, body);
    case ResultSent(status, body) => ResultSentSound(v, status, body);
    case _ => ServerMoveSound(v, m);
  }
}
