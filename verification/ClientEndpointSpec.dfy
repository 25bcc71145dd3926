/**
 * The client packet endpoint as a value.  As on the server side, a slot is owned exactly when some
 * binding names it.  Clock readings and transport outcomes are parameters.
 */
module ClientEndpointSpec {
  import opened ActionTypes
  import SlotCount

  datatype BindingState =
    | AwaitingGoalResponse
    | GoalResponseTimedOut
    | GoalAccepted
    | AwaitingCancelResponse
    | Cancelling

  datatype Binding = Binding(slot: nat, state: BindingState, sentAt: nat, timeout: nat, nextSeq: nat)

  datatype Endpoint = Endpoint(
    initialized: bool, slotCount: nat, bindings: map<GoalId, Binding>, inbox: seq<ServerPacket>)

  datatype GoalSendResult =
    | Success | InvalidArgument | ActionNotFound | NotInitialized
    | DuplicateGoal | NoFreeSlot | InvalidPacket | TransportError

  datatype Event = NoEvent | Delivered(packet: ServerPacket) | TimedOut(goal: GoalId)

  predicate SlotOwned(ep: Endpoint, slot: nat) {
    exists g :: g in ep.bindings && ep.bindings[g].slot == slot
  }

  ghost predicate SlotsDistinct(ep: Endpoint) {
    && (forall g <- ep.bindings :: ValidGoalId(g) && ep.bindings[g].slot < ep.slotCount)
    && (forall g, h | g in ep.bindings && h in ep.bindings && g != h :: ep.bindings[g].slot != ep.bindings[h].slot)
    && (!ep.initialized ==> ep.bindings == map[])
  }

  function Release(ep: Endpoint, goal: GoalId): Endpoint { ep.(bindings := ep.bindings - {goal}) }

  function Rebind(ep: Endpoint, goal: GoalId, b: Binding): Endpoint { ep.(bindings := ep.bindings[goal := b]) }

  /** The lowest slot at or after `from` that no Goal owns. */
  function FreeSlotFrom(ep: Endpoint, from: nat): (slot: Option<nat>)
    ensures slot.None? <==> forall i: nat | from <= i < ep.slotCount :: SlotOwned(ep, i)
    ensures slot.Some? ==> from <= slot.value < ep.slotCount && !SlotOwned(ep, slot.value)
    ensures slot.Some? ==> forall i: nat | from <= i < slot.value :: SlotOwned(ep, i)
    decreases ep.slotCount - from
  {
    if from >= ep.slotCount then None
    else if SlotOwned(ep, from) then FreeSlotFrom(ep, from + 1)
    else Some(from)
  }

  // ----- sending a Goal: reserve, send, roll back -----

  function Reserve(ep: Endpoint, goal: GoalId, timeout: nat, now: nat): (Endpoint, GoalSendResult) {
    if !ValidGoalId(goal) then (ep, InvalidArgument)
    else if !ep.initialized then (ep, NotInitialized)
    else if goal in ep.bindings then (ep, DuplicateGoal)
    else match FreeSlotFrom(ep, 0)
      case None => (ep, NoFreeSlot)
      case Some(slot) => (Rebind(ep, goal, Binding(slot, AwaitingGoalResponse, now, timeout, 0)), Success)
  }

  function GoalRequestPacket(slot: nat, goal: GoalId, body: Payload): RequestPacket {
    RequestPacket(slot, true, PROTOCOL_VERSION, REQUEST_KIND_GOAL, goal, body)
  }

  function CancelRequestPacket(slot: nat, goal: GoalId): RequestPacket {
    RequestPacket(slot, true, PROTOCOL_VERSION, REQUEST_KIND_CANCEL, goal, [])
  }

  function SendGoal(ep: Endpoint, goal: GoalId, pdu: AppPdu, timeout: nat, now: nat, sent: bool)
    : (Endpoint, GoalSendResult, Option<RequestPacket>)
  {
    var (reserved, answer) := Reserve(ep, goal, timeout, now);
    if answer != Success then (reserved, answer, None)
    else if !pdu.Sendable() then (Release(reserved, goal), InvalidPacket, None)
    else
      var request := Some(GoalRequestPacket(reserved.bindings[goal].slot, goal, pdu.body));
      if sent then (reserved, Success, request) else (Release(reserved, goal), TransportError, request)
  }

  // ----- cancelling: commit, send, roll back -----

  predicate MayCancel(ep: Endpoint, goal: GoalId) {
    ValidGoalId(goal) && ep.initialized && goal in ep.bindings && ep.bindings[goal].state == GoalAccepted
  }

  function CommitCancel(ep: Endpoint, goal: GoalId): Endpoint
    requires MayCancel(ep, goal)
  {
    Rebind(ep, goal, ep.bindings[goal].(state := AwaitingCancelResponse))
  }

  function RollBackCancel(ep: Endpoint, goal: GoalId): Endpoint {
    if goal in ep.bindings && ep.bindings[goal].state == AwaitingCancelResponse
    then Rebind(ep, goal, ep.bindings[goal].(state := GoalAccepted)) else ep
  }

  function SendCancel(ep: Endpoint, goal: GoalId, sent: bool): (Endpoint, bool, Option<RequestPacket>) {
    if !MayCancel(ep, goal) then (ep, false, None) else
    var committed := CommitCancel(ep, goal);
    var request := Some(CancelRequestPacket(ep.bindings[goal].slot, goal));
    if sent then (committed, true, request) else (RollBackCancel(committed, goal), false, request)
  }

  // ----- receiving -----

  datatype Reaction = Ignore | Keep(next: Binding) | Finish

  /** What a binding does with a packet that names its Goal. */
  function React(b: Binding, p: ServerPacket): Reaction {
    if p.slot != b.slot then Ignore else
    match p
    case GoalResponse(_, _, decision) =>
      if b.state != AwaitingGoalResponse || decision == NoDecision then Ignore
      else if decision == Accepted then Keep(b.(state := GoalAccepted))
      else Finish
    case CancelResponse(_, _, decision) =>
      if b.state != AwaitingCancelResponse || decision == NoDecision then Ignore
      else Keep(b.(state := if decision == Accepted then Cancelling else GoalAccepted))
    case Result(_, _, status, _) =>
      if (b.state == GoalAccepted || b.state == AwaitingCancelResponse) && StatusAllowed(false, status) then Finish
      else if b.state == Cancelling && StatusAllowed(true, status) then Finish
      else Ignore
    case Feedback(_, _, seqNo, _) =>
      if (b.state == GoalAccepted || b.state == AwaitingCancelResponse || b.state == Cancelling) && seqNo == b.nextSeq
      then Keep(b.(nextSeq := Next32(b.nextSeq)))
      else Ignore
    case Garbage(_, _) => Ignore
  }

  predicate Taken(ep: Endpoint, p: ServerPacket) {
    p.slot < ep.slotCount && ValidGoalId(p.goal) && p.goal in ep.bindings && React(ep.bindings[p.goal], p) != Ignore
  }

  function Absorb(ep: Endpoint, p: ServerPacket): Endpoint
    requires Taken(ep, p)
  {
    match React(ep.bindings[p.goal], p)
    case Keep(b) => Rebind(ep, p.goal, b)
    case _ => Release(ep, p.goal)
  }

  predicate HasExpired(b: Binding, now: nat) {
    b.state == AwaitingGoalResponse && b.timeout != 0 && now >= b.sentAt && now - b.sentAt >= b.timeout
  }

  function ExpiredGoals(ep: Endpoint, now: nat): set<GoalId> {
    set g | g in ep.bindings && HasExpired(ep.bindings[g], now)
  }

  lemma {:induction false} LeastOf(s: set<nat>) returns (m: nat)
    requires s != {}
    ensures m in s && forall n <- s :: m <= n
  {
    var x :| x in s;
    m := x;
    if s - {x} != {} {
      var least := LeastOf(s - {x});
      if least < x { m := least; }
    }
    forall n <- s ensures m <= n { assert n == x || n in s - {x}; }
  }

  lemma LeastExists(s: set<nat>)
    requires s != {}
    ensures exists m :: m in s && forall n <- s :: m <= n
  {
    var m := LeastOf(s);
  }

  function Least(s: set<nat>): (m: nat)
    requires s != {}
    ensures m in s && forall n <- s :: m <= n
  {
    LeastExists(s);
    var m :| m in s && forall n <- s :: m <= n;
    m
  }

  /** The table is scanned in Goal ID order and at most one wait is reported. */
  function CheckTimeouts(ep: Endpoint, now: nat): (Endpoint, Event) {
    var expired := ExpiredGoals(ep, now);
    if !ep.initialized || expired == {} then (ep, NoEvent) else
    var goal := Least(expired);
    (Rebind(ep, goal, ep.bindings[goal].(state := GoalResponseTimedOut)), TimedOut(goal))
  }

  function Poll(ep: Endpoint, now: nat): (Endpoint, Event) {
    if ep.inbox == [] then CheckTimeouts(ep, now) else
    var p := ep.inbox[0];
    var ep1 := ep.(inbox := ep.inbox[1..]);
    if Taken(ep, p) then (Absorb(ep1, p), Delivered(p)) else CheckTimeouts(ep1, now)
  }

  function Receive(ep: Endpoint, p: ServerPacket): Endpoint { ep.(inbox := ep.inbox + [p]) }

  function ClearPendingEvents(ep: Endpoint): Endpoint { ep.(inbox := []) }

  function ResetContexts(ep: Endpoint): Endpoint { ep.(inbox := [], bindings := map[]) }

  // ----- every call -----

  datatype Op =
    | OpSendGoal(goal: GoalId, pdu: AppPdu, timeout: nat, now: nat, sent: bool)
    | OpSendCancel(goal: GoalId, sent: bool)
    | OpReceive(packet: ServerPacket)
    | OpPoll(now: nat)
    | OpClear

  function Apply(ep: Endpoint, op: Op): Endpoint {
    match op
    case OpSendGoal(g, pdu, timeout, now, sent) => SendGoal(ep, g, pdu, timeout, now, sent).0
    case OpSendCancel(g, sent) => SendCancel(ep, g, sent).0
    case OpReceive(p) => Receive(ep, p)
    case OpPoll(now) => Poll(ep, now).0
    case OpClear => ClearPendingEvents(ep)
  }

  function Run(ep: Endpoint, ops: seq<Op>): Endpoint
    decreases |ops|
  {
    if ops == [] then ep else Run(Apply(ep, ops[0]), ops[1..])
  }

  lemma ReserveKeepsSlots(ep: Endpoint, goal: GoalId, timeout: nat, now: nat)
    requires SlotsDistinct(ep)
    ensures SlotsDistinct(Reserve(ep, goal, timeout, now).0)
  {
  }

  /** Releasing a Goal, or changing a binding without moving it. */
  lemma SmallChangeKeepsSlots(ep: Endpoint, next: Endpoint, goal: GoalId)
    requires SlotsDistinct(ep) && next.(inbox := ep.inbox, bindings := ep.bindings) == ep
    requires || next.bindings == ep.bindings
             || next.bindings == ep.bindings - {goal}
             || (goal in ep.bindings && goal in next.bindings
                 && next.bindings == ep.bindings[goal := next.bindings[goal]]
                 && next.bindings[goal].slot == ep.bindings[goal].slot)
    ensures SlotsDistinct(next)
  {
  }

  lemma PollKeepsSlots(ep: Endpoint, now: nat)
    requires SlotsDistinct(ep)
    ensures SlotsDistinct(Poll(ep, now).0) && Poll(ep, now).0.slotCount == ep.slotCount
  {
    var (next, event) := Poll(ep, now);
    var goal := match event case NoEvent => 0 case Delivered(p) => p.goal case TimedOut(g) => g;
    SmallChangeKeepsSlots(ep, next, goal);
  }

  lemma ApplyKeepsSlots(ep: Endpoint, op: Op)
    requires SlotsDistinct(ep)
    ensures SlotsDistinct(Apply(ep, op)) && Apply(ep, op).slotCount == ep.slotCount
  {
    match op
    case OpSendGoal(g, pdu, timeout, now, sent) =>
      ReserveKeepsSlots(ep, g, timeout, now);
      SmallChangeKeepsSlots(Reserve(ep, g, timeout, now).0, Apply(ep, op), g);
    case OpSendCancel(g, sent) => SmallChangeKeepsSlots(ep, Apply(ep, op), g);
    case OpPoll(now) => PollKeepsSlots(ep, now);
    case OpReceive(_) =>
    case OpClear =>
  }

  /** A Goal that could not be sent, or a cancel that could not be sent, leaves no trace. */
  lemma FailedSendRestores(ep: Endpoint, goal: GoalId, pdu: AppPdu, timeout: nat, now: nat, sent: bool)
    ensures SendGoal(ep, goal, pdu, timeout, now, sent).1 != Success ==>
            SendGoal(ep, goal, pdu, timeout, now, sent).0 == ep
    ensures !SendCancel(ep, goal, sent).1 ==> SendCancel(ep, goal, sent).0 == ep
  {
    var (reserved, answer) := Reserve(ep, goal, timeout, now);
    if answer == Success { assert Release(reserved, goal).bindings == ep.bindings; }
    if MayCancel(ep, goal) { assert RollBackCancel(CommitCancel(ep, goal), goal).bindings == ep.bindings; }
  }

  // ----- slots and bindings are counted alike -----

  ghost function SlotsOf(m: map<GoalId, Binding>): set<nat> { set g | g in m :: m[g].slot }

  lemma SlotsOfCount(m: map<GoalId, Binding>)
    requires forall g, h | g in m && h in m && g != h :: m[g].slot != m[h].slot
    ensures |SlotsOf(m)| == |m|
  {
    var slots := map g | g in m :: m[g].slot;
    SlotCount.DistinctValues(slots);
    assert slots.Keys == m.Keys;
    assert |slots| == |slots.Keys| && |m| == |m.Keys|;
    assert SlotsOf(m) == slots.Values;
  }

  function SlotsBelow(n: nat): (s: set<nat>)
    ensures forall i: nat :: i in s <==> i < n
    ensures |s| == n
  {
    if n == 0 then {} else SlotsBelow(n - 1) + {n - 1}
  }

  lemma SubsetOfSameSize(a: set<nat>, b: set<nat>)
    requires a <= b && |a| >= |b|
    ensures a == b
  {
    if a != b {
      var x :| x in b && x !in a;
      var rest := b - {x};
      assert a <= rest;
      SubsetSize(a, rest);
    }
  }

  lemma {:induction false} SubsetSize(a: set<nat>, b: set<nat>)
    requires a <= b
    ensures |a| <= |b|
    decreases a
  {
    if a == {} {
    } else {
      var x :| x in a;
      SubsetSize(a - {x}, b - {x});
    }
  }

  lemma AllOwnedExactly(ep: Endpoint)
    requires SlotsDistinct(ep)
    ensures (forall i: nat | i < ep.slotCount :: SlotOwned(ep, i)) <==> |ep.bindings| == ep.slotCount
    ensures |ep.bindings| <= ep.slotCount
  {
    var owned, all := SlotsOf(ep.bindings), SlotsBelow(ep.slotCount);
    assert forall i: nat :: SlotOwned(ep, i) <==> i in owned;
    SlotsOfCount(ep.bindings);
    SubsetSize(owned, all);
    if |ep.bindings| == ep.slotCount {
      SubsetOfSameSize(owned, all);
    } else if all <= owned {
      SubsetSize(all, owned);
    }
  }

  /**
   * An initialized client given a valid, unbound ID is out of slots exactly when every slot is
   * owned, which is exactly when it has as many bindings as slots.
   */
  lemma NoFreeSlotExactly(ep: Endpoint, goal: GoalId, pdu: AppPdu, timeout: nat, now: nat, sent: bool)
    requires SlotsDistinct(ep) && ep.initialized && ValidGoalId(goal) && goal !in ep.bindings
    ensures SendGoal(ep, goal, pdu, timeout, now, sent).1 == NoFreeSlot <==> |ep.bindings| == ep.slotCount
    ensures SendGoal(ep, goal, pdu, timeout, now, sent).1 == NoFreeSlot <==>
            forall i: nat | i < ep.slotCount :: SlotOwned(ep, i)
  {
    AllOwnedExactly(ep);
  }

  // ----- timeouts -----

  /**
   * A timeout is only ever reported for a wait that asked for one, after its deadline on a clock that has not
   * gone back.
   */
  lemma TimeoutIsDue(ep: Endpoint, now: nat)
    ensures var (next, event) := Poll(ep, now);
            event.TimedOut? ==>
              && event.goal in ep.bindings && ep.bindings[event.goal].state == AwaitingGoalResponse
              && ep.bindings[event.goal].timeout > 0
              && now >= ep.bindings[event.goal].sentAt + ep.bindings[event.goal].timeout
              && event.goal in next.bindings && next.bindings[event.goal].state == GoalResponseTimedOut
  {
  }

  /** The wait a reservation starts expires exactly after its own timeout, counted from the reservation. */
  lemma WaitExpiresExactly(ep: Endpoint, goal: GoalId, timeout: nat, start: nat, now: nat)
    requires Reserve(ep, goal, timeout, start).1 == Success
    ensures goal in ExpiredGoals(Reserve(ep, goal, timeout, start).0, now) <==> timeout > 0 && now >= start + timeout
    ensures forall g | g != goal :: g in ExpiredGoals(Reserve(ep, goal, timeout, start).0, now) <==>
            g in ExpiredGoals(ep, now)
  {
  }

  predicate Quarantined(ep: Endpoint, goal: GoalId) {
    goal in ep.bindings && ep.bindings[goal].state == GoalResponseTimedOut
  }

  lemma QuarantineKept(ep: Endpoint, op: Op, goal: GoalId)
    requires Quarantined(ep, goal)
    ensures goal in Apply(ep, op).bindings && Apply(ep, op).bindings[goal] == ep.bindings[goal]
    ensures op.OpPoll? ==> Poll(ep, op.now).1 != TimedOut(goal)
  {
  }

  /**
   * Quarantine: through every run without a reset a timed-out Goal keeps its slot, its ID is refused
   * as a duplicate, no other Goal is given its slot, and it never times out a second time.
   */
  lemma {:induction false} QuarantineForever(ep: Endpoint, ops: seq<Op>, goal: GoalId)
    requires Quarantined(ep, goal)
    ensures var r := Run(ep, ops);
            && goal in r.bindings && r.bindings[goal] == ep.bindings[goal]
            && FreeSlotFrom(r, 0) != Some(ep.bindings[goal].slot)
            && (forall timeout: nat, now: nat :: Reserve(r, goal, timeout, now).1 != Success)
            && (forall now: nat :: Poll(r, now).1 != TimedOut(goal))
    decreases |ops|
  {
    if ops == [] {
      assert SlotOwned(ep, ep.bindings[goal].slot);
    } else {
      QuarantineKept(ep, ops[0], goal);
      QuarantineForever(Apply(ep, ops[0]), ops[1..], goal);
    }
  }

  /** The reports of `polls` consecutive polls at one clock reading. */
  function Reports(ep: Endpoint, now: nat, polls: nat): seq<Event>
    decreases polls
  {
    if polls == 0 then [] else
    var (next, event) := Poll(ep, now);
    [event] + Reports(next, now, polls - 1)
  }

  lemma TimeoutRemovesLeast(ep: Endpoint, now: nat)
    requires ep.initialized && ep.inbox == [] && ExpiredGoals(ep, now) != {}
    ensures var (next, event) := Poll(ep, now);
            && event == TimedOut(Least(ExpiredGoals(ep, now)))
            && next.initialized && next.inbox == []
            && ExpiredGoals(next, now) == ExpiredGoals(ep, now) - {Least(ExpiredGoals(ep, now))}
  {
  }

  /** A set of Goal IDs in table order. */
  function Ascending(s: set<nat>): (r: seq<nat>)
    ensures |r| == |s|
  {
    if s == {} then [] else
    assert s == {Least(s)} + (s - {Least(s)});
    [Least(s)] + Ascending(s - {Least(s)})
  }

  lemma {:induction false} AscendingListsAll(s: set<nat>)
    ensures forall x :: x in Ascending(s) <==> x in s
  {
    if s == {} {
    } else {
      AscendingListsAll(s - {Least(s)});
    }
  }

  /** The listing is strictly increasing, so it names nothing twice. */
  lemma {:induction false} AscendingIncreases(s: set<nat>, i: nat, j: nat)
    requires i < j < |s|
    ensures Ascending(s)[i] < Ascending(s)[j]
  {
    var rest := s - {Least(s)};
    assert Ascending(s) == [Least(s)] + Ascending(rest);
    AscendingListsAll(rest);
    if i == 0 {
      assert Ascending(rest)[j - 1] in Ascending(rest);
    } else {
      AscendingIncreases(rest, i - 1, j - 1);
    }
  }

  function TimeoutsThenQuiet(goals: seq<GoalId>, quiet: nat): seq<Event> {
    if goals != [] then [TimedOut(goals[0])] + TimeoutsThenQuiet(goals[1..], quiet)
    else if quiet > 0 then [NoEvent] + TimeoutsThenQuiet([], quiet - 1)
    else []
  }

  /**
   * Draining: with nothing to receive and a fixed clock, repeated polls report every expired wait
   * once, in table order (a listing without repetition by AscendingListsAll and AscendingIncreases), and
   * from then on report nothing.
   */
  lemma {:induction false} PollsDrainTimeouts(ep: Endpoint, now: nat, polls: nat)
    requires ep.initialized && ep.inbox == [] && polls >= |ExpiredGoals(ep, now)|
    ensures var expired := ExpiredGoals(ep, now);
            Reports(ep, now, polls) == TimeoutsThenQuiet(Ascending(expired), polls - |expired|)
    decreases polls
  {
    var expired := ExpiredGoals(ep, now);
    if polls == 0 {
    } else {
      if expired != {} {
        TimeoutRemovesLeast(ep, now);
        PollsDrainTimeouts(Poll(ep, now).0, now, polls - 1);
        assert Ascending(expired)[1..] == Ascending(expired - {Least(expired)});
      } else {
        PollsDrainTimeouts(ep, now, polls - 1);
      }
    }
  }
}
