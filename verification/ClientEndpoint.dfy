/**
 * The client packet endpoint in the form of the source.  `Valid` is the mutual inverse of the slot
 * vector and the binding table; every method computes the function of the same name in
 * ClientEndpointSpec, which has no slot vector at all.
 */
module ClientEndpoint {
  import opened ActionTypes
  import Spec = ClientEndpointSpec
  import SlotCount

  class ActionClientEndpoint {
    var initialized: bool
    var slotOwners: seq<Option<GoalId>>
    var bindings: map<GoalId, Spec.Binding>
    var pendingPackets: seq<ServerPacket>

    ghost predicate Valid()
      reads this
    {
      && (!initialized ==> bindings == map[] && slotOwners == [])
      && (forall g <- bindings ::
            ValidGoalId(g) && bindings[g].slot < |slotOwners| && slotOwners[bindings[g].slot] == Some(g))
      && (forall i | 0 <= i < |slotOwners| && slotOwners[i].Some? ::
            slotOwners[i].value in bindings && bindings[slotOwners[i].value].slot == i)
    }

    ghost function Abs(): Spec.Endpoint
      reads this
    {
      Spec.Endpoint(initialized, |slotOwners|, bindings, pendingPackets)
    }

    lemma SlotTable()
      requires Valid()
      ensures Spec.SlotsDistinct(Abs())
      ensures forall i: nat | i < |slotOwners| :: slotOwners[i].Some? <==> Spec.SlotOwned(Abs(), i)
      ensures |SlotCount.Occupied(slotOwners)| == |bindings|
    {
      var slots := map g | g in bindings :: bindings[g].slot;
      SlotCount.OccupiedCount(slotOwners, slots);
      assert slots.Keys == bindings.Keys;
      assert |slots| == |slots.Keys| && |bindings| == |bindings.Keys|;
      forall i: nat | i < |slotOwners| && slotOwners[i].Some? ensures Spec.SlotOwned(Abs(), i) {
        assert slotOwners[i].value in Abs().bindings;
      }
    }

    constructor ()
      ensures Valid() && Abs() == Spec.Endpoint(false, 0, map[], [])
    {
      initialized, slotOwners, bindings, pendingPackets := false, [], map[], [];
    }

    method Initialize(slotCount: nat) returns (ok: bool)
      requires Valid()
      modifies this
      ensures Valid() && ok == !old(initialized)
      ensures ok ==> Abs() == old(Abs()).(initialized := true, slotCount := slotCount)
      ensures !ok ==> Abs() == old(Abs())
    {
      ok := !initialized;
      if ok {
        slotOwners := seq(slotCount, _ => None);
        initialized := true;
      }
    }

    method Receive(packet: ServerPacket)
      requires Valid()
      modifies this`pendingPackets
      ensures Valid() && Abs() == Spec.Receive(old(Abs()), packet)
    {
      pendingPackets := pendingPackets + [packet];
    }

    method ReleaseBinding(goal: GoalId)
      requires Valid() && goal in bindings
      modifies this`slotOwners, this`bindings
      ensures Valid() && Abs() == Spec.Release(old(Abs()), goal)
    {
      var slot := bindings[goal].slot;
      if slot < |slotOwners| {
        slotOwners := slotOwners[slot := None];
      }
      bindings := bindings - {goal};
    }

    /** The search for the first free slot. */
    method FindFreeSlot() returns (slot: Option<nat>)
      requires Valid()
      ensures slot == Spec.FreeSlotFrom(Abs(), 0)
    {
      SlotTable();
      var i := 0;
      while i < |slotOwners| && slotOwners[i].Some?
        invariant 0 <= i <= |slotOwners|
        invariant Spec.FreeSlotFrom(Abs(), i) == Spec.FreeSlotFrom(Abs(), 0)
      {
        i := i + 1;
      }
      slot := if i < |slotOwners| then Some(i) else None;
    }

    method Reserve(goal: GoalId, timeout: nat, now: nat) returns (answer: Spec.GoalSendResult)
      requires Valid()
      modifies this`slotOwners, this`bindings
      ensures Valid() && (Abs(), answer) == Spec.Reserve(old(Abs()), goal, timeout, now)
    {
      if !ValidGoalId(goal) { return Spec.InvalidArgument; }
      if !initialized { return Spec.NotInitialized; }
      if goal in bindings { return Spec.DuplicateGoal; }
      var slot := FindFreeSlot();
      if slot.None? { return Spec.NoFreeSlot; }
      SlotTable();
      slotOwners := slotOwners[slot.value := Some(goal)];
      bindings := bindings[goal := Spec.Binding(slot.value, Spec.AwaitingGoalResponse, now, timeout, 0)];
      answer := Spec.Success;
    }

    method SendGoal(goal: GoalId, pdu: AppPdu, timeout: nat, now: nat, sent: bool)
      returns (answer: Spec.GoalSendResult, attempt: Option<RequestPacket>)
      requires Valid()
      modifies this`slotOwners, this`bindings
      ensures Valid() && (Abs(), answer, attempt) == Spec.SendGoal(old(Abs()), goal, pdu, timeout, now, sent)
    {
      attempt := None;
      answer := Reserve(goal, timeout, now);
      if answer != Spec.Success { return; }
      if !pdu.Sendable() {
        ReleaseBinding(goal);
        return Spec.InvalidPacket, None;
      }
      attempt := Some(Spec.GoalRequestPacket(bindings[goal].slot, goal, pdu.body));
      if !sent {
        ReleaseBinding(goal);
        answer := Spec.TransportError;
      }
    }

    method SendCancel(goal: GoalId, sent: bool) returns (ok: bool, attempt: Option<RequestPacket>)
      requires Valid()
      modifies this`bindings
      ensures Valid() && (Abs(), ok, attempt) == Spec.SendCancel(old(Abs()), goal, sent)
    {
      ok, attempt := false, None;
      if !ValidGoalId(goal) || !initialized || goal !in bindings { return; }
      var b := bindings[goal];
      if b.state != Spec.GoalAccepted { return; }
      bindings := bindings[goal := b.(state := Spec.AwaitingCancelResponse)];
      attempt := Some(Spec.CancelRequestPacket(b.slot, goal));
      ok := sent;
      if !sent && bindings[goal].state == Spec.AwaitingCancelResponse {
        bindings := bindings[goal := bindings[goal].(state := Spec.GoalAccepted)];
      }
    }

    /** The scan over the ordered binding table at the end of a poll. */
    method FindExpired(now: nat) returns (found: Option<GoalId>)
      ensures found.None? <==> Spec.ExpiredGoals(Abs(), now) == {}
      ensures found.Some? ==> found.value == Spec.Least(Spec.ExpiredGoals(Abs(), now))
    {
      var rest := bindings.Keys;
      while rest != {}
        invariant rest <= bindings.Keys
        invariant forall g <- bindings.Keys - rest :: !Spec.HasExpired(bindings[g], now)
        decreases |rest|
      {
        Spec.LeastExists(rest);
        var goal :| goal in rest && forall h <- rest :: goal <= h;
        var b := bindings[goal];
        if b.state == Spec.AwaitingGoalResponse && b.timeout != 0 && now >= b.sentAt && now - b.sentAt >= b.timeout {
          assert goal in Spec.ExpiredGoals(Abs(), now) && Spec.ExpiredGoals(Abs(), now) <= rest;
          return Some(goal);
        }
        rest := rest - {goal};
      }
      found := None;
    }

    method CheckTimeouts(now: nat) returns (event: Spec.Event)
      requires Valid()
      modifies this`bindings
      ensures Valid() && (Abs(), event) == Spec.CheckTimeouts(old(Abs()), now)
    {
      event := Spec.NoEvent;
      if !initialized { return; }
      var goal := FindExpired(now);
      if goal.Some? {
        bindings := bindings[goal.value := bindings[goal.value].(state := Spec.GoalResponseTimedOut)];
        event := Spec.TimedOut(goal.value);
      }
    }

    method Poll(now: nat) returns (event: Spec.Event)
      requires Valid()
      modifies this
      ensures Valid() && (Abs(), event) == Spec.Poll(old(Abs()), now)
    {
      if pendingPackets != [] {
        var p := pendingPackets[0];
        pendingPackets := pendingPackets[1..];
        if p.slot < |slotOwners| && ValidGoalId(p.goal) && p.goal in bindings {
          match Spec.React(bindings[p.goal], p) {
            case Keep(b) =>
              bindings := bindings[p.goal := b];
              return Spec.Delivered(p);
            case Finish =>
              ReleaseBinding(p.goal);
              return Spec.Delivered(p);
            case Ignore =>
          }
        }
      }
      event := CheckTimeouts(now);
    }

    method ClearPendingEvents()
      requires Valid()
      modifies this`pendingPackets
      ensures Valid() && Abs() == Spec.ClearPendingEvents(old(Abs()))
    {
      pendingPackets := [];
    }

    method ResetContexts()
      requires Valid()
      modifies this
      ensures Valid() && Abs() == Spec.ResetContexts(old(Abs()))
    {
      pendingPackets := [];
      bindings := map[];
      var i := 0;
      while i < |slotOwners|
        invariant 0 <= i <= |slotOwners| == old(|slotOwners|)
        invariant forall k | 0 <= k < i :: slotOwners[k] == None
        invariant bindings == map[] && pendingPackets == [] && initialized == old(initialized)
      {
        slotOwners := slotOwners[i := None];
        i := i + 1;
      }
    }
  }
}
