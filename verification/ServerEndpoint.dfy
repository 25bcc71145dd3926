/**
 * The server packet endpoint in the form of the source: an object that updates a slot vector, a
 * binding table and a packet queue in place.  `Valid` is the mutual inverse of vector and table;
 * every method is proved to compute the function of the same name in ServerEndpointSpec.
 * The outcome of a transport send is the parameter `sent`; `attempt` is the packet handed to it.
 */
module ServerEndpoint {
  import opened ActionTypes
  import Spec = ServerEndpointSpec
  import SlotCount

  class ActionServerEndpoint {
    var initialized: bool
    var slotOwners: seq<Option<GoalId>>
    var bindings: map<GoalId, Spec.Binding>
    var pendingPackets: seq<RequestPacket>

    ghost predicate Valid()
      reads this
    {
      && (!initialized ==> bindings == map[] && slotOwners == [])
      && (forall g <- bindings ::
            ValidGoalId(g) && bindings[g].slot < |slotOwners| && slotOwners[bindings[g].slot] == Some(g))
      && (forall i | 0 <= i < |slotOwners| && slotOwners[i].Some? ::
            slotOwners[i].value in bindings && bindings[slotOwners[i].value].slot == i)
    }

    ghost function Abs(): Spec.Endpoint
      reads this
    {
      Spec.Endpoint(initialized, |slotOwners|, bindings, pendingPackets)
    }

    /** The inverse tables say what the specification says about slots. */
    lemma SlotTable()
      requires Valid()
      ensures Spec.SlotsDistinct(Abs())
      ensures forall i: nat | i < |slotOwners| :: slotOwners[i].Some? <==> Spec.SlotOwned(Abs(), i)
      ensures |SlotCount.Occupied(slotOwners)| == |bindings|
    {
      var slots := map g | g in bindings :: bindings[g].slot;
      SlotCount.OccupiedCount(slotOwners, slots);
      assert slots.Keys == bindings.Keys;
      assert |slots| == |slots.Keys| && |bindings| == |bindings.Keys|;
      forall i: nat | i < |slotOwners| && slotOwners[i].Some? ensures Spec.SlotOwned(Abs(), i) {
        assert slotOwners[i].value in Abs().bindings;
      }
    }

    lemma OwnerIs(i: nat)
      requires Valid()
      ensures i < |slotOwners| ==> (slotOwners[i].Some? <==> Spec.SlotOwned(Abs(), i))
    {
      if i < |slotOwners| && slotOwners[i].Some? { assert slotOwners[i].value in Abs().bindings; }
    }

    constructor ()
      ensures Valid() && Abs() == Spec.Endpoint(false, 0, map[], [])
    {
      initialized, slotOwners, bindings, pendingPackets := false, [], map[], [];
    }

    method Initialize(slotCount: nat) returns (ok: bool)
      requires Valid()
      modifies this
      ensures Valid() && ok == !old(initialized)
      ensures ok ==> Abs() == old(Abs()).(initialized := true, slotCount := slotCount)
      ensures !ok ==> Abs() == old(Abs())
    {
      ok := !initialized;
      if ok {
        slotOwners := seq(slotCount, _ => None);
        initialized := true;
      }
    }

    method Receive(packet: RequestPacket)
      requires Valid()
      modifies this`pendingPackets
      ensures Valid() && Abs() == Spec.Receive(old(Abs()), packet)
    {
      pendingPackets := pendingPackets + [packet];
    }

    method ReleaseBinding(goal: GoalId)
      requires Valid() && goal in bindings
      modifies this`slotOwners, this`bindings
      ensures Valid() && Abs() == Spec.Release(old(Abs()), goal)
    {
      var slot := bindings[goal].slot;
      if slot < |slotOwners| && slotOwners[slot] == Some(goal) {
        slotOwners := slotOwners[slot := None];
      }
      bindings := bindings - {goal};
    }

    method Poll() returns (event: Spec.Event, attempt: Option<ServerPacket>)
      requires Valid()
      modifies this
      ensures Valid()
      ensures Spec.Step(Abs(), event, attempt) == Spec.Poll(old(Abs()))
    {
      event, attempt := Spec.NoEvent, None;
      if !initialized || pendingPackets == [] { return; }
      var packet := pendingPackets[0];
      OwnerIs(packet.slot);
      pendingPackets := pendingPackets[1..];
      if packet.slot >= |slotOwners| || !packet.WellFormed() { return; }
      if packet.kind == REQUEST_KIND_CANCEL {
        if packet.goal !in bindings { return; }
        var b := bindings[packet.goal];
        if b.slot != packet.slot || b.state != Spec.GoalAccepted || b.cancelPending { return; }
        bindings := bindings[packet.goal := b.(cancelPending := true)];
        event := Spec.CancelRequest(packet.goal, packet.body);
        return;
      }
      if packet.goal in bindings || slotOwners[packet.slot].Some? {
        attempt := Some(GoalResponse(packet.slot, packet.goal, Rejected));
        return;
      }
      slotOwners := slotOwners[packet.slot := Some(packet.goal)];
      bindings := bindings[packet.goal := Spec.Binding(packet.slot, Spec.AwaitingGoalDecision, 0, false)];
      event := Spec.GoalRequest(packet.goal, packet.body);
    }

    method AcceptGoal(goal: GoalId, sent: bool) returns (ok: bool, attempt: Option<ServerPacket>)
      requires Valid()
      modifies this`bindings
      ensures Valid()
      ensures Spec.Step(Abs(), ok, attempt) == Spec.AcceptGoal(old(Abs()), goal, sent)
    {
      ok, attempt := false, None;
      if !ValidGoalId(goal) || !initialized || goal !in bindings { return; }
      var b := bindings[goal];
      if b.state != Spec.AwaitingGoalDecision { return; }
      ok, attempt := sent, Some(GoalResponse(b.slot, goal, Accepted));
      if sent { bindings := bindings[goal := b.(state := Spec.GoalAccepted)]; }
    }

    method RejectGoal(goal: GoalId, sent: bool) returns (ok: bool, attempt: Option<ServerPacket>)
      requires Valid()
      modifies this`slotOwners, this`bindings
      ensures Valid()
      ensures Spec.Step(Abs(), ok, attempt) == Spec.RejectGoal(old(Abs()), goal, sent)
    {
      ok, attempt := false, None;
      if !ValidGoalId(goal) || !initialized || goal !in bindings { return; }
      var b := bindings[goal];
      if b.state != Spec.AwaitingGoalDecision { return; }
      ok, attempt := sent, Some(GoalResponse(b.slot, goal, Rejected));
      if sent { ReleaseBinding(goal); }
    }

    method AcceptCancel(goal: GoalId, sent: bool) returns (ok: bool, attempt: Option<ServerPacket>)
      requires Valid()
      modifies this`bindings
      ensures Valid()
      ensures Spec.Step(Abs(), ok, attempt) == Spec.AcceptCancel(old(Abs()), goal, sent)
    {
      ok, attempt := false, None;
      if !ValidGoalId(goal) || !initialized || goal !in bindings { return; }
      var b := bindings[goal];
      if b.state != Spec.GoalAccepted || !b.cancelPending { return; }
      ok, attempt := sent, Some(CancelResponse(b.slot, goal, Accepted));
      if sent { bindings := bindings[goal := b.(state := Spec.CancelAccepted, cancelPending := false)]; }
    }

    method RejectCancel(goal: GoalId, sent: bool) returns (ok: bool, attempt: Option<ServerPacket>)
      requires Valid()
      modifies this`bindings
      ensures Valid()
      ensures Spec.Step(Abs(), ok, attempt) == Spec.RejectCancel(old(Abs()), goal, sent)
    {
      ok, attempt := false, None;
      if !ValidGoalId(goal) || !initialized || goal !in bindings { return; }
      var b := bindings[goal];
      if b.state != Spec.GoalAccepted || !b.cancelPending { return; }
      ok, attempt := sent, Some(CancelResponse(b.slot, goal, Rejected));
      if sent { bindings := bindings[goal := b.(cancelPending := false)]; }
    }

    method AcceptCancelLocally(goal: GoalId) returns (ok: bool)
      requires Valid()
      modifies this`bindings
      ensures Valid()
      ensures Spec.Step(Abs(), ok, None) == Spec.AcceptCancelLocally(old(Abs()), goal)
    {
      ok := false;
      if !ValidGoalId(goal) || !initialized || goal !in bindings { return; }
      var b := bindings[goal];
      if b.state != Spec.GoalAccepted { return; }
      bindings := bindings[goal := b.(state := Spec.CancelAccepted, cancelPending := false)];
      ok := true;
    }

    method SendFeedback(goal: GoalId, pdu: AppPdu, sent: bool) returns (ok: bool, attempt: Option<ServerPacket>)
      requires Valid()
      modifies this`bindings
      ensures Valid()
      ensures Spec.Step(Abs(), ok, attempt) == Spec.SendFeedback(old(Abs()), goal, pdu, sent)
    {
      ok, attempt := false, None;
      if !ValidGoalId(goal) || !initialized || goal !in bindings { return; }
      var b := bindings[goal];
      if (b.state != Spec.GoalAccepted && b.state != Spec.CancelAccepted) || b.slot >= |slotOwners| { return; }
      if !pdu.AppPdu? || !pdu.capacityOk { return; }
      if !pdu.headerFits { return; }
      ok, attempt := sent, Some(Feedback(b.slot, goal, b.nextSeq, pdu.body));
      if sent { bindings := bindings[goal := b.(nextSeq := Next32(b.nextSeq))]; }
    }

    method ValidateTerminalPacket(goal: GoalId, status: TerminalStatus, pdu: AppPdu) returns (ok: bool)
      requires Valid() && ValidGoalId(goal) && initialized && goal in bindings
      ensures ok == Spec.MayCommit(Abs(), goal, status, pdu)
    {
      var b := bindings[goal];
      var executing := b.state == Spec.GoalAccepted && (status == Succeeded || status == Aborted);
      var canceling := b.state == Spec.CancelAccepted && (status == Canceled || status == Aborted);
      ok := (executing || canceling) && b.slot < |slotOwners| && pdu.AppPdu? && pdu.capacityOk;
    }

    method Complete(goal: GoalId, status: TerminalStatus, pdu: AppPdu, sent: bool)
      returns (result: Spec.CompleteResult, attempt: Option<ServerPacket>)
      requires Valid()
      modifies this`slotOwners, this`bindings
      ensures Valid()
      ensures Spec.Step(Abs(), result, attempt) == Spec.Complete(old(Abs()), goal, status, pdu, sent)
    {
      result, attempt := Spec.NotCommitted, None;
      if !ValidGoalId(goal) || !initialized || goal !in bindings { return; }
      var valid := ValidateTerminalPacket(goal, status, pdu);
      if !valid { return; }
      var b := bindings[goal];
      bindings := bindings[goal := b.(state := Spec.ResultCommitted, cancelPending := false)];
      result := Spec.SendFailedAfterCommit;
      if !pdu.headerFits { return; }
      attempt := Some(Result(b.slot, goal, status, pdu.body));
      if sent {
        ReleaseBinding(goal);
        result := Spec.Sent;
      }
    }

    method CompleteLocally(goal: GoalId, status: TerminalStatus, pdu: AppPdu) returns (ok: bool)
      requires Valid()
      modifies this`slotOwners, this`bindings
      ensures Valid()
      ensures Spec.Step(Abs(), ok, None) == Spec.CompleteLocally(old(Abs()), goal, status, pdu)
    {
      ok := false;
      if !ValidGoalId(goal) || !initialized || goal !in bindings { return; }
      ok := ValidateTerminalPacket(goal, status, pdu);
      if ok { ReleaseBinding(goal); }
    }

    method DiscardPendingGoal(goal: GoalId) returns (ok: bool)
      requires Valid()
      modifies this`slotOwners, this`bindings
      ensures Valid()
      ensures Spec.Step(Abs(), ok, None) == Spec.DiscardPendingGoal(old(Abs()), goal)
    {
      ok := ValidGoalId(goal) && goal in bindings && bindings[goal].state == Spec.AwaitingGoalDecision;
      if ok { ReleaseBinding(goal); }
    }

    method ClearPendingEvents()
      requires Valid()
      modifies this`pendingPackets
      ensures Valid() && Abs() == Spec.ClearPendingEvents(old(Abs()))
    {
      pendingPackets := [];
    }

    method ResetContexts()
      requires Valid()
      modifies this
      ensures Valid() && Abs() == Spec.ResetContexts(old(Abs()))
    {
      bindings := map[];
      var i := 0;
      while i < |slotOwners|
        invariant 0 <= i <= |slotOwners| == old(|slotOwners|)
        invariant forall k | 0 <= k < i :: slotOwners[k] == None
        invariant bindings == map[] && initialized == old(initialized)
      {
        slotOwners := slotOwners[i := None];
        i := i + 1;
      }
      pendingPackets := [];
    }
  }
}
