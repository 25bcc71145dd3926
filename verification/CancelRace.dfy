/**
 * The client endpoint drops its lock between committing a cancel and sending it, so the outcome of the
 * send can reach a Goal that has been sent anew under the same ID.  This module says which late outcomes
 * do harm when the new Goal is in another slot; module CancelGuard says exactly when the race can be
 * entered at all, and module ServicesLock that the Services layer never enters it.
 */
module CancelRace {
  import opened ActionTypes
  import opened GoalView
  import C = ClientEndpointSpec
  import S = ServerEndpointSpec

  // ----- a late cancel whose Goal has another slot by now -----

  lemma RemoveOther(s: seq<nat>, i: nat, k: nat)
    requires i < |s| && s[i] != k
    ensures k in RemoveAt(s, i) <==> k in s
  {
    if k in s {
      var j :| 0 <= j < |s| && s[j] == k;
      assert RemoveAt(s, i)[if j < i then j else j - 1] == k;
    }
  }

  /** Sending it changes nothing about the agreement: the packet names a slot the Goal is not in. */
  lemma LateSendHarmless(v: View, i: nat)
    requires Allowed(v, CancelSent(i)) && v.cb.Some? && v.cancelling[i] != v.cb.value.slot
    ensures Agreement(After(v, CancelSent(i))) <==> Agreement(v)
  {
    var w := After(v, CancelSent(i));
    RemoveOther(v.cancelling, i, v.cb.value.slot);
    assert forall j | 0 <= j < |v.up| :: w.up[j] == v.up[j];
    assert w.up[|v.up|].slot != v.cb.value.slot && w.up[|v.up|].kind == REQUEST_KIND_CANCEL;
    assert GoalQueued(w) == GoalQueued(v) by {
      if GoalQueued(v) {
        var j :| 0 <= j < |v.up| && v.up[j].kind == REQUEST_KIND_GOAL;
        assert w.up[j].kind == REQUEST_KIND_GOAL;
      }
    }
    assert CancelUnderWay(w) == CancelUnderWay(v) by {
      if exists j :: 0 <= j < |v.up| && v.up[j].kind == REQUEST_KIND_CANCEL && v.up[j].slot == v.cb.value.slot {
        var j :| 0 <= j < |v.up| && v.up[j].kind == REQUEST_KIND_CANCEL && v.up[j].slot == v.cb.value.slot;
        assert w.up[j].kind == REQUEST_KIND_CANCEL && w.up[j].slot == w.cb.value.slot;
      }
    }
  }

  /** When it arrives the server ignores it. */
  lemma LatePacketIgnored(v: View)
    requires Ownership(v) && CancelQueued(v) && v.cb.Some? && v.up[0].slot != v.cb.value.slot
    ensures After(v, Polled) == v.(up := v.up[1..])
  {
  }

  /**
   * A failed send rolls the Goal back whatever its slot.  That is harmless exactly if the new Goal has
   * no cancel of its own under way, or the server is already done with it and has answered none.
   */
  lemma LateRollBackExactly(v: View, i: nat)
    requires Allowed(v, CancelRolledBack(i)) && Agreement(v) && Followed(v) && !OpenSend(v)
    requires v.cancelling[i] != v.cb.value.slot
    ensures Agreement(After(v, CancelRolledBack(i))) <==>
              || v.cb.value.state != C.AwaitingCancelResponse
              || (CancelAnswers(v.down) == 0 && (v.sb.None? || v.sb.value.state == S.ResultCommitted))
  {
    var w := After(v, CancelRolledBack(i));
    RemoveOther(v.cancelling, i, v.cb.value.slot);
    assert GoalQueued(w) == GoalQueued(v) && CancelUnderWay(w) == CancelUnderWay(v);
    if v.cb.value.state == C.AwaitingCancelResponse {
      var b := v.cb.value.(state := C.GoalAccepted);
      assert Waiting(b) == v.cb.value;
      if CancelAnswers(v.down) == 0 { FoldWaiting(b, v.down); } else { AnswerDropped(b, v.down); }
    }
  }

  /** A client that is not waiting for it drops a Cancel Response. */
  lemma {:induction false} AnswerDropped(b: C.Binding, q: seq<ServerPacket>)
    requires b.state == C.GoalAccepted && CancelAnswers(q) > 0
    ensures Fold(b, q) == Dropped
    decreases |q|
  {
    var r := C.React(b, q[0]);
    if r.Keep? { AnswerDropped(r.next, q[1..]); }
  }
}
