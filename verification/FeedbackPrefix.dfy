/**
 * Feedback over an unreliable network.  The server's sends are those of any endpoint run; the
 * network may lose, duplicate and reorder them at will; the client is any run of its endpoint,
 * other Goals, timeouts and half-finished sends included.
 */
module FeedbackPrefix {
  import opened ActionTypes
  import C = ClientEndpointSpec
  import S = ServerEndpointSpec
  import W = WireGrammar

  // ----- what a client run delivers -----

  /** Any call on the client endpoint, or one half of a send whose lock has been dropped. */
  datatype Step = Call(op: C.Op) | CommitCancel(goal: GoalId) | RollBackCancel(goal: GoalId) | RollBack(goal: GoalId)

  function Next(ep: C.Endpoint, step: Step): C.Endpoint {
    match step
    case Call(op) => C.Apply(ep, op)
    case CommitCancel(g) => if C.MayCancel(ep, g) then C.CommitCancel(ep, g) else ep
    case RollBackCancel(g) => C.RollBackCancel(ep, g)
    case RollBack(g) => C.Release(ep, g)
  }

  /** The feedback of a Goal that a step hands to the application. */
  function HeardBy(ep: C.Endpoint, step: Step, g: GoalId): seq<ServerPacket> {
    if !(step.Call? && step.op.OpPoll?) then [] else
    match C.Poll(ep, step.op.now).1
    case Delivered(p) => if p.Feedback? && p.goal == g then [p] else []
    case _ => []
  }

  function Heard(ep: C.Endpoint, steps: seq<Step>, g: GoalId): seq<ServerPacket>
    decreases |steps|
  {
    if steps == [] then [] else HeardBy(ep, steps[0], g) + Heard(Next(ep, steps[0]), steps[1..], g)
  }

  predicate Binds(ep: C.Endpoint, step: Step, g: GoalId) { g !in ep.bindings && g in Next(ep, step).bindings }

  /** How often the ID is bound in a run. */
  function Bindings(ep: C.Endpoint, steps: seq<Step>, g: GoalId): nat
    decreases |steps|
  {
    if steps == [] then 0
    else (if Binds(ep, steps[0], g) then 1 else 0) + Bindings(Next(ep, steps[0]), steps[1..], g)
  }

  /** A run of whole calls is a run of the endpoint. */
  lemma {:induction false} RunOfCalls(ep: C.Endpoint, ops: seq<C.Op>)
    ensures Last(ep, seq(|ops|, i requires 0 <= i < |ops| => Call(ops[i]))) == C.Run(ep, ops)
    decreases |ops|
  {
    if ops == [] {
    } else {
      var steps := seq(|ops|, i requires 0 <= i < |ops| => Call(ops[i]));
      assert steps[1..] == seq(|ops| - 1, i requires 0 <= i < |ops| - 1 => Call(ops[1..][i]));
      RunOfCalls(C.Apply(ep, ops[0]), ops[1..]);
    }
  }

  function Last(ep: C.Endpoint, steps: seq<Step>): C.Endpoint
    decreases |steps|
  {
    if steps == [] then ep else Last(Next(ep, steps[0]), steps[1..])
  }

  /** Feedback for the Goal is in the queue, or arrives, only if it was sent; how often and in what order is open. */
  ghost predicate FromSender(ep: C.Endpoint, steps: seq<Step>, g: GoalId, sent: seq<ServerPacket>) {
    && (forall p | p in ep.inbox && p.Feedback? && p.goal == g :: p in sent)
    && (forall i | 0 <= i < |steps| && steps[i].Call? && steps[i].op.OpReceive? ::
          steps[i].op.packet.Feedback? && steps[i].op.packet.goal == g ==> steps[i].op.packet in sent)
  }

  /** The number of a sent packet is its position. */
  lemma NumberedAt(sent: seq<ServerPacket>, p: ServerPacket, k: nat)
    requires W.Numbered(sent) && |sent| < TWO_TO_32 && p in sent && p.seqNo == k
    ensures k < |sent| && sent[k] == p && sent[k..] == [p] + sent[k + 1..]
  {
    var i :| 0 <= i < |sent| && sent[i] == p;
    assert i % TWO_TO_32 == i;
  }

  /** What one step does to the binding of a Goal, as far as feedback goes. */
  lemma StepFacts(ep: C.Endpoint, step: Step, g: GoalId)
    ensures var next := Next(ep, step);
            var heard := HeardBy(ep, step, g);
            && (heard == [] && g in ep.bindings && g in next.bindings ==>
                next.bindings[g].nextSeq == ep.bindings[g].nextSeq)
            && (Binds(ep, step, g) ==> heard == [] && next.bindings[g].nextSeq == 0)
            && (heard != [] ==>
                  && |heard| == 1 && ep.inbox != [] && heard[0] == ep.inbox[0] && heard[0].Feedback?
                     && heard[0].goal == g
                  && g in ep.bindings && heard[0].seqNo == ep.bindings[g].nextSeq
                  && g in next.bindings && next.bindings[g].nextSeq == Next32(ep.bindings[g].nextSeq))
  {
  }

  lemma StepQueue(ep: C.Endpoint, steps: seq<Step>, g: GoalId, sent: seq<ServerPacket>)
    requires steps != [] && FromSender(ep, steps, g, sent)
    ensures FromSender(Next(ep, steps[0]), steps[1..], g, sent)
  {
    var next := Next(ep, steps[0]);
    forall p | p in next.inbox && p.Feedback? && p.goal == g ensures p in sent { QueueFrom(ep, steps[0], p); }
    forall i | 0 <= i < |steps[1..]| && steps[1..][i].Call? && steps[1..][i].op.OpReceive?
      ensures steps[1..][i].op.packet.Feedback? && steps[1..][i].op.packet.goal == g ==> steps[1..][i].op.packet in sent
    {
      assert steps[1..][i] == steps[i + 1];
    }
  }

  lemma QueueFrom(ep: C.Endpoint, step: Step, p: ServerPacket)
    requires p in Next(ep, step).inbox
    ensures p in ep.inbox || step == Call(C.OpReceive(p))
  {
  }

  /** From the point where `k` packets were delivered, what is delivered next continues where they stopped. */
  lemma {:induction false} DeliversInOrder(ep: C.Endpoint, steps: seq<Step>, g: GoalId, sent: seq<ServerPacket>, k: nat)
    requires W.Numbered(sent) && |sent| < TWO_TO_32 && k <= |sent| && FromSender(ep, steps, g, sent)
    requires if g in ep.bindings then ep.bindings[g].nextSeq == k && Bindings(ep, steps, g) == 0
             else Bindings(ep, steps, g) == 0 || (Bindings(ep, steps, g) == 1 && k == 0)
    ensures Heard(ep, steps, g) <= sent[k..]
    decreases |steps|
  {
    if steps == [] {
    } else {
      var next := Next(ep, steps[0]);
      var heard := HeardBy(ep, steps[0], g);
      StepFacts(ep, steps[0], g);
      StepQueue(ep, steps, g, sent);
      if heard == [] {
        DeliversInOrder(next, steps[1..], g, sent, k);
        assert Heard(ep, steps, g) == Heard(next, steps[1..], g);
      } else {
        assert heard == [heard[0]];
        NumberedAt(sent, heard[0], k);
        DeliversInOrder(next, steps[1..], g, sent, k + 1);
      }
    }
  }

  /** The feedback of one episode of a Goal that the server endpoint sent in a run. */
  function SentBy(slotCount: nat, ops: seq<S.Op>, episode: nat): seq<ServerPacket> {
    W.Feedbacks(W.ItemsOf(W.Track(W.Start(slotCount), ops).log, episode))
  }

  /**
   * Prefix: whatever the server endpoint, the network and the client endpoint do, a client that binds
   * the ID at most once delivers a prefix of the feedback the server sent, in order and without gaps,
   * as long as fewer than 2^32 packets were sent.
   */
  lemma DeliveredIsPrefix(slotCount: nat, ops: seq<S.Op>, episode: nat, ep: C.Endpoint, steps: seq<Step>, g: GoalId)
    requires |SentBy(slotCount, ops, episode)| < TWO_TO_32 && FromSender(ep, steps, g, SentBy(slotCount, ops, episode))
    requires Bindings(ep, steps, g) <= (if g in ep.bindings then 0 else 1)
    requires g in ep.bindings ==> ep.bindings[g].nextSeq == 0
    ensures Heard(ep, steps, g) <= SentBy(slotCount, ops, episode)
  {
    var sent := SentBy(slotCount, ops, episode);
    W.GrammarOfEveryRun(slotCount, ops, episode);
    DeliversInOrder(ep, steps, g, sent, 0);
    assert sent[0..] == sent;
  }

  // ----- from 2^32 packets on -----

  /** Each of these packets arrives and is polled before the next. */
  function OneByOne(packets: seq<ServerPacket>): seq<Step> {
    if packets == [] then [] else [Call(C.OpReceive(packets[0])), Call(C.OpPoll(0))] + OneByOne(packets[1..])
  }

  /** A client that has only this Goal, accepted, with nothing queued. */
  function Listener(g: GoalId, slot: nat, nextSeq: nat): C.Endpoint {
    C.Endpoint(true, slot + 1, map[g := C.Binding(slot, C.GoalAccepted, 0, 0, nextSeq)], [])
  }

  lemma ListenerHears(g: GoalId, slot: nat, p: ServerPacket, seqNo: nat)
    requires ValidGoalId(g) && p.Feedback? && p.goal == g && p.slot == slot && p.seqNo == seqNo
    ensures var got := Next(Listener(g, slot, seqNo), Call(C.OpReceive(p)));
            && HeardBy(got, Call(C.OpPoll(0)), g) == [p]
            && Next(got, Call(C.OpPoll(0))) == Listener(g, slot, Next32(seqNo))
  {
    var got := Next(Listener(g, slot, seqNo), Call(C.OpReceive(p)));
    assert got.inbox == [p] && got.inbox[1..] == [];
    assert got.bindings[g := C.Binding(slot, C.GoalAccepted, 0, 0, Next32(seqNo))] ==
           Listener(g, slot, Next32(seqNo)).bindings;
  }

  lemma HeardTwo(ep: C.Endpoint, a: Step, b: Step, rest: seq<Step>, g: GoalId)
    ensures Heard(ep, [a, b] + rest, g) ==
            HeardBy(ep, a, g) + (HeardBy(Next(ep, a), b, g) + Heard(Next(Next(ep, a), b), rest, g))
    ensures Bindings(ep, [a, b] + rest, g) ==
            (if Binds(ep, a, g) then 1 else 0) + (if Binds(Next(ep, a), b, g) then 1 else 0)
              + Bindings(Next(Next(ep, a), b), rest, g)
  {
    assert ([a, b] + rest)[1..] == [b] + rest && ([b] + rest)[1..] == rest;
  }

  /** Numbered packets from `k` on are all heard by a listener that has counted to `k`. */
  lemma {:induction false} AllHeard(g: GoalId, slot: nat, packets: seq<ServerPacket>, k: nat)
    requires ValidGoalId(g)
    requires forall i | 0 <= i < |packets| ::
               packets[i].Feedback? && packets[i].goal == g && packets[i].slot == slot
                 && packets[i].seqNo == (k + i) % TWO_TO_32
    ensures Heard(Listener(g, slot, k % TWO_TO_32), OneByOne(packets), g) == packets
    ensures Bindings(Listener(g, slot, k % TWO_TO_32), OneByOne(packets), g) == 0
    decreases |packets|
  {
    if packets == [] {
    } else {
      var ep := Listener(g, slot, k % TWO_TO_32);
      var rest := packets[1..];
      ListenerHears(g, slot, packets[0], k % TWO_TO_32);
      assert Next32(k % TWO_TO_32) == (k + 1) % TWO_TO_32;
      forall i | 0 <= i < |rest|
        ensures rest[i].Feedback? && rest[i].goal == g && rest[i].slot == slot
                && rest[i].seqNo == (k + 1 + i) % TWO_TO_32
      {
        assert rest[i] == packets[i + 1];
      }
      AllHeard(g, slot, rest, k + 1);
      HeardTwo(ep, Call(C.OpReceive(packets[0])), Call(C.OpPoll(0)), OneByOne(rest), g);
      assert [packets[0]] + rest == packets;
    }
  }

  lemma {:induction false} OneByOneSends(packets: seq<ServerPacket>, sent: seq<ServerPacket>)
    requires forall i | 0 <= i < |packets| :: packets[i] in sent
    ensures forall i | 0 <= i < |OneByOne(packets)| ::
              && OneByOne(packets)[i].Call?
              && (OneByOne(packets)[i].op.OpReceive? ==> OneByOne(packets)[i].op.packet in sent)
  {
    if packets == [] {
    } else {
      OneByOneSends(packets[1..], sent);
      var steps := OneByOne(packets);
      forall i | 0 <= i < |steps| ensures steps[i].Call? && (steps[i].op.OpReceive? ==> steps[i].op.packet in sent) {
        if i >= 2 { assert steps[i] == OneByOne(packets[1..])[i - 2]; }
      }
    }
  }

  /** All packets of one Goal, in one slot. */
  predicate Uniform(sent: seq<ServerPacket>, g: GoalId, slot: nat) {
    ValidGoalId(g) && forall i | 0 <= i < |sent| :: sent[i].goal == g && sent[i].slot == slot
  }

  /** Delivered in order and then the packet whose number has come round once more: one packet too many. */
  lemma WrapAroundBreaksPrefix(sent: seq<ServerPacket>, g: GoalId, slot: nat)
    requires |sent| >= TWO_TO_32 && W.Numbered(sent) && Uniform(sent, g, slot)
    ensures var ep := Listener(g, slot, 0);
            var steps := OneByOne(sent + [sent[|sent| % TWO_TO_32]]);
            FromSender(ep, steps, g, sent) && Bindings(ep, steps, g) == 0 && !(Heard(ep, steps, g) <= sent)
  {
    var again := sent + [sent[|sent| % TWO_TO_32]];
    forall i | 0 <= i < |again|
      ensures again[i].Feedback? && again[i].goal == g && again[i].slot == slot && again[i].seqNo == (0 + i) % TWO_TO_32
    {
      if i == |sent| { assert (|sent| % TWO_TO_32) % TWO_TO_32 == |sent| % TWO_TO_32; }
    }
    AllHeard(g, slot, again, 0);
    forall i | 0 <= i < |again| ensures again[i] in sent {
      if i == |sent| { assert again[i] == sent[|sent| % TWO_TO_32]; }
    }
    OneByOneSends(again, sent);
  }

  // ----- an episode keeps to one Goal and one slot -----

  ghost predicate SameHome(t: W.Tracked) {
    && (forall k, l | 0 <= k < |t.log| && 0 <= l < |t.log| && t.log[k].episode == t.log[l].episode
                      && t.log[k].item.OnWire? && t.log[l].item.OnWire? ::
          t.log[k].item.packet.goal == t.log[l].item.packet.goal
            && t.log[k].item.packet.slot == t.log[l].item.packet.slot)
    && (forall k, g | 0 <= k < |t.log| && g in t.ep.bindings && g in t.episode && t.log[k].episode == t.episode[g]
        && t.log[k].item.OnWire? ::
          t.log[k].item.packet.goal == g && t.log[k].item.packet.slot == t.ep.bindings[g].slot)
    && (forall k | 0 <= k < |t.log| && t.log[k].item.OnWire? :: ValidGoalId(t.log[k].item.packet.goal))
  }

  /** A logged packet names its Goal and the slot the Goal is bound to, before and after. */
  lemma LoggedHome(t: W.Tracked, op: S.Op)
    requires W.Logged(t, op).Some? && W.Logged(t, op).value.1.OnWire?
    ensures var (g, item) := W.Logged(t, op).value;
            var next := S.Apply(t.ep, op).0.bindings;
            && g in t.ep.bindings && ValidGoalId(g) && item.packet.goal == g
               && item.packet.slot == t.ep.bindings[g].slot
            && (g in next ==> next[g].slot == t.ep.bindings[g].slot)
  {
  }

  lemma SlotsStay(ep: S.Endpoint, op: S.Op)
    requires !(op.OpPoll? && S.Poll(ep).result.GoalRequest?)
    ensures forall g <- S.Apply(ep, op).0.bindings ::
            g in ep.bindings && S.Apply(ep, op).0.bindings[g].slot == ep.bindings[g].slot
  {
    var _ := S.OneBinding(ep, op);
  }

  lemma NotedHome(t: W.Tracked, u: W.Tracked, g: GoalId, item: W.Item)
    requires SameHome(t) && W.Bookkeeping(t) && u == W.Note(t.(ep := u.ep), g, item) && g in t.ep.bindings
    requires forall h <- u.ep.bindings :: h in t.ep.bindings && u.ep.bindings[h].slot == t.ep.bindings[h].slot
    requires item.OnWire? ==> ValidGoalId(g) && item.packet.goal == g && item.packet.slot == t.ep.bindings[g].slot
    ensures SameHome(u)
  {
    assert u.log == t.log + [W.Entry(t.episode[g], item)];
    forall k | 0 <= k < |t.log| ensures u.log[k] == t.log[k] {}
    forall h <- u.ep.bindings | h != g ensures t.episode[h] != t.episode[g] {}
  }

  lemma HomeKept(t: W.Tracked, op: S.Op)
    requires SameHome(t) && W.Bookkeeping(t)
    ensures SameHome(W.Advance(t, op))
  {
    var u := W.Advance(t, op);
    W.AdvanceIsNote(t, op);
    if op.OpPoll? && S.Poll(t.ep).result.GoalRequest? {
      NewEpisodeHome(t, op);
    } else {
      SlotsStay(t.ep, op);
      if W.Logged(t, op).Some? {
        var (g, item) := W.Logged(t, op).value;
        if item.OnWire? { LoggedHome(t, op); }
        NotedHome(t, u, g, item);
      } else {
        assert u == t.(ep := u.ep);
      }
    }
  }

  lemma NewEpisodeHome(t: W.Tracked, op: S.Op)
    requires SameHome(t) && W.Bookkeeping(t) && op.OpPoll? && S.Poll(t.ep).result.GoalRequest?
    ensures SameHome(W.Advance(t, op))
  {
    var u := W.Advance(t, op);
    var g := S.Poll(t.ep).result.goal;
    assert u.log == t.log && u.episode == t.episode[g := t.episodes];
    assert u.ep.bindings == t.ep.bindings[g := u.ep.bindings[g]] && g !in t.ep.bindings;
  }

  lemma {:induction false} RunHome(t: W.Tracked, ops: seq<S.Op>)
    requires SameHome(t) && W.Bookkeeping(t)
    ensures SameHome(W.Track(t, ops))
    decreases |ops|
  {
    if ops == [] {
    } else {
      HomeKept(t, ops[0]);
      W.BookkeepingKept(t, ops[0]);
      RunHome(W.Advance(t, ops[0]), ops[1..]);
    }
  }

  lemma {:induction false} ItemsFromLog(log: seq<W.Entry>, episode: nat)
    ensures forall it | it in W.ItemsOf(log, episode) :: W.Entry(episode, it) in log
  {
    if log == [] {
    } else {
      var n := |log| - 1;
      ItemsFromLog(log[..n], episode);
      forall it | it in W.ItemsOf(log, episode) ensures W.Entry(episode, it) in log {
        if it in W.ItemsOf(log[..n], episode) {
          assert W.Entry(episode, it) in log[..n];
        } else {
          assert log[n] == W.Entry(episode, it);
        }
      }
    }
  }

  lemma {:induction false} FeedbacksFromItems(items: seq<W.Item>)
    ensures forall p | p in W.Feedbacks(items) :: W.OnWire(p) in items
  {
    if items == [] {
    } else {
      FeedbacksFromItems(items[..|items| - 1]);
    }
  }

  /** The feedback of an episode is of one Goal and in one slot. */
  lemma SentIsUniform(slotCount: nat, ops: seq<S.Op>, episode: nat)
    requires SentBy(slotCount, ops, episode) != []
    ensures var sent := SentBy(slotCount, ops, episode); Uniform(sent, sent[0].goal, sent[0].slot)
  {
    var t := W.Track(W.Start(slotCount), ops);
    RunHome(W.Start(slotCount), ops);
    var sent := SentBy(slotCount, ops, episode);
    ItemsFromLog(t.log, episode);
    FeedbacksFromItems(W.ItemsOf(t.log, episode));
    forall i | 0 <= i < |sent| ensures W.Entry(episode, W.OnWire(sent[i])) in t.log { assert sent[i] in sent; }
  }

  /** A client that binds the ID at most once, behind a network that invents nothing. */
  ghost predicate Honest(ep: C.Endpoint, steps: seq<Step>, g: GoalId, sent: seq<ServerPacket>) {
    && FromSender(ep, steps, g, sent)
    && Bindings(ep, steps, g) <= (if g in ep.bindings then 0 else 1)
    && (g in ep.bindings ==> ep.bindings[g].nextSeq == 0)
  }

  /** The bound is exact: every honest client delivers a prefix if and only if fewer than 2^32 packets were sent. */
  lemma PrefixExactly(slotCount: nat, ops: seq<S.Op>, episode: nat)
    ensures var sent := SentBy(slotCount, ops, episode);
            |sent| < TWO_TO_32 <==>
              forall ep, steps, g | Honest(ep, steps, g, sent) :: Heard(ep, steps, g) <= sent
  {
    var sent := SentBy(slotCount, ops, episode);
    if |sent| < TWO_TO_32 {
      forall ep, steps, g | Honest(ep, steps, g, sent) ensures Heard(ep, steps, g) <= sent {
        DeliveredIsPrefix(slotCount, ops, episode, ep, steps, g);
      }
    } else {
      SentIsUniform(slotCount, ops, episode);
      W.GrammarOfEveryRun(slotCount, ops, episode);
      var (g, slot) := (sent[0].goal, sent[0].slot);
      WrapAroundBreaksPrefix(sent, g, slot);
      var (ep, steps) := (Listener(g, slot, 0), OneByOne(sent + [sent[|sent| % TWO_TO_32]]));
      assert Honest(ep, steps, g, sent) && !(Heard(ep, steps, g) <= sent);
    }
  }

  // ----- runs that send any number of packets -----

  const PDU: AppPdu := AppPdu(true, true, [])

  /** A server that has accepted the Goal in its first episode and sent `n` feedback packets. */
  ghost predicate Publishing(t: W.Tracked, g: GoalId, n: nat) {
    && ValidGoalId(g) && t.ep.initialized && S.InState(t.ep, g, S.GoalAccepted)
       && t.ep.bindings[g].slot < t.ep.slotCount
    && g in t.episode && t.episode[g] == 0 && |W.Feedbacks(W.ItemsOf(t.log, 0))| == n
  }

  lemma PublishOne(t: W.Tracked, g: GoalId, n: nat)
    requires Publishing(t, g, n)
    ensures Publishing(W.Advance(t, S.OpSendFeedback(g, PDU, true)), g, n + 1)
  {
    var op := S.OpSendFeedback(g, PDU, true);
    var p := S.Apply(t.ep, op).1.value;
    W.ItemsAppend(t.log, W.Entry(0, W.OnWire(p)), 0);
    var items := W.ItemsOf(t.log, 0);
    assert (items + [W.OnWire(p)])[..|items|] == items;
  }

  lemma {:induction false} PublishMany(t: W.Tracked, g: GoalId, n: nat, more: nat) returns (ops: seq<S.Op>)
    requires Publishing(t, g, n)
    ensures Publishing(W.Track(t, ops), g, n + more)
    decreases more
  {
    if more == 0 {
      ops := [];
    } else {
      var op := S.OpSendFeedback(g, PDU, true);
      PublishOne(t, g, n);
      var rest := PublishMany(W.Advance(t, op), g, n + 1, more - 1);
      ops := [op] + rest;
      assert ops[1..] == rest;
    }
  }

  /** The first three steps of a run: a request arrives, is surfaced, and is accepted. */
  function Arrived(g: GoalId): W.Tracked {
    W.Start(1).(ep := S.Endpoint(true, 1, map[], [C.GoalRequestPacket(0, g, [])]))
  }

  function Surfaced(g: GoalId): W.Tracked {
    W.Tracked(S.Endpoint(true, 1, map[g := S.Binding(0, S.AwaitingGoalDecision, 0, false)], []), map[g := 0], 1, [])
  }

  lemma SurfaceStep(g: GoalId)
    requires ValidGoalId(g)
    ensures W.Advance(W.Start(1), S.OpReceive(C.GoalRequestPacket(0, g, []))) == Arrived(g)
    ensures W.Advance(Arrived(g), S.OpPoll(true)) == Surfaced(g)
  {
    assert !S.SlotOwned(Arrived(g).ep, 0);
    assert Arrived(g).ep.inbox[1..] == [];
    assert S.Poll(Arrived(g).ep).next == Surfaced(g).ep;
  }

  function AcceptedState(g: GoalId): W.Tracked {
    W.Tracked(S.Endpoint(true, 1, map[g := S.Binding(0, S.GoalAccepted, 0, false)], []), map[g := 0], 1,
              [W.Entry(0, W.OnWire(GoalResponse(0, g, Accepted)))])
  }

  lemma AcceptStep(g: GoalId)
    requires ValidGoalId(g)
    ensures W.Advance(Surfaced(g), S.OpAcceptGoal(g, true)) == AcceptedState(g)
  {
    var ep := Surfaced(g).ep;
    assert ep.bindings[g := S.Binding(0, S.GoalAccepted, 0, false)] == AcceptedState(g).ep.bindings;
    assert S.AcceptGoal(ep, g, true).next == AcceptedState(g).ep;
    assert Surfaced(g).log + AcceptedState(g).log == AcceptedState(g).log;
  }

  lemma NoFeedbackYet(p: ServerPacket)
    requires !p.Feedback?
    ensures W.Feedbacks(W.ItemsOf([W.Entry(0, W.OnWire(p))], 0)) == []
  {
    W.ItemsAppend([], W.Entry(0, W.OnWire(p)), 0);
    assert [] + [W.Entry(0, W.OnWire(p))] == [W.Entry(0, W.OnWire(p))];
    assert W.ItemsOf([W.Entry(0, W.OnWire(p))], 0) == [W.OnWire(p)] && [W.OnWire(p)][..0] == [];
  }

  /** Any number of packets can be sent in one episode, so both sides of the bound are reached. */
  lemma AnyNumberSent(g: GoalId, n: nat) returns (ops: seq<S.Op>)
    requires ValidGoalId(g)
    ensures |SentBy(1, ops, 0)| == n
  {
    var o1, o2, o3 := S.OpReceive(C.GoalRequestPacket(0, g, [])), S.OpPoll(true), S.OpAcceptGoal(g, true);
    SurfaceStep(g);
    AcceptStep(g);
    NoFeedbackYet(GoalResponse(0, g, Accepted));
    var rest := PublishMany(AcceptedState(g), g, 0, n);
    ops := [o1] + ([o2] + ([o3] + rest));
    TrackCons(W.Start(1), o1, [o2] + ([o3] + rest));
    TrackCons(Arrived(g), o2, [o3] + rest);
    TrackCons(Surfaced(g), o3, rest);
  }

  lemma TrackCons(t: W.Tracked, op: S.Op, rest: seq<S.Op>)
    ensures W.Track(t, [op] + rest) == W.Track(W.Advance(t, op), rest)
  {
    assert ([op] + rest)[1..] == rest;
  }
}
