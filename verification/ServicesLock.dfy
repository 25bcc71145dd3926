/**
 * The client Services layer holds its own lock across a whole endpoint call, and so meets the guard of the
 * agreement.
 */
module ServicesLock {
  import opened ActionTypes
  import opened GoalView
  import opened Composition
  import C = ClientEndpointSpec
  import S = ServerEndpointSpec

  /** A client call under the Services lock, with what the server does while the endpoint's own lock is open. */
  datatype Block =
    | GoalBlock(goal: GoalId, timeout: nat, now: nat, pdu: AppPdu, meanwhile: seq<Step>, sent: bool)
    | CancelBlock(goal: GoalId, meanwhile: seq<Step>, sent: bool)
    | PollBlock(now: nat)
    | ServerBlock(steps: seq<Step>)

  predicate ServerSteps(steps: seq<Step>) {
    forall i | 0 <= i < |steps| :: steps[i].ServerPoll? || steps[i].ServerCall?
  }

  predicate WellFormed(b: Block) {
    match b
    case GoalBlock(_, _, _, _, meanwhile, _) => ServerSteps(meanwhile)
    case CancelBlock(_, meanwhile, _) => ServerSteps(meanwhile)
    case PollBlock(_) => true
    case ServerBlock(steps) => ServerSteps(steps)
  }

  /** A packet that cannot be prepared is not sent. */
  function GoalEnd(g: GoalId, pdu: AppPdu, sent: bool): Step {
    if sent && pdu.Sendable() then SendGoal(g, pdu.body) else RollBack(g)
  }

  function StepsOf(b: Block): seq<Step> {
    match b
    case GoalBlock(g, timeout, now, pdu, meanwhile, sent) =>
      [Reserve(g, timeout, now)] + meanwhile + [GoalEnd(g, pdu, sent)]
    case CancelBlock(g, meanwhile, sent) =>
      [CommitCancel(g)] + meanwhile + [if sent then SendCancel(g, 0) else RollBackCancel(g, 0)]
    case PollBlock(now) => [ClientPoll(now)]
    case ServerBlock(steps) => steps
  }

  function AllSteps(blocks: seq<Block>): seq<Step> {
    if blocks == [] then [] else StepsOf(blocks[0]) + AllSteps(blocks[1..])
  }

  /** No send is open. */
  ghost predicate Unlocked(sys: System) { sys.sending == map[] && forall g :: Open(sys, g) == [] }

  /** The server's steps touch neither the bindings nor the open sends of the client. */
  lemma {:induction false} ServerStepsElsewhere(sys: System, steps: seq<Step>)
    requires ServerSteps(steps)
    ensures var end := Run(sys, steps);
            end.c == sys.c.(inbox := end.c.inbox) && end.sending == sys.sending && end.cancelling == sys.cancelling
    ensures DisciplinedRun(sys, steps)
    decreases |steps|
  {
    if steps == [] {
    } else {
      ServerStepsElsewhere(Next(sys, steps[0]), steps[1..]);
    }
  }

  lemma {:induction false} DisciplinedBoth(sys: System, a: seq<Step>, b: seq<Step>)
    requires DisciplinedRun(sys, a) && DisciplinedRun(Run(sys, a), b)
    ensures DisciplinedRun(sys, a + b)
    decreases |a|
  {
    if a == [] {
      assert a + b == b;
    } else {
      assert (a + b)[1..] == a[1..] + b;
      DisciplinedBoth(Next(sys, a[0]), a[1..], b);
    }
  }

  lemma ThreeParts(sys: System, first: Step, meanwhile: seq<Step>, last: Step)
    requires Disciplined(sys, first) && ServerSteps(meanwhile) && !last.Reserve?
    ensures DisciplinedRun(sys, [first] + meanwhile + [last])
    ensures Run(sys, [first] + meanwhile + [last]) == Next(Run(Next(sys, first), meanwhile), last)
    ensures Run(sys, [first] + meanwhile) == Run(Next(sys, first), meanwhile)
  {
    var s1 := Next(sys, first);
    RunOne(sys, first);
    RunAppend(sys, [first], meanwhile);
    RunAppend(sys, [first] + meanwhile, [last]);
    RunOne(Run(s1, meanwhile), last);
    ServerStepsElsewhere(s1, meanwhile);
    assert [first][1..] == [] && [last][1..] == [];
    DisciplinedBoth(sys, [first], meanwhile);
    DisciplinedBoth(sys, [first] + meanwhile, [last]);
  }

  /** The endpoint call a block stands for. */
  function CallOf(c: C.Endpoint, b: Block): C.Endpoint {
    match b
    case GoalBlock(g, timeout, now, pdu, _, sent) => C.SendGoal(c, g, pdu, timeout, now, sent).0
    case CancelBlock(g, _, sent) => C.SendCancel(c, g, sent).0
    case PollBlock(now) => C.Poll(c, now).0
    case ServerBlock(_) => c
  }

  /** The packet that call hands to the transport. */
  function AttemptOf(c: C.Endpoint, b: Block): Option<RequestPacket> {
    match b
    case GoalBlock(g, timeout, now, pdu, _, sent) => C.SendGoal(c, g, pdu, timeout, now, sent).2
    case CancelBlock(g, _, sent) => C.SendCancel(c, g, sent).2
    case _ => None
  }

  /** The server after its queue has taken in a packet that was sent. */
  function Arrived(s: S.Endpoint, sent: bool, attempt: Option<RequestPacket>): S.Endpoint {
    if sent && attempt.Some? then S.Receive(s, attempt.value) else s
  }

  /** The block up to the send. */
  function BeforeSend(b: Block): seq<Step>
    requires b.GoalBlock? || b.CancelBlock?
  {
    StepsOf(b)[..|StepsOf(b)| - 1]
  }

  /**
   * A block is disciplined, leaves no send open, does to the bindings what the endpoint call as a whole does, and
   * puts into the server's queue exactly the packet that call hands over, if it was sent.
   */
  lemma BlockIsCall(sys: System, b: Block)
    requires Unlocked(sys) && WellFormed(b)
    ensures DisciplinedRun(sys, StepsOf(b)) && Unlocked(Run(sys, StepsOf(b)))
    ensures Run(sys, StepsOf(b)).c.bindings == CallOf(sys.c, b).bindings
    ensures b.GoalBlock? || b.CancelBlock? ==>
              Run(sys, StepsOf(b)).s == Arrived(Run(sys, BeforeSend(b)).s, b.sent, AttemptOf(sys.c, b))
    ensures b.PollBlock? ==> Run(sys, StepsOf(b)).s == sys.s
  {
    match b
    case GoalBlock(g, timeout, now, pdu, meanwhile, sent) =>
      ThreeParts(sys, Reserve(g, timeout, now), meanwhile, GoalEnd(g, pdu, sent));
      assert BeforeSend(b) == [Reserve(g, timeout, now)] + meanwhile;
      ServerStepsElsewhere(Next(sys, Reserve(g, timeout, now)), meanwhile);
      GoalBlockEnds(sys, b, Run(Next(sys, Reserve(g, timeout, now)), meanwhile));
    case CancelBlock(g, meanwhile, sent) =>
      ThreeParts(sys, CommitCancel(g), meanwhile, if sent then SendCancel(g, 0) else RollBackCancel(g, 0));
      assert BeforeSend(b) == [CommitCancel(g)] + meanwhile;
      ServerStepsElsewhere(Next(sys, CommitCancel(g)), meanwhile);
      CancelBlockEnds(sys, b, Run(Next(sys, CommitCancel(g)), meanwhile));
    case PollBlock(now) =>
      RunOne(sys, ClientPoll(now));
      assert [ClientPoll(now)][1..] == [];
      assert forall h :: Open(Next(sys, ClientPoll(now)), h) == Open(sys, h);
    case ServerBlock(steps) =>
      ServerStepsElsewhere(sys, steps);
      assert forall h :: Open(Run(sys, steps), h) == Open(sys, h);
  }

  lemma GoalBlockEnds(sys: System, b: Block, mid: System)
    requires Unlocked(sys) && b.GoalBlock?
    requires var s1 := Next(sys, Reserve(b.goal, b.timeout, b.now));
             mid.c == s1.c.(inbox := mid.c.inbox) && mid.sending == s1.sending && mid.cancelling == s1.cancelling
    ensures var end := Next(mid, GoalEnd(b.goal, b.pdu, b.sent));
            var (next, _, attempt) := C.SendGoal(sys.c, b.goal, b.pdu, b.timeout, b.now, b.sent);
            Unlocked(end) && end.c.bindings == next.bindings && end.s == Arrived(mid.s, b.sent, attempt)
  {
    var end := Next(mid, GoalEnd(b.goal, b.pdu, b.sent));
    assert forall h :: Open(end, h) == Open(sys, h);
    if b.goal in mid.sending { assert mid.sending - {b.goal} == map[]; }
  }

  lemma CancelBlockEnds(sys: System, b: Block, mid: System)
    requires Unlocked(sys) && b.CancelBlock?
    requires var s1 := Next(sys, CommitCancel(b.goal));
             mid.c == s1.c.(inbox := mid.c.inbox) && mid.sending == s1.sending && mid.cancelling == s1.cancelling
    ensures var end := Next(mid, if b.sent then SendCancel(b.goal, 0) else RollBackCancel(b.goal, 0));
            var (next, _, attempt) := C.SendCancel(sys.c, b.goal, b.sent);
            Unlocked(end) && end.c.bindings == next.bindings && end.s == Arrived(mid.s, b.sent, attempt)
  {
    var end := Next(mid, if b.sent then SendCancel(b.goal, 0) else RollBackCancel(b.goal, 0));
    assert Open(sys, b.goal) == [];
    if C.MayCancel(sys.c, b.goal) {
      assert Open(mid, b.goal) == [sys.c.bindings[b.goal].slot];
      assert Open(end, b.goal) == [];
    }
    forall h ensures Open(end, h) == [] { assert Open(sys, h) == []; }
  }

  /**
   * The Services layer meets the guard: any sequence of its calls, with the server free to act at any moment, is
   * disciplined.
   */
  lemma {:induction false} ServicesAreDisciplined(sys: System, blocks: seq<Block>)
    requires Unlocked(sys) && forall i | 0 <= i < |blocks| :: WellFormed(blocks[i])
    ensures DisciplinedRun(sys, AllSteps(blocks)) && Unlocked(Run(sys, AllSteps(blocks)))
    decreases |blocks|
  {
    if blocks == [] {
    } else {
      var next := Run(sys, StepsOf(blocks[0]));
      BlockIsCall(sys, blocks[0]);
      ServicesAreDisciplined(next, blocks[1..]);
      RunAppend(sys, StepsOf(blocks[0]), AllSteps(blocks[1..]));
      DisciplinedBoth(sys, StepsOf(blocks[0]), AllSteps(blocks[1..]));
    }
  }

  /** So through Services the agreement needs no guard. */
  lemma ServicesAgree(slotCount: nat, blocks: seq<Block>, g: GoalId)
    requires forall i | 0 <= i < |blocks| :: WellFormed(blocks[i])
    ensures var v := ViewOf(Run(Start(slotCount), AllSteps(blocks)), g);
            Followed(v) && !OpenSend(v) ==> Corresponds(v, Fold(v.cb.value, v.down))
  {
    ServicesAreDisciplined(Start(slotCount), blocks);
    AgreementOfEveryRun(slotCount, AllSteps(blocks), g);
  }
}
