/**
 * What one Goal puts on the wire.  A run of the server endpoint is tracked with a log: each Goal
 * Request that binds a Goal opens a new episode, and every surfaced cancel, locally accepted cancel
 * and successfully sent packet is logged under the episode of its Goal.  Rejection replies to
 * duplicate requests belong to no episode and are left aside.
 */
module WireGrammar {
  import opened ActionTypes
  import opened ServerEndpointSpec

  datatype Item = CancelSurfaced | CancelTakenLocally | OnWire(packet: ServerPacket)

  datatype Entry = Entry(episode: nat, item: Item)

  datatype Tracked = Tracked(ep: Endpoint, episode: map<GoalId, nat>, episodes: nat, log: seq<Entry>)

  function Note(t: Tracked, goal: GoalId, item: Item): Tracked {
    if goal in t.episode then t.(log := t.log + [Entry(t.episode[goal], item)]) else t
  }

  function Advance(t: Tracked, op: Op): Tracked {
    var (next, attempt) := Apply(t.ep, op);
    var u := t.(ep := next);
    match op
    case OpPoll(_) => (
      match Poll(t.ep).result
      case GoalRequest(g, _) => u.(episode := u.episode[g := u.episodes], episodes := u.episodes + 1)
      case CancelRequest(g, _) => Note(u, g, CancelSurfaced)
      case NoEvent => u
    )
    case OpAcceptCancelLocally(g) => if AcceptCancelLocally(t.ep, g).result then Note(u, g, CancelTakenLocally) else u
    case _ => if SentFlag(op) && attempt.Some? then Note(u, attempt.value.goal, OnWire(attempt.value)) else u
  }

  function Track(t: Tracked, ops: seq<Op>): Tracked
    decreases |ops|
  {
    if ops == [] then t else Track(Advance(t, ops[0]), ops[1..])
  }

  const EMPTY: Tracked := Tracked(Endpoint(false, 0, map[], []), map[], 0, [])

  function Start(slotCount: nat): Tracked {
    EMPTY.(ep := Endpoint(true, slotCount, map[], []))
  }

  function ItemsOf(log: seq<Entry>, episode: nat): seq<Item> {
    if log == [] then [] else
    var n := |log| - 1;
    ItemsOf(log[..n], episode) + (if log[n].episode == episode then [log[n].item] else [])
  }

  /** Reader of one episode; `surfaced`, `answered` and `feedbacks` count what was seen since acceptance. */
  datatype Phase =
    | Opened
    | Running(surfaced: nat, answered: nat, canceled: bool, feedbacks: nat)
    | Closed
    | Broken

  function Read(p: Phase, item: Item): Phase {
    match (p, item)
    case (Opened, OnWire(GoalResponse(_, _, Accepted))) => Running(0, 0, false, 0)
    case (Opened, OnWire(GoalResponse(_, _, Rejected))) => Closed
    case (Running(s, a, false, f), CancelSurfaced) => Running(s + 1, a, false, f)
    case (Running(s, a, false, f), CancelTakenLocally) => Running(s, a, true, f)
    case (Running(s, a, false, f), OnWire(CancelResponse(_, _, d))) =>
      if a < s && d != NoDecision then Running(s, a + 1, d == Accepted, f) else Broken
    case (Running(s, a, c, f), OnWire(Feedback(_, _, n, _))) =>
      if n == f % TWO_TO_32 then Running(s, a, c, f + 1) else Broken
    case (Running(_, _, c, _), OnWire(Result(_, _, status, _))) => if StatusAllowed(c, status) then Closed else Broken
    case _ => Broken
  }

  function Scan(items: seq<Item>): Phase {
    if items == [] then Opened else Read(Scan(items[..|items| - 1]), items[|items| - 1])
  }

  predicate Image(b: Binding, p: Phase) {
    match b.state
    case AwaitingGoalDecision => p == Opened && b.nextSeq == 0 && !b.cancelPending
    case GoalAccepted =>
      p.Running? && !p.canceled && p.surfaced == p.answered + (if b.cancelPending then 1 else 0)
      && b.nextSeq == p.feedbacks % TWO_TO_32
    case CancelAccepted => p.Running? && p.canceled && b.nextSeq == p.feedbacks % TWO_TO_32
    case ResultCommitted => p.Running?
  }

  ghost predicate Bookkeeping(t: Tracked) {
    && (forall g <- t.ep.bindings :: g in t.episode)
    && (forall g <- t.episode :: t.episode[g] < t.episodes)
    && (forall g, h | g in t.episode && h in t.episode && g != h :: t.episode[g] != t.episode[h])
    && (forall k | 0 <= k < |t.log| :: t.log[k].episode < t.episodes)
  }

  ghost predicate Readable(t: Tracked) {
    && (forall e: nat :: Scan(ItemsOf(t.log, e)) != Broken)
    && (forall g <- t.ep.bindings :: g in t.episode ==> Image(t.ep.bindings[g], Scan(ItemsOf(t.log, t.episode[g]))))
  }

  lemma ItemsAppend(log: seq<Entry>, entry: Entry, episode: nat)
    ensures ItemsOf(log + [entry], episode)
         == ItemsOf(log, episode) + (if entry.episode == episode then [entry.item] else [])
  {
    assert (log + [entry])[..|log|] == log;
  }

  lemma ScanAppend(items: seq<Item>, item: Item)
    ensures Scan(items + [item]) == Read(Scan(items), item)
  {
    assert (items + [item])[..|items|] == items;
  }

  /** Logging one item advances the reader of its own episode and no other. */
  lemma NoteScan(t: Tracked, goal: GoalId, item: Item, episode: nat)
    requires goal in t.episode
    ensures Scan(ItemsOf(Note(t, goal, item).log, episode)) ==
            if t.episode[goal] == episode then Read(Scan(ItemsOf(t.log, episode)), item)
              else Scan(ItemsOf(t.log, episode))
  {
    ItemsAppend(t.log, Entry(t.episode[goal], item), episode);
    ScanAppend(ItemsOf(t.log, episode), item);
    assert ItemsOf(t.log, episode) + [] == ItemsOf(t.log, episode);
  }

  lemma {:induction false} FreshEpisode(log: seq<Entry>, episode: nat)
    requires forall k | 0 <= k < |log| :: log[k].episode < episode
    ensures ItemsOf(log, episode) == []
  {
    if log == [] {
    } else {
      FreshEpisode(log[..|log| - 1], episode);
    }
  }

  /** The item a call logs for a Goal, if any. */
  function Logged(t: Tracked, op: Op): Option<(GoalId, Item)> {
    match op
    case OpPoll(_) => (
      match Poll(t.ep).result
      case CancelRequest(g, _) => Some((g, CancelSurfaced))
      case _ => None
    )
    case OpAcceptCancelLocally(g) => if AcceptCancelLocally(t.ep, g).result then Some((g, CancelTakenLocally)) else None
    case _ =>
      var attempt := Apply(t.ep, op).1;
      if SentFlag(op) && attempt.Some? then Some((attempt.value.goal, OnWire(attempt.value))) else None
  }

  /**
   * Whatever an operation logs for a Goal is what the reader of its binding expects; nothing else moves the
   * binding.
   */
  ghost predicate Expected(t: Tracked, op: Op, goal: GoalId, p: Phase) {
    var next := Apply(t.ep, op).0.bindings;
    match Logged(t, op)
    case Some((g, item)) =>
      && g in t.ep.bindings
      && (g != goal ==> goal in next && Image(next[goal], p))
      && (g == goal ==> Read(p, item) != Broken && (goal in next ==> Image(next[goal], Read(p, item))))
    case None => goal in next ==> Image(next[goal], p)
  }

  lemma ReaderPoll(t: Tracked, op: Op, goal: GoalId, p: Phase)
    requires goal in t.ep.bindings && Image(t.ep.bindings[goal], p) && op.OpPoll?
    ensures Expected(t, op, goal, p)
  {
  }

  lemma ReaderGoal(t: Tracked, op: Op, goal: GoalId, p: Phase)
    requires goal in t.ep.bindings && Image(t.ep.bindings[goal], p) && (op.OpAcceptGoal? || op.OpRejectGoal?)
    ensures Expected(t, op, goal, p)
  {
  }

  lemma ReaderCancel(t: Tracked, op: Op, goal: GoalId, p: Phase)
    requires goal in t.ep.bindings && Image(t.ep.bindings[goal], p)
    requires op.OpAcceptCancel? || op.OpRejectCancel? || op.OpAcceptCancelLocally?
    ensures Expected(t, op, goal, p)
  {
  }

  lemma ReaderFeedback(t: Tracked, op: Op, goal: GoalId, p: Phase)
    requires goal in t.ep.bindings && Image(t.ep.bindings[goal], p) && op.OpSendFeedback?
    ensures Expected(t, op, goal, p)
  {
  }

  lemma ReaderResult(t: Tracked, op: Op, goal: GoalId, p: Phase)
    requires goal in t.ep.bindings && Image(t.ep.bindings[goal], p) && op.OpComplete?
    ensures Expected(t, op, goal, p)
  {
  }

  /** The one-Goal heart of the simulation: whatever is logged is what the binding's reader expects. */
  lemma ReaderStep(t: Tracked, op: Op, goal: GoalId, p: Phase)
    requires goal in t.ep.bindings && Image(t.ep.bindings[goal], p)
    ensures Expected(t, op, goal, p)
  {
    if op.OpPoll? { ReaderPoll(t, op, goal, p); }
    else if op.OpAcceptGoal? || op.OpRejectGoal? { ReaderGoal(t, op, goal, p); }
    else if op.OpAcceptCancel? || op.OpRejectCancel? || op.OpAcceptCancelLocally? { ReaderCancel(t, op, goal, p); }
    else if op.OpSendFeedback? { ReaderFeedback(t, op, goal, p); }
    else if op.OpComplete? { ReaderResult(t, op, goal, p); }
  }

  lemma AdvanceIsNote(t: Tracked, op: Op)
    ensures var u := t.(ep := Apply(t.ep, op).0);
            match Logged(t, op)
            case Some((g, item)) => g in t.ep.bindings && Advance(t, op) == Note(u, g, item)
            case None => op.OpPoll? || Advance(t, op) == u
    ensures Logged(t, op).None? && op.OpPoll? && !Poll(t.ep).result.GoalRequest? ==>
            Advance(t, op) == t.(ep := Apply(t.ep, op).0)
    ensures !(op.OpPoll? && Poll(t.ep).result.GoalRequest?) ==>
              forall g <- Apply(t.ep, op).0.bindings :: g in t.ep.bindings
  {
    if !(op.OpPoll? && Poll(t.ep).result.GoalRequest?) {
      var _ := OneBinding(t.ep, op);
    }
  }

  lemma NewEpisodeKept(t: Tracked, ep: Endpoint, g: GoalId)
    requires Bookkeeping(t) && forall h <- ep.bindings :: h == g || h in t.ep.bindings
    ensures Bookkeeping(t.(ep := ep, episode := t.episode[g := t.episodes], episodes := t.episodes + 1))
  {
  }

  lemma NoteKept(t: Tracked, g: GoalId, item: Item)
    requires Bookkeeping(t)
    ensures Bookkeeping(Note(t, g, item))
  {
  }

  lemma BookkeepingKept(t: Tracked, op: Op)
    requires Bookkeeping(t)
    ensures Bookkeeping(Advance(t, op))
  {
    var u := t.(ep := Apply(t.ep, op).0);
    AdvanceIsNote(t, op);
    if op.OpPoll? && Poll(t.ep).result.GoalRequest? {
      NewEpisodeKept(t, u.ep, Poll(t.ep).result.goal);
    } else {
      assert Bookkeeping(u);
      match Logged(t, op) {
        case Some((g, item)) => NoteKept(u, g, item);
        case None =>
      }
    }
  }

  lemma ReadableKept(t: Tracked, op: Op)
    requires Bookkeeping(t) && Readable(t)
    ensures Readable(Advance(t, op))
  {
    var u := Advance(t, op);
    AdvanceIsNote(t, op);
    if op.OpPoll? && Poll(t.ep).result.GoalRequest? {
      FreshEpisode(t.log, t.episodes);
      forall g <- u.ep.bindings ensures Image(u.ep.bindings[g], Scan(ItemsOf(u.log, u.episode[g]))) {}
    } else {
      forall e: nat ensures Scan(ItemsOf(u.log, e)) != Broken {
        if Logged(t, op).Some? {
          var (g, item) := Logged(t, op).value;
          NoteScan(t.(ep := u.ep), g, item, e);
          ReaderStep(t, op, g, Scan(ItemsOf(t.log, t.episode[g])));
        }
      }
      forall g <- u.ep.bindings ensures Image(u.ep.bindings[g], Scan(ItemsOf(u.log, u.episode[g]))) {
        ReaderStep(t, op, g, Scan(ItemsOf(t.log, t.episode[g])));
        if Logged(t, op).Some? {
          var (h, item) := Logged(t, op).value;
          NoteScan(t.(ep := u.ep), h, item, t.episode[g]);
        }
      }
    }
  }

  /** Every run keeps every episode readable. */
  lemma {:induction false} RunReadable(t: Tracked, ops: seq<Op>)
    requires Bookkeeping(t) && Readable(t)
    ensures Bookkeeping(Track(t, ops)) && Readable(Track(t, ops))
    decreases |ops|
  {
    if ops == [] {
    } else {
      BookkeepingKept(t, ops[0]);
      ReadableKept(t, ops[0]);
      RunReadable(Advance(t, ops[0]), ops[1..]);
    }
  }

  // ----- what being readable means -----

  function Responses(items: seq<Item>): seq<ServerPacket> {
    if items == [] then [] else
    var n := |items| - 1;
    var it := items[n];
    Responses(items[..n]) + (if it.OnWire? && !it.packet.Feedback? then [it.packet] else [])
  }

  function Feedbacks(items: seq<Item>): seq<ServerPacket> {
    if items == [] then [] else
    var n := |items| - 1;
    var it := items[n];
    Feedbacks(items[..n]) + (if it.OnWire? && it.packet.Feedback? then [it.packet] else [])
  }

  /** Packet i carries number i, in 32 bits. */
  predicate Numbered(f: seq<ServerPacket>) {
    forall i | 0 <= i < |f| :: f[i].Feedback? && f[i].seqNo == i % TWO_TO_32
  }

  function SurfacedCancels(items: seq<Item>): nat {
    if items == [] then 0 else
    var n := |items| - 1;
    SurfacedCancels(items[..n]) + (if items[n] == CancelSurfaced then 1 else 0)
  }

  function CancelAnswers(r: seq<ServerPacket>): nat {
    if r == [] then 0 else CancelAnswers(r[..|r| - 1]) + (if r[|r| - 1].CancelResponse? then 1 else 0)
  }

  predicate CancelGranted(p: ServerPacket) { p.CancelResponse? && p.decision == Accepted }

  ghost predicate CancelTaken(items: seq<Item>) {
    CancelTakenLocally in items || exists k :: 0 <= k < |items| && items[k].OnWire? && CancelGranted(items[k].packet)
  }

  /**
   * The documented order of responses: one REJECT alone, or one ACCEPT followed only by cancel
   * responses and a Result; nothing follows a Result, and only a Result follows a granted cancel.
   */
  ghost predicate Sentence(r: seq<ServerPacket>) {
    && (r != [] ==> r[0].GoalResponse? && r[0].decision != NoDecision)
    && (r != [] && r[0].decision == Rejected ==> |r| == 1)
    && (forall i | 0 < i < |r| :: r[i].Result? || (r[i].CancelResponse? && r[i].decision != NoDecision))
    && (forall i | 0 <= i < |r| - 1 :: !r[i].Result?)
    && (forall i, j | 0 <= i < j < |r| && CancelGranted(r[i]) :: r[j].Result?)
  }

  lemma SentenceExtends(r: seq<ServerPacket>, p: ServerPacket)
    requires Sentence(r)
    requires r == [] ==> p.GoalResponse? && p.decision != NoDecision
    requires r != [] ==>
               && r[0].decision == Accepted && !r[|r| - 1].Result?
               && (p.Result? || (p.CancelResponse? && p.decision != NoDecision
                                 && forall i | 0 <= i < |r| :: !CancelGranted(r[i])))
    ensures Sentence(r + [p])
  {
    var s := r + [p];
    forall i, j | 0 <= i < j < |s| && CancelGranted(s[i]) ensures s[j].Result? {
      assert s[i] == r[i];
    }
  }

  lemma CancelTakenExtends(items: seq<Item>, item: Item)
    ensures CancelTaken(items + [item]) <==>
            CancelTaken(items) || item == CancelTakenLocally || (item.OnWire? && CancelGranted(item.packet))
  {
    var all := items + [item];
    assert all[|items|] == item;
    if CancelTaken(items) && CancelTakenLocally !in items {
      var k :| 0 <= k < |items| && items[k].OnWire? && CancelGranted(items[k].packet);
      assert all[k] == items[k];
    }
  }

  lemma {:induction false} GrantedResponseTaken(items: seq<Item>, i: nat)
    requires i < |Responses(items)| && CancelGranted(Responses(items)[i])
    ensures CancelTaken(items)
  {
    var n := |items| - 1;
    assert items == items[..n] + [items[n]];
    CancelTakenExtends(items[..n], items[n]);
    if i >= |Responses(items[..n])| {
    } else {
      GrantedResponseTaken(items[..n], i);
    }
  }

  lemma Split(items: seq<Item>) returns (before: seq<Item>, item: Item)
    requires items != []
    ensures items == before + [item] && |before| < |items|
    ensures Scan(items) == Read(Scan(before), item)
    ensures Responses(items) == Responses(before)
            + (if item.OnWire? && !item.packet.Feedback? then [item.packet] else [])
    ensures SurfacedCancels(items) == SurfacedCancels(before) + (if item == CancelSurfaced then 1 else 0)
  {
    before, item := items[..|items| - 1], items[|items| - 1];
  }

  lemma ScanOpened(items: seq<Item>)
    requires Scan(items) == Opened
    ensures items == []
  {
  }

  /** Feedback is numbered consecutively. */
  lemma {:induction false} ScanFeedback(items: seq<Item>)
    requires Scan(items) != Broken
    ensures var f := Feedbacks(items);
            Numbered(f) && (Scan(items).Running? ==> Scan(items).feedbacks == |f|)
  {
    if items == [] {
    } else {
      var before, item := Split(items);
      ScanFeedback(before);
      if Scan(before) == Opened { ScanOpened(before); }
    }
  }

  lemma CancelAnswersExtend(r: seq<ServerPacket>, p: ServerPacket)
    ensures CancelAnswers(r + [p]) == CancelAnswers(r) + (if p.CancelResponse? then 1 else 0)
  {
    assert (r + [p])[..|r|] == r;
  }

  /** What the reader has counted, if it is still reading. */
  predicate Counted(p: Phase, surfaced: nat, answered: nat) {
    && answered <= surfaced
    && (p == Opened ==> surfaced == answered == 0)
    && (p.Running? ==> p.surfaced == surfaced && p.answered == answered)
  }

  lemma CountedNext(p: Phase, item: Item, surfaced: nat, answered: nat)
    requires Counted(p, surfaced, answered) && Read(p, item) != Broken
    ensures Counted(Read(p, item),
                    surfaced + (if item == CancelSurfaced then 1 else 0),
                    answered + (if item.OnWire? && item.packet.CancelResponse? then 1 else 0))
  {
  }

  /** Every cancel response answers a surfaced cancel of its own. */
  lemma ScanCancels(items: seq<Item>)
    requires Scan(items) != Broken
    ensures CancelAnswers(Responses(items)) <= SurfacedCancels(items)
    ensures Scan(items).Running? ==>
              Scan(items).surfaced == SurfacedCancels(items) && Scan(items).answered == CancelAnswers(Responses(items))
  {
    ScanCounted(items);
  }

  lemma {:induction false} ScanCounted(items: seq<Item>)
    requires Scan(items) != Broken
    ensures Counted(Scan(items), SurfacedCancels(items), CancelAnswers(Responses(items)))
  {
    if items == [] {
      assert Responses(items) == [];
    } else {
      var before, item := Split(items);
      ScanCounted(before);
      CountedNext(Scan(before), item, SurfacedCancels(before), CancelAnswers(Responses(before)));
      ResponsesCount(before, items, item);
    }
  }

  lemma ResponsesCount(before: seq<Item>, items: seq<Item>, item: Item)
    requires Responses(items) == Responses(before)
                               + (if item.OnWire? && !item.packet.Feedback? then [item.packet] else [])
    ensures CancelAnswers(Responses(items)) ==
            CancelAnswers(Responses(before)) + (if item.OnWire? && item.packet.CancelResponse? then 1 else 0)
  {
    if item.OnWire? && !item.packet.Feedback? {
      CancelAnswersExtend(Responses(before), item.packet);
    } else {
      assert Responses(items) == Responses(before);
    }
  }

  /** The reader's flag says whether a cancel was taken. */
  lemma {:induction false} ScanTaken(items: seq<Item>)
    requires Scan(items) != Broken
    ensures Scan(items).Running? ==> (Scan(items).canceled <==> CancelTaken(items))
  {
    if items == [] {
    } else {
      var before, item := Split(items);
      ScanTaken(before);
      CancelTakenExtends(before, item);
      if Scan(before) == Opened { ScanOpened(before); }
    }
  }

  ghost predicate OpenSentence(r: seq<ServerPacket>) {
    && Sentence(r) && r != [] && r[0].decision == Accepted
    && forall i | 0 < i < |r| :: r[i].CancelResponse?
  }

  lemma NoGrantYet(items: seq<Item>)
    requires !CancelTaken(items)
    ensures forall i: nat | i < |Responses(items)| :: !CancelGranted(Responses(items)[i])
  {
    forall i: nat | i < |Responses(items)| ensures !CancelGranted(Responses(items)[i]) {
      if CancelGranted(Responses(items)[i]) { GrantedResponseTaken(items, i); }
    }
  }

  lemma {:induction false} ScanShape(items: seq<Item>)
    requires Scan(items) != Broken
    ensures Sentence(Responses(items)) && (Scan(items).Running? ==> OpenSentence(Responses(items)))
  {
    if items == [] {
      assert Responses(items) == [];
    } else {
      var before, item := Split(items);
      ScanShape(before);
      ScanTaken(before);
      if Scan(before) == Opened { ScanOpened(before); }
      if item.OnWire? && !item.packet.Feedback? {
        if item.packet.CancelResponse? { NoGrantYet(before); }
        SentenceExtends(Responses(before), item.packet);
      } else {
        assert Responses(items) == Responses(before);
      }
    }
  }

  ghost predicate StatusesAllowed(r: seq<ServerPacket>, taken: bool) {
    forall i | 0 <= i < |r| && r[i].Result? :: StatusAllowed(taken, r[i].status)
  }

  lemma StatusExtends(r: seq<ServerPacket>, p: ServerPacket, taken: bool)
    requires (r == [] || OpenSentence(r)) && (p.Result? ==> StatusAllowed(taken, p.status))
    ensures StatusesAllowed(r, taken) && StatusesAllowed(r + [p], taken)
  {
    assert forall i | 0 <= i < |r| :: !r[i].Result?;
  }

  lemma ScanStatus(items: seq<Item>)
    requires Scan(items) != Broken
    ensures StatusesAllowed(Responses(items), CancelTaken(items))
  {
    if items != [] {
      var before, item := Split(items);
      ScanShape(before);
      ScanTaken(before);
      CancelTakenExtends(before, item);
      if Scan(before) == Opened { ScanOpened(before); }
      var p := if item.OnWire? then item.packet else CancelResponse(0, 0, NoDecision);
      StatusExtends(Responses(before), p, CancelTaken(items));
    }
  }

  /** Reading is sound: an episode that reads without breaking obeys the grammar. */
  lemma ScanSentence(items: seq<Item>)
    requires Scan(items) != Broken
    ensures Sentence(Responses(items))
    ensures Scan(items).Running? ==> OpenSentence(Responses(items))
    ensures forall i | 0 <= i < |Responses(items)| && Responses(items)[i].Result? ::
              StatusAllowed(CancelTaken(items), Responses(items)[i].status)
  {
    ScanShape(items);
    ScanStatus(items);
  }

  /**
   * The wire grammar, for every run of the endpoint from any slot count, whatever sends fail and
   * whatever is retried: in each episode the responses form a sentence, cancel responses never
   * exceed surfaced cancels, feedback is numbered 0, 1, 2, ... without gaps, and the terminal
   * status agrees with whether a cancel was taken.
   */
  lemma GrammarOfEveryRun(slotCount: nat, ops: seq<Op>, episode: nat)
    ensures var items := ItemsOf(Track(Start(slotCount), ops).log, episode);
            var r := Responses(items);
            && Sentence(r)
            && CancelAnswers(r) <= SurfacedCancels(items)
            && Numbered(Feedbacks(items))
            && (forall i | 0 <= i < |r| && r[i].Result? ::
                  && (r[i].status == Canceled ==> CancelTaken(items))
                  && (r[i].status == Succeeded ==> !CancelTaken(items)))
  {
    RunReadable(Start(slotCount), ops);
    var items := ItemsOf(Track(Start(slotCount), ops).log, episode);
    ScanSentence(items);
    ScanCancels(items);
    ScanFeedback(items);
  }
}
