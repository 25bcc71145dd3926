/**
 * What the network does to the connections of the multiplexer, exactly: which sessions are adopted, and
 * what becomes of a connection whose loss is processed.
 */
module MuxSweeps {
  import opened ActionTypes
  import opened MuxSpec
  import opened MuxCalls
  import opened MuxEvents
  import opened MuxLeftovers
  import opened MuxMoves
  import V = ServerServicesSpec

  // ----- connections that drop -----

  function Lose(m: Mux, lost: set<nat>): Mux {
    m.(slots := seq(|m.slots|, i requires 0 <= i < |m.slots| =>
                    if m.slots[i].conn in lost then m.slots[i].(disconnected := true) else m.slots[i]))
  }

  /** The same for the first `n` slots only. */
  function LoseUpTo(m: Mux, lost: set<nat>, n: nat): Mux {
    m.(slots := seq(|m.slots|, i requires 0 <= i < |m.slots| =>
                    if i < n && m.slots[i].conn in lost then m.slots[i].(disconnected := true) else m.slots[i]))
  }

  lemma {:induction false} LoseUpToMoves(m: Mux, lost: set<nat>, n: nat)
    requires Inv(m) && n <= |m.slots|
    ensures Moves(m, LoseUpTo(m, lost, n))
  {
    if n == 0 {
      LoseNone(m, lost);
      MovesItself(m);
    } else {
      var mid := LoseUpTo(m, lost, n - 1);
      LoseUpToMoves(m, lost, n - 1);
      LoseOneMore(m, lost, n);
      if m.slots[n - 1].conn in lost { LostToo(m, mid, n - 1); }
    }
  }

  lemma LostToo(m: Mux, mid: Mux, i: nat)
    requires Moves(m, mid) && i < |mid.slots|
    ensures Moves(m, mid.(slots := mid.slots[i := mid.slots[i].(disconnected := true)]))
  {
    LostMoves(mid, i);
    MovesBoth(m, mid, mid.(slots := mid.slots[i := mid.slots[i].(disconnected := true)]));
  }

  lemma LoseNone(m: Mux, lost: set<nat>)
    ensures LoseUpTo(m, lost, 0) == m
  {
    assert LoseUpTo(m, lost, 0).slots == m.slots;
  }

  lemma LoseOneMore(m: Mux, lost: set<nat>, n: nat)
    requires 0 < n <= |m.slots|
    ensures var mid := LoseUpTo(m, lost, n - 1);
            LoseUpTo(m, lost, n) ==
            if m.slots[n - 1].conn in lost
            then mid.(slots := mid.slots[n - 1 := mid.slots[n - 1].(disconnected := true)]) else mid
  {
    var mid := LoseUpTo(m, lost, n - 1);
    var flagged := mid.slots[n - 1 := mid.slots[n - 1].(disconnected := true)];
    assert LoseUpTo(m, lost, n).slots == if m.slots[n - 1].conn in lost then flagged else mid.slots;
  }

  lemma LoseMoves(m: Mux, lost: set<nat>)
    requires Inv(m)
    ensures Moves(m, Lose(m, lost)) && Untouched(m, Lose(m, lost))
  {
    LoseUpToMoves(m, lost, |m.slots|);
    assert LoseUpTo(m, lost, |m.slots|).slots == Lose(m, lost).slots;
    forall k | 0 <= k < |m.slots| ensures Lose(m, lost).slots[k].server == m.slots[k].server {}
  }

  /** The accepted Goals of a Services layer. */
  function Goals(s: V.Services): set<(nat, GoalId)> {
    set a: nat, g | a < |s.actions| && g in s.actions[a].goals :: (a, g)
  }

  /** The same Goals in the same contexts. */
  ghost predicate SameContexts(s: V.Services, t: V.Services) {
    |t.actions| == |s.actions| && forall a | 0 <= a < |s.actions| :: t.actions[a].goals == s.actions[a].goals
  }

  /** Every accepted Goal is kept and has exactly one runtime cancel queued; nothing else is queued. */
  ghost predicate Told(s: V.Services, t: V.Services) {
    && SameContexts(s, t) && Quiet(t) && Unique(t.runtimeEvents)
    && (forall e :: e in t.runtimeEvents <==> e in Goals(s))
  }

  /** A lost connection at rest: orphaned with its Goals told if it has any, cleared and retired if not. */
  ghost predicate Laid(s: V.Services, slot: Slot) {
    && slot.processed && slot.disconnected
    && (if Goals(s) != {} then slot.orphaned && !slot.retired && Told(s, slot.server)
        else slot.retired && Goals(slot.server) == {})
  }

  /** What losing and processing connections makes of one slot. */
  ghost predicate Wanes(x: Slot, y: Slot) {
    && y.conn == x.conn && (x.disconnected ==> y.disconnected) && (x.processed ==> y == x)
    && (!x.processed ==> if y.processed then Laid(x.server, y) else y == x.(disconnected := y.disconnected))
  }

  lemma WanesBoth(x: Slot, y: Slot, z: Slot)
    requires Wanes(x, y) && Wanes(y, z)
    ensures Wanes(x, z)
  {
  }

  /** Some connections drop, and every loss is processed. */
  ghost predicate SweptBy(m: Mux, lost: set<nat>, n: Mux) {
    && |n.slots| == |m.slots| && n.nextId == m.nextId && n.expected == m.expected && AllProcessed(n)
    && (forall k | 0 <= k < |m.slots| :: Wanes(m.slots[k], n.slots[k]))
    && (forall k | 0 <= k < |m.slots| ::
          n.slots[k].disconnected <==> m.slots[k].disconnected || m.slots[k].conn in lost)
    && (forall o | o in m.owners :: o in n.owners || (o.state == Pending && Gone(n, o.conn)))
    && (forall o | o in n.owners :: o in m.owners)
  }

  ghost predicate Gone(m: Mux, conn: nat) {
    exists k :: 0 <= k < |m.slots| && m.slots[k].conn == conn && m.slots[k].disconnected
  }

  lemma DiscardSameContexts(slot: Slot, action: nat, goal: GoalId)
    requires action < |slot.server.actions|
    ensures var s := After(slot, action, V.OpDiscard(goal)).server;
            SameContexts(slot.server, s) && s.runtimeEvents == slot.server.runtimeEvents
  {
  }

  lemma SameGoalsSet(s: V.Services, t: V.Services)
    requires SameContexts(s, t)
    ensures Goals(t) == Goals(s)
  {
    forall a: nat, g ensures (a, g) in Goals(t) <==> (a, g) in Goals(s) {}
  }

  /** A connection with owners left is one that still holds Goals. */
  lemma OwnedHolds(m: Mux, i: nat)
    requires Inv(m) && i < |m.slots|
    requires forall o | o in m.owners && o.conn == m.slots[i].conn :: o.state == Active
    ensures (exists o :: o in m.owners && o.conn == m.slots[i].conn) <==> Goals(m.slots[i].server) != {}
  {
    if exists o :: o in m.owners && o.conn == m.slots[i].conn {
      var o :| o in m.owners && o.conn == m.slots[i].conn;
      OwnerFits(m, i, o);
      assert (o.action, o.goal) in Goals(m.slots[i].server);
    }
    if Goals(m.slots[i].server) != {} {
      var e :| e in Goals(m.slots[i].server);
      assert Holds(m.slots[i], e.0, e.1);
      OwnerExactly(m, i, e.0, e.1);
    }
  }

  lemma NotifiedIsTold(s: V.Services, quiet: V.Services, t: V.Services)
    requires SameContexts(s, quiet) && Quiet(quiet) && quiet.runtimeEvents == [] && V.Notified(quiet, t)
    ensures Told(s, t)
  {
    forall e ensures e in t.runtimeEvents <==> e in Goals(s) {
      if e in t.runtimeEvents {
        var k :| 0 <= k < |t.runtimeEvents| && t.runtimeEvents[k] == e;
        assert (e.0, e.1) == e;
      }
    }
    forall i, j | 0 <= i < j < |t.runtimeEvents| ensures t.runtimeEvents[i] != t.runtimeEvents[j] {
      assert t.runtimeEvents[i] in t.runtimeEvents[..j];
    }
  }

  /** With its pending owners gone, what is left of a lost connection is what its Services hold. */
  lemma LaidOut(m: Mux, i: nat, before: V.Services)
    requires Inv(m) && i < |m.slots| && SameContexts(before, m.slots[i].server)
    requires forall o | o in m.owners && o.conn == m.slots[i].conn :: o.state == Active
    ensures (exists o :: o in m.owners && o.conn == m.slots[i].conn) <==> Goals(before) != {}
    ensures var quiet := V.StopAll(m.slots[i].server);
            SameContexts(before, quiet) && Quiet(quiet) && quiet.runtimeEvents == []
  {
    OwnedHolds(m, i);
    SameGoalsSet(before, m.slots[i].server);
    assert SlotOk(m.slots[i]);
    StopAllFacts(m.slots[i].server);
  }

  lemma LostAndSwept(m: Mux, lost: set<nat>, n: Mux)
    requires Inv(m) && SweptBy(Lose(m, lost), {}, n)
    ensures SweptBy(m, lost, n)
  {
    var mid := Lose(m, lost);
    forall k | 0 <= k < |m.slots| ensures Wanes(m.slots[k], n.slots[k]) {
      assert SlotOk(m.slots[k]);
      WanesBoth(m.slots[k], mid.slots[k], n.slots[k]);
    }
  }

  lemma ClearedHasNoGoals(s: V.Services)
    ensures Goals(V.ClearAll(s)) == {}
  {
  }

  // ----- sessions that arrive -----

  /**
   * One session offered by the transport: it may be empty, its Services may fail to initialise,
   * and other connections may drop just before it is looked at.
   */
  datatype Arrival = Arrival(present: bool, initialises: bool, lostBefore: set<nat>)

  function Admit(m: Mux, slotCounts: seq<nat>, arrival: Arrival): Mux {
    var n := Lose(m, arrival.lostBefore);
    if arrival.present && LiveCount(n.slots) < n.expected then Adopted(n, slotCounts, arrival.initialises) else n
  }

  function AdmitAll(m: Mux, slotCounts: seq<nat>, arrivals: seq<Arrival>): Mux {
    if arrivals == [] then m
    else Admit(AdmitAll(m, slotCounts, arrivals[..|arrivals| - 1]), slotCounts, arrivals[|arrivals| - 1])
  }

  /** The sessions that could serve. */
  function Usable(arrivals: seq<Arrival>): nat {
    if arrivals == [] then 0
    else
      var last := arrivals[|arrivals| - 1];
      Usable(arrivals[..|arrivals| - 1]) + if last.present && last.initialises then 1 else 0
  }

  function Min(x: nat, y: nat): nat { if x <= y then x else y }

  lemma LoseNothing(m: Mux)
    ensures Lose(m, {}) == m
  {
    assert Lose(m, {}).slots == m.slots;
  }

  /** State `n` is `m` with as many of `usable` sessions adopted as there was room for. */
  ghost predicate Filled(m: Mux, n: Mux, slotCounts: seq<nat>, usable: nat) {
    && n.expected == m.expected && n.owners == m.owners && m.slots <= n.slots && m.nextId <= n.nextId
    && LiveCount(n.slots) == Min(m.expected, LiveCount(m.slots) + usable)
    && |n.slots| - |m.slots| == LiveCount(n.slots) - LiveCount(m.slots)
    && (forall k | |m.slots| <= k < |n.slots| ::
          m.nextId <= n.slots[k].conn < n.nextId && n.slots[k].server == NewServices(slotCounts))
  }

  lemma FilledNext(m: Mux, mid: Mux, slotCounts: seq<nat>, usable: nat, initialises: bool)
    requires Filled(m, mid, slotCounts, usable) && LiveCount(mid.slots) < mid.expected
    ensures Filled(m, Adopted(mid, slotCounts, initialises), slotCounts, usable + if initialises then 1 else 0)
  {
    AdoptedCounts(mid, slotCounts, initialises);
  }

  lemma FilledStep(m: Mux, mid: Mux, slotCounts: seq<nat>, usable: nat, last: Arrival)
    requires Filled(m, mid, slotCounts, usable) && last.lostBefore == {}
    ensures Filled(m, Admit(mid, slotCounts, last), slotCounts, usable + if last.present && last.initialises
                   then 1 else 0)
  {
    LoseNothing(mid);
    if last.present && LiveCount(mid.slots) < mid.expected { FilledNext(m, mid, slotCounts, usable, last.initialises); }
  }

  lemma FilledItself(m: Mux, slotCounts: seq<nat>)
    requires LiveCount(m.slots) <= m.expected
    ensures Filled(m, m, slotCounts, 0)
  {
  }

  /** Admission fills up: with nobody dropping, every usable session is adopted until the expected number is live. */
  lemma {:induction false} AdmissionFills(m: Mux, slotCounts: seq<nat>, arrivals: seq<Arrival>)
    requires LiveCount(m.slots) <= m.expected && forall k | 0 <= k < |arrivals| :: arrivals[k].lostBefore == {}
    ensures Filled(m, AdmitAll(m, slotCounts, arrivals), slotCounts, Usable(arrivals))
  {
    if arrivals == [] {
      FilledItself(m, slotCounts);
    } else {
      var (before, last) := (arrivals[..|arrivals| - 1], arrivals[|arrivals| - 1]);
      AdmissionFills(m, slotCounts, before);
      FilledStep(m, AdmitAll(m, slotCounts, before), slotCounts, Usable(before), last);
    }
  }

  lemma AdoptedCounts(m: Mux, slotCounts: seq<nat>, initialises: bool)
    ensures LiveCount(Adopted(m, slotCounts, initialises).slots) == LiveCount(m.slots) + if initialises then 1 else 0
  {
    var n := Adopted(m, slotCounts, initialises);
    if initialises { assert n.slots[..|m.slots|] == m.slots; }
  }
}
