/**
 * The connection multiplexer as a value: connection slots, each with its own Services layer, and
 * one table saying which connection owns which Goal.  Slots are never removed while the
 * multiplexer runs; a disconnected slot is retired or, while it still has accepted Goals, orphaned.
 */
module MuxSpec {
  import opened ActionTypes
  import G = ServerGoalMachine
  import E = ServerEndpointSpec
  import V = ServerServicesSpec

  datatype OwnerState = Pending | Active

  datatype Owner = Owner(action: nat, goal: GoalId, conn: nat, state: OwnerState)

  datatype Slot = Slot(
    conn: nat, server: V.Services, disconnected: bool, orphaned: bool, processed: bool, retired: bool)

  datatype Mux = Mux(slots: seq<Slot>, owners: seq<Owner>, nextId: nat, expected: nat)

  /** A packet handed to one connection's transport. */
  datatype Wire = Wire(conn: nat, action: nat, packet: ServerPacket)

  // ----- lookups -----

  function OwnerIndex(owners: seq<Owner>, action: nat, goal: GoalId): (i: Option<nat>)
    ensures i.Some? ==> i.value < |owners| && owners[i.value].action == action && owners[i.value].goal == goal
    ensures i.None? ==> forall k | 0 <= k < |owners| :: owners[k].action != action || owners[k].goal != goal
    ensures i.Some? ==> forall k | 0 <= k < i.value :: owners[k].action != action || owners[k].goal != goal
  {
    if owners == [] then None
    else if owners[0].action == action && owners[0].goal == goal then Some(0)
    else match OwnerIndex(owners[1..], action, goal)
      case None => None
      case Some(k) => Some(k + 1)
  }

  function SlotIndex(slots: seq<Slot>, conn: nat): (i: Option<nat>)
    ensures i.Some? ==> i.value < |slots| && slots[i.value].conn == conn
    ensures i.Some? ==> forall k | 0 <= k < i.value :: slots[k].conn != conn
    ensures i.None? ==> forall k | 0 <= k < |slots| :: slots[k].conn != conn
  {
    if slots == [] then None
    else if slots[0].conn == conn then Some(0)
    else match SlotIndex(slots[1..], conn)
      case None => None
      case Some(k) => Some(k + 1)
  }

  function LiveCount(slots: seq<Slot>): nat {
    if slots == [] then 0 else LiveCount(slots[..|slots| - 1]) + (if slots[|slots| - 1].disconnected then 0 else 1)
  }

  // ----- what a slot knows about a Goal -----

  predicate Holds(slot: Slot, action: nat, goal: GoalId) {
    action < |slot.server.actions| && goal in slot.server.actions[action].goals
  }

  predicate Awaits(slot: Slot, action: nat, goal: GoalId) {
    action < |slot.server.actions| && E.InState(slot.server.actions[action].ep, goal, E.AwaitingGoalDecision)
  }

  /** Once a disconnect is processed, a client cancel is undecided only while its runtime cancel is still queued. */
  ghost predicate Drains(s: V.Services) {
    forall a: nat, g | a < |s.actions| && g in s.actions[a].goals ::
      (a, g) in s.runtimeEvents || s.actions[a].goals[g].origin != G.FromClient
  }

  ghost predicate Quiet(s: V.Services) { forall a | 0 <= a < |s.actions| :: s.actions[a].ep.inbox == [] }

  ghost predicate Sims(s: V.Services) { forall a | 0 <= a < |s.actions| :: V.Simulates(s.actions[a]) }

  /** No runtime cancel is queued twice. */
  ghost predicate Unique(queue: seq<(nat, GoalId)>) { forall i, j | 0 <= i < j < |queue| :: queue[i] != queue[j] }

  ghost predicate SlotOk(slot: Slot) {
    && Sims(slot.server)
    && Unique(slot.server.runtimeEvents)
    && (!slot.processed ==> slot.server.runtimeEvents == [])
    && (slot.processed ==> slot.disconnected && Quiet(slot.server) && Drains(slot.server))
    && (slot.retired ==> slot.processed)
    && (slot.orphaned ==> slot.processed)
    && (slot.processed && !slot.retired ==> slot.orphaned)
  }

  /** An owner and the slot of its connection agree. */
  predicate Fits(slot: Slot, o: Owner) {
    && !slot.retired
    && (o.state == Active ==> Holds(slot, o.action, o.goal))
    && (o.state == Pending ==> Awaits(slot, o.action, o.goal) && !slot.processed)
  }

  ghost predicate KeysUnique(owners: seq<Owner>) {
    forall i, j | 0 <= i < j < |owners| :: owners[i].action != owners[j].action || owners[i].goal != owners[j].goal
  }

  ghost predicate ConnsIncrease(slots: seq<Slot>, nextId: nat) {
    && (forall i, j | 0 <= i < j < |slots| :: slots[i].conn < slots[j].conn)
    && (forall i | 0 <= i < |slots| :: slots[i].conn < nextId)
  }

  ghost predicate AllOwned(slot: Slot, owners: seq<Owner>) {
    && (forall a, g | Holds(slot, a, g) :: Owner(a, g, slot.conn, Active) in owners)
    && (slot.processed && !slot.retired ==> exists o :: o in owners && o.conn == slot.conn)
  }

  ghost predicate Placed(slots: seq<Slot>, o: Owner) {
    exists i :: 0 <= i < |slots| && slots[i].conn == o.conn && Fits(slots[i], o)
  }

  ghost predicate Inv(m: Mux) {
    && KeysUnique(m.owners)
    && ConnsIncrease(m.slots, m.nextId)
    && (forall i | 0 <= i < |m.slots| :: SlotOk(m.slots[i]) && AllOwned(m.slots[i], m.owners))
    && (forall o | o in m.owners :: Placed(m.slots, o))
    && LiveCount(m.slots) <= m.expected
  }

  // ----- consequences -----

  /** ACTIVE owners and accepted Goals are in bijection, so two connections never both hold a Goal. */
  lemma OneHolder(m: Mux, i: nat, j: nat, a: nat, g: GoalId)
    requires Inv(m) && i < |m.slots| && j < |m.slots| && Holds(m.slots[i], a, g) && Holds(m.slots[j], a, g)
    ensures i == j
  {
    assert AllOwned(m.slots[i], m.owners) && AllOwned(m.slots[j], m.owners);
    var x :| 0 <= x < |m.owners| && m.owners[x] == Owner(a, g, m.slots[i].conn, Active);
    var y :| 0 <= y < |m.owners| && m.owners[y] == Owner(a, g, m.slots[j].conn, Active);
    assert x == y;
  }

  lemma OwnerExactly(m: Mux, i: nat, a: nat, g: GoalId)
    requires Inv(m) && i < |m.slots|
    ensures Holds(m.slots[i], a, g) <==> Owner(a, g, m.slots[i].conn, Active) in m.owners
  {
    assert AllOwned(m.slots[i], m.owners);
    var o := Owner(a, g, m.slots[i].conn, Active);
    if o in m.owners {
      assert Placed(m.slots, o);
      var k :| 0 <= k < |m.slots| && m.slots[k].conn == o.conn && Fits(m.slots[k], o);
      assert k == i;
    }
  }

  lemma OwnerFits(m: Mux, i: nat, o: Owner)
    requires Inv(m) && i < |m.slots| && o in m.owners && o.conn == m.slots[i].conn
    ensures Fits(m.slots[i], o)
  {
    assert Placed(m.slots, o);
    var k :| 0 <= k < |m.slots| && m.slots[k].conn == o.conn && Fits(m.slots[k], o);
    assert k == i;
  }

  lemma OwnerSlot(m: Mux, o: Owner)
    requires Inv(m) && o in m.owners
    ensures SlotIndex(m.slots, o.conn).Some?
    ensures Fits(m.slots[SlotIndex(m.slots, o.conn).value], o)
  {
    assert Placed(m.slots, o);
    var k :| 0 <= k < |m.slots| && m.slots[k].conn == o.conn && Fits(m.slots[k], o);
    assert SlotIndex(m.slots, o.conn).Some?;
    assert SlotIndex(m.slots, o.conn).value == k;
  }

  lemma {:induction false} LiveCountUpdate(slots: seq<Slot>, i: nat, slot: Slot)
    requires i < |slots|
    ensures LiveCount(slots[i := slot]) + (if slots[i].disconnected then 0 else 1)
         == LiveCount(slots) + (if slot.disconnected then 0 else 1)
  {
    var n := |slots| - 1;
    if i < n {
      assert slots[i := slot][..n] == slots[..n][i := slot];
      LiveCountUpdate(slots[..n], i, slot);
    } else {
      assert slots[i := slot][..n] == slots[..n];
    }
  }

  /** The owners of every other connection are the same ones. */
  ghost predicate SameElsewhere(before: seq<Owner>, after: seq<Owner>, conn: nat) {
    forall o: Owner | o.conn != conn :: o in before <==> o in after
  }

  ghost predicate NewOwners(slot: Slot, owners: seq<Owner>) {
    forall o | o in owners && o.conn == slot.conn :: Fits(slot, o)
  }

  /** The one way every operation moves the state: one slot and the owners of its connection. */
  lemma Replace(m: Mux, i: nat, slot: Slot, owners: seq<Owner>)
    requires Inv(m) && i < |m.slots| && slot.conn == m.slots[i].conn
    requires SlotOk(slot) && AllOwned(slot, owners) && NewOwners(slot, owners)
    requires KeysUnique(owners) && SameElsewhere(m.owners, owners, slot.conn)
    requires m.slots[i].disconnected ==> slot.disconnected
    ensures Inv(m.(slots := m.slots[i := slot], owners := owners))
  {
    var n := m.(slots := m.slots[i := slot], owners := owners);
    LiveCountUpdate(m.slots, i, slot);
    forall k | 0 <= k < |n.slots| ensures SlotOk(n.slots[k]) && AllOwned(n.slots[k], n.owners) {
      assert SlotOk(m.slots[k]) && AllOwned(m.slots[k], m.owners);
      if k != i { OthersStillOwned(m, i, k, owners); }
    }
    forall o | o in n.owners ensures Placed(n.slots, o) { StillPlaced(m, i, slot, owners, o); }
  }

  lemma OthersStillOwned(m: Mux, i: nat, k: nat, owners: seq<Owner>)
    requires ConnsIncrease(m.slots, m.nextId) && i < |m.slots| && k < |m.slots| && k != i
    requires AllOwned(m.slots[k], m.owners) && SameElsewhere(m.owners, owners, m.slots[i].conn)
    ensures AllOwned(m.slots[k], owners)
  {
    var slot := m.slots[k];
    assert slot.conn != m.slots[i].conn;
    if slot.processed && !slot.retired {
      var o :| o in m.owners && o.conn == slot.conn;
      assert o in owners;
    }
  }

  lemma StillPlaced(m: Mux, i: nat, slot: Slot, owners: seq<Owner>, o: Owner)
    requires ConnsIncrease(m.slots, m.nextId) && (forall p | p in m.owners :: Placed(m.slots, p))
    requires i < |m.slots| && slot.conn == m.slots[i].conn && o in owners
    requires NewOwners(slot, owners) && SameElsewhere(m.owners, owners, slot.conn)
    ensures Placed(m.slots[i := slot], o)
  {
    var slots := m.slots[i := slot];
    if o.conn == slot.conn {
      assert slots[i].conn == o.conn && Fits(slots[i], o);
    } else {
      assert Placed(m.slots, o);
      var k :| 0 <= k < |m.slots| && m.slots[k].conn == o.conn && Fits(m.slots[k], o);
      assert slots[k] == m.slots[k];
    }
  }

  // ----- calls on a Goal -----

  /** The connection of a Goal's owner; empty when the Goal is unknown or in another state. */
  function OwnerSlotIndex(m: Mux, action: nat, goal: GoalId, state: OwnerState): Option<nat> {
    match OwnerIndex(m.owners, action, goal)
    case None => None
    case Some(k) => if m.owners[k].state != state then None else SlotIndex(m.slots, m.owners[k].conn)
  }

  function Store(m: Mux, i: nat, action: nat, r: V.Outcome): Mux
    requires i < |m.slots| && action < |m.slots[i].server.actions|
  {
    m.(slots := m.slots[i := m.slots[i].(server := V.Lift(m.slots[i].server, action, r))])
  }

  function Attempt(m: Mux, i: nat, action: nat, r: V.Outcome): Option<Wire>
    requires i < |m.slots|
  {
    if r.attempt.Some? then Some(Wire(m.slots[i].conn, action, r.attempt.value)) else None
  }

  function RemoveOwner(owners: seq<Owner>, action: nat, goal: GoalId): seq<Owner> {
    match OwnerIndex(owners, action, goal)
    case None => owners
    case Some(k) => owners[..k] + owners[k + 1..]
  }

  datatype Called = Called(next: Mux, ok: bool, attempt: Option<Wire>)

  function AcceptGoal(m: Mux, action: nat, goal: GoalId, sent: bool): Called {
    match OwnerSlotIndex(m, action, goal, Pending)
    case None => Called(m, false, None)
    case Some(i) =>
      if m.slots[i].disconnected || action >= |m.slots[i].server.actions| then Called(m, false, None) else
      var r := V.AcceptGoal(m.slots[i].server.actions[action], goal, sent);
      var n := Store(m, i, action, r);
      var k := OwnerIndex(m.owners, action, goal).value;
      Called(if r.ok then n.(owners := n.owners[k := n.owners[k].(state := Active)]) else n,
             r.ok, Attempt(m, i, action, r))
  }

  function RejectGoal(m: Mux, action: nat, goal: GoalId, sent: bool): Called {
    match OwnerSlotIndex(m, action, goal, Pending)
    case None => Called(m, false, None)
    case Some(i) =>
      if m.slots[i].disconnected || action >= |m.slots[i].server.actions| then Called(m, false, None) else
      var r := V.RejectGoal(m.slots[i].server.actions[action], goal, sent);
      var n := Store(m, i, action, r);
      Called(if r.ok then n.(owners := RemoveOwner(n.owners, action, goal)) else n, r.ok, Attempt(m, i, action, r))
  }

  function DecideCancel(m: Mux, action: nat, goal: GoalId, accept: bool, sent: bool): Called {
    match OwnerSlotIndex(m, action, goal, Active)
    case None => Called(m, false, None)
    case Some(i) =>
      if action >= |m.slots[i].server.actions| then Called(m, false, None) else
      var a := m.slots[i].server.actions[action];
      var r := if accept then V.AcceptCancel(a, goal, sent) else V.RejectCancel(a, goal, sent);
      Called(Store(m, i, action, r), r.ok, Attempt(m, i, action, r))
  }

  function SendFeedback(m: Mux, action: nat, goal: GoalId, pdu: AppPdu, sent: bool): Called {
    match OwnerSlotIndex(m, action, goal, Active)
    case None => Called(m, false, None)
    case Some(i) =>
      if m.slots[i].disconnected || action >= |m.slots[i].server.actions| then Called(m, false, None) else
      var r := V.SendFeedback(m.slots[i].server.actions[action], goal, pdu, sent);
      Called(Store(m, i, action, r), r.ok, Attempt(m, i, action, r))
  }

  /** An orphaned slot whose last owner is gone is cleared and retired. */
  function Reclaim(m: Mux, i: nat): Mux
    requires i < |m.slots|
  {
    var slot := m.slots[i];
    if (exists o :: o in m.owners && o.conn == slot.conn) || !slot.orphaned then m
    else m.(slots := m.slots[i := slot.(server := V.ClearAll(slot.server), retired := true)])
  }

  function Complete(m: Mux, action: nat, goal: GoalId, status: TerminalStatus, pdu: AppPdu, sent: bool): Called {
    match OwnerSlotIndex(m, action, goal, Active)
    case None => Called(m, false, None)
    case Some(i) =>
      if action >= |m.slots[i].server.actions| then Called(m, false, None) else
      var a := m.slots[i].server.actions[action];
      var r := if m.slots[i].disconnected then V.CompleteLocally(a, goal, status, pdu)
               else V.Complete(a, goal, status, pdu, sent);
      var n := Store(m, i, action, r);
      Called(if r.ok then Reclaim(n.(owners := RemoveOwner(n.owners, action, goal)), i) else n,
             r.ok, Attempt(m, i, action, r))
  }
}
