/** The Service RPC endpoints as values: one client, and a server that keeps one state per client name. */
module RpcSpec {
  import opened ActionTypes

  const OP_REQUEST := 0
  const OP_CANCEL := 1
  const OP_NUM := 2
  const STATUS_ERROR := 4
  const CODE_ERROR := 1
  const CODE_CANCELED := 2
  const CODE_INVALID := 3
  const CODE_BUSY := 4
  const CODE_NUM := 6
  const U32 := 0x1_0000_0000
  const U64 := 0x1_0000_0000_0000_0000

  /** Service and client names; number 0 stands for the empty name. */
  type Name = nat

  const NO_NAME: Name := 0

  datatype Request = Request(service: Name, client: Name, opcode: nat, id: nat)

  datatype Response = Response(service: Name, client: Name, id: nat, status: nat, code: int)

  datatype State = Idle | Running | Cancelling

  // ----- the client -----

  datatype Client = Client(
    service: Name, name: Name, state: State, requestId: nat, timeout: nat, startedAt: nat,
    currentId: nat, pending: seq<Response>)

  datatype ClientEvent = NoReply | ResponseIn(response: Response) | ResponseCancel(response: Response) | ResponseTimeout

  /** A new buffer takes the next number of a 64-bit counter; the header has room for 32 bits of it. */
  function CreateRequest(c: Client, opcode: nat): (Client, Request) {
    var next := (c.currentId + 1) % U64;
    (c.(currentId := next), Request(c.service, c.name, opcode, next % U32))
  }

  function CancelRequest(c: Client): Request { Request(c.service, c.name, OP_CANCEL, c.requestId) }

  /** The call remembers the number of the newest buffer, not the one in the packet it sends. */
  function Call(c: Client, timeout: nat, now: nat, sent: bool): (Client, bool) {
    if c.state != Idle then (c, false) else
    var c1 := c.(requestId := c.currentId % U32, timeout := timeout, startedAt := now);
    if sent then (c1.(state := Running), true) else (c1, false)
  }

  function SendCancel(c: Client, sent: bool): (Client, bool) {
    if c.state == Running && sent then (c.(state := Cancelling), true) else (c, false)
  }

  /** Unsigned 64-bit elapsed time. */
  predicate Expired(c: Client, now: nat) {
    c.timeout > 0 && (now - c.startedAt) % U64 > c.timeout
  }

  function FindResponse(pending: seq<Response>, id: nat): (k: Option<nat>)
    ensures k.Some? ==>
              && k.value < |pending| && pending[k.value].id == id
              && forall j | 0 <= j < k.value :: pending[j].id != id
    ensures k.None? ==> forall j | 0 <= j < |pending| :: pending[j].id != id
  {
    if pending == [] then None
    else if pending[0].id == id then Some(0)
    else match FindResponse(pending[1..], id) case None => None case Some(k) => Some(k + 1)
  }

  predicate ValidResponse(c: Client, r: Response) {
    r.service == c.service && r.client == c.name && r.id == c.requestId && r.code < CODE_NUM
  }

  function HandleResponse(c: Client, r: Response): ClientEvent {
    if !ValidResponse(c, r) then NoReply else if r.code == CODE_CANCELED then ResponseCancel(r) else ResponseIn(r)
  }

  /** While the call is running, an expired timeout is reported before any response is looked at. */
  function ClientPoll(c: Client, now: nat): (Client, ClientEvent) {
    if c.state == Idle then (c, NoReply)
    else if c.state == Running && Expired(c, now) then (c, ResponseTimeout)
    else match FindResponse(c.pending, c.requestId)
      case None => (c, NoReply)
      case Some(k) => (c.(state := Idle, pending := c.pending[..k] + c.pending[k + 1..]),
                       HandleResponse(c, c.pending[k]))
  }

  // ----- the server -----

  datatype Status = Status(state: State, id: nat)

  datatype Server = Server(
    service: Name, dynamic: bool, maxClients: nat,
    registered: seq<Name>, states: map<Name, Status>, pending: seq<Request>)

  datatype ServerEvent = NoRequest | RequestIn(request: Request) | RequestCancel(request: Request)

  datatype Sent = Sent(next: Server, attempt: Option<Response>)

  function ReplyTo(r: Request, status: nat, code: int): Response { Response(r.service, r.client, r.id, status, code) }

  /** Refused for unknown and idle clients; otherwise the client's state is reset, delivered or not. */
  function SendReply(s: Server, client: Name, reply: Response): Sent {
    if client !in s.states || s.states[client].state == Idle then Sent(s, None)
    else Sent(s.(states := s.states[client := Status(Idle, 0)]), Some(reply))
  }

  function SendCancelReply(s: Server, client: Name, reply: Response): Sent {
    if client !in s.states || s.states[client].state != Cancelling then Sent(s, None)
    else Sent(s.(states := s.states[client := Status(Idle, 0)]), Some(reply))
  }

  function SendErrorReply(s: Server, r: Request, code: int): Sent {
    SendReply(s, r.client, ReplyTo(r, STATUS_ERROR, code))
  }

  /** Header validation; a dynamic server admits new names until its limit. */
  function Validate(s: Server, r: Request): (Server, bool) {
    if r.service != s.service then (s, false)
    else if s.dynamic then
      if r.client == NO_NAME then (s, false)
      else if r.client in s.states then (s, true)
      else if |s.registered| >= s.maxClients then (s, false)
      else (s.(registered := s.registered + [r.client], states := s.states[r.client := Status(Idle, 0)]), true)
    else (s, r.client in s.registered && r.opcode < OP_NUM)
  }

  datatype ServerPolled = ServerPolled(next: Server, event: ServerEvent, attempt: Option<Response>)

  function Refuse(s: Server, r: Request, code: int): ServerPolled {
    var sent := SendErrorReply(s, r, code);
    ServerPolled(sent.next, NoRequest, sent.attempt)
  }

  function HandleRequest(s: Server, r: Request): ServerPolled
    requires r.client in s.states
  {
    if s.states[r.client].state == Idle
    then ServerPolled(s.(states := s.states[r.client := Status(Running, r.id)]), RequestIn(r), None)
    else Refuse(s, r, CODE_BUSY)
  }

  function HandleCancel(s: Server, r: Request): ServerPolled
    requires r.client in s.states
  {
    var st := s.states[r.client];
    match st.state
    case Running =>
      if st.id != r.id then Refuse(s, r, CODE_INVALID)
      else ServerPolled(s.(states := s.states[r.client := st.(state := Cancelling)]), RequestCancel(r), None)
    case Idle => ServerPolled(s, NoRequest, None)
    case Cancelling => Refuse(s, r, CODE_BUSY)
  }

  function ServerPoll(s: Server): ServerPolled {
    if s.pending == [] then ServerPolled(s, NoRequest, None) else
    var r := s.pending[0];
    var (s1, ok) := Validate(s.(pending := s.pending[1..]), r);
    if !ok then Refuse(s1, r, CODE_ERROR)
    else if r.client !in s1.states then Refuse(s1, r, CODE_INVALID)
    else if r.opcode == OP_CANCEL then HandleCancel(s1, r)
    else HandleRequest(s1, r)
  }

  // ----- what each endpoint keeps on its own -----

  /** Admission: a dynamic server knows exactly the names it registered, each once, within its limit. */
  ghost predicate Admitted(s: Server) {
    && s.states.Keys == (set c | c in s.registered)
    && (s.dynamic ==>
          && |s.registered| <= s.maxClients
          && forall i, j | 0 <= i < j < |s.registered| :: s.registered[i] != s.registered[j])
  }

  lemma PollKeepsAdmitted(s: Server)
    requires Admitted(s)
    ensures Admitted(ServerPoll(s).next)
    ensures s.registered <= ServerPoll(s).next.registered
    ensures !s.dynamic ==> ServerPoll(s).next.registered == s.registered
  {
    if s.pending != [] {
      var s0 := s.(pending := s.pending[1..]);
      var r := s.pending[0];
      ValidateKeepsAdmitted(s0, r);
      var s1 := Validate(s0, r).0;
      assert ServerPoll(s).next.registered == s1.registered;
      assert ServerPoll(s).next.states.Keys == s1.states.Keys;
    }
  }

  lemma ValidateKeepsAdmitted(s: Server, r: Request)
    requires Admitted(s)
    ensures Admitted(Validate(s, r).0) && s.registered <= Validate(s, r).0.registered
    ensures Validate(s, r).1 ==> r.client in Validate(s, r).0.states
  {
    var t := Validate(s, r).0;
    if t != s {
      assert t.states.Keys == s.states.Keys + {r.client};
      assert (set c | c in t.registered) == (set c | c in s.registered) + {r.client};
      assert r.client !in s.registered;
    }
  }

  /** The packets that are refused while their client is busy. */
  predicate Refused(s: Server, r: Request)
    requires r.client in s.states
  {
    || r.service != s.service
    || (s.dynamic && r.client == NO_NAME)
    || (!s.dynamic && (r.client !in s.registered || r.opcode >= OP_NUM))
    || r.opcode != OP_CANCEL
    || s.states[r.client].state == Cancelling
    || s.states[r.client].id != r.id
  }

  /**
   * A poll puts a busy client back to idle exactly when the packet it reads names the client and is
   * refused; the running request can then no longer be answered.
   */
  lemma BusyResetExactly(s: Server, c: Name, reply: Response)
    requires c in s.states && s.states[c].state != Idle
    ensures var n := ServerPoll(s).next;
            && c in n.states
            && (n.states[c].state == Idle <==> s.pending != [] && s.pending[0].client == c && Refused(s, s.pending[0]))
            && (n.states[c].state == Idle ==> SendReply(n, c, reply).attempt == None)
  {
  }

  /** It takes no more than a second request under the same name. */
  lemma SecondRequestResets(s: Server, c: Name, first: nat, second: nat, status: nat, code: int)
    requires !s.dynamic && c in s.registered && c in s.states && s.states[c].state == Idle
    requires s.pending == [Request(s.service, c, OP_REQUEST, first), Request(s.service, c, OP_REQUEST, second)]
    ensures var one := ServerPoll(s);
            var two := ServerPoll(one.next);
            && one.event == RequestIn(s.pending[0])
            && two.event == NoRequest && two.attempt == Some(ReplyTo(s.pending[1], STATUS_ERROR, CODE_BUSY))
            && SendReply(two.next, c, ReplyTo(s.pending[0], status, code)).attempt == None
  {
    var one := ServerPoll(s);
    assert one.next.pending == [s.pending[1]];
  }

  /** The refusal itself: the state of the client it names is reset, whatever it was. */
  lemma RefusalResets(s: Server, r: Request, reply: Response, code: int)
    requires r.client in s.states
    ensures var refused := Refuse(s, r, code);
            && refused.next.states[r.client] ==
               (if s.states[r.client].state == Idle then s.states[r.client] else Status(Idle, 0))
            && (refused.attempt.Some? <==> s.states[r.client].state != Idle)
            && SendReply(refused.next, r.client, reply).attempt == None
  {
  }

  /**
   * With a clock that does not run backward, an expired call reports nothing but the timeout, whatever
   * has arrived, until a cancel is sent; then the waiting response is reported.
   */
  lemma TimeoutMasksResponse(c: Client, now: nat, later: nat)
    requires c.state == Running && Expired(c, now) && c.startedAt <= now <= later < U64
    ensures ClientPoll(c, later) == (c, ResponseTimeout)
    ensures var cancelled := SendCancel(c, true).0;
            var k := FindResponse(c.pending, c.requestId);
            k.Some? ==> ClientPoll(cancelled, later).0.state == Idle
                        && ClientPoll(cancelled, later).1 == HandleResponse(c, c.pending[k.value])
  {
    assert (now - c.startedAt) % U64 == now - c.startedAt;
    assert (later - c.startedAt) % U64 == later - c.startedAt;
  }

  /**
   * Time between two readings of a 64-bit clock; a clock that has stepped back seems to have gone nearly all the
   * way round.
   */
  function Elapsed(start: nat, now: nat): int { if start <= now then now - start else U64 - (start - now) }

  /**
   * A call that is still running times out exactly when more than its own timeout has elapsed since the
   * call, on any clock, and never with timeout 0.  In particular a clock that steps back by a little
   * times the call out at once, unless its timeout is nearly 2^64.
   */
  lemma TimeoutExactly(c: Client, timeout: nat, start: nat, now: nat, arrived: seq<Response>)
    requires c.state == Idle && start < U64 && now < U64
    ensures var called := Call(c, timeout, start, true).0.(pending := arrived);
            ClientPoll(called, now).1 == ResponseTimeout <==> timeout > 0 && Elapsed(start, now) > timeout
  {
    assert (now - start) % U64 == Elapsed(start, now) by {
      if start <= now { assert (now - start) % U64 == now - start; }
      else { assert (now - start + U64) % U64 == now - start + U64; }
    }
  }
}
