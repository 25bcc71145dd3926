/**
 * Any number of RPC clients and one server, with a lossless first-in-first-out channel per client
 * and direction.  Clients call with their newest request buffer; the application answers each request
 * once, with the header it was given.  Sends may fail, timeouts and cancels may happen at any moment.
 */
module RpcSystem {
  import opened ActionTypes
  import opened RpcSpec

  /** A request the application has been given and has not answered. */
  datatype Open = Open(request: Request, cancelled: bool)

  /** A client, its application's newest buffer, its two channels, and what the server's application owes it. */
  datatype Peer = Peer(
    client: Client, buffer: Option<Request>, wire: seq<Request>, replies: seq<Response>, open: Option<Open>,
    calls: seq<nat>, ends: seq<ClientEvent>, replyLost: bool)

  datatype System = System(server: Server, peers: map<Name, Peer>)

  datatype Step =
    | CreateBuffer(name: Name)
    | StartCall(name: Name, timeout: nat, now: nat, sent: bool)
    | SendCancelStep(name: Name, sent: bool)
    | PollClient(name: Name, now: nat)
    | DeliverRequest(name: Name)
    | DeliverReply(name: Name)
    | PollServer
    | Answer(name: Name, asCancel: bool, status: nat, code: int, sent: bool)

  predicate Enabled(s: System, step: Step) {
    match step
    case PollServer => true
    case StartCall(n, _, _, _) => n in s.peers && s.peers[n].buffer.Some?
    case DeliverRequest(n) => n in s.peers && s.peers[n].wire != []
    case DeliverReply(n) => n in s.peers && s.peers[n].replies != []
    case Answer(n, asCancel, _, code, _) =>
      n in s.peers && s.peers[n].open.Some? && (asCancel ==> s.peers[n].open.value.cancelled) && code < CODE_NUM
    case _ => step.name in s.peers
  }

  function ServerReply(s: System, step: Step): Sent
    requires Enabled(s, step) && step.Answer?
  {
    var reply := ReplyTo(s.peers[step.name].open.value.request, step.status, step.code);
    if step.asCancel then SendCancelReply(s.server, step.name, reply) else SendReply(s.server, step.name, reply)
  }

  function Ends(e: ClientEvent): seq<ClientEvent> { if e.ResponseIn? || e.ResponseCancel? then [e] else [] }

  /** What a client's own step does to its side. */
  function PeerStep(p: Peer, step: Step): Peer
    requires step.StartCall? ==> p.buffer.Some?
  {
    match step
    case CreateBuffer(_) =>
      var (c, b) := CreateRequest(p.client, OP_REQUEST);
      p.(client := c, buffer := Some(b))
    case StartCall(_, timeout, now, sent) =>
      var (c, ok) := Call(p.client, timeout, now, sent);
      if ok then p.(client := c, wire := p.wire + [p.buffer.value], calls := p.calls + [p.buffer.value.id])
        else p.(client := c)
    case SendCancelStep(_, sent) =>
      var (c, ok) := SendCancel(p.client, sent);
      if ok then p.(client := c, wire := p.wire + [CancelRequest(p.client)]) else p.(client := c)
    case PollClient(_, now) =>
      var (c, e) := ClientPoll(p.client, now);
      p.(client := c, ends := p.ends + Ends(e))
    case DeliverReply(_) =>
      if p.replies == [] then p
      else p.(client := p.client.(pending := p.client.pending + [p.replies[0]]), replies := p.replies[1..])
    case _ => p
  }

  /** What the application learns from an event about one client. */
  function Learn(p: Peer, name: Name, e: ServerEvent): Peer {
    match e
    case RequestIn(r) => if r.client == name then p.(open := Some(Open(r, false))) else p
    case RequestCancel(r) => if r.client == name then p.(open := Some(Open(r, true))) else p
    case NoRequest => p
  }

  /** A reply is handed to the transport; a failed send loses it. */
  function Answered(p: Peer, attempt: Option<Response>, sent: bool): Peer {
    if attempt.None? then p
    else if sent then p.(replies := p.replies + [attempt.value])
    else p.(replyLost := true)
  }

  function Reply(p: Peer, name: Name, attempt: Option<Response>): Peer {
    if attempt.Some? && attempt.value.client == name then Answered(p, attempt, true) else p
  }

  function Next(s: System, step: Step): System
    requires Enabled(s, step)
  {
    match step
    case PollServer =>
      var r := ServerPoll(s.server);
      System(r.next, map n | n in s.peers :: Reply(Learn(s.peers[n], n, r.event), n, r.attempt))
    case DeliverRequest(n) =>
      System(s.server.(pending := s.server.pending + [s.peers[n].wire[0]]),
             s.peers[n := s.peers[n].(wire := s.peers[n].wire[1..])])
    case Answer(n, _, _, _, sent) =>
      var r := ServerReply(s, step);
      System(r.next, s.peers[n := Answered(s.peers[n].(open := None), r.attempt, sent)])
    case _ => s.(peers := s.peers[step.name := PeerStep(s.peers[step.name], step)])
  }

  // ----- the invariant of one client -----

  /** Requests queued at the server that name one client, in order. */
  function For(pending: seq<Request>, name: Name): seq<Request> {
    if pending == [] then []
    else (if pending[0].client == name then [pending[0]] else []) + For(pending[1..], name)
  }

  lemma {:induction false} ForAppend(a: seq<Request>, r: Request, name: Name)
    ensures For(a + [r], name) == For(a, name) + (if r.client == name then [r] else [])
  {
    var last := if r.client == name then [r] else [];
    if a == [] {
      assert a + [r] == [r] && [r][1..] == [];
    } else {
      var head := if a[0].client == name then [a[0]] else [];
      assert (a + [r])[0] == a[0] && (a + [r])[1..] == a[1..] + [r];
      ForAppend(a[1..], r, name);
      assert For(a + [r], name) == head + (For(a[1..], name) + last);
    }
  }

  /** Everything a client has asked that the server has not looked at. */
  function Asked(s: System, name: Name): seq<Request>
    requires name in s.peers
  {
    For(s.server.pending, name) + s.peers[name].wire
  }

  function Tokens(p: Peer): seq<Response> { p.client.pending + p.replies }

  predicate IsAsk(r: Request, id: nat) { r.opcode == OP_REQUEST && r.id == id }

  predicate IsCancel(r: Request, id: nat) { r.opcode == OP_CANCEL && r.id == id }

  /** At most one cancel, of a call that is already over. */
  predicate Stale(q: seq<Request>) { q == [] || (|q| == 1 && q[0].opcode == OP_CANCEL) }

  /** stale-cancel? request cancel? */
  predicate Waiting(q: seq<Request>, id: nat, cancelled: bool) {
    if cancelled then |q| >= 2 && IsCancel(q[|q| - 1], id) && IsAsk(q[|q| - 2], id) && Stale(q[..|q| - 2])
    else |q| >= 1 && IsAsk(q[|q| - 1], id) && Stale(q[..|q| - 1])
  }

  /** The cancel of the present call, if it is still unread. */
  predicate OwnCancel(q: seq<Request>, id: nat, cancelled: bool) {
    q == [] || (cancelled && |q| == 1 && IsCancel(q[0], id))
  }

  predicate Addressed(service: Name, name: Name, q: seq<Request>, tokens: seq<Response>) {
    && (forall i | 0 <= i < |q| :: q[i].service == service && q[i].client == name && q[i].opcode < OP_NUM)
    && (forall i | 0 <= i < |tokens| ::
        tokens[i].service == service && tokens[i].client == name && tokens[i].code < CODE_NUM)
  }

  /** Where the one call of a client can be: with the server's queue, with the application, or on its way back. */
  predicate InQueue(p: Peer, q: seq<Request>, st: Status) {
    && st.state == Idle && p.open.None? && Tokens(p) == []
    && Waiting(q, p.client.requestId, p.client.state == Cancelling)
  }

  predicate InWork(p: Peer, q: seq<Request>, st: Status) {
    && st.state != Idle && st.id == p.client.requestId && Tokens(p) == []
    && p.open.Some? && p.open.value.request.id == st.id && p.open.value.cancelled == (st.state == Cancelling)
    && (if p.client.state == Cancelling && st.state == Running then |q| == 1 && IsCancel(q[0], st.id) else q == [])
    && (st.state == Cancelling ==> p.client.state == Cancelling)
  }

  predicate OnWayBack(p: Peer, q: seq<Request>, st: Status) {
    && st.state == Idle && p.open.None? && |Tokens(p)| == 1 && Tokens(p)[0].id == p.client.requestId
    && OwnCancel(q, p.client.requestId, p.client.state == Cancelling)
  }

  predicate Lost(p: Peer, q: seq<Request>, st: Status) {
    && p.replyLost && st.state == Idle && p.open.None? && Tokens(p) == []
    && OwnCancel(q, p.client.requestId, p.client.state == Cancelling)
  }

  predicate AtRest(p: Peer, q: seq<Request>, st: Status) {
    st.state == Idle && p.open.None? && Tokens(p) == [] && Stale(q)
  }

  /** Finished calls and their ends match one to one, in order, by request ID. */
  predicate Matched(p: Peer) {
    && |p.calls| == |p.ends| + (if p.client.state == Idle then 0 else 1)
    && (p.client.state != Idle ==> p.calls[|p.calls| - 1] == p.client.requestId)
    && (forall i | 0 <= i < |p.ends| ::
        (p.ends[i].ResponseIn? || p.ends[i].ResponseCancel?) && p.ends[i].response.id == p.calls[i])
  }

  predicate Names(p: Peer, name: Name, service: Name) {
    && p.client.name == name && p.client.service == service && p.client.currentId < U64
    && (p.buffer.Some? ==> p.buffer.value == Request(service, name, OP_REQUEST, p.client.currentId % U32))
    && (p.open.Some? ==> p.open.value.request.service == service && p.open.value.request.client == name)
  }

  /** All there is to know about one client. */
  datatype Lane = Lane(p: Peer, q: seq<Request>, st: Status)

  predicate Good(l: Lane, name: Name, service: Name) {
    && Names(l.p, name, service) && Addressed(service, name, l.q, Tokens(l.p)) && Matched(l.p)
    && (if l.p.client.state == Idle then AtRest(l.p, l.q, l.st)
        else InQueue(l.p, l.q, l.st) || InWork(l.p, l.q, l.st) || OnWayBack(l.p, l.q, l.st) || Lost(l.p, l.q, l.st))
  }

  /** The server knows the client. */
  predicate Known(s: Server, name: Name) {
    name in s.states && name != NO_NAME && (!s.dynamic ==> name in s.registered)
  }

  function LaneOf(s: System, name: Name): Lane
    requires name in s.peers && name in s.server.states
  {
    Lane(s.peers[name], Asked(s, name), s.server.states[name])
  }

  ghost predicate AllKnown(s: System) {
    && (forall n <- s.peers :: Known(s.server, n))
    && (forall i | 0 <= i < |s.server.pending| ::
        s.server.pending[i].client in s.peers && s.server.pending[i].service == s.server.service)
  }

  /** The server knows every client, only clients are queued, and every client's lane is good. */
  ghost predicate Inv(s: System) {
    AllKnown(s) && forall n <- s.peers :: Good(LaneOf(s, n), n, s.server.service)
  }

  // ----- one client's steps -----

  function Extended(l: Lane, p: Peer, r: Request): Lane {
    Lane(p, if p.wire == l.p.wire then l.q else l.q + [r], l.st)
  }

  lemma CreateKeeps(l: Lane, name: Name, service: Name)
    requires Good(l, name, service)
    ensures Good(l.(p := PeerStep(l.p, CreateBuffer(name))), name, service)
  {
  }

  lemma CallQueues(l: Lane, name: Name, service: Name, timeout: nat, now: nat)
    requires Names(l.p, name, service) && AtRest(l.p, l.q, l.st) && l.p.buffer.Some? && l.p.client.state == Idle
    ensures InQueue(PeerStep(l.p, StartCall(name, timeout, now, true)), l.q + [l.p.buffer.value], l.st)
  {
    var q := l.q + [l.p.buffer.value];
    assert q[..|q| - 1] == l.q;
  }

  lemma CallMatches(p: Peer, name: Name, service: Name, timeout: nat, now: nat)
    requires Names(p, name, service) && Matched(p) && p.buffer.Some? && p.client.state == Idle
    ensures Matched(PeerStep(p, StartCall(name, timeout, now, true)))
  {
  }

  lemma CallStarts(l: Lane, name: Name, service: Name, timeout: nat, now: nat)
    requires Good(l, name, service) && l.p.buffer.Some? && l.p.client.state == Idle
    ensures Good(Lane(PeerStep(l.p, StartCall(name, timeout, now, true)), l.q + [l.p.buffer.value], l.st), name,
                 service)
  {
    var n := PeerStep(l.p, StartCall(name, timeout, now, true));
    CallQueues(l, name, service, timeout, now);
    CallMatches(l.p, name, service, timeout, now);
    assert Tokens(n) == Tokens(l.p);
    AddressedMore(service, name, l.q, l.p.buffer.value, Tokens(n));
  }

  lemma AddressedMore(service: Name, name: Name, q: seq<Request>, r: Request, tokens: seq<Response>)
    requires Addressed(service, name, q, tokens) && r.service == service && r.client == name && r.opcode < OP_NUM
    ensures Addressed(service, name, q + [r], tokens)
  {
  }

  lemma CallKeeps(l: Lane, name: Name, service: Name, timeout: nat, now: nat, sent: bool)
    requires Good(l, name, service) && l.p.buffer.Some?
    ensures Good(Extended(l, PeerStep(l.p, StartCall(name, timeout, now, sent)), l.p.buffer.value), name, service)
  {
    var n := PeerStep(l.p, StartCall(name, timeout, now, sent));
    if l.p.client.state != Idle {
      assert n == l.p;
    } else if sent {
      CallStarts(l, name, service, timeout, now);
      assert n.wire != l.p.wire by { assert |n.wire| == |l.p.wire| + 1; }
    } else {
      assert Tokens(n) == Tokens(l.p);
    }
  }

  lemma CancelQueues(l: Lane, name: Name)
    requires InQueue(l.p, l.q, l.st) && l.p.client.state == Running
    ensures InQueue(PeerStep(l.p, SendCancelStep(name, true)), l.q + [CancelRequest(l.p.client)], l.st)
  {
    var q := l.q + [CancelRequest(l.p.client)];
    assert q[..|q| - 2] == l.q[..|l.q| - 1];
  }

  lemma CancelFollows(l: Lane, name: Name)
    requires l.p.client.state == Running
             && (InWork(l.p, l.q, l.st) || OnWayBack(l.p, l.q, l.st) || Lost(l.p, l.q, l.st))
    ensures var n := PeerStep(l.p, SendCancelStep(name, true));
            var q := l.q + [CancelRequest(l.p.client)];
            InWork(n, q, l.st) || OnWayBack(n, q, l.st) || Lost(n, q, l.st)
  {
    assert l.q == [] && l.q + [CancelRequest(l.p.client)] == [CancelRequest(l.p.client)];
  }

  lemma CancelMatches(p: Peer, name: Name, service: Name)
    requires Names(p, name, service) && Matched(p) && p.client.state == Running
    ensures var n := PeerStep(p, SendCancelStep(name, true));
            Matched(n) && Names(n, name, service) && Tokens(n) == Tokens(p) && n.client.state == Cancelling
  {
  }

  lemma CancelStarts(l: Lane, name: Name, service: Name)
    requires Good(l, name, service) && l.p.client.state == Running
    ensures Good(Lane(PeerStep(l.p, SendCancelStep(name, true)), l.q + [CancelRequest(l.p.client)], l.st), name,
                 service)
  {
    CancelMatches(l.p, name, service);
    AddressedMore(service, name, l.q, CancelRequest(l.p.client), Tokens(l.p));
    if InQueue(l.p, l.q, l.st) { CancelQueues(l, name); } else { CancelFollows(l, name); }
  }

  lemma CancelKeeps(l: Lane, name: Name, service: Name, sent: bool)
    requires Good(l, name, service)
    ensures Good(Extended(l, PeerStep(l.p, SendCancelStep(name, sent)), CancelRequest(l.p.client)), name, service)
  {
    var n := PeerStep(l.p, SendCancelStep(name, sent));
    if l.p.client.state == Running && sent {
      CancelStarts(l, name, service);
      assert n.wire != l.p.wire by { assert |n.wire| == |l.p.wire| + 1; }
    } else {
      assert n == l.p;
    }
  }

  lemma DeliverReplyKeeps(l: Lane, name: Name, service: Name)
    requires Good(l, name, service)
    ensures Good(l.(p := PeerStep(l.p, DeliverReply(name))), name, service)
  {
    var n := PeerStep(l.p, DeliverReply(name));
    if l.p.replies != [] {
      assert Tokens(n) == l.p.client.pending + ([l.p.replies[0]] + l.p.replies[1..]);
      assert [l.p.replies[0]] + l.p.replies[1..] == l.p.replies;
    }
  }

  /** The only token is the answer to the present call. */
  lemma OnlyToken(l: Lane, name: Name, service: Name)
    requires Good(l, name, service) && l.p.client.state != Idle && l.p.client.pending != []
    ensures OnWayBack(l.p, l.q, l.st) && |l.p.client.pending| == 1 && l.p.replies == []
    ensures FindResponse(l.p.client.pending, l.p.client.requestId) == Some(0)
    ensures ValidResponse(l.p.client, l.p.client.pending[0])
  {
    assert Tokens(l.p)[0] == l.p.client.pending[0];
  }

  lemma NoToken(c: Client, now: nat)
    requires c.pending == []
    ensures ClientPoll(c, now).0 == c && Ends(ClientPoll(c, now).1) == []
  {
  }

  /** So polling ends the call or changes nothing. */
  lemma PollClientKeeps(l: Lane, name: Name, service: Name, now: nat)
    requires Good(l, name, service)
    ensures Good(l.(p := PeerStep(l.p, PollClient(name, now))), name, service)
  {
    var c := l.p.client;
    if c.state == Idle || c.pending == [] || (c.state == Running && Expired(c, now)) {
      if c.pending == [] { NoToken(c, now); }
      assert l.p.ends + [] == l.p.ends;
      assert PeerStep(l.p, PollClient(name, now)) == l.p;
    } else {
      OnlyToken(l, name, service);
      AnswerTaken(l, name, service, now);
    }
  }

  lemma AnswerTaken(l: Lane, name: Name, service: Name, now: nat)
    requires Names(l.p, name, service) && Matched(l.p) && OnWayBack(l.p, l.q, l.st)
    requires Addressed(service, name, l.q, Tokens(l.p)) && l.p.client.state != Idle
    requires |l.p.client.pending| == 1 && l.p.replies == [] && ValidResponse(l.p.client, l.p.client.pending[0])
    requires FindResponse(l.p.client.pending, l.p.client.requestId) == Some(0)
    requires !(l.p.client.state == Running && Expired(l.p.client, now))
    ensures Good(l.(p := PeerStep(l.p, PollClient(name, now))), name, service)
  {
    var n := PeerStep(l.p, PollClient(name, now));
    assert n.client.pending == [] && Tokens(n) == [];
    var e := ClientPoll(l.p.client, now).1;
    assert n.ends == l.p.ends + [e];
    assert AtRest(n, l.q, l.st);
  }

  // ----- the server's steps for one client -----

  function AfterAnswer(l: Lane, reply: Response, sent: bool): Lane {
    Lane(Answered(l.p.(open := None), Some(reply), sent), l.q, Status(Idle, 0))
  }

  lemma AnswerKeeps(l: Lane, name: Name, service: Name, status: nat, code: int, sent: bool)
    requires Good(l, name, service) && l.p.open.Some? && code < CODE_NUM
    ensures Good(AfterAnswer(l, ReplyTo(l.p.open.value.request, status, code), sent), name, service)
  {
    var reply := ReplyTo(l.p.open.value.request, status, code);
    var n := AfterAnswer(l, reply, sent);
    assert InWork(l.p, l.q, l.st);
    if sent {
      assert Tokens(n.p) == [reply];
      assert OnWayBack(n.p, n.q, n.st);
    } else {
      assert Lost(n.p, n.q, n.st);
    }
  }

  /**
   * A client's lane after the server has read its next packet: a request starts work, its cancel is passed on,
   * any other cancel is ignored.
   */
  function AfterRead(l: Lane, name: Name): Lane
    requires l.q != []
  {
    var r := l.q[0];
    if r.opcode == OP_REQUEST then Lane(Learn(l.p, name, RequestIn(r)), l.q[1..], Status(Running, r.id))
    else if l.st.state == Idle then l.(q := l.q[1..])
    else Lane(Learn(l.p, name, RequestCancel(r)), l.q[1..], Status(Cancelling, r.id))
  }

  /** The server may read this packet in this state without refusing it. */
  predicate Readable(r: Request, st: Status) {
    if r.opcode == OP_REQUEST then st.state == Idle
    else r.opcode == OP_CANCEL && (st.state == Idle || (st.state == Running && st.id == r.id))
  }

  lemma ReadQueued(l: Lane, name: Name)
    requires InQueue(l.p, l.q, l.st) && l.p.client.state != Idle && l.q != [] && l.q[0].client == name
    ensures Readable(l.q[0], l.st)
    ensures var n := AfterRead(l, name); InQueue(n.p, n.q, n.st) || InWork(n.p, n.q, n.st)
  {
    if l.q[0].opcode == OP_CANCEL {
      var cancelled := l.p.client.state == Cancelling;
      var n := |l.q| - (if cancelled then 2 else 1);
      assert n == 1 && l.q[1..][..n - 1] == [];
      assert Waiting(l.q[1..], l.p.client.requestId, cancelled);
    }
  }

  lemma ReadInWork(l: Lane, name: Name)
    requires InWork(l.p, l.q, l.st) && l.p.client.state != Idle && l.q != [] && l.q[0].client == name
    ensures Readable(l.q[0], l.st)
    ensures var n := AfterRead(l, name); InWork(n.p, n.q, n.st)
  {
  }

  lemma ReadLate(l: Lane, name: Name)
    requires l.q != [] && (AtRest(l.p, l.q, l.st) || OnWayBack(l.p, l.q, l.st) || Lost(l.p, l.q, l.st))
    ensures Readable(l.q[0], l.st) && AfterRead(l, name) == l.(q := []) && l.q[1..] == []
  {
  }

  lemma ReadLabels(l: Lane, name: Name, service: Name)
    requires Names(l.p, name, service) && Addressed(service, name, l.q, Tokens(l.p)) && Matched(l.p) && l.q != []
    ensures var n := AfterRead(l, name);
            && Names(n.p, name, service) && Addressed(service, name, n.q, Tokens(n.p)) && Matched(n.p)
               && n.p.client == l.p.client
  {
    assert Tokens(AfterRead(l, name).p) == Tokens(l.p);
  }

  lemma ReadKeeps(l: Lane, name: Name, service: Name)
    requires Good(l, name, service) && l.q != []
    ensures Readable(l.q[0], l.st) && Good(AfterRead(l, name), name, service)
  {
    ReadLabels(l, name, service);
    if l.p.client.state != Idle && InQueue(l.p, l.q, l.st) {
      ReadQueued(l, name);
    } else if l.p.client.state != Idle && InWork(l.p, l.q, l.st) {
      ReadInWork(l, name);
    } else {
      ReadLate(l, name);
    }
  }

  // ----- lifting to the system -----

  /** A step that changes the lane of one client only. */
  lemma OneLane(s: System, t: System, name: Name)
    requires Inv(s) && AllKnown(t) && t.server.service == s.server.service
    requires name in s.peers && t.peers.Keys == s.peers.Keys
    requires forall n <- s.peers :: n != name ==> LaneOf(t, n) == LaneOf(s, n)
    requires Good(LaneOf(t, name), name, s.server.service)
    ensures Inv(t)
  {
    forall n <- t.peers ensures Good(LaneOf(t, n), n, t.server.service) {
      if n != name { assert LaneOf(t, n) == LaneOf(s, n); }
    }
  }

  /** A client's own step as a step of its lane. */
  lemma OwnStepLanes(s: System, step: Step)
    requires AllKnown(s) && Enabled(s, step) && !step.PollServer? && !step.DeliverRequest? && !step.Answer?
    ensures var t := Next(s, step);
            var l := LaneOf(s, step.name);
            var n := PeerStep(l.p, step);
            && AllKnown(t) && (forall m <- s.peers :: m != step.name ==> LaneOf(t, m) == LaneOf(s, m))
            && LaneOf(t, step.name) ==
               (if step.StartCall? then Extended(l, n, l.p.buffer.value)
                else if step.SendCancelStep? then Extended(l, n, CancelRequest(l.p.client))
                else l.(p := n))
  {
    var l := LaneOf(s, step.name);
    var n := PeerStep(l.p, step);
    if n.wire != l.p.wire {
      var r := if step.StartCall? then l.p.buffer.value else CancelRequest(l.p.client);
      assert n.wire == l.p.wire + [r];
      assert For(s.server.pending, step.name) + n.wire == l.q + [r];
    }
  }

  lemma OwnLaneKeeps(s: System, step: Step)
    requires Inv(s) && Enabled(s, step) && !step.PollServer? && !step.DeliverRequest? && !step.Answer?
    requires AllKnown(Next(s, step)) && step.name in Next(s, step).peers
    ensures Good(LaneOf(Next(s, step), step.name), step.name, s.server.service)
  {
    var (l, name) := (LaneOf(s, step.name), step.name);
    assert Good(l, name, s.server.service);
    OwnStepLanes(s, step);
    match step {
      case CreateBuffer(_) => CreateKeeps(l, name, s.server.service);
      case StartCall(_, timeout, now, sent) => CallKeeps(l, name, s.server.service, timeout, now, sent);
      case SendCancelStep(_, sent) => CancelKeeps(l, name, s.server.service, sent);
      case PollClient(_, now) => PollClientKeeps(l, name, s.server.service, now);
      case DeliverReply(_) => DeliverReplyKeeps(l, name, s.server.service);
    }
  }

  lemma OwnStepKeeps(s: System, step: Step)
    requires Inv(s) && Enabled(s, step) && !step.PollServer? && !step.DeliverRequest? && !step.Answer?
    ensures Inv(Next(s, step))
  {
    OwnStepLanes(s, step);
    OwnLaneKeeps(s, step);
    OneLane(s, Next(s, step), step.name);
  }

  /** Moving a packet from the channel to the server's queue changes nobody's order. */
  lemma DeliverKeepsOrder(s: System, name: Name, n: Name)
    requires Enabled(s, DeliverRequest(name)) && s.peers[name].wire[0].client == name && n in s.peers
    ensures Asked(Next(s, DeliverRequest(name)), n) == Asked(s, n)
  {
    var wire := s.peers[name].wire;
    ForAppend(s.server.pending, wire[0], n);
    if n == name {
      assert [wire[0]] + wire[1..] == wire;
      assert Asked(Next(s, DeliverRequest(name)), n) == For(s.server.pending, n) + ([wire[0]] + wire[1..]);
    }
  }

  lemma FirstOnWire(s: System, name: Name)
    requires Inv(s) && name in s.peers && s.peers[name].wire != []
    ensures s.peers[name].wire[0].client == name && s.peers[name].wire[0].service == s.server.service
  {
    var l := LaneOf(s, name);
    assert Addressed(s.server.service, name, l.q, Tokens(l.p));
    assert s.peers[name].wire[0] == l.q[|For(s.server.pending, name)|];
  }

  lemma GoodOffWire(l: Lane, wire: seq<Request>, name: Name, service: Name)
    requires Good(l, name, service)
    ensures Good(l.(p := l.p.(wire := wire)), name, service)
  {
    assert Tokens(l.p.(wire := wire)) == Tokens(l.p);
  }

  lemma DeliverStaysKnown(s: System, name: Name)
    requires AllKnown(s) && Enabled(s, DeliverRequest(name))
    requires s.peers[name].wire[0].client == name && s.peers[name].wire[0].service == s.server.service
    ensures AllKnown(Next(s, DeliverRequest(name)))
  {
    var t := Next(s, DeliverRequest(name));
    forall n <- t.peers ensures Known(t.server, n) { assert Known(s.server, n); }
  }

  lemma DeliverLanes(s: System, name: Name)
    requires AllKnown(s) && Enabled(s, DeliverRequest(name)) && s.peers[name].wire[0].client == name
    requires AllKnown(Next(s, DeliverRequest(name)))
    ensures var t := Next(s, DeliverRequest(name));
            && t.peers.Keys == s.peers.Keys
            && (forall n <- s.peers :: n != name ==> LaneOf(t, n) == LaneOf(s, n))
            && LaneOf(t, name) == LaneOf(s, name).(p := s.peers[name].(wire := s.peers[name].wire[1..]))
  {
    forall n <- s.peers ensures Asked(Next(s, DeliverRequest(name)), n) == Asked(s, n) {
      DeliverKeepsOrder(s, name, n);
    }
  }

  lemma DeliverRequestKeeps(s: System, name: Name)
    requires Inv(s) && Enabled(s, DeliverRequest(name))
    ensures Inv(Next(s, DeliverRequest(name)))
  {
    FirstOnWire(s, name);
    DeliverStaysKnown(s, name);
    DeliverLanes(s, name);
    GoodOffWire(LaneOf(s, name), s.peers[name].wire[1..], name, s.server.service);
    OneLane(s, Next(s, DeliverRequest(name)), name);
  }

  lemma AnswerIsSent(s: System, step: Step)
    requires Inv(s) && Enabled(s, step) && step.Answer?
    ensures var reply := ReplyTo(s.peers[step.name].open.value.request, step.status, step.code);
            ServerReply(s, step) == Sent(s.server.(states := s.server.states[step.name := Status(Idle, 0)]),
                                         Some(reply))
  {
    assert Good(LaneOf(s, step.name), step.name, s.server.service);
  }

  lemma AnswerLanes(s: System, step: Step)
    requires AllKnown(s) && Enabled(s, step) && step.Answer?
    requires var reply := ReplyTo(s.peers[step.name].open.value.request, step.status, step.code);
             ServerReply(s, step) == Sent(s.server.(states := s.server.states[step.name := Status(Idle, 0)]),
                                          Some(reply))
    ensures var t := Next(s, step);
            var l := LaneOf(s, step.name);
            && AllKnown(t) && t.peers.Keys == s.peers.Keys && t.server.service == s.server.service
            && (forall n <- s.peers :: n != step.name ==> LaneOf(t, n) == LaneOf(s, n))
            && LaneOf(t, step.name) == AfterAnswer(l, ReplyTo(l.p.open.value.request, step.status, step.code),
                                                   step.sent)
  {
    assert Known(s.server, step.name);
  }

  lemma AnswerStepKeeps(s: System, step: Step)
    requires Inv(s) && Enabled(s, step) && step.Answer?
    ensures Inv(Next(s, step))
  {
    AnswerIsSent(s, step);
    AnswerLanes(s, step);
    AnswerKeeps(LaneOf(s, step.name), step.name, s.server.service, step.status, step.code, step.sent);
    OneLane(s, Next(s, step), step.name);
  }

  /** Reading the queue: the head is the first packet its client is waiting on. */
  lemma HeadIsFirst(s: System)
    requires AllKnown(s) && s.server.pending != []
    ensures var r := s.server.pending[0];
            && r.client in s.peers && Asked(s, r.client) != [] && Asked(s, r.client)[0] == r
            && For(s.server.pending[1..], r.client) + s.peers[r.client].wire == Asked(s, r.client)[1..]
  {
    var r := s.server.pending[0];
    assert Asked(s, r.client) == [r] + (For(s.server.pending[1..], r.client) + s.peers[r.client].wire);
  }

  /** What the server does with the head of its queue: three outcomes, none of them an error reply. */
  function ReadOutcome(s: Server): ServerPolled
    requires s.pending != [] && s.pending[0].client in s.states
  {
    var r := s.pending[0];
    var s1 := s.(pending := s.pending[1..]);
    if r.opcode == OP_REQUEST then
      ServerPolled(s1.(states := s1.states[r.client := Status(Running, r.id)]), RequestIn(r), None)
    else if s.states[r.client].state == Idle then ServerPolled(s1, NoRequest, None)
    else ServerPolled(s1.(states := s1.states[r.client := Status(Cancelling, r.id)]), RequestCancel(r), None)
  }

  lemma ReadOutcomeIs(s: Server)
    requires s.pending != [] && Known(s, s.pending[0].client) && s.pending[0].service == s.service
    requires Readable(s.pending[0], s.states[s.pending[0].client])
    ensures ServerPoll(s) == ReadOutcome(s)
  {
  }

  lemma ServerPollIs(s: System)
    requires Inv(s) && s.server.pending != []
    ensures s.server.pending[0].client in s.server.states && ServerPoll(s.server) == ReadOutcome(s.server)
  {
    var r := s.server.pending[0];
    HeadIsFirst(s);
    ReadKeeps(LaneOf(s, r.client), r.client, s.server.service);
    ReadOutcomeIs(s.server);
  }

  lemma ReadStaysKnown(s: System)
    requires AllKnown(s) && s.server.pending != [] && ServerPoll(s.server) == ReadOutcome(s.server)
    ensures var t := Next(s, PollServer);
            AllKnown(t) && t.peers.Keys == s.peers.Keys && t.server.service == s.server.service
  {
    var t := Next(s, PollServer);
    forall n <- s.peers ensures Known(t.server, n) { assert Known(s.server, n); }
    forall i | 0 <= i < |t.server.pending|
      ensures t.server.pending[i].client in t.peers && t.server.pending[i].service == t.server.service
    {
      assert t.server.pending[i] == s.server.pending[i + 1];
    }
  }

  /** The read as a step of each lane. */
  lemma ReadPeer(s: System, n: Name)
    requires s.server.pending != [] && s.server.pending[0].client in s.server.states && n in s.peers
    requires ServerPoll(s.server) == ReadOutcome(s.server)
    ensures Next(s, PollServer).peers[n] == Learn(s.peers[n], n, ReadOutcome(s.server).event)
  {
  }

  lemma ReadOther(s: System, n: Name)
    requires AllKnown(s) && s.server.pending != [] && ServerPoll(s.server) == ReadOutcome(s.server)
    requires n in s.peers && n != s.server.pending[0].client && AllKnown(Next(s, PollServer))
             && n in Next(s, PollServer).peers
    ensures LaneOf(Next(s, PollServer), n) == LaneOf(s, n)
  {
    ReadPeer(s, n);
    assert For(s.server.pending, n) == For(s.server.pending[1..], n);
  }

  lemma ReadOwn(s: System)
    requires AllKnown(s) && s.server.pending != [] && ServerPoll(s.server) == ReadOutcome(s.server)
    requires AllKnown(Next(s, PollServer)) && Next(s, PollServer).peers.Keys == s.peers.Keys
    ensures var name := s.server.pending[0].client;
            && name in s.peers && LaneOf(s, name).q != []
            && LaneOf(Next(s, PollServer), name) == AfterRead(LaneOf(s, name), name)
  {
    HeadIsFirst(s);
    ReadPeer(s, s.server.pending[0].client);
  }

  lemma PollServerKeeps(s: System)
    requires Inv(s)
    ensures Inv(Next(s, PollServer))
  {
    var t := Next(s, PollServer);
    if s.server.pending == [] {
      assert t.peers == s.peers;
    } else {
      var name := s.server.pending[0].client;
      ServerPollIs(s);
      ReadStaysKnown(s);
      ReadOwn(s);
      forall n <- s.peers | n != name ensures LaneOf(t, n) == LaneOf(s, n) { ReadOther(s, n); }
      ReadKeeps(LaneOf(s, name), name, s.server.service);
      OneLane(s, t, name);
    }
  }

  lemma NextKeeps(s: System, step: Step)
    requires Inv(s) && Enabled(s, step)
    ensures Inv(Next(s, step))
  {
    match step
    case PollServer => PollServerKeeps(s);
    case DeliverRequest(n) => DeliverRequestKeeps(s, n);
    case Answer(_, _, _, _, _) => AnswerStepKeeps(s, step);
    case _ => OwnStepKeeps(s, step);
  }

  // ----- whole runs -----

  ghost predicate IsRun(run: seq<System>, steps: seq<Step>) {
    && |run| == |steps| + 1
    && forall i | 0 <= i < |steps| :: Enabled(run[i], steps[i]) && run[i + 1] == Next(run[i], steps[i])
  }

  /** Nothing in flight, nobody calling, every client known to the server. */
  ghost predicate Start(s: System) {
    && s.server.pending == []
    && forall n <- s.peers ::
         && Known(s.server, n) && s.server.states[n].state == Idle
         && s.peers[n].client == Client(s.server.service, n, Idle, 0, 0, 0, 0, [])
         && s.peers[n].buffer.None? && s.peers[n].wire == [] && s.peers[n].replies == [] && s.peers[n].open.None?
         && s.peers[n].calls == [] && s.peers[n].ends == []
  }

  lemma StartIsGood(s: System)
    requires Start(s)
    ensures Inv(s)
  {
    forall n <- s.peers ensures Known(s.server, n) && Good(LaneOf(s, n), n, s.server.service) {
      assert Asked(s, n) == [];
    }
  }

  lemma {:induction false} RunGood(run: seq<System>, steps: seq<Step>, i: nat)
    requires IsRun(run, steps) && Start(run[0]) && i < |run|
    ensures Inv(run[i])
  {
    if i == 0 {
      StartIsGood(run[0]);
    } else {
      RunGood(run, steps, i - 1);
      NextKeeps(run[i - 1], steps[i - 1]);
    }
  }

  /** No packet is ever refused: the server's BUSY, INVALID and mismatch branches never fire. */
  lemma NeverRefused(run: seq<System>, steps: seq<Step>, i: nat)
    requires IsRun(run, steps) && Start(run[0]) && i < |run|
    ensures ServerPoll(run[i].server).attempt == None
  {
    RunGood(run, steps, i);
    if run[i].server.pending != [] { ServerPollIs(run[i]); }
  }

  /**
   * stale-cancel? request? cancel?: a request is followed by at most its own cancel, and preceded by at most one
   * other.
   */
  ghost predicate Shaped(q: seq<Request>) {
    && |q| <= 3
    && (forall a, b | 0 <= a < b < |q| :: q[a].opcode == OP_REQUEST ==> b == a + 1 && IsCancel(q[b], q[a].id))
    && (forall a, b | 0 <= a < b < |q| :: q[a].opcode == OP_CANCEL ==> a == 0 && (b == 1 ==> q[b].opcode == OP_REQUEST))
  }

  lemma GoodShaped(l: Lane, name: Name, service: Name)
    requires Good(l, name, service)
    ensures Shaped(l.q)
  {
    var q := l.q;
    if l.p.client.state != Idle && InQueue(l.p, q, l.st) {
      var n := |q| - (if l.p.client.state == Cancelling then 2 else 1);
      assert |q[..n]| <= 1;
      if n == 1 { assert q[..n][0] == q[0]; }
    } else {
      assert |q| <= 1;
    }
  }

  /** The requests of one client, queued or under way, keep that shape in every run. */
  lemma QueueShape(run: seq<System>, steps: seq<Step>, i: nat, name: Name)
    requires IsRun(run, steps) && Start(run[0]) && i < |run| && name in run[i].peers
    ensures Shaped(Asked(run[i], name))
  {
    RunGood(run, steps, i);
    GoodShaped(LaneOf(run[i], name), name, run[i].server.service);
  }

  predicate AskQueued(q: seq<Request>, id: nat) { exists k :: 0 <= k < |q| && IsAsk(q[k], id) }

  predicate InHand(p: Peer, st: Status) { p.open.Some? && st.state != Idle && st.id == p.client.requestId }

  predicate OnTheWay(p: Peer) { exists k :: 0 <= k < |Tokens(p)| && Tokens(p)[k].id == p.client.requestId }

  lemma PlaceOfCall(l: Lane, name: Name, service: Name)
    requires Good(l, name, service) && l.p.client.state != Idle && !l.p.replyLost
    ensures var id := l.p.client.requestId;
            && (AskQueued(l.q, id) || InHand(l.p, l.st) || OnTheWay(l.p))
            && !(AskQueued(l.q, id) && InHand(l.p, l.st))
            && !(AskQueued(l.q, id) && OnTheWay(l.p))
            && !(InHand(l.p, l.st) && OnTheWay(l.p))
  {
    if InQueue(l.p, l.q, l.st) {
      assert IsAsk(l.q[|l.q| - (if l.p.client.state == Cancelling then 2 else 1)], l.p.client.requestId);
    }
  }

  /**
   * An unfinished call is in exactly one place, as long as no reply was lost: it is never forgotten and never
   * doubled.
   */
  lemma ExactlyOnePlace(run: seq<System>, steps: seq<Step>, i: nat, name: Name)
    requires IsRun(run, steps) && Start(run[0]) && i < |run| && name in run[i].peers
    requires run[i].peers[name].client.state != Idle && !run[i].peers[name].replyLost
    ensures var p := run[i].peers[name];
            && name in run[i].server.states
            && var st := run[i].server.states[name];
            var q := Asked(run[i], name);
            && (AskQueued(q, p.client.requestId) || InHand(p, st) || OnTheWay(p))
            && !(AskQueued(q, p.client.requestId) && InHand(p, st))
            && !(AskQueued(q, p.client.requestId) && OnTheWay(p))
            && !(InHand(p, st) && OnTheWay(p))
  {
    RunGood(run, steps, i);
    assert Known(run[i].server, name) && Good(LaneOf(run[i], name), name, run[i].server.service);
    PlaceOfCall(LaneOf(run[i], name), name, run[i].server.service);
  }

  /** Each call ends in exactly one response, with its own request ID; at most the last call is unfinished. */
  lemma EachCallEndsOnce(run: seq<System>, steps: seq<Step>, i: nat, name: Name)
    requires IsRun(run, steps) && Start(run[0]) && i < |run| && name in run[i].peers
    ensures var p := run[i].peers[name];
            && |p.ends| <= |p.calls| <= |p.ends| + 1
            && (|p.calls| == |p.ends| <==> p.client.state == Idle)
            && (forall k | 0 <= k < |p.ends| ::
                (p.ends[k].ResponseIn? || p.ends[k].ResponseCancel?) && p.ends[k].response.id == p.calls[k])
            && (p.client.state == Idle ==>
                Known(run[i].server, name) && run[i].server.states[name].state == Idle && Tokens(p) == [])
  {
    RunGood(run, steps, i);
    assert Good(LaneOf(run[i], name), name, run[i].server.service);
  }

  /** An answer that has arrived ends the call at the next poll, unless the call has timed out and was not cancelled. */
  lemma ArrivedAnswerEndsCall(run: seq<System>, steps: seq<Step>, i: nat, name: Name, now: nat)
    requires IsRun(run, steps) && Start(run[0]) && i < |run| && name in run[i].peers
    requires run[i].peers[name].client.pending != []
    ensures var c := run[i].peers[name].client;
            var (n, e) := ClientPoll(c, now);
            if c.state == Running && Expired(c, now) then n == c && e == ResponseTimeout
            else n.state == Idle && n.pending == [] && (e.ResponseIn? || e.ResponseCancel?)
                 && e.response.id == c.requestId
  {
    RunGood(run, steps, i);
    var p := run[i].peers[name];
    assert Good(LaneOf(run[i], name), name, run[i].server.service);
    assert Tokens(p)[0] == p.client.pending[0];
    assert |p.client.pending| == 1;
    assert ValidResponse(p.client, p.client.pending[0]);
  }

  /** A cancel read while its client is idle at the server changes nothing but the queue. */
  lemma LateCancelIgnored(s: System)
    requires Inv(s) && s.server.pending != [] && s.server.pending[0].opcode == OP_CANCEL
    requires s.server.pending[0].client in s.server.states && s.server.states[s.server.pending[0].client].state == Idle
    ensures Next(s, PollServer) == s.(server := s.server.(pending := s.server.pending[1..]))
  {
    ServerPollIs(s);
    assert Next(s, PollServer).peers == s.peers;
  }

  /**
   * Why the newest buffer: the answer to a packet is taken by the call exactly when the packet bears the
   * number of the newest buffer, in 32 bits, and no response with that number was there before.  With
   * any other number the answer changes nothing about what the client reports.
   */
  lemma OlderBufferUnanswered(c: Client, first: Request, timeout: nat, now: nat, later: nat, status: nat, code: int)
    requires c.state == Idle && first.service == c.service && first.client == c.name && code < CODE_NUM
    ensures var called := Call(c, timeout, now, true).0;
            var reply := ReplyTo(first, status, code);
            var answered := called.(pending := c.pending + [reply]);
            && (FindResponse(answered.pending, answered.requestId) == Some(|c.pending|) <==>
                  first.id == c.currentId % U32 && FindResponse(c.pending, first.id).None?)
            && (first.id != c.currentId % U32 ==> ClientPoll(answered, later).1 == ClientPoll(called, later).1)
            && (FindResponse(answered.pending, answered.requestId) == Some(|c.pending|) && !Expired(called, later) ==>
                  ClientPoll(answered, later).1 == if code == CODE_CANCELED then ResponseCancel(reply)
                    else ResponseIn(reply))
  {
    var called := Call(c, timeout, now, true).0;
    var reply := ReplyTo(first, status, code);
    var longer := c.pending + [reply];
    assert longer[|c.pending|] == reply && forall j | 0 <= j < |c.pending| :: longer[j] == c.pending[j];
    assert Expired(called, later) == Expired(called.(pending := longer), later);
  }
}
