/** What each call and poll of the RPC endpoints answers, sends and leaves behind, told by what they can see. */
module RpcTable {
  import opened ActionTypes
  import opened RpcSpec

  // ----- numbers of requests -----

  /** The client after `n` buffers. */
  function Buffers(c: Client, n: nat): Client {
    if n == 0 then c else CreateRequest(Buffers(c, n - 1), OP_REQUEST).0
  }

  /** The header of buffer `n`, counted from 1. */
  function BufferHeader(c: Client, n: nat): Request
    requires n > 0
  {
    CreateRequest(Buffers(c, n - 1), OP_REQUEST).1
  }

  lemma NextMod(x: nat, n: nat)
    requires n > 0
    ensures ((x + (n - 1)) % U64 + 1) % U64 == (x + n) % U64
  {
    var y := x + (n - 1);
    assert y == U64 * (y / U64) + y % U64;
  }

  lemma {:induction false} CounterIs(c: Client, n: nat)
    requires c.currentId < U64
    ensures Buffers(c, n) == c.(currentId := (c.currentId + n) % U64)
  {
    if n == 0 {
    } else {
      CounterIs(c, n - 1);
      NextMod(c.currentId, n);
    }
  }

  lemma WholeTurns(q: nat, r: nat)
    ensures (U32 * q + r) % U32 == r % U32
  {
  }

  lemma LowBits(x: nat)
    ensures (x % U64) % U32 == x % U32
  {
    var (q, r) := (x / U64, x % U64);
    assert x == U64 * q + r;
    var turns := U32 * q;
    assert U32 * turns == U64 * q;
    WholeTurns(turns, r);
  }

  /** Two numbers have the same remainder exactly when their distance has none. */
  lemma SameRemainder(x: nat, d: nat)
    ensures (x + d) % U32 == x % U32 <==> d % U32 == 0
  {
    assert x == U32 * (x / U32) + x % U32 && d == U32 * (d / U32) + d % U32;
  }

  /** Numbers are fresh: two buffers bear the same number exactly when a multiple of 2^32 buffers lies between them. */
  lemma FreshExactly(c: Client, i: nat, j: nat)
    requires c.currentId < U64 && 0 < i <= j
    ensures BufferHeader(c, i).id == BufferHeader(c, j).id <==> (j - i) % U32 == 0
    ensures BufferHeader(c, i) == Request(c.service, c.name, OP_REQUEST, BufferHeader(c, i).id)
  {
    CounterIs(c, i - 1);
    CounterIs(c, j - 1);
    NextMod(c.currentId, i);
    NextMod(c.currentId, j);
    LowBits(c.currentId + i);
    LowBits(c.currentId + j);
    SameRemainder(c.currentId + i, j - i);
  }

  // ----- the client -----

  /** A call starts exactly for an idle client whose packet was sent, under the number of the newest buffer. */
  lemma CallExactly(c: Client, timeout: nat, now: nat, sent: bool)
    ensures var (d, ok) := Call(c, timeout, now, sent);
            && (ok <==> c.state == Idle && sent) && d.pending == c.pending && d.currentId == c.currentId
            && (ok ==>
                  && d.state == Running && d.requestId == c.currentId % U32
                  && d.timeout == timeout && d.startedAt == now)
            && (!ok ==> d.state == c.state) && (c.state != Idle ==> d == c)
  {
  }

  lemma SendCancelExactly(c: Client, sent: bool)
    ensures var (d, ok) := SendCancel(c, sent);
            && (ok <==> c.state == Running && sent) && d == if ok then c.(state := Cancelling) else c
    ensures CancelRequest(c) == Request(c.service, c.name, 1, c.requestId)
  {
  }

  /** The first response in the queue that bears the call's number. */
  predicate FirstAnswer(c: Client, k: nat) {
    k < |c.pending| && c.pending[k].id == c.requestId && forall j | 0 <= j < k :: c.pending[j].id != c.requestId
  }

  predicate NoAnswer(c: Client) { forall j | 0 <= j < |c.pending| :: c.pending[j].id != c.requestId }

  /** A response made out to this service and client, with a known result code. */
  predicate MadeOut(c: Client, r: Response) { r.service == c.service && r.client == c.name && r.code <= 5 }

  /** The running call is out of time. */
  predicate OutOfTime(c: Client, now: nat) { c.state == Running && Expired(c, now) }

  /** A poll takes nothing while the client is idle, out of time, or unanswered. */
  lemma ClientPollWaits(c: Client, now: nat)
    ensures ClientPoll(c, now).1 == ResponseTimeout <==> OutOfTime(c, now)
    ensures c.state == Idle || OutOfTime(c, now) || NoAnswer(c) ==>
              ClientPoll(c, now) == (c, if OutOfTime(c, now) then ResponseTimeout else NoReply)
  {
  }

  /**
   * Otherwise it takes the first answer and ends the call: as a response, as a cancellation, or, if the answer is
   * not made out to this client, without an event.
   */
  lemma ClientPollTakes(c: Client, now: nat, k: nat)
    requires c.state != Idle && !OutOfTime(c, now) && FirstAnswer(c, k)
    ensures ClientPoll(c, now).0 == c.(state := Idle, pending := c.pending[..k] + c.pending[k + 1..])
    ensures ClientPoll(c, now).1 ==
            if !MadeOut(c, c.pending[k]) then NoReply
            else if c.pending[k].code == 2 then ResponseCancel(c.pending[k]) else ResponseIn(c.pending[k])
  {
    assert FindResponse(c.pending, c.requestId) == Some(k);
  }

  // ----- the server -----

  /** The packet is let in: the right service, and a name the server knows or has room for. */
  predicate LetIn(s: Server, r: Request) {
    && r.service == s.service
    && if s.dynamic then r.client != 0 && (r.client in s.states || |s.registered| < s.maxClients)
       else r.client in s.registered && r.opcode <= 1
  }

  /** The name is new and is registered on the way. */
  predicate Joins(s: Server, r: Request) { LetIn(s, r) && s.dynamic && r.client !in s.states }

  predicate Busy(s: Server, client: Name) { client in s.states && s.states[client].state != Idle }

  /** The packet starts work: not a cancel, for a client that is known or joins and has nothing running. */
  predicate Starts(s: Server, r: Request) {
    LetIn(s, r) && r.opcode != 1 && (Joins(s, r) || (r.client in s.states && !Busy(s, r.client)))
  }

  /** The packet cancels what is running under its own number. */
  predicate Stops(s: Server, r: Request) {
    LetIn(s, r) && r.opcode == 1 && r.client in s.states && s.states[r.client] == Status(Running, r.id)
  }

  /** The code of the error reply that any other packet of a busy client draws. */
  function ErrorCode(s: Server, r: Request): int
    requires Busy(s, r.client)
  {
    if !LetIn(s, r) then 1
    else if r.opcode == 1 && s.states[r.client].state == Running then 3
    else 4
  }

  /** The states after a poll: only those of the client named in the packet can change. */
  function StatesAfter(s: Server, r: Request): map<Name, Status> {
    if Starts(s, r) then s.states[r.client := Status(Running, r.id)]
    else if Stops(s, r) then s.states[r.client := Status(Cancelling, r.id)]
    else if Joins(s, r) || Busy(s, r.client) then s.states[r.client := Status(Idle, 0)]
    else s.states
  }

  /** What a poll makes of the packet at the head of the queue. */
  lemma ServerPollExactly(s: Server)
    requires s.pending != []
    ensures var (r, p) := (s.pending[0], ServerPoll(s));
            && (p.event == RequestIn(r) <==> Starts(s, r)) && (p.event == RequestCancel(r) <==> Stops(s, r))
            && (!Starts(s, r) && !Stops(s, r) ==> p.event == NoRequest)
            && (p.attempt.Some? <==> Busy(s, r.client) && !Stops(s, r))
            && (p.attempt.Some? ==> p.attempt.value == Response(r.service, r.client, r.id, 4, ErrorCode(s, r)))
            && p.next == s.(pending := s.pending[1..], states := StatesAfter(s, r),
                            registered := if Joins(s, r) then s.registered + [r.client] else s.registered)
  {
  }

  /** A reply goes out exactly for a client with work, as it was given, and leaves the client idle, sent or not. */
  lemma ReplyExactly(s: Server, client: Name, reply: Response)
    ensures SendReply(s, client, reply) ==
            if Busy(s, client) then Sent(s.(states := s.states[client := Status(Idle, 0)]), Some(reply))
              else Sent(s, None)
    ensures SendCancelReply(s, client, reply) ==
            if Busy(s, client) && s.states[client].state == Cancelling then SendReply(s, client, reply)
              else Sent(s, None)
  {
  }
}
