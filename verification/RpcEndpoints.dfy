/** The RPC endpoints as objects that update their fields in place, proved against their value models. */
module RpcEndpoints {
  import opened ActionTypes
  import opened RpcSpec

  class RpcClientEndpoint {
    const service: Name
    const name: Name
    var state: State
    var requestId: nat
    var timeout: nat
    var startedAt: nat
    var currentId: nat
    var pendingResponses: seq<Response>

    function View(): Client
      reads this
    {
      Client(service, name, state, requestId, timeout, startedAt, currentId, pendingResponses)
    }

    constructor (service: Name, name: Name)
      ensures View() == Client(service, name, Idle, 0, 0, 0, 0, [])
    {
      this.service, this.name := service, name;
      state, requestId, timeout, startedAt, currentId, pendingResponses := Idle, 0, 0, 0, 0, [];
    }

    /** A new number is taken for every buffer except that of a cancel. */
    method CreateRequestBuffer(opcode: nat, isCancel: bool) returns (request: Request)
      modifies this`currentId
      ensures if isCancel then View() == old(View()) && request == Request(service, name, opcode, requestId)
              else (View(), request) == CreateRequest(old(View()), opcode)
    {
      var id := requestId;
      if !isCancel {
        currentId := (currentId + 1) % U64;
        id := currentId % U32;
      }
      request := Request(service, name, opcode, id);
    }

    /** A failed send rolls back to idle, but keeps the number and the times it had set. */
    method Call(callTimeout: nat, now: nat, sent: bool) returns (ok: bool)
      modifies this`state, this`requestId, this`timeout, this`startedAt
      ensures (View(), ok) == RpcSpec.Call(old(View()), callTimeout, now, sent)
    {
      if state != Idle { return false; }
      state := Running;
      requestId := currentId % U32;
      timeout := callTimeout;
      startedAt := now;
      if !sent {
        state := Idle;
        return false;
      }
      ok := true;
    }

    method SendCancelRequest(sent: bool) returns (ok: bool, request: Option<Request>)
      modifies this`state, this`currentId
      ensures (View(), ok) == SendCancel(old(View()), sent)
      ensures request == if old(state) == Running then Some(CancelRequest(old(View()))) else None
    {
      if state != Running { return false, None; }
      var r := CreateRequestBuffer(OP_CANCEL, true);
      request := Some(r);
      if sent { state := Cancelling; }
      ok := sent;
    }

    method PutPendingResponse(r: Response)
      modifies this`pendingResponses
      ensures View() == old(View()).(pending := old(pendingResponses) + [r])
    {
      pendingResponses := pendingResponses + [r];
    }

    /** Scans for the response to the present call, leaving all others queued in order. */
    method Poll(now: nat) returns (event: ClientEvent)
      modifies this`state, this`pendingResponses
      ensures (View(), event) == ClientPoll(old(View()), now)
    {
      if state == Idle { return NoReply; }
      if state == Running && timeout > 0 && (now - startedAt) % U64 > timeout { return ResponseTimeout; }
      var k := 0;
      while k < |pendingResponses|
        invariant k <= |pendingResponses| && View() == old(View())
        invariant forall j | 0 <= j < k :: pendingResponses[j].id != requestId
      {
        if pendingResponses[k].id == requestId {
          var response := pendingResponses[k];
          assert FindResponse(pendingResponses, requestId) == Some(k);
          pendingResponses := pendingResponses[..k] + pendingResponses[k + 1..];
          event := HandleResponseIn(response);
          return;
        }
        k := k + 1;
      }
      assert FindResponse(pendingResponses, requestId).None?;
      event := NoReply;
    }

    /** A response with a bad header ends the call without an event. */
    method HandleResponseIn(r: Response) returns (event: ClientEvent)
      modifies this`state
      ensures View() == old(View()).(state := Idle) && event == HandleResponse(old(View()), r)
    {
      state := Idle;
      if r.service != service || r.client != name || r.id != requestId || r.code >= CODE_NUM { return NoReply; }
      event := if r.code == CODE_CANCELED then ResponseCancel(r) else ResponseIn(r);
    }
  }

  class RpcServerEndpoint {
    const service: Name
    const dynamic: bool
    const maxClients: nat
    var registeredClients: seq<Name>
    var serverStates: map<Name, Status>
    var pendingRequests: seq<Request>

    function View(): Server
      reads this
    {
      Server(service, dynamic, maxClients, registeredClients, serverStates, pendingRequests)
    }

    /** Every registered name has a state, and a dynamic server stays within its limit. */
    ghost predicate Valid()
      reads this
    {
      Admitted(View())
    }

    constructor (service: Name, dynamic: bool, maxClients: nat, clients: seq<Name>)
      requires dynamic ==> clients == []
      ensures Valid() && View().service == service && registeredClients == clients && pendingRequests == []
      ensures forall c <- serverStates :: serverStates[c] == Status(Idle, 0)
    {
      this.service, this.dynamic, this.maxClients := service, dynamic, maxClients;
      registeredClients := clients;
      serverStates := map c | c in clients :: Status(Idle, 0);
      pendingRequests := [];
    }

    method PutPendingRequest(r: Request)
      requires Valid()
      modifies this`pendingRequests
      ensures Valid() && View() == old(View()).(pending := old(pendingRequests) + [r])
    {
      pendingRequests := pendingRequests + [r];
    }

    method SendReply(client: Name, reply: Response) returns (attempt: Option<Response>)
      requires Valid()
      modifies this`serverStates
      ensures Valid() && Sent(View(), attempt) == RpcSpec.SendReply(old(View()), client, reply)
    {
      if client !in serverStates || serverStates[client].state == Idle { return None; }
      SetState(client, Status(Idle, 0));
      attempt := Some(reply);
    }

    method SendCancelReply(client: Name, reply: Response) returns (attempt: Option<Response>)
      requires Valid()
      modifies this`serverStates
      ensures Valid() && Sent(View(), attempt) == RpcSpec.SendCancelReply(old(View()), client, reply)
    {
      if client !in serverStates || serverStates[client].state != Cancelling { return None; }
      SetState(client, Status(Idle, 0));
      attempt := Some(reply);
    }

    method SetState(client: Name, status: Status)
      requires Valid() && client in serverStates
      modifies this`serverStates
      ensures Valid() && serverStates == old(serverStates)[client := status]
    {
      serverStates := serverStates[client := status];
      assert serverStates.Keys == old(serverStates.Keys);
    }

    method SendErrorReply(r: Request, code: int) returns (attempt: Option<Response>)
      requires Valid()
      modifies this`serverStates
      ensures Valid() && Sent(View(), attempt) == RpcSpec.SendErrorReply(old(View()), r, code)
    {
      attempt := SendReply(r.client, ReplyTo(r, STATUS_ERROR, code));
    }

    method ValidateHeader(r: Request) returns (ok: bool)
      requires Valid()
      modifies this`registeredClients, this`serverStates
      ensures Valid() && (View(), ok) == Validate(old(View()), r)
      ensures ok ==> r.client in serverStates
    {
      ValidateKeepsAdmitted(View(), r);
      if r.service != service { return false; }
      if dynamic {
        ok := EnsureDynamicClient(r.client);
        return;
      }
      ok := r.client in registeredClients && r.opcode < OP_NUM;
    }

    method EnsureDynamicClient(client: Name) returns (ok: bool)
      modifies this`registeredClients, this`serverStates
      ensures ok == (client != NO_NAME && (client in old(serverStates) || |old(registeredClients)| < maxClients))
      ensures registeredClients == if ok && client !in old(serverStates) then old(registeredClients) + [client]
              else old(registeredClients)
      ensures serverStates == if ok && client !in old(serverStates) then old(serverStates)[client := Status(Idle, 0)]
              else old(serverStates)
    {
      if client == NO_NAME { return false; }
      if client in serverStates { return true; }
      if |registeredClients| >= maxClients { return false; }
      registeredClients := registeredClients + [client];
      serverStates := serverStates[client := Status(Idle, 0)];
      ok := true;
    }

    method HandleRequestIn(r: Request) returns (event: ServerEvent, attempt: Option<Response>)
      requires Valid() && r.client in serverStates
      modifies this`serverStates
      ensures Valid() && ServerPolled(View(), event, attempt) == HandleRequest(old(View()), r)
    {
      if serverStates[r.client].state == Idle {
        SetState(r.client, Status(Running, r.id));
        return RequestIn(r), None;
      }
      attempt := SendErrorReply(r, CODE_BUSY);
      event := NoRequest;
    }

    method HandleCancelRequest(r: Request) returns (event: ServerEvent, attempt: Option<Response>)
      requires Valid() && r.client in serverStates
      modifies this`serverStates
      ensures Valid() && ServerPolled(View(), event, attempt) == HandleCancel(old(View()), r)
    {
      event, attempt := NoRequest, None;
      var st := serverStates[r.client];
      match st.state {
        case Running =>
          if st.id != r.id {
            attempt := SendErrorReply(r, CODE_INVALID);
          } else {
            SetState(r.client, st.(state := Cancelling));
            event := RequestCancel(r);
          }
        case Idle =>
        case Cancelling => attempt := SendErrorReply(r, CODE_BUSY);
      }
    }

    method Poll() returns (event: ServerEvent, attempt: Option<Response>)
      requires Valid()
      modifies this`registeredClients, this`serverStates, this`pendingRequests
      ensures Valid() && ServerPolled(View(), event, attempt) == ServerPoll(old(View()))
    {
      if pendingRequests == [] { return NoRequest, None; }
      var r := pendingRequests[0];
      pendingRequests := pendingRequests[1..];
      var ok := ValidateHeader(r);
      if !ok {
        attempt := SendErrorReply(r, CODE_ERROR);
        event := NoRequest;
      } else if r.opcode == OP_CANCEL {
        event, attempt := HandleCancelRequest(r);
      } else {
        event, attempt := HandleRequestIn(r);
      }
    }
  }
}
