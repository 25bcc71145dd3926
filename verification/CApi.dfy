/**
 * The polling functions of the C interface.  An event whose packet cannot be handed over stays in
 * the handle, so that a later poll, fixed-buffer or allocating, can take it.
 */
module CApi {
  import opened ActionTypes
  import opened Packet

  datatype EventType = OtherEvent(number: nat) | ErrorType

  datatype Event = Event(kind: EventType, action: string, pdu: seq<Byte>)

  datatype Error = Ok | InvalidArgument | NotRunning | BufferTooSmall | Internal

  /** A caller's poll: into its own buffer, or into memory that is to be allocated. */
  datatype Request =
    | Fixed(hasInfo: bool, hasSize: bool, hasBuffer: bool, capacity: nat)
    | Allocating(hasInfo: bool, hasSize: bool, hasBuffer: bool, memory: bool)
  {
    /** The arguments that must not be null before Services is asked. */
    predicate ArgumentsOk() { hasInfo && hasSize && (Allocating? ==> hasBuffer) }
  }

  datatype Handle = Handle(started: bool, pending: Option<Event>)

  /** `event` is what the caller gets, `asked` whether Services was polled for it. */
  datatype Reply = Reply(next: Handle, event: Option<Event>, size: nat, error: Error, asked: bool)

  /** copy_pdu and allocate_pdu: the reported size and whether the packet was handed over. */
  function HandOut(request: Request, pdu: seq<Byte>): (nat, Error) {
    match request
    case Fixed(_, _, hasBuffer, capacity) =>
      (|pdu|, if |pdu| > capacity || (pdu != [] && !hasBuffer) then BufferTooSmall else Ok)
    case Allocating(_, _, _, memory) =>
      if pdu == [] then (0, Ok) else if memory then (|pdu|, Ok) else (0, Internal)
  }

  /** One poll; `offered` is what Services would answer at this moment. */
  function Poll(h: Handle, request: Request, offered: Option<Event>): Reply {
    if !request.ArgumentsOk() then Reply(h, None, 0, InvalidArgument, false)
    else if !h.started then Reply(h, None, 0, NotRunning, false)
    else if h.pending.None? && offered.None? then Reply(h, None, 0, Ok, true)
    else
      var event := if h.pending.Some? then h.pending.value else offered.value;
      var (size, error) := HandOut(request, event.pdu);
      if error != Ok then Reply(h.(pending := Some(event)), None, size, error, h.pending.None?)
      else
        var status := if event.kind == ErrorType then Internal else Ok;
        Reply(h.(pending := None), Some(event), size, status, h.pending.None?)
  }

  function Held(h: Handle): seq<Event> { if h.pending.Some? then [h.pending.value] else [] }

  function Given(r: Reply): seq<Event> { if r.event.Some? then [r.event.value] else [] }

  function Taken(r: Reply, offered: Option<Event>): seq<Event> {
    if r.asked && offered.Some? then [offered.value] else []
  }

  /** The event a poll is about: the one held back, else what Services has. */
  function AtHand(h: Handle, offered: Option<Event>): Option<Event> { if h.pending.Some? then h.pending else offered }

  predicate HasRoom(request: Request, pdu: seq<Byte>) {
    match request
    case Fixed(_, _, hasBuffer, capacity) => |pdu| <= capacity && (pdu == [] || hasBuffer)
    case Allocating(_, _, _, memory) => pdu == [] || memory
  }

  /**
   * What the caller is told.  Each error has its own cause; an event is given exactly when there is one and room
   * for it, with its own size, and an ERROR event is the one kind that comes with INTERNAL.
   */
  lemma ReplyExactly(h: Handle, request: Request, offered: Option<Event>)
    ensures var (r, e) := (Poll(h, request, offered), AtHand(h, offered));
            var polls := request.ArgumentsOk() && h.started;
            && (r.error == InvalidArgument <==> !request.ArgumentsOk())
            && (r.error == NotRunning <==> request.ArgumentsOk() && !h.started)
            && (r.error == BufferTooSmall <==> polls && e.Some? && request.Fixed? && !HasRoom(request, e.value.pdu))
            && (r.error == Internal <==>
                  && polls && e.Some?
                  && if HasRoom(request, e.value.pdu) then e.value.kind == ErrorType else request.Allocating?)
            && (r.event == if polls && e.Some? && HasRoom(request, e.value.pdu) then e else None)
            && (r.event.Some? || r.error == BufferTooSmall ==> r.size == |e.value.pdu|)
            && (r.asked <==> polls && h.pending.None?)
            && r.next.started == h.started
  {
  }

  /** One poll neither drops, doubles nor reorders an event. */
  lemma PollConserves(h: Handle, request: Request, offered: Option<Event>)
    ensures var r := Poll(h, request, offered); Given(r) + Held(r.next) == Held(h) + Taken(r, offered)
  {
  }

  lemma Shuffle(given: seq<Event>, more: seq<Event>, held: seq<Event>, before: seq<Event>, taken: seq<Event>)
    requires more + held == before + taken
    ensures (given + more) + held == (given + before) + taken
  {
    assert (given + more) + held == given + (more + held);
  }

  /** A history of polls, with what Services would have answered to each. */
  datatype Asked = Asked(request: Request, offered: Option<Event>)

  function Run(h: Handle, polls: seq<Asked>): (Handle, seq<Event>, seq<Event>) {
    if polls == [] then (h, [], [])
    else
      var (h1, given, taken) := Run(h, polls[..|polls| - 1]);
      var last := polls[|polls| - 1];
      var r := Poll(h1, last.request, last.offered);
      (r.next, given + Given(r), taken + Taken(r, last.offered))
  }

  /**
   * Retry safety: over any mix of polls, whatever their buffers and allocations, the events given to
   * the caller followed by the one held back are exactly the events taken from Services, in order.
   */
  lemma {:induction false} EventsExactlyOnce(h: Handle, polls: seq<Asked>)
    requires h.pending.None?
    ensures var (end, given, taken) := Run(h, polls); given + Held(end) == taken && |taken| <= |given| + 1
  {
    if polls == [] {
    } else {
      var before := polls[..|polls| - 1];
      EventsExactlyOnce(h, before);
      var (h1, given, taken) := Run(h, before);
      var last := polls[|polls| - 1];
      var r := Poll(h1, last.request, last.offered);
      PollConserves(h1, last.request, last.offered);
      Shuffle(given, Given(r), Held(r.next), Held(h1), Taken(r, last.offered));
    }
  }

  /** A refused event is kept, its size is reported, and the next big enough poll gets it without asking Services. */
  lemma RetryGetsSameEvent(h: Handle, first: Request, offered: Option<Event>, second: Request, later: Option<Event>)
    requires Poll(h, first, offered).error == BufferTooSmall && second.ArgumentsOk()
    requires match second case Fixed(_, _, hasBuffer, capacity) => hasBuffer && capacity >= Poll(h, first, offered).size
                          case Allocating(_, _, _, memory) => memory
    ensures var r := Poll(h, first, offered);
            var again := Poll(r.next, second, later);
            && r.event.None? && r.next.pending.Some? && !again.asked
            && again.event == r.next.pending && again.size == |again.event.value.pdu| && again.next.pending.None?
  {
  }

  class ActionHandle {
    var started: bool
    var pendingEvent: Option<Event>

    function View(): Handle
      reads this
    {
      Handle(started, pendingEvent)
    }

    constructor ()
      ensures View() == Handle(false, None)
    {
      started, pendingEvent := false, None;
    }

    /** Stopping forgets the held event. */
    method Stop()
      modifies this
      ensures View() == Handle(false, None)
    {
      started, pendingEvent := false, None;
    }

    method Start()
      modifies this`started
      ensures View() == old(View()).(started := true)
    {
      started := true;
    }

    /** The fixed-buffer poll; the packet lands at the front of the buffer and nowhere else. */
    method PollInto(hasInfo: bool, hasSize: bool, buffer: array?<Byte>, capacity: nat, offered: Option<Event>)
      returns (r: Reply)
      requires buffer != null ==> capacity == buffer.Length
      modifies this`pendingEvent, buffer
      ensures r == Poll(old(View()), Fixed(hasInfo, hasSize, buffer != null, capacity), offered) && View() == r.next
      ensures buffer != null && r.event.Some? ==>
                buffer[..] == r.event.value.pdu + old(buffer[..])[|r.event.value.pdu|..]
      ensures buffer != null && r.event.None? ==> buffer[..] == old(buffer[..])
    {
      var request := Fixed(hasInfo, hasSize, buffer != null, capacity);
      if !request.ArgumentsOk() { return Reply(View(), None, 0, InvalidArgument, false); }
      if !started { return Reply(View(), None, 0, NotRunning, false); }
      var asked := pendingEvent.None?;
      if pendingEvent.None? {
        if offered.None? { return Reply(View(), None, 0, Ok, true); }
        pendingEvent := offered;
      }
      var event := pendingEvent.value;
      var result := CopyPdu(event.pdu, buffer, capacity);
      if result != Ok { return Reply(View(), None, |event.pdu|, result, asked); }
      pendingEvent := None;
      r := Reply(View(), Some(event), |event.pdu|, if event.kind == ErrorType then Internal else Ok, asked);
    }

    method CopyPdu(source: seq<Byte>, destination: array?<Byte>, capacity: nat) returns (result: Error)
      requires destination != null ==> capacity == destination.Length
      modifies destination
      ensures result == HandOut(Fixed(true, true, destination != null, capacity), source).1
      ensures destination != null && result == Ok ==>
                |source| <= destination.Length && destination[..] == source + old(destination[..])[|source|..]
      ensures destination != null && result != Ok ==> destination[..] == old(destination[..])
    {
      if |source| > capacity || (source != [] && destination == null) { return BufferTooSmall; }
      result := Ok;
      if destination != null {
        ghost var was := destination[..];
        for i := 0 to |source|
          invariant forall j | 0 <= j < destination.Length :: destination[j] == if j < i then source[j] else was[j]
        {
          destination[i] := source[i];
        }
        assert destination[..] == source + was[|source|..];
      }
    }

    method PollAllocating(hasInfo: bool, hasSize: bool, hasBuffer: bool, memory: bool, offered: Option<Event>)
      returns (r: Reply)
      modifies this`pendingEvent
      ensures r == Poll(old(View()), Allocating(hasInfo, hasSize, hasBuffer, memory), offered) && View() == r.next
    {
      var request := Allocating(hasInfo, hasSize, hasBuffer, memory);
      if !request.ArgumentsOk() { return Reply(View(), None, 0, InvalidArgument, false); }
      if !started { return Reply(View(), None, 0, NotRunning, false); }
      var asked := pendingEvent.None?;
      if pendingEvent.None? {
        if offered.None? { return Reply(View(), None, 0, Ok, true); }
        pendingEvent := offered;
      }
      var event := pendingEvent.value;
      var (size, result) := HandOut(request, event.pdu);
      if result != Ok { return Reply(View(), None, size, result, asked); }
      pendingEvent := None;
      r := Reply(View(), Some(event), size, if event.kind == ErrorType then Internal else Ok, asked);
    }
  }
}
