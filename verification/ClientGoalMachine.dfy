/** The client-side Goal reducer. */
module ClientGoalMachine {
  import opened ActionTypes

  datatype Context = Context(
    state: GoalState, cancelPending: bool, resultPending: bool, nextSeq: nat, status: TerminalStatus)

  const INITIAL: Context := Context(Executing, false, true, 0, NoStatus)

  datatype Event =
    | RequestCancel
    | FeedbackReceived(seqNo: nat)
    | CancelResponseAccepted
    | CancelResponseRejected
    | ResultReceived(status: TerminalStatus)
    | CancelRequestSendFailed
    | CancelResponseTimeout
    | ResultTimeout
    | TransportDisconnected
    | ClientShutdownRequested

  datatype Error = InvalidContext | EventNotAllowed | CancelRequestAlreadyPending

  datatype Transition = Transitioned(next: Context) | Nop | Failed(error: Error)

  predicate ValidContext(c: Context) {
    && c.state != NoState
    && (c.cancelPending ==> c.state == Executing)
    && (c.state == Finishing <==> !c.resultPending)
    && (c.state == Finishing <==> c.status != NoStatus)
  }

  function Transit(c: Context, e: Event): Transition {
    if !ValidContext(c) then Failed(InvalidContext) else
    match e
    case RequestCancel =>
      if c.state != Executing then Failed(EventNotAllowed)
      else if c.cancelPending then Failed(CancelRequestAlreadyPending)
      else Transitioned(c.(cancelPending := true))
    case FeedbackReceived(seqNo) =>
      if c.state == Finishing || seqNo != c.nextSeq then Nop
      else Transitioned(c.(nextSeq := Next32(c.nextSeq)))
    case CancelResponseAccepted =>
      if c.state != Executing || !c.cancelPending then Nop
      else Transitioned(c.(state := Canceling, cancelPending := false))
    case CancelResponseRejected =>
      if c.state != Executing || !c.cancelPending then Nop
      else Transitioned(c.(cancelPending := false))
    case ResultReceived(status) =>
      if c.state == Finishing || !StatusAllowed(c.state == Canceling, status) then Nop
      else Transitioned(c.(state := Finishing, cancelPending := false, resultPending := false, status := status))
    case CancelRequestSendFailed =>
      if c.state == Executing && c.cancelPending then Transitioned(c.(cancelPending := false))
      else Failed(EventNotAllowed)
    case _ => Nop
  }

  // ----- the matrices of the design -----

  /** What the design lets an event do to a Goal: refuse it, ignore it, or move to another context. */
  datatype Ruling = ApiError(error: Error) | Ignored | Become(next: Context)

  function Row(state: GoalState, executing: Ruling, canceling: Ruling, finishing: Ruling): Ruling {
    match state case Executing => executing case Canceling => canceling case _ => finishing
  }

  /** A Result closes the Goal, under a status that the side of the cancel decision it is on allows. */
  function Closes(c: Context, status: TerminalStatus, allowed: bool): Ruling {
    if allowed then Become(Context(Finishing, false, false, c.nextSeq, status)) else Ignored
  }

  function Matrix(e: Event, c: Context): Ruling {
    var (s, pending, n) := (c.state, c.cancelPending, c.nextSeq);
    var no := ApiError(EventNotAllowed);
    match e
    case RequestCancel =>
      Row(s, if pending then ApiError(CancelRequestAlreadyPending)
          else Become(Context(Executing, true, true, n, NoStatus)),
          no, no)
    case FeedbackReceived(seqNo) =>
      var heard := if seqNo == n then Become(c.(nextSeq := Next32(n))) else Ignored;
      Row(s, heard, heard, Ignored)
    case CancelResponseAccepted =>
      Row(s, if pending then Become(Context(Canceling, false, true, n, NoStatus)) else Ignored, Ignored, Ignored)
    case CancelResponseRejected =>
      Row(s, if pending then Become(Context(Executing, false, true, n, NoStatus)) else Ignored, Ignored, Ignored)
    case ResultReceived(status) =>
      Row(s, Closes(c, status, status == Succeeded || status == Aborted),
          Closes(c, status, status == Canceled || status == Aborted), Ignored)
    case CancelRequestSendFailed =>
      Row(s, if pending then Become(Context(Executing, false, true, n, NoStatus)) else no, no, no)
    case _ => Ignored
  }

  /** The reducer is the design's matrices. */
  lemma MeetsMatrix(c: Context, e: Event)
    requires ValidContext(c)
    ensures match Matrix(e, c)
            case ApiError(error) => Transit(c, e) == Failed(error)
            case Ignored => Transit(c, e) == Nop
            case Become(next) => Transit(c, e) == Transitioned(next)
  {
  }

  function Advance(c: Context, e: Event): Context {
    var t := Transit(c, e);
    if t.Transitioned? then t.next else c
  }

  function Run(c: Context, events: seq<Event>): Context
    decreases |events|
  {
    if events == [] then c else Run(Advance(c, events[0]), events[1..])
  }

  /** Every run stays valid, a Result closes the Goal for good, and CANCELED needs both halves of a cancel. */
  lemma {:induction false} RunSafety(c: Context, events: seq<Event>)
    requires ValidContext(c)
    ensures var r := Run(c, events);
            && ValidContext(r)
            && (c.state == Finishing ==> r == c)
            && (r.status == Canceled && c.state == Executing ==> CancelResponseAccepted in events)
            && (r.status == Canceled && c.state == Executing && !c.cancelPending ==> RequestCancel in events)
            && (r.status == Succeeded ==> c.state == Executing || c.status == Succeeded)
    decreases |events|
  {
    if events == [] {
    } else {
      var d := Advance(c, events[0]);
      RunSafety(d, events[1..]);
      if d.state == Canceling && c.state == Executing { assert events[0] == CancelResponseAccepted; }
      if d.cancelPending && !c.cancelPending { assert events[0] == RequestCancel; }
    }
  }
}
