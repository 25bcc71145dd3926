/** The server-side Goal reducer: a pure function from a context and an event to the next context. */
module ServerGoalMachine {
  import opened ActionTypes

  datatype CancelOrigin = NoOrigin | FromClient | FromRuntime

  datatype Context = Context(
    state: GoalState, cancelPending: bool, origin: CancelOrigin, status: TerminalStatus)

  const INITIAL: Context := Context(Executing, false, NoOrigin, NoStatus)

  datatype Event =
    | PublishFeedback
    | Complete(status: TerminalStatus)
    | AcceptCancel
    | RejectCancel
    | CancelRequestReceived
    | DuplicateCancelRequestReceived
    | DuplicateGoalRequestReceived
    | FeedbackSendCompleted
    | FeedbackSendFailed
    | ResultSendCompleted
    | ResultSendFailed
    | TransportDisconnected
    | RuntimeCancelRequested
    | ApplicationResponseTimeout
    | ServerShutdownRequested

  datatype Error = InvalidContext | EventNotAllowed | CancelDecisionNotPending | InvalidTerminalStatus

  datatype Transition = Transitioned(next: Context) | Nop | Failed(error: Error)

  predicate ValidContext(c: Context) {
    && c.state != NoState
    && (c.cancelPending <==> c.origin != NoOrigin)
    && (c.cancelPending ==> c.state == Executing)
    && (c.state == Finishing <==> c.status != NoStatus)
  }

  function CompleteGoal(c: Context, status: TerminalStatus): Transition {
    if (c.state == Executing && StatusAllowed(false, status))
      || (c.state == Canceling && StatusAllowed(true, status)) then
      Transitioned(Context(Finishing, false, NoOrigin, status))
    else if status == NoStatus then Failed(InvalidTerminalStatus)
    else Failed(EventNotAllowed)
  }

  function Transit(c: Context, e: Event): Transition {
    if !ValidContext(c) then Failed(InvalidContext) else
    match e
    case PublishFeedback => if c.state == Finishing then Failed(EventNotAllowed) else Nop
    case Complete(status) => if status == NoStatus then Failed(InvalidTerminalStatus) else CompleteGoal(c, status)
    case AcceptCancel => Decide(c, Canceling)
    case RejectCancel => Decide(c, Executing)
    case CancelRequestReceived =>
      if c.state != Executing || c.cancelPending then Nop
      else Transitioned(c.(cancelPending := true, origin := FromClient))
    case ResultSendCompleted => if c.state == Finishing then Nop else Failed(EventNotAllowed)
    case ResultSendFailed => if c.state == Finishing then Nop else Failed(EventNotAllowed)
    case RuntimeCancelRequested =>
      if c.state != Executing || c.origin == FromRuntime then Nop
      else Transitioned(c.(cancelPending := true, origin := FromRuntime))
    case _ => Nop
  }

  function Decide(c: Context, next: GoalState): Transition {
    if c.state != Executing then Failed(EventNotAllowed)
    else if !c.cancelPending || c.origin == NoOrigin then Failed(CancelDecisionNotPending)
    else Transitioned(c.(state := next, cancelPending := false, origin := NoOrigin))
  }

  function Advance(c: Context, e: Event): Context {
    var t := Transit(c, e);
    if t.Transitioned? then t.next else c
  }

  function Run(c: Context, events: seq<Event>): Context
    decreases |events|
  {
    if events == [] then c else Run(Advance(c, events[0]), events[1..])
  }

  // ----- the matrices of the design -----

  /** What the design lets an event do to a Goal: refuse it, ignore it, wait for a decision, or enter a state. */
  datatype Ruling = ApiError(error: Error) | Ignored | Await(origin: CancelOrigin) | Enter(state: GoalState)

  /** One line of a matrix: EXECUTING, CANCELING, FINISHING. */
  function Row(state: GoalState, executing: Ruling, canceling: Ruling, finishing: Ruling): Ruling {
    match state case Executing => executing case Canceling => canceling case _ => finishing
  }

  /** The event matrices of the server Goal, by the Goal's state and who waits for a cancel decision. */
  function Matrix(e: Event, state: GoalState, origin: CancelOrigin): Ruling {
    var pending := origin != NoOrigin;
    var no := ApiError(EventNotAllowed);
    match e
    case PublishFeedback => Row(state, Ignored, Ignored, no)
    case Complete(NoStatus) => ApiError(InvalidTerminalStatus)
    case Complete(Succeeded) => Row(state, Enter(Finishing), no, no)
    case Complete(Canceled) => Row(state, no, Enter(Finishing), no)
    case Complete(Aborted) => Row(state, Enter(Finishing), Enter(Finishing), no)
    case AcceptCancel => Row(state, if pending then Enter(Canceling) else ApiError(CancelDecisionNotPending), no, no)
    case RejectCancel => Row(state, if pending then Enter(Executing) else ApiError(CancelDecisionNotPending), no, no)
    case CancelRequestReceived => Row(state, if pending then Ignored else Await(FromClient), Ignored, Ignored)
    case RuntimeCancelRequested =>
      Row(state, if origin == FromRuntime then Ignored else Await(FromRuntime), Ignored, Ignored)
    case ResultSendCompleted => Row(state, no, no, Ignored)
    case ResultSendFailed => Row(state, no, no, Ignored)
    case _ => Ignored
  }

  /** The reducer is the design's matrices: what it refuses, what it ignores and where it goes. */
  lemma MeetsMatrix(c: Context, e: Event)
    requires ValidContext(c)
    ensures match Matrix(e, c.state, c.origin)
            case ApiError(error) => Transit(c, e) == Failed(error)
            case Ignored => Transit(c, e) == Nop
            case Await(origin) => Transit(c, e) == Transitioned(Context(Executing, true, origin, NoStatus))
            case Enter(state) =>
              Transit(c, e) == Transitioned(Context(state, false, NoOrigin, if e.Complete? then e.status else NoStatus))
  {
  }

  lemma InvalidIsRefused(c: Context, e: Event)
    requires !ValidContext(c)
    ensures Transit(c, e) == Failed(InvalidContext) && Advance(c, e) == c
  {
  }

  function Rank(s: GoalState): nat {
    match s case NoState => 0 case Executing => 1 case Canceling => 2 case Finishing => 3
  }

  /**
   * Safety of whole runs: a context built from the initial one is never reported invalid, the Goal
   * state only moves EXECUTING, CANCELING, FINISHING, a finished Goal is frozen, and the status
   * tells how it got there: CANCELED needs an accepted cancel on the way, SUCCEEDED forbids it.
   */
  lemma {:induction false} RunSafety(c: Context, events: seq<Event>)
    requires ValidContext(c)
    ensures var r := Run(c, events);
            && ValidContext(r)
            && Rank(c.state) <= Rank(r.state)
            && (c.state == Finishing ==> r == c)
            && (r.status == Canceled && c.state == Executing ==> AcceptCancel in events)
            && (r.status == Succeeded ==> c.state == Executing || c.status == Succeeded)
    decreases |events|
  {
    if events == [] {
    } else {
      var d := Advance(c, events[0]);
      RunSafety(d, events[1..]);
      if d.state == Canceling && c.state == Executing { assert events[0] == AcceptCancel; }
    }
  }

  /**
   * The Cancel/Result race is decided once: of two orders of completing and accepting a pending
   * cancel, the first event wins and the second is refused without changing anything.
   */
  lemma CancelResultRace(c: Context)
    requires ValidContext(c) && c.cancelPending
    ensures var done := Advance(c, Complete(Succeeded));
            done.state == Finishing && Transit(done, AcceptCancel).Failed? && Transit(done, RejectCancel).Failed?
    ensures var canceled := Advance(c, AcceptCancel);
            && canceled.state == Canceling && Transit(canceled, Complete(Succeeded)).Failed?
            && Advance(canceled, Complete(Canceled)).status == Canceled
  {
  }
}
