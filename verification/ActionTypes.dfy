/** Identities, enumerations and packets shared by every part of the Action runtime. */
module ActionTypes {

  datatype Option<+T> = None | Some(value: T)

  /** A 16-byte Goal ID read as one number; the all-zero ID is reserved as invalid. */
  type GoalId = nat

  predicate ValidGoalId(goal: GoalId) { goal != 0 }

  /** Wrap-around of a 32-bit counter. */
  const TWO_TO_32: nat := 0x1_0000_0000

  function Next32(n: nat): (r: nat)
    ensures r < TWO_TO_32
    ensures n + 1 < TWO_TO_32 ==> r == n + 1
  {
    (n + 1) % TWO_TO_32
  }

  newtype Byte = x: int | 0 <= x < 256

  /** Opaque application bytes carried behind an Action header. */
  type Payload = seq<Byte>

  /**
   * An encoded packet handed over by the application, seen through the two checks the runtime
   * makes on it: `capacityOk` is the layout and heap-limit check, `headerFits` says that the
   * common header fits in front of the heap.  Module Packet defines both on bytes.
   */
  datatype AppPdu = EmptyPdu | AppPdu(capacityOk: bool, headerFits: bool, body: Payload)
  {
    predicate Valid() { AppPdu? && capacityOk }
    predicate Sendable() { Valid() && headerFits }
  }

  datatype Decision = NoDecision | Accepted | Rejected

  datatype TerminalStatus = NoStatus | Succeeded | Canceled | Aborted

  datatype GoalState = NoState | Executing | Canceling | Finishing

  /** The rule shared by both state machines and both endpoints. */
  predicate StatusAllowed(canceling: bool, status: TerminalStatus) {
    if canceling then status == Canceled || status == Aborted else status == Succeeded || status == Aborted
  }

  const PROTOCOL_VERSION: nat := 1
  const REQUEST_KIND_GOAL: nat := 1
  const REQUEST_KIND_CANCEL: nat := 2

  /** A request as it leaves the receive callback: `layoutOk` is the exact-size and header check. */
  datatype RequestPacket =
    RequestPacket(slot: nat, layoutOk: bool, version: nat, kind: nat, goal: GoalId, body: Payload)
  {
    predicate WellFormed() {
      && layoutOk
      && version == PROTOCOL_VERSION
      && (kind == REQUEST_KIND_GOAL || kind == REQUEST_KIND_CANCEL)
      && ValidGoalId(goal)
    }
  }

  /** What a server puts on the wire; `Garbage` is any packet the client cannot decode. */
  datatype ServerPacket =
    | GoalResponse(slot: nat, goal: GoalId, decision: Decision)
    | CancelResponse(slot: nat, goal: GoalId, decision: Decision)
    | Result(slot: nat, goal: GoalId, status: TerminalStatus, body: Payload)
    | Feedback(slot: nat, goal: GoalId, seqNo: nat, body: Payload)
    | Garbage(slot: nat, goal: GoalId)
}
