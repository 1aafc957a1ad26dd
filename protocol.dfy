/**
 * The values exchanged between a meeting room and the signaling hub:
 * the participant role, the signal payloads relayed between the two peers,
 * and the outbound hub invocations.
 */
module Protocol {
  import opened Wrappers

  /** The `role` query parameter, read once when the room is opened. */
  datatype Role = Teacher | Student | Neither

  /** Interprets the `role` search parameter (`null` when absent), comparing it with `===`. */
  function ParseRole(param: Option<string>): (r: Role)
    ensures r == Teacher <==> param == Some("teacher")
    ensures r == Student <==> param == Some("student")
  {
    if param == Some("teacher") then Teacher
    else if param == Some("student") then Student
    else Neither
  }

  /** An opaque ICE candidate as surfaced by the browser's peer connection. */
  datatype Candidate = Candidate(descriptor: string)

  /**
   * A signal payload: a session description (`type`, `sdp`) and/or a `candidate`.
   * A missing `type` or `sdp` field is written as the empty string; the room only
   * ever compares `type` with "offer" and "answer", so the two behave alike.
   */
  datatype Signal = Signal(kind: string, sdp: string, candidate: Option<Candidate>)

  const OfferType := "offer"
  const AnswerType := "answer"

  /** The description returned by `createOffer`. */
  function OfferSignal(sdp: string): (s: Signal)
  {
    Signal(OfferType, sdp, None)
  }

  /** The description returned by `createAnswer`. */
  function AnswerSignal(sdp: string): (s: Signal)
  {
    Signal(AnswerType, sdp, None)
  }

  /**
   * The `{ candidate }` payload sent for a locally discovered ICE candidate; it
   * has no `type`, so a receiver never treats it as an offer or an answer.
   */
  function CandidateSignal(c: Candidate): (s: Signal)
    ensures s.kind != OfferType && s.kind != AnswerType && s.candidate == Some(c)
  {
    Signal("", "", Some(c))
  }

  /** One outbound `invoke` call on the hub connection, with its arguments. */
  datatype Invocation =
    | JoinRoom(roomId: string, userId: string, role: Option<string>)
    | RequestToJoin(roomId: string, userId: string)
    | AcceptUser(roomId: string, userId: string)
    | SendSignal(roomId: string, userId: string, payload: Signal)
    | SendMessage(roomId: string, userId: string, text: string)

  /**
   * The invocations a participant of role `role` may legitimately issue in room
   * `roomId` as `userId`: only the teacher admits users and sends offers, only a
   * student asks to join and sends answers, and every relayed signal or chat
   * message carries the sender's own room and id.
   */
  predicate MayIssue(role: Role, roomId: string, userId: string, inv: Invocation)
  {
    match inv
    case JoinRoom(r, u, _) => r == roomId && u == userId
    case RequestToJoin(r, u) => r == roomId && u == userId && role == Student
    case AcceptUser(r, _) => r == roomId && role == Teacher
    case SendSignal(r, u, p) =>
      r == roomId && u == userId &&
      (p.kind == OfferType ==> role == Teacher) &&
      (p.kind == AnswerType ==> role == Student)
    case SendMessage(r, u, _) => r == roomId && u == userId
  }

  /** Every invocation in `outbox` is one the participant may issue. */
  ghost predicate OutboxRespectsRole(role: Role, roomId: string, userId: string, outbox: seq<Invocation>)
  {
    forall i :: 0 <= i < |outbox| ==> MayIssue(role, roomId, userId, outbox[i])
  }

  /** Appending an allowed invocation keeps the outbox well-formed. */
  lemma OutboxAppend(role: Role, roomId: string, userId: string, outbox: seq<Invocation>, inv: Invocation)
    requires OutboxRespectsRole(role, roomId, userId, outbox)
    requires MayIssue(role, roomId, userId, inv)
    ensures OutboxRespectsRole(role, roomId, userId, outbox + [inv])
  {
  }
}
