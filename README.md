# Meeting-room signaling, modelled in Dafny

This project models the signaling state machine of the `MeetingRoom`
component of a browser video-classroom client. A teacher opens a room. A
student opens the shared link and asks to join again and again until the
teacher admits it. The two then exchange a WebRTC offer, an answer and ICE
candidates through a SignalR hub, and chat messages travel along the same hub.

The component is modelled as a class `MeetingRoom.Room`:

- Each inbound hub event is one atomic method: `ReceiveMessage`,
  `JoinRequestReceived`, `UserAccepted` and `ReceiveSignal`.
- So is each local callback or UI action: the peer's `onicecandidate`,
  `sendJoinRequest`, the retry effect, one tick of its interval, the
  teacher's "Accept" button and the chat "Send" button.
- Component state is class fields: `isAccepted`, `pendingUsers`, `messages`
  and whether `connection` is set.
- The browser peer connection is a record (`PeerState`) of the signaling
  calls made on it: the last description passed to `setLocalDescription`,
  the last one passed to `setRemoteDescription`, and every candidate passed
  to `addIceCandidate`, in order. It does not record whether the browser
  accepted each call. It is absent until the peer is initialized.
- Every `invoke` on the hub is appended to `outbox`.
- The two list updates that React applies to the previous state are pure
  functions in `RoomLists`:
  - `[...new Set([...p, id])]` is `AddPending`, built on `Dedup`;
  - `[...p, msg]` is `AppendMessage`.
- The invitation link and its parsing by the router are in `ShareLink`.

Files:

- `wrappers.dfy`: `Option`.
- `strings.dfy`: `IndexOf` and `StartsWith`.
- `protocol.dfy`: roles, signal payloads and hub invocations. It also
  defines the role discipline that every outbox keeps (`MayIssue`).
- `room_lists.dfy`: the pending list and the chat transcript.
- `share_link.dfy`: the student invitation link.
- `meeting_room.dfy`: the `Room` class and three client methods.

`Room.Valid()` is the object invariant that every method keeps:

- a teacher is always admitted;
- the pending list never repeats an id, and stays empty for non-teachers;
- the retry interval is live exactly when the retry effect last ran with a
  connection and without admission, on a student;
- every outbox entry respects the sender's role. Only a teacher sends
  offers and `AcceptUser`, and only a student sends answers and
  `RequestToJoin`. Every signal and chat message carries the room's id and
  the sender's own id.

The client methods use only the contracts of the handlers:

- `RepeatedJoinRequests`: the same id requested twice is listed once, and
  accepting it does not remove it.
- `RetryStopsAfterAdmission`: the interval callback is the
  `sendJoinRequest` closure of the render that registered it. A tick
  between an admission and the next run of the retry effect therefore
  still sends a request. No request follows once the effect has seen the
  admission.
- `OfferAnswerExchange`: after the hand-relayed offer and answer, each
  side's local description is the other side's remote description.

The code has none of the following safeguards, and the model adds none:

- A student answers any offer, whether or not it is admitted.
- A teacher passes every answer to `setRemoteDescription`, with no
  one-shot guard.
- Every `UserAccepted` event makes a teacher create and send a new offer.
- Remote candidates are passed to `addIceCandidate` as they arrive. There
  is no buffering until the remote description is set.
- Accepting a user only invokes `AcceptUser`. The id stays in
  `pendingUsers`.

## Model

| member | source | states |
|---|---|---|
| Protocol.ParseRole | src/pages/MeetingRoom.jsx:8 | the parsed role is teacher exactly when the `role` parameter is "teacher", and student exactly when it is "student" |
| Protocol.CandidateSignal | src/pages/MeetingRoom.jsx:127 | a `{ candidate }` payload carries the candidate and has no offer or answer type |
| RoomLists.Dedup | src/pages/MeetingRoom.jsx:53 | spreading a `Set` built from a list never lengthens it and introduces no new element |
| RoomLists.DedupKeepsMembers | src/pages/MeetingRoom.jsx:53 | every element of the list survives the `Set` round trip |
| RoomLists.DedupHasNoDuplicates | src/pages/MeetingRoom.jsx:53 | the `Set` round trip leaves no element twice |
| RoomLists.DedupOfDistinct | src/pages/MeetingRoom.jsx:53 | a list without repetitions comes back unchanged, in the same order |
| RoomLists.AddPending | src/pages/MeetingRoom.jsx:53 | the updated pending list has no duplicates and holds the new id and exactly the earlier ids |
| RoomLists.AddPendingAppendsIfAbsent | src/pages/MeetingRoom.jsx:51-55 | on a duplicate-free list, the update keeps every earlier entry in place and appends the id only when it is new |
| RoomLists.AddPendingIdempotent | src/pages/MeetingRoom.jsx:53 | receiving the same id twice gives the same list as receiving it once |
| RoomLists.PendingAfterIsDedup | src/pages/MeetingRoom.jsx:51-55 | after any sequence of join requests the list is the request history in first-request order, without repeats |
| RoomLists.RequestsListedOnce | src/pages/MeetingRoom.jsx:51-55 | starting empty, every requesting id is listed exactly once, nothing else is listed, and there are no more entries than requests |
| RoomLists.AppendMessage | src/pages/MeetingRoom.jsx:47-49 | the transcript grows by one line, `${u}: ${m}`, after all earlier lines, which are unchanged |
| RoomLists.FormatMessageSplits | src/pages/MeetingRoom.jsx:48 | for a sender id without a colon, the sender and the text can both be read back from the displayed line |
| RoomLists.TranscriptInArrivalOrder | src/pages/MeetingRoom.jsx:47-49 | after a sequence of messages the transcript is the earlier lines followed by one formatted line per message, in arrival order, duplicates kept |
| ShareLink.ParseRoomLink | src/App.jsx:16 | a link the router accepts starts with the origin and names a non-empty room id of one path segment; a role value read from it holds no `#` fragment |
| ShareLink.RoleLinkRoundTrip | src/App.jsx:16 | a link `${origin}/meeting/${roomId}?role=${value}` parses back to the same room id and role value, for a segment-safe room id and a value without `#` |
| ShareLink.StudentLink | src/pages/MeetingRoom.jsx:198-199 | opening the copied link `${origin}/meeting/${roomId}?role=student` yields the same room id and the role "student" |
| MeetingRoom.Room.constructor | src/pages/MeetingRoom.jsx:19-24 | the room starts with no connection, no peer, empty lists and outbox, and `isAccepted` true exactly for a teacher |
| MeetingRoom.Room.Connect | src/pages/MeetingRoom.jsx:34-85 | the mount effect builds the connection (lines 34-38), registers the handlers and sets `connection` (line 85), and nothing else changes |
| MeetingRoom.Room.OnStarted | src/pages/MeetingRoom.jsx:40-45 | once the connection has started, `JoinRoom(roomId, userId, role)` is invoked; a fresh peer connection is installed only when that awaited call succeeds, and otherwise the peer is left as it was (none, since the connection starts once) |
| MeetingRoom.Room.ReceiveMessage | src/pages/MeetingRoom.jsx:47-49 | the transcript becomes the old one plus `${u}: ${m}`, and nothing else changes |
| MeetingRoom.Room.JoinRequestReceived | src/pages/MeetingRoom.jsx:51-55 | a teacher lists the id, keeps every earlier entry in order and appends only a new id; any other role leaves the list unchanged |
| MeetingRoom.Room.UserAccepted | src/pages/MeetingRoom.jsx:57-64 | `isAccepted` becomes true only when the id is the user's own and never becomes false; a teacher with a peer sets the offer as its local description and appends exactly one `SendSignal` carrying it; otherwise the peer and the outbox are unchanged |
| MeetingRoom.Room.ReceiveSignal | src/pages/MeetingRoom.jsx:66-83 | a student receiving an offer passes it to `setRemoteDescription`, passes an answer to `setLocalDescription` and sends exactly that answer; a teacher receiving an answer only passes it to `setRemoteDescription`; any other role/type pair leaves both recorded descriptions and the outbox unchanged; a `candidate` field is passed to `addIceCandidate` and recorded whatever the role or type |
| MeetingRoom.Room.OnIceCandidate | src/pages/MeetingRoom.jsx:125-129 | a non-null local candidate is sent as `SendSignal(roomId, userId, {candidate})`; a null one sends nothing |
| MeetingRoom.Room.SendJoinRequest | src/pages/MeetingRoom.jsx:91-100 | `RequestToJoin(roomId, userId)` is appended exactly when a connection exists, the role is student and the user is not admitted; otherwise nothing is sent |
| MeetingRoom.Room.RunRetryEffect | src/pages/MeetingRoom.jsx:102-108 | when its dependencies have changed, the effect sends one request and leaves the interval live exactly when a request is allowed; either way the interval is live afterwards exactly when a request is allowed |
| MeetingRoom.Room.RetryTick | src/pages/MeetingRoom.jsx:105 | a live interval sends one `RequestToJoin` and only lives on a connected student; a cleared one sends nothing |
| MeetingRoom.Room.AcceptUser | src/pages/MeetingRoom.jsx:214-218 | the teacher's Accept button for a listed id invokes `AcceptUser(roomId, id)` and leaves the pending list unchanged |
| MeetingRoom.Room.SendChatMessage | src/pages/MeetingRoom.jsx:245 | `SendMessage(roomId, userId, text)` is invoked when a connection exists; otherwise nothing is sent |

## Left out

- Hub construction, `start`/`stop`, the hub URL and automatic reconnection
  are network plumbing inside the SignalR library
  (src/pages/MeetingRoom.jsx:35-45, 86; src/services/signalr.js:3-6). For
  the same reason, `invoke` is modelled as appending to the outbox. A
  failed call that is not awaited, or is caught and logged as in
  `sendJoinRequest`, changes no state. The one awaited call, `JoinRoom`,
  is modelled by the `joined` outcome of `OnStarted`.
- The hub itself is outside the repository. Relaying one room's outbox to
  the other room's handlers is done by hand in the client methods.
- `RTCPeerConnection` internals, the ICE server list and `ontrack` are
  foreign browser APIs. The SDP text that `createOffer`/`createAnswer` produce is a
  parameter of the handler.
- These are device I/O and do not touch signaling state:
  - `startTeacherMedia` with its `addTrack` calls;
  - mute and camera toggles;
  - screen-share `replaceTrack`;
  - `MediaRecorder` and the Blob download (src/pages/MeetingRoom.jsx:136-194).
- The real-time 3000 ms period of the interval, and React's scheduling of
  renders and effects, are outside the model. A tick is an abstract event.
  The effect re-run is a method that the environment calls after a render.
- Interleavings at `await` points inside the async handlers are not
  modelled. Each handler is one atomic step.
- The random `userId` (src/pages/MeetingRoom.jsx:30) and the room id from
  the route are constructor parameters.
- The clipboard write and the `alert` in `shareLink`, rendering, and the
  message input box are not modelled.
- Signal payload fields: a missing `type` or `sdp` field is represented by
  the empty string. Both are only ever compared with "offer" and "answer",
  so they behave alike.
- ShareLink.ParseRoomLink: reads the query only in the single-parameter form
  `?role=<value>`, does not percent-decode, and matches the `/meeting/`
  prefix case-sensitively where the router ignores case. It does cut off a
  `#` fragment and tolerate one trailing `/`, as the router does. The round
  trip is stated for room ids without `/`, `?`, `#` or `%`, such as the
  UUIDs rooms are created with.
- MeetingRoom.Room.ReceiveSignal: states the calls the handler makes on the
  peer connection, not the browser's signaling-state checks. A real peer
  rejects `addIceCandidate` with an InvalidStateError while it has no
  remote description. It also rejects `setRemoteDescription` of an answer
  unless it is waiting for one, for example after a first answer was
  applied. So an early candidate or a second answer is dropped by the
  browser, and the rejection ends the handler.
- The routing in src/App.jsx beyond the meeting route, and the pages
  Login, Dashboard, CreateMeeting, ChatBox and VideoPlayer, are UI only and
  are not part of this model.
