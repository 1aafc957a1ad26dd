/**
 * The meeting room component: one participant's side of the signaling state
 * machine. Each inbound hub event, each peer-connection callback, each timer
 * tick and each button press is one atomic method on a `Room`; outbound hub
 * calls are appended to `outbox`, and the browser's peer connection is the
 * record `peer`.
 */
module MeetingRoom {
  import opened Wrappers
  import opened Protocol
  import opened RoomLists

  /**
   * The browser peer connection, reduced to the signaling calls made on it:
   * the last arguments of `setLocalDescription` and `setRemoteDescription`,
   * and every argument of `addIceCandidate`, in order. Whether the browser
   * accepts each call is not recorded.
   */
  datatype PeerState = PeerState(
    localDescription: Option<Signal>,
    remoteDescription: Option<Signal>,
    candidates: seq<Candidate>)

  /** A newly constructed peer connection: no descriptions, no remote candidates. */
  const FreshPeer := PeerState(None, None, [])

  /** The guard shared by `sendJoinRequest` and the effect that schedules it. */
  predicate MayRequestJoin(hasConnection: bool, role: Role, isAccepted: bool)
  {
    hasConnection && role == Student && !isAccepted
  }

  class Room {
    /** The room id from the route, the generated user id, and the raw `role` parameter. */
    const roomId: string
    const userId: string
    const roleParam: Option<string>
    const role: Role

    /** `connection` is non-null: the mount effect has built the hub connection. */
    var hasConnection: bool
    var isAccepted: bool
    var pendingUsers: seq<string>
    var messages: seq<string>
    /** `peerConnection.current`, None until the peer is initialized. */
    var peer: Option<PeerState>
    /** Every `invoke` issued on the hub connection, oldest first. */
    var outbox: seq<Invocation>
    /** The join-request interval is registered and not yet cleared. */
    var retryTimer: bool
    /** The dependencies `[connection, isAccepted]` the retry effect last ran with. */
    var effectDeps: Option<(bool, bool)>

    ghost predicate Valid()
      reads this
    {
      (role == Teacher ==> isAccepted) &&
      NoDuplicates(pendingUsers) &&
      (role != Teacher ==> pendingUsers == []) &&
      OutboxRespectsRole(role, roomId, userId, outbox) &&
      (!hasConnection ==> pendingUsers == [] && messages == [] && peer.None? && outbox == []) &&
      (effectDeps.Some? && effectDeps.value.0 ==> hasConnection) &&
      (retryTimer <==> role == Student && effectDeps == Some((true, false)))
    }

    /** The first render: `isAccepted` starts true exactly for a teacher. */
    constructor (roomId: string, userId: string, roleParam: Option<string>)
      ensures Valid()
      ensures this.roomId == roomId && this.userId == userId && this.roleParam == roleParam
      ensures role == ParseRole(roleParam)
      ensures isAccepted <==> roleParam == Some("teacher")
      ensures !hasConnection && pendingUsers == [] && messages == [] && peer.None? && outbox == []
      ensures !retryTimer && effectDeps.None?
    {
      this.roomId := roomId;
      this.userId := userId;
      this.roleParam := roleParam;
      role := ParseRole(roleParam);
      hasConnection := false;
      isAccepted := ParseRole(roleParam) == Teacher;
      pendingUsers := [];
      messages := [];
      peer := None;
      outbox := [];
      retryTimer := false;
      effectDeps := None;
    }

    /** The mount effect builds the hub connection, registers the handlers and stores it. */
    method Connect()
      requires Valid()
      modifies this`hasConnection
      ensures Valid() && hasConnection
    {
      hasConnection := true;
    }

    /**
     * The connection has started: announce presence and await it, then create
     * the peer connection. `joined` is whether the awaited `JoinRoom` call
     * succeeded; when it rejects, the rest of the callback never runs and the
     * room is left without a peer connection.
     */
    method OnStarted(joined: bool)
      requires Valid() && hasConnection
      modifies this`outbox, this`peer
      ensures Valid()
      ensures outbox == old(outbox) + [JoinRoom(roomId, userId, roleParam)]
      ensures peer == if joined then Some(FreshPeer) else old(peer)
    {
      OutboxAppend(role, roomId, userId, outbox, JoinRoom(roomId, userId, roleParam));
      outbox := outbox + [JoinRoom(roomId, userId, roleParam)];
      if joined {
        peer := Some(FreshPeer);
      }
    }

    /** Inbound `ReceiveMessage(u, m)`: the line `u: m` goes after all earlier ones. */
    method ReceiveMessage(u: string, m: string)
      requires Valid() && hasConnection
      modifies this`messages
      ensures Valid()
      ensures messages == old(messages) + [FormatMessage(u, m)]
    {
      messages := AppendMessage(messages, u, m);
    }

    /**
     * Inbound `JoinRequestReceived(id)`: a teacher lists the id once, after every
     * id listed before; anyone else ignores it.
     */
    method JoinRequestReceived(id: string)
      requires Valid() && hasConnection
      modifies this`pendingUsers
      ensures Valid()
      ensures role == Teacher ==> id in pendingUsers
      ensures role == Teacher ==>
        pendingUsers == if id in old(pendingUsers) then old(pendingUsers) else old(pendingUsers) + [id]
      ensures role != Teacher ==> pendingUsers == old(pendingUsers)
    {
      if role == Teacher {
        AddPendingAppendsIfAbsent(pendingUsers, id);
        pendingUsers := AddPending(pendingUsers, id);
      }
    }

    /**
     * Inbound `UserAccepted(id)`: the participant named `id` becomes admitted;
     * a teacher, on every such event, sets a new offer (whose SDP text the
     * browser generates: `offerSdp`) as its local description and sends it.
     * Without a peer connection the teacher's `createOffer` call throws and
     * nothing after it happens.
     */
    method UserAccepted(id: string, offerSdp: string)
      requires Valid() && hasConnection
      modifies this`isAccepted, this`peer, this`outbox
      ensures Valid()
      ensures isAccepted == (old(isAccepted) || id == userId)
      ensures role == Teacher && old(peer).Some? ==>
        peer == Some(old(peer).value.(localDescription := Some(OfferSignal(offerSdp)))) &&
        outbox == old(outbox) + [SendSignal(roomId, userId, OfferSignal(offerSdp))]
      ensures !(role == Teacher && old(peer).Some?) ==> peer == old(peer) && outbox == old(outbox)
    {
      if id == userId {
        isAccepted := true;
      }
      if role == Teacher && peer.Some? {
        var offer := OfferSignal(offerSdp);
        peer := Some(peer.value.(localDescription := Some(offer)));
        OutboxAppend(role, roomId, userId, outbox, SendSignal(roomId, userId, offer));
        outbox := outbox + [SendSignal(roomId, userId, offer)];
      }
    }

    /** A student answers an offer. */
    predicate AnswersOffer(signal: Signal)
    {
      signal.kind == OfferType && role == Student
    }

    /** A teacher applies an answer. */
    predicate AppliesAnswer(signal: Signal)
    {
      signal.kind == AnswerType && role == Teacher
    }

    /**
     * Inbound `ReceiveSignal(sender, signal)`. A student takes an offer as its
     * remote description, sets an answer (SDP text `answerSdp`) as its local
     * one and sends it; a teacher takes an answer as its remote description;
     * any other role and type leaves both descriptions alone. Separately, a
     * `candidate` field is added to the peer, whatever the role or type. Without
     * a peer connection the first call on it throws and nothing changes.
     */
    method ReceiveSignal(sender: string, signal: Signal, answerSdp: string)
      requires Valid() && hasConnection
      modifies this`peer, this`outbox
      ensures Valid()
      ensures old(peer).None? ==> peer == old(peer) && outbox == old(outbox)
      ensures old(peer).Some? ==>
        peer.Some? &&
        peer.value.candidates == old(peer).value.candidates +
          (if signal.candidate.Some? then [signal.candidate.value] else [])
      ensures old(peer).Some? && AnswersOffer(signal) ==>
        peer.value.remoteDescription == Some(signal) &&
        peer.value.localDescription == Some(AnswerSignal(answerSdp)) &&
        outbox == old(outbox) + [SendSignal(roomId, userId, AnswerSignal(answerSdp))]
      ensures old(peer).Some? && AppliesAnswer(signal) ==>
        peer.value.remoteDescription == Some(signal) &&
        peer.value.localDescription == old(peer).value.localDescription &&
        outbox == old(outbox)
      ensures old(peer).Some? && !AnswersOffer(signal) && !AppliesAnswer(signal) ==>
        peer.value.remoteDescription == old(peer).value.remoteDescription &&
        peer.value.localDescription == old(peer).value.localDescription &&
        outbox == old(outbox)
    {
      if peer.Some? {
        var pc := peer.value;
        if AnswersOffer(signal) {
          var answer := AnswerSignal(answerSdp);
          pc := pc.(remoteDescription := Some(signal), localDescription := Some(answer));
          OutboxAppend(role, roomId, userId, outbox, SendSignal(roomId, userId, answer));
          outbox := outbox + [SendSignal(roomId, userId, answer)];
        }
        if AppliesAnswer(signal) {
          pc := pc.(remoteDescription := Some(signal));
        }
        if signal.candidate.Some? {
          pc := pc.(candidates := pc.candidates + [signal.candidate.value]);
        }
        peer := Some(pc);
      }
    }

    /** The peer's `onicecandidate` callback: a non-null candidate is sent to the room. */
    method OnIceCandidate(candidate: Option<Candidate>)
      requires Valid() && peer.Some?
      modifies this`outbox
      ensures Valid()
      ensures outbox == old(outbox) +
        (if candidate.Some? then [SendSignal(roomId, userId, CandidateSignal(candidate.value))] else [])
    {
      if candidate.Some? {
        var inv := SendSignal(roomId, userId, CandidateSignal(candidate.value));
        OutboxAppend(role, roomId, userId, outbox, inv);
        outbox := outbox + [inv];
      }
    }

    /** `sendJoinRequest` as called with the current state. */
    method SendJoinRequest()
      requires Valid()
      modifies this`outbox
      ensures Valid()
      ensures outbox == old(outbox) +
        (if MayRequestJoin(hasConnection, role, isAccepted) then [RequestToJoin(roomId, userId)] else [])
    {
      if MayRequestJoin(hasConnection, role, isAccepted) {
        OutboxAppend(role, roomId, userId, outbox, RequestToJoin(roomId, userId));
        outbox := outbox + [RequestToJoin(roomId, userId)];
      }
    }

    /**
     * The retry effect, run after a render. When `[connection, isAccepted]`
     * differ from the previous run, the old interval is cleared and, if a join
     * request is allowed, one is sent at once and a new interval registered.
     * Either way the interval afterwards is live exactly when a request is
     * allowed.
     */
    method RunRetryEffect()
      requires Valid()
      modifies this`outbox, this`retryTimer, this`effectDeps
      ensures Valid()
      ensures effectDeps == Some((hasConnection, isAccepted))
      ensures retryTimer == MayRequestJoin(hasConnection, role, isAccepted)
      ensures old(effectDeps) == Some((hasConnection, isAccepted)) ==> outbox == old(outbox)
      ensures old(effectDeps) != Some((hasConnection, isAccepted)) ==>
        outbox == old(outbox) +
          (if MayRequestJoin(hasConnection, role, isAccepted) then [RequestToJoin(roomId, userId)] else [])
    {
      if effectDeps != Some((hasConnection, isAccepted)) {
        // Clearing the previous interval does not touch the outbox, so the
        // request is sent first and both timer fields are set together.
        var allowed := MayRequestJoin(hasConnection, role, isAccepted);
        if allowed {
          SendJoinRequest();
        }
        retryTimer, effectDeps := allowed, Some((hasConnection, isAccepted));
      }
    }

    /**
     * One firing of the interval. Its callback is the `sendJoinRequest` of the
     * render that registered it, whose guard held then, so a live interval
     * always sends, even after an admission that the effect has not yet seen.
     */
    method RetryTick()
      requires Valid()
      modifies this`outbox
      ensures Valid()
      ensures retryTimer ==> role == Student && hasConnection
      ensures outbox == old(outbox) + (if retryTimer then [RequestToJoin(roomId, userId)] else [])
    {
      if retryTimer {
        OutboxAppend(role, roomId, userId, outbox, RequestToJoin(roomId, userId));
        outbox := outbox + [RequestToJoin(roomId, userId)];
      }
    }

    /** The teacher's "Accept" button for a listed id; the id stays listed. */
    method AcceptUser(id: string)
      requires Valid() && role == Teacher && id in pendingUsers
      modifies this`outbox
      ensures Valid()
      ensures outbox == old(outbox) + [Invocation.AcceptUser(roomId, id)]
    {
      OutboxAppend(role, roomId, userId, outbox, Invocation.AcceptUser(roomId, id));
      outbox := outbox + [Invocation.AcceptUser(roomId, id)];
    }

    /** The "Send" button; before the connection exists the call throws and sends nothing. */
    method SendChatMessage(text: string)
      requires Valid()
      modifies this`outbox
      ensures Valid()
      ensures outbox == old(outbox) + (if hasConnection then [SendMessage(roomId, userId, text)] else [])
    {
      if hasConnection {
        OutboxAppend(role, roomId, userId, outbox, SendMessage(roomId, userId, text));
        outbox := outbox + [SendMessage(roomId, userId, text)];
      }
    }
  }

  /**
   * A teacher receiving the same join request twice lists the student once,
   * and admitting the student leaves the list as it was.
   */
  method RepeatedJoinRequests(roomId: string, teacherId: string, studentId: string)
  {
    var teacher := new Room(roomId, teacherId, Some("teacher"));
    teacher.Connect();
    teacher.JoinRequestReceived(studentId);
    teacher.JoinRequestReceived(studentId);
    assert teacher.pendingUsers == [studentId];
    teacher.AcceptUser(studentId);
    assert teacher.outbox == [Invocation.AcceptUser(roomId, studentId)];
    assert teacher.pendingUsers == [studentId];
  }

  /**
   * A student keeps asking to join until the retry effect has seen its
   * admission: a tick between the admission and that effect run still sends a
   * request, and none is sent afterwards.
   */
  method RetryStopsAfterAdmission(roomId: string, studentId: string)
  {
    var student := new Room(roomId, studentId, Some("student"));
    student.RunRetryEffect();
    assert student.outbox == [] && !student.retryTimer;
    student.Connect();
    student.RunRetryEffect();
    student.RetryTick();
    var request := RequestToJoin(roomId, studentId);
    assert student.outbox == [request, request];
    student.UserAccepted(studentId, "");
    assert student.isAccepted;
    student.RetryTick();
    assert student.outbox == [request, request, request];
    student.RunRetryEffect();
    student.RetryTick();
    student.SendJoinRequest();
    assert student.outbox == [request, request, request];
  }

  /**
   * Offer and answer between a started teacher and a started student, with
   * the hub's relaying done by hand: after the exchange each side's local
   * description is the other side's remote one.
   */
  method OfferAnswerExchange(roomId: string, teacherId: string, studentId: string,
                             offerSdp: string, answerSdp: string)
  {
    var teacher := new Room(roomId, teacherId, Some("teacher"));
    var student := new Room(roomId, studentId, Some("student"));
    teacher.Connect();
    teacher.OnStarted(true);
    student.Connect();
    student.OnStarted(true);

    teacher.UserAccepted(studentId, offerSdp);
    var offer := OfferSignal(offerSdp);
    assert teacher.outbox[|teacher.outbox| - 1] == SendSignal(roomId, teacherId, offer);

    student.UserAccepted(studentId, offerSdp);
    student.ReceiveSignal(teacherId, offer, answerSdp);
    var answer := AnswerSignal(answerSdp);
    assert student.outbox[|student.outbox| - 1] == SendSignal(roomId, studentId, answer);

    teacher.ReceiveSignal(studentId, answer, answerSdp);
    assert teacher.peer == Some(PeerState(Some(offer), Some(answer), []));
    assert student.peer == Some(PeerState(Some(answer), Some(offer), []));
  }
}
