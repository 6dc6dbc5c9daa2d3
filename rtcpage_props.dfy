/**
 * What `RoomConnection` promises: the handshake (one join request per uuid),
 * the order in which messages are classified, that every error tears the
 * socket down, and that handlers stay attached to the current socket only.
 */
module RtcPageProperties {
  import opened Wrappers
  import opened Json
  import opened RtcPageSpec

  // ---------------------------------------------------------------------------
  // Handlers follow the socket

  lemma ValidInitial()
    ensures Valid(Initial) && Initial.ws.None? && Initial.wsUuid == Null
  {
  }

  /** `_cleanupWebSocket` detaches everything, and a second call changes nothing. */
  lemma CleanupIdempotent(c: Client)
    requires Valid(c)
    ensures Cleanup(c).attached == {} && Valid(Cleanup(c))
    ensures Cleanup(Cleanup(c)) == Cleanup(c)
  {
  }

  /** Every action keeps the handlers attached to the current socket and no other. */
  lemma ValidApply(c: Client, a: Action)
    requires Valid(c)
    ensures Valid(Apply(c, a))
  {
    match a
    case OpenCall(room, name, created) =>
    case SocketEvent(h, ev) =>
      if h in c.attached {
        match ev
        case Received(Parsed(Obj(obj))) =>
          if "uuid" in obj && c.wsUuid == Null {
            assert c.ws.Some?;
          }
        case _ =>
      }
  }

  lemma {:induction false} ValidRun(c: Client, actions: seq<Action>)
    requires Valid(c)
    ensures Valid(Run(c, actions))
    decreases |actions|
  {
    if actions != [] {
      ValidApply(c, actions[0]);
      ValidRun(Apply(c, actions[0]), actions[1..]);
    }
  }

  /** Events from a socket that is not the current one reach nothing. */
  lemma StaleSocketIgnored(c: Client, h: Socket, ev: Event)
    requires Valid(c) && c.ws != Some(h)
    ensures OnSocketEvent(c, h, ev) == c
  {
  }

  // ---------------------------------------------------------------------------
  // The handshake

  /**
   * The first `uuid` message records the uuid and sends exactly one join
   * request, `{roomid, displayname}` with the values `open` recorded, on the
   * current socket; no hook is invoked.
   */
  lemma FirstUuidSendsJoin(c: Client, h: Socket, obj: Object)
    requires Valid(c) && c.ws == Some(h) && c.wsUuid == Null && "uuid" in obj
    ensures var t := OnSocketEvent(c, h, Received(Parsed(Obj(obj))));
      && t.wsUuid == obj["uuid"]
      && t.sent == c.sent + [Outgoing(h, JoinRequest(c.roomId, c.name))]
      && t.ws == c.ws && t.attached == c.attached
      && t.callbacks == c.callbacks
  {
  }

  /**
   * A `uuid` message once the uuid is set is fatal: the uuid is kept, the
   * socket is dropped with its handlers, nothing is sent and `onFatalError`
   * is invoked.
   */
  lemma SecondUuidFatal(c: Client, h: Socket, obj: Object)
    requires Valid(c) && c.ws == Some(h) && c.wsUuid != Null && "uuid" in obj
    ensures var t := OnSocketEvent(c, h, Received(Parsed(Obj(obj))));
      && t.wsUuid == c.wsUuid
      && t.ws.None? && t.attached == {}
      && t.sent == c.sent
      && t.callbacks == c.callbacks + [FatalError(UuidAlreadySet)]
  {
  }

  /** Whatever happens, a set uuid stays as it is. */
  lemma ApplyKeepsUuid(c: Client, a: Action)
    requires c.wsUuid != Null
    ensures Apply(c, a).wsUuid == c.wsUuid && Apply(c, a).sent == c.sent
  {
    match a
    case OpenCall(room, name, created) =>
    case SocketEvent(h, ev) =>
      if h in c.attached {
        match ev
        case Received(Parsed(Obj(obj))) =>
          if "uuid" !in obj {
            assert OnWsMessage(c, Parsed(Obj(obj))).wsUuid == c.wsUuid;
          }
        case _ =>
      }
  }

  /**
   * `wsUuid` is set at most once: once it holds a uuid, no run of calls and
   * events changes it, and nothing further is sent, so a connection sends
   * at most one join request per uuid it is given.
   */
  lemma {:induction false} UuidSetOnce(c: Client, actions: seq<Action>)
    requires c.wsUuid != Null
    ensures Run(c, actions).wsUuid == c.wsUuid
    ensures Run(c, actions).sent == c.sent
    decreases |actions|
  {
    if actions != [] {
      ApplyKeepsUuid(c, actions[0]);
      UuidSetOnce(Apply(c, actions[0]), actions[1..]);
    }
  }

  /** The only thing a connection ever sends is the join request, and only while it has no uuid. */
  lemma OnlyJoinRequestsSent(c: Client, a: Action)
    ensures var t := Apply(c, a);
      t.sent != c.sent ==>
        && c.wsUuid == Null && c.ws.Some?
        && t.sent == c.sent + [Outgoing(c.ws.value, JoinRequest(c.roomId, c.name))]
  {
    match a
    case OpenCall(room, name, created) =>
    case SocketEvent(h, ev) =>
      if h in c.attached {
        match ev
        case Received(Parsed(Obj(obj))) =>
          if "uuid" in obj && c.wsUuid == Null && c.ws.None? {
            assert Apply(c, a).sent == c.sent;
          }
        case _ =>
      }
  }

  /**
   * `wsUuid` is never reset: once a session has given the connection a
   * uuid, a later `open` gets a socket whose first `uuid` message is fatal.
   * A `RoomConnection` serves one session.
   */
  lemma ReopenRejectsNewUuid(c: Client, room: Value, name: Value, h: Socket, obj: Object)
    requires Valid(c) && c.ws.None? && c.wsUuid != Null && "uuid" in obj
    ensures Open(c, room, name, Some(h)).Ok?
    ensures var t := OnSocketEvent(Open(c, room, name, Some(h)).value, h, Received(Parsed(Obj(obj))));
      && t.ws.None? && t.sent == c.sent
      && t.callbacks == c.callbacks + [FatalError(UuidAlreadySet)]
  {
  }

  // ---------------------------------------------------------------------------
  // Classification

  /**
   * `onUserJoined` is told the message is about this connection exactly when
   * the joined uuid is strictly equal to `wsUuid`: the same string, number,
   * boolean or `null`, never an array or object. Before the uuid is known,
   * a `userjoined` of `null` is reported as this connection's own.
   */
  lemma UserJoinedReportsSelf(c: Client, obj: Object)
    requires "uuid" !in obj && "userjoined" in obj
    ensures var t := OnWsMessage(c, Parsed(Obj(obj)));
      && t == c.(callbacks := t.callbacks)
      && t.callbacks == c.callbacks + [UserJoined(obj["userjoined"], Get(obj, "displayname"),
                                                  obj["userjoined"] == c.wsUuid && !c.wsUuid.Compound?)]
  {
    var joined := obj["userjoined"];
    assert StrictEquals(joined, c.wsUuid) <==> joined == c.wsUuid && !c.wsUuid.Compound? by {
      match (joined, c.wsUuid)
      case (Str(x), Str(y)) =>
      case _ =>
    }
  }

  /**
   * Classification goes by the first key present in the order `uuid`,
   * `userjoined`, `userleft`, `source`: the keys after the first one that
   * is present make no difference to the outcome.
   */
  lemma ClassificationPrecedence(c: Client, obj: Object)
    ensures "uuid" in obj ==>
      OnWsMessage(c, Parsed(Obj(obj))) == OnWsMessage(c, Parsed(Obj(map["uuid" := obj["uuid"]])))
    ensures "uuid" !in obj && "userjoined" in obj ==>
      OnWsMessage(c, Parsed(Obj(obj))) ==
      OnWsMessage(c, Parsed(Obj(if "displayname" in obj
                                then map["userjoined" := obj["userjoined"], "displayname" := obj["displayname"]]
                                else map["userjoined" := obj["userjoined"]])))
    ensures "uuid" !in obj && "userjoined" !in obj && "userleft" in obj ==>
      OnWsMessage(c, Parsed(Obj(obj))) == OnWsMessage(c, Parsed(Obj(map["userleft" := obj["userleft"]])))
    ensures "uuid" !in obj && "userjoined" !in obj && "userleft" !in obj && "source" in obj ==>
      OnWsMessage(c, Parsed(Obj(obj))).callbacks == c.callbacks + [P2PMessage(obj)]
  {
    if "uuid" !in obj && "userjoined" in obj {
      var m := if "displayname" in obj
               then map["userjoined" := obj["userjoined"], "displayname" := obj["displayname"]]
               else map["userjoined" := obj["userjoined"]];
      assert Get(m, "displayname") == Get(obj, "displayname");
    }
  }

  /** A message with none of the protocol's keys is fatal, and so is an array. */
  lemma UnknownMessageFatal(c: Client, msg: Message)
    requires Valid(c)
    requires msg.ArrayMessage? || (msg.Obj? && forall k :: k in {"uuid", "userjoined", "userleft", "source"} ==> k !in msg.fields)
    ensures OnWsMessage(c, Parsed(msg)) == OnError(c, CannotHandle)
    ensures OnWsMessage(c, Parsed(msg)).ws.None? && OnWsMessage(c, Parsed(msg)).attached == {}
  {
    if msg.Obj? {
      assert "uuid" in {"uuid", "userjoined", "userleft", "source"};
      assert "userjoined" in {"uuid", "userjoined", "userleft", "source"};
      assert "userleft" in {"uuid", "userjoined", "userleft", "source"};
      assert "source" in {"uuid", "userjoined", "userleft", "source"};
    }
  }

  // ---------------------------------------------------------------------------
  // Errors

  /**
   * An error report and the loss of the socket go together: whenever an
   * action invokes `onFatalError` the connection is left without a socket
   * and without attached handlers, and a connection only loses its socket
   * by reporting an error. Hooks already invoked are never taken back.
   */
  lemma ErrorsTearDown(c: Client, a: Action)
    requires Valid(c)
    ensures var t := Apply(c, a);
      && c.callbacks <= t.callbacks
      && (|t.callbacks| > |c.callbacks| && t.callbacks[|c.callbacks|].FatalError? ==> t.ws.None? && t.attached == {})
      && (c.ws.Some? && t.ws.None? ==> |t.callbacks| == |c.callbacks| + 1 && t.callbacks[|c.callbacks|].FatalError?)
  {
    match a
    case OpenCall(room, name, created) =>
    case SocketEvent(h, ev) =>
      if h in c.attached {
        match ev
        case Received(Parsed(Obj(obj))) =>
          if "uuid" in obj && c.wsUuid == Null {
            assert c.ws.Some?;
          }
        case _ =>
      }
  }

  // ---------------------------------------------------------------------------
  // The handshake end to end

  /**
   * A page opens room "ABC123" as Alice on socket 1; the server's `{uuid}`
   * and then the broadcast of Alice's own join arrive. The page has sent one
   * join request and has been told that it itself joined.
   */
  lemma JoinHandshake()
    ensures var t := Run(Initial, [
              OpenCall(Str("ABC123"), Str("Alice"), Some(1)),
              SocketEvent(1, Opened),
              SocketEvent(1, Received(Parsed(Obj(map["uuid" := Str("u1")])))),
              SocketEvent(1, Received(Parsed(Obj(map["userjoined" := Str("u1"), "displayname" := Str("Alice")]))))]);
      && t.sent == [Outgoing(1, JoinRequest(Str("ABC123"), Str("Alice")))]
      && t.callbacks == [UserJoined(Str("u1"), Some(Str("Alice")), true)]
      && t.ws == Some(1) && t.wsUuid == Str("u1")
  {
    var c1 := Apply(Initial, OpenCall(Str("ABC123"), Str("Alice"), Some(1)));
    assert c1 == Client(Some(1), Null, Str("ABC123"), Str("Alice"), {1}, [], []);
    var c2 := Apply(c1, SocketEvent(1, Opened));
    assert c2 == c1;
    var c3 := Apply(c2, SocketEvent(1, Received(Parsed(Obj(map["uuid" := Str("u1")])))));
    assert c3 == c1.(wsUuid := Str("u1"), sent := [Outgoing(1, JoinRequest(Str("ABC123"), Str("Alice")))]);
    var joinedMsg := map["userjoined" := Str("u1"), "displayname" := Str("Alice")];
    var c4 := Apply(c3, SocketEvent(1, Received(Parsed(Obj(joinedMsg)))));
    assert "uuid" !in joinedMsg;
    assert c4 == c3.(callbacks := [UserJoined(Str("u1"), Some(Str("Alice")), true)]);
  }
}
