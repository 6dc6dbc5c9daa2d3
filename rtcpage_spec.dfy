/**
 * The browser side of the relay protocol: `RoomConnection` of rtcpage.js as a
 * state machine over its fields. The WebSocket is an abstract handle, what the
 * connection sends is an outbox of parsed messages, and the hooks it invokes
 * (`onFatalError`, `onUserJoined`, `onUserLeft`, `onP2PMessage`) are recorded
 * in order. Errors the source defers with `setTimeout` are delivered at once.
 */
module RtcPageSpec {
  import opened Wrappers
  import opened Json

  /** A WebSocket object, by identity. */
  type Socket = nat

  /** The error handed to `onFatalError`. */
  datatype Failure =
    | SocketNotCreated       // `new WebSocket(url)` threw
    | SocketError            // the socket's `onerror`
    | ClosedUnexpectedly     // the socket's `onclose`
    | NotJson                // `JSON.parse` threw on the frame
    | UuidAlreadySet         // a second `uuid` message
    | CannotHandle           // a message with none of the protocol's keys
    | NoSocket               // `this.ws.send` with `ws` null

  /** One invocation of an overridable hook, with its arguments. */
  datatype Callback =
    | FatalError(err: Failure)
    | UserJoined(uuid: Value, displayName: Option<Value>, isSelf: bool)
    | UserLeft(uuid: Value)
    | P2PMessage(msg: Object)

  /** `ws.send(JSON.stringify(msg))` on the socket `socket`. */
  datatype Outgoing = Outgoing(socket: Socket, msg: Object)

  /** The payload of a socket `message` event, after `JSON.parse`. */
  datatype Incoming = Unparsable | Parsed(msg: Message)

  /** What a socket reports to the handlers `open` attaches. */
  datatype Event = Opened | Received(data: Incoming) | Errored | Closed

  /** Why `open` throws. */
  datatype OpenError = AlreadyOpen

  /**
   * The fields of a `RoomConnection`, the sockets whose handlers call back
   * into it, what it has sent and which hooks it has invoked.
   */
  datatype Client = Client(
    ws: Option<Socket>,
    wsUuid: Value,
    roomId: Value,
    name: Value,
    attached: set<Socket>,
    sent: seq<Outgoing>,
    callbacks: seq<Callback>)

  /** The constructor: every field `null`, no socket. */
  const Initial := Client(None, Null, Null, Null, {}, [], [])

  /** The join request `{roomid, displayname}`. */
  function JoinRequest(roomId: Value, name: Value): (r: Object)
    ensures r.Keys == {"roomid", "displayname"}
    ensures r["roomid"] == roomId && r["displayname"] == name
  {
    map["roomid" := roomId, "displayname" := name]
  }

  /** `_cleanupWebSocket`: drop the socket and detach its handlers; nothing to do without one. */
  function Cleanup(c: Client): (r: Client)
    ensures r.ws.None?
    ensures c.ws.Some? ==> r.attached == c.attached - {c.ws.value}
    ensures c.ws.None? ==> r == c
    ensures r.(ws := c.ws, attached := c.attached) == c
  {
    match c.ws
    case None => c
    case Some(h) => c.(ws := None, attached := c.attached - {h})
  }

  /** `_onError`: tear the socket down, then report the error. */
  function OnError(c: Client, err: Failure): (r: Client)
  {
    Cleanup(c).(callbacks := c.callbacks + [FatalError(err)])
  }

  /** `_sendMessage`: send on the current socket; with none, `this.ws.send` throws and is reported. */
  function SendMessage(c: Client, msg: Object): (r: Client)
  {
    match c.ws
    case Some(h) => c.(sent := c.sent + [Outgoing(h, msg)])
    case None => OnError(c, NoSocket)
  }

  /**
   * `open(url, room, name)`: refuse when a socket exists; otherwise record
   * the room and name, then create the socket and attach the handlers.
   * `created` is the socket `new WebSocket(url)` returned, or None where it
   * threw, which is reported through `_onError`.
   */
  function Open(c: Client, room: Value, name: Value, created: Option<Socket>): (r: Result<Client, OpenError>)
    ensures r.Err? <==> c.ws.Some?
    ensures r.Ok? ==> r.value.roomId == room && r.value.name == name && r.value.wsUuid == c.wsUuid
    ensures r.Ok? ==> r.value.ws == created && r.value.sent == c.sent
    ensures r.Ok? && created.Some? ==>
      r.value.attached == c.attached + {created.value} && r.value.callbacks == c.callbacks
    ensures r.Ok? && created.None? ==>
      r.value.attached == c.attached && r.value.callbacks == c.callbacks + [FatalError(SocketNotCreated)]
  {
    if c.ws.Some? then Err(AlreadyOpen)
    else
      var named := c.(roomId := room, name := name);
      match created
      case None => Ok(OnError(named, SocketNotCreated))
      case Some(h) => Ok(named.(ws := Some(h), attached := c.attached + {h}))
  }

  /**
   * `_onWsMessage`: classify a parsed object by its keys, first match wins:
   * `uuid`, `userjoined`, `userleft`, `source`; anything else is an error.
   * `"uuid" in obj` throws on `null` and on primitives; that exception
   * leaves the handler and changes nothing.
   */
  function OnWsMessage(c: Client, data: Incoming): (r: Client)
    ensures r.roomId == c.roomId && r.name == c.name
  {
    match data
    case Unparsable => OnError(c, NotJson)
    case Parsed(NullMessage) => c
    case Parsed(Primitive) => c
    case Parsed(ArrayMessage) => OnError(c, CannotHandle)
    case Parsed(Obj(obj)) =>
      if "uuid" in obj then
        if c.wsUuid != Null then OnError(c, UuidAlreadySet)
        else SendMessage(c.(wsUuid := obj["uuid"]), JoinRequest(c.roomId, c.name))
      else if "userjoined" in obj then
        var joined := obj["userjoined"];
        c.(callbacks := c.callbacks + [UserJoined(joined, Get(obj, "displayname"), StrictEquals(joined, c.wsUuid))])
      else if "userleft" in obj then
        c.(callbacks := c.callbacks + [UserLeft(obj["userleft"])])
      else if "source" in obj then
        c.(callbacks := c.callbacks + [P2PMessage(obj)])
      else OnError(c, CannotHandle)
  }

  /**
   * The handlers `open` attaches: `onmessage` parses, `onerror` and
   * `onclose` are fatal, `onopen` only logs. A socket whose handlers have
   * been detached reaches nothing.
   */
  function OnSocketEvent(c: Client, h: Socket, ev: Event): (r: Client)
    ensures h !in c.attached ==> r == c
  {
    if h !in c.attached then c
    else match ev
      case Opened => c
      case Received(data) => OnWsMessage(c, data)
      case Errored => OnError(c, SocketError)
      case Closed => OnError(c, ClosedUnexpectedly)
  }

  /** What can happen to a `RoomConnection`: a call to `open`, or an event on one of its sockets. */
  datatype Action =
    | OpenCall(room: Value, name: Value, created: Option<Socket>)
    | SocketEvent(socket: Socket, event: Event)

  /** One action; an `open` that throws leaves the connection as it was. */
  function Apply(c: Client, a: Action): Client
  {
    match a
    case OpenCall(room, name, created) =>
      (match Open(c, room, name, created)
       case Ok(d) => d
       case Err(_) => c)
    case SocketEvent(h, ev) => OnSocketEvent(c, h, ev)
  }

  /** A sequence of actions, in order. */
  function Run(c: Client, actions: seq<Action>): Client
    decreases |actions|
  {
    if actions == [] then c else Run(Apply(c, actions[0]), actions[1..])
  }

  /** Handlers are attached to the current socket and to no other. */
  predicate Valid(c: Client)
  {
    c.attached == (if c.ws.Some? then {c.ws.value} else {})
  }
}
