/**
 * `RoomConnection` of rtcpage.js as an object whose fields its methods update
 * in place. Each method is proved to leave the fields exactly as the matching
 * function of RtcPageSpec says, so what RtcPageProperties proves of those
 * functions holds of the object.
 */
module RtcPage {
  import opened Wrappers
  import opened Json
  import opened RtcPageSpec
  import RtcPageProperties

  class RoomConnection {
    /** The current WebSocket, or none. */
    var ws: Option<Socket>
    /** The uuid the server assigned; `null` until the `uuid` message. */
    var wsUuid: Value
    /** The room and display name given to `open`. */
    var roomId: Value
    var name: Value
    /** Sockets whose `onopen`/`onmessage`/`onerror`/`onclose` call into this object. */
    var attached: set<Socket>
    /** Everything sent, on which socket, oldest first. */
    var sent: seq<Outgoing>
    /** The hooks invoked, oldest first. */
    var callbacks: seq<Callback>

    /** The fields as one value. */
    function Snapshot(): Client
      reads this
    {
      Client(ws, wsUuid, roomId, name, attached, sent, callbacks)
    }

    ghost predicate Valid()
      reads this
    {
      RtcPageSpec.Valid(Snapshot())
    }

    constructor ()
      ensures Valid() && Snapshot() == Initial
    {
      ws := None;
      wsUuid := Null;
      roomId := Null;
      name := Null;
      attached := {};
      sent := [];
      callbacks := [];
      new;
      RtcPageProperties.ValidInitial();
    }

    /** `getOwnUuid`. */
    function OwnUuid(): Value
      reads this
    {
      wsUuid
    }

    /** `_cleanupWebSocket`. */
    method CleanupWebSocket()
      modifies this
      ensures Snapshot() == Cleanup(old(Snapshot()))
    {
      if ws.Some? {
        var h := ws.value;
        ws := None;
        attached := attached - {h};
      }
    }

    /** `_onError`: clean up, then `onFatalError(err)`. */
    method OnError(err: Failure)
      modifies this
      ensures Snapshot() == RtcPageSpec.OnError(old(Snapshot()), err)
    {
      CleanupWebSocket();
      callbacks := callbacks + [FatalError(err)];
    }

    /** `_sendMessage`. */
    method SendMessage(msg: Object)
      modifies this
      ensures Snapshot() == RtcPageSpec.SendMessage(old(Snapshot()), msg)
    {
      if ws.None? {
        OnError(NoSocket);
      } else {
        sent := sent + [Outgoing(ws.value, msg)];
      }
    }

    /**
     * `open(url, room, name)`. `created` is the outcome of `new
     * WebSocket(url)`: the new socket, or None where the constructor threw.
     * `result` is `Err(AlreadyOpen)` where `open` throws.
     */
    method Open(room: Value, name: Value, created: Option<Socket>) returns (result: Result<(), OpenError>)
      requires Valid()
      modifies this
      ensures Valid()
      ensures result.Err? <==> RtcPageSpec.Open(old(Snapshot()), room, name, created).Err?
      ensures result.Ok? ==> Snapshot() == RtcPageSpec.Open(old(Snapshot()), room, name, created).value
      ensures result.Err? ==> Snapshot() == old(Snapshot())
    {
      RtcPageProperties.ValidApply(Snapshot(), OpenCall(room, name, created));
      if ws.Some? {
        return Err(AlreadyOpen);
      }
      this.roomId := room;
      this.name := name;
      match created {
        case None =>
          OnError(SocketNotCreated);
        case Some(h) =>
          ws := Some(h);
          attached := attached + {h};
      }
      result := Ok(());
    }

    /** `_onWsMessage`. */
    method OnWsMessage(data: Incoming)
      modifies this
      ensures Snapshot() == RtcPageSpec.OnWsMessage(old(Snapshot()), data)
    {
      match data {
        case Unparsable =>
          OnError(NotJson);
        case Parsed(NullMessage) =>
        case Parsed(Primitive) =>
        case Parsed(ArrayMessage) =>
          OnError(CannotHandle);
        case Parsed(Obj(obj)) =>
          if "uuid" in obj {
            if wsUuid != Null {
              OnError(UuidAlreadySet);
            } else {
              wsUuid := obj["uuid"];
              SendMessage(JoinRequest(roomId, name));
            }
          } else if "userjoined" in obj {
            callbacks := callbacks + [UserJoined(obj["userjoined"], Get(obj, "displayname"),
                                                 StrictEquals(obj["userjoined"], wsUuid))];
          } else if "userleft" in obj {
            callbacks := callbacks + [UserLeft(obj["userleft"])];
          } else if "source" in obj {
            callbacks := callbacks + [P2PMessage(obj)];
          } else {
            OnError(CannotHandle);
          }
      }
    }

    /** The handlers `open` attaches to socket `h`, called for one of its events. */
    method OnSocketEvent(h: Socket, ev: Event)
      requires Valid()
      modifies this
      ensures Valid() && Snapshot() == RtcPageSpec.OnSocketEvent(old(Snapshot()), h, ev)
    {
      RtcPageProperties.ValidApply(Snapshot(), SocketEvent(h, ev));
      if h !in attached {
        return;
      }
      match ev {
        case Opened =>
        case Received(data) =>
          OnWsMessage(data);
        case Errored =>
          OnError(SocketError);
        case Closed =>
          OnError(ClosedUnexpectedly);
      }
    }
  }
}
