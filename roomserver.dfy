/**
 * The relay server of roomserver.mjs as it runs: the module-level tables
 * `provisionalConnections` and `rooms`, the fields of every `Connection`, and
 * what each connection has been sent, updated in place by the accept handler
 * and by each connection's `onMessage` and `onClose`. Every method is proved
 * to leave the tables exactly as the matching function of RoomServerSpec
 * says, so the properties proved there (RoomServerProperties) hold of it.
 */
module RoomServer {
  import opened Wrappers
  import opened Json
  import opened RoomServerSpec
  import RoomServerProperties

  /**
   * The relay lookup: walk the room list in order and stop at the first
   * connection whose uuid is the destination.
   */
  method FindDestination(members: seq<Id>, dst: Option<Value>) returns (destConn: Option<Id>)
    ensures destConn == FirstWithUuid(members, dst)
    ensures destConn.Some? ==> destConn.value in members && dst == Some(Str(destConn.value))
    ensures destConn.None? <==> forall i :: 0 <= i < |members| ==> !HasUuid(members[i], dst)
  {
    destConn := None;
    var i := 0;
    while i < |members|
      invariant 0 <= i <= |members|
      invariant FirstWithUuid(members[i..], dst) == FirstWithUuid(members, dst)
      invariant destConn == None
    {
      if HasUuid(members[i], dst) {
        destConn := Some(members[i]);
        break;
      }
      assert members[i..][1..] == members[i + 1..];
      i := i + 1;
    }
    if destConn.Some? {
      HasUuidIsDestination(destConn.value, dst);
    }
  }

  class Server {
    /** `provisionalConnections`: accepted connections that have not joined a room yet. */
    var provisional: seq<Id>
    /** `rooms`: room id to its member list, in join order. */
    var rooms: map<string, seq<Id>>
    /** Each connection's `roomId`, `displayName` and transport state. */
    var conns: map<Id, Conn>
    /** What has been sent to each connection, oldest first. */
    var outbox: map<Id, seq<Msg>>

    /** The tables as one value. */
    function Snapshot(): State
      reads this
    {
      State(provisional, rooms, conns, outbox)
    }

    ghost predicate Valid()
      reads this
    {
      RoomServerSpec.Valid(Snapshot())
    }

    /** Server start-up: the pool and the room table are empty. */
    constructor ()
      ensures Valid() && Snapshot() == Initial
    {
      provisional := [];
      rooms := map[];
      conns := map[];
      outbox := map[];
      new;
      RoomServerProperties.ValidInitial();
    }

    /** `c.send(m)` for every `c` of `members`, in order. */
    method Broadcast(members: seq<Id>, m: Msg)
      modifies this`outbox
      ensures outbox == SendEach(old(outbox), members, m)
    {
      var i := 0;
      while i < |members|
        invariant 0 <= i <= |members|
        invariant outbox == SendEach(old(outbox), members[..i], m)
      {
        assert members[..i + 1][..i] == members[..i];
        outbox := Send(outbox, members[i], m);
        i := i + 1;
      }
      assert members[..|members|] == members;
    }

    /**
     * The accept handler: construct the connection with the fresh uuid `id`
     * (uuidv4 is not modelled; the caller supplies an id never used before),
     * send it `{uuid}`, then push it onto the pool.
     */
    method Accept(id: Id)
      requires Valid() && id !in conns
      modifies this
      ensures Valid() && Snapshot() == RoomServerSpec.Accept(old(Snapshot()), id)
    {
      RoomServerProperties.AcceptSendsUuidThenPools(Snapshot(), id);
      conns := conns[id := Conn(None, None, true)];
      outbox := outbox[id := []];
      outbox := Send(outbox, id, UuidMsg(id));
      assert outbox[id] == [UuidMsg(id)];
      provisional := provisional + [id];
    }

    /**
     * `onClose`: take the connection out of the pool, or out of its room and
     * tell the remaining members; a removal that fails is swallowed.
     */
    method OnClose(id: Id)
      requires Valid() && id in conns
      modifies this
      ensures Valid() && Snapshot() == Close(old(Snapshot()), id)
    {
      RoomServerProperties.ValidClose(Snapshot(), id);
      var c := conns[id];
      conns := conns[id := c.(open := false)];
      match c.roomId {
        case None =>
          var removed := RemoveConnectionFrom(id, provisional);
          if removed.Some? {
            provisional := removed.value;
          }
        case Some(r) =>
          if r in rooms {
            var removed := RemoveConnectionFrom(id, rooms[r]);
            if removed.Some? {
              rooms := rooms[r := removed.value];
              Broadcast(rooms[r], UserLeft(id));
            }
          }
      }
    }

    /**
     * `onMessageParsed`: join the room the first message names and announce
     * it to the room, or relay a later message to its destination in the
     * sender's room. `ok` is false where the source throws.
     */
    method OnMessageParsed(id: Id, cmd: Message) returns (ok: bool)
      requires Valid() && id in conns && conns[id].open
      modifies this
      ensures Valid() && Step(Snapshot(), ok) == HandleParsed(old(Snapshot()), id, cmd)
    {
      RoomServerProperties.ValidHandleParsed(Snapshot(), id, cmd);
      var c := conns[id];
      if c.roomId.None? {
        var joining := ValidateJoin(cmd);
        if joining.Err? {
          return false;
        }
        var (roomId, dn) := joining.value;
        conns := conns[id := c.(roomId := Some(roomId), displayName := Some(dn))];
        provisional := RemoveConnectionFrom(id, provisional).value;
        if roomId !in rooms {
          rooms := rooms[roomId := [id]];
        } else {
          rooms := rooms[roomId := rooms[roomId] + [id]];
        }
        Broadcast(rooms[roomId], UserJoined(id, dn));
        ok := true;
      } else {
        var r := c.roomId.value;
        if cmd.NullMessage? {
          return false;
        }
        var dst := Destination(cmd);
        var destConn := FindDestination(rooms[r], dst);
        if destConn.Some? {
          outbox := Send(outbox, destConn.value, Forward(Stamp(cmd.fields, id, DisplayValue(c))));
        }
        ok := true;
      }
    }

    /** `onMessage`: a binary frame, unparsable text or a message that throws closes the connection. */
    method OnMessage(id: Id, frame: Frame)
      requires Valid() && id in conns && conns[id].open
      modifies this
      ensures Valid() && Snapshot() == HandleFrame(old(Snapshot()), id, frame)
    {
      match frame {
        case Binary =>
          OnClose(id);
        case Unparsable =>
          OnClose(id);
        case Text(cmd) =>
          var ok := OnMessageParsed(id, cmd);
          if !ok {
            OnClose(id);
          }
      }
    }
  }
}
