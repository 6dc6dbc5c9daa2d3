/**
 * The room table of roomserver.mjs is a plain JavaScript object (`{ }`), and
 * the join tests `this.roomId in rooms`, which also sees the members every
 * object inherits from Object.prototype. Seven of their names ("constructor",
 * "hasOwnProperty", "isPrototypeOf", "propertyIsEnumerable", "toLocaleString",
 * "toString", "valueOf") are valid room ids, so a join to one of them takes
 * the "room exists" branch and calls `push` on an inherited function, which
 * throws: the joiner is closed instead of entering the room.
 *
 * This module models that lookup as written and exhibits the failing join;
 * the rest of the model uses own-key map semantics (RoomServerSpec.JoinedList),
 * under which every valid room id can be joined (PrototypeNamedRoomJoinable).
 */
module RoomTableAsWritten {
  import opened Wrappers
  import opened Json
  import RoomIdCheck
  import opened RoomServerSpec
  import RoomServerProperties

  /** The names `in` finds on any plain object through Object.prototype. */
  const InheritedMembers: set<string> := {
    "constructor", "hasOwnProperty", "isPrototypeOf", "propertyIsEnumerable",
    "toLocaleString", "toString", "valueOf", "__proto__",
    "__defineGetter__", "__defineSetter__", "__lookupGetter__", "__lookupSetter__"
  }

  /** `roomId in rooms` as written: an own key or an inherited member. */
  predicate InRoomsAsWritten(rooms: map<string, seq<Id>>, roomId: string)
  {
    roomId in rooms || roomId in InheritedMembers
  }

  /**
   * The room list after `id` joins, as written: a new one-member list when
   * `in` says the room is absent, the list with `id` pushed when it is an own
   * key, and None (push on an inherited function throws) otherwise.
   */
  function JoinedListAsWritten(rooms: map<string, seq<Id>>, roomId: string, id: Id): (r: Option<seq<Id>>)
    ensures r.Some? ==> r.value == JoinedList(rooms, roomId, id)
  {
    if !InRoomsAsWritten(rooms, roomId) then Some([id])
    else if roomId in rooms then Some(rooms[roomId] + [id])
    else None
  }

  /**
   * "constructor" passes the room-id check, yet as written no connection can
   * ever join it: while it is not an own key of the table (and it never becomes
   * one, since this join is the only way to add a key), the join throws.
   */
  lemma ConstructorRoomUnjoinableAsWritten(rooms: map<string, seq<Id>>, id: Id)
    requires "constructor" !in rooms
    ensures RoomIdCheck.CheckRoomId("constructor").Ok?
    ensures JoinedListAsWritten(rooms, "constructor", id) == None
  {
    RoomIdCheck.CheckRoomIdAcceptsExactlyAlphanumeric("constructor");
  }

  /**
   * With the table as a map of own keys, a valid join to "constructor"
   * succeeds like any other: the joiner ends up in that room's list.
   */
  lemma PrototypeNamedRoomJoinable(s: State, id: Id, dn: Value)
    requires Valid(s) && id in s.conns && s.conns[id].open && s.conns[id].roomId.None?
    ensures var cmd := Obj(map["roomid" := Str("constructor"), "displayname" := dn]);
      && HandleParsed(s, id, cmd).ok
      && id in HandleParsed(s, id, cmd).state.rooms["constructor"]
  {
    var cmd := Obj(map["roomid" := Str("constructor"), "displayname" := dn]);
    RoomIdCheck.CheckRoomIdAcceptsExactlyAlphanumeric("constructor");
    assert ValidateJoin(cmd) == Ok(("constructor", dn));
    RoomServerProperties.JoinSucceeds(s, id, cmd, "constructor", dn, id);
  }
}
