/**
 * What the relay promises, proved about the state machine of roomserver_spec.dfy:
 * the tables' invariant is kept by every event, each connection sits in exactly
 * one place, joins and leaves are announced to exactly the room's members,
 * relays reach exactly the named member of the sender's own room, and rooms
 * do not observe each other.
 */
module RoomServerProperties {
  import opened Wrappers
  import opened Json
  import RoomIdCheck
  import opened RoomServerSpec

  // ---------------------------------------------------------------------------
  // Where a connection sits

  /**
   * A connection sits in exactly one place: an open unjoined one in the pool
   * and no room, an open joined one in its own room's list only, a closed one
   * nowhere.
   */
  lemma ExactlyOnePlace(s: State, id: Id, r: string)
    requires Valid(s) && id in s.conns
    ensures id in s.provisional <==> s.conns[id].open && s.conns[id].roomId.None?
    ensures r in s.rooms && id in s.rooms[r] <==> s.conns[id].open && s.conns[id].roomId == Some(r)
  {
  }

  /** The start-up tables satisfy the invariant. */
  lemma ValidInitial()
    ensures Valid(Initial)
  {
  }

  // ---------------------------------------------------------------------------
  // Accept

  /**
   * A new connection is sent its uuid as its first message and is then the
   * last entry of the pool; nobody else receives anything; the invariant holds.
   */
  lemma AcceptSendsUuidThenPools(s: State, id: Id)
    requires Valid(s) && id !in s.conns
    ensures var t := Accept(s, id);
      && Valid(t)
      && t.outbox[id] == [UuidMsg(id)]
      && t.provisional == s.provisional + [id]
      && t.conns[id] == Conn(None, None, true)
      && t.rooms == s.rooms
      && (forall x | x in s.outbox :: t.outbox[x] == s.outbox[x])
  {
    var t := Accept(s, id);
    assert id !in s.provisional;
    AppendFresh(s.provisional, id);
    assert forall r | r in s.rooms :: id !in s.rooms[r];
  }

  // ---------------------------------------------------------------------------
  // Close

  /** Closing an unjoined connection removes it from the pool and changes nothing else but its transport. */
  lemma CloseUnjoined(s: State, id: Id)
    requires Valid(s) && id in s.conns && s.conns[id].open && s.conns[id].roomId.None?
    ensures var t := Close(s, id);
      && t.provisional == RemoveConnectionFrom(id, s.provisional).value
      && id !in t.provisional
      && (forall x :: x in t.provisional <==> x in s.provisional && x != id)
      && t.rooms == s.rooms && t.outbox == s.outbox
      && t.conns == s.conns[id := s.conns[id].(open := false)]
  {
    RemoveFromDistinct(id, s.provisional);
  }

  /**
   * Closing a joined connection removes it from its room, and each remaining
   * member, and nobody else, receives exactly one `userleft` naming it.
   */
  lemma CloseJoined(s: State, id: Id, x: Id)
    requires Valid(s) && id in s.conns && s.conns[id].open && s.conns[id].roomId.Some?
    ensures var r := s.conns[id].roomId.value; var t := Close(s, id);
      && r in t.rooms
      && (forall y :: y in t.rooms[r] <==> y in s.rooms[r] && y != id)
      && (forall q | q != r :: q in t.rooms <==> q in s.rooms)
      && (forall q | q in s.rooms && q != r :: t.rooms[q] == s.rooms[q])
      && t.provisional == s.provisional
      && Pending(t.outbox, x) == Pending(s.outbox, x) + (if x in t.rooms[r] then [UserLeft(id)] else [])
  {
    var r := s.conns[id].roomId.value;
    RemoveFromDistinct(id, s.rooms[r]);
    var rest := RemoveConnectionFrom(id, s.rooms[r]).value;
    SendEachDelivers(s.outbox, rest, UserLeft(id), x);
  }

  /**
   * A close whose removal fails (the connection is not in the list its record
   * points to) is swallowed: only the transport's state changes.
   */
  lemma CloseNotFoundSwallowed(s: State, id: Id)
    requires id in s.conns
    requires match s.conns[id].roomId
      case None => id !in s.provisional
      case Some(r) => r !in s.rooms || id !in s.rooms[r]
    ensures Close(s, id) == s.(conns := s.conns[id := s.conns[id].(open := false)])
  {
  }

  /** Under the invariant, that happens exactly for a connection already closed, and then nothing changes at all. */
  lemma CloseOfClosedChangesNothing(s: State, id: Id)
    requires Valid(s) && id in s.conns && !s.conns[id].open
    ensures Close(s, id) == s
  {
    assert id !in s.provisional;
    if s.conns[id].roomId.Some? {
      var r := s.conns[id].roomId.value;
      assert r in s.rooms ==> id !in s.rooms[r];
    }
    assert s.conns[id := s.conns[id].(open := false)] == s.conns;
  }

  /** The room entry of the last member to leave stays, as an empty list; it is not deleted. */
  lemma LastLeaverLeavesEmptyRoom(s: State, id: Id)
    requires Valid(s) && id in s.conns && s.conns[id].open && s.conns[id].roomId.Some?
    requires s.rooms[s.conns[id].roomId.value] == [id]
    ensures var r := s.conns[id].roomId.value;
      r in Close(s, id).rooms && Close(s, id).rooms[r] == []
  {
    var r := s.conns[id].roomId.value;
    assert IndexOf(s.rooms[r], id) == 0;
  }

  /** The invariant survives every close. */
  lemma ValidClose(s: State, id: Id)
    requires Valid(s) && id in s.conns
    ensures Valid(Close(s, id))
  {
    var c := s.conns[id];
    var t := Close(s, id);
    if !c.open {
      CloseOfClosedChangesNothing(s, id);
    } else if c.roomId.None? {
      RemoveFromDistinct(id, s.provisional);
      forall q | q in t.rooms ensures id !in t.rooms[q] {
      }
    } else {
      var r := c.roomId.value;
      RemoveFromDistinct(id, s.rooms[r]);
      var rest := RemoveConnectionFrom(id, s.rooms[r]).value;
      forall x ensures x in t.outbox <==> x in s.outbox {
        SendEachDelivers(s.outbox, rest, UserLeft(id), x);
      }
      assert id !in s.provisional;
    }
  }

  // ---------------------------------------------------------------------------
  // Join

  /**
   * A join request from an unjoined connection that lacks `roomid` or
   * `displayname`, or whose room id is not acceptable, is refused: nothing is
   * set, the connection is closed, and that close takes it out of the pool.
   */
  lemma JoinRejected(s: State, id: Id, cmd: Message)
    requires Valid(s) && id in s.conns && s.conns[id].open && s.conns[id].roomId.None?
    requires ValidateJoin(cmd).Err?
    ensures HandleParsed(s, id, cmd) == Step(s, false)
    ensures var t := HandleFrame(s, id, Text(cmd));
      && t == Close(s, id)
      && t.conns[id] == Conn(None, None, false)
      && id !in t.provisional
      && t.rooms == s.rooms && t.outbox == s.outbox
  {
    CloseUnjoined(s, id);
  }

  /** A join request is refused exactly when one of the source's three checks fails. */
  lemma JoinRefusedExactly(cmd: Message)
    requires cmd.Obj?
    ensures ValidateJoin(cmd).Err? <==>
      || "roomid" !in cmd.fields
      || "displayname" !in cmd.fields
      || !cmd.fields["roomid"].Str?
      || !(RoomIdCheck.MinLength <= |cmd.fields["roomid"].s| <= RoomIdCheck.MaxLength)
      || !RoomIdCheck.AllAlphanumericBefore(cmd.fields["roomid"].s, |cmd.fields["roomid"].s|)
  {
    if "roomid" in cmd.fields && cmd.fields["roomid"].Str? {
      RoomIdCheck.CheckRoomIdAcceptsExactlyAlphanumeric(cmd.fields["roomid"].s);
    }
  }

  /** The state after a successful join, spelled out. */
  ghost function Joined(s: State, id: Id, roomId: string, dn: Value): State
    requires id in s.provisional
  {
    var members := JoinedList(s.rooms, roomId, id);
    State(RemoveConnectionFrom(id, s.provisional).value,
          s.rooms[roomId := members],
          s.conns[id := Conn(Some(roomId), Some(dn), true)],
          SendEach(s.outbox, members, UserJoined(id, dn)))
  }

  lemma JoinStep(s: State, id: Id, cmd: Message, roomId: string, dn: Value)
    requires id in s.conns && s.conns[id] == Conn(None, None, true) && id in s.provisional
    requires ValidateJoin(cmd) == Ok((roomId, dn))
    ensures HandleParsed(s, id, cmd) == Step(Joined(s, id, roomId, dn), true)
    ensures HandleFrame(s, id, Text(cmd)) == Joined(s, id, roomId, dn)
  {
  }

  /**
   * A valid join request from an unjoined connection succeeds: the connection
   * leaves the pool, is appended to its room's list (a new one-member list if
   * the room is absent), gets its room and display name, and every member of
   * that room, the joiner included, receives exactly one `userjoined`; nobody
   * else receives anything.
   */
  lemma JoinSucceeds(s: State, id: Id, cmd: Message, roomId: string, dn: Value, x: Id)
    requires Valid(s) && id in s.conns && s.conns[id].open && s.conns[id].roomId.None?
    requires ValidateJoin(cmd) == Ok((roomId, dn))
    ensures HandleParsed(s, id, cmd).ok
    ensures var t := HandleFrame(s, id, Text(cmd));
      && t == HandleParsed(s, id, cmd).state
      && t.provisional == RemoveConnectionFrom(id, s.provisional).value
      && (forall y :: y in t.provisional <==> y in s.provisional && y != id)
      && t.rooms == s.rooms[roomId := JoinedList(s.rooms, roomId, id)]
      && t.rooms[roomId] == (if roomId in s.rooms then s.rooms[roomId] + [id] else [id])
      && t.conns == s.conns[id := Conn(Some(roomId), Some(dn), true)]
      && Pending(t.outbox, x) == Pending(s.outbox, x) + (if x in t.rooms[roomId] then [UserJoined(id, dn)] else [])
  {
    assert id in s.provisional;
    JoinStep(s, id, cmd, roomId, dn);
    JoinedPool(s, id, roomId, dn);
    JoinedAnnounces(s, id, roomId, dn, x);
  }

  lemma JoinedPool(s: State, id: Id, roomId: string, dn: Value)
    requires Valid(s) && id in s.conns && s.conns[id].open && s.conns[id].roomId.None?
    ensures id in s.provisional
    ensures forall y :: y in Joined(s, id, roomId, dn).provisional <==> y in s.provisional && y != id
  {
    RemoveFromDistinct(id, s.provisional);
  }

  lemma JoinedAnnounces(s: State, id: Id, roomId: string, dn: Value, x: Id)
    requires Valid(s) && id in s.conns && s.conns[id].open && s.conns[id].roomId.None?
    ensures id in s.provisional
    ensures var t := Joined(s, id, roomId, dn);
      Pending(t.outbox, x) == Pending(s.outbox, x) + (if x in t.rooms[roomId] then [UserJoined(id, dn)] else [])
  {
    JoinedDistinct(s, id, roomId);
    SendEachDelivers(s.outbox, JoinedList(s.rooms, roomId, id), UserJoined(id, dn), x);
  }

  /** The joiner is not yet in the room it joins, so the new list has no duplicates. */
  lemma JoinedDistinct(s: State, id: Id, roomId: string)
    requires Valid(s) && id in s.conns && s.conns[id].roomId.None?
    ensures NoDups(JoinedList(s.rooms, roomId, id))
  {
    if roomId in s.rooms {
      assert id !in s.rooms[roomId];
      AppendFresh(s.rooms[roomId], id);
    }
  }

  /** The invariant survives a successful join. */
  lemma ValidJoined(s: State, id: Id, roomId: string, dn: Value)
    requires Valid(s) && id in s.conns && s.conns[id].open && s.conns[id].roomId.None?
    ensures id in s.provisional && Valid(Joined(s, id, roomId, dn))
  {
    var t := Joined(s, id, roomId, dn);
    var members := JoinedList(s.rooms, roomId, id);
    RemoveFromDistinct(id, s.provisional);
    JoinedDistinct(s, id, roomId);
    forall x ensures x in t.outbox <==> x in s.outbox {
      SendEachDelivers(s.outbox, members, UserJoined(id, dn), x);
    }
    assert PoolWellFormed(t);
    assert RoomsWellFormed(t);
    assert EveryOpenConnectionPlaced(t);
  }

  /** The invariant survives every parsed message from an open connection. */
  lemma ValidHandleParsed(s: State, id: Id, cmd: Message)
    requires Valid(s) && id in s.conns && s.conns[id].open
    ensures Valid(HandleParsed(s, id, cmd).state)
  {
    var c := s.conns[id];
    if c.roomId.None? {
      match ValidateJoin(cmd)
      case Err(_) =>
      case Ok((roomId, dn)) =>
        ValidJoined(s, id, roomId, dn);
        JoinStep(s, id, cmd, roomId, dn);
    } else {
      var t := HandleParsed(s, id, cmd).state;
      assert t.outbox.Keys == s.outbox.Keys;
      assert t == s.(outbox := t.outbox);
    }
  }

  // ---------------------------------------------------------------------------
  // Relay

  /**
   * A relay from a joined connection whose destination is a member of the
   * sender's room delivers the command, with `source` and `displayname`
   * overwritten by the sender's, to that member only (the sender itself
   * included, when it names itself).
   */
  lemma RelayDelivers(s: State, id: Id, fields: Object, d: Id, x: Id)
    requires Valid(s) && id in s.conns && s.conns[id].open && s.conns[id].roomId.Some?
    requires Get(fields, "destination") == Some(Str(d))
    requires d in s.rooms[s.conns[id].roomId.value]
    ensures var step := HandleParsed(s, id, Obj(fields)); var t := step.state;
      && step.ok
      && HandleFrame(s, id, Text(Obj(fields))) == t
      && t.provisional == s.provisional && t.rooms == s.rooms && t.conns == s.conns
      && Pending(t.outbox, x) == Pending(s.outbox, x) +
           (if x == d then [Forward(Stamp(fields, id, s.conns[id].displayName.value))] else [])
  {
    var r := s.conns[id].roomId.value;
    var found := FirstWithUuid(s.rooms[r], Some(Str(d)));
    assert HasUuid(d, Some(Str(d)));
    HasUuidIsDestination(found.value, Some(Str(d)));
  }

  /**
   * A relay whose destination is not a member of the sender's room (or is
   * missing, or not a string) is dropped: nobody receives anything and the
   * tables are unchanged; the sender stays connected.
   */
  lemma RelayToAbsentDropped(s: State, id: Id, cmd: Message)
    requires Valid(s) && id in s.conns && s.conns[id].open && s.conns[id].roomId.Some?
    requires !cmd.NullMessage?
    requires forall d :: Destination(cmd) == Some(Str(d)) ==> d !in s.rooms[s.conns[id].roomId.value]
    ensures HandleParsed(s, id, cmd) == Step(s, true)
    ensures HandleFrame(s, id, Text(cmd)) == s
  {
    var members := s.rooms[s.conns[id].roomId.value];
    forall i | 0 <= i < |members| ensures !HasUuid(members[i], Destination(cmd)) {
      HasUuidIsDestination(members[i], Destination(cmd));
    }
  }

  // ---------------------------------------------------------------------------
  // Every frame

  /** A binary frame or unparsable text is handled as an ordinary close. */
  lemma BadFrameCloses(s: State, id: Id, frame: Frame)
    requires id in s.conns && (frame.Binary? || frame.Unparsable?)
    ensures HandleFrame(s, id, frame) == Close(s, id)
  {
  }

  /** The invariant survives every frame from an open connection. */
  lemma ValidHandleFrame(s: State, id: Id, frame: Frame)
    requires Valid(s) && id in s.conns && s.conns[id].open
    ensures Valid(HandleFrame(s, id, frame))
  {
    match frame
    case Binary => ValidClose(s, id);
    case Unparsable => ValidClose(s, id);
    case Text(cmd) =>
      ValidHandleParsed(s, id, cmd);
      var step := HandleParsed(s, id, cmd);
      if !step.ok {
        ValidClose(step.state, id);
      }
  }

  /**
   * Outboxes only grow: whatever a connection has been sent stays, in order,
   * at the front of what it is sent later (so the `{uuid}` message stays first).
   */
  lemma OutboxesOnlyGrow(s: State, id: Id, frame: Frame, x: Id)
    requires Valid(s) && id in s.conns && s.conns[id].open && x in s.outbox
    ensures var t := HandleFrame(s, id, frame); x in t.outbox && s.outbox[x] <= t.outbox[x]
  {
    var step: Step;
    match frame
    case Binary => CloseGrows(s, id, x);
    case Unparsable => CloseGrows(s, id, x);
    case Text(cmd) =>
      step := HandleParsed(s, id, cmd);
      ParsedGrows(s, id, cmd, x);
      if !step.ok {
        CloseGrows(step.state, id, x);
      }
  }

  lemma CloseGrows(s: State, id: Id, x: Id)
    requires id in s.conns && x in s.outbox
    ensures x in Close(s, id).outbox && s.outbox[x] <= Close(s, id).outbox[x]
  {
    match s.conns[id].roomId
    case None =>
    case Some(r) =>
      if r in s.rooms && RemoveConnectionFrom(id, s.rooms[r]).Some? {
        SendEachExtends(s.outbox, RemoveConnectionFrom(id, s.rooms[r]).value, UserLeft(id), x);
      }
  }

  lemma ParsedGrows(s: State, id: Id, cmd: Message, x: Id)
    requires id in s.conns && x in s.outbox
    ensures var t := HandleParsed(s, id, cmd).state; x in t.outbox && s.outbox[x] <= t.outbox[x]
  {
    var c := s.conns[id];
    if c.roomId.None? {
      match ValidateJoin(cmd)
      case Err(_) =>
      case Ok((roomId, dn)) =>
        SendEachExtends(s.outbox, JoinedList(s.rooms, roomId, id), UserJoined(id, dn), x);
    }
  }

  /**
   * Rooms are isolated: whatever frame a joined connection sends (a relay, a
   * malformed message, a close), a connection joined to a different room
   * receives nothing. (For a join, `JoinSucceeds` says that only the members
   * of the joined room hear of it.)
   */
  lemma RoomsIsolated(s: State, id: Id, frame: Frame, x: Id)
    requires Valid(s) && id in s.conns && s.conns[id].open && s.conns[id].roomId.Some?
    requires x in s.conns && s.conns[x].roomId.Some? && s.conns[id].roomId != s.conns[x].roomId
    ensures Pending(HandleFrame(s, id, frame).outbox, x) == Pending(s.outbox, x)
  {
    var r := s.conns[id].roomId.value;
    match frame
    case Binary => CloseIsolated(s, id, x);
    case Unparsable => CloseIsolated(s, id, x);
    case Text(cmd) =>
      var step := HandleParsed(s, id, cmd);
      if !step.ok {
        CloseIsolated(s, id, x);
      } else {
        match FirstWithUuid(s.rooms[r], Destination(cmd))
        case None =>
        case Some(d) =>
          assert d in s.rooms[r];
      }
  }

  lemma CloseIsolated(s: State, id: Id, x: Id)
    requires Valid(s) && id in s.conns
    requires x in s.conns && x != id && s.conns[x].roomId.Some?
    requires s.conns[id].roomId != s.conns[x].roomId
    ensures Pending(Close(s, id).outbox, x) == Pending(s.outbox, x)
  {
    match s.conns[id].roomId
    case None =>
    case Some(r) =>
      if r in s.rooms && RemoveConnectionFrom(id, s.rooms[r]).Some? {
        var rest := RemoveConnectionFrom(id, s.rooms[r]).value;
        assert x !in s.rooms[r];
        SendEachExtends(s.outbox, rest, UserLeft(id), x);
      }
  }

  /**
   * A joined connection's room and display name are set once and for all:
   * no later frame of its own, its close included, changes them, and no
   * frame changes any other connection's record.
   */
  lemma JoinedRecordFixed(s: State, id: Id, frame: Frame, x: Id)
    requires Valid(s) && id in s.conns && s.conns[id].open && s.conns[id].roomId.Some?
    requires x in s.conns
    ensures var t := HandleFrame(s, id, frame);
      && x in t.conns
      && t.conns[x].roomId == s.conns[x].roomId
      && t.conns[x].displayName == s.conns[x].displayName
      && (x != id ==> t.conns[x] == s.conns[x])
  {
    match frame
    case Binary =>
    case Unparsable =>
    case Text(cmd) =>
      var step := HandleParsed(s, id, cmd);
      assert step.state.conns == s.conns;
  }

  /**
   * A message whose processing throws changes nothing before it throws, and
   * the connection is then closed exactly as by an ordinary close.
   */
  lemma FailedMessageCloses(s: State, id: Id, cmd: Message)
    requires Valid(s) && id in s.conns && s.conns[id].open
    requires !HandleParsed(s, id, cmd).ok
    ensures HandleParsed(s, id, cmd).state == s
    ensures HandleFrame(s, id, Text(cmd)) == Close(s, id)
  {
    if s.conns[id].roomId.None? {
      assert id in s.provisional;
    }
  }

  /** A joined connection that sends `null` makes `cmd["destination"]` throw, and is closed. */
  lemma NullRelayCloses(s: State, id: Id)
    requires Valid(s) && id in s.conns && s.conns[id].open && s.conns[id].roomId.Some?
    ensures !HandleParsed(s, id, NullMessage).ok
    ensures HandleFrame(s, id, Text(NullMessage)) == Close(s, id)
  {
    FailedMessageCloses(s, id, NullMessage);
  }

  // ---------------------------------------------------------------------------
  // Room keys

  /** Every key of the room table obeys the room-id rule. */
  ghost predicate RoomKeysObeyRule(s: State)
  {
    forall r | r in s.rooms :: RoomIdCheck.CheckRoomId(r).Ok?
  }

  /**
   * Only a room id that passes the room-id rule ever becomes a key of the
   * room table: the start-up table has none, and no frame adds any other.
   */
  lemma RoomKeysObeyRuleKept(s: State, id: Id, frame: Frame)
    requires id in s.conns && RoomKeysObeyRule(s)
    ensures RoomKeysObeyRule(HandleFrame(s, id, frame))
    ensures RoomKeysObeyRule(Initial)
  {
    match frame
    case Binary => CloseKeepsRoomKeys(s, id);
    case Unparsable => CloseKeepsRoomKeys(s, id);
    case Text(cmd) =>
      var step := HandleParsed(s, id, cmd);
      ParsedAddsOnlyValidatedRoom(s, id, cmd);
      forall r | r in step.state.rooms ensures RoomIdCheck.CheckRoomId(r).Ok? {
        if r !in s.rooms {
          assert RoomIdCheck.CheckRoomId(ValidateJoin(cmd).value.0).Ok?;
        }
      }
      if !step.ok {
        CloseKeepsRoomKeys(step.state, id);
      }
  }

  lemma CloseKeepsRoomKeys(s: State, id: Id)
    requires id in s.conns
    ensures Close(s, id).rooms.Keys == s.rooms.Keys
  {
  }

  lemma ParsedAddsOnlyValidatedRoom(s: State, id: Id, cmd: Message)
    requires id in s.conns
    ensures forall r | r in HandleParsed(s, id, cmd).state.rooms ::
      r in s.rooms || (ValidateJoin(cmd).Ok? && r == ValidateJoin(cmd).value.0)
  {
  }

  // ---------------------------------------------------------------------------
  // An end-to-end run
  //
  // "u1" connects and joins "ABC123" as Alice, "u2" connects and joins as
  // Bob, then "u1" relays an offer to "u2". Each stage lemma takes what the
  // previous one ensures, and the `RunFrom…` lemmas chain them, each
  // proving one stage and handing its state to the next, so that
  // `TwoClientsScenario` follows the run from the initial tables: each client
  // learns its uuid first, both hear of Bob's join, Bob never hears of
  // Alice's (he was not yet connected), and the offer arrives stamped with
  // Alice's uuid and display name.

  /** Join request of the first client. */
  function AliceJoin(): Message
  {
    Obj(map["roomid" := Str("ABC123"), "displayname" := Str("Alice")])
  }

  /** Join request of the second client. */
  function BobJoin(): Message
  {
    Obj(map["roomid" := Str("ABC123"), "displayname" := Str("Bob")])
  }

  /** The first client's offer to the second. */
  function Offer(): Object
  {
    map["destination" := Str("u2"), "offer" := Str("X")]
  }

  lemma AliceConnects(s1: State)
    requires s1 == Accept(Initial, "u1")
    ensures Valid(s1) && s1.conns.Keys == {"u1"} && s1.conns["u1"] == Conn(None, None, true)
    ensures s1.rooms == map[] && s1.outbox["u1"] == [UuidMsg("u1")]
  {
    ValidInitial();
    AcceptSendsUuidThenPools(Initial, "u1");
  }

  lemma AliceJoins(s1: State, s2: State)
    requires Valid(s1) && s1.conns.Keys == {"u1"} && s1.conns["u1"] == Conn(None, None, true)
    requires s1.rooms == map[] && s1.outbox["u1"] == [UuidMsg("u1")]
    requires s2 == HandleFrame(s1, "u1", Text(AliceJoin()))
    ensures Valid(s2) && s2.conns.Keys == {"u1"} && s2.rooms == map["ABC123" := ["u1"]]
    ensures s2.conns["u1"] == Conn(Some("ABC123"), Some(Str("Alice")), true)
    ensures s2.outbox["u1"] == [UuidMsg("u1"), UserJoined("u1", Str("Alice"))]
  {
    RoomIdCheck.CheckRoomIdAcceptsExactlyAlphanumeric("ABC123");
    assert ValidateJoin(AliceJoin()) == Ok(("ABC123", Str("Alice")));
    JoinSucceeds(s1, "u1", AliceJoin(), "ABC123", Str("Alice"), "u1");
    ValidHandleFrame(s1, "u1", Text(AliceJoin()));
  }

  lemma BobConnects(s2: State, s3: State)
    requires Valid(s2) && s2.conns.Keys == {"u1"} && s2.rooms == map["ABC123" := ["u1"]]
    requires s2.conns["u1"] == Conn(Some("ABC123"), Some(Str("Alice")), true)
    requires s2.outbox["u1"] == [UuidMsg("u1"), UserJoined("u1", Str("Alice"))]
    requires s3 == Accept(s2, "u2")
    ensures Valid(s3) && s3.conns.Keys == {"u1", "u2"} && s3.rooms == map["ABC123" := ["u1"]]
    ensures s3.conns["u1"] == Conn(Some("ABC123"), Some(Str("Alice")), true)
    ensures s3.conns["u2"] == Conn(None, None, true)
    ensures s3.outbox["u1"] == [UuidMsg("u1"), UserJoined("u1", Str("Alice"))]
    ensures s3.outbox["u2"] == [UuidMsg("u2")]
  {
    assert "u1" != "u2" by { assert "u1"[1] != "u2"[1]; }
    AcceptSendsUuidThenPools(s2, "u2");
  }

  lemma BobJoinStep(s3: State)
    requires Valid(s3) && "u2" in s3.conns && s3.conns["u2"] == Conn(None, None, true)
    ensures "u2" in s3.provisional
    ensures HandleFrame(s3, "u2", Text(BobJoin())) == Joined(s3, "u2", "ABC123", Str("Bob"))
  {
    RoomIdCheck.CheckRoomIdAcceptsExactlyAlphanumeric("ABC123");
    assert ValidateJoin(BobJoin()) == Ok(("ABC123", Str("Bob")));
    ExactlyOnePlace(s3, "u2", "ABC123");
    JoinStep(s3, "u2", BobJoin(), "ABC123", Str("Bob"));
  }

  lemma BobJoins(s3: State, s4: State)
    requires Valid(s3) && "u1" in s3.conns && "u2" in s3.conns && "ABC123" in s3.rooms
    requires s3.rooms["ABC123"] == ["u1"]
    requires s3.conns["u1"] == Conn(Some("ABC123"), Some(Str("Alice")), true)
    requires s3.conns["u2"] == Conn(None, None, true)
    requires s3.outbox["u1"] == [UuidMsg("u1"), UserJoined("u1", Str("Alice"))]
    requires s3.outbox["u2"] == [UuidMsg("u2")]
    requires s4 == HandleFrame(s3, "u2", Text(BobJoin()))
    ensures Valid(s4) && "u1" in s4.conns && "ABC123" in s4.rooms
    ensures s4.rooms["ABC123"] == ["u1", "u2"]
    ensures s4.conns["u1"] == Conn(Some("ABC123"), Some(Str("Alice")), true)
    ensures s4.outbox["u1"] == [UuidMsg("u1"), UserJoined("u1", Str("Alice")), UserJoined("u2", Str("Bob"))]
    ensures s4.outbox["u2"] == [UuidMsg("u2"), UserJoined("u2", Str("Bob"))]
  {
    BobJoinStep(s3);
    ValidJoined(s3, "u2", "ABC123", Str("Bob"));
    BobJoinedState(s3);
  }

  /** Bob's join as the `Joined` state, apart from the frame that leads to it. */
  lemma BobJoinedState(s3: State)
    requires Valid(s3) && "u1" in s3.conns && "u2" in s3.conns && "ABC123" in s3.rooms
    requires s3.rooms["ABC123"] == ["u1"]
    requires s3.conns["u1"] == Conn(Some("ABC123"), Some(Str("Alice")), true)
    requires s3.conns["u2"] == Conn(None, None, true)
    requires s3.outbox["u1"] == [UuidMsg("u1"), UserJoined("u1", Str("Alice"))]
    requires s3.outbox["u2"] == [UuidMsg("u2")]
    ensures var s4 := Joined(s3, "u2", "ABC123", Str("Bob"));
      && "u1" in s4.conns && "ABC123" in s4.rooms && "u1" in s4.outbox && "u2" in s4.outbox
      && s4.rooms["ABC123"] == ["u1", "u2"]
      && s4.conns["u1"] == Conn(Some("ABC123"), Some(Str("Alice")), true)
      && s4.outbox["u1"] == [UuidMsg("u1"), UserJoined("u1", Str("Alice")), UserJoined("u2", Str("Bob"))]
      && s4.outbox["u2"] == [UuidMsg("u2"), UserJoined("u2", Str("Bob"))]
  {
    assert "u1" != "u2" by { assert "u1"[1] != "u2"[1]; }
    JoinedAnnounces(s3, "u2", "ABC123", Str("Bob"), "u1");
    JoinedAnnounces(s3, "u2", "ABC123", Str("Bob"), "u2");
  }

  lemma AliceOffers(s4: State, s5: State)
    requires Valid(s4) && "u1" in s4.conns && "ABC123" in s4.rooms
    requires s4.rooms["ABC123"] == ["u1", "u2"]
    requires s4.conns["u1"] == Conn(Some("ABC123"), Some(Str("Alice")), true)
    requires s4.outbox["u1"] == [UuidMsg("u1"), UserJoined("u1", Str("Alice")), UserJoined("u2", Str("Bob"))]
    requires s4.outbox["u2"] == [UuidMsg("u2"), UserJoined("u2", Str("Bob"))]
    requires s5 == HandleFrame(s4, "u1", Text(Obj(Offer())))
    ensures "u1" in s5.outbox && "u2" in s5.outbox
    ensures s5.outbox["u1"] == [UuidMsg("u1"), UserJoined("u1", Str("Alice")), UserJoined("u2", Str("Bob"))]
    ensures s5.outbox["u2"] == [UuidMsg("u2"), UserJoined("u2", Str("Bob")),
                                Forward(map["destination" := Str("u2"), "offer" := Str("X"),
                                            "source" := Str("u1"), "displayname" := Str("Alice")])]
  {
    assert "u1" != "u2" by { assert "u1"[1] != "u2"[1]; }
    RelayDelivers(s4, "u1", Offer(), "u2", "u1");
    RelayDelivers(s4, "u1", Offer(), "u2", "u2");
  }

  /** The end of the run: Alice has heard both joins, Bob his own join and the stamped offer. */
  ghost predicate OfferDelivered(s5: State)
  {
    && "u1" in s5.outbox && "u2" in s5.outbox
    && s5.outbox["u1"] == [UuidMsg("u1"), UserJoined("u1", Str("Alice")), UserJoined("u2", Str("Bob"))]
    && s5.outbox["u2"] == [UuidMsg("u2"), UserJoined("u2", Str("Bob")),
                           Forward(map["destination" := Str("u2"), "offer" := Str("X"),
                                       "source" := Str("u1"), "displayname" := Str("Alice")])]
  }

  /** The run from Bob's connection on. */
  lemma RunFromBobConnected(s3: State, s4: State, s5: State)
    requires Valid(s3) && "u1" in s3.conns && "u2" in s3.conns && "ABC123" in s3.rooms
    requires s3.rooms["ABC123"] == ["u1"]
    requires s3.conns["u1"] == Conn(Some("ABC123"), Some(Str("Alice")), true)
    requires s3.conns["u2"] == Conn(None, None, true)
    requires s3.outbox["u1"] == [UuidMsg("u1"), UserJoined("u1", Str("Alice"))]
    requires s3.outbox["u2"] == [UuidMsg("u2")]
    requires s4 == HandleFrame(s3, "u2", Text(BobJoin()))
    requires "u1" in s4.conns && s5 == HandleFrame(s4, "u1", Text(Obj(Offer())))
    ensures OfferDelivered(s5)
  {
    BobJoins(s3, s4);
    AliceOffers(s4, s5);
  }

  /** The run from Alice's join on. */
  lemma RunFromAliceJoined(s2: State, s3: State, s4: State, s5: State)
    requires Valid(s2) && s2.conns.Keys == {"u1"} && s2.rooms == map["ABC123" := ["u1"]]
    requires s2.conns["u1"] == Conn(Some("ABC123"), Some(Str("Alice")), true)
    requires s2.outbox["u1"] == [UuidMsg("u1"), UserJoined("u1", Str("Alice"))]
    requires s3 == Accept(s2, "u2")
    requires s4 == HandleFrame(s3, "u2", Text(BobJoin()))
    requires "u1" in s4.conns && s5 == HandleFrame(s4, "u1", Text(Obj(Offer())))
    ensures OfferDelivered(s5)
  {
    BobConnects(s2, s3);
    RunFromBobConnected(s3, s4, s5);
  }

  /** The run from Alice's connection on. */
  lemma RunFromAliceConnected(s1: State, s2: State, s3: State, s4: State, s5: State)
    requires Valid(s1) && s1.conns.Keys == {"u1"} && s1.conns["u1"] == Conn(None, None, true)
    requires s1.rooms == map[] && s1.outbox["u1"] == [UuidMsg("u1")]
    requires s2 == HandleFrame(s1, "u1", Text(AliceJoin()))
    requires s3 == Accept(s2, "u2")
    requires s4 == HandleFrame(s3, "u2", Text(BobJoin()))
    requires "u1" in s4.conns && s5 == HandleFrame(s4, "u1", Text(Obj(Offer())))
    ensures OfferDelivered(s5)
  {
    AliceJoins(s1, s2);
    RunFromAliceJoined(s2, s3, s4, s5);
  }

  /**
   * The whole run from the start-up tables: Alice connects and joins, Bob
   * connects and joins, Alice sends Bob an offer.
   */
  lemma TwoClientsScenario(s1: State, s2: State, s3: State, s4: State, s5: State)
    requires s1 == Accept(Initial, "u1")
    requires s2 == HandleFrame(s1, "u1", Text(AliceJoin()))
    requires s3 == Accept(s2, "u2")
    requires s4 == HandleFrame(s3, "u2", Text(BobJoin()))
    requires s5 == HandleFrame(s4, "u1", Text(Obj(Offer())))
    ensures OfferDelivered(s5)
  {
    AliceConnects(s1);
    RunFromAliceConnected(s1, s2, s3, s4, s5);
  }
}
