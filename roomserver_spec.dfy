/**
 * The signalling relay of roomserver.mjs as a pure state machine.
 *
 * The server's tables are one `State` value: the pool of connections that
 * have not joined yet, the map from room id to its ordered member list, one
 * record per connection (its room and display name once joined, and whether
 * its transport is still open), and one outbox per connection holding what
 * the server has sent it, oldest first. Each event of the source (accepting a
 * connection, a message frame, a close) is a function from state to state;
 * the class in roomserver.dfy performs the same steps in place and is proved
 * to agree with these functions.
 */
module RoomServerSpec {
  import opened Wrappers
  import opened Json
  import RoomIdCheck

  /** A connection's uuid: the server addresses connections by it. */
  type Id = string

  /** What the server sends to a client. */
  datatype Msg =
    | UuidMsg(uuid: Id)                           // {uuid}
    | UserJoined(uuid: Id, displayName: Value)    // {userjoined, displayname}
    | UserLeft(uuid: Id)                          // {userleft}
    | Forward(cmd: Object)                        // a relayed command, stamped with source and displayname

  /** The per-connection fields: room and display name (null until joined) and the transport's state. */
  datatype Conn = Conn(roomId: Option<string>, displayName: Option<Value>, open: bool)

  /** An inbound frame: binary data, text that does not parse as JSON, or a parsed message. */
  datatype Frame = Binary | Unparsable | Text(cmd: Message)

  /** Why a join request is refused (the source throws). */
  datatype JoinError =
    | NotAnObject
    | MissingRoomId
    | MissingDisplayName
    | RoomIdNotString
    | InvalidRoomId(reason: RoomIdCheck.RoomIdError)

  datatype State = State(
    provisional: seq<Id>,
    rooms: map<string, seq<Id>>,
    conns: map<Id, Conn>,
    outbox: map<Id, seq<Msg>>)

  /** The result of processing one parsed message: the new state, and false when processing threw. */
  datatype Step = Step(state: State, ok: bool)

  /** The server's tables at start-up: nothing pooled, no rooms. */
  const Initial: State := State([], map[], map[], map[])

  // ---------------------------------------------------------------------------
  // Lists of connections

  ghost predicate NoDups(l: seq<Id>)
  {
    forall i, j :: 0 <= i < j < |l| ==> l[i] != l[j]
  }

  /** `l.indexOf(c)`: the first position holding `c`, or -1. */
  function IndexOf(l: seq<Id>, c: Id): (i: int)
    ensures -1 <= i < |l|
    ensures i < 0 <==> c !in l
    ensures 0 <= i ==> l[i] == c && c !in l[..i]
  {
    if l == [] then -1
    else if l[0] == c then 0
    else
      var k := IndexOf(l[1..], c);
      assert k >= 0 ==> l[1..][..k] == l[1..k + 1];
      if k < 0 then -1 else k + 1
  }

  /**
   * `removeConnectionFrom(c, l)`: fails (None) when `c` is not in `l`;
   * otherwise removes the first occurrence of `c`, keeping the others in order.
   */
  function RemoveConnectionFrom(c: Id, l: seq<Id>): (r: Option<seq<Id>>)
    ensures r.None? <==> c !in l
    ensures r.Some? ==> |r.value| + 1 == |l| && multiset(r.value) + multiset{c} == multiset(l)
    ensures r.Some? ==>
      exists i :: 0 <= i < |l| && l[i] == c && c !in l[..i] && r.value == l[..i] + l[i + 1..]
  {
    var idx := IndexOf(l, c);
    if idx < 0 then None
    else
      assert l == l[..idx] + [c] + l[idx + 1..];
      Some(l[..idx] + l[idx + 1..])
  }

  /** Removing a member from a list without duplicates leaves exactly the other members, still without duplicates. */
  lemma RemoveFromDistinct(c: Id, l: seq<Id>)
    requires NoDups(l) && c in l
    ensures RemoveConnectionFrom(c, l).Some?
    ensures NoDups(RemoveConnectionFrom(c, l).value)
    ensures forall x :: x in RemoveConnectionFrom(c, l).value <==> x in l && x != c
  {
    var idx := IndexOf(l, c);
    assert RemoveConnectionFrom(c, l).value == l[..idx] + l[idx + 1..];
    RemoveAtDistinct(l, idx);
  }

  /** Cutting position `idx` out of a list without duplicates. */
  lemma RemoveAtDistinct(l: seq<Id>, idx: nat)
    requires NoDups(l) && idx < |l|
    ensures NoDups(l[..idx] + l[idx + 1..])
    ensures forall x :: x in l[..idx] + l[idx + 1..] <==> x in l && x != l[idx]
  {
    var rest := l[..idx] + l[idx + 1..];
    forall i, j | 0 <= i < j < |rest| ensures rest[i] != rest[j] {
      assert rest[i] == l[if i < idx then i else i + 1];
      assert rest[j] == l[if j < idx then j else j + 1];
    }
    assert l == l[..idx] + [l[idx]] + l[idx + 1..];
    assert l[idx] !in l[..idx] by {
      forall k | 0 <= k < idx ensures l[..idx][k] != l[idx] {}
    }
    var tail := l[idx + 1..];
    assert l[idx] !in tail by {
      forall k | 0 <= k < |tail| ensures tail[k] != l[idx] {
        assert tail[k] == l[idx + 1 + k];
      }
    }
  }

  /** Appending a connection that is not yet in a list without duplicates keeps it without duplicates. */
  lemma AppendFresh(l: seq<Id>, c: Id)
    requires NoDups(l) && c !in l
    ensures NoDups(l + [c])
  {
    forall i, j | 0 <= i < j < |l + [c]| ensures (l + [c])[i] != (l + [c])[j] {
      if j == |l| {
        assert (l + [c])[i] == l[i];
      }
    }
  }

  // ---------------------------------------------------------------------------
  // Outboxes

  /** Everything sent so far to `id` (nothing for a connection the server never saw). */
  function Pending(ob: map<Id, seq<Msg>>, id: Id): seq<Msg>
  {
    if id in ob then ob[id] else []
  }

  /** `c.send(m)`: append `m` to the outbox of `to`. */
  function Send(ob: map<Id, seq<Msg>>, to: Id, m: Msg): map<Id, seq<Msg>>
  {
    ob[to := Pending(ob, to) + [m]]
  }

  /** `for (let c of members) c.send(m)`: send `m` to each member in list order. */
  function SendEach(ob: map<Id, seq<Msg>>, members: seq<Id>, m: Msg): map<Id, seq<Msg>>
    decreases |members|
  {
    if members == [] then ob
    else Send(SendEach(ob, members[..|members| - 1], m), members[|members| - 1], m)
  }

  /**
   * A broadcast over a list without duplicates delivers exactly one copy of
   * `m` to each member and nothing to anyone else.
   */
  lemma {:induction false} SendEachDelivers(ob: map<Id, seq<Msg>>, members: seq<Id>, m: Msg, x: Id)
    requires NoDups(members)
    ensures x in SendEach(ob, members, m) <==> x in ob || x in members
    ensures Pending(SendEach(ob, members, m), x) == Pending(ob, x) + (if x in members then [m] else [])
  {
    if members != [] {
      var front := members[..|members| - 1];
      var last := members[|members| - 1];
      assert members == front + [last];
      assert NoDups(front);
      assert last !in front;
      SendEachDelivers(ob, front, m, x);
    }
  }

  /** Sending to one member and broadcasting keep every key and only ever append. */
  lemma {:induction false} SendEachExtends(ob: map<Id, seq<Msg>>, members: seq<Id>, m: Msg, x: Id)
    ensures x in ob ==> x in SendEach(ob, members, m)
    ensures x in ob ==> ob[x] <= SendEach(ob, members, m)[x]
    ensures x !in members ==> Pending(SendEach(ob, members, m), x) == Pending(ob, x)
    ensures x !in members ==> (x in SendEach(ob, members, m) <==> x in ob)
  {
    if members != [] {
      SendEachExtends(ob, members[..|members| - 1], m, x);
      assert members == members[..|members| - 1] + [members[|members| - 1]];
    }
  }

  // ---------------------------------------------------------------------------
  // Join requests and relay lookup

  /**
   * `validateRoomId(cmd)`: the room id and display name of a join request,
   * checked in the source's order: the `roomid` key, the `displayname` key,
   * then the room-id rule.
   */
  function ValidateJoin(cmd: Message): (r: Result<(string, Value), JoinError>)
    ensures r.Ok? <==>
      && cmd.Obj?
      && "roomid" in cmd.fields && "displayname" in cmd.fields
      && cmd.fields["roomid"].Str?
      && RoomIdCheck.CheckRoomId(cmd.fields["roomid"].s).Ok?
    ensures r.Ok? ==> cmd.fields["roomid"] == Str(r.value.0) && cmd.fields["displayname"] == r.value.1
    ensures cmd.Obj? && "roomid" !in cmd.fields ==> r == Err(MissingRoomId)
    ensures cmd.Obj? && "roomid" in cmd.fields && "displayname" !in cmd.fields ==> r == Err(MissingDisplayName)
  {
    match cmd
    case NullMessage => Err(NotAnObject)
    case Primitive => Err(NotAnObject)
    case ArrayMessage => Err(MissingRoomId)
    case Obj(fields) =>
      if "roomid" !in fields then Err(MissingRoomId)
      else if "displayname" !in fields then Err(MissingDisplayName)
      else match fields["roomid"]
        case Str(roomId) =>
          (match RoomIdCheck.CheckRoomId(roomId)
           case Ok(_) => Ok((roomId, fields["displayname"]))
           case Err(e) => Err(InvalidRoomId(e)))
        case _ => Err(RoomIdNotString)
  }

  /** `cmd["destination"]`, or None where JavaScript yields `undefined` (not for `null`, which throws). */
  function Destination(cmd: Message): (r: Option<Value>)
    ensures r.Some? ==> cmd.Obj? && "destination" in cmd.fields && cmd.fields["destination"] == r.value
    ensures cmd.Obj? && "destination" in cmd.fields ==> r == Some(cmd.fields["destination"])
  {
    match cmd
    case Obj(fields) => Get(fields, "destination")
    case _ => None
  }

  /** `c.getUuid() === dst`. */
  predicate HasUuid(c: Id, dst: Option<Value>)
  {
    dst.Some? && StrictEquals(Str(c), dst.value)
  }

  /**
   * The first member, in list order, whose uuid is the destination; None when
   * there is none. (Only a member whose uuid is that string can match, so the
   * first match is the destination itself.)
   */
  function FirstWithUuid(members: seq<Id>, dst: Option<Value>): (r: Option<Id>)
    ensures r.None? <==> forall i :: 0 <= i < |members| ==> !HasUuid(members[i], dst)
    ensures r.Some? ==> r.value in members && HasUuid(r.value, dst)
  {
    if members == [] then None
    else if HasUuid(members[0], dst) then Some(members[0])
    else FirstWithUuid(members[1..], dst)
  }

  /** Only the connection whose uuid is the destination string matches it. */
  lemma HasUuidIsDestination(c: Id, dst: Option<Value>)
    ensures HasUuid(c, dst) <==> dst == Some(Str(c))
  {
  }

  /** The relayed command: the client's object with `source` and `displayname` overwritten by the server. */
  function Stamp(fields: Object, source: Id, displayName: Value): (r: Object)
    ensures r.Keys == fields.Keys + {"source", "displayname"}
    ensures r["source"] == Str(source) && r["displayname"] == displayName
    ensures forall k :: k in fields && k != "source" && k != "displayname" ==> r[k] == fields[k]
  {
    fields["source" := Str(source)]["displayname" := displayName]
  }

  /** The room list after `id` joins `roomId`: appended at the end, or a new one-member list. */
  function JoinedList(rooms: map<string, seq<Id>>, roomId: string, id: Id): seq<Id>
  {
    if roomId in rooms then rooms[roomId] + [id] else [id]
  }

  /** A connection's display name as the source holds it (`null` until set). */
  function DisplayValue(c: Conn): Value
  {
    if c.displayName.Some? then c.displayName.value else Null
  }

  // ---------------------------------------------------------------------------
  // Events

  /** The accept handler: a new connection is sent its uuid, then pushed onto the pool. */
  function Accept(s: State, id: Id): State
  {
    s.(conns := s.conns[id := Conn(None, None, true)],
       outbox := s.outbox[id := [UuidMsg(id)]],
       provisional := s.provisional + [id])
  }

  /**
   * `onClose`: remove the connection from the pool, or from its room followed
   * by a `userleft` broadcast to those left. A removal that fails is swallowed.
   */
  function Close(s: State, id: Id): State
    requires id in s.conns
  {
    var c := s.conns[id];
    var closed := s.(conns := s.conns[id := c.(open := false)]);
    match c.roomId
    case None =>
      (match RemoveConnectionFrom(id, s.provisional)
       case None => closed
       case Some(pool) => closed.(provisional := pool))
    case Some(r) =>
      if r !in s.rooms then closed
      else match RemoveConnectionFrom(id, s.rooms[r])
        case None => closed
        case Some(rest) => closed.(rooms := s.rooms[r := rest], outbox := SendEach(s.outbox, rest, UserLeft(id)))
  }

  /**
   * `onMessageParsed`: the first message must be a join request; every later
   * one is relayed to the first member of the sender's room with the named uuid.
   */
  function HandleParsed(s: State, id: Id, cmd: Message): (r: Step)
    requires id in s.conns
    ensures r.state.conns.Keys == s.conns.Keys
  {
    var c := s.conns[id];
    match c.roomId
    case None =>
      (match ValidateJoin(cmd)
       case Err(_) => Step(s, false)
       case Ok((roomId, dn)) =>
         var named := s.(conns := s.conns[id := c.(roomId := Some(roomId), displayName := Some(dn))]);
         match RemoveConnectionFrom(id, s.provisional)
         case None => Step(named, false)
         case Some(pool) =>
           var members := JoinedList(s.rooms, roomId, id);
           Step(named.(provisional := pool,
                       rooms := s.rooms[roomId := members],
                       outbox := SendEach(s.outbox, members, UserJoined(id, dn))), true))
    case Some(r) =>
      if cmd.NullMessage? || r !in s.rooms then Step(s, false)
      else match FirstWithUuid(s.rooms[r], Destination(cmd))
        case None => Step(s, true)
        case Some(d) =>
          assert cmd.Obj?;
          Step(s.(outbox := Send(s.outbox, d, Forward(Stamp(cmd.fields, id, DisplayValue(c))))), true)
  }

  /** `onMessage`: a binary frame, unparsable text or a message that throws closes the connection. */
  function HandleFrame(s: State, id: Id, frame: Frame): State
    requires id in s.conns
  {
    match frame
    case Binary => Close(s, id)
    case Unparsable => Close(s, id)
    case Text(cmd) =>
      var step := HandleParsed(s, id, cmd);
      if step.ok then step.state else Close(step.state, id)
  }

  // ---------------------------------------------------------------------------
  // The invariant of the tables

  /** Every connection in the pool is open and unjoined; the pool has no duplicates. */
  ghost predicate PoolWellFormed(s: State)
  {
    && NoDups(s.provisional)
    && forall id | id in s.provisional :: id in s.conns && s.conns[id].open && s.conns[id].roomId.None?
  }

  /** Every room list has no duplicates and holds only open connections whose room is that room. */
  ghost predicate RoomsWellFormed(s: State)
  {
    forall r | r in s.rooms ::
      && NoDups(s.rooms[r])
      && forall id | id in s.rooms[r] :: id in s.conns && s.conns[id].open && s.conns[id].roomId == Some(r)
  }

  /** Every open connection is where its record says: in the pool if unjoined, in its room's list if joined. */
  ghost predicate EveryOpenConnectionPlaced(s: State)
  {
    forall id | id in s.conns && s.conns[id].open ::
      match s.conns[id].roomId
      case None => id in s.provisional
      case Some(r) => r in s.rooms && id in s.rooms[r]
  }

  /** Room and display name are set together; every connection has an outbox. */
  ghost predicate RecordsWellFormed(s: State)
  {
    && s.outbox.Keys == s.conns.Keys
    && forall id | id in s.conns :: s.conns[id].roomId.Some? == s.conns[id].displayName.Some?
  }

  ghost predicate Valid(s: State)
  {
    PoolWellFormed(s) && RoomsWellFormed(s) && EveryOpenConnectionPlaced(s) && RecordsWellFormed(s)
  }
}
