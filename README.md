# multichat relay core in Dafny

A model of the signalling core of multichat, a small WebRTC video-chat
system. The server accepts WebSocket connections, gives each a uuid, and puts
it in a pool of connections that have not joined yet. A connection's first
message names a room and a display name. From then on, messages it sends are
relayed to one named member of its room, stamped with the sender's uuid and
name. Joins and leaves are broadcast to the room. The browser side,
`RoomConnection`, runs the other half of that protocol.

The model has three parts:

- **Room-id rule** (`RoomIdCheck`, checkroomid.dfy): `checkRoomId` as a
  function returning a `Result`. It checks the length (6..128) first, then
  every character against the 62-character alphabet.
- **Relay server** (roomserver.mjs):
  - `RoomServerSpec`: a state machine over the pool, the room table, each
    connection's record and what each connection has been sent.
  - `RoomServerProperties`: what it promises.
  - `RoomServer.Server`: a class whose fields are those tables. The accept
    handler, `onClose`, `onMessageParsed` and `onMessage` update the fields
    in place. Each method is proved to produce exactly the state the spec
    function gives.
  - `RoomServer.FindDestination` and `RoomServer.Server.Broadcast`: the
    source's three loops, proved against the spec functions `FirstWithUuid`
    and `SendEach`. `FindDestination` is the destination search
    (roomserver.mjs:111-118); `Broadcast` stands for both announcement loops,
    `userleft` (roomserver.mjs:75-76) and `userjoined` (roomserver.mjs:103-104).
- **Browser connection** (rtcpage.js, `RoomConnection` only):
  - `RtcPageSpec`: a state machine over the object's fields.
  - `RtcPageProperties`: what it promises.
  - `RtcPage.RoomConnection`: a class whose methods update those fields, each
    proved against the spec function.
  - The WebSocket is an abstract handle. Sent messages go to an outbox, and
    the overridable hooks (`onFatalError`, `onUserJoined`, `onUserLeft`,
    `onP2PMessage`) are recorded in the order they are invoked.

Parsed JSON is modelled in `Json`:

- A value is a string, `null`, a number or boolean (kept as its canonical
  text), or an array/object (opaque).
- A parsed frame is an object, `null`, an array or a primitive.
- `===` is `StrictEquals`.

Where the code and the protocol description differ, the model follows the
code, with two exceptions, both corrected behaviour from "## Findings":

- **The room table is looked up by its own keys only** (first row). The code
  as written is modelled beside it in `RoomTableAsWritten`.
- **A `roomid` that is not a string is refused** (`RoomIdNotString`, second
  row). The code as written is modelled beside it in `RoomIdArrayAsWritten`.

Otherwise:

- **Empty rooms are kept.** When the last member leaves, the room's entry stays
  in the table as an empty list (`LastLeaverLeavesEmptyRoom`). It is not
  deleted.
- **Forwarded messages keep `destination`.** The forwarded command still
  carries its `destination` key next to the added `source` and `displayname`
  (`Stamp`, `RelayDelivers`).

## Model

| member | source | states |
|---|---|---|
| RoomIdCheck.AllowedIsAsciiAlphanumeric | checkroomid.js:2 | the 62-character alphabet is exactly the ASCII letters and digits |
| RoomIdCheck.FirstDisallowed | checkroomid.js:10-14 | None exactly when every character is allowed; otherwise the index of a disallowed character with every earlier one allowed |
| RoomIdCheck.CheckRoomId | checkroomid.js:4-15 | shorter than 6 gives the too-short error and longer than 128 gives the too-long error, whatever the characters; a character error only for lengths in range |
| RoomIdCheck.CheckRoomIdAcceptsExactlyAlphanumeric | checkroomid.js:4-15 | accepted if and only if the length is in 6..128 and every character is an ASCII letter or digit (case-sensitive, input untouched) |
| RoomIdCheck.CheckRoomIdReportsFirstBadCharacter | checkroomid.js:10-13 | the reported character is not alphanumeric and occurs at a position before which every character is alphanumeric |
| RoomServerSpec.IndexOf | roomserver.mjs:20 | -1 exactly when absent; otherwise the first position holding the element |
| RoomServerSpec.RemoveConnectionFrom | roomserver.mjs:18-25 | fails exactly when the connection is absent; otherwise removes its first occurrence only, keeping the others in order (one element fewer, same multiset less one copy) |
| RoomServerSpec.RemoveFromDistinct | roomserver.mjs:18-25 | on a list without duplicates the removal succeeds and leaves exactly the other members, without duplicates |
| RoomServerSpec.SendEachDelivers | roomserver.mjs:75-76 | a broadcast over a duplicate-free list gives each member exactly one copy and nobody else anything |
| RoomServerSpec.SendEachExtends | roomserver.mjs:103-104 | a broadcast only appends, and non-members' outboxes are unchanged |
| RoomServerSpec.ValidateJoin | roomserver.mjs:28-41 | Ok exactly for an object with `roomid` and `displayname` whose room id passes the room-id check, returning those two fields; missing `roomid` is reported before missing `displayname` |
| RoomServerSpec.Destination | roomserver.mjs:109 | a destination exists exactly when the command is an object with its own `destination` field, and it is that field's value |
| RoomServerSpec.FirstWithUuid | roomserver.mjs:111-119 | None exactly when no member's uuid is the destination; otherwise a member of the list whose uuid it is |
| RoomServerSpec.HasUuidIsDestination | roomserver.mjs:114 | `c.getUuid() === dst` holds exactly when the destination is the member's uuid string |
| RoomServerSpec.Stamp | roomserver.mjs:124-126 | the forwarded command keeps every other field and has `source` and `displayname` set to the sender's |
| RoomServerSpec.HandleParsed | roomserver.mjs:91-130 | no message adds or removes a connection record |
| RoomServer.FindDestination | roomserver.mjs:110-119 | the loop returns the first member whose uuid is the destination, None exactly when there is none |
| RoomServer.Server.constructor | roomserver.mjs:15-16 | start-up tables are empty and satisfy the invariant |
| RoomServer.Server.Broadcast | roomserver.mjs:103-104 | the loop sends to every member in list order, as `SendEach` |
| RoomServer.Server.Accept | roomserver.mjs:156-160 | the fields become exactly `Accept` of the old state; the invariant is kept |
| RoomServer.Server.OnClose | roomserver.mjs:64-83 | the fields become exactly `Close` of the old state; the invariant is kept |
| RoomServer.Server.OnMessageParsed | roomserver.mjs:91-130 | the fields and the thrown/not-thrown outcome are exactly `HandleParsed` of the old state; the invariant is kept |
| RoomServer.Server.OnMessage | roomserver.mjs:132-153 | the fields become exactly `HandleFrame` of the old state; the invariant is kept |
| RoomServerProperties.ExactlyOnePlace | roomserver.mjs:15-16 | an open unjoined connection is in the pool and no room; an open joined one is in its own room only; a closed one nowhere |
| RoomServerProperties.ValidInitial | roomserver.mjs:15-16 | the empty tables satisfy the invariant |
| RoomServerProperties.AcceptSendsUuidThenPools | roomserver.mjs:45-59 | a new connection's first and only message is its `{uuid}`; it is then appended to the pool; nobody else is sent anything |
| RoomServerProperties.CloseUnjoined | roomserver.mjs:70-71 | closing an unjoined connection removes it from the pool and changes no room and no outbox |
| RoomServerProperties.CloseJoined | roomserver.mjs:72-77 | closing a joined connection removes it from its room only, and each remaining member, and nobody else, receives exactly one `userleft` |
| RoomServerProperties.CloseNotFoundSwallowed | roomserver.mjs:79-82 | a close whose removal fails changes nothing but the transport state |
| RoomServerProperties.CloseOfClosedChangesNothing | roomserver.mjs:64-83 | closing a connection already closed changes nothing |
| RoomServerProperties.LastLeaverLeavesEmptyRoom | roomserver.mjs:74 | the last member's leaving leaves the room's entry as an empty list |
| RoomServerProperties.ValidClose | roomserver.mjs:64-83 | every close keeps the invariant |
| RoomServerProperties.JoinRejected | roomserver.mjs:93-96 | a refused join sets nothing, and the resulting close takes the connection out of the pool, sending nothing |
| RoomServerProperties.JoinRefusedExactly | roomserver.mjs:28-41 | a join object is refused exactly when a key is missing, the room id is not a string, or it breaks the length or character rule |
| RoomServerProperties.JoinStep | roomserver.mjs:93-105 | a valid join from an unjoined connection is the `Joined` state and does not throw |
| RoomServerProperties.JoinSucceeds | roomserver.mjs:93-105 | a valid join leaves the pool, appends the joiner to its room (a new room if absent), records room and name, and every member, joiner included, and nobody else gets exactly one `userjoined` |
| RoomServerProperties.JoinedPool | roomserver.mjs:96 | the joiner and only the joiner leaves the pool |
| RoomServerProperties.JoinedAnnounces | roomserver.mjs:103-104 | each member of the joined room receives one `userjoined` and nobody else anything |
| RoomServerProperties.JoinedDistinct | roomserver.mjs:97-100 | the joined room's list has no duplicates |
| RoomServerProperties.ValidJoined | roomserver.mjs:93-105 | a join keeps the invariant |
| RoomServerProperties.ValidHandleParsed | roomserver.mjs:91-130 | every parsed message keeps the invariant |
| RoomServerProperties.RelayDelivers | roomserver.mjs:106-129 | a relay to a member of the sender's room delivers the stamped command to that member only and changes no table |
| RoomServerProperties.RelayToAbsentDropped | roomserver.mjs:121-122 | a relay to a uuid not in the sender's room is dropped, and the sender stays connected |
| RoomServerProperties.BadFrameCloses | roomserver.mjs:134-151 | a binary or unparsable frame is exactly an ordinary close |
| RoomServerProperties.ValidHandleFrame | roomserver.mjs:132-153 | every frame keeps the invariant |
| RoomServerProperties.OutboxesOnlyGrow | roomserver.mjs:85-89 | what a connection has been sent stays, in order, at the front of what it is sent later |
| RoomServerProperties.CloseGrows | roomserver.mjs:64-83 | a close only appends to outboxes |
| RoomServerProperties.ParsedGrows | roomserver.mjs:91-130 | a parsed message only appends to outboxes |
| RoomServerProperties.RoomsIsolated | roomserver.mjs:106-129 | no frame from a joined connection sends anything to a connection joined to another room |
| RoomServerProperties.CloseIsolated | roomserver.mjs:72-77 | a close sends nothing to a connection in another room |
| RoomServerProperties.JoinedRecordFixed | roomserver.mjs:93-106 | once a connection has joined, no later frame of its own, a close included, changes its room or display name, and it changes no other connection's record |
| RoomServerProperties.FailedMessageCloses | roomserver.mjs:141-152 | a message whose processing throws changes nothing itself, and the frame is then exactly an ordinary close |
| RoomServerProperties.NullRelayCloses | roomserver.mjs:106-152 | a `null` message from a joined connection throws at `cmd["destination"]`, so the frame is exactly an ordinary close |
| RoomServerProperties.RoomKeysObeyRuleKept | roomserver.mjs:36-38 | the start state and every frame keep every key of the room table an id that passes the room-id check |
| RoomServerProperties.AliceConnects | roomserver.mjs:156-160 | first client connects: its outbox is its uuid, it is pooled |
| RoomServerProperties.AliceJoins | roomserver.mjs:93-105 | first client joins "ABC123" as Alice and is told of its own join |
| RoomServerProperties.BobConnects | roomserver.mjs:156-160 | second client connects and receives only its uuid |
| RoomServerProperties.BobJoinStep | roomserver.mjs:93-105 | the second client's valid join request is a successful join |
| RoomServerProperties.BobJoins | roomserver.mjs:93-105 | both clients receive Bob's `userjoined`; Bob is never told of Alice's earlier join |
| RoomServerProperties.AliceOffers | roomserver.mjs:106-129 | the offer reaches Bob stamped `source: "u1"`, `displayname: "Alice"`, with Alice sent nothing |
| RoomServerProperties.RunFromBobConnected | roomserver.mjs:93-129 | from Bob's connection on, Bob's join then Alice's offer leave both outboxes exactly as stated |
| RoomServerProperties.RunFromAliceJoined | roomserver.mjs:93-160 | from Alice's join on, Bob's connection, join and Alice's offer leave both outboxes exactly as stated |
| RoomServerProperties.RunFromAliceConnected | roomserver.mjs:93-160 | from Alice's connection on, the rest of the run leaves both outboxes exactly as stated |
| RoomServerProperties.TwoClientsScenario | roomserver.mjs:15-160 | from the start-up tables, two connects, two joins and one offer leave Alice with her uuid and both `userjoined`, and Bob with his uuid, his own `userjoined` and the offer stamped `source: "u1"`, `displayname: "Alice"` |
| RoomTableAsWritten.JoinedListAsWritten | roomserver.mjs:97-100 | where the as-written lookup does not throw it agrees with the own-key room table |
| RoomTableAsWritten.ConstructorRoomUnjoinableAsWritten | roomserver.mjs:97-100 | "constructor" passes the room-id check, yet the as-written join to it throws |
| RoomTableAsWritten.PrototypeNamedRoomJoinable | roomserver.mjs:97-100 | with an own-key table a valid join to "constructor" succeeds and the joiner is in that room |
| RoomIdArrayAsWritten.JoinWithCommas | roomserver.mjs:97-100 | the room key of an array of two or more elements contains a comma |
| RoomIdArrayAsWritten.ArrayRoomKeyBreaksRule | roomserver.mjs:97-100 | every such key fails the room-id check |
| RoomIdArrayAsWritten.EmptyStringsBypassRoomIdRule | checkroomid.js:4-15 | six empty strings pass `checkRoomId` as written, and their room key ",,,,," fails the room-id check |
| RoomIdArrayAsWritten.ArrayRoomIdRefused | roomserver.mjs:28-41 | corrected behaviour: an array `roomid` is refused as not a string before any room is looked up |
| RtcPageSpec.Cleanup | rtcpage.js:81-92 | afterwards there is no socket; the current socket's handlers are detached; with no socket nothing changes; no other field changes |
| RtcPageSpec.Open | rtcpage.js:49-71 | throws exactly when a socket exists; otherwise records room and name (even when the socket cannot be created), keeps the uuid, and either attaches the new socket or reports the failure through `onFatalError` |
| RtcPageSpec.OnWsMessage | rtcpage.js:107-151 | a message never changes the recorded room and name |
| RtcPageSpec.OnSocketEvent | rtcpage.js:62-65 | a socket whose handlers are detached reaches nothing |
| RtcPage.RoomConnection.constructor | rtcpage.js:39-45 | every field null, no socket |
| RtcPage.RoomConnection.CleanupWebSocket | rtcpage.js:81-92 | the fields become exactly `Cleanup` of the old fields |
| RtcPage.RoomConnection.OnError | rtcpage.js:153-160 | the fields become exactly `OnError` of the old fields |
| RtcPage.RoomConnection.SendMessage | rtcpage.js:94-105 | the fields become exactly `SendMessage` of the old fields |
| RtcPage.RoomConnection.Open | rtcpage.js:49-71 | throws exactly when `Open` does; otherwise the fields become `Open` of the old fields; the handler invariant is kept |
| RtcPage.RoomConnection.OnWsMessage | rtcpage.js:107-151 | the fields become exactly `OnWsMessage` of the old fields |
| RtcPage.RoomConnection.OnSocketEvent | rtcpage.js:62-65 | the fields become exactly `OnSocketEvent` of the old fields; the handler invariant is kept |
| RtcPageProperties.ValidInitial | rtcpage.js:39-45 | a new connection has no socket, no uuid and no handlers attached |
| RtcPageProperties.CleanupIdempotent | rtcpage.js:81-92 | cleanup detaches every handler, and cleaning up twice equals cleaning up once |
| RtcPageProperties.ValidApply | rtcpage.js:49-160 | every call and event keeps handlers attached to the current socket and no other |
| RtcPageProperties.ValidRun | rtcpage.js:49-160 | so does every run of calls and events |
| RtcPageProperties.StaleSocketIgnored | rtcpage.js:87-90 | events from any socket but the current one change nothing |
| RtcPageProperties.FirstUuidSendsJoin | rtcpage.js:122-132 | the first `uuid` message sets the uuid and sends exactly one `{roomid, displayname}` with the recorded values on the current socket; no hook runs |
| RtcPageProperties.SecondUuidFatal | rtcpage.js:124-125 | a `uuid` message once the uuid is set keeps the uuid, drops the socket and its handlers, sends nothing and invokes `onFatalError` |
| RtcPageProperties.ApplyKeepsUuid | rtcpage.js:124-128 | no call or event changes a uuid once set, or sends anything |
| RtcPageProperties.UuidSetOnce | rtcpage.js:124-128 | over any run, a set uuid never changes and nothing more is sent |
| RtcPageProperties.OnlyJoinRequestsSent | rtcpage.js:94-132 | the only message ever sent is the join request, on the current socket, while no uuid is set |
| RtcPageProperties.ReopenRejectsNewUuid | rtcpage.js:49-56 | the uuid survives teardown, so after a reopen the new session's `uuid` message is fatal |
| RtcPageProperties.UserJoinedReportsSelf | rtcpage.js:136-138 | `onUserJoined` gets the uuid, the display name (if any) and `isSelf` true exactly when the joined uuid strictly equals `wsUuid`; nothing else changes |
| RtcPageProperties.ClassificationPrecedence | rtcpage.js:122-149 | the first present key of `uuid`, `userjoined`, `userleft`, `source` decides; later keys make no difference |
| RtcPageProperties.UnknownMessageFatal | rtcpage.js:148-149 | a message with none of those keys, or an array, is fatal and leaves no socket |
| RtcPageProperties.ErrorsTearDown | rtcpage.js:153-160 | hooks invoked are never undone; an action that invokes `onFatalError` leaves no socket or handler; losing the socket always comes with exactly one `onFatalError` |
| RtcPageProperties.JoinHandshake | rtcpage.js:49-138 | open, `{uuid}`, then the page's own `userjoined`: one join request sent, one `onUserJoined` with `isSelf` true |

## Left out

- HTTP server, WebSocket library set-up, port parsing and `listen`
  (roomserver.mjs:1-13, 162-168). These are I/O plumbing over libraries.
- `uuidv4()`: a caller-supplied id that is not yet in use stands in for it.
  `RoomServer.Server.Accept` requires `id !in conns`; the spec function
  `RoomServerSpec.Accept` needs no precondition.
- `JSON.stringify`/`JSON.parse`: messages are parsed values, and a parse
  failure is its own frame or event. A value that `JSON.stringify` rejects
  (BigInt, cycles) cannot occur in the model.
- `console.log`/`console.warn`: logging only.
- Stamp: the forwarded object is a map, so it does not keep the order of the
  keys in the relayed text. `JSON.stringify` writes the original keys in
  their order, followed by `source` and `displayname` when they were absent.
- RoomServerSpec.HandleParsed: `JoinSucceeds` and
  `RoomServer.Server.OnMessageParsed` use the own-key room table (the
  corrected behaviour). A join to a name inherited from Object.prototype,
  such as "constructor", succeeds in the model. The code closes the joiner
  instead, as `RoomTableAsWritten.ConstructorRoomUnjoinableAsWritten` shows.
- Closing a connection: `connection.close()` followed later by the `close`
  event is collapsed into an immediate `onClose`.
- `setTimeout(…, 0)` deferral of client errors (rtcpage.js:69, 103, 116): the
  error is delivered at once, so nothing can happen between the failure and
  its report.
- Hooks are recorded, not run. A hook that re-enters the connection (for
  example, calls `open` from `onFatalError`) is not modelled.
- rtcpage.js media code (lines 164-479) and rtcpageui.js: browser media APIs,
  promises, DOM and floating-point layout.
- `RTCCommunicator` (rtcpage.js:2-35): empty stubs.
- The `url` argument of `open`: the outcome of `new WebSocket(url)` is a
  parameter. The client never closes a socket it has dropped, and the model
  records no such close.
- `ws.send` throwing while the socket is still connecting cannot arise, since
  the client only sends in reply to a message received on that socket. A
  send on a closed socket is recorded like any other.
- RoomServerSpec.ValidateJoin: refuses a `roomid` that is not a string as
  `RoomIdNotString`, which the code does not do. As written, `checkRoomId`
  also accepts an array of 6..128 elements whose string forms each occur
  in the alphabet as a substring (`""`, `"abc"`, `7`, `["a"]`), because
  `indexOf` searches for a substring. The room key is then the elements
  joined by commas. This is the second row under "## Findings", and
  `RoomIdArrayAsWritten` models it. A `null`, number, boolean or plain
  object `roomid` makes `checkRoomId` throw (no `length`, or nothing to
  iterate), so the code refuses it as the model does.
- RoomIdCheck.CheckRoomId: lengths are counted in characters. JavaScript's
  `length` counts UTF-16 units, and a character outside the Basic
  Multilingual Plane counts as two. Such an id can get a length error in
  JavaScript where the model gives a character error (65 such characters:
  too long in JavaScript, a character error in the model). The reverse also
  happens: three such characters are too short in the model, but have
  length 6 in JavaScript and fail on a character. Both refuse the id.

## Findings

| source | as written | input that shows it | evidently intended | confidence | as-written member | corrected member |
|---|---|---|---|---|---|---|
| roomserver.mjs:16, 97-100 | `rooms` is a plain object and the join tests `this.roomId in rooms`, which also finds Object.prototype members; for such a name it takes the "room exists" branch and calls `push` on an inherited function, which throws, so the joiner is closed | join request `{roomid: "constructor", displayname: "A"}` (also "toString", "valueOf", "hasOwnProperty", "isPrototypeOf", "propertyIsEnumerable", "toLocaleString"); each passes `checkRoomId` | every id that passes `checkRoomId` names a room that can be joined (an own-key table such as `Object.create(null)` or a `Map`) | not executed | RoomTableAsWritten.ConstructorRoomUnjoinableAsWritten | RoomTableAsWritten.PrototypeNamedRoomJoinable |
| checkroomid.js:6-13, roomserver.mjs:36-38, 97-100 | `checkRoomId` is applied to whatever JSON value `roomid` holds. For an array, `length` counts its elements, and `indexOf` searches the alphabet for each element's string form as a substring. The room key is the array's string form, its elements joined by commas. | join request `{roomid: ["", "", "", "", "", ""], displayname: "A"}` creates the room ",,,,," | only strings that pass the rule name rooms | not executed | RoomIdArrayAsWritten.EmptyStringsBypassRoomIdRule | RoomServerProperties.RoomKeysObeyRuleKept |
