# Room relay — a Dafny model

A model of the room-scoped WebSocket relay in `server.js`. Connections join a
named room, relay live typing drafts to the other members, commit chat
messages that are kept in the room's log and broadcast to every member, and
leave when their socket closes. The relay keeps two global maps, `rooms`
(room key to the set of member connections) and `history` (room key to the
list of committed messages), and two fields on each connection, `roomId` and
`userId`.

The model treats the relay as a state machine with one atomic method per
event, on a class `Relay.Server` whose fields are `rooms`, `history` and an
`outbox` of (recipient, frame) pairs standing for every `send`. A connection
is a `Session.Socket` object with its own `roomId`/`userId` fields. Whether a
connection is open (`readyState === 1`) is decided by the transport, so each
event takes the set of open connections as a parameter. Random ids and the
clock are parameters too.

Files:

- `protocol.dfy` (`Protocol`): the decoded inbound events (`Join`, `Typing`,
  `Commit`, `Other`, `Malformed`), messages, outbound frames, and the field
  coercions the handlers apply (`RoomKey`, `ChosenUserId`, `DraftText`,
  `CommitText`).
- `session.dfy` (`Session`): the per-connection fields.
- `fanout.dfy` (`Fanout`): listing a member set (`[...set]`), counting its
  open members, and the `for ... of` send loop. `IsFanOut(sent, targets,
  frame)` says that `frame` goes to every target exactly once and to nobody
  else. Iteration order of a set is not modelled.
- `relay.dfy` (`Relay`): the server state, its invariant `Valid()` and the
  handlers. The invariant says that `rooms` and `history` have the same keys,
  that no room is kept with an empty member set, and that every live joined
  connection has a non-empty room key and a user id, and is a member of
  `rooms[roomId]`. So the unguarded lookups on the typing and commit paths are
  always defined. Each handler's effect is written as a two-state predicate
  (`JoinEffect`, `TypingEffect`, `CommitEffect`, `CloseEffect`,
  `NothingChanges`).
- `scenarios.dfy` (`Scenarios`): what follows over several events. This
  covers room teardown, a late joiner seeing a commit, the re-join behaviour
  and an example chat session (alice and bob in room "r1").

The code departs from what one might expect of a room relay in three places,
and the model follows the code:

- A second `join` on the same connection is not refused. It overwrites
  `roomId`/`userId` and adds the connection to the new room's set, but never
  removes it from the old one (server.js:37-44). The connection is then a
  member of two rooms and still receives the old room's broadcasts, so "a
  connection is in at most one room" does not hold.
  `Scenarios.RejoinKeepsOldMembership` proves this.
- A connection that re-joined and then closes is removed only from its last
  room. It stays in the earlier room's set, and that room is then never torn
  down by closes alone.
- The participant count differs by path. A join counts only the open members
  (server.js:51). A close counts every remaining member, open or not
  (server.js:119).

## Model

| member | source | states |
|---|---|---|
| Protocol.RoomKey | server.js:38-39 | a join's room is accepted exactly when it is a non-empty string, and then it is that string |
| Protocol.ChosenUserId | server.js:41 | the user id is the supplied one when it is a non-empty string, otherwise the generated one |
| Protocol.DraftText | server.js:74 | the relayed draft is the supplied one, or empty when it is absent |
| Protocol.CommitText | server.js:83 | the committed text is the supplied one when it is a string, otherwise empty |
| Session.Socket.constructor | server.js:22-25 | a new connection has no room and no user id |
| Fanout.Snapshot | server.js:51 | `[...set]` lists every member exactly once: no repetition, same elements, same size |
| Fanout.OpenOnly | server.js:51 | the filter keeps exactly the listed members that are open |
| Fanout.OpenOnlyCount | server.js:51 | on a list without repetition, the filtered length is the number of open connections in the listed set |
| Fanout.CountOpen | server.js:51 | the join's participant count is the number of open members of the room |
| Fanout.Broadcast | server.js:52-56 | the send loop delivers the frame once to each listed member that is open and not excluded, and to nobody else |
| Fanout.FanOutSize | server.js:117-121 | a fan-out sends exactly as many frames as it has targets |
| Relay.Server.constructor | server.js:12-15 | the relay starts with empty `rooms` and `history` maps and has sent nothing |
| Relay.Server.Connect | server.js:22-25 | a new connection is fresh, unjoined and live, and the invariant is kept |
| Relay.Server.EnsureRoom | server.js:17-20 | afterwards both maps hold the key; an existing set or log is left unchanged, so a repeated call changes nothing; a missing one is created empty |
| Relay.Server.Enroll | server.js:40-44 | the connection takes the room and user id and is added to the room's set, which is created if missing; no other room changes; the invariant is kept |
| Relay.Server.Greet | server.js:46-56 | the joiner is sent the room's current log (empty when there is none), then every open member of the room is sent the number of open members; earlier frames are kept |
| Relay.Server.Multicast | server.js:96-100 | appends to `outbox` one frame for each open, non-excluded member and nothing else; earlier frames are kept |
| Relay.Server.HandleJoin | server.js:37-58 | an invalid room changes nothing and sends nothing. A valid join sets `roomId`/`userId` and adds the connection to the room. It sends the joiner the room's current log (empty for a new room), then sends every open member, the joiner included, the number of open members. The invariant is kept |
| Relay.Server.HandleTyping | server.js:66-79 | changes no state. Sends `peerDraft` from the sender's user id, with the draft or "", to exactly the open members of the sender's room other than the sender |
| Relay.Server.HandleCommit | server.js:82-102 | appends exactly one message to the end of the sender's room log; every other log and every member set is unchanged. The message goes to every open member of the room, the sender included |
| Relay.Server.OnMessage | server.js:27-108 | dispatch: a malformed or unknown frame, or any non-join frame from a connection that has not joined, changes nothing and sends nothing. Join, typing and commit frames have the effects above |
| Relay.Server.OnClose | server.js:110-127 | an unjoined connection, or one whose room is gone, changes nothing. Otherwise the connection leaves its room's set, and each open member left is sent the size of the remaining set, counting closed members too. A room left empty loses both its set and its log. The invariant is kept |
| Scenarios.TeardownThenRejoin | server.js:122-126 | after the last member of a room closes, the next connection to join that key is sent an empty history |
| Scenarios.LateJoinerSeesCommit | server.js:91-92 | a connection joining after a commit receives the earlier log with the committed message appended at its end |
| Scenarios.RejoinKeepsOldMembership | server.js:37-44 | a re-join leaves the connection a member of both its old and its new room |
| Scenarios.ChatExample | server.js:37-127 | alice and bob join "r1", alice commits "hi", bob leaves. Exactly eight frames are sent: alice gets an empty history and count 1; bob gets an empty history; both get count 2; both get alice's message; alice gets count 1 |

## Left out

- The static file server, HTTP server creation and `listen`/`PORT` handling (server.js:6-10, 130-133). These are process bootstrapping and I/O.
- JSON parsing and serialisation. Inbound frames arrive decoded, and a parse failure is the `Malformed` event. Outbound frames are values in `outbox`.
- A frame that parses to JSON `null` would make `data.type` throw in the handler. This is not modelled; every parsed frame is one of the five events.
- Non-string `userId` and `draft` values. The source passes truthy non-strings through unchanged; the model carries only strings or absence.
- `Math.random` ids and `Date.now` timestamps. They are parameters, and no uniqueness is claimed for them.
- `console.error`/`console.warn` logging.
- The `ws` library's transport and its `readyState` bookkeeping. Which connections are open is an input to each event.
- The order in which a `Set` is iterated, and so the order of sends within one broadcast. Properties are stated over the set of recipients.
- Concurrency. The event loop runs each handler to completion, so each handler is one atomic method.
