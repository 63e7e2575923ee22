/**
 The room relay as a state machine: one atomic method per event. The relay
 keeps a member set and a message log per room; every frame it emits is
 appended to `outbox` as a (recipient, frame) pair. Which connections are
 open is owned by the transport and passed to each event as `open`.
 */
module Relay {
  import opened Protocol
  import opened Session
  import opened Fanout

  class Server {
    /** Room key to the connections that joined it. */
    var rooms: map<string, set<Socket>>
    /** Room key to the messages committed in it, oldest first. */
    var history: map<string, seq<Message>>
    /** Every frame sent so far, in sending order. */
    var outbox: seq<Delivery>
    /** The connections accepted and not yet closed. */
    ghost var live: set<Socket>

    /** A live connection that has joined is registered in the room it names. */
    ghost predicate Registered(s: Socket)
      reads this`rooms, s
    {
      s.roomId.Some? ==>
        && s.roomId.value != ""
        && s.userId.Some?
        && s.roomId.value in rooms
        && s in rooms[s.roomId.value]
    }

    /** The relay's invariant: both maps have the same keys, no room is kept
        without members, and every joined live connection is in its room. */
    ghost predicate Valid()
      reads this`rooms, this`history, this`live, live
    {
      && rooms.Keys == history.Keys
      && (forall r :: r in rooms ==> rooms[r] != {})
      && (forall s :: s in live ==> Registered(s))
    }

    /** The maps are empty when the relay starts. */
    constructor ()
      ensures Valid()
      ensures rooms == map[] && history == map[] && outbox == [] && live == {}
    {
      rooms := map[];
      history := map[];
      outbox := [];
      live := {};
    }

    /** A new connection arrives with no room and no user id. */
    method Connect() returns (ws: Socket)
      requires Valid()
      modifies this`live
      ensures Valid()
      ensures fresh(ws) && ws.roomId == None && ws.userId == None
      ensures live == old(live) + {ws}
    {
      ws := new Socket();
      live := live + {ws};
    }

    /** Creates an empty member set and an empty log for `room`, each only if
        it is missing; an existing set or log is left as it is, so a second
        call changes nothing. */
    method EnsureRoom(room: string)
      modifies this`rooms, this`history
      ensures room in rooms && room in history
      ensures room in old(rooms) ==> rooms == old(rooms)
      ensures room !in old(rooms) ==> rooms == old(rooms)[room := {}]
      ensures room in old(history) ==> history == old(history)
      ensures room !in old(history) ==> history == old(history)[room := []]
    {
      if room !in rooms {
        rooms := rooms[room := {}];
      }
      if room !in history {
        history := history[room := []];
      }
    }

    /** No state changes and nothing is sent. */
    twostate predicate NothingChanges(ws: Socket)
      reads this, ws
    {
      && rooms == old(rooms)
      && history == old(history)
      && outbox == old(outbox)
      && ws.roomId == old(ws.roomId)
      && ws.userId == old(ws.userId)
    }

    /** What a join does. An invalid room changes nothing. Otherwise the
        connection takes the room and a user id and is added to the room's
        set (created if missing); it is sent the room's log, and then every
        open member, itself included, is sent the number of open members. */
    twostate predicate JoinEffect(ws: Socket, room: Field, userId: Option<string>, generated: string,
                                  open: set<Socket>)
      reads this, ws
    {
      match RoomKey(room)
      case None => NothingChanges(ws)
      case Some(key) =>
        var members := (if key in old(rooms) then old(rooms)[key] else {}) + {ws};
        && ws.roomId == Some(key)
        && ws.userId == Some(ChosenUserId(userId, generated))
        && rooms == old(rooms)[key := members]
        && history == (if key in old(history) then old(history) else old(history)[key := []])
        && |outbox| > |old(outbox)|
        && outbox[..|old(outbox)|] == old(outbox)
        && outbox[|old(outbox)|] == Delivery(ws, History(history[key]))
        && IsFanOut(outbox[|old(outbox)| + 1..], members * open, Participants(|members * open|))
    }

    /** What a typing event from a joined connection does: no state changes;
        every open member of its room except itself is sent the draft. */
    twostate predicate TypingEffect(ws: Socket, draft: Option<string>, open: set<Socket>)
      reads this, ws
    {
      && ws.roomId.Some? && ws.userId.Some? && ws.roomId.value in rooms
      && rooms == old(rooms)
      && history == old(history)
      && ws.roomId == old(ws.roomId)
      && ws.userId == old(ws.userId)
      && |outbox| >= |old(outbox)|
      && outbox[..|old(outbox)|] == old(outbox)
      && IsFanOut(outbox[|old(outbox)|..], rooms[ws.roomId.value] * open - {ws},
                  PeerDraft(ws.userId.value, DraftText(draft)))
    }

    /** What a commit from a joined connection does: exactly one message is
        appended to its room's log, no other log or set changes, and every
        open member of the room, the sender included, is sent the message. */
    twostate predicate CommitEffect(ws: Socket, text: Field, msgId: string, now: int, open: set<Socket>)
      reads this, ws
    {
      && ws.roomId.Some? && ws.userId.Some? && ws.roomId.value in old(history)
      && ws.roomId.value in rooms
      && var msg := Message(msgId, ws.userId.value, CommitText(text), now);
      && rooms == old(rooms)
      && history == old(history)[ws.roomId.value := old(history)[ws.roomId.value] + [msg]]
      && ws.roomId == old(ws.roomId)
      && ws.userId == old(ws.userId)
      && |outbox| >= |old(outbox)|
      && outbox[..|old(outbox)|] == old(outbox)
      && IsFanOut(outbox[|old(outbox)|..], rooms[ws.roomId.value] * open, Chat(msg))
    }

    /** What closing a connection does. Without a room, or when its room is
        gone, nothing. Otherwise it leaves the room's set; every open member
        left is sent the size of the set that is left (open or not); a room
        left empty loses both its set and its log. */
    twostate predicate CloseEffect(ws: Socket, open: set<Socket>)
      reads this
    {
      if old(ws.roomId).None? || old(ws.roomId).value == "" || old(ws.roomId).value !in old(rooms) then
        && rooms == old(rooms)
        && history == old(history)
        && outbox == old(outbox)
      else
        var key := old(ws.roomId).value;
        var left := old(rooms)[key] - {ws};
        && |outbox| >= |old(outbox)|
        && outbox[..|old(outbox)|] == old(outbox)
        && IsFanOut(outbox[|old(outbox)|..], left * open, Participants(|left|))
        && (left == {} ==> rooms == old(rooms) - {key} && history == old(history) - {key})
        && (left != {} ==> rooms == old(rooms)[key := left] && history == old(history))
    }

    /** Sends `frame` to every open member of `members` not in `except`,
        appending the deliveries to `outbox`. */
    method Multicast(members: set<Socket>, open: set<Socket>, except: set<Socket>, frame: OutFrame)
      modifies this`outbox
      ensures |outbox| >= |old(outbox)|
      ensures outbox[..|old(outbox)|] == old(outbox)
      ensures IsFanOut(outbox[|old(outbox)|..], members * open - except, frame)
    {
      var listed := Snapshot(members);
      var sent := Broadcast(listed, open, except, frame);
      outbox := outbox + sent;
      assert outbox[|old(outbox)|..] == sent;
    }

    /** server.js:40-44, in the join branch: the connection takes `room` and
        `userId` and is added to the room's set, created if missing. */
    method Enroll(ws: Socket, room: string, userId: string)
      requires Valid() && ws in live && room != ""
      modifies this`rooms, this`history, ws
      ensures Valid()
      ensures ws.roomId == Some(room) && ws.userId == Some(userId)
      ensures rooms == old(rooms)[room := (if room in old(rooms) then old(rooms)[room] else {}) + {ws}]
      ensures history == if room in old(history) then old(history) else old(history)[room := []]
    {
      ws.roomId := Some(room);
      ws.userId := Some(userId);
      EnsureRoom(room);
      rooms := rooms[room := rooms[room] + {ws}];
      forall s | s in live ensures Registered(s) {
        if s != ws {
          assert old(Registered(s));
        }
      }
    }

    /** server.js:46-56, in the join branch: the joiner is sent the room's log,
        then every open member is sent the number of open members. */
    method Greet(ws: Socket, room: string, open: set<Socket>)
      requires room in rooms
      modifies this`outbox
      ensures |outbox| > |old(outbox)| && outbox[..|old(outbox)|] == old(outbox)
      ensures outbox[|old(outbox)|] == Delivery(ws, History(if room in history then history[room] else []))
      ensures IsFanOut(outbox[|old(outbox)| + 1..], rooms[room] * open, Participants(|rooms[room] * open|))
    {
      var hist := if room in history then history[room] else [];
      outbox := outbox + [Delivery(ws, History(hist))];
      var count := CountOpen(rooms[room], open);
      Multicast(rooms[room], open, {}, Participants(count));
      assert rooms[room] * open - {} == rooms[room] * open;
      assert outbox[..|old(outbox)|] == old(outbox);
    }

    /** The join branch of the message handler. */
    method HandleJoin(ws: Socket, room: Field, userId: Option<string>, generated: string, open: set<Socket>)
      requires Valid() && ws in live
      modifies this, ws
      ensures Valid() && live == old(live)
      ensures JoinEffect(ws, room, userId, generated, open)
    {
      var key := RoomKey(room);
      if key.None? {
        return;
      }
      var r := key.value;
      Enroll(ws, r, ChosenUserId(userId, generated));
      Greet(ws, r, open);
    }

    /** The `typing` case: relays the draft to the other open members. */
    method HandleTyping(ws: Socket, draft: Option<string>, open: set<Socket>)
      requires Valid() && ws in live && ws.roomId.Some?
      modifies this
      ensures Valid() && live == old(live)
      ensures TypingEffect(ws, draft, open)
    {
      var roomId := ws.roomId.value;
      Multicast(rooms[roomId], open, {ws}, PeerDraft(ws.userId.value, DraftText(draft)));
    }

    /** The `commit` case: appends the message to the room's log and sends it
        to every open member. */
    method HandleCommit(ws: Socket, text: Field, msgId: string, now: int, open: set<Socket>)
      requires Valid() && ws in live && ws.roomId.Some?
      modifies this
      ensures Valid() && live == old(live)
      ensures CommitEffect(ws, text, msgId, now, open)
    {
      var roomId := ws.roomId.value;
      var msg := Message(msgId, ws.userId.value, CommitText(text), now);
      history := history[roomId := history[roomId] + [msg]];
      Multicast(rooms[roomId], open, {}, Chat(msg));
      assert rooms[roomId] * open - {} == rooms[roomId] * open;
    }

    /** The message handler: decodes nothing itself; dispatches one decoded
        frame from `ws`. A malformed frame, or anything but a join from a
        connection that has not joined, is dropped. */
    method OnMessage(ws: Socket, data: Inbound, generated: string, msgId: string, now: int,
                     open: set<Socket>)
      requires Valid() && ws in live
      modifies this, ws
      ensures Valid() && live == old(live)
      ensures data.Malformed? || data.Other? ==> NothingChanges(ws)
      ensures data.Join? ==> JoinEffect(ws, data.room, data.userId, generated, open)
      ensures !data.Join? && old(ws.roomId).None? ==> NothingChanges(ws)
      ensures data.Typing? && old(ws.roomId).Some? ==> TypingEffect(ws, data.draft, open)
      ensures data.Commit? && old(ws.roomId).Some? ==> CommitEffect(ws, data.text, msgId, now, open)
    {
      if data.Malformed? {
        return;
      }
      if data.Join? {
        HandleJoin(ws, data.room, data.userId, generated, open);
        return;
      }
      if ws.roomId.None? || ws.roomId.value == "" {
        return;
      }
      match data {
        case Typing(draft) => HandleTyping(ws, draft, open);
        case Commit(text) => HandleCommit(ws, text, msgId, now, open);
        case Other =>
      }
    }

    /** The close handler. */
    method OnClose(ws: Socket, open: set<Socket>)
      requires Valid() && ws in live
      modifies this
      ensures Valid() && live == old(live) - {ws}
      ensures CloseEffect(ws, open)
    {
      live := live - {ws};
      if ws.roomId.None? || ws.roomId.value == "" {
        return;
      }
      var roomId := ws.roomId.value;
      if roomId !in rooms {
        return;
      }
      var left := rooms[roomId] - {ws};
      rooms := rooms[roomId := left];
      Multicast(left, open, {}, Participants(|left|));
      assert left * open - {} == left * open;
      if left == {} {
        rooms := rooms - {roomId};
        history := history - {roomId};
      }
    }
  }
}
