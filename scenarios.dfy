/**
 Clients of the relay: what follows from the handlers' contracts over
 several events.
 */
module Scenarios {
  import opened Protocol
  import opened Session
  import opened Fanout
  import opened Relay

  /** A room torn down by its last member's departure comes back with an
      empty log: the next connection to join it is sent an empty history,
      whatever was committed before. */
  method TeardownThenRejoin(s: Server, last: Socket, next: Socket, room: string, open: set<Socket>)
    requires s.Valid() && last in s.live && next in s.live && last != next
    requires last.roomId == Some(room) && room in s.rooms && s.rooms[room] == {last}
    modifies s, next
    ensures s.Valid()
    ensures room in s.history && s.history[room] == []
    ensures |s.outbox| > |old(s.outbox)|
    ensures Delivery(next, History([])) in s.outbox[|old(s.outbox)|..]
  {
    s.OnClose(last, open - {last});
    assert room !in s.rooms && room !in s.history;
    ghost var mark := |s.outbox|;
    s.OnMessage(next, Join(Str(room), None), "generated", "", 0, open - {last});
    assert s.outbox[mark] == Delivery(next, History([]));
    assert s.outbox[|old(s.outbox)|..][mark - |old(s.outbox)|] == s.outbox[mark];
  }

  /** A connection that joins after a commit is sent the room's log with the
      committed message at its end, after everything committed before it. */
  method LateJoinerSeesCommit(s: Server, sender: Socket, joiner: Socket, room: string, text: Field,
                              msgId: string, now: int, open: set<Socket>)
    requires s.Valid() && sender in s.live && joiner in s.live && sender != joiner
    requires sender.roomId == Some(room)
    modifies s, joiner
    ensures s.Valid()
    ensures room in old(s.history) && sender.userId.Some?
    ensures |s.outbox| > |old(s.outbox)|
    ensures var msg := Message(msgId, sender.userId.value, CommitText(text), now);
            Delivery(joiner, History(old(s.history)[room] + [msg])) in s.outbox[|old(s.outbox)|..]
  {
    s.HandleCommit(sender, text, msgId, now, open);
    ghost var mark := |s.outbox|;
    s.OnMessage(joiner, Join(Str(room), None), "generated", "", 0, open);
    assert s.outbox[|old(s.outbox)|..][mark - |old(s.outbox)|] == s.outbox[mark];
  }

  /** A second join on the same connection is not refused: the connection
      takes the new room but is never taken out of the old room's set, so it
      stays a member of both and still receives the old room's broadcasts. */
  method RejoinKeepsOldMembership(s: Server, ws: Socket, first: string, second: string, open: set<Socket>)
    requires s.Valid() && ws in s.live
    requires ws.roomId == Some(first) && second != "" && second != first
    modifies s, ws
    ensures s.Valid()
    ensures ws.roomId == Some(second)
    ensures first in s.rooms && ws in s.rooms[first]
    ensures second in s.rooms && ws in s.rooms[second]
  {
    assert ws in s.rooms[first];
    s.OnMessage(ws, Join(Str(second), None), "generated", "", 0, open);
  }

  /** An example chat session: alice (x) and bob (y) join room "r1", alice
      commits "hi", bob disconnects. Eight frames are sent. */
  method ChatExample(msgId: string, now: int) returns (x: Socket, y: Socket, sent: seq<Delivery>)
    ensures x != y
    ensures |sent| == 8
    ensures sent[..3] == [Delivery(x, History([])), Delivery(x, Participants(1)), Delivery(y, History([]))]
    ensures Delivery(x, Participants(2)) in sent[3..5] && Delivery(y, Participants(2)) in sent[3..5]
    ensures var hi := Message(msgId, "alice", "hi", now);
            Delivery(x, Chat(hi)) in sent[5..7] && Delivery(y, Chat(hi)) in sent[5..7]
    ensures sent[7] == Delivery(x, Participants(1))
  {
    var s := new Server();
    x := s.Connect();
    y := s.Connect();
    AliceJoins(s, x, y);
    BobJoins(s, x, y);
    ghost var joined := s.outbox;
    AliceCommits(s, x, y, msgId, now);
    ghost var committed := s.outbox;
    BobLeaves(s, x, y);
    sent := s.outbox;
    assert sent[..3] == joined[..3] && sent[3..5] == joined[3..] by {
      assert sent[..5] == committed[..5] == joined;
    }
    assert sent[5..7] == committed[5..];
  }

  method AliceJoins(s: Server, x: Socket, y: Socket)
    requires s.Valid() && s.live == {x, y} && x != y
    requires x.roomId.None? && y.roomId.None? && s.rooms == map[] && s.history == map[] && s.outbox == []
    modifies s, x
    ensures s.Valid() && s.live == {x, y}
    ensures x.roomId == Some("r1") && x.userId == Some("alice") && y.roomId.None?
    ensures s.rooms == map["r1" := {x}] && s.history == map["r1" := []]
    ensures s.outbox == [Delivery(x, History([])), Delivery(x, Participants(1))]
  {
    s.HandleJoin(x, Str("r1"), Some("alice"), "g1", {x, y});
    assert {x} * {x, y} == {x};
    FanOutSize(s.outbox[1..], {x}, Participants(1));
  }

  method BobJoins(s: Server, x: Socket, y: Socket)
    requires s.Valid() && s.live == {x, y} && x != y
    requires x.roomId == Some("r1") && x.userId == Some("alice") && y.roomId.None?
    requires s.rooms == map["r1" := {x}] && s.history == map["r1" := []] && |s.outbox| == 2
    modifies s, y
    ensures s.Valid() && s.live == {x, y}
    ensures x.roomId == Some("r1") && x.userId == Some("alice") && y.roomId == Some("r1")
    ensures s.rooms == map["r1" := {x, y}] && s.history == map["r1" := []]
    ensures |s.outbox| == 5 && s.outbox[..2] == old(s.outbox)
    ensures s.outbox[2] == Delivery(y, History([]))
    ensures Delivery(x, Participants(2)) in s.outbox[3..] && Delivery(y, Participants(2)) in s.outbox[3..]
  {
    s.HandleJoin(y, Str("r1"), Some("bob"), "g2", {x, y});
    assert {x} + {y} == {x, y} && {x, y} * {x, y} == {x, y} && |{x, y}| == 2;
    FanOutSize(s.outbox[3..], {x, y}, Participants(2));
  }

  method AliceCommits(s: Server, x: Socket, y: Socket, msgId: string, now: int)
    requires s.Valid() && s.live == {x, y} && x != y
    requires x.roomId == Some("r1") && x.userId == Some("alice") && y.roomId == Some("r1")
    requires s.rooms == map["r1" := {x, y}] && |s.outbox| == 5
    modifies s
    ensures s.Valid() && s.live == {x, y}
    ensures s.rooms == map["r1" := {x, y}]
    ensures |s.outbox| == 7 && s.outbox[..5] == old(s.outbox)
    ensures var hi := Message(msgId, "alice", "hi", now);
            Delivery(x, Chat(hi)) in s.outbox[5..] && Delivery(y, Chat(hi)) in s.outbox[5..]
  {
    s.HandleCommit(x, Str("hi"), msgId, now, {x, y});
    var hi := Message(msgId, "alice", "hi", now);
    assert {x, y} * {x, y} == {x, y};
    FanOutSize(s.outbox[5..], {x, y}, Chat(hi));
  }

  method BobLeaves(s: Server, x: Socket, y: Socket)
    requires s.Valid() && s.live == {x, y} && x != y
    requires y.roomId == Some("r1") && s.rooms == map["r1" := {x, y}] && |s.outbox| == 7
    modifies s
    ensures s.Valid() && s.live == {x}
    ensures s.rooms == map["r1" := {x}]
    ensures |s.outbox| == 8 && s.outbox[..7] == old(s.outbox)
    ensures s.outbox[7] == Delivery(x, Participants(1))
  {
    s.OnClose(y, {x});
    assert {x, y} - {y} == {x} && {x} * {x} == {x};
    FanOutSize(s.outbox[7..], {x}, Participants(1));
  }
}
