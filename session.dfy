/**
 A connection's session: the room it joined and the user id it was given.
 Both are unset when the connection is accepted and are assigned by a join.
 */
module Session {
  import opened Protocol

  class Socket {
    var roomId: Option<string>
    var userId: Option<string>

    /** A freshly accepted connection has joined no room. */
    constructor ()
      ensures roomId == None && userId == None
    {
      roomId := None;
      userId := None;
    }
  }
}
