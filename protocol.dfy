/**
 The wire vocabulary of the room relay: decoded inbound events, chat messages
 and outbound frames, and the small value coercions the handlers apply to the
 fields of an inbound event.
 */
module Protocol {

  datatype Option<+T> = None | Some(value: T)

  /** A field of a decoded JSON envelope, as far as the relay looks at it:
      missing, a string, or some other JSON value. */
  datatype Field = Absent | Str(s: string) | NonString

  /** An inbound frame after decoding. `Malformed` is a frame that is not
      valid JSON; `Other` is a well-formed envelope of any other type. */
  datatype Inbound =
    | Join(room: Field, userId: Option<string>)
    | Typing(draft: Option<string>)
    | Commit(text: Field)
    | Other
    | Malformed

  /** A committed chat message; `ts` is milliseconds since the epoch. */
  datatype Message = Message(id: string, from: string, text: string, ts: int)

  /** An outbound frame. */
  datatype OutFrame =
    | History(log: seq<Message>)
    | Participants(count: nat)
    | PeerDraft(from: string, draft: string)
    | Chat(message: Message)

  /** The room a join asks for: accepted exactly when it is a non-empty string. */
  function RoomKey(room: Field): (key: Option<string>)
    ensures key.Some? <==> (room.Str? && room.s != "")
    ensures key.Some? ==> room == Str(key.value)
  {
    match room
    case Str(s) => if s != "" then Some(s) else None
    case _ => None
  }

  /** The user id a join assigns: the supplied one when it is a non-empty
      string, otherwise the generated one. */
  function ChosenUserId(supplied: Option<string>, generated: string): (u: string)
    ensures supplied.Some? && supplied.value != "" ==> u == supplied.value
    ensures (supplied.None? || supplied.value == "") ==> u == generated
  {
    match supplied
    case Some(s) => if s != "" then s else generated
    case None => generated
  }

  /** The draft a typing event relays: the supplied one, or empty when absent. */
  function DraftText(draft: Option<string>): (d: string)
    ensures draft.Some? ==> d == draft.value
    ensures draft.None? ==> d == ""
  {
    match draft
    case Some(s) => s
    case None => ""
  }

  /** The text a commit stores: the supplied one when it is a string, otherwise empty. */
  function CommitText(text: Field): (t: string)
    ensures text.Str? ==> t == text.s
    ensures !text.Str? ==> t == ""
  {
    match text
    case Str(s) => s
    case _ => ""
  }
}
