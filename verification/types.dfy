/** The records the chat pages exchange. A `Date` timestamp is modelled as a
    whole number of minutes on one fixed clock. */
module Types {

  datatype Option<T> = None | Some(value: T)

  /** A sender; the generated bot senders have an empty avatar reference. */
  datatype User = User(id: string, name: string, avatar: string)

  datatype Message = Message(id: string, content: string, sender: User, timestamp: int)

  /** A country room: stable id, display name, flag icon URL, a display-only
      participant count and the room's messages in display order. */
  datatype ChatRoom = ChatRoom(
    id: string,
    name: string,
    icon: string,
    participantsCount: int,
    messages: seq<Message>)
}
