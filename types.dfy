/** The records of src/types/index.ts. Identifiers are strings, as in the
    source; timestamps are opaque integers (the source keeps ISO strings). */
module Types {
  import opened Wrappers

  type UserId = string
  type MessageId = string
  type ConversationId = string
  type Timestamp = int

  datatype UserStatus = Online | Offline | Away | Busy
  datatype MessageStatus = Sent | Delivered | Seen
  datatype ContentType = Text | Image | File | Emoji
  /** The source field is named `type`, a Dafny keyword; here it is `kind`. */
  datatype ConversationType = Direct | Group | Community

  datatype User = User(
    id: UserId,
    email: string,
    username: string,
    full_name: string,
    avatar_url: string,
    status: UserStatus,
    role: string,
    last_seen: Timestamp)

  /** The users' ids, in the users' order (`users.map(u => u.id)`). */
  function UserIds(us: seq<User>): (r: seq<UserId>)
    ensures |r| == |us| && forall i :: 0 <= i < |us| ==> r[i] == us[i].id
  {
    if us == [] then [] else [us[0].id] + UserIds(us[1..])
  }

  datatype Reaction = Reaction(user_id: UserId, emoji: string)

  datatype Message = Message(
    id: MessageId,
    conversation_id: ConversationId,
    sender_id: UserId,
    content: string,
    content_type: ContentType,
    created_at: Timestamp,
    updated_at: Timestamp,
    is_edited: bool,
    status: MessageStatus,
    reactions: seq<Reaction>,
    reply_to: Option<MessageId>)

  datatype Conversation = Conversation(
    id: ConversationId,
    name: Option<string>,
    kind: ConversationType,
    created_at: Timestamp,
    updated_at: Timestamp,
    last_message: Option<Message>,
    participants: seq<User>,
    unread_count: nat,
    is_pinned: bool)

  /** JavaScript truthiness of an optional string (`if (userId)`): present and
      not the empty string. */
  predicate Truthy(s: Option<string>)
  {
    s.Some? && s.value != ""
  }

  /** `id !== userId` where `userId` may be `undefined`: every id differs from
      an absent user. */
  predicate IsOther(id: UserId, user: Option<UserId>)
  {
    user.None? || id != user.value
  }

  /** The literal the source uses for each content type. */
  function ContentTypeName(t: ContentType): string
  {
    match t
    case Text => "text"
    case Image => "image"
    case File => "file"
    case Emoji => "emoji"
  }
}
