/** The hosted backend's tables, as the client sees them: `profiles`,
    `conversations`, `conversation_participants` and `messages`. Every write of
    the client goes through an object of class Backend; every read is modelled
    as a snapshot of its fields handed to the reading routine. */
module Store {
  import opened Wrappers
  import opened Types

  /** A `profiles` row. The columns the client maps with `||` defaults are
      optional here; `status` is held already normalised. */
  datatype Profile = Profile(
    id: UserId,
    email: Option<string>,
    username: string,
    full_name: string,
    avatar_url: string,
    status: UserStatus,
    role: Option<string>,
    last_seen: Option<Timestamp>)

  /** A `conversations` row, keyed by its id in Backend.conversations. */
  datatype ConversationRow = ConversationRow(
    name: Option<string>,
    kind: ConversationType,
    created_at: Timestamp,
    updated_at: Timestamp,
    is_pinned: Option<bool>)

  /** `value || fallback` for an optional string column. */
  function OrDefault(value: Option<string>, fallback: string): (r: string)
    ensures Truthy(value) ==> r == value.value
    ensures !Truthy(value) ==> r == fallback
  {
    if value.Some? && value.value != "" then value.value else fallback
  }

  /** The profile-to-User mapping both useConversations and useUsers apply:
      email defaults to '', role to 'user', last_seen to the current time. */
  function ToUser(p: Profile, now: Timestamp): (u: User)
    ensures u.id == p.id && u.username == p.username && u.full_name == p.full_name
    ensures u.avatar_url == p.avatar_url && u.status == p.status
    ensures u.email == (if Truthy(p.email) then p.email.value else "")
    ensures u.role == (if Truthy(p.role) then p.role.value else "user")
    ensures u.last_seen == (if p.last_seen.Some? then p.last_seen.value else now)
  {
    User(p.id, OrDefault(p.email, ""), p.username, p.full_name, p.avatar_url, p.status,
         OrDefault(p.role, "user"), p.last_seen.GetOr(now))
  }

  /** Rows of a map-keyed table carry their own key. */
  predicate MessagesKeyed(messages: map<MessageId, Message>)
  {
    forall k :: k in messages ==> messages[k].id == k
  }

  predicate ProfilesKeyed(profiles: map<UserId, Profile>)
  {
    forall k :: k in profiles ==> profiles[k].id == k
  }

  /** What a read sees: the four tables at the moment of the read. */
  datatype Snapshot = Snapshot(
    profiles: map<UserId, Profile>,
    conversations: map<ConversationId, ConversationRow>,
    participants: set<(ConversationId, UserId)>,
    messages: map<MessageId, Message>)

  class Backend {
    var profiles: map<UserId, Profile>
    var conversations: map<ConversationId, ConversationRow>
    var participants: set<(ConversationId, UserId)>
    var messages: map<MessageId, Message>

    predicate Valid()
      reads this
    {
      MessagesKeyed(messages) && ProfilesKeyed(profiles)
    }

    function Read(): (s: Snapshot)
      reads this
      ensures s.profiles == profiles && s.conversations == conversations
      ensures s.participants == participants && s.messages == messages
    {
      Snapshot(profiles, conversations, participants, messages)
    }

    constructor ()
      ensures Valid()
      ensures profiles == map[] && conversations == map[] && participants == {} && messages == map[]
    {
      profiles, conversations, participants, messages := map[], map[], {}, map[];
    }
  }
}
