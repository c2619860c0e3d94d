/** useMessages: the visible message list of the active conversation, kept in
    step with the backend by a load and by INSERT / UPDATE / DELETE events, the
    delivered-promotion it fires for other users' messages, and the typing
    indicator fed by the broadcast channel. */
module MessageSync {
  import opened Wrappers
  import opened Types
  import opened Seqs
  import opened Store

  datatype TypingIndicator = TypingIndicator(userId: UserId, username: string)

  /** Payload of a `typing` broadcast. */
  datatype TypingEvent = TypingEvent(
    user_id: UserId,
    username: string,
    conversation_id: ConversationId,
    is_typing: bool)

  /** A fetched message not sent by `user` that is still `sent`. */
  predicate AwaitsDelivery(m: Message, user: Option<UserId>)
  {
    IsOther(m.sender_id, user) && m.status == Sent
  }

  /** `rows` answers the load's query for conversation `c`: every stored
      message of `c` exactly once, as stored, ordered by created_at ascending. */
  ghost predicate ListsConversation(messages: map<MessageId, Message>, c: ConversationId, rows: seq<Message>)
  {
    && (forall i :: 0 <= i < |rows| ==>
          rows[i].id in messages && messages[rows[i].id] == rows[i] && rows[i].conversation_id == c)
    && (forall k :: k in messages && messages[k].conversation_id == c ==> messages[k] in rows)
    && (forall i, j :: 0 <= i < j < |rows| ==> rows[i].id != rows[j].id)
    && (forall i, j :: 0 <= i < j < |rows| ==> rows[i].created_at <= rows[j].created_at)
  }

  /** The rows a successful load promotes to `delivered`. */
  function PromotionTargets(rows: seq<Message>, user: Option<UserId>): (r: seq<Message>)
    ensures forall i :: 0 <= i < |r| ==> r[i] in rows && IsOther(r[i].sender_id, user) && r[i].status == Sent
    ensures forall i :: 0 <= i < |rows| && IsOther(rows[i].sender_id, user) && rows[i].status == Sent ==> rows[i] in r
    ensures IsSublist(r, rows)
  {
    FilterIsSublist(rows, m => AwaitsDelivery(m, user));
    Filter(rows, m => AwaitsDelivery(m, user))
  }

  /** The list after an UPDATE event: every entry with the event's id becomes
      the new record; length, order and the other entries stay. */
  function ReplaceById(s: seq<Message>, m: Message): (r: seq<Message>)
    ensures |r| == |s|
    ensures forall i :: 0 <= i < |s| ==> r[i] == (if s[i].id == m.id then m else s[i])
    ensures forall i :: 0 <= i < |s| ==> r[i].id == s[i].id
  {
    if s == [] then []
    else [if s[0].id == m.id then m else s[0]] + ReplaceById(s[1..], m)
  }

  /** The filter predicates of the hook, as values. */
  function HasId(id: MessageId): Message -> bool
  {
    (x: Message) => x.id == id
  }

  function LacksId(id: MessageId): Message -> bool
  {
    (x: Message) => x.id != id
  }

  /** The list after a DELETE event: the entries with another id, in order. */
  function RemoveById(s: seq<Message>, id: MessageId): (r: seq<Message>)
    ensures forall i :: 0 <= i < |r| ==> r[i].id != id && r[i] in s
    ensures forall i :: 0 <= i < |s| && s[i].id != id ==> s[i] in r
    ensures IsSublist(r, s)
    ensures (forall i :: 0 <= i < |s| ==> s[i].id != id) ==> r == s
  {
    FilterIsSublist(s, LacksId(id));
    Filter(s, LacksId(id))
  }

  /** How many entries of `s` carry `id`. */
  function Occurrences(s: seq<Message>, id: MessageId): nat
  {
    Count(s, HasId(id))
  }

  /** An INSERT does not look for the id: a row already listed (for instance
      by a load that raced the subscription) is listed once more. */
  lemma InsertDoesNotDeduplicate(s: seq<Message>, m: Message)
    ensures Occurrences(s + [m], m.id) == Occurrences(s, m.id) + 1
  {
    FilterAppend(s, [m], HasId(m.id));
  }

  /** Deleting exactly removes the occurrences of the id: the length drops by
      their number. */
  lemma {:induction false} RemoveByIdLength(s: seq<Message>, id: MessageId)
    ensures |RemoveById(s, id)| == |s| - Occurrences(s, id)
  {
    if s != [] {
      RemoveByIdLength(s[1..], id);
    }
  }

  /** A DELETE event for the id of a just-inserted message undoes the insert. */
  lemma InsertThenDelete(s: seq<Message>, m: Message)
    ensures RemoveById(s + [m], m.id) == RemoveById(s, m.id)
  {
    FilterAppend(s, [m], LacksId(m.id));
  }

  /** Applying the same UPDATE event twice is applying it once. */
  lemma {:induction false} ReplaceByIdIdempotent(s: seq<Message>, m: Message)
    ensures ReplaceById(ReplaceById(s, m), m) == ReplaceById(s, m)
  {
    if s != [] {
      ReplaceByIdIdempotent(s[1..], m);
    }
  }

  /** An UPDATE event never changes the sequence of ids, so it cannot create
      or drop an entry. */
  lemma {:induction false} ReplaceByIdKeepsOccurrences(s: seq<Message>, m: Message, id: MessageId)
    ensures Occurrences(ReplaceById(s, m), id) == Occurrences(s, id)
  {
    if s != [] {
      ReplaceByIdKeepsOccurrences(s[1..], m, id);
    }
  }

  /** A typing broadcast is shown only for the active conversation and only
      when it comes from somebody else; `is_typing` is not consulted. */
  function TypingApplies(ev: TypingEvent, active: Option<ConversationId>, user: Option<UserId>): (applies: bool)
    ensures applies ==> active == Some(ev.conversation_id)
    ensures user.Some? && ev.user_id == user.value ==> !applies
    ensures active == Some(ev.conversation_id) && (user.None? || ev.user_id != user.value) ==> applies
  {
    active.Some? && ev.conversation_id == active.value && IsOther(ev.user_id, user)
  }

  /** The state cells of the hook: `messages`, `loadingMessages`, `userTyping`. */
  class MessageFeed {
    var messages: seq<Message>
    var loading: bool
    var typing: Option<TypingIndicator>

    constructor ()
      ensures messages == [] && !loading && typing == None
    {
      messages, loading, typing := [], false, None;
    }

    /** `fetchMessages` against the tables `db`. `fetched` is the backend's
        answer to the query for the active conversation's rows, ordered by
        created_at ascending (or its error). The result is the list of rows to
        promote to `delivered`. */
    method Load(db: Snapshot, active: Option<ConversationId>, user: Option<UserId>, fetched: Result<seq<Message>>)
      returns (promote: seq<Message>)
      requires active.Some? && fetched.Ok? ==> ListsConversation(db.messages, active.value, fetched.value)
      modifies this
      ensures active.None? ==> messages == [] && loading == old(loading) && promote == []
      ensures active.Some? && fetched.Ok? ==>
        messages == fetched.value && !loading && promote == PromotionTargets(fetched.value, user)
      ensures active.Some? && fetched.Ok? ==> ListsConversation(db.messages, active.value, messages)
      ensures active.Some? && fetched.Ok? ==>
        forall k | k in db.messages && db.messages[k].conversation_id == active.value ::
          AwaitsDelivery(db.messages[k], user) ==> db.messages[k] in promote
      ensures active.Some? && fetched.Err? ==> messages == old(messages) && !loading && promote == []
      ensures typing == old(typing)
    {
      if active.None? {
        messages := [];
        return [];
      }
      loading := true;
      promote := [];
      match fetched {
        case Ok(rows) =>
          messages := rows;
          promote := PromotionTargets(rows, user);
        case Err(_) =>
      }
      loading := false;
    }

    /** INSERT: append the row; promote it when a user is known and the row is
        not theirs, whatever its status. */
    method OnInsert(m: Message, user: Option<UserId>) returns (promote: bool)
      modifies this
      ensures messages == old(messages) + [m]
      ensures promote <==> Truthy(user) && m.sender_id != user.value
      ensures loading == old(loading) && typing == old(typing)
    {
      messages := messages + [m];
      promote := user.Some? && user.value != "" && m.sender_id != user.value;
    }

    /** UPDATE: replace by id in place. */
    method OnUpdate(m: Message)
      modifies this
      ensures messages == ReplaceById(old(messages), m)
      ensures loading == old(loading) && typing == old(typing)
    {
      messages := ReplaceById(messages, m);
    }

    /** DELETE: drop the entries with the deleted row's id. */
    method OnDelete(id: MessageId)
      modifies this
      ensures messages == RemoveById(old(messages), id)
      ensures loading == old(loading) && typing == old(typing)
    {
      messages := RemoveById(messages, id);
    }

    /** A `typing` broadcast. */
    method OnTyping(ev: TypingEvent, active: Option<ConversationId>, user: Option<UserId>)
      modifies this
      ensures TypingApplies(ev, active, user) ==> typing == Some(TypingIndicator(ev.user_id, ev.username))
      ensures !TypingApplies(ev, active, user) ==> typing == old(typing)
      ensures messages == old(messages) && loading == old(loading)
    {
      if active.Some? && ev.conversation_id == active.value && IsOther(ev.user_id, user) {
        typing := Some(TypingIndicator(ev.user_id, ev.username));
      }
    }

    /** The expiry of a typing timer, as a separate event. */
    method OnTypingTimeout()
      modifies this
      ensures typing == None
      ensures messages == old(messages) && loading == old(loading)
    {
      typing := None;
    }
  }
}
