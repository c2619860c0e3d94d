/** useMessageActions: the writes the client makes to the `messages` and
    `conversations` tables. Each is an update of Store.Backend whose filter
    decides which rows change; a rejected write changes nothing, and so does
    every action without a logged-in user. `fails` stands for the backend
    rejecting the write, `newId` and `now` for the key and the clock the
    backend and the browser supply. */
module MessageActions {
  import opened Wrappers
  import opened Types
  import opened Reactions
  import opened Store

  /** The row `sendMessage` inserts. */
  function NewMessage(id: MessageId, conversationId: ConversationId, sender: UserId, content: string,
                      contentType: ContentType, replyTo: Option<MessageId>, now: Timestamp): (m: Message)
    ensures m.id == id && m.conversation_id == conversationId && m.sender_id == sender
    ensures m.content == content && m.content_type == contentType && m.reply_to == replyTo
    ensures m.status == Sent && m.reactions == [] && !m.is_edited
    ensures m.created_at == now && m.updated_at == now
  {
    Message(id, conversationId, sender, content, contentType, now, now, false, Sent, [], replyTo)
  }

  /** The rows matched by `.eq('id', id).eq('sender_id', user)`: at most one,
      and only when the user sent it. */
  predicate OwnedBy(messages: map<MessageId, Message>, id: MessageId, user: UserId)
  {
    id in messages && messages[id].sender_id == user
  }

  /** `editMessage`'s update: content, updated_at and is_edited of an owned row. */
  function EditRows(messages: map<MessageId, Message>, id: MessageId, user: UserId,
                    content: string, now: Timestamp): (r: map<MessageId, Message>)
    ensures r.Keys == messages.Keys
    ensures forall k :: k in messages && k != id ==> r[k] == messages[k]
    ensures OwnedBy(messages, id, user) ==>
      r[id] == messages[id].(content := content, updated_at := now, is_edited := true)
    ensures !OwnedBy(messages, id, user) ==> r == messages
  {
    if OwnedBy(messages, id, user)
    then messages[id := messages[id].(content := content, updated_at := now, is_edited := true)]
    else messages
  }

  /** `deleteMessage`'s delete: the row goes only when the user sent it. */
  function DeleteRows(messages: map<MessageId, Message>, id: MessageId, user: UserId): (r: map<MessageId, Message>)
    ensures OwnedBy(messages, id, user) ==> r.Keys == messages.Keys - {id}
    ensures !OwnedBy(messages, id, user) ==> r == messages
    ensures forall k :: k in r ==> k in messages && r[k] == messages[k]
  {
    if OwnedBy(messages, id, user) then messages - {id} else messages
  }

  /** `markMessageAsSeen`'s update: status `seen`, whoever sent the row and
      whatever its status was. */
  function SeenRows(messages: map<MessageId, Message>, id: MessageId): (r: map<MessageId, Message>)
    ensures r.Keys == messages.Keys
    ensures id in messages ==> r[id] == messages[id].(status := Seen)
    ensures forall k :: k in messages && k != id ==> r[k] == messages[k]
  {
    if id in messages then messages[id := messages[id].(status := Seen)] else messages
  }

  /** A row's reactions replaced, the rest untouched. */
  function SetReactions(messages: map<MessageId, Message>, id: MessageId, rs: seq<Reaction>): (r: map<MessageId, Message>)
    requires id in messages
    ensures r.Keys == messages.Keys && r[id] == messages[id].(reactions := rs)
    ensures forall k :: k in messages && k != id ==> r[k] == messages[k]
  {
    messages[id := messages[id].(reactions := rs)]
  }

  /** Every stored row keeps its reaction list free of duplicate pairs. */
  predicate AllReactionsUnique(messages: map<MessageId, Message>)
  {
    forall k :: k in messages ==> UniquePairs(messages[k].reactions)
  }

  /** Writing a duplicate-free list into one row keeps every row duplicate-free. */
  lemma SetReactionsKeepsUnique(messages: map<MessageId, Message>, id: MessageId, rs: seq<Reaction>)
    requires id in messages && AllReactionsUnique(messages) && UniquePairs(rs)
    ensures AllReactionsUnique(SetReactions(messages, id, rs))
  {
  }

  /** Marking seen twice is marking seen once. */
  lemma SeenIdempotent(messages: map<MessageId, Message>, id: MessageId)
    ensures SeenRows(SeenRows(messages, id), id) == SeenRows(messages, id)
  {
  }

  /** Editing or deleting a row somebody else sent matches no row. */
  lemma ForeignRowsUntouched(messages: map<MessageId, Message>, id: MessageId, user: UserId,
                             content: string, now: Timestamp)
    requires id in messages && messages[id].sender_id != user
    ensures EditRows(messages, id, user, content, now) == messages
    ensures DeleteRows(messages, id, user) == messages
  {
  }

  /** Edits keep every row's sender, so ownership is stable under edits. */
  lemma EditKeepsOwnership(messages: map<MessageId, Message>, id: MessageId, user: UserId,
                           content: string, now: Timestamp, k: MessageId, other: UserId)
    ensures OwnedBy(EditRows(messages, id, user, content, now), k, other) <==> OwnedBy(messages, k, other)
  {
  }

  /** `sendMessage(conversationId, content, contentType, replyToMessageId)`. */
  method SendMessage(b: Backend, user: Option<UserId>, conversationId: ConversationId, content: string,
                     contentType: ContentType, replyTo: Option<MessageId>,
                     newId: MessageId, now: Timestamp, fails: bool, touchFails: bool)
    requires b.Valid()
    modifies b
    ensures b.Valid()
    ensures !Truthy(user) || fails || newId in old(b.messages) ==> unchanged(b)
    ensures Truthy(user) && !fails && newId !in old(b.messages) ==>
      && b.messages == old(b.messages)[newId := NewMessage(newId, conversationId, user.value, content, contentType, replyTo, now)]
      && b.conversations == (if conversationId in old(b.conversations) && !touchFails
                             then old(b.conversations)[conversationId := old(b.conversations)[conversationId].(updated_at := now)]
                             else old(b.conversations))
      && b.profiles == old(b.profiles) && b.participants == old(b.participants)
  {
    if !(user.Some? && user.value != "") {
      return;
    }
    // A key the table already holds violates the primary key: the insert fails.
    if fails || newId in b.messages {
      return;
    }
    b.messages := b.messages[newId := NewMessage(newId, conversationId, user.value, content, contentType, replyTo, now)];
    // The result of the `updated_at` touch is not checked.
    if conversationId in b.conversations && !touchFails {
      b.conversations := b.conversations[conversationId := b.conversations[conversationId].(updated_at := now)];
    }
  }

  /** `deleteMessage(messageId)`: ownership is enforced by the delete filter. */
  method DeleteMessage(b: Backend, user: Option<UserId>, id: MessageId, fails: bool)
    requires b.Valid()
    modifies b
    ensures b.Valid()
    ensures b.messages == (if Truthy(user) && !fails then DeleteRows(old(b.messages), id, user.value) else old(b.messages))
    ensures b.conversations == old(b.conversations) && b.profiles == old(b.profiles) && b.participants == old(b.participants)
  {
    if user.Some? && user.value != "" && !fails {
      b.messages := DeleteRows(b.messages, id, user.value);
    }
  }

  /** `editMessage(messageId, newContent)`: ownership is enforced by the update filter. */
  method EditMessage(b: Backend, user: Option<UserId>, id: MessageId, content: string, now: Timestamp, fails: bool)
    requires b.Valid()
    modifies b
    ensures b.Valid()
    ensures b.messages == (if Truthy(user) && !fails then EditRows(old(b.messages), id, user.value, content, now) else old(b.messages))
    ensures b.conversations == old(b.conversations) && b.profiles == old(b.profiles) && b.participants == old(b.participants)
  {
    if user.Some? && user.value != "" && !fails {
      b.messages := EditRows(b.messages, id, user.value, content, now);
    }
  }

  /** `markMessageAsSeen(messageId)`: an unconditional overwrite of the status. */
  method MarkMessageAsSeen(b: Backend, user: Option<UserId>, id: MessageId, fails: bool)
    requires b.Valid()
    modifies b
    ensures b.Valid()
    ensures b.messages == (if Truthy(user) && !fails then SeenRows(old(b.messages), id) else old(b.messages))
    ensures b.conversations == old(b.conversations) && b.profiles == old(b.profiles) && b.participants == old(b.participants)
  {
    if user.Some? && user.value != "" && !fails {
      b.messages := SeenRows(b.messages, id);
    }
  }

  /** `addReaction(messageId, emoji)`: read the row's reactions (`.single()`
      fails when there is no such row), push the pair when absent and write
      the list back; when the pair is present nothing is written. */
  method AddReaction(b: Backend, user: Option<UserId>, id: MessageId, emoji: string,
                     readFails: bool, writeFails: bool) returns (wrote: bool)
    requires b.Valid()
    modifies b
    ensures b.Valid()
    ensures wrote <==> Truthy(user) && !readFails && id in old(b.messages)
                       && !HasReaction(old(b.messages)[id].reactions, user.value, emoji) && !writeFails
    ensures wrote ==> b.messages == SetReactions(old(b.messages), id, WithReaction(old(b.messages)[id].reactions, user.value, emoji))
    ensures !wrote ==> b.messages == old(b.messages)
    ensures AllReactionsUnique(old(b.messages)) ==> AllReactionsUnique(b.messages)
    ensures b.conversations == old(b.conversations) && b.profiles == old(b.profiles) && b.participants == old(b.participants)
  {
    wrote := false;
    if !(user.Some? && user.value != "") || readFails || id !in b.messages {
      return;
    }
    var current := b.messages[id].reactions;
    if !HasReaction(current, user.value, emoji) && !writeFails {
      var updated := WithReaction(current, user.value, emoji);
      if AllReactionsUnique(b.messages) {
        AddKeepsUniquePairs(current, user.value, emoji);
        SetReactionsKeepsUnique(b.messages, id, updated);
      }
      b.messages := SetReactions(b.messages, id, updated);
      wrote := true;
    }
  }

  /** `removeReaction(messageId, emoji)`: the filtered list is written back even
      when the pair was absent. */
  method RemoveReaction(b: Backend, user: Option<UserId>, id: MessageId, emoji: string,
                        readFails: bool, writeFails: bool) returns (wrote: bool)
    requires b.Valid()
    modifies b
    ensures b.Valid()
    ensures wrote <==> Truthy(user) && !readFails && id in old(b.messages) && !writeFails
    ensures wrote ==> b.messages == SetReactions(old(b.messages), id, WithoutReaction(old(b.messages)[id].reactions, user.value, emoji))
    ensures !wrote ==> b.messages == old(b.messages)
    ensures AllReactionsUnique(old(b.messages)) ==> AllReactionsUnique(b.messages)
    ensures b.conversations == old(b.conversations) && b.profiles == old(b.profiles) && b.participants == old(b.participants)
  {
    wrote := false;
    if !(user.Some? && user.value != "") || readFails || id !in b.messages || writeFails {
      return;
    }
    var current := b.messages[id].reactions;
    var updated := WithoutReaction(current, user.value, emoji);
    if AllReactionsUnique(b.messages) {
      RemoveKeepsUniquePairs(current, user.value, emoji);
      SetReactionsKeepsUnique(b.messages, id, updated);
    }
    b.messages := SetReactions(b.messages, id, updated);
    wrote := true;
  }
}
