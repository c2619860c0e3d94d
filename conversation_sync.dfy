/** useConversations: the conversation list of the logged-in user. A load
    selects the conversations the user participates in, derives each one's
    participants, last message and unread count from the tables, applies the
    defaults, and sorts the list by recency in place. */
module ConversationSync {
  import opened Wrappers
  import opened Types
  import opened Seqs
  import opened Store
  import MessageActions

  /** A message that counts as unread for `user` in conversation `c`: in `c`,
      sent by somebody else, not yet `seen`. */
  predicate Unread(m: Message, c: ConversationId, user: UserId)
  {
    m.conversation_id == c && m.sender_id != user && m.status != Seen
  }

  /** The unread count: the rows the query `.eq('conversation_id', c)
      .neq('sender_id', user).neq('status', 'seen')` returns. */
  function UnreadCount(messages: map<MessageId, Message>, c: ConversationId, user: UserId): (n: nat)
    ensures n == 0 <==> forall k :: k in messages ==> !Unread(messages[k], c, user)
  {
    var unread := set k | k in messages && Unread(messages[k], c, user);
    assert unread == {} ==> forall k :: k in messages ==> k !in unread;
    |set k | k in messages && Unread(messages[k], c, user)|
  }

  /** `lm` is what `.order('created_at', desc).limit(1)` may return for `c`:
      nothing when `c` has no message, otherwise one of its messages with the
      greatest created_at. */
  ghost predicate IsLatest(messages: map<MessageId, Message>, c: ConversationId, lm: Option<Message>)
  {
    && (lm.None? <==> forall k :: k in messages ==> messages[k].conversation_id != c)
    && (lm.Some? ==>
          && lm.value.id in messages && messages[lm.value.id] == lm.value
          && lm.value.conversation_id == c
          && forall k :: k in messages && messages[k].conversation_id == c ==>
               messages[k].created_at <= lm.value.created_at)
  }

  /** The ids of a list of conversations, in order. */
  function ConversationIds(cs: seq<Conversation>): seq<ConversationId>
  {
    seq(|cs|, i requires 0 <= i < |cs| => cs[i].id)
  }

  /** `participants` lists, each once, the profiles of the users with a
      participant row for `c`, mapped with the profile defaults. */
  ghost predicate ParticipantsOf(db: Snapshot, c: ConversationId, now: Timestamp, participants: seq<User>)
  {
    && NoDup(UserIds(participants))
    && (forall k :: k in UserIds(participants) <==> k in db.profiles && (c, k) in db.participants)
    && (forall i :: 0 <= i < |participants| && participants[i].id in db.profiles ==>
          participants[i] == ToUser(db.profiles[participants[i].id], now))
  }

  /** The record the load assembles for conversation `conv.id` and `user`. */
  ghost predicate Describes(db: Snapshot, user: UserId, now: Timestamp, conv: Conversation)
  {
    && conv.id in db.conversations
    && var row := db.conversations[conv.id];
    && conv.name == row.name && conv.kind == row.kind
    && conv.created_at == row.created_at && conv.updated_at == row.updated_at
    && conv.is_pinned == (row.is_pinned == Some(true))
    && conv.unread_count == UnreadCount(db.messages, conv.id, user)
    && IsLatest(db.messages, conv.id, conv.last_message)
    && ParticipantsOf(db, conv.id, now, conv.participants)
  }

  /** The key the sort compares: the last message's creation time when there
      is one, else the conversation's. */
  function RecencyKey(c: Conversation): Timestamp
  {
    if c.last_message.Some? then c.last_message.value.created_at else c.created_at
  }

  predicate SortedByRecency(s: seq<Conversation>)
  {
    forall i, j :: 0 <= i < j < |s| ==> RecencyKey(s[i]) >= RecencyKey(s[j])
  }

  /** The last-message query for one conversation. */
  method LatestMessage(messages: map<MessageId, Message>, c: ConversationId) returns (lm: Option<Message>)
    requires MessagesKeyed(messages)
    ensures IsLatest(messages, c, lm)
  {
    var rest := set k | k in messages && messages[k].conversation_id == c;
    ghost var ofC := rest;
    var seen: set<MessageId> := {};
    lm := None;
    while rest != {}
      invariant rest !! seen
      invariant rest + seen == ofC
      invariant lm.None? <==> seen == {}
      invariant lm.Some? ==> lm.value.id in seen && messages[lm.value.id] == lm.value
      invariant forall k :: k in seen ==> messages[k].created_at <= lm.value.created_at
      decreases |rest|
    {
      var k :| k in rest;
      if lm.None? || lm.value.created_at < messages[k].created_at {
        lm := Some(messages[k]);
      }
      rest := rest - {k};
      seen := seen + {k};
    }
    assert seen == ofC;
    if lm.None? {
      assert ofC == {};
      forall k | k in messages ensures messages[k].conversation_id != c {
        assert k !in ofC;
      }
    } else {
      assert lm.value.id in ofC;
      forall k | k in messages && messages[k].conversation_id == c
        ensures messages[k].created_at <= lm.value.created_at
      {
        assert k in seen;
      }
    }
  }

  /** The participant and profile queries for one conversation. */
  method ParticipantProfiles(db: Snapshot, c: ConversationId, now: Timestamp) returns (users: seq<User>)
    requires ProfilesKeyed(db.profiles)
    ensures ParticipantsOf(db, c, now, users)
  {
    ghost var members := set k | k in db.profiles && (c, k) in db.participants;
    var ids := Enumerate(set k | k in db.profiles && (c, k) in db.participants);
    users := [];
    var i := 0;
    while i < |ids|
      invariant 0 <= i <= |ids|
      invariant |users| == i
      invariant forall j :: 0 <= j < i ==> ids[j] in db.profiles && users[j] == ToUser(db.profiles[ids[j]], now)
      invariant UserIds(users) == ids[..i]
    {
      assert ids[i] in members;
      users := users + [ToUser(db.profiles[ids[i]], now)];
      i := i + 1;
    }
    assert UserIds(users) == ids;
    forall j | 0 <= j < |users| && users[j].id in db.profiles
      ensures users[j] == ToUser(db.profiles[users[j].id], now)
    {
      assert users[j].id == ids[j];
    }
  }

  /** Exchanges two entries of the array being sorted. */
  method Swap(a: array<Conversation>, i: nat, j: nat)
    requires i < a.Length && j < a.Length
    modifies a
    ensures a[..] == old(a[..])[i := old(a[j])][j := old(a[i])]
    ensures multiset(a[..]) == multiset(old(a[..]))
  {
    a[i], a[j] := a[j], a[i];
  }

  /** `Array.prototype.sort` with the comparator `dateB - dateA`, done as a
      stable insertion sort. */
  method SortByRecency(a: array<Conversation>)
    modifies a
    ensures SortedByRecency(a[..])
    ensures multiset(a[..]) == multiset(old(a[..]))
  {
    if a.Length < 2 {
      return;
    }
    var i := 1;
    while i < a.Length
      invariant 1 <= i <= a.Length
      invariant forall p, q :: 0 <= p < q < i ==> RecencyKey(a[p]) >= RecencyKey(a[q])
      invariant multiset(a[..]) == multiset(old(a[..]))
    {
      var j := i;
      while j > 0 && RecencyKey(a[j - 1]) < RecencyKey(a[j])
        invariant 0 <= j <= i
        invariant multiset(a[..]) == multiset(old(a[..]))
        invariant forall p, q :: 0 <= p < q <= i && q != j ==> RecencyKey(a[p]) >= RecencyKey(a[q])
        invariant 0 < j < i ==> RecencyKey(a[j - 1]) >= RecencyKey(a[j + 1])
      {
        Swap(a, j - 1, j);
        j := j - 1;
      }
      i := i + 1;
    }
  }
  /** The conversations `user` has a participant row for and whose row exists. */
  function Joined(db: Snapshot, user: UserId): set<ConversationId>
  {
    set k | k in db.conversations && (k, user) in db.participants
  }

  /** The conversation ids of `user`'s participant rows. */
  function Memberships(db: Snapshot, user: UserId): set<ConversationId>
  {
    set p | p in db.participants && p.1 == user :: p.0
  }

  /** Marking a counted message seen lowers that conversation's unread count by one. */
  lemma SeenLowersUnread(messages: map<MessageId, Message>, id: MessageId, c: ConversationId, user: UserId)
    requires id in messages && Unread(messages[id], c, user)
    ensures UnreadCount(MessageActions.SeenRows(messages, id), c, user) == UnreadCount(messages, c, user) - 1
  {
    var after := MessageActions.SeenRows(messages, id);
    assert (set k | k in after && Unread(after[k], c, user)) == (set k | k in messages && Unread(messages[k], c, user)) - {id};
  }

  /** Marking seen a message the count does not include leaves the count alone. */
  lemma SeenOfUncountedKeepsUnread(messages: map<MessageId, Message>, id: MessageId, c: ConversationId, user: UserId)
    requires id !in messages || !Unread(messages[id], c, user)
    ensures UnreadCount(MessageActions.SeenRows(messages, id), c, user) == UnreadCount(messages, c, user)
  {
    var after := MessageActions.SeenRows(messages, id);
    assert (set k | k in after && Unread(after[k], c, user)) == (set k | k in messages && Unread(messages[k], c, user));
  }

  /** A message the user sends never adds to their own unread count; one sent
      to `c` by somebody else adds exactly one. */
  lemma SendAdjustsUnread(messages: map<MessageId, Message>, m: Message, c: ConversationId, user: UserId)
    requires m.id !in messages && m.status == Sent
    ensures m.sender_id == user || m.conversation_id != c ==>
      UnreadCount(messages[m.id := m], c, user) == UnreadCount(messages, c, user)
    ensures m.sender_id != user && m.conversation_id == c ==>
      UnreadCount(messages[m.id := m], c, user) == UnreadCount(messages, c, user) + 1
  {
    var after := messages[m.id := m];
    var before := set k | k in messages && Unread(messages[k], c, user);
    if Unread(m, c, user) {
      assert (set k | k in after && Unread(after[k], c, user)) == before + {m.id};
    } else {
      assert (set k | k in after && Unread(after[k], c, user)) == before;
    }
  }

  /** The per-conversation queries, in the order the backend listed the ids. */
  method AssembleAll(db: Snapshot, user: UserId, now: Timestamp, ids: seq<ConversationId>) returns (list: seq<Conversation>)
    requires MessagesKeyed(db.messages) && ProfilesKeyed(db.profiles)
    requires forall j :: 0 <= j < |ids| ==> ids[j] in db.conversations
    ensures |list| == |ids|
    ensures forall j :: 0 <= j < |ids| ==> list[j].id == ids[j] && Describes(db, user, now, list[j])
  {
    list := [];
    var i := 0;
    while i < |ids|
      invariant 0 <= i <= |ids| && |list| == i
      invariant forall j :: 0 <= j < i ==> list[j].id == ids[j] && Describes(db, user, now, list[j])
    {
      var c := ids[i];
      var row := db.conversations[c];
      var participants := ParticipantProfiles(db, c, now);
      var lm := LatestMessage(db.messages, c);
      var conv := Conversation(c, row.name, row.kind, row.created_at, row.updated_at, lm, participants,
                               UnreadCount(db.messages, c, user), row.is_pinned == Some(true));
      assert Describes(db, user, now, conv);
      list := list + [conv];
      i := i + 1;
    }
  }

  /** Sorting a listing of the joined conversations keeps it a listing of them. */
  lemma PermutedListing(db: Snapshot, user: UserId, now: Timestamp, ids: seq<ConversationId>,
                        list: seq<Conversation>, sorted: seq<Conversation>)
    requires |ids| == |Joined(db, user)| && forall k :: k in ids <==> k in Joined(db, user)
    requires |list| == |ids|
    requires forall j :: 0 <= j < |ids| ==> list[j].id == ids[j] && Describes(db, user, now, list[j])
    requires multiset(sorted) == multiset(list)
    ensures |sorted| == |Joined(db, user)|
    ensures forall k :: k in ConversationIds(sorted) <==> k in Joined(db, user)
    ensures forall p :: 0 <= p < |sorted| ==> Describes(db, user, now, sorted[p])
  {
    assert |sorted| == |multiset(sorted)| == |multiset(list)| == |list|;
    forall k | k in ConversationIds(sorted) ensures k in Joined(db, user) {
      var p :| 0 <= p < |sorted| && ConversationIds(sorted)[p] == k;
      assert sorted[p] in multiset(list);
      var j :| 0 <= j < |list| && list[j] == sorted[p];
      assert ids[j] == k;
    }
    forall k | k in Joined(db, user) ensures k in ConversationIds(sorted) {
      var j :| 0 <= j < |ids| && ids[j] == k;
      assert list[j] in multiset(sorted);
      var p :| 0 <= p < |sorted| && sorted[p] == list[j];
      assert ConversationIds(sorted)[p] == k;
    }
    forall p | 0 <= p < |sorted| ensures Describes(db, user, now, sorted[p]) {
      assert sorted[p] in multiset(list);
      var j :| 0 <= j < |list| && list[j] == sorted[p];
    }
  }

  /** The state cells of the hook: `conversations`, `loadingConversations`. */
  class ConversationFeed {
    var conversations: seq<Conversation>
    var loading: bool

    constructor ()
      ensures conversations == [] && !loading
    {
      conversations, loading := [], false;
    }

    /** `fetchConversations` against the tables in `db`. `membershipFails` and
        `conversationsFails` are the two queries whose errors are checked. */
    method Load(user: Option<UserId>, db: Snapshot, now: Timestamp, membershipFails: bool, conversationsFails: bool)
      requires MessagesKeyed(db.messages) && ProfilesKeyed(db.profiles)
      modifies this
      ensures !Truthy(user) ==> conversations == old(conversations) && loading == old(loading)
      ensures Truthy(user) ==> !loading
      ensures Truthy(user) && (membershipFails || Memberships(db, user.value) == {} || conversationsFails) ==>
        conversations == old(conversations)
      ensures Truthy(user) && !membershipFails && Memberships(db, user.value) != {} && !conversationsFails ==>
        && SortedByRecency(conversations)
        && |conversations| == |Joined(db, user.value)|
        && (forall k :: k in ConversationIds(conversations) <==> k in Joined(db, user.value))
        && (forall i :: 0 <= i < |conversations| ==> Describes(db, user.value, now, conversations[i]))
    {
      if !(user.Some? && user.value != "") {
        return;
      }
      var u := user.value;
      loading := true;
      if membershipFails || Memberships(db, u) == {} || conversationsFails {
        loading := false;
        return;
      }
      var ids := Enumerate(Joined(db, u));
      assert forall j :: 0 <= j < |ids| ==> ids[j] in ids;
      var list := AssembleAll(db, u, now, ids);
      var a := new Conversation[|list|](j requires 0 <= j < |list| => list[j]);
      assert a[..] == list;
      SortByRecency(a);
      conversations := a[..];
      loading := false;
      PermutedListing(db, u, now, ids, list, conversations);
    }
  }
}
