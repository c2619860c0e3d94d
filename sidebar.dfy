/** ConversationSidebar: the search filter over the conversation list and the
    name, avatar and presence shown for each conversation. */
module ConversationSidebar {
  import opened Wrappers
  import opened Types
  import opened Seqs
  import opened Text

  /** `participants.find(p => p.id !== user?.id)`: the first participant who
      is not the user (with no user, the first participant). */
  function OtherParticipant(participants: seq<User>, user: Option<UserId>): (r: Option<User>)
    ensures r.None? <==> forall i :: 0 <= i < |participants| ==> !IsOther(participants[i].id, user)
    ensures r.Some? ==> exists i :: 0 <= i < |participants| && participants[i] == r.value
                          && IsOther(r.value.id, user)
                          && forall j :: 0 <= j < i ==> !IsOther(participants[j].id, user)
  {
    if participants == [] then None
    else if IsOther(participants[0].id, user) then Some(participants[0])
    else
      var r := OtherParticipant(participants[1..], user);
      if r.Some? then
        ghost var i :| 0 <= i < |participants[1..]| && participants[1..][i] == r.value
                       && forall j :: 0 <= j < i ==> !IsOther(participants[1..][j].id, user);
        assert participants[i + 1] == r.value;
        r
      else r
  }

  /** A participant matches when the query occurs in its username or full name,
      ignoring case. */
  predicate ParticipantMatches(p: User, query: string)
  {
    IncludesIgnoreCase(p.username, query) || IncludesIgnoreCase(p.full_name, query)
  }

  /** The sidebar's test for one conversation. */
  predicate ConversationMatches(c: Conversation, query: string)
  {
    || query == ""
    || (Truthy(c.name) && IncludesIgnoreCase(c.name.value, query))
    || exists i :: 0 <= i < |c.participants| && ParticipantMatches(c.participants[i], query)
  }

  function MatchesQuery(query: string): Conversation -> bool
  {
    (c: Conversation) => ConversationMatches(c, query)
  }

  /** `filteredConversations`: the conversations matching the query, in order. */
  function FilterConversations(conversations: seq<Conversation>, query: string): (r: seq<Conversation>)
    ensures forall i :: 0 <= i < |r| ==> r[i] in conversations && ConversationMatches(r[i], query)
    ensures forall i :: 0 <= i < |conversations| && ConversationMatches(conversations[i], query) ==>
      conversations[i] in r
  {
    Filter(conversations, MatchesQuery(query))
  }

  /** An empty query keeps every conversation. */
  lemma EmptyQueryKeepsAll(conversations: seq<Conversation>)
    ensures FilterConversations(conversations, "") == conversations
  {
  }

  /** The filter keeps the list's order, and filtering again changes nothing. */
  lemma FilterConversationsIsStableSublist(conversations: seq<Conversation>, query: string)
    ensures IsSublist(FilterConversations(conversations, query), conversations)
    ensures FilterConversations(FilterConversations(conversations, query), query)
         == FilterConversations(conversations, query)
  {
    FilterIsSublist(conversations, MatchesQuery(query));
    FilterIdempotent(conversations, MatchesQuery(query));
  }

  /** `Group (n)` */
  function GroupLabel(n: nat): string
  {
    "Group (" + NatToString(n) + ")"
  }

  /** `getConversationName` of the sidebar. */
  function ConversationName(c: Conversation, user: Option<UserId>): (r: string)
    ensures Truthy(c.name) ==> r == c.name.value
    ensures !Truthy(c.name) && c.kind == Direct ==>
      r == (if OtherParticipant(c.participants, user).Some?
            then OtherParticipant(c.participants, user).value.full_name else "Unknown User")
    ensures !Truthy(c.name) && c.kind != Direct ==> r == GroupLabel(|c.participants|)
  {
    if c.name.Some? && c.name.value != "" then c.name.value
    else if c.kind == Direct then
      match OtherParticipant(c.participants, user)
      case Some(p) => p.full_name
      case None => "Unknown User"
    else GroupLabel(|c.participants|)
  }

  /** `getConversationAvatar`: the other participant's picture for a direct
      conversation, nothing otherwise. */
  function ConversationAvatar(c: Conversation, user: Option<UserId>): (r: string)
    ensures c.kind != Direct || OtherParticipant(c.participants, user).None? ==> r == ""
    ensures c.kind == Direct && OtherParticipant(c.participants, user).Some? ==>
      r == OtherParticipant(c.participants, user).value.avatar_url
  {
    if c.kind == Direct then
      match OtherParticipant(c.participants, user)
      case Some(p) => p.avatar_url
      case None => ""
    else ""
  }

  /** `getConversationAvatarFallback` of the sidebar. */
  function AvatarFallback(c: Conversation, user: Option<UserId>): (r: string)
    ensures c.kind == Direct ==>
      r == (if OtherParticipant(c.participants, user).Some?
            then Initial(OtherParticipant(c.participants, user).value.full_name) else "?")
    ensures c.kind != Direct ==> r == (if Truthy(c.name) then Initial(c.name.value) else "G")
  {
    if c.kind == Direct then
      match OtherParticipant(c.participants, user)
      case Some(p) => Initial(p.full_name)
      case None => "?"
    else if c.name.Some? && c.name.value != "" then Initial(c.name.value)
    else "G"
  }

  /** The fallback is a single upper-cased letter, except for a direct
      conversation whose other participant has an empty full name. */
  lemma FallbackIsOneLetter(c: Conversation, user: Option<UserId>)
    ensures |AvatarFallback(c, user)| <= 1
    ensures AvatarFallback(c, user) == "" <==>
      c.kind == Direct && OtherParticipant(c.participants, user).Some?
      && OtherParticipant(c.participants, user).value.full_name == ""
  {
  }

  /** `getOtherUserStatus`: no badge for a group or community; for a direct
      conversation the other participant's status, `offline` without one. */
  function OtherUserStatus(c: Conversation, user: Option<UserId>): (r: Option<UserStatus>)
    ensures r.None? <==> c.kind != Direct
    ensures c.kind == Direct && OtherParticipant(c.participants, user).Some? ==>
      r == Some(OtherParticipant(c.participants, user).value.status)
    ensures c.kind == Direct && OtherParticipant(c.participants, user).None? ==> r == Some(Offline)
  {
    if c.kind != Direct then None
    else match OtherParticipant(c.participants, user)
      case Some(p) => Some(p.status)
      case None => Some(Offline)
  }
}
