/** ConversationItem: one row of the conversation list. Its avatar and presence
    helpers repeat the sidebar's; its name and fallback distinguish groups from
    communities. */
module ConversationItem {
  import opened Wrappers
  import opened Types
  import opened Text
  import opened Store
  import ConversationSidebar
  import ConversationSync

  /** `${noun} (${n} members)` */
  function MembersLabel(noun: string, n: nat): string
  {
    noun + " (" + NatToString(n) + " members)"
  }

  /** `getConversationName` of the list row. */
  function ConversationName(c: Conversation, user: Option<UserId>): (r: string)
    ensures Truthy(c.name) ==> r == c.name.value
    ensures !Truthy(c.name) && c.kind == Direct ==>
      r == (if ConversationSidebar.OtherParticipant(c.participants, user).Some?
            then ConversationSidebar.OtherParticipant(c.participants, user).value.full_name
            else "Unknown User")
    ensures !Truthy(c.name) && c.kind == Group ==> r == MembersLabel("Group", |c.participants|)
    ensures !Truthy(c.name) && c.kind == Community ==> r == MembersLabel("Community", |c.participants|)
  {
    if c.name.Some? && c.name.value != "" then c.name.value
    else match c.kind
      case Direct =>
        (match ConversationSidebar.OtherParticipant(c.participants, user)
         case Some(p) => p.full_name
         case None => "Unknown User")
      case Group => MembersLabel("Group", |c.participants|)
      case Community => MembersLabel("Community", |c.participants|)
  }

  /** The row and the sidebar agree on the name of every named or direct
      conversation; they differ only in the label of an unnamed group. */
  lemma NamesAgreeWithSidebar(c: Conversation, user: Option<UserId>)
    ensures Truthy(c.name) || c.kind == Direct ==>
      ConversationName(c, user) == ConversationSidebar.ConversationName(c, user)
    ensures !Truthy(c.name) && c.kind == Group ==>
      ConversationName(c, user) != ConversationSidebar.ConversationName(c, user)
  {
    if !Truthy(c.name) && c.kind == Group {
      var n := NatToString(|c.participants|);
      var a := ConversationName(c, user);
      var b := ConversationSidebar.ConversationName(c, user);
      assert a == "Group (" + n + " members)";
      assert b == "Group (" + n + ")";
      assert |a| != |b|;
    }
  }

  /** `getConversationAvatarFallback` of the list row: `G` for a group, `C`
      for a community when the conversation has no name. */
  function AvatarFallback(c: Conversation, user: Option<UserId>): (r: string)
    ensures c.kind == Direct ==> r == ConversationSidebar.AvatarFallback(c, user)
    ensures c.kind != Direct && Truthy(c.name) ==> r == Initial(c.name.value)
    ensures c.kind == Group && !Truthy(c.name) ==> r == "G"
    ensures c.kind == Community && !Truthy(c.name) ==> r == "C"
  {
    if c.kind == Direct then
      match ConversationSidebar.OtherParticipant(c.participants, user)
      case Some(p) => Initial(p.full_name)
      case None => "?"
    else if c.name.Some? && c.name.value != "" then Initial(c.name.value)
    else if c.kind == Group then "G"
    else "C"
  }

  /** The preview line under the name. */
  function PreviewText(c: Conversation): (r: string)
    ensures c.last_message.None? ==> r == "No messages yet"
    ensures c.last_message.Some? && c.last_message.value.content_type == Text ==>
      r == c.last_message.value.content
    ensures c.last_message.Some? && c.last_message.value.content_type != Text ==>
      r == "[" + ContentTypeName(c.last_message.value.content_type) + "]"
  {
    match c.last_message
    case None => "No messages yet"
    case Some(m) => if m.content_type == Text then m.content else "[" + ContentTypeName(m.content_type) + "]"
  }

  /** The unread badge: shown for a positive count, with the count as its
      text. */
  function UnreadBadge(c: Conversation): (badge: Option<string>)
    ensures badge.Some? <==> c.unread_count > 0
    ensures badge.Some? ==> badge.value != "" && badge.value != "0"
    ensures badge.Some? ==> forall i :: 0 <= i < |badge.value| ==> '0' <= badge.value[i] <= '9'
  {
    if c.unread_count > 0 then Some(NatToString(c.unread_count)) else None
  }

  /** On a freshly loaded conversation the badge appears exactly when one of
      its messages from somebody else is not yet seen. */
  lemma BadgeIffUnread(db: Snapshot, user: UserId, now: Timestamp, c: Conversation)
    requires ConversationSync.Describes(db, user, now, c)
    ensures UnreadBadge(c).Some? <==>
      exists k :: k in db.messages && ConversationSync.Unread(db.messages[k], c.id, user)
  {
    var unread := set k | k in db.messages && ConversationSync.Unread(db.messages[k], c.id, user);
    if UnreadBadge(c).Some? {
      assert unread != {};
      var k :| k in unread;
    } else {
      assert unread == {};
      forall k | k in db.messages ensures !ConversationSync.Unread(db.messages[k], c.id, user) {
        assert k !in unread;
      }
    }
  }

  /** A preview of a non-text message never shows its content, only its type
      in brackets. */
  lemma NonTextPreviewIsBracketed(c: Conversation)
    requires c.last_message.Some? && c.last_message.value.content_type != Text
    ensures |PreviewText(c)| >= 2 && PreviewText(c)[0] == '[' && PreviewText(c)[|PreviewText(c)| - 1] == ']'
  {
  }
}
