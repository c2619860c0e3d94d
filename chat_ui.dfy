/** ChatUI: the selections and lookups the message pane computes from the
    visible messages, the reaction tally under each message, and the composer
    state that the send, edit and key handlers update. */
module ChatUI {
  import opened Wrappers
  import opened Types
  import opened Seqs
  import opened Text

  // ---------------------------------------------------------------------------
  // Derived views of the message list

  /** `msg.sender_id !== user.id && msg.status !== 'seen'` */
  function AwaitsSeen(user: UserId): Message -> bool
  {
    (m: Message) => m.sender_id != user && m.status != Seen
  }

  /** The messages marked seen when a conversation is open: none without a user
      or an open conversation, otherwise the others' messages not yet seen. */
  function ToMarkSeen(messages: seq<Message>, user: Option<UserId>, conversationOpen: bool): (r: seq<Message>)
    ensures user.None? || !conversationOpen ==> r == []
    ensures forall i :: 0 <= i < |r| ==>
      r[i] in messages && user.Some? && r[i].sender_id != user.value && r[i].status != Seen
    ensures user.Some? && conversationOpen ==>
      forall i :: 0 <= i < |messages| && messages[i].sender_id != user.value && messages[i].status != Seen ==>
        messages[i] in r
  {
    if user.None? || !conversationOpen then [] else Filter(messages, AwaitsSeen(user.value))
  }

  /** The selection is a sublist of the message list: it keeps the list's
      order and lists an entry as often as the list does. */
  lemma ToMarkSeenIsSublist(messages: seq<Message>, user: UserId)
    ensures IsSublist(ToMarkSeen(messages, Some(user), true), messages)
  {
    FilterIsSublist(messages, AwaitsSeen(user));
  }

  /** Once every message is seen, or is the user's own, nothing is selected. */
  lemma NothingToMarkWhenAllSeen(messages: seq<Message>, user: UserId)
    requires forall i :: 0 <= i < |messages| ==> messages[i].sender_id == user || messages[i].status == Seen
    ensures ToMarkSeen(messages, Some(user), true) == []
  {
  }

  /** The check marks under a message. */
  datatype StatusIcon = NoIcon | SingleCheck | GreyDoubleCheck | BlueDoubleCheck

  /** `getMessageStatusIcon`: only the user's own messages carry an icon. */
  function StatusIconOf(m: Message, user: Option<UserId>): (icon: StatusIcon)
    ensures icon != NoIcon <==> user.Some? && m.sender_id == user.value
    ensures icon == SingleCheck <==> user.Some? && m.sender_id == user.value && m.status == Sent
    ensures icon == GreyDoubleCheck <==> user.Some? && m.sender_id == user.value && m.status == Delivered
    ensures icon == BlueDoubleCheck <==> user.Some? && m.sender_id == user.value && m.status == Seen
  {
    if user.None? || m.sender_id != user.value then NoIcon
    else match m.status
      case Sent => SingleCheck
      case Delivered => GreyDoubleCheck
      case Seen => BlueDoubleCheck
  }

  /** On the user's own messages the icon tells the three statuses apart. */
  lemma IconDeterminesStatus(m1: Message, m2: Message, user: UserId)
    requires m1.sender_id == user && m2.sender_id == user
    requires StatusIconOf(m1, Some(user)) == StatusIconOf(m2, Some(user))
    ensures m1.status == m2.status
  {
  }

  /** `getReplyMessage(replyId)`: nothing for an absent or empty id, otherwise
      the first message in the list with that id, if any. */
  function ReplyLookup(messages: seq<Message>, replyId: Option<MessageId>): (r: Option<Message>)
    ensures r.None? <==> !Truthy(replyId) || forall i :: 0 <= i < |messages| ==> messages[i].id != replyId.value
    ensures r.Some? ==> exists i :: 0 <= i < |messages| && messages[i] == r.value
                          && r.value.id == replyId.value
                          && forall j :: 0 <= j < i ==> messages[j].id != replyId.value
  {
    if !(replyId.Some? && replyId.value != "") then None else FindById(messages, replyId.value)
  }

  function FindById(messages: seq<Message>, id: MessageId): (r: Option<Message>)
    ensures r.None? <==> forall i :: 0 <= i < |messages| ==> messages[i].id != id
    ensures r.Some? ==> exists i :: 0 <= i < |messages| && messages[i] == r.value && r.value.id == id
                          && forall j :: 0 <= j < i ==> messages[j].id != id
  {
    if messages == [] then None
    else if messages[0].id == id then Some(messages[0])
    else
      var r := FindById(messages[1..], id);
      if r.Some? then
        ghost var i :| 1 <= i + 1 < |messages| && messages[1..][i] == r.value && r.value.id == id
                       && forall j :: 0 <= j < i ==> messages[1..][j].id != id;
        assert messages[i + 1] == r.value;
        r
      else r
  }

  /** A reply whose target left the list (deleted, or never loaded) shows no
      preview. */
  lemma DanglingReplyHasNoPreview(messages: seq<Message>, replyId: MessageId)
    requires forall i :: 0 <= i < |messages| ==> messages[i].id != replyId
    ensures ReplyLookup(messages, Some(replyId)) == None
  {
  }

  /** `getMessageSender(senderId)`: the user for their own id, otherwise the
      first participant with that id. */
  function MessageSender(senderId: UserId, user: Option<User>, participants: seq<User>): (r: Option<User>)
    ensures r.Some? ==> r.value.id == senderId
    ensures user.Some? && user.value.id == senderId ==> r == user
    ensures (user.None? || user.value.id != senderId) ==>
      (r.None? <==> forall i :: 0 <= i < |participants| ==> participants[i].id != senderId)
    decreases |participants|
  {
    if user.Some? && user.value.id == senderId then user
    else if participants == [] then None
    else if participants[0].id == senderId then Some(participants[0])
    else MessageSender(senderId, None, participants[1..])
  }

  /** `!isCurrentUser && (index === 0 || messages[index - 1].sender_id !== message.sender_id)` */
  function ShowAvatar(messages: seq<Message>, index: nat, user: Option<UserId>): (shown: bool)
    requires index < |messages|
    ensures user.Some? && messages[index].sender_id == user.value ==> !shown
    ensures index == 0 ==> (shown <==> IsOther(messages[0].sender_id, user))
    ensures index > 0 && messages[index - 1].sender_id == messages[index].sender_id ==> !shown
    ensures index > 0 && messages[index - 1].sender_id != messages[index].sender_id ==>
      (shown <==> IsOther(messages[index].sender_id, user))
  {
    IsOther(messages[index].sender_id, user)
    && (index == 0 || messages[index - 1].sender_id != messages[index].sender_id)
  }

  /** Every message of another user belongs to a run of messages from the same
      sender that opens with an avatar. */
  lemma {:induction false} AvatarOpensEveryRun(messages: seq<Message>, i: nat, user: Option<UserId>)
    requires i < |messages| && IsOther(messages[i].sender_id, user)
    ensures exists j :: 0 <= j <= i && ShowAvatar(messages, j, user)
                        && forall k :: j <= k <= i ==> messages[k].sender_id == messages[i].sender_id
    decreases i
  {
    if ShowAvatar(messages, i, user) {
      assert forall k :: i <= k <= i ==> messages[k].sender_id == messages[i].sender_id;
    } else {
      AvatarOpensEveryRun(messages, i - 1, user);
      var j :| 0 <= j <= i - 1 && ShowAvatar(messages, j, user)
               && forall k :: j <= k <= i - 1 ==> messages[k].sender_id == messages[i - 1].sender_id;
      assert forall k :: j <= k <= i ==> messages[k].sender_id == messages[i].sender_id;
    }
  }

  /** The user's own messages never carry an avatar. */
  lemma OwnMessagesHaveNoAvatar(messages: seq<Message>, i: nat, user: UserId)
    requires i < |messages| && messages[i].sender_id == user
    ensures !ShowAvatar(messages, i, Some(user))
  {
  }

  // ---------------------------------------------------------------------------
  // Reaction tally

  function HasEmoji(emoji: string): Reaction -> bool
  {
    (r: Reaction) => r.emoji == emoji
  }

  /** `Array.from(new Set(reactions.map(r => r.emoji)))`: each emoji once, in
      the order of its first occurrence. */
  function DistinctEmojis(rs: seq<Reaction>): (es: seq<string>)
    ensures NoDup(es)
    ensures forall i :: 0 <= i < |rs| ==> rs[i].emoji in es
    ensures forall i :: 0 <= i < |es| ==> exists j :: 0 <= j < |rs| && rs[j].emoji == es[i]
  {
    if rs == [] then []
    else
      var init := rs[..|rs| - 1];
      var es := DistinctEmojis(init);
      assert forall i :: 0 <= i < |init| ==> rs[i] == init[i];
      if rs[|rs| - 1].emoji in es then es else es + [rs[|rs| - 1].emoji]
  }

  /** The index of the first reaction with emoji `e`, or `|rs|` when none has it. */
  function FirstIndex(rs: seq<Reaction>, e: string): (n: nat)
    ensures n <= |rs|
    ensures n < |rs| ==> rs[n].emoji == e
    ensures forall k :: 0 <= k < n ==> rs[k].emoji != e
  {
    if rs == [] then 0 else if rs[0].emoji == e then 0 else 1 + FirstIndex(rs[1..], e)
  }

  /** Appending a reaction moves no first occurrence already present. */
  lemma FirstIndexSnoc(init: seq<Reaction>, x: Reaction, e: string)
    ensures FirstIndex(init, e) < |init| ==> FirstIndex(init + [x], e) == FirstIndex(init, e)
    ensures FirstIndex(init, e) == |init| && x.emoji == e ==> FirstIndex(init + [x], e) == |init|
  {
    var rs := init + [x];
    var p := FirstIndex(init, e);
    var n := FirstIndex(rs, e);
    assert forall k :: 0 <= k < |init| ==> rs[k] == init[k];
    if p < |init| {
      assert rs[p].emoji == e;
    } else if x.emoji == e {
      assert rs[|init|].emoji == e;
    }
  }

  /** The badges come in the order in which their emojis first occur. */
  lemma {:induction false} DistinctEmojisInFirstOccurrenceOrder(rs: seq<Reaction>)
    ensures forall i, j :: 0 <= i < j < |DistinctEmojis(rs)| ==>
      FirstIndex(rs, DistinctEmojis(rs)[i]) < FirstIndex(rs, DistinctEmojis(rs)[j])
  {
    if rs != [] {
      var init := rs[..|rs| - 1];
      var x := rs[|rs| - 1];
      assert rs == init + [x];
      DistinctEmojisInFirstOccurrenceOrder(init);
      forall i, j | 0 <= i < j < |DistinctEmojis(rs)|
        ensures FirstIndex(rs, DistinctEmojis(rs)[i]) < FirstIndex(rs, DistinctEmojis(rs)[j])
      {
        BadgePairInOrder(init, x, i, j);
      }
    }
  }

  /** The step of the induction above for one pair of badges. */
  lemma BadgePairInOrder(init: seq<Reaction>, x: Reaction, i: nat, j: nat)
    requires i < j < |DistinctEmojis(init + [x])|
    requires forall i', j' :: 0 <= i' < j' < |DistinctEmojis(init)| ==>
      FirstIndex(init, DistinctEmojis(init)[i']) < FirstIndex(init, DistinctEmojis(init)[j'])
    ensures FirstIndex(init + [x], DistinctEmojis(init + [x])[i]) < FirstIndex(init + [x], DistinctEmojis(init + [x])[j])
  {
    var rs := init + [x];
    assert rs[..|rs| - 1] == init;
    var old_es := DistinctEmojis(init);
    var es := DistinctEmojis(rs);
    assert es == if x.emoji in old_es then old_es else old_es + [x.emoji];
    assert es[i] == old_es[i];
    var m :| 0 <= m < |init| && init[m].emoji == old_es[i];
    assert FirstIndex(init, es[i]) < |init|;
    FirstIndexSnoc(init, x, es[i]);
    FirstIndexSnoc(init, x, es[j]);
    if j < |old_es| {
      assert es[j] == old_es[j];
      var m' :| 0 <= m' < |init| && init[m'].emoji == old_es[j];
      assert FirstIndex(init, es[j]) < |init|;
    } else {
      assert es[j] == x.emoji && x.emoji !in old_es;
      assert FirstIndex(init, x.emoji) == |init|;
    }
  }

  /** One badge per distinct emoji with the number of reactions carrying it. */
  function Tally(rs: seq<Reaction>): (t: seq<(string, nat)>)
    ensures |t| == |DistinctEmojis(rs)|
    ensures forall i :: 0 <= i < |t| ==> t[i].0 == DistinctEmojis(rs)[i] && t[i].1 > 0
    ensures forall i :: 0 <= i < |t| ==> t[i].1 == Count(rs, HasEmoji(t[i].0))
  {
    var es := DistinctEmojis(rs);
    seq(|es|, i requires 0 <= i < |es| => (es[i], Count(rs, HasEmoji(es[i]))))
  }

  function SumCounts(t: seq<(string, nat)>): nat
  {
    if t == [] then 0 else t[0].1 + SumCounts(t[1..])
  }

  /** The sum over `es` of the number of reactions with each emoji. */
  function CountAll(rs: seq<Reaction>, es: seq<string>): nat
  {
    if es == [] then 0 else Count(rs, HasEmoji(es[0])) + CountAll(rs, es[1..])
  }

  function Occurrences(es: seq<string>, e: string): nat
  {
    if es == [] then 0 else (if es[0] == e then 1 else 0) + Occurrences(es[1..], e)
  }

  lemma {:induction false} OccursOnce(es: seq<string>, e: string)
    requires NoDup(es) && e in es
    ensures Occurrences(es, e) == 1
  {
    if es[0] == e {
      OccursNot(es[1..], e);
    } else {
      OccursOnce(es[1..], e);
    }
  }

  lemma {:induction false} OccursNot(es: seq<string>, e: string)
    requires e !in es
    ensures Occurrences(es, e) == 0
  {
    if es != [] {
      OccursNot(es[1..], e);
    }
  }

  /** Appending one reaction adds one to the count of its own emoji only. */
  lemma {:induction false} CountAllAppend(rs: seq<Reaction>, r: Reaction, es: seq<string>)
    ensures CountAll(rs + [r], es) == CountAll(rs, es) + Occurrences(es, r.emoji)
  {
    if es != [] {
      CountAllAppend(rs, r, es[1..]);
      FilterAppend(rs, [r], HasEmoji(es[0]));
    }
  }

  /** Counting over a duplicate-free list of emojis that covers every reaction
      counts each reaction exactly once. */
  lemma {:induction false} CountAllCovers(rs: seq<Reaction>, es: seq<string>)
    requires NoDup(es) && forall i :: 0 <= i < |rs| ==> rs[i].emoji in es
    ensures CountAll(rs, es) == |rs|
    decreases |rs|
  {
    if rs == [] {
      CountAllEmpty(es);
    } else {
      var init := rs[..|rs| - 1];
      var r := rs[|rs| - 1];
      assert rs == init + [r];
      assert forall i :: 0 <= i < |init| ==> init[i] == rs[i];
      CountAllCovers(init, es);
      CountAllAppend(init, r, es);
      OccursOnce(es, r.emoji);
    }
  }

  lemma {:induction false} CountAllEmpty(es: seq<string>)
    ensures CountAll([], es) == 0
  {
    if es != [] {
      CountAllEmpty(es[1..]);
    }
  }

  lemma {:induction false} SumCountsIsCountAll(rs: seq<Reaction>, t: seq<(string, nat)>, es: seq<string>)
    requires |t| == |es| && forall i :: 0 <= i < |t| ==> t[i].0 == es[i] && t[i].1 == Count(rs, HasEmoji(es[i]))
    ensures SumCounts(t) == CountAll(rs, es)
  {
    if t != [] {
      SumCountsIsCountAll(rs, t[1..], es[1..]);
    }
  }

  /** The badges' counts add up to the number of reactions on the message. */
  lemma TallySumsToReactions(rs: seq<Reaction>)
    ensures SumCounts(Tally(rs)) == |rs|
  {
    SumCountsIsCountAll(rs, Tally(rs), DistinctEmojis(rs));
    CountAllCovers(rs, DistinctEmojis(rs));
  }

  // ---------------------------------------------------------------------------
  // Composer

  /** What a handler asks the message actions to do. */
  datatype SendRequest = SendRequest(content: string, contentType: ContentType, replyTo: Option<MessageId>)
  datatype EditRequest = EditRequest(id: MessageId, content: string)

  datatype Key = Enter | Escape | OtherKey

  /** The `messageInput`, `editingMessageId`, `editingContent` and `replyTo`
      state of the pane. */
  class Composer {
    var input: string
    var editingId: Option<MessageId>
    var editingContent: string
    var replyTo: Option<Message>

    constructor ()
      ensures input == "" && editingId == None && editingContent == "" && replyTo == None
    {
      input, editingId, editingContent, replyTo := "", None, "", None;
    }

    /** `handleInputChange` (the typing broadcast and its timer are not part of
        this model). */
    method Type(value: string)
      modifies this
      ensures input == value
      ensures editingId == old(editingId) && editingContent == old(editingContent) && replyTo == old(replyTo)
    {
      input := value;
    }

    /** `handleSendMessage`: nothing for a blank input or without an open
        conversation; otherwise the input is sent as text, replying to the
        chosen message, and input and reply are cleared. */
    method HandleSendMessage(conversationOpen: bool) returns (send: Option<SendRequest>)
      modifies this
      ensures IsBlank(old(input)) || !conversationOpen ==> send == None && unchanged(this)
      ensures !IsBlank(old(input)) && conversationOpen ==>
        && send == Some(SendRequest(old(input), Text, if old(replyTo).Some? then Some(old(replyTo).value.id) else None))
        && input == "" && replyTo == None
        && editingId == old(editingId) && editingContent == old(editingContent)
    {
      if IsBlank(input) || !conversationOpen {
        return None;
      }
      send := Some(SendRequest(input, Text, if replyTo.Some? then Some(replyTo.value.id) else None));
      input := "";
      replyTo := None;
    }

    /** `handleEditMessage`: start editing a message with its content; the
        input is cleared. */
    method HandleEditMessage(m: Message)
      modifies this
      ensures editingId == Some(m.id) && editingContent == m.content && input == ""
      ensures replyTo == old(replyTo)
    {
      editingId := Some(m.id);
      editingContent := m.content;
      input := "";
    }

    /** Typing into the edit field. */
    method TypeEdit(value: string)
      modifies this
      ensures editingContent == value
      ensures editingId == old(editingId) && input == old(input) && replyTo == old(replyTo)
    {
      editingContent := value;
    }

    /** `handleEditComplete`: nothing without an editing id or with blank
        content; otherwise the edit is issued and editing ends. */
    method HandleEditComplete() returns (edit: Option<EditRequest>)
      modifies this
      ensures !Truthy(old(editingId)) || IsBlank(old(editingContent)) ==> edit == None && unchanged(this)
      ensures Truthy(old(editingId)) && !IsBlank(old(editingContent)) ==>
        && edit == Some(EditRequest(old(editingId).value, old(editingContent)))
        && editingId == None && editingContent == ""
        && input == old(input) && replyTo == old(replyTo)
    {
      if !(editingId.Some? && editingId.value != "") || IsBlank(editingContent) {
        return None;
      }
      edit := Some(EditRequest(editingId.value, editingContent));
      editingId := None;
      editingContent := "";
    }

    /** `handleReplyMessage` and `handleCancelReply`. */
    method SetReply(m: Option<Message>)
      modifies this
      ensures replyTo == m
      ensures input == old(input) && editingId == old(editingId) && editingContent == old(editingContent)
    {
      replyTo := m;
    }

    /** `handleKeyDown`. Enter without Shift completes the edit when editing
        and sends otherwise; Escape ends editing when editing (keeping the
        edited text) and otherwise drops the reply. */
    method HandleKeyDown(key: Key, shift: bool, conversationOpen: bool)
      returns (send: Option<SendRequest>, edit: Option<EditRequest>)
      modifies this
      ensures send.Some? ==> key == Enter && !shift && !Truthy(old(editingId))
      ensures edit.Some? ==> key == Enter && !shift && Truthy(old(editingId))
      ensures key == Enter && !shift && Truthy(old(editingId)) && !IsBlank(old(editingContent)) ==>
        edit == Some(EditRequest(old(editingId).value, old(editingContent)))
        && editingId == None && editingContent == "" && input == old(input) && replyTo == old(replyTo)
      ensures key == Enter && !shift && !Truthy(old(editingId)) && !IsBlank(old(input)) && conversationOpen ==>
        && send == Some(SendRequest(old(input), Text, if old(replyTo).Some? then Some(old(replyTo).value.id) else None))
        && input == "" && replyTo == None
        && editingId == old(editingId) && editingContent == old(editingContent)
      ensures key == Enter && !shift && (if Truthy(old(editingId)) then IsBlank(old(editingContent))
                                         else IsBlank(old(input)) || !conversationOpen) ==>
        send == None && edit == None && unchanged(this)
      ensures key == Escape && Truthy(old(editingId)) ==>
        editingId == None && editingContent == old(editingContent) && input == old(input) && replyTo == old(replyTo)
      ensures key == Escape && !Truthy(old(editingId)) ==>
        replyTo == None && editingId == old(editingId) && editingContent == old(editingContent) && input == old(input)
      ensures (key == OtherKey || (key == Enter && shift)) ==> unchanged(this) && send == None && edit == None
    {
      send, edit := None, None;
      if key == Enter && !shift {
        if editingId.Some? && editingId.value != "" {
          edit := HandleEditComplete();
        } else {
          send := HandleSendMessage(conversationOpen);
        }
      } else if key == Escape {
        if editingId.Some? && editingId.value != "" {
          editingId := None;
        } else if replyTo.Some? {
          replyTo := None;
        }
      }
    }
  }

  /** Choosing Edit on a message and pressing Enter without changing the text
      issues an edit of that message to its own content, unless it is blank. */
  method EditThenEnter(m: Message) returns (edit: Option<EditRequest>)
    requires m.id != ""
    ensures !IsBlank(m.content) ==> edit == Some(EditRequest(m.id, m.content))
    ensures IsBlank(m.content) ==> edit == None
  {
    var composer := new Composer();
    composer.HandleEditMessage(m);
    var send;
    send, edit := composer.HandleKeyDown(Enter, false, true);
  }

  /** Escape while editing followed by Enter sends the input rather than the
      abandoned edit. */
  method EscapeAbandonsEdit(m: Message, typed: string) returns (send: Option<SendRequest>, edit: Option<EditRequest>)
    requires m.id != "" && !IsBlank(typed)
    ensures edit == None && send == Some(SendRequest(typed, Text, None))
  {
    var composer := new Composer();
    composer.HandleEditMessage(m);
    var s, e := composer.HandleKeyDown(Escape, false, true);
    composer.Type(typed);
    send, edit := composer.HandleKeyDown(Enter, false, true);
  }
}
