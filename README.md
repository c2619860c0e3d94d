# Chatterbox Connect: a verified model of the chat client's logic

Chatterbox Connect is a React chat client over a hosted Postgres backend.
This project models in Dafny the logic that sits between the backend tables
and the screen:

- how the visible message list follows loads and realtime INSERT, UPDATE and
  DELETE events;
- which messages are promoted to `delivered` or marked `seen`;
- the reaction lists;
- the ownership-scoped writes to `messages`;
- how the conversation list is assembled and sorted;
- the direct-conversation reuse of `createConversation`;
- the user directory with its presence updates and capped search;
- the filters, names, fallbacks and composer state of the components.

The backend is `Store.Backend`, a class with four fields:

- `profiles`: a map keyed by user id;
- `conversations`: a map keyed by conversation id;
- `participants`: a set of `(conversation_id, user_id)` pairs;
- `messages`: a map keyed by message id.

Writes are methods that modify it. A read is a `Snapshot` of its fields.
Timestamps are integers. Query failures, generated keys and the current time
are parameters. A query over an unordered table answers through
`Seqs.Enumerate`, which yields the rows each once in an order the model does
not fix. A generated key that collides with an existing one makes the insert
fail, as a primary key would.

Modules follow the source files:

- `MessageSync`: useMessages.
- `Reactions` and `MessageActions`: useMessageActions and useMessageReactions.
- `ConversationSync`: useConversations.
- `CreateConversation`: useCreateConversation.
- `UserDirectory`: useUsers.
- `ChatUI`.
- `ConversationSidebar`.
- `ConversationItem`.
- `UserList`.
- `NewGroupDialog`.
- `GroupManagementDialog`.

Shared modules:

- `Wrappers`: `Option` and `Result`.
- `Types`: the records of `src/types/index.ts`.
- `Seqs`: filter, sublist, counting and enumeration.
- `Text`: ASCII case mapping, substring, blank test and decimal digits.
- `Store`: the backend tables.

JavaScript truthiness of an optional string is `Types.Truthy`. The test
`x !== userId` with a possibly undefined user is `Types.IsOther`.

Three behaviours of the code are worth stating plainly:

- Switching to another conversation does not clear the message list before
  the load; only a switch to no conversation clears it
  (src/hooks/chat/useMessages.ts:14-19).
- An INSERT event promotes the new message to delivered whatever its status
  (src/hooks/chat/useMessages.ts:105).
- When the participant insert of `createConversation` fails, the conversation
  row stays: no compensating delete is issued
  (src/hooks/chat/useCreateConversation.ts:82-96).

## Model

| member | source | states |
|---|---|---|
| Store.ToUser | src/hooks/chat/useUsers.ts:24-33 | profile to User: id, names, avatar and status copied; email defaults to '', role to 'user', last_seen to the current time (the same mapping as useConversations.ts:59-68) |
| MessageSync.PromotionTargets | src/hooks/chat/useMessages.ts:47-49 | the load promotes exactly the fetched rows not sent by the user whose status is sent, as an order-preserving sublist |
| MessageSync.ReplaceById | src/hooks/chat/useMessages.ts:111-131 | an UPDATE event replaces every entry with the event's id by the new record; length, order, ids and all other entries are unchanged |
| MessageSync.RemoveById | src/hooks/chat/useMessages.ts:132-133 | a DELETE event leaves no entry with the id, keeps every other entry in order, and is the identity when the id is absent |
| MessageSync.InsertDoesNotDeduplicate | src/hooks/chat/useMessages.ts:102 | an INSERT adds one more entry with the new id even when one is already listed |
| MessageSync.RemoveByIdLength | src/hooks/chat/useMessages.ts:133 | a DELETE shortens the list by exactly the number of entries carrying the id |
| MessageSync.InsertThenDelete | src/hooks/chat/useMessages.ts:102-133 | a DELETE of a just-inserted id gives the same list as deleting that id before the insert |
| MessageSync.ReplaceByIdIdempotent | src/hooks/chat/useMessages.ts:113-131 | applying the same UPDATE twice equals applying it once |
| MessageSync.ReplaceByIdKeepsOccurrences | src/hooks/chat/useMessages.ts:113-131 | an UPDATE never changes how many entries carry any id |
| MessageSync.MessageFeed.constructor | src/hooks/chat/useMessages.ts:8-10 | the feed starts empty, not loading, with no typing indicator |
| MessageSync.MessageFeed.Load | src/hooks/chat/useMessages.ts:14-70 | no conversation: the list becomes empty and loading is untouched; success: the list holds every stored message of the active conversation exactly once, as stored, in ascending created_at order, and every stored message of it from somebody else that is still sent is returned for promotion; failure: the list is kept; loading ends false after any fetch |
| MessageSync.TypingApplies | src/hooks/chat/useMessages.ts:143-146 | a typing event is shown only for the active conversation, never when it is the user's own, and always when it is somebody else's in the active conversation (every sender counts as somebody else when no user is known) |
| MessageSync.MessageFeed.OnInsert | src/hooks/chat/useMessages.ts:86-110 | appends the message at the end; promotes it iff a user is known and is not its sender, whatever its status |
| MessageSync.MessageFeed.OnUpdate | src/hooks/chat/useMessages.ts:111-131 | the list becomes ReplaceById of the old list; the other state is unchanged |
| MessageSync.MessageFeed.OnDelete | src/hooks/chat/useMessages.ts:132-133 | the list becomes RemoveById of the old list; the other state is unchanged |
| MessageSync.MessageFeed.OnTyping | src/hooks/chat/useMessages.ts:142-150 | the indicator becomes {user_id, username} iff the event is for the active conversation and from somebody else; otherwise it is unchanged; is_typing is ignored |
| MessageSync.MessageFeed.OnTypingTimeout | src/hooks/chat/useMessages.ts:152-155 | the timer's expiry clears the indicator and nothing else |
| Reactions.WithReaction | src/hooks/chat/useMessageActions.ts:139-149 | the list written by addReaction holds the pair, extends the old list by at most that pair, and equals the old list iff the pair was present |
| Reactions.WithoutReaction | src/hooks/chat/useMessageActions.ts:183-188 | the list written by removeReaction lacks the pair, keeps every other entry in order, and is the old list when the pair was absent; every other entry keeps its number of copies |
| Reactions.AddKeepsUniquePairs | src/hooks/chat/useMessageReactions.ts:25-36 | adding keeps a list without duplicate (user_id, emoji) pairs duplicate-free |
| Reactions.RemoveKeepsUniquePairs | src/hooks/chat/useMessageReactions.ts:69-74 | removing keeps a list without duplicate pairs duplicate-free |
| Reactions.AddIdempotent | src/hooks/chat/useMessageActions.ts:139-157 | adding the same pair twice equals adding it once |
| Reactions.RemoveUndoesAdd | src/hooks/chat/useMessageReactions.ts:30-74 | removing a pair just added to a list without it restores the list |
| Reactions.RemoveThenAddLeavesOneCopy | src/hooks/chat/useMessageActions.ts:144-188 | after removing and re-adding a pair the list holds it exactly once |
| MessageActions.NewMessage | src/hooks/chat/useMessageActions.ts:18-32 | the inserted row: sender = user, status sent, no reactions, not edited, the given content, type and reply_to, both timestamps now |
| MessageActions.EditRows | src/hooks/chat/useMessageActions.ts:82-90 | only a row with the id sent by the user changes: content, updated_at and is_edited = true; otherwise no row changes |
| MessageActions.DeleteRows | src/hooks/chat/useMessageActions.ts:56-60 | only a row with the id sent by the user is removed; every other row is kept as it was |
| MessageActions.SeenRows | src/hooks/chat/useMessageActions.ts:112-115 | the row with the id gets status seen, whoever sent it; all other rows are unchanged |
| MessageActions.SetReactions | src/hooks/chat/useMessageActions.ts:152-155 | the reactions update replaces one row's list and no other row |
| MessageActions.SeenIdempotent | src/hooks/chat/useMessageActions.ts:112-115 | marking seen twice equals marking seen once |
| MessageActions.ForeignRowsUntouched | src/hooks/chat/useMessageActions.ts:56-90 | edit and delete of a message somebody else sent change no row |
| MessageActions.EditKeepsOwnership | src/hooks/chat/useMessageActions.ts:82-90 | edits never change who owns any row |
| MessageActions.SendMessage | src/hooks/chat/useMessageActions.ts:9-50 | no user or a failed insert: no change; otherwise exactly the new row is added and the conversation's updated_at is touched when that unchecked write succeeds |
| MessageActions.DeleteMessage | src/hooks/chat/useMessageActions.ts:52-76 | the messages table becomes DeleteRows of the old one when a user is logged in and the write succeeds, else unchanged; other tables unchanged |
| MessageActions.EditMessage | src/hooks/chat/useMessageActions.ts:78-106 | the messages table becomes EditRows of the old one when a user is logged in and the write succeeds, else unchanged |
| MessageActions.MarkMessageAsSeen | src/hooks/chat/useMessageActions.ts:108-121 | the messages table becomes SeenRows of the old one when a user is logged in and the write succeeds, else unchanged |
| MessageActions.AddReaction | src/hooks/chat/useMessageActions.ts:123-167 | writes iff a user is logged in, the row is read, the pair is absent and the write succeeds; the write stores WithReaction; duplicate-free reaction lists stay duplicate-free |
| MessageActions.RemoveReaction | src/hooks/chat/useMessageActions.ts:169-205 | writes WithoutReaction whenever a user is logged in and read and write succeed, even for an absent pair; duplicate-free lists stay duplicate-free |
| ConversationSync.LatestMessage | src/hooks/chat/useConversations.ts:70-94 | the last message is none iff the conversation has no message, else a stored message of it with the greatest created_at |
| ConversationSync.ParticipantProfiles | src/hooks/chat/useConversations.ts:45-68 | the participants are, each once, the users with a participant row and a profile, mapped with the profile defaults |
| ConversationSync.SortByRecency | src/hooks/chat/useConversations.ts:120-125 | sorts in place descending by last message time, else creation time, and the result is a permutation of the input |
| ConversationSync.UnreadCount | src/hooks/chat/useConversations.ts:96-104 | the count is zero exactly when the conversation holds no message from somebody else that is not yet seen |
| ConversationSync.SeenLowersUnread | src/hooks/chat/useConversations.ts:96-104 | marking a counted message seen lowers the unread count by one |
| ConversationSync.SeenOfUncountedKeepsUnread | src/hooks/chat/useConversations.ts:96-104 | marking seen a message not counted leaves the unread count unchanged |
| ConversationSync.SendAdjustsUnread | src/hooks/chat/useConversations.ts:96-104 | the user's own new message never changes their unread count; another user's new message in the conversation raises it by one |
| ConversationSync.AssembleAll | src/hooks/chat/useConversations.ts:42-118 | one record per listed id, in order, each with the row's fields, is_pinned false unless true, unread count, last message and participants as defined above |
| ConversationSync.PermutedListing | src/hooks/chat/useConversations.ts:32-38 | any reordering of the assembled records still lists exactly the joined conversations, each described correctly |
| ConversationSync.ConversationFeed.Load | src/hooks/chat/useConversations.ts:12-138 | no user: nothing changes; no membership or a failed query: the list is kept; otherwise the list is sorted by recency and holds exactly the joined conversations, each described correctly; loading ends false |
| CreateConversation.IncludeSelf | src/hooks/chat/useCreateConversation.ts:17-19 | the ids contain the user; they are unchanged iff the user was present, else the user is appended once |
| CreateConversation.FirstOther | src/hooks/chat/useCreateConversation.ts:23 | the first id that is not the user's, none iff every id is the user's |
| CreateConversation.AttemptsDedup | src/hooks/chat/useCreateConversation.ts:22 | the lookup is tried only for a direct conversation whose completed id list has exactly two entries |
| CreateConversation.DedupCases | src/hooks/chat/useCreateConversation.ts:16-22 | in terms of the caller's list: the lookup is tried exactly for a direct request naming one id other than the user's, or two ids one of which is the user's |
| CreateConversation.DirectPickLooksUpOther | src/hooks/chat/useCreateConversation.ts:16-23 | a direct request for one other user tries the lookup, with that user as the other id |
| CreateConversation.LookupDirect | src/hooks/chat/useCreateConversation.ts:25-52 | an absent other id finds nothing; whatever is found is a direct conversation both users have a participant row for |
| CreateConversation.LookupFindsDirectBetween | src/hooks/chat/useCreateConversation.ts:25-52 | the three-step lookup finds exactly the direct conversations both users have a participant row for |
| CreateConversation.NewRow | src/hooks/chat/useCreateConversation.ts:61-67 | the inserted row: name if non-empty else null, the given type, created and updated now, not pinned |
| CreateConversation.ParticipantRows | src/hooks/chat/useCreateConversation.ts:76-80 | exactly one participant row per id, all for the new conversation |
| CreateConversation.InsertedDirectIsUnique | src/hooks/chat/useCreateConversation.ts:58-84 | inserting a direct conversation with both users under a fresh id, where none existed, makes it the only one between them |
| CreateConversation.CreateConversation | src/hooks/chat/useCreateConversation.ts:8-98 | no user: error and no change; reuse for a two-id direct request when the lookup finds a conversation; otherwise the row with name-or-null and then one row per id are inserted; a failed participant insert keeps the conversation row |
| CreateConversation.CreateDirectTwice | src/hooks/chat/useCreateConversation.ts:22-88 | two successful direct creations with the same other user, one after the other, return the same id |
| UserDirectory.ApplyPresence | src/hooks/chat/useUsers.ts:53-63 | a presence event changes only status and last_seen of the users with its id; length and all other users unchanged |
| UserDirectory.PresenceKeepsIds | src/hooks/chat/useUsers.ts:53-63 | ids keep their places, so an unknown id adds nobody and changes nothing |
| UserDirectory.PresenceIdempotent | src/hooks/chat/useUsers.ts:53-63 | replaying a presence event changes nothing more |
| UserDirectory.LaterPresenceWins | src/hooks/chat/useUsers.ts:53-63 | of two events for the same user only the later shows |
| UserDirectory.SearchCandidates | src/hooks/chat/useUsers.ts:76-80 | the profiles a search may return: not the user's own, with the query in username or full name, ignoring case |
| UserDirectory.SearchUsers | src/hooks/chat/useUsers.ts:72-99 | [] without a user, for a blank query or on error; otherwise min(10, matches) distinct matching profiles, each mapped with the defaults |
| UserDirectory.FetchOthers | src/hooks/chat/useUsers.ts:17-33 | every profile except the user's own, each once, mapped with the defaults |
| UserDirectory.Directory.Load | src/hooks/chat/useUsers.ts:11-41 | no user: nothing changes; error: the users are kept; otherwise they become every other profile; loading ends false |
| UserDirectory.Directory.OnPresence | src/hooks/chat/useUsers.ts:52-64 | the users become ApplyPresence of the old users |
| ChatUI.ToMarkSeen | src/components/ChatUI.tsx:43-53 | nothing without a user or an open conversation; otherwise exactly the messages from others not yet seen |
| ChatUI.ToMarkSeenIsSublist | src/components/ChatUI.tsx:47-49 | the selection keeps the list's order |
| ChatUI.NothingToMarkWhenAllSeen | src/components/ChatUI.tsx:47-53 | once every message from others is seen nothing is selected |
| ChatUI.StatusIconOf | src/components/ChatUI.tsx:102-115 | an icon only on the user's own messages: sent a single check, delivered a grey double check, seen a blue one |
| ChatUI.IconDeterminesStatus | src/components/ChatUI.tsx:102-115 | on own messages equal icons mean equal statuses |
| ChatUI.ReplyLookup | src/components/ChatUI.tsx:149-152 | none for an absent or empty id or when no message has it; otherwise the first message with the id |
| ChatUI.DanglingReplyHasNoPreview | src/components/ChatUI.tsx:278 | a reply to a message not in the list shows no preview |
| ChatUI.MessageSender | src/components/ChatUI.tsx:154-158 | the user for their own id, otherwise the first participant with the id, none if there is none |
| ChatUI.ShowAvatar | src/components/ChatUI.tsx:257-258 | the user's own messages never show an avatar; another user's message shows one when it is first in the list or its sender differs from the previous message's, and not when the previous message has the same sender |
| ChatUI.AvatarOpensEveryRun | src/components/ChatUI.tsx:256-258 | every message of another user lies in a run of the same sender that opens with an avatar |
| ChatUI.OwnMessagesHaveNoAvatar | src/components/ChatUI.tsx:257-258 | the user's own messages never show an avatar |
| ChatUI.DistinctEmojis | src/components/ChatUI.tsx:384 | each emoji of the reactions once, and no other |
| ChatUI.DistinctEmojisInFirstOccurrenceOrder | src/components/ChatUI.tsx:384 | the distinct emojis come in the order of their first occurrence among the reactions |
| ChatUI.Tally | src/components/ChatUI.tsx:384-385 | one badge per distinct emoji with the number of reactions carrying it, always positive |
| ChatUI.TallySumsToReactions | src/components/ChatUI.tsx:384-385 | the badge counts add up to the number of reactions |
| ChatUI.Composer.constructor | src/components/ChatUI.tsx:31-34 | empty input, no edit, empty edit text, no reply |
| ChatUI.Composer.Type | src/components/ChatUI.tsx:69-70 | typing sets the input only |
| ChatUI.Composer.HandleSendMessage | src/components/ChatUI.tsx:60-67 | no-op for a blank input or no conversation; otherwise sends the input as text replying to the chosen message, then clears input and reply |
| ChatUI.Composer.HandleEditMessage | src/components/ChatUI.tsx:117-122 | starts editing the message with its content and clears the input |
| ChatUI.Composer.TypeEdit | src/components/ChatUI.tsx:449 | typing in the edit field sets the edit text only |
| ChatUI.Composer.HandleEditComplete | src/components/ChatUI.tsx:124-130 | no-op without an edit id or with blank text; otherwise issues the edit and clears edit id and text |
| ChatUI.Composer.SetReply | src/components/ChatUI.tsx:136-143 | choosing or cancelling a reply sets only the reply |
| ChatUI.Composer.HandleKeyDown | src/components/ChatUI.tsx:81-96 | Enter without Shift completes the edit when editing, else sends; Escape ends editing (keeping the text) when editing, else drops the reply; other keys change nothing |
| ChatUI.EditThenEnter | src/components/ChatUI.tsx:117-130 | Edit then Enter issues an edit of the message to its own content, unless that is blank |
| ChatUI.EscapeAbandonsEdit | src/components/ChatUI.tsx:81-96 | after Escape ends an edit, Enter sends the typed input and issues no edit |
| ConversationSidebar.OtherParticipant | src/components/ConversationSidebar.tsx:51 | the first participant who is not the user, none iff there is none |
| ConversationSidebar.FilterConversations | src/components/ConversationSidebar.tsx:28-41 | keeps a conversation iff the query is empty, or occurs in its name or a participant's username or full name, ignoring case |
| ConversationSidebar.EmptyQueryKeepsAll | src/components/ConversationSidebar.tsx:29 | an empty query keeps every conversation |
| ConversationSidebar.FilterConversationsIsStableSublist | src/components/ConversationSidebar.tsx:28-41 | the result is an order-preserving sublist, and filtering it again changes nothing |
| ConversationSidebar.ConversationName | src/components/ConversationSidebar.tsx:47-56 | the stored name if non-empty; direct: the other participant's full name or 'Unknown User'; else 'Group (n)' |
| ConversationSidebar.ConversationAvatar | src/components/ConversationSidebar.tsx:58-66 | the other participant's picture for a direct conversation, else empty (repeated at ConversationItem.tsx:42-49) |
| ConversationSidebar.AvatarFallback | src/components/ConversationSidebar.tsx:68-75 | direct: the other participant's upper-cased initial or '?'; else the name's initial or 'G' |
| ConversationSidebar.FallbackIsOneLetter | src/components/ConversationSidebar.tsx:68-75 | the fallback has at most one character and is empty only for a direct partner with an empty full name |
| ConversationSidebar.OtherUserStatus | src/components/ConversationSidebar.tsx:77-83 | none iff not direct; else the other participant's status, or offline (repeated at ConversationItem.tsx:64-70) |
| ConversationItem.ConversationName | src/components/conversation/ConversationItem.tsx:23-40 | the stored name if non-empty; direct: the other participant's full name or 'Unknown User'; 'Group (n members)' and 'Community (n members)' otherwise |
| ConversationItem.NamesAgreeWithSidebar | src/components/conversation/ConversationItem.tsx:23-40 | the row and the sidebar agree on named and direct conversations and differ on unnamed groups |
| ConversationItem.AvatarFallback | src/components/conversation/ConversationItem.tsx:51-62 | direct as in the sidebar; else the name's initial, 'G' for a group, 'C' for a community |
| ConversationItem.PreviewText | src/components/conversation/ConversationItem.tsx:117-121 | the content for a text message, the bracketed type otherwise, 'No messages yet' without one |
| ConversationItem.NonTextPreviewIsBracketed | src/components/conversation/ConversationItem.tsx:117-121 | a non-text preview never shows content, only the type in brackets |
| ConversationItem.UnreadBadge | src/components/conversation/ConversationItem.tsx:124-128 | a badge exactly for a positive unread count; its text is the count's decimal digits, never empty and never "0" |
| ConversationItem.BadgeIffUnread | src/components/conversation/ConversationItem.tsx:124 | on a loaded conversation the badge shows iff a message from somebody else is not yet seen |
| UserList.FilterUsers | src/components/UserList.tsx:25-33 | keeps a user iff the query is empty or occurs in username, full name or role, ignoring case |
| UserList.EmptyQueryKeepsAll | src/components/UserList.tsx:26 | an empty query keeps every user |
| UserList.FilterUsersIsStableSublist | src/components/UserList.tsx:25-33 | the result is an order-preserving sublist, and filtering it again changes nothing |
| UserList.LongerQueryKeepsFewer | src/components/UserList.tsx:28-32 | every user a longer query keeps, its prefix keeps too |
| UserList.LastSeenText | src/components/UserList.tsx:160 | 'Online now' iff the user is online, else their last_seen |
| NewGroupDialog.AvailableUsers | src/components/conversation/NewGroupDialog.tsx:28-32 | exactly the users matching the query in username or full name, ignoring case, that are not selected |
| NewGroupDialog.AvailableDisjointFromSelected | src/components/conversation/NewGroupDialog.tsx:31 | no offered user shares an id with a selected one |
| NewGroupDialog.EmptyQueryOffersUnselected | src/components/conversation/NewGroupDialog.tsx:28-32 | with an empty query every unselected user is offered, in order |
| NewGroupDialog.Deselect | src/components/conversation/NewGroupDialog.tsx:38-40 | removes every selected user with the id and keeps the others |
| NewGroupDialog.DeselectIsSublist | src/components/conversation/NewGroupDialog.tsx:39 | removal keeps the order of the rest |
| NewGroupDialog.DeselectUndoesSelect | src/components/conversation/NewGroupDialog.tsx:34-40 | adding a user not selected and removing it restores the selection |
| NewGroupDialog.GroupDraft.constructor | src/components/conversation/NewGroupDialog.tsx:23-25 | empty name, selection and query |
| NewGroupDialog.GroupDraft.SetName | src/components/conversation/NewGroupDialog.tsx:93 | sets the name only |
| NewGroupDialog.GroupDraft.SetQuery | src/components/conversation/NewGroupDialog.tsx:103 | sets the query only |
| NewGroupDialog.GroupDraft.AddUser | src/components/conversation/NewGroupDialog.tsx:34-36 | appends the user to the selection |
| NewGroupDialog.GroupDraft.RemoveUser | src/components/conversation/NewGroupDialog.tsx:38-40 | the selection becomes Deselect of the old one |
| NewGroupDialog.GroupDraft.CreateGroup | src/components/conversation/NewGroupDialog.tsx:42-68 | no-op for a blank name or empty selection; otherwise requests a group with the ids in order and the name as typed; success resets and closes, failure keeps the form |
| NewGroupDialog.GroupDraft.Close | src/components/conversation/NewGroupDialog.tsx:70-75 | resets name, selection and query and closes |
| Types.UserIds | src/components/conversation/GroupManagementDialog.tsx:36 | the users' ids, one per user, in the users' order (also the `selectedUsers.map(u => u.id)` of NewGroupDialog.tsx) |
| GroupManagementDialog.ExcludeParticipants | src/components/conversation/GroupManagementDialog.tsx:36-37 | the results without any current participant, keeping every other result |
| GroupManagementDialog.ExcludeParticipantsIsSublist | src/components/conversation/GroupManagementDialog.tsx:37 | the offer keeps the results' order |
| GroupManagementDialog.MemberSearch.constructor | src/components/conversation/GroupManagementDialog.tsx:27-28 | empty query and offer |
| GroupManagementDialog.MemberSearch.HandleSearchUsers | src/components/conversation/GroupManagementDialog.tsx:30-45 | the query is always recorded; a blank query empties the offer; results become the offer minus participants; a rejected search keeps the offer |

## Left out

- Backend I/O and the realtime channels are out of scope. This covers the queries, subscriptions and unsubscribes and the full reload on any change. Query answers, failures, keys and the clock are parameters, and events are method calls.
- The normalizers (`parseUserStatus`, `parseMessageStatus`, `parseMessageContentType`, `parseReactions`, `reactionsToJson`) are not part of this model. Rows hold already-typed values. The `is_edited || false` default is likewise implicit.
- Timers are not modelled: the 3-second typing clear, the 2-second typing broadcast timer and the 500 ms lookup in UserList's click handler. The typing clear is a separate `OnTypingTimeout` event.
- Date formatting and `new Date().toISOString()` are not modelled. Timestamps are integers, and relative last-seen text is `SeenAt(last_seen)`.
- Concurrency is not modelled: the `Promise.all` fan-outs, the read-then-write races of reactions and of direct-conversation reuse, and interleavings of events. Everything is sequential.
- ConversationSync.AssembleAll: the per-conversation participant, message and unread queries are not checked in the source. Their failures (an empty list, no last message, a count of 0) are not modelled; every such read answers.
- CreateConversation.CreateConversation: one flag stands for a failure of any of the three unchecked dedup reads. Each such failure skips the reuse.
- CreateConversation.CreateConversation: the caller's array is mutated in place by `push`. The model returns the updated ids instead, so aliasing is not modelled.
- UserDirectory.SearchUsers: the query is matched as a substring. The `%` and `_` wildcards inside it and a comma breaking the `or` filter are not modelled. Case folding is ASCII only, like `Text.Lower` everywhere.
- GroupManagementDialog.MemberSearch.HandleSearchUsers: the error path is kept as written, but the search it calls never rejects (it returns [] on error).
- `Text.IsBlank` covers the whitespace `trim` removes within the Basic Multilingual Plane.
- The group-name, add-member, remove-member and photo handlers of GroupManagementDialog are TODO stubs that only log, so they have no model.
- ChatUI's header text is not modelled: partner name, 'Online'/'Offline' and member count.
- Selecting the new conversation after a create is not modelled: `setCurrentConversation` after a `find` in NewGroupDialog and UserList, and the sidebar's demo `startNewConversation`.
- Toasts, console logging, focus and scrolling are not modelled.
- AuthContext and the thin wrappers are not part of this model: useSendMessage, useMessageEdit, useTypingIndicator, useConversationActions and ChatContext.
