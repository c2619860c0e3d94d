/** useCreateConversation: add the caller to the participant list, reuse an
    existing direct conversation between the same two users when there is one,
    otherwise insert a conversation row and one participant row per id. */
module CreateConversation {
  import opened Wrappers
  import opened Types
  import opened Store

  /** `if (!participantIds.includes(userId)) participantIds.push(userId)` */
  function IncludeSelf(ids: seq<UserId>, user: UserId): (r: seq<UserId>)
    ensures user in r
    ensures ids <= r && |r| <= |ids| + 1
    ensures forall x :: x in r ==> x in ids || x == user
    ensures user in ids <==> r == ids
  {
    if user in ids then ids else ids + [user]
  }

  /** `participantIds.find(id => id !== userId)`: the first other id, if any. */
  function FirstOther(ids: seq<UserId>, user: UserId): (r: Option<UserId>)
    ensures r.None? <==> forall i :: 0 <= i < |ids| ==> ids[i] == user
    ensures r.Some? ==> r.value in ids && r.value != user
  {
    if ids == [] then None
    else if ids[0] != user then Some(ids[0])
    else FirstOther(ids[1..], user)
  }

  /** Dedup is attempted only for a direct conversation of exactly two ids. */
  predicate AttemptsDedup(kind: ConversationType, ids: seq<UserId>)
  {
    kind == Direct && |ids| == 2
  }

  /** In terms of the caller's list: dedup is attempted for a direct
      conversation requested with one id other than the user's, or with two
      ids one of which is the user's. */
  lemma DedupCases(kind: ConversationType, participantIds: seq<UserId>, user: UserId)
    ensures AttemptsDedup(kind, IncludeSelf(participantIds, user)) <==>
      kind == Direct && ((user !in participantIds && |participantIds| == 1)
                         || (user in participantIds && |participantIds| == 2))
  {
  }

  /** A direct conversation requested with one other user looks that user up. */
  lemma DirectPickLooksUpOther(user: UserId, other: UserId)
    requires other != user
    ensures AttemptsDedup(Direct, IncludeSelf([other], user))
    ensures FirstOther(IncludeSelf([other], user), user) == Some(other)
  {
    assert IncludeSelf([other], user) == [other, user];
  }

  /** The direct conversations both users have a participant row for. */
  function DirectBetween(db: Snapshot, a: UserId, b: UserId): set<ConversationId>
  {
    set c | c in db.conversations && db.conversations[c].kind == Direct
            && (c, a) in db.participants && (c, b) in db.participants
  }

  /** The three reads of the lookup: the user's conversation ids, those of them
      the other user also has a row for, and of these the direct ones. An
      absent other id (`undefined` in the query) matches no row. */
  function LookupDirect(db: Snapshot, user: UserId, other: Option<UserId>): (found: set<ConversationId>)
    ensures other.None? ==> found == {}
    ensures other.Some? ==> found <= DirectBetween(db, user, other.value)
  {
    var existing := set p | p in db.participants && p.1 == user :: p.0;
    if existing == {} || other.None? then {}
    else
      var shared := set p | p in db.participants && p.1 == other.value && p.0 in existing :: p.0;
      if shared == {} then {}
      else set c | c in shared && c in db.conversations && db.conversations[c].kind == Direct
  }

  /** The intersect-then-filter lookup finds exactly the direct conversations
      between the two users. */
  lemma LookupFindsDirectBetween(db: Snapshot, user: UserId, other: UserId)
    ensures LookupDirect(db, user, Some(other)) == DirectBetween(db, user, other)
  {
    var existing := set p | p in db.participants && p.1 == user :: p.0;
    var shared := set p | p in db.participants && p.1 == other && p.0 in existing :: p.0;
    forall c | c in DirectBetween(db, user, other)
      ensures c in existing && c in shared
    {
      assert (c, user) in db.participants && (c, other) in db.participants;
    }
  }

  /** The row inserted: `name || null`, the given type, not pinned. */
  function NewRow(name: Option<string>, kind: ConversationType, now: Timestamp): (row: ConversationRow)
    ensures row.name == (if Truthy(name) then name else None)
    ensures row.kind == kind && row.is_pinned == Some(false)
    ensures row.created_at == now && row.updated_at == now
  {
    ConversationRow(if name.Some? && name.value != "" then name else None, kind, now, now, Some(false))
  }

  /** One participant row per id. */
  function ParticipantRows(c: ConversationId, ids: seq<UserId>): (rows: set<(ConversationId, UserId)>)
    ensures forall p :: p in rows <==> p.0 == c && p.1 in ids
  {
    set id | id in ids :: (c, id)
  }

  /** After a direct conversation with both users is inserted under a fresh id
      into tables holding none between them, it is the only one. */
  lemma InsertedDirectIsUnique(db: Snapshot, c: ConversationId, row: ConversationRow, ids: seq<UserId>,
                               a: UserId, b: UserId)
    requires c !in db.conversations && forall p :: p in db.participants ==> p.0 != c
    requires row.kind == Direct && a in ids && b in ids
    requires DirectBetween(db, a, b) == {}
    ensures DirectBetween(db.(conversations := db.conversations[c := row],
                              participants := db.participants + ParticipantRows(c, ids)), a, b) == {c}
  {
    var after := db.(conversations := db.conversations[c := row],
                     participants := db.participants + ParticipantRows(c, ids));
    forall d | d in DirectBetween(after, a, b) && d != c
      ensures d in DirectBetween(db, a, b)
    {
    }
    assert c in DirectBetween(after, a, b);
  }

  /** `createConversation(participantIds, name, type)`. `ids` is the caller's
      participant array after the call (the source pushes onto it).
      `lookupFails` stands for the unchecked lookup reads failing, which skips
      the reuse; `insertFails` and `participantsFail` for the two checked
      inserts. A failed participant insert leaves the conversation row. */
  method CreateConversation(b: Backend, user: Option<UserId>, participantIds: seq<UserId>,
                            name: Option<string>, kind: ConversationType,
                            newId: ConversationId, now: Timestamp,
                            lookupFails: bool, insertFails: bool, participantsFail: bool)
    returns (r: Result<ConversationId>, ids: seq<UserId>)
    requires b.Valid()
    modifies b
    ensures b.Valid()
    ensures b.messages == old(b.messages) && b.profiles == old(b.profiles)
    ensures !Truthy(user) ==> r == Err(NoUserLoggedIn) && ids == participantIds && unchanged(b)
    ensures Truthy(user) ==> ids == IncludeSelf(participantIds, user.value)
    ensures Truthy(user) && AttemptsDedup(kind, ids) && !lookupFails
            && LookupDirect(old(b.Read()), user.value, FirstOther(ids, user.value)) != {} ==>
      && r.Ok? && r.value in LookupDirect(old(b.Read()), user.value, FirstOther(ids, user.value))
      && unchanged(b)
    ensures Truthy(user) && !(AttemptsDedup(kind, ids) && !lookupFails
            && LookupDirect(old(b.Read()), user.value, FirstOther(ids, user.value)) != {}) ==>
      if insertFails || newId in old(b.conversations) then r.Err? && unchanged(b)
      else
        && b.conversations == old(b.conversations)[newId := NewRow(name, kind, now)]
        && (participantsFail ==> r.Err? && b.participants == old(b.participants))
        && (!participantsFail ==> r == Ok(newId) && b.participants == old(b.participants) + ParticipantRows(newId, ids))
  {
    ids := participantIds;
    if !(user.Some? && user.value != "") {
      return Err(NoUserLoggedIn), ids;
    }
    var u := user.value;
    ids := IncludeSelf(ids, u);
    if AttemptsDedup(kind, ids) && !lookupFails {
      var found := LookupDirect(b.Read(), u, FirstOther(ids, u));
      if found != {} {
        var c :| c in found;
        return Ok(c), ids;
      }
    }
    // A key the table already holds violates the primary key: the insert fails.
    if insertFails || newId in b.conversations {
      return Err(GatewayError), ids;
    }
    b.conversations := b.conversations[newId := NewRow(name, kind, now)];
    if participantsFail {
      return Err(GatewayError), ids;
    }
    b.participants := b.participants + ParticipantRows(newId, ids);
    r := Ok(newId);
  }

  lemma SingletonOfSmallSet<T>(s: set<T>, x: T)
    requires |s| <= 1 && x in s
    ensures s == {x}
  {
    var rest := s - {x};
    assert s == rest + {x};
    assert rest == {};
  }

  /** Two creations of a direct conversation with the same other user, one
      after the other with the lookups answering, return the same id when at
      most one such conversation existed before. */
  method CreateDirectTwice(b: Backend, user: UserId, other: UserId, firstId: ConversationId,
                           secondId: ConversationId, now: Timestamp)
    returns (first: Result<ConversationId>, second: Result<ConversationId>)
    requires b.Valid() && user != "" && other != user
    requires forall p :: p in b.participants ==> p.0 in b.conversations
    requires |DirectBetween(b.Read(), user, other)| <= 1
    modifies b
    ensures first.Ok? && second.Ok? ==> first.value == second.value
  {
    var db0 := b.Read();
    LookupFindsDirectBetween(db0, user, other);
    var ids;
    first, ids := CreateConversation(b, Some(user), [other], None, Direct, firstId, now, false, false, false);
    assert ids == [other, user] && FirstOther(ids, user) == Some(other);
    LookupFindsDirectBetween(b.Read(), user, other);
    if first.Ok? {
      if DirectBetween(db0, user, other) != {} {
        SingletonOfSmallSet(DirectBetween(db0, user, other), first.value);
      } else {
        InsertedDirectIsUnique(db0, firstId, NewRow(None, Direct, now), ids, user, other);
      }
      assert DirectBetween(b.Read(), user, other) == {first.value};
    }
    second, ids := CreateConversation(b, Some(user), [other], None, Direct, secondId, now, false, false, false);
  }
}
