/** useUsers: the directory of other users, kept current by presence updates,
    and the capped search over profiles. */
module UserDirectory {
  import opened Wrappers
  import opened Types
  import opened Seqs
  import opened Text
  import opened Store

  /** The most rows a search returns (`.limit(10)`). */
  const SearchLimit: nat := 10

  /** `users` lists every profile except `self`'s, each once, mapped to a User. */
  ghost predicate ListsOthers(users: seq<User>, db: Snapshot, self: UserId, now: Timestamp)
  {
    && (forall i :: 0 <= i < |users| ==>
          users[i].id in db.profiles && users[i].id != self
          && users[i] == ToUser(db.profiles[users[i].id], now))
    && (forall k :: k in db.profiles && k != self ==> exists i :: 0 <= i < |users| && users[i].id == k)
    && (forall i, j :: 0 <= i < j < |users| ==> users[i].id != users[j].id)
  }

  /** The entry of a presence event: replace status and last_seen of every user
      with the event's id. */
  function ApplyPresence(users: seq<User>, id: UserId, status: UserStatus, lastSeen: Timestamp): (r: seq<User>)
    ensures |r| == |users|
    ensures forall i :: 0 <= i < |users| && users[i].id == id ==>
      r[i] == users[i].(status := status, last_seen := lastSeen)
    ensures forall i :: 0 <= i < |users| && users[i].id != id ==> r[i] == users[i]
  {
    if users == [] then []
    else
      var head := if users[0].id == id then users[0].(status := status, last_seen := lastSeen) else users[0];
      [head] + ApplyPresence(users[1..], id, status, lastSeen)
  }

  /** A presence event keeps every id in its place, so unknown ids are never added. */
  lemma {:induction false} PresenceKeepsIds(users: seq<User>, id: UserId, status: UserStatus, lastSeen: Timestamp)
    ensures forall i :: 0 <= i < |users| ==> ApplyPresence(users, id, status, lastSeen)[i].id == users[i].id
    ensures (forall i :: 0 <= i < |users| ==> users[i].id != id) ==> ApplyPresence(users, id, status, lastSeen) == users
  {
    if users != [] {
      PresenceKeepsIds(users[1..], id, status, lastSeen);
    }
  }

  /** Replaying the same presence event changes nothing more. */
  lemma {:induction false} PresenceIdempotent(users: seq<User>, id: UserId, status: UserStatus, lastSeen: Timestamp)
    ensures ApplyPresence(ApplyPresence(users, id, status, lastSeen), id, status, lastSeen)
         == ApplyPresence(users, id, status, lastSeen)
  {
    if users != [] {
      PresenceIdempotent(users[1..], id, status, lastSeen);
    }
  }

  /** The later of two presence events for the same user is the one that shows. */
  lemma {:induction false} LaterPresenceWins(users: seq<User>, id: UserId, s1: UserStatus, t1: Timestamp,
                                             s2: UserStatus, t2: Timestamp)
    ensures ApplyPresence(ApplyPresence(users, id, s1, t1), id, s2, t2) == ApplyPresence(users, id, s2, t2)
  {
    if users != [] {
      LaterPresenceWins(users[1..], id, s1, t1, s2, t2);
    }
  }

  /** The `or(username.ilike.%q%, full_name.ilike.%q%)` filter, on the query as typed. */
  predicate SearchMatches(p: Profile, query: string)
  {
    IncludesIgnoreCase(p.username, query) || IncludesIgnoreCase(p.full_name, query)
  }

  /** The ids of the profiles a search may return. */
  function SearchCandidates(db: Snapshot, self: UserId, query: string): (ids: set<UserId>)
    ensures forall k :: k in ids <==> k in db.profiles && k != self && SearchMatches(db.profiles[k], query)
  {
    set k | k in db.profiles && k != self && SearchMatches(db.profiles[k], query)
  }

  /** `searchUsers(query)`. No user or a blank query gives []; so does a failed
      query. Otherwise the answer is up to ten matching profiles other than the
      user's own, each once, in an order and selection the backend chooses. */
  method SearchUsers(user: Option<UserId>, query: string, db: Snapshot, now: Timestamp, fails: bool)
    returns (found: seq<User>)
    requires ProfilesKeyed(db.profiles)
    ensures !Truthy(user) || IsBlank(query) || fails ==> found == []
    ensures |found| <= SearchLimit
    ensures Truthy(user) && !IsBlank(query) && !fails ==>
      |found| == if |SearchCandidates(db, user.value, query)| < SearchLimit
                 then |SearchCandidates(db, user.value, query)| else SearchLimit
    ensures forall i :: 0 <= i < |found| ==>
      && Truthy(user) && found[i].id in SearchCandidates(db, user.value, query)
      && found[i] == ToUser(db.profiles[found[i].id], now)
    ensures forall i, j :: 0 <= i < j < |found| ==> found[i].id != found[j].id
  {
    if !(user.Some? && user.value != "") || IsBlank(query) || fails {
      return [];
    }
    var candidates := SearchCandidates(db, user.value, query);
    var ids := Enumerate(candidates);
    if |ids| > SearchLimit {
      ids := ids[..SearchLimit];
    }
    assert forall i :: 0 <= i < |ids| ==> ids[i] in candidates;
    found := seq(|ids|, i requires 0 <= i < |ids| => ToUser(db.profiles[ids[i]], now));
  }

  /** The answer of `select * from profiles where id <> self`, mapped to Users. */
  method FetchOthers(db: Snapshot, self: UserId, now: Timestamp) returns (fetched: seq<User>)
    requires ProfilesKeyed(db.profiles)
    ensures |fetched| == |db.profiles.Keys - {self}|
    ensures ListsOthers(fetched, db, self, now)
  {
    var others := db.profiles.Keys - {self};
    var ids := Enumerate(others);
    assert forall i :: 0 <= i < |ids| ==> ids[i] in others;
    fetched := seq(|ids|, i requires 0 <= i < |ids| => ToUser(db.profiles[ids[i]], now));
    forall i | 0 <= i < |fetched|
      ensures fetched[i].id == ids[i] && fetched[i].id in db.profiles && fetched[i].id != self
      ensures fetched[i] == ToUser(db.profiles[fetched[i].id], now)
    {
    }
    forall k | k in db.profiles && k != self
      ensures exists i :: 0 <= i < |fetched| && fetched[i].id == k
    {
      assert k in others;
      var i :| 0 <= i < |ids| && ids[i] == k;
      assert fetched[i].id == k;
    }
  }

  /** The `users` and `loadingUsers` state of the hook. */
  class Directory {
    var users: seq<User>
    var loading: bool

    constructor ()
      ensures users == [] && !loading
    {
      users, loading := [], false;
    }

    /** `fetchUsers`: with no user nothing happens; a failed query keeps the
        list; otherwise the list becomes every other profile. Loading ends false. */
    method Load(user: Option<UserId>, db: Snapshot, now: Timestamp, fails: bool)
      requires ProfilesKeyed(db.profiles)
      modifies this
      ensures !Truthy(user) ==> unchanged(this)
      ensures Truthy(user) ==> !loading
      ensures Truthy(user) && fails ==> users == old(users)
      ensures Truthy(user) && !fails ==>
        |users| == |db.profiles.Keys - {user.value}| && ListsOthers(users, db, user.value, now)
    {
      if !(user.Some? && user.value != "") {
        return;
      }
      loading := true;
      if fails {
        loading := false;
        return;
      }
      users := FetchOthers(db, user.value, now);
      loading := false;
    }

    /** A presence UPDATE on `profiles`. */
    method OnPresence(id: UserId, status: UserStatus, lastSeen: Timestamp)
      modifies this
      ensures users == ApplyPresence(old(users), id, status, lastSeen)
      ensures loading == old(loading)
    {
      users := ApplyPresence(users, id, status, lastSeen);
    }
  }
}
