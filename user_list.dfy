/** UserList: the directory panel's search filter and last-seen label. */
module UserList {
  import opened Types
  import opened Seqs
  import opened Text

  /** The panel's test for one user: an empty query keeps everybody; otherwise
      the query must occur in the username, full name or role, ignoring case. */
  predicate UserMatches(u: User, query: string)
  {
    || query == ""
    || IncludesIgnoreCase(u.username, query)
    || IncludesIgnoreCase(u.full_name, query)
    || IncludesIgnoreCase(u.role, query)
  }

  function MatchesQuery(query: string): User -> bool
  {
    (u: User) => UserMatches(u, query)
  }

  /** `filteredUsers` */
  function FilterUsers(users: seq<User>, query: string): (r: seq<User>)
    ensures forall i :: 0 <= i < |r| ==> r[i] in users && UserMatches(r[i], query)
    ensures forall i :: 0 <= i < |users| && UserMatches(users[i], query) ==> users[i] in r
  {
    Filter(users, MatchesQuery(query))
  }

  /** An empty query keeps every user. */
  lemma EmptyQueryKeepsAll(users: seq<User>)
    ensures FilterUsers(users, "") == users
  {
  }

  /** The result is an order-preserving sublist, and narrowing by the same
      query again changes nothing. */
  lemma FilterUsersIsStableSublist(users: seq<User>, query: string)
    ensures IsSublist(FilterUsers(users, query), users)
    ensures FilterUsers(FilterUsers(users, query), query) == FilterUsers(users, query)
  {
    FilterIsSublist(users, MatchesQuery(query));
    FilterIdempotent(users, MatchesQuery(query));
  }

  /** Filtering by a query and by a longer query containing it: every user the
      longer query keeps, the shorter one keeps too. */
  lemma LongerQueryKeepsFewer(users: seq<User>, q: string, extra: string)
    ensures forall i :: 0 <= i < |FilterUsers(users, q + extra)| ==>
      FilterUsers(users, q + extra)[i] in FilterUsers(users, q)
  {
    forall u: User | UserMatches(u, q + extra) ensures UserMatches(u, q) {
      if q + extra != "" && q != "" {
        LowerAppend(q, extra);
        if IncludesIgnoreCase(u.username, q + extra) {
          ContainsPrefix(Lower(u.username), Lower(q), Lower(extra));
        } else if IncludesIgnoreCase(u.full_name, q + extra) {
          ContainsPrefix(Lower(u.full_name), Lower(q), Lower(extra));
        } else {
          ContainsPrefix(Lower(u.role), Lower(q), Lower(extra));
        }
      }
    }
  }

  lemma {:induction false} LowerAppend(a: string, b: string)
    ensures Lower(a + b) == Lower(a) + Lower(b)
  {
    if a != [] {
      assert (a + b)[1..] == a[1..] + b;
      LowerAppend(a[1..], b);
    } else {
      assert a + b == b;
    }
  }

  /** A string containing `q + e` contains `q`. */
  lemma {:induction false} ContainsPrefix(s: string, q: string, e: string)
    requires Contains(s, q + e)
    ensures Contains(s, q)
  {
    if !(q + e <= s) {
      ContainsPrefix(s[1..], q, e);
    } else {
      assert q <= s by {
        assert s[..|q|] == (q + e)[..|q|];
      }
    }
  }

  /** The last-seen line of the profile sheet. */
  datatype LastSeenLabel = OnlineNow | SeenAt(t: Timestamp)

  function LastSeenText(u: User): (r: LastSeenLabel)
    ensures r == OnlineNow <==> u.status == Online
    ensures r != OnlineNow ==> r.t == u.last_seen
  {
    if u.status == Online then OnlineNow else SeenAt(u.last_seen)
  }
}
