/** GroupManagementDialog: searching for users to add to a conversation. */
module GroupManagementDialog {
  import opened Wrappers
  import opened Types
  import opened Seqs
  import opened Text

  function NotIn(ids: seq<UserId>): User -> bool
  {
    (u: User) => u.id !in ids
  }

  predicate NotParticipant(u: User, participants: seq<User>)
  {
    forall j :: 0 <= j < |participants| ==> u.id != participants[j].id
  }

  /** The search results minus the conversation's current participants. */
  function ExcludeParticipants(results: seq<User>, participants: seq<User>): (r: seq<User>)
    ensures forall i, j :: 0 <= i < |r| && 0 <= j < |participants| ==> r[i].id != participants[j].id
    ensures forall i :: 0 <= i < |r| ==> r[i] in results
    ensures forall i :: 0 <= i < |results| && NotParticipant(results[i], participants) ==> results[i] in r
  {
    var ids := UserIds(participants);
    assert forall j :: 0 <= j < |participants| ==> participants[j].id in ids;
    Filter(results, NotIn(ids))
  }

  /** The exclusion keeps the results' order. */
  lemma ExcludeParticipantsIsSublist(results: seq<User>, participants: seq<User>)
    ensures IsSublist(ExcludeParticipants(results, participants), results)
  {
    FilterIsSublist(results, NotIn(UserIds(participants)));
  }

  /** The dialog's `searchQuery` and `availableUsers`. */
  class MemberSearch {
    var query: string
    var available: seq<User>

    constructor ()
      ensures query == "" && available == []
    {
      query, available := "", [];
    }

    /** `handleSearchUsers(query)`: the query is always recorded; a blank query
        empties the offer; otherwise the search results minus the current
        participants are offered, and a rejected search keeps the offer. */
    method HandleSearchUsers(q: string, results: Result<seq<User>>, participants: seq<User>)
      modifies this
      ensures query == q
      ensures IsBlank(q) ==> available == []
      ensures !IsBlank(q) && results.Err? ==> available == old(available)
      ensures !IsBlank(q) && results.Ok? ==> available == ExcludeParticipants(results.value, participants)
    {
      query := q;
      if !IsBlank(q) {
        if results.Ok? {
          available := ExcludeParticipants(results.value, participants);
        }
      } else {
        available := [];
      }
    }
  }
}
