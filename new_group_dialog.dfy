/** NewGroupDialog: picking members for a new group from the user directory and
    submitting the group. */
module NewGroupDialog {
  import opened Wrappers
  import opened Types
  import opened Seqs
  import opened Text

  /** `selectedUsers.some(selected => selected.id === id)` */
  predicate IsSelected(selected: seq<User>, id: UserId)
  {
    exists i :: 0 <= i < |selected| && selected[i].id == id
  }

  /** A user offered for selection: matching the query in username or full
      name, ignoring case, and not selected yet. */
  predicate Offered(u: User, selected: seq<User>, query: string)
  {
    (IncludesIgnoreCase(u.username, query) || IncludesIgnoreCase(u.full_name, query))
    && !IsSelected(selected, u.id)
  }

  function OfferedBy(selected: seq<User>, query: string): User -> bool
  {
    (u: User) => Offered(u, selected, query)
  }

  function NotSelected(selected: seq<User>): User -> bool
  {
    (u: User) => !IsSelected(selected, u.id)
  }

  /** `filteredUsers` of the dialog. */
  function AvailableUsers(users: seq<User>, selected: seq<User>, query: string): (r: seq<User>)
    ensures forall i :: 0 <= i < |r| ==> r[i] in users && Offered(r[i], selected, query)
    ensures forall i :: 0 <= i < |users| && Offered(users[i], selected, query) ==> users[i] in r
  {
    Filter(users, OfferedBy(selected, query))
  }

  /** No user is both offered and selected. */
  lemma AvailableDisjointFromSelected(users: seq<User>, selected: seq<User>, query: string)
    ensures forall i, j :: 0 <= i < |AvailableUsers(users, selected, query)| && 0 <= j < |selected| ==>
      AvailableUsers(users, selected, query)[i].id != selected[j].id
  {
  }

  /** With an empty query every user not yet selected is offered, in order. */
  lemma {:induction false} EmptyQueryOffersUnselected(users: seq<User>, selected: seq<User>)
    ensures AvailableUsers(users, selected, "") == Filter(users, NotSelected(selected))
  {
    forall i | 0 <= i < |users|
      ensures OfferedBy(selected, "")(users[i]) == NotSelected(selected)(users[i])
    {
      IncludesEmptyQuery(users[i].username);
    }
    FilterCongruent(users, OfferedBy(selected, ""), NotSelected(selected));
  }

  function HasOtherId(id: UserId): User -> bool
  {
    (u: User) => u.id != id
  }

  /** `handleRemoveUser`: drop every selected user with the id. */
  function Deselect(selected: seq<User>, id: UserId): (r: seq<User>)
    ensures forall i :: 0 <= i < |r| ==> r[i].id != id && r[i] in selected
    ensures forall i :: 0 <= i < |selected| && selected[i].id != id ==> selected[i] in r
    ensures !IsSelected(selected, id) ==> r == selected
  {
    Filter(selected, HasOtherId(id))
  }

  /** Removal keeps the order of the remaining users. */
  lemma DeselectIsSublist(selected: seq<User>, id: UserId)
    ensures IsSublist(Deselect(selected, id), selected)
  {
    FilterIsSublist(selected, HasOtherId(id));
  }

  /** Adding a user and removing it again restores a selection that did not
      contain it. */
  lemma DeselectUndoesSelect(selected: seq<User>, u: User)
    requires !IsSelected(selected, u.id)
    ensures Deselect(selected + [u], u.id) == selected
  {
    FilterAppend(selected, [u], HasOtherId(u.id));
  }

  /** The call `createConversation(participantIds, groupName, 'group')`. */
  datatype GroupRequest = GroupRequest(participantIds: seq<UserId>, name: string, kind: ConversationType)

  /** The dialog's `groupName`, `selectedUsers`, `searchQuery` and `open`. */
  class GroupDraft {
    var name: string
    var selected: seq<User>
    var query: string
    var open: bool

    constructor (open: bool)
      ensures name == "" && selected == [] && query == "" && this.open == open
    {
      this.name, this.selected, this.query, this.open := "", [], "", open;
    }

    method SetName(value: string)
      modifies this
      ensures name == value && selected == old(selected) && query == old(query) && open == old(open)
    {
      name := value;
    }

    method SetQuery(value: string)
      modifies this
      ensures query == value && name == old(name) && selected == old(selected) && open == old(open)
    {
      query := value;
    }

    /** `handleAddUser`: append, without a duplicate check. */
    method AddUser(u: User)
      modifies this
      ensures selected == old(selected) + [u]
      ensures name == old(name) && query == old(query) && open == old(open)
    {
      selected := selected + [u];
    }

    /** `handleRemoveUser` */
    method RemoveUser(id: UserId)
      modifies this
      ensures selected == Deselect(old(selected), id)
      ensures name == old(name) && query == old(query) && open == old(open)
    {
      selected := Deselect(selected, id);
    }

    /** `handleCreateGroup`. A blank name or an empty selection does nothing;
        otherwise the group is requested with the selected ids in selection
        order and the name as typed. `fails` stands for the request throwing,
        which keeps the form; success resets it and closes the dialog. */
    method CreateGroup(fails: bool) returns (request: Option<GroupRequest>)
      modifies this
      ensures IsBlank(old(name)) || old(selected) == [] ==> request == None && unchanged(this)
      ensures !IsBlank(old(name)) && old(selected) != [] ==>
        request == Some(GroupRequest(UserIds(old(selected)), old(name), Group))
      ensures !IsBlank(old(name)) && old(selected) != [] && fails ==> unchanged(this)
      ensures !IsBlank(old(name)) && old(selected) != [] && !fails ==>
        name == "" && selected == [] && query == "" && !open
    {
      if IsBlank(name) || |selected| == 0 {
        return None;
      }
      request := Some(GroupRequest(UserIds(selected), name, Group));
      if !fails {
        name, selected, query := "", [], "";
        open := false;
      }
    }

    /** `handleClose` */
    method Close()
      modifies this
      ensures name == "" && selected == [] && query == "" && !open
    {
      name, selected, query := "", [], "";
      open := false;
    }
  }
}
