/**
 * components/admin/users/index.tsx: the user search, the local delete, the edits of the user in
 * the edit dialog, and what `handleUpdateUser` does with the answer of `updateUser`
 * (actions/user-actions.ts), whose database call is a parameter.
 */
module AdminUsers {
  import opened Wrappers
  import opened JsText
  import opened Seqs

  datatype Role = Admin | User

  /** A user row; `name` and `email` may be `null`. */
  datatype UserRow = UserRow(id: string, name: Option<string>, email: Option<string>, role: Role)

  /**
   * The search callback `name.toLowerCase().includes(t) || email.toLowerCase().includes(t)`:
   * `None` when it throws, which it does on a `null` name, and on a `null` email once the name
   * has not matched.
   */
  function ShownOrThrows(u: UserRow, term: string): (r: Option<bool>)
    ensures r.None? <==> u.name.None? || (!IncludesIgnoringCase(u.name.value, term) && u.email.None?)
    ensures r == Some(true) <==> u.name.Some? && (IncludesIgnoringCase(u.name.value, term) || (u.email.Some? && IncludesIgnoringCase(u.email.value, term)))
  {
    if u.name.None? then None
    else if IncludesIgnoringCase(u.name.value, term) then Some(true)
    else if u.email.None? then None
    else Some(IncludesIgnoringCase(u.email.value, term))
  }

  /** The user is listed: name or email contains the term, ignoring case. */
  predicate Matches(u: UserRow, term: string) {
    (u.name.Some? && IncludesIgnoringCase(u.name.value, term)) || (u.email.Some? && IncludesIgnoringCase(u.email.value, term))
  }

  /** The search callback does not throw on this user. */
  predicate Searchable(u: UserRow, term: string) {
    u.name.Some? && (IncludesIgnoringCase(u.name.value, term) || u.email.Some?)
  }

  /** `filteredUsers`; `None` when rendering throws on some user. */
  function FilteredUsers(us: seq<UserRow>, term: string): (r: Option<seq<UserRow>>)
    ensures r.Some? <==> forall k :: 0 <= k < |us| ==> Searchable(us[k], term)
    ensures r.Some? ==> r.value == Filter(us, u => Matches(u, term))
  {
    if us == [] then Some([])
    else
      var rest := FilteredUsers(us[1..], term);
      assert forall k :: 1 <= k < |us| ==> us[1..][k - 1] == us[k];
      match ShownOrThrows(us[0], term)
      case None => None
      case Some(shown) =>
        if rest.None? then None
        else Some((if shown then [us[0]] else []) + rest.value)
  }

  /** When the search does not throw, it lists exactly the matching users, as a subsequence of the list. */
  lemma FilteredUsersMembership(us: seq<UserRow>, term: string, u: UserRow)
    requires FilteredUsers(us, term).Some?
    ensures u in FilteredUsers(us, term).value <==> u in us && Matches(u, term)
    ensures IsSubsequence(FilteredUsers(us, term).value, us)
  {
    FilterMembership(us, u => Matches(u, term), u);
    FilterIsSubsequence(us, u => Matches(u, term));
  }

  /** The empty search lists every user whose name is set, in order. */
  lemma EmptySearchShowsAll(us: seq<UserRow>)
    requires forall k :: 0 <= k < |us| ==> us[k].name.Some?
    ensures FilteredUsers(us, "") == Some(us)
  {
    assert ToLower("") == "";
    forall k | 0 <= k < |us| ensures Searchable(us[k], "") && Matches(us[k], "") {
      EmptyIncludedEverywhere(ToLower(us[k].name.value));
    }
    FilterKeepsAll(us, u => Matches(u, ""));
  }

  /** A user without a name makes the search throw, whatever the term. */
  lemma NamelessUserThrows(us: seq<UserRow>, term: string, k: nat)
    requires k < |us| && us[k].name.None?
    ensures FilteredUsers(us, term).None?
  {
  }

  /** The list after `handleDeleteUser(id)`: the users with another id, in order. */
  function WithoutUser(us: seq<UserRow>, id: string): (r: seq<UserRow>)
    ensures IsSubsequence(r, us)
    ensures forall u :: u in r <==> u in us && u.id != id
    ensures forall u :: multiset(r)[u] == if u.id != id then multiset(us)[u] else 0
  {
    FilterMultiset(us, (u: UserRow) => u.id != id);
    FilterIsSubsequence(us, (u: UserRow) => u.id != id);
    forall u ensures u in Filter(us, (u: UserRow) => u.id != id) <==> u in us && u.id != id {
      FilterMembership(us, (u: UserRow) => u.id != id, u);
    }
    Filter(us, (u: UserRow) => u.id != id)
  }

  /** The answer of `updateUser`: `{ user }` or `{ error: error.message }`. */
  datatype UpdateAnswer = Updated(user: UserRow) | UpdateFailed(message: string)

  /** `if (error)`: an error counts only when its message is a non-empty string. */
  predicate IsError(a: UpdateAnswer) {
    a.UpdateFailed? && a.message != ""
  }

  datatype Notice = ErrorNotice(text: string) | SuccessNotice(text: string)

  const UpdatedMessage := "User updated successfully"
  const DeletedMessage := "User deleted successfully"

  class UsersPage {
    var users: seq<UserRow>
    var searchTerm: string
    var editingUser: Option<UserRow>
    var loading: bool
    var notices: seq<Notice>
    /** The arguments of every `updateUser` call, in order. */
    var updateRequests: seq<UserRow>

    constructor(initial: seq<UserRow>)
      ensures users == initial && searchTerm == "" && editingUser.None? && !loading
      ensures notices == [] && updateRequests == []
    {
      users := initial;
      searchTerm := "";
      editingUser := None;
      loading := false;
      notices := [];
      updateRequests := [];
    }

    /** `handleEditUser(user)`: opens the dialog on that user. */
    method EditUser(u: UserRow)
      modifies this
      ensures editingUser == Some(u)
      ensures users == old(users) && searchTerm == old(searchTerm) && loading == old(loading)
      ensures notices == old(notices) && updateRequests == old(updateRequests)
    {
      editingUser := Some(u);
    }

    /** The name input of the dialog: replaces the name of the edited user and nothing else. */
    method EditName(name: string)
      requires editingUser.Some?
      modifies this
      ensures editingUser == Some(old(editingUser).value.(name := Some(name)))
      ensures users == old(users) && searchTerm == old(searchTerm) && loading == old(loading)
      ensures notices == old(notices) && updateRequests == old(updateRequests)
    {
      editingUser := Some(editingUser.value.(name := Some(name)));
    }

    /** The email input of the dialog. */
    method EditEmail(email: string)
      requires editingUser.Some?
      modifies this
      ensures editingUser == Some(old(editingUser).value.(email := Some(email)))
      ensures users == old(users) && searchTerm == old(searchTerm) && loading == old(loading)
      ensures notices == old(notices) && updateRequests == old(updateRequests)
    {
      editingUser := Some(editingUser.value.(email := Some(email)));
    }

    /** The role select of the dialog. */
    method EditRole(role: Role)
      requires editingUser.Some?
      modifies this
      ensures editingUser == Some(old(editingUser).value.(role := role))
      ensures users == old(users) && searchTerm == old(searchTerm) && loading == old(loading)
      ensures notices == old(notices) && updateRequests == old(updateRequests)
    {
      editingUser := Some(editingUser.value.(role := role));
    }

    /**
     * `handleUpdateUser(updatedUser)` given the answer of the server call: on an error the dialog
     * stays open on the edited user; otherwise it closes. The page's list is not changed either way.
     */
    method UpdateUser(updated: UserRow, answer: UpdateAnswer)
      modifies this
      ensures updateRequests == old(updateRequests) + [updated]
      ensures !loading && users == old(users) && searchTerm == old(searchTerm)
      ensures IsError(answer) ==> editingUser == old(editingUser) && notices == old(notices) + [ErrorNotice(answer.message)]
      ensures !IsError(answer) ==> editingUser.None? && notices == old(notices) + [SuccessNotice(UpdatedMessage)]
    {
      loading := true;
      updateRequests := updateRequests + [updated];
      if IsError(answer) {
        notices := notices + [ErrorNotice(answer.message)];
        loading := false;
        return;
      }
      editingUser := None;
      loading := false;
      notices := notices + [SuccessNotice(UpdatedMessage)];
    }

    /** `handleDeleteUser(id)`: removes the users with that id from the page only. */
    method DeleteUser(id: string)
      modifies this
      ensures users == WithoutUser(old(users), id)
      ensures notices == old(notices) + [SuccessNotice(DeletedMessage)]
      ensures editingUser == old(editingUser) && searchTerm == old(searchTerm) && loading == old(loading)
      ensures updateRequests == old(updateRequests)
    {
      users := WithoutUser(users, id);
      notices := notices + [SuccessNotice(DeletedMessage)];
    }
  }

  /** Saving the dialog after an error answer keeps the edits; after any other answer the dialog is closed. */
  method SaveAfterEdit(u: UserRow, name: string, answer: UpdateAnswer) returns (open: bool, sent: UserRow)
    ensures sent == u.(name := Some(name))
    ensures open <==> IsError(answer)
  {
    var page := new UsersPage([u]);
    page.EditUser(u);
    page.EditName(name);
    sent := page.editingUser.value;
    page.UpdateUser(sent, answer);
    open := page.editingUser.Some?;
  }
}
