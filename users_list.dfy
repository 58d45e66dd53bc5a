/**
 * The user list page: the loaded page of users, the client-side search over it,
 * pagination and the delete-confirmation flow.
 *
 * React effects are run explicitly: the effect on `[currentPage]` starts a load
 * (`ChangePage`, and the constructor for the mount), and the effect on
 * `[searchTerm, users]` recomputes `filteredUsers` (`RunSearchEffect`) after every
 * change of either. Between events the page therefore keeps `Valid()`:
 * the displayed list is the search applied to the loaded list.
 */
module UsersList {
  import opened Api
  import opened Text
  import opened Seqs

  /** The display name `${first_name} ${last_name}`. */
  function FullName(u: User): string {
    u.firstName + " " + u.lastName
  }

  /** The search test for one user: the lowercased, untrimmed term occurs in the
      lowercased full name or in the lowercased email. */
  predicate MatchesSearch(u: User, term: string) {
    Contains(ToLower(FullName(u)), ToLower(term)) || Contains(ToLower(u.email), ToLower(term))
  }

  /** The callback handed to `users.filter` by the search effect. */
  function Matcher(term: string): User -> bool {
    (u: User) => MatchesSearch(u, term)
  }

  /** What the search effect sets `filteredUsers` to. */
  function SearchFilter(users: seq<User>, term: string): seq<User> {
    if IsBlank(term) then users else Filter(users, Matcher(term))
  }

  /** The search result is a subsequence of the loaded users; with a blank term
      (empty or whitespace only) it is all of them, and otherwise it holds every
      matching user exactly as often as the loaded list does and no other user. */
  lemma SearchFilterSpec(users: seq<User>, term: string)
    ensures IsSubsequence(SearchFilter(users, term), users)
    ensures IsBlank(term) ==> SearchFilter(users, term) == users
    ensures !IsBlank(term) ==>
      forall u :: multiset(SearchFilter(users, term))[u] == if MatchesSearch(u, term) then multiset(users)[u] else 0
  {
    if IsBlank(term) {
      SubsequenceReflexive(users);
    } else {
      FilterIsSubsequence(users, Matcher(term));
      forall u ensures multiset(SearchFilter(users, term))[u] == if MatchesSearch(u, term) then multiset(users)[u] else 0 {
        FilterMultiplicity(users, Matcher(term), u);
      }
    }
  }

  lemma {:induction false} SubsequenceReflexive(s: seq<User>)
    ensures IsSubsequence(s, s)
  {
    if s != [] {
      SubsequenceReflexive(s[1..]);
    }
  }

  /** A term that matches every loaded user shows the whole page, as a blank term does. */
  lemma SearchMatchingAll(users: seq<User>, term: string)
    requires forall i | 0 <= i < |users| :: MatchesSearch(users[i], term)
    ensures SearchFilter(users, term) == users
  {
    if !IsBlank(term) {
      FilterKeepsAll(users, Matcher(term));
    }
  }

  /** The search is case-insensitive: two terms with the same lowercase form
      select the same users (blank terms included). */
  lemma SearchIsCaseInsensitive(users: seq<User>, term1: string, term2: string)
    requires ToLower(term1) == ToLower(term2)
    ensures SearchFilter(users, term1) == SearchFilter(users, term2)
  {
    LowerKeepsBlank(term1);
    LowerKeepsBlank(term2);
    FilterSameDecisions(users, Matcher(term1), Matcher(term2));
  }

  /** A sample loaded user. */
  const Ann: User := User(7, "ann@x.com", "Ann", "Lee", "u.png")

  /** The term is matched untrimmed: " lee" finds Ann Lee through the space
      inside her full name. */
  lemma LeadingSpaceTermMatches()
    ensures SearchFilter([Ann], " lee") == [Ann]
  {
    assert ToLower(FullName(Ann)) == "ann lee";
    assert ToLower(" lee") == " lee";
    assert OccursAt("ann lee", " lee", 3);
    ContainsIff("ann lee", " lee");
    assert MatchesSearch(Ann, " lee");
    SearchMatchingAll([Ann], " lee");
  }

  /** The callback of the delete updates: `user.id !== deleteDialog.userId`. */
  function IdIsNot(id: int): User -> bool {
    (u: User) => u.id != id
  }

  /** A list with every user carrying `id` removed. */
  function WithoutId(users: seq<User>, id: int): seq<User> {
    Filter(users, IdIsNot(id))
  }

  /** Removing an id drops every user with that id and keeps every other user,
      as often as before and in the same order. */
  lemma WithoutIdSpec(users: seq<User>, id: int)
    ensures IsSubsequence(WithoutId(users, id), users)
    ensures forall u :: u in WithoutId(users, id) ==> u.id != id
    ensures forall u :: multiset(WithoutId(users, id))[u] == if u.id == id then 0 else multiset(users)[u]
  {
    FilterIsSubsequence(users, IdIsNot(id));
    forall u ensures multiset(WithoutId(users, id))[u] == if u.id == id then 0 else multiset(users)[u] {
      FilterMultiplicity(users, IdIsNot(id), u);
    }
  }

  /** Removing the deleted id from the displayed list gives what searching the
      shortened loaded list gives, so the two explicit updates after a delete keep
      the page consistent before the search effect runs again. */
  lemma DeleteCommutesWithSearch(users: seq<User>, id: int, term: string)
    ensures SearchFilter(WithoutId(users, id), term) == WithoutId(SearchFilter(users, term), id)
  {
    if !IsBlank(term) {
      FilterCommutes(users, IdIsNot(id), Matcher(term));
    }
  }

  /** `{ isOpen, userId, userName }` of the confirmation dialog. */
  datatype DeleteDialog = DeleteDialog(isOpen: bool, userId: Option<int>, userName: string)

  /** The dialog's initial value, and the value it is reset to after a confirm. */
  const ClosedDialog: DeleteDialog := DeleteDialog(false, None, "")

  /** `if (deleteDialog.userId)`: the id is present and not 0. */
  predicate IsTruthyId(id: Option<int>) {
    id.Some? && id.value != 0
  }

  class UsersListState {
    var users: seq<User>
    var filteredUsers: seq<User>
    var loading: bool
    var currentPage: int
    var totalPages: int
    var searchTerm: string
    var deleteDialog: DeleteDialog

    /** The search effect has run for the current `users` and `searchTerm`. */
    ghost predicate Valid()
      reads this
    {
      filteredUsers == SearchFilter(users, searchTerm)
    }

    /** The mounted page: initial state, with the load of page 1 under way
        (`loading` starts true) and the search effect run on the empty list. */
    constructor ()
      ensures Valid()
      ensures users == [] && filteredUsers == [] && loading
      ensures currentPage == 1 && totalPages == 1 && searchTerm == ""
      ensures deleteDialog == ClosedDialog
    {
      users := [];
      filteredUsers := [];
      loading := true;
      currentPage := 1;
      totalPages := 1;
      searchTerm := "";
      deleteDialog := ClosedDialog;
    }

    /** The effect on `[searchTerm, users]`. */
    method RunSearchEffect()
      modifies this`filteredUsers
      ensures Valid()
    {
      if Trim(searchTerm) == "" {
        filteredUsers := users;
      } else {
        filteredUsers := Filter(users, Matcher(searchTerm));
      }
    }

    /** `handleSearchChange`: a new term, then the search effect. */
    method SetSearchTerm(term: string)
      modifies this`searchTerm, this`filteredUsers
      ensures Valid()
      ensures searchTerm == term
      ensures filteredUsers == SearchFilter(users, term)
    {
      searchTerm := term;
      RunSearchEffect();
    }

    /** `handlePageChange`, then the effect on `[currentPage]`: the effect only
        runs, and a load of `page` only starts, when the page number changes. */
    method ChangePage(page: int) returns (requested: Option<int>)
      modifies this`currentPage, this`loading
      ensures currentPage == page
      ensures requested.Some? <==> page != old(currentPage)
      ensures requested.Some? ==> requested.value == page && loading
      ensures requested.None? ==> loading == old(loading)
    {
      if page != currentPage {
        currentPage := page;
        loading := true;
        requested := Some(page);
      } else {
        requested := None;
      }
    }

    /** `loadUsers` from the awaited `fetchUsers` on: a page replaces both lists
        and `totalPages` (and the search effect then reapplies the current term);
        a failure changes neither. `loading` ends false either way. */
    method FinishLoad(response: Result<UserPage>)
      requires Valid()
      modifies this`users, this`filteredUsers, this`totalPages, this`loading
      ensures Valid() && !loading
      ensures response.Ok? ==> users == response.value.data && totalPages == response.value.totalPages
      ensures response.Ok? ==> filteredUsers == SearchFilter(response.value.data, searchTerm)
      ensures response.Err? ==> users == old(users) && filteredUsers == old(filteredUsers)
      ensures response.Err? ==> totalPages == old(totalPages)
    {
      match response {
        case Ok(page) =>
          users := page.data;
          filteredUsers := page.data;
          totalPages := page.totalPages;
          RunSearchEffect();
        case Err(_) =>
      }
      loading := false;
    }

    /** `handleDeleteClick(user.id, "first last")` from a card's delete button. */
    method OpenDeleteDialog(user: User)
      modifies this`deleteDialog
      ensures deleteDialog == DeleteDialog(true, Some(user.id), FullName(user))
    {
      deleteDialog := DeleteDialog(true, Some(user.id), FullName(user));
    }

    /** The dialog's `onClose`: hides it and keeps the target id and name. */
    method CloseDeleteDialog()
      modifies this`deleteDialog
      ensures deleteDialog == old(deleteDialog).(isOpen := false)
    {
      deleteDialog := deleteDialog.(isOpen := false);
    }

    /** `handleDeleteConfirm`. With a truthy target id it sends the delete for that
        id; only when the call succeeds are the users with that id removed from both
        lists, and the dialog is reset whatever the outcome. With no id, or id 0,
        nothing happens. */
    method ConfirmDelete(outcome: Result<()>) returns (request: Option<int>)
      requires Valid()
      modifies this`users, this`filteredUsers, this`deleteDialog
      ensures Valid()
      ensures request.Some? <==> IsTruthyId(old(deleteDialog.userId))
      ensures request.Some? ==> request.value == old(deleteDialog.userId.value)
      ensures request.Some? ==> deleteDialog == ClosedDialog
      ensures request.Some? && outcome.Ok? ==> users == WithoutId(old(users), request.value)
      ensures request.Some? && outcome.Ok? ==> filteredUsers == WithoutId(old(filteredUsers), request.value)
      ensures request.None? || outcome.Err? ==> users == old(users) && filteredUsers == old(filteredUsers)
      ensures request.None? ==> deleteDialog == old(deleteDialog)
    {
      if IsTruthyId(deleteDialog.userId) {
        var id := deleteDialog.userId.value;
        request := Some(id);
        if outcome.Ok? {
          DeleteCommutesWithSearch(users, id, searchTerm);
          users := WithoutId(users, id);
          filteredUsers := WithoutId(filteredUsers, id);
          assert Valid();
          RunSearchEffect();
        }
        deleteDialog := ClosedDialog;
      } else {
        request := None;
      }
    }
  }
}
