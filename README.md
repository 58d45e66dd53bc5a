# User management console: client-side state, modelled in Dafny

The console is a single-page React application. A user logs in against a remote
REST service, gets a paginated list of users with a client-side search, and can
edit or delete users. This project models the state handling of its four
stateful parts and proves what each promises:

- **Session store and route guard** (`auth.dfy`, module `Auth`). The token is
  restored from storage, `isAuthenticated` is `!!token`, and an effect keeps the
  storage key in step with the token. The module also covers `login` (with its
  `isLoading` flag), `logout`, `useAuth` and the `RequireAuth` guard.
- **User list page** (`users_list.dfy`, module `UsersList`). It holds the loaded
  page, the case-insensitive substring search, page changes and the
  delete-confirmation dialog with its confirm and close transitions.
- **Edit page** (`edit_user.dfy`, module `EditUser`). It covers the load into a
  draft, the per-field change handler, the validator with its fixed messages and
  the submit that sends the draft without `avatar`.
- **Login page** (`login.dfy`, module `Login`). It covers the pre-filled demo
  credentials, the validator (which has different trimming rules) and the submit
  that delegates to the session store.

Shared pieces:

- `text.dfy` (module `Text`) holds JavaScript's `trim`, `toLowerCase` and
  `includes`, and the unanchored `/\S+@\S+\.\S+/` test. Whitespace is the fixed
  `IsSpace` set and lowercasing is ASCII.
- `seqs.dfy` (module `Seqs`) holds `Array.prototype.filter` and its laws.
- `api.dfy` (module `Api`) holds the service's records and the effects the pages
  produce: navigations and toasts.

Each page component is a class whose fields are its React state. Each handler is
a method with a `modifies` clause. React effects are run explicitly at the point
where React would schedule them. Calls to the service become parameters that say
how the awaited call ended, and the requests a handler sends become out-parameters.
The list page keeps an invariant: the displayed list is always the search applied
to the loaded list.

Points where the code's behaviour is easy to misread, as the model states it:

- A failed login leaves the token as it was. It does not unset it.
- A successful login stores whatever `token` the response holds. It still
  navigates to the list when that field is missing.
- The login page does not trim the email before the required check, unlike the
  edit page. A whitespace-only email is reported as invalid, not as missing.
- The storage key is cleared by the sync effect, not by `logout` itself.
- Changing to the page already shown starts no load, because the effect depends
  on `[currentPage]`.

## Model

| member | source | states |
|---|---|---|
| Text.LeadingSpaces | src/pages/UsersList.tsx:43 | what `trim` drops in front: a count of characters that are all whitespace and are followed by a non-whitespace character or the end |
| Text.TrailingSpaces | src/pages/UsersList.tsx:43 | what `trim` drops at the back: a count of characters that are all whitespace and are preceded by a non-whitespace character or the start |
| Text.NonSpaceNotBlank | src/pages/EditUser.tsx:76 | a string holding a non-whitespace character is not empty after `trim` |
| Text.BlankIffAllSpace | src/pages/EditUser.tsx:76 | `!s.trim()` holds exactly when every character is whitespace |
| Text.ToLower | src/pages/UsersList.tsx:47-49 | `toLowerCase` keeps the length and lowercases each character on its own |
| Text.LowerKeepsBlank | src/pages/UsersList.tsx:43-49 | a term and its lowercase form are blank together |
| Text.ContainsIff | src/pages/UsersList.tsx:51 | `includes` holds exactly when the needle occurs at some index of the haystack |
| Text.EmailPatternIff | src/pages/EditUser.tsx:89 | the unanchored `\S+@\S+\.\S+` matches iff the string has a non-space, then `@`, then a non-space run, then `.`, then a non-space |
| Text.EmailPatternNotBlank | src/pages/EditUser.tsx:86-92 | a string that passes the email test is never blank after trimming |
| Seqs.Filter | src/pages/UsersList.tsx:46 | `filter` returns no more elements than it was given, and every one it returns passes the callback |
| Seqs.FilterIsSubsequence | src/pages/UsersList.tsx:46-53 | the result of `filter` is a subsequence of its input (order preserved) |
| Seqs.FilterMultiplicity | src/pages/UsersList.tsx:46-53 | each value occurs in the result as often as in the input when it passes the callback, and never otherwise |
| Seqs.FilterMembership | src/pages/UsersList.tsx:46-53 | a value is in the result iff it is in the input and passes the callback |
| Seqs.FilterKeepsAll | src/pages/UsersList.tsx:46-53 | when every element passes, `filter` returns its input unchanged |
| Seqs.FilterCommutes | src/pages/UsersList.tsx:74-79 | two filters applied in either order give the same sequence |
| Seqs.FilterSameDecisions | src/pages/UsersList.tsx:46-51 | two callbacks that agree on every element filter alike |
| UsersList.SearchFilterSpec | src/pages/UsersList.tsx:42-55 | the displayed list is a subsequence of the loaded list. With an empty or whitespace-only term it is the whole list. Otherwise it holds exactly the users whose lowercase "first last" or email contains the lowercase untrimmed term, each as often as loaded |
| UsersList.SearchMatchingAll | src/pages/UsersList.tsx:46-53 | a term that every loaded user matches shows the whole page |
| UsersList.SearchIsCaseInsensitive | src/pages/UsersList.tsx:47-51 | two terms with the same lowercase form select the same users |
| UsersList.LeadingSpaceTermMatches | src/pages/UsersList.tsx:47-51 | the term is not trimmed: " lee" finds Ann Lee through the space in her full name |
| UsersList.WithoutIdSpec | src/pages/UsersList.tsx:74-79 | removing an id drops every user with that id and keeps every other user, in order and as often as before |
| UsersList.DeleteCommutesWithSearch | src/pages/UsersList.tsx:72-79 | removing the id from the displayed list equals searching the shortened loaded list, so the two updates after a delete agree with the search effect |
| UsersList.UsersListState.constructor | src/pages/UsersList.tsx:12-22 | initial state: empty lists, `loading` true for the mount load of page 1, one total page, empty term, closed dialog with no target |
| UsersList.UsersListState.RunSearchEffect | src/pages/UsersList.tsx:42-55 | the search effect re-establishes the page invariant: displayed list = search of the loaded list |
| UsersList.UsersListState.SetSearchTerm | src/pages/UsersList.tsx:88-90 | a new term is stored and the displayed list is recomputed from the loaded list |
| UsersList.UsersListState.ChangePage | src/pages/UsersList.tsx:38-59 | the page number is set. A load of that page starts (`loading` true) iff the number changed |
| UsersList.UsersListState.FinishLoad | src/pages/UsersList.tsx:24-36 | a fetched page replaces the loaded list and `totalPages`, and the displayed list is the current search over it. A failure changes neither list. `loading` ends false on both paths |
| UsersList.UsersListState.OpenDeleteDialog | src/pages/UsersList.tsx:61-67 | the dialog opens with the row's id and the name "first last" |
| UsersList.UsersListState.CloseDeleteDialog | src/pages/UsersList.tsx:144 | closing hides the dialog and keeps its id and name |
| UsersList.UsersListState.ConfirmDelete | src/pages/UsersList.tsx:69-86 | with a present non-zero id the delete is sent for that id. Only on success are the users with that id removed from both lists, in order. The dialog resets on success and on failure alike. With no id or id 0 nothing changes |
| EditUser.RequiredError | src/pages/EditUser.tsx:76-84 | a name field's message is empty iff the value is non-blank after trimming, and otherwise is the fixed message |
| EditUser.EmailError | src/pages/EditUser.tsx:86-92 | "Email is required" iff blank after trimming. "Email is invalid" iff non-blank and the untrimmed value fails the pattern. Empty iff the pattern matches |
| EditUser.ValidDraftIff | src/pages/EditUser.tsx:68-96 | the error map is clear iff both names are non-blank and the email matches the pattern |
| EditUser.UserForm.Set | src/pages/EditUser.tsx:61 | `{...prev, [name]: value}` sets the named field and keeps the others and the avatar |
| EditUser.FieldErrors.Clear | src/pages/EditUser.tsx:64 | `{...prev, [name]: ""}` clears the named error and keeps the others |
| EditUser.WithoutAvatar | src/pages/EditUser.tsx:107 | the update body carries exactly the draft's first name, last name and email |
| EditUser.EditUserState.constructor | src/pages/EditUser.tsx:22-34 | initial state: loading, not saving, empty draft, no errors |
| EditUser.EditUserState.Load | src/pages/EditUser.tsx:36-57 | without a route id nothing happens. Otherwise the user with that id is requested, a fetched user's four fields replace the draft, a failure keeps it, and `loading` ends false |
| EditUser.EditUserState.HandleChange | src/pages/EditUser.tsx:59-66 | only the named field changes. Its error becomes empty and the other errors are kept |
| EditUser.EditUserState.Validate | src/pages/EditUser.tsx:68-96 | the whole error map is rebuilt from the draft, and the result is true iff all three messages are empty |
| EditUser.EditUserState.Submit | src/pages/EditUser.tsx:98-116 | an invalid draft sends nothing. A valid draft with an id sends the draft without avatar, and the page navigates to `/users` only on success. `saving` ends false whenever validation passed |
| Login.LoginEmailError | src/pages/Login.tsx:21-27 | "Email is required" iff the untrimmed email is empty. "Email is invalid" iff it is non-empty and fails the pattern. Empty iff the pattern matches |
| Login.PasswordError | src/pages/Login.tsx:29-32 | the password message is empty iff the password is non-empty, and otherwise is "Password is required" |
| Login.ValidCredentialsIff | src/pages/Login.tsx:17-36 | the login error map is clear iff the email matches the pattern and the password is non-empty |
| Login.WhitespaceEmailIsInvalid | src/pages/Login.tsx:21-27 | a non-empty whitespace-only email is "Email is invalid", not "Email is required" |
| Login.DemoCredentialsValid | src/pages/Login.tsx:12-13 | the pre-filled demo credentials pass validation |
| Login.LoginState.constructor | src/pages/Login.tsx:12-15 | the form starts with the demo email and password and no errors |
| Login.LoginState.SetEmail | src/pages/Login.tsx:68 | the email input sets the email |
| Login.LoginState.SetPassword | src/pages/Login.tsx:83 | the password input sets the password |
| Login.LoginState.Validate | src/pages/Login.tsx:17-36 | the whole error map is replaced, and the result is true iff both messages are empty |
| Login.LoginState.Submit | src/pages/Login.tsx:38-43 | `login` is called, with the current email and password, only when validation passes. The session's token and navigation then follow the login outcome, and an accepted login navigates to `/users`. Otherwise the session is untouched |
| Auth.Persisted | src/hooks/useAuth.tsx:23-29 | after the sync effect the storage key is present iff the token is truthy, and then holds the token |
| Auth.ReloadRestoresSession | src/hooks/useAuth.tsx:17-29 | a provider restored from storage is authenticated iff the old one was, and storing it again changes nothing |
| Auth.RejectionMessage | src/hooks/useAuth.tsx:42-44 | a rejected login reports the server's `error` field when it is a non-empty string, and "Failed to login" when it is missing or empty |
| Auth.AuthProvider.constructor | src/hooks/useAuth.tsx:16-29 | the token starts as the stored value. `isLoading` starts false. After the mount effect, storage agrees with the token |
| Auth.AuthProvider.Context | src/hooks/useAuth.tsx:21 | `isAuthenticated` is true iff the token is present and non-empty |
| Auth.AuthProvider.SyncStorage | src/hooks/useAuth.tsx:23-29 | the storage key holds the token when it is truthy and is removed otherwise |
| Auth.AuthProvider.BeginLogin | src/hooks/useAuth.tsx:31-40 | `isLoading` is true while the request with the given credentials is in flight |
| Auth.AuthProvider.FinishLogin | src/hooks/useAuth.tsx:42-56 | on success the token becomes the response's token and the page navigates to `/users`. On any failure the token is unchanged and there is no navigation. A rejected response shows the server's non-empty `error` field or "Failed to login", and a thrown error shows its own message. `isLoading` ends false on every path |
| Auth.AuthProvider.Logout | src/hooks/useAuth.tsx:59-63 | the token becomes null, storage is cleared by the sync rule, and the page navigates to `/` with replace |
| Auth.UseAuth | src/hooks/useAuth.tsx:72-78 | outside a provider the hook raises "useAuth must be used within an AuthProvider". Inside one it returns the provider's context |
| Auth.RequireAuth | src/hooks/useAuth.tsx:80-95 | raises like `useAuth` outside a provider. Otherwise it renders the children iff authenticated, and renders nothing and redirects to `/` with replace otherwise |
| Auth.GuardFollowsStorage | src/hooks/useAuth.tsx:21-29 | the guard lets a provider's children through iff the storage key is present |

The methods `Auth.SessionRoundTrip` and `EditUser.CorrectedSubmit` are client
scenarios that use only the contracts above. The first logs in, reloads, logs out
and checks the guard. The second submits with an empty first name, which is
blocked, then corrects the name and submits again, which succeeds.

## Left out

- HTTP, JSON parsing, `localStorage` as real storage, console logging and the
  service layer's toasts (`src/services/api.ts`). Each awaited call is a parameter
  saying how it ended, and storage is the `Option<string>` field
  `AuthProvider.storage`.
- React rendering and scheduling. Effects run synchronously at the end of the
  handler that triggers them. The render in which a freshly loaded list shows
  unfiltered, before the search effect reapplies the term, is not modelled.
- The race between overlapping page fetches. Their responses apply in completion
  order and the code does nothing to order them. `FinishLoad` models one
  response at a time.
- Unicode case mapping and the full JavaScript `\s` class. Lowercasing is ASCII
  and whitespace is the fixed set in `Text.IsSpace`.
- `EditUser.EditUserState.Submit`: the window in which `saving` is true while
  the update is awaited is not observable, because the call is one method.
  `Auth.AuthProvider` splits `login` into `BeginLogin` and `FinishLogin` for the
  same purpose.
- `EditUser.EditUserState`: the route parameter is an integer or absent. The
  conversion `Number(id)` of a non-numeric parameter (NaN) is not modelled.
- `Auth.AuthProvider.FinishLogin`: the "Login failed" toast for a thrown value
  that is not an `Error` is not modelled. Every error thrown on that path is an
  `Error`. A truthy `error` field that is not a string is not modelled either.
- The pagination, delete-confirmation, card, navigation bar and not-found
  components, and the route table in `src/App.tsx`. They are presentation or
  declarative wiring. Whether the confirm button can fire while the dialog is
  closed depends on the dialog component, which is not part of this model, so
  `ConfirmDelete` does not require the dialog to be open.
- The "no users found" empty state and the loading spinner are rendering
  decisions on `filteredUsers` and `loading`, and are not modelled further.
