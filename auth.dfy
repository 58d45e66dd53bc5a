/**
 * The session store (`AuthProvider`), its `useAuth` hook and the `RequireAuth`
 * route guard. Durable storage is the single `localStorage` key "token", modelled
 * as the field `storage`; the effect that writes or removes it after every token
 * change is `SyncStorage`.
 */
module Auth {
  import opened Api

  /** `!!token`: a token counts only when present and non-empty. */
  predicate IsAuthenticated(token: Option<string>) {
    token.Some? && token.value != ""
  }

  /** What the storage-sync effect leaves under the "token" key for `token`:
      the key is present exactly when the token authenticates, and then holds it. */
  function Persisted(token: Option<string>): (stored: Option<string>)
    ensures stored.Some? <==> IsAuthenticated(token)
    ensures stored.Some? ==> stored == token
  {
    if IsAuthenticated(token) then token else None
  }

  /** Restoring a session from what storage holds gives back the same session:
      the restored token authenticates exactly when the old one did, and storing
      it again changes nothing. */
  lemma ReloadRestoresSession(token: Option<string>)
    ensures IsAuthenticated(Persisted(token)) == IsAuthenticated(token)
    ensures Persisted(Persisted(token)) == Persisted(token)
  {
  }

  /** The body of `POST /login`. */
  datatype Credentials = Credentials(email: string, password: string)

  /** How the login request ended: a 2xx response and its `token` field (absent
      when the body has none), a non-2xx response and its `error` field, or a
      thrown error (network failure, unreadable body) and its message. */
  datatype LoginResponse =
    | Accepted(token: Option<string>)
    | Rejected(error: Option<string>)
    | Thrown(message: string)

  /** The toast text for a rejected login: the server's `error` field when it is a
      non-empty string, "Failed to login" otherwise. */
  function RejectionMessage(error: Option<string>): (text: string)
    ensures text != ""
    ensures error.Some? && error.value != "" ==> text == error.value
    ensures !(error.Some? && error.value != "") ==> text == "Failed to login"
  {
    if error.Some? && error.value != "" then error.value else "Failed to login"
  }

  /** The value the provider hands to its consumers. */
  datatype AuthContext = AuthContext(token: Option<string>, isAuthenticated: bool, isLoading: bool)

  class AuthProvider {
    var token: Option<string>
    var isLoading: bool
    /** The value stored under the "token" key, `None` when the key is absent. */
    var storage: Option<string>

    /** The storage-sync effect has run for the current token. */
    ghost predicate Valid()
      reads this
    {
      storage == Persisted(token)
    }

    /** Mounting the provider: the token starts as the stored value, then the
        sync effect runs once (it removes a stored empty string). */
    constructor (stored: Option<string>)
      ensures Valid()
      ensures token == stored && !isLoading
      ensures IsAuthenticated(token) ==> storage == stored
    {
      token := stored;
      isLoading := false;
      storage := stored;
      new;
      SyncStorage();
    }

    /** The context value the provider renders. */
    function Context(): (c: AuthContext)
      reads this
      ensures c.isAuthenticated <==> token.Some? && token.value != ""
      ensures c.token == token && c.isLoading == isLoading
    {
      AuthContext(token, IsAuthenticated(token), isLoading)
    }

    /** The effect on `[token]`: write the key when the token is truthy, remove it
        otherwise. */
    method SyncStorage()
      modifies this`storage
      ensures Valid()
    {
      if IsAuthenticated(token) {
        storage := token;
      } else {
        storage := None;
      }
    }

    /** `login`, up to the awaited request: sets the loading flag and sends the
        credentials unchanged. */
    method BeginLogin(email: string, password: string) returns (request: Credentials)
      modifies this`isLoading
      ensures isLoading
      ensures request == Credentials(email, password)
    {
      isLoading := true;
      request := Credentials(email, password);
    }

    /** `login`, from the awaited response on. On success the token is replaced
        by the response's token and the user is sent to the list; on any failure
        the token stays as it was and there is no navigation. `isLoading` ends
        false on every path. */
    method FinishLogin(response: LoginResponse) returns (nav: Option<Navigation>, toast: Toast)
      requires Valid()
      modifies this`token, this`storage, this`isLoading
      ensures Valid() && !isLoading
      ensures response.Accepted? ==> token == response.token
      ensures !response.Accepted? ==> token == old(token)
      ensures nav.Some? <==> response.Accepted?
      ensures nav.Some? ==> nav.value == Navigation(UsersRoute, false)
      ensures response.Accepted? ==> toast == SuccessToast("Login successful!")
      ensures response.Rejected? ==> toast == ErrorToast(RejectionMessage(response.error))
      ensures response.Thrown? ==> toast == ErrorToast(response.message)
    {
      match response {
        case Accepted(t) =>
          token := t;
          SyncStorage();
          toast := SuccessToast("Login successful!");
          nav := Some(Navigation(UsersRoute, false));
        case Rejected(error) =>
          toast := ErrorToast(RejectionMessage(error));
          nav := None;
        case Thrown(message) =>
          toast := ErrorToast(message);
          nav := None;
      }
      isLoading := false;
    }

    /** `logout`: drops the token (so the sync effect removes the key), replaces
        the history entry with the login page and shows an info toast. */
    method Logout() returns (nav: Navigation, toast: Toast)
      modifies this`token, this`storage
      ensures Valid()
      ensures token == None && storage == None
      ensures !Context().isAuthenticated
      ensures nav == Navigation(LoginRoute, true)
      ensures toast == InfoToast("You have been logged out")
    {
      token := None;
      SyncStorage();
      nav := Navigation(LoginRoute, true);
      toast := InfoToast("You have been logged out");
    }
  }

  /** `useAuth()`: the nearest provider's context, or the error it throws when
      there is no provider above the caller. */
  function UseAuth(provided: Option<AuthContext>): (r: Result<AuthContext>)
    ensures r.Err? <==> provided.None?
    ensures r.Err? ==> r.message == "useAuth must be used within an AuthProvider"
    ensures r.Ok? ==> r.value == provided.value
  {
    match provided
    case None => Err("useAuth must be used within an AuthProvider")
    case Some(context) => Ok(context)
  }

  /** What `RequireAuth` does: render its children, or render nothing and
      navigate to the login page replacing the history entry. */
  datatype GuardDecision = RenderChildren | RedirectToLogin(nav: Navigation)

  /** `RequireAuth`: throws like `useAuth` outside a provider; otherwise renders
      the children exactly when the session is authenticated and redirects to the
      login page (with replace) otherwise. */
  function RequireAuth(provided: Option<AuthContext>): (r: Result<GuardDecision>)
    ensures r.Err? <==> provided.None?
    ensures r.Ok? ==> (r.value.RenderChildren? <==> provided.value.isAuthenticated)
    ensures r.Ok? && r.value.RedirectToLogin? ==> r.value.nav == Navigation(LoginRoute, true)
  {
    match UseAuth(provided)
    case Err(message) => Err(message)
    case Ok(context) =>
      if context.isAuthenticated then Ok(RenderChildren)
      else Ok(RedirectToLogin(Navigation(LoginRoute, true)))
  }

  /** Presence of the stored key, authentication and access to protected views
      go together: the guard lets a provider's children through exactly when the
      storage key is present. */
  lemma GuardFollowsStorage(token: Option<string>, isLoading: bool)
    ensures RequireAuth(Some(AuthContext(token, IsAuthenticated(token), isLoading))).Ok?
    ensures RequireAuth(Some(AuthContext(token, IsAuthenticated(token), isLoading))).value.RenderChildren?
            <==> Persisted(token).Some?
  {
  }

  /** A session as the user sees it: the provider is mounted from storage,
      logging in with a non-empty token opens the protected views, logging out
      closes them again and a reload afterwards stays logged out. */
  method SessionRoundTrip(stored: Option<string>, token: string)
    requires token != ""
  {
    var provider := new AuthProvider(stored);
    var request := provider.BeginLogin("eve.holt@reqres.in", "cityslicka");
    assert provider.isLoading;
    var nav, toast := provider.FinishLogin(Accepted(Some(token)));
    assert nav == Some(Navigation(UsersRoute, false)) && !provider.isLoading;
    assert RequireAuth(Some(provider.Context())) == Ok(RenderChildren);
    var reloaded := new AuthProvider(provider.storage);
    assert reloaded.token == Some(token);
    var nav2, toast2 := provider.Logout();
    assert RequireAuth(Some(provider.Context())) == Ok(RedirectToLogin(Navigation(LoginRoute, true)));
    var afterLogout := new AuthProvider(provider.storage);
    assert !afterLogout.Context().isAuthenticated;
  }
}
