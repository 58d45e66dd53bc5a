/**
 * The login page: two pre-filled inputs, client-side validation, and a submit
 * that hands valid credentials to the session store's `login`.
 */
module Login {
  import opened Api
  import opened Text
  import opened Auth

  /** The demo account the form starts with. */
  const DemoEmail: string := "eve.holt@reqres.in"
  const DemoPassword: string := "cityslicka"

  /** `errors` of the login form, "" for a field with no error. */
  datatype LoginErrors = LoginErrors(email: string, password: string) {
    predicate IsClear() {
      email == "" && password == ""
    }
  }

  /** The email message. Unlike the edit page, the value is not trimmed before
      the required check: only the empty string is "Email is required", and a
      whitespace-only value falls through to the pattern and is "Email is
      invalid". The field passes exactly when the pattern matches. */
  function LoginEmailError(email: string): (msg: string)
    ensures msg == "" <==> MatchesEmailPattern(email)
    ensures msg == "Email is required" <==> email == ""
    ensures msg == "Email is invalid" <==> email != "" && !MatchesEmailPattern(email)
  {
    if email == "" then "Email is required"
    else if !MatchesEmailPattern(email) then "Email is invalid"
    else ""
  }

  /** The password message: any non-empty password passes. */
  function PasswordError(password: string): (msg: string)
    ensures msg == "" <==> password != ""
    ensures msg != "" ==> msg == "Password is required"
  {
    if password == "" then "Password is required" else ""
  }

  /** The error map `validate` builds from scratch. */
  function LoginErrorsFor(email: string, password: string): LoginErrors {
    LoginErrors(LoginEmailError(email), PasswordError(password))
  }

  /** Credentials pass exactly when the email matches the pattern and the
      password is non-empty. */
  lemma ValidCredentialsIff(email: string, password: string)
    ensures LoginErrorsFor(email, password).IsClear() <==> MatchesEmailPattern(email) && password != ""
  {
  }

  /** A whitespace-only email is reported as invalid, not as missing. */
  lemma WhitespaceEmailIsInvalid(email: string)
    requires email != "" && IsBlank(email)
    ensures LoginEmailError(email) == "Email is invalid"
  {
    EmailPatternNotBlank(email);
  }

  /** The pre-filled demo credentials pass validation. */
  lemma DemoCredentialsValid()
    ensures LoginErrorsFor(DemoEmail, DemoPassword).IsClear()
  {
    assert DemoEmail[8] == '@' && DemoEmail[15] == '.';
    assert EmailMatchAt(DemoEmail, 0, 8, 15, 18);
  }

  class LoginState {
    var email: string
    var password: string
    var errors: LoginErrors

    /** The form as first rendered: the demo credentials and no errors. */
    constructor ()
      ensures email == DemoEmail && password == DemoPassword
      ensures errors == LoginErrors("", "")
    {
      email := DemoEmail;
      password := DemoPassword;
      errors := LoginErrors("", "");
    }

    /** The email input's `onChange`. */
    method SetEmail(value: string)
      modifies this`email
      ensures email == value
    {
      email := value;
    }

    /** The password input's `onChange`. */
    method SetPassword(value: string)
      modifies this`password
      ensures password == value
    {
      password := value;
    }

    /** `validate`: rebuilds the whole error map and reports whether it is clear. */
    method Validate() returns (isValid: bool)
      modifies this`errors
      ensures errors == LoginErrorsFor(email, password)
      ensures isValid <==> errors.IsClear()
    {
      var newErrors := LoginErrors("", "");
      isValid := true;
      if email == "" {
        newErrors := newErrors.(email := "Email is required");
        isValid := false;
      } else if !MatchesEmailPattern(email) {
        newErrors := newErrors.(email := "Email is invalid");
        isValid := false;
      }
      if password == "" {
        newErrors := newErrors.(password := "Password is required");
        isValid := false;
      }
      errors := newErrors;
    }

    /** `handleSubmit`: validates, and only for valid input awaits the session's
        `login` with the current email and password; `response` is how that
        request ends. */
    method Submit(session: AuthProvider, response: LoginResponse)
      returns (request: Option<Credentials>, nav: Option<Navigation>)
      requires session.Valid()
      modifies this`errors, session
      ensures session.Valid()
      ensures errors == LoginErrorsFor(email, password)
      ensures request.Some? <==> errors.IsClear()
      ensures request.Some? ==> request.value == Credentials(email, password) && !session.isLoading
      ensures request.Some? && response.Accepted? ==> session.token == response.token
      ensures request.Some? && !response.Accepted? ==> session.token == old(session.token)
      ensures nav.Some? <==> request.Some? && response.Accepted?
      ensures nav.Some? ==> nav.value == Navigation(UsersRoute, false)
      ensures request.None? ==> unchanged(session)
    {
      request, nav := None, None;
      var isValid := Validate();
      if isValid {
        var sent := session.BeginLogin(email, password);
        request := Some(sent);
        var toast;
        nav, toast := session.FinishLogin(response);
      }
    }
  }
}
