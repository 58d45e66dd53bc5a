/**
 * The edit page: loads one user into a local draft, lets the three text fields
 * be edited, validates the draft on submit and sends it without the avatar.
 */
module EditUser {
  import opened Api
  import opened Text

  /** The three inputs of the form, by their `name` attribute. */
  datatype Field = FirstName | LastName | Email

  /** `userData`: the draft. The avatar is kept for display only. */
  datatype UserForm = UserForm(firstName: string, lastName: string, email: string, avatar: string) {
    function Get(f: Field): string {
      match f
      case FirstName => firstName
      case LastName => lastName
      case Email => email
    }

    /** `{ ...prev, [name]: value }` */
    function Set(f: Field, value: string): (r: UserForm)
      ensures r.Get(f) == value
      ensures forall g | g != f :: r.Get(g) == Get(g)
      ensures r.avatar == avatar
    {
      match f
      case FirstName => this.(firstName := value)
      case LastName => this.(lastName := value)
      case Email => this.(email := value)
    }
  }

  /** `errors`: one message per field, "" for a field with no error. */
  datatype FieldErrors = FieldErrors(firstName: string, lastName: string, email: string) {
    function Get(f: Field): string {
      match f
      case FirstName => firstName
      case LastName => lastName
      case Email => email
    }

    /** `{ ...prev, [name]: "" }` */
    function Clear(f: Field): (r: FieldErrors)
      ensures r.Get(f) == ""
      ensures forall g | g != f :: r.Get(g) == Get(g)
    {
      match f
      case FirstName => this.(firstName := "")
      case LastName => this.(lastName := "")
      case Email => this.(email := "")
    }

    predicate IsClear() {
      firstName == "" && lastName == "" && email == ""
    }
  }

  const EmptyForm: UserForm := UserForm("", "", "", "")
  const NoErrors: FieldErrors := FieldErrors("", "", "")

  /** The message for a required name field: the given message when the value is
      blank after trimming, "" otherwise. */
  function RequiredError(value: string, message: string): (msg: string)
    requires message != ""
    ensures msg == "" <==> !IsBlank(value)
    ensures msg != "" ==> msg == message
  {
    if IsBlank(value) then message else ""
  }

  /** The email message: "Email is required" when blank after trimming, else
      "Email is invalid" when the untrimmed value fails `\S+@\S+\.\S+`. The field
      passes exactly when the pattern matches. */
  function EmailError(email: string): (msg: string)
    ensures msg == "" <==> MatchesEmailPattern(email)
    ensures msg == "Email is required" <==> IsBlank(email)
    ensures msg == "Email is invalid" <==> !IsBlank(email) && !MatchesEmailPattern(email)
  {
    EmailPatternNotBlank(email);
    if IsBlank(email) then "Email is required"
    else if !MatchesEmailPattern(email) then "Email is invalid"
    else ""
  }

  /** The error map `validate` builds from scratch for a draft. */
  function ErrorsFor(d: UserForm): FieldErrors {
    FieldErrors(
      RequiredError(d.firstName, "First name is required"),
      RequiredError(d.lastName, "Last name is required"),
      EmailError(d.email))
  }

  /** A draft is valid exactly when both names are non-blank and the email
      matches the pattern (which already rules out a blank email). */
  lemma ValidDraftIff(d: UserForm)
    ensures ErrorsFor(d).IsClear() <==>
      !IsBlank(d.firstName) && !IsBlank(d.lastName) && MatchesEmailPattern(d.email)
  {
  }

  /** The body of `PUT /users/:id`: the draft without `avatar`. */
  datatype UpdatePayload = UpdatePayload(firstName: string, lastName: string, email: string)

  /** `const { avatar, ...updateData } = userData` */
  function WithoutAvatar(d: UserForm): (p: UpdatePayload)
    ensures p.firstName == d.Get(FirstName) && p.lastName == d.Get(LastName) && p.email == d.Get(Email)
  {
    UpdatePayload(d.firstName, d.lastName, d.email)
  }

  /** An update call: the numeric route id and the payload. */
  datatype UpdateRequest = UpdateRequest(id: int, payload: UpdatePayload)

  class EditUserState {
    /** The route's `:id`, `None` when it is missing or empty. */
    const id: Option<int>
    var loading: bool
    var saving: bool
    var userData: UserForm
    var errors: FieldErrors

    constructor (id: Option<int>)
      ensures this.id == id
      ensures loading && !saving && userData == EmptyForm && errors == NoErrors
    {
      this.id := id;
      loading := true;
      saving := false;
      userData := EmptyForm;
      errors := NoErrors;
    }

    /** `loadUser` from the awaited `fetchUserById` on. Without a route id nothing
        happens (and `loading` stays as it was); otherwise a fetched user's four
        fields replace the draft, a failure leaves the draft, and `loading` ends
        false either way. */
    method Load(response: Result<User>) returns (request: Option<int>)
      modifies this`loading, this`userData
      ensures request == id
      ensures id.None? ==> loading == old(loading) && userData == old(userData)
      ensures id.Some? ==> !loading
      ensures id.Some? && response.Ok? ==>
        userData == UserForm(response.value.firstName, response.value.lastName, response.value.email, response.value.avatar)
      ensures response.Err? ==> userData == old(userData)
    {
      if id.None? {
        request := None;
        return;
      }
      request := id;
      loading := true;
      match response {
        case Ok(user) =>
          userData := UserForm(user.firstName, user.lastName, user.email, user.avatar);
        case Err(_) =>
      }
      loading := false;
    }

    /** `handleChange`: sets the named field and clears that field's error (only
        if it had one); the other fields and errors are kept. */
    method HandleChange(field: Field, value: string)
      modifies this`userData, this`errors
      ensures userData == old(userData).Set(field, value)
      ensures errors.Get(field) == ""
      ensures forall g | g != field :: errors.Get(g) == old(errors).Get(g)
    {
      userData := userData.Set(field, value);
      if errors.Get(field) != "" {
        errors := errors.Clear(field);
      }
    }

    /** `validate`: rebuilds the whole error map for the current draft and
        reports whether it is clear. */
    method Validate() returns (isValid: bool)
      modifies this`errors
      ensures errors == ErrorsFor(userData)
      ensures isValid <==> errors.IsClear()
    {
      var newErrors := NoErrors;
      isValid := true;
      if Trim(userData.firstName) == "" {
        newErrors := newErrors.(firstName := "First name is required");
        isValid := false;
      }
      if Trim(userData.lastName) == "" {
        newErrors := newErrors.(lastName := "Last name is required");
        isValid := false;
      }
      if Trim(userData.email) == "" {
        newErrors := newErrors.(email := "Email is required");
        isValid := false;
      } else if !MatchesEmailPattern(userData.email) {
        newErrors := newErrors.(email := "Email is invalid");
        isValid := false;
      }
      errors := newErrors;
    }

    /** `handleSubmit`, with the outcome of the awaited `updateUser`. An invalid
        draft sends nothing and leaves `saving` alone. A valid draft with a route
        id sends the draft without its avatar and navigates to the list only when
        the update succeeds; `saving` ends false whenever validation passed. */
    method Submit(outcome: Result<()>) returns (request: Option<UpdateRequest>, nav: Option<Navigation>)
      modifies this`errors, this`saving
      ensures errors == ErrorsFor(userData)
      ensures request.Some? <==> errors.IsClear() && id.Some?
      ensures request.Some? ==> request.value == UpdateRequest(id.value, WithoutAvatar(userData))
      ensures nav.Some? <==> request.Some? && outcome.Ok?
      ensures nav.Some? ==> nav.value == Navigation(UsersRoute, false)
      ensures saving == if errors.IsClear() then false else old(saving)
    {
      request, nav := None, None;
      var isValid := Validate();
      if !isValid {
        return;
      }
      saving := true;
      if id.Some? {
        request := Some(UpdateRequest(id.value, WithoutAvatar(userData)));
        if outcome.Ok? {
          nav := Some(Navigation(UsersRoute, false));
        }
      }
      saving := false;
    }
  }

  /** An edit as a user sees it: blanking the first name blocks the submit with
      "First name is required" and sends nothing; typing a name clears that
      message, and the next submit sends the corrected draft and returns to the
      list. */
  method CorrectedSubmit(user: User, name: string)
    requires !IsBlank(name) && !IsBlank(user.lastName) && MatchesEmailPattern(user.email)
  {
    var page := new EditUserState(Some(user.id));
    var fetch := page.Load(Ok(user));
    page.HandleChange(FirstName, "");
    var request, nav := page.Submit(Ok(()));
    assert request.None? && nav.None?;
    assert page.errors.firstName == "First name is required";
    page.HandleChange(FirstName, name);
    assert page.errors.firstName == "";
    request, nav := page.Submit(Ok(()));
    assert request == Some(UpdateRequest(user.id, UpdatePayload(name, user.lastName, user.email)));
    assert nav == Some(Navigation(UsersRoute, false));
  }
}
