/** The self-service sign-up page: a five-field form, the client-side check
    that the password was typed twice alike, and the create-user request it
    sends, which always asks for an active account. */
module SignUp {
  import opened Common
  import opened FlaskUsers

  datatype SignUpForm = SignUpForm(name: string, email: string, password: string,
                                   confirmPassword: string, role: string)

  /** The first state of the form: empty fields and the 'security' role. */
  const InitialSignUp := SignUpForm("", "", "", "", "security")

  datatype SignUpField = Name | Email | Password | ConfirmPassword | Role

  function Get(f: SignUpForm, field: SignUpField): string {
    match field
    case Name => f.name
    case Email => f.email
    case Password => f.password
    case ConfirmPassword => f.confirmPassword
    case Role => f.role
  }

  /** `handleChange`: the input's field takes its value; the others keep theirs. */
  function SetField(f: SignUpForm, field: SignUpField, value: string): (r: SignUpForm)
    ensures Get(r, field) == value
    ensures forall g :: g != field ==> Get(r, g) == Get(f, g)
  {
    match field
    case Name => f.(name := value)
    case Email => f.(email := value)
    case Password => f.(password := value)
    case ConfirmPassword => f.(confirmPassword := value)
    case Role => f.(role := value)
  }

  /** A later change of a field replaces an earlier one; changes of different
      fields can be made in either order. */
  lemma SetFieldLaws(f: SignUpForm, a: SignUpField, b: SignUpField, x: string, y: string)
    ensures SetField(SetField(f, a, x), a, y) == SetField(f, a, y)
    ensures a != b ==> SetField(SetField(f, a, x), b, y) == SetField(SetField(f, b, y), a, x)
  {
    var r := SetField(SetField(f, a, x), a, y);
    var s := SetField(f, a, y);
    assert Get(r, Name) == Get(s, Name) && Get(r, Email) == Get(s, Email);
    assert Get(r, Password) == Get(s, Password) && Get(r, ConfirmPassword) == Get(s, ConfirmPassword);
    assert Get(r, Role) == Get(s, Role);
    if a != b {
      var r' := SetField(SetField(f, a, x), b, y);
      var s' := SetField(SetField(f, b, y), a, x);
      assert Get(r', Name) == Get(s', Name) && Get(r', Email) == Get(s', Email);
      assert Get(r', Password) == Get(s', Password) && Get(r', ConfirmPassword) == Get(s', ConfirmPassword);
      assert Get(r', Role) == Get(s', Role);
    }
  }

  /** The body of the create-user request: the form's fields, without the
      confirmation, and the status 'Active'. */
  function Request(f: SignUpForm): (q: UserRequest)
    ensures q.name == Str(f.name) && q.email == Str(f.email) && q.password == Str(f.password)
    ensures q.role == Str(f.role) && q.status == Str("Active")
  {
    UserRequest(Str(f.name), Str(f.email), Str(f.password), Str(f.role), Str("Active"))
  }

  /** What the create request came back with. */
  datatype CreateReply = AccountCreated | CreateFailed(serverError: Option<string>)

  /** The page after a submit: its error line, the loading flag, the request
      sent (if any), the alert raised (if any) and where it navigated (if anywhere). */
  datatype SignUpResult = SignUpResult(error: string, loading: bool, sent: Option<UserRequest>,
                                       alert: Option<string>, navigateTo: Option<string>)

  /** `handleSubmit`. The error line is cleared first. Different passwords
      stop the submit with an error and no request; otherwise the request is
      sent, and success raises an alert and goes to the login page while
      failure shows the server's `error` or a fallback. Loading ends either way. */
  function Submit(f: SignUpForm, reply: CreateReply): (r: SignUpResult)
    ensures !r.loading
    ensures r.sent.None? <==> f.password != f.confirmPassword
    ensures r.sent.None? ==> r.error == "Passwords do not match" && r.alert.None? && r.navigateTo.None?
    ensures r.sent.Some? ==> r.sent.value == Request(f)
    ensures r.navigateTo.Some? <==> r.sent.Some? && reply.AccountCreated?
    ensures r.navigateTo.Some? ==> r.navigateTo.value == "/" && r.alert == Some("Account created successfully! Please login.")
    ensures r.sent.Some? && reply.CreateFailed? ==>
      r.error == OrElse(reply.serverError, "Failed to create account") && r.alert.None?
    ensures r.error == "" <==> r.navigateTo.Some?
  {
    if f.password != f.confirmPassword then SignUpResult("Passwords do not match", false, None, None, None)
    else match reply
      case AccountCreated =>
        SignUpResult("", false, Some(Request(f)), Some("Account created successfully! Please login."), Some("/"))
      case CreateFailed(e) =>
        SignUpResult(OrElse(e, "Failed to create account"), false, Some(Request(f)), None, None)
  }

  /** The browser's constraint validation of the form: name, e-mail,
      password and confirmation are `required`, and the e-mail input, of type
      "email", must hold a valid address. */
  predicate Submittable(f: SignUpForm, isEmail: string -> bool) {
    && f.name != "" && f.email != "" && f.password != "" && f.confirmPassword != ""
    && EmailInputAccepts(f.email, isEmail)
  }

  /** A press of "Sign Up": nothing when the browser blocks the submit,
      otherwise what `handleSubmit` does. A request leaves the page exactly
      when every required field is filled, the e-mail is an address and the
      passwords agree, and it then carries a name, an address and a password. */
  function BrowserSubmit(f: SignUpForm, reply: CreateReply, isEmail: string -> bool): (r: Option<SignUpResult>)
    ensures r.Some? <==> Submittable(f, isEmail)
    ensures r.Some? ==> r.value == Submit(f, reply)
    ensures (r.Some? && r.value.sent.Some?) <==>
      && f.name != "" && f.email != "" && isEmail(f.email) && f.password != ""
      && f.password == f.confirmPassword
    ensures r.Some? && r.value.sent.Some? ==>
      var q := r.value.sent.value;
      q.name.Truthy() && q.email.Truthy() && isEmail(q.email.s) && q.password.Truthy()
  {
    if Submittable(f, isEmail) then Some(Submit(f, reply)) else None
  }

  /** On the Flask server, a sign-up with a name, an e-mail not yet in use and
      a password creates an active account with the chosen role, and that
      account can log in straight away with the same e-mail and password. */
  lemma SignUpThenLogin(st: UserStore, f: SignUpForm)
    requires Valid(st)
    requires f.password == f.confirmPassword
    requires f.name != "" && f.email != "" && f.password != ""
    requires !EmailInUse(st, f.email)
    ensures var created := CreateUser(st, Some(Request(f)));
      && created.status == Created
      && created.user.value.status == Some("Active") && created.user.value.role == Some(f.role)
      && var session := Login(created.store, Some(Credentials(Str(f.email), Str(f.password))));
         session.status == Ok && session.user.value.id == created.user.value.id
  {
    var created := CreateUser(st, Some(Request(f)));
    CreateUserPreservesValid(st, Some(Request(f)));
    var u := created.user.value;
    assert u == User(st.nextId, f.name, f.email, f.password, Some(f.role), Some("Active"));
    var session := Login(created.store, Some(Credentials(Str(f.email), Str(f.password))));
    assert MatchesCredentials(created.store.users[u.id], f.email, f.password);
    var found := FindByEmail(created.store, f.email);
    assert found.value == u.id;
  }

  /** Whatever the browser lets through to the server, with an e-mail not
      yet in use, creates an active account that can log in at once. */
  lemma SentSignUpLogsIn(st: UserStore, f: SignUpForm, isEmail: string -> bool)
    requires Valid(st) && !EmailInUse(st, f.email)
    requires BrowserSubmit(f, AccountCreated, isEmail).Some?
    requires BrowserSubmit(f, AccountCreated, isEmail).value.sent.Some?
    ensures var created := CreateUser(st, BrowserSubmit(f, AccountCreated, isEmail).value.sent);
      && created.status == Created && created.user.value.status == Some("Active")
      && Login(created.store, Some(Credentials(Str(f.email), Str(f.password)))).status == Ok
  {
    SignUpThenLogin(st, f);
  }

  /** A form whose passwords differ never reaches the server, whatever it
      would have answered. */
  lemma MismatchSendsNothing(f: SignUpForm, a: CreateReply, b: CreateReply)
    requires f.password != f.confirmPassword
    ensures Submit(f, a) == Submit(f, b)
    ensures Submit(f, a).sent.None?
  {
  }
}
