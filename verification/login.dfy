/** The two login forms of the web client: the general one, which lets any
    role in, and the guard-only one, which turns away every role but
    'security'. Both check the inputs before calling the server and, on
    success, write the session to the browser's storage and report the role. */
module Login {
  import opened Common
  import opened Strings
  import opened Routing

  /** The server's answer to the login request. */
  datatype LoginReply =
    | LoggedIn(id: int, name: string, role: Option<string>)
    | LoginFailed(serverError: Option<string>)

  /** A submit's effect: the error line, whether the request was sent, the
      storage afterwards and the role `onLogin` was called with, if it was. */
  datatype LoginResult = LoginResult(error: string, requested: bool, storage: Storage, onLogin: Option<Option<string>>)

  const MissingInput := "Please enter both email and password"
  const LoginFallback := "Login failed. Please check your credentials."
  const GuardsOnly := "Access denied. Security credentials required."

  /** The four keys a successful login stores; `setItem` turns the id and a
      null role into text. */
  function WriteSession(st: Storage, id: int, name: string, role: Option<string>): (r: Storage)
    ensures r.Keys == st.Keys + {"isLoggedIn", "userRole", "userId", "userName"}
    ensures r["isLoggedIn"] == "true" && r["userRole"] == StoredText(role)
    ensures r["userId"] == IntToString(id) && r["userName"] == name
    ensures forall k :: k in st && k !in {"isLoggedIn", "userRole", "userId", "userName"} ==> r[k] == st[k]
  {
    st["isLoggedIn" := "true"]["userRole" := StoredText(role)]["userId" := IntToString(id)]["userName" := name]
  }

  /** `LoginForm.handleLogin`. An empty e-mail or password is refused before
      any request; a refused login shows the server's `error` or a fallback;
      a successful one stores the session and reports the role, whatever it
      is. `hasCallback` says whether an `onLogin` was passed. */
  function AnyRoleLogin(email: string, password: string, st: Storage, reply: LoginReply, hasCallback: bool): (r: LoginResult)
    ensures r.requested <==> email != "" && password != ""
    ensures !r.requested ==> r == LoginResult(MissingInput, false, st, None)
    ensures r.requested && reply.LoginFailed? ==>
      r.error == OrElse(reply.serverError, LoginFallback) && r.storage == st && r.onLogin.None?
    ensures r.requested && reply.LoggedIn? ==>
      && r.error == ""
      && r.storage == WriteSession(st, reply.id, reply.name, reply.role)
      && (r.onLogin.Some? <==> hasCallback)
      && (hasCallback ==> r.onLogin.value == reply.role)
    ensures r.error == "" <==> r.requested && reply.LoggedIn?
  {
    if email == "" || password == "" then LoginResult(MissingInput, false, st, None)
    else match reply
      case LoginFailed(e) => LoginResult(OrElse(e, LoginFallback), true, st, None)
      case LoggedIn(id, name, role) =>
        LoginResult("", true, WriteSession(st, id, name, role), if hasCallback then Some(role) else None)
  }

  /** `SecurityLoginPage.handleLogin`: the same, except that a login whose role
      is not 'security' is turned away with nothing stored and no callback. */
  function GuardLogin(email: string, password: string, st: Storage, reply: LoginReply, hasCallback: bool): (r: LoginResult)
    ensures r.requested <==> email != "" && password != ""
    ensures r.requested && reply.LoggedIn? && reply.role != Some("security") ==>
      r == LoginResult(GuardsOnly, true, st, None)
    ensures r.storage != st ==> reply.LoggedIn? && reply.role == Some("security")
    ensures r.onLogin.Some? ==> r.onLogin.value == Some("security")
  {
    if email != "" && password != "" && reply.LoggedIn? && reply.role != Some("security") then
      LoginResult(GuardsOnly, true, st, None)
    else AnyRoleLogin(email, password, st, reply, hasCallback)
  }

  /** A press of "Login" on the general form. The e-mail input has type
      "email", so the browser blocks the submit (`None`) when it holds text
      that is not an address; otherwise `handleLogin` runs. An empty field
      passes the browser and is caught by the handler. */
  function SubmitAnyRole(email: string, password: string, isEmail: string -> bool,
                         st: Storage, reply: LoginReply, hasCallback: bool): (r: Option<LoginResult>)
    ensures r.None? <==> email != "" && !isEmail(email)
    ensures r.Some? ==> r.value == AnyRoleLogin(email, password, st, reply, hasCallback)
    ensures (r.Some? && r.value.requested) <==> email != "" && isEmail(email) && password != ""
    ensures r.Some? && !r.value.requested ==> r.value.error == MissingInput && r.value.storage == st
  {
    if EmailInputAccepts(email, isEmail) then Some(AnyRoleLogin(email, password, st, reply, hasCallback))
    else None
  }

  /** A press of "Login" on the guard form, behind the same browser check. */
  function SubmitGuard(email: string, password: string, isEmail: string -> bool,
                       st: Storage, reply: LoginReply, hasCallback: bool): (r: Option<LoginResult>)
    ensures r.None? <==> email != "" && !isEmail(email)
    ensures r.Some? ==> r.value == GuardLogin(email, password, st, reply, hasCallback)
    ensures (r.Some? && r.value.requested) <==> email != "" && isEmail(email) && password != ""
    ensures r.Some? && r.value.storage != st ==>
      isEmail(email) && reply.LoggedIn? && reply.role == Some("security")
  {
    if EmailInputAccepts(email, isEmail) then Some(GuardLogin(email, password, st, reply, hasCallback))
    else None
  }

  /** The guard form behaves as the general one in every case but one: a
      successful login with another role. */
  lemma GuardLoginRefinesAnyRole(email: string, password: string, st: Storage, reply: LoginReply, hasCallback: bool)
    ensures !(reply.LoggedIn? && reply.role != Some("security")) ==>
      GuardLogin(email, password, st, reply, hasCallback) == AnyRoleLogin(email, password, st, reply, hasCallback)
    ensures reply.LoggedIn? && reply.role != Some("security") && email != "" && password != "" ==>
      GuardLogin(email, password, st, reply, hasCallback).error == GuardsOnly
      && AnyRoleLogin(email, password, st, reply, hasCallback).error == ""
  {
  }

  /** The app's `handleLogin`, called back with the reported role, writes the
      same two keys again, so the stored session is the form's; and a reload
      restores the logged-in state with that role whenever it is not null. */
  lemma LoginReachesApp(email: string, password: string, st: Storage, id: int, name: string, role: Option<string>)
    requires email != "" && password != ""
    ensures var r := AnyRoleLogin(email, password, st, LoggedIn(id, name, role), true);
      && HandleLogin(r.storage, r.onLogin.value).storage == r.storage
      && Restore(r.storage).authenticated
      && (role.Some? ==> Restore(r.storage) == HandleLogin(r.storage, r.onLogin.value).auth)
  {
    var r := AnyRoleLogin(email, password, st, LoggedIn(id, name, role), true);
    var s := HandleLogin(r.storage, role).storage;
    assert s.Keys == r.storage.Keys;
    forall k | k in s ensures s[k] == r.storage[k] {
    }
  }
}
