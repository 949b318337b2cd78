/**
 * The `signIn` server action: validate the form with the login schema, ask
 * the backend for a token, then store a session and go to `/admin`.
 * The backend call is a parameter (its answer, `login`), so is the signing
 * of the session cookie (the session value handed to `createSession`).
 */
module SignIn {
  import opened Common
  import opened FormSchemas
  import ServerAuth

  /** The two form entries; `formData.get` yields null for a missing one. */
  datatype RawLogin = RawLogin(email: Value, password: Value)

  /**
   * What `authApiLogin` resolves to: the `detail` of a failed response, or
   * the fields the action reads from a successful one.
   */
  datatype LoginResponse =
    | Rejected(detail: string)
    | Accepted(id: Option<string>, fullName: Option<string>, email: string, accessToken: string)

  /** `SignUpFormState`: the echoed input, field errors and a form-level message. */
  datatype FormState = FormState(data: RawLogin, errors: FieldErrors, message: Option<string>)

  /** The action either returns a new form state or signs in and redirects. */
  datatype SignInOutcome =
    | Returned(state: FormState)
    | SignedIn(session: ServerAuth.Session, revalidated: string, redirectTo: string)

  const InvalidCredentials := "Invalid Credentials"

  /** The backend is asked only for input the schema accepts. */
  predicate ShouldCallBackend(raw: RawLogin)
  {
    LoginErrors(raw.email, raw.password) == map[]
  }

  /**
   * `signIn(state, formData)`: schema errors come back with the raw input
   * and no message; a refused login comes back as "Invalid Credentials";
   * otherwise the session holds the returned id, name, address and token,
   * with no avatar and no role.
   */
  function SignIn(raw: RawLogin, login: LoginResponse): (r: SignInOutcome)
    ensures !ShouldCallBackend(raw) ==>
              r == Returned(FormState(raw, LoginErrors(raw.email, raw.password), None))
    ensures ShouldCallBackend(raw) && login.Rejected? ==>
              r == Returned(FormState(raw, map[], Some(InvalidCredentials)))
    ensures r.SignedIn? <==> ShouldCallBackend(raw) && login.Accepted?
    ensures r.SignedIn? ==>
              r.session.user == ServerAuth.SessionUser(login.id, login.fullName, None, login.email, None)
              && r.session.accessToken == login.accessToken
              && r.revalidated == ServerAuth.AdminPath && r.redirectTo == ServerAuth.AdminPath
    ensures r.Returned? ==> r.state.data == raw && (r.state.errors == map[] <==> ShouldCallBackend(raw))
  {
    var errors := LoginErrors(raw.email, raw.password);
    if errors != map[] then Returned(FormState(raw, errors, None))
    else match login
      case Rejected(_) => Returned(FormState(raw, map[], Some(InvalidCredentials)))
      case Accepted(id, fullName, email, token) =>
        var user := ServerAuth.SessionUser(id, fullName, None, email, None);
        SignedIn(ServerAuth.Session(user, token), ServerAuth.AdminPath, ServerAuth.AdminPath)
  }

  /** Signing in needs string entries that pass the schema: a formatted address and 6 to 255 password characters. */
  lemma SignedInOnlyWithValidForm(raw: RawLogin, login: LoginResponse)
    requires SignIn(raw, login).SignedIn?
    ensures raw.email.Str? && raw.password.Str?
    ensures raw.email.s != "" && Models.EmailFormat(raw.email.s) && 6 <= |raw.password.s| <= 255
  {
    MissingFieldReported(raw.email, raw.password);
    if raw.email.Str? && raw.password.Str? {
      LoginValidIff(raw.email.s, raw.password.s);
    }
  }

  /** A missing or null entry fails its field with zod's type message. */
  lemma MissingFieldReported(email: Value, password: Value)
    ensures !email.Str? ==> "email" in LoginErrors(email, password)
    ensures !password.Str? ==> "password" in LoginErrors(email, password)
  {
    var fields := [("email", StringField(email, LoginEmailChecks())),
                   ("password", StringField(password, LoginPasswordChecks()))];
    assert fields[0].1 == StringField(email, LoginEmailChecks());
    assert fields[1].1 == StringField(password, LoginPasswordChecks());
  }

  /**
   * The session `signIn` stores has no role, so it passes `requireAuth()`
   * and is sent to `/unauthorized` by `requireAuth` with any role.
   */
  lemma SignedInSessionHasNoRole(raw: RawLogin, login: LoginResponse, role: ServerAuth.Role)
    requires SignIn(raw, login).SignedIn?
    ensures ServerAuth.RequireAuth(Some(SignIn(raw, login).session), None).Proceed?
    ensures ServerAuth.RequireAuth(Some(SignIn(raw, login).session), Some(role))
              == ServerAuth.Redirect(ServerAuth.UnauthorizedPath)
  {
    ServerAuth.RolelessSessionGates(SignIn(raw, login).session, role);
  }
}
