/**
 * The front end's session and the server-side gates of `server-auth.ts`.
 * A session is read from the `session` cookie by a signature check that
 * stays abstract (`verify`); a gate either lets the page proceed or
 * redirects, and the redirect is returned as a value.
 */
module ServerAuth {
  import opened Common

  /** `SessionUser`: everything but the address is optional. */
  datatype SessionUser = SessionUser(
    id: Option<string>, name: Option<string>, avatar: Option<string>, email: string, role: Option<string>)

  datatype Session = Session(user: SessionUser, accessToken: string)

  /** The roles `requireAuth` can demand. */
  datatype Role = AdminRole | UserRole
  {
    function Name(): (n: string)
      ensures n == "admin" || n == "user"
    {
      match this
      case AdminRole => "admin"
      case UserRole => "user"
    }
  }

  /** A gate's outcome: render with a value, or `redirect(location)`. */
  datatype Gate<T> = Proceed(value: T) | Redirect(location: string)

  const SignInPath := "/sign-in"
  const UnauthorizedPath := "/unauthorized"
  const AdminPath := "/admin"

  /** The session cookie and its signed token expire after seven days. */
  const SessionLifetimeDays := 7
  const SessionLifetimeMillis := SessionLifetimeDays * 24 * 60 * 60 * 1000

  /**
   * `getSession`: no session without a non-empty `session` cookie; otherwise
   * whatever the signature check yields (None for a token it rejects).
   */
  function GetSession(cookie: Option<string>, verify: string -> Option<Session>): (r: Option<Session>)
    ensures cookie.None? || cookie.value == "" ==> r.None?
    ensures cookie.Some? && cookie.value != "" ==> r == verify(cookie.value)
  {
    if cookie.None? || cookie.value == "" then None else verify(cookie.value)
  }

  /**
   * `requireAuth(requiredRole)`: to the sign-in page without a session, to
   * `/unauthorized` when a role is demanded and the session's role is
   * another or missing, otherwise the session's user.
   */
  function RequireAuth(session: Option<Session>, requiredRole: Option<Role>): (g: Gate<SessionUser>)
    ensures session.None? ==> g == Redirect(SignInPath)
    ensures session.Some? && requiredRole.Some? && session.value.user.role != Some(requiredRole.value.Name()) ==>
              g == Redirect(UnauthorizedPath)
    ensures g.Proceed? <==>
              session.Some? && (requiredRole.None? || session.value.user.role == Some(requiredRole.value.Name()))
    ensures g.Proceed? ==> g.value == session.value.user
  {
    if session.None? then Redirect(SignInPath)
    else if requiredRole.Some? && session.value.user.role != Some(requiredRole.value.Name()) then
      Redirect(UnauthorizedPath)
    else Proceed(session.value.user)
  }

  /** `getCurrentUser`: the session's user, or null; it never redirects. */
  function GetCurrentUser(session: Option<Session>): (r: Option<SessionUser>)
    ensures r.Some? <==> session.Some?
    ensures r.Some? ==> r.value == session.value.user
  {
    if session.Some? then Some(session.value.user) else None
  }

  /** `redirectIfAuthenticated`: with a session, to `/admin`; without one, nothing happens. */
  function RedirectIfAuthenticated(session: Option<Session>): (r: Gate<()>)
    ensures r.Redirect? <==> session.Some?
    ensures r.Redirect? ==> r.location == AdminPath
  {
    if session.Some? then Redirect(AdminPath) else Proceed(())
  }

  /** A session without a role passes `requireAuth()` and fails `requireAuth(role)` for every role. */
  lemma RolelessSessionGates(session: Session, role: Role)
    requires session.user.role.None?
    ensures RequireAuth(Some(session), None) == Proceed(session.user)
    ensures RequireAuth(Some(session), Some(role)) == Redirect(UnauthorizedPath)
  {
  }

  /** The gates agree: whoever `requireAuth()` lets through, `redirectIfAuthenticated` sends to `/admin`. */
  lemma GatesAgree(session: Option<Session>)
    ensures RequireAuth(session, None).Proceed? <==> RedirectIfAuthenticated(session).Redirect?
    ensures RequireAuth(session, None).Proceed? <==> GetCurrentUser(session).Some?
  {
  }
}
