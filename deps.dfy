/**
 * The route dependencies of the backend: `reusable_oauth2` takes the token
 * from the `Authorization` header, `get_current_user` turns it into the
 * stored, active user it names, and `get_current_active_superuser`
 * additionally demands the superuser flag. Signature checking and expiry of
 * the JWT are outside the model: `jwt.decode` is a parameter `decode` that
 * maps the token to its claims, or to `Undecodable`.
 */
module Deps {
  import opened Common
  import opened Models
  import opened Text
  import Url

  /** The `sub` claim as `TokenPayload` sees it: missing, a string naming an id, or not a string. */
  datatype SubClaim = NoSub | Sub(id: Id) | SubNotString

  /** The outcome of `jwt.decode`: an `InvalidTokenError`, or the claims. */
  datatype DecodedToken = Undecodable | Claims(sub: SubClaim)

  const NotAuthenticatedDetail := "Not authenticated"
  const CredentialsDetail := "Could not validate credentials"
  const UserNotFoundDetail := "User not found"
  const InactiveUserDetail := "Inactive user"
  const NotEnoughPrivilegesDetail := "The user doesn't have enough privileges"

  /**
   * `OAuth2PasswordBearer` (`reusable_oauth2`): 401 "Not authenticated" for a
   * missing or empty header and for a scheme other than `Bearer`; the scheme
   * is the text before the first space, compared without case, and the token
   * is everything after that space (empty when there is none).
   */
  function BearerCredentials(authorization: Option<string>): (r: Result<string>)
    ensures authorization.None? ==> r == Err(HttpError(Unauthorized, NotAuthenticatedDetail))
    ensures r.Ok? <==> authorization.Some? && Lower(Url.BeforeFirst(authorization.value, ' ')) == "bearer"
    ensures r.Err? ==> r.error == HttpError(Unauthorized, NotAuthenticatedDetail)
  {
    if authorization.None? || Lower(Url.BeforeFirst(authorization.value, ' ')) != "bearer" then
      Err(HttpError(Unauthorized, NotAuthenticatedDetail))
    else Ok(Url.AfterFirst(authorization.value, ' '))
  }

  /** `Bearer <token>`, in any letter case, yields exactly the token; an empty header or another scheme yields the 401. */
  lemma BearerCredentialsCases(scheme: string, token: string)
    requires ' ' !in scheme
    ensures Lower(scheme) == "bearer" ==> BearerCredentials(Some(scheme + " " + token)) == Ok(token)
    ensures Lower(scheme) != "bearer" ==> BearerCredentials(Some(scheme + " " + token)).Err?
    ensures BearerCredentials(Some("")).Err?
  {
    assert scheme + " " + token == scheme + [' '] + token;
    Url.FirstSplit(scheme, ' ', token);
    assert Lower("") == "";
  }

  /** The token could be decoded and its payload validated. */
  predicate PayloadValid(token: DecodedToken)
  {
    token.Claims? && !token.sub.SubNotString?
  }

  /**
   * The body of `get_current_user` once it has a token: 403 for a bad token
   * or payload, 404 when no user has the id, a failed `User(**user_data)` as
   * a 500, 400 for an inactive user.
   */
  function UserForToken(users: map<Id, User>, token: DecodedToken): (r: Result<User>)
    ensures !PayloadValid(token) ==> r == Err(HttpError(Forbidden, CredentialsDetail))
    ensures PayloadValid(token) && (token.sub.NoSub? || token.sub.id !in users) ==>
              r == Err(HttpError(NotFound, UserNotFoundDetail))
    ensures PayloadValid(token) && token.sub.Sub? && token.sub.id in users ==>
              (!users[token.sub.id].Valid() ==> r.Err? && r.error.status == InternalServerError)
              && (users[token.sub.id].Valid() && !users[token.sub.id].isActive ==>
                    r == Err(HttpError(BadRequest, InactiveUserDetail)))
    ensures r.Ok? <==> token.Claims? && token.sub.Sub? && token.sub.id in users
                       && users[token.sub.id].Valid() && users[token.sub.id].isActive
    ensures r.Ok? ==> r.value == users[token.sub.id]
    ensures r.Err? ==> r.error.status != Unauthorized
  {
    if !PayloadValid(token) then Err(HttpError(Forbidden, CredentialsDetail))
    else if token.sub.NoSub? || token.sub.id !in users then Err(HttpError(NotFound, UserNotFoundDetail))
    else
      var user := users[token.sub.id];
      if !user.Valid() then Err(ServerError)
      else if !user.isActive then Err(HttpError(BadRequest, InactiveUserDetail))
      else Ok(user)
  }

  /**
   * `get_current_user` with its `TokenDep`: the header check runs first, so
   * its 401 precedes the 403/404/500/400 of the token; then the decoded
   * token decides.
   */
  function GetCurrentUser(users: map<Id, User>, authorization: Option<string>, decode: string -> DecodedToken): (r: Result<User>)
    ensures BearerCredentials(authorization).Err? ==> r == Err(HttpError(Unauthorized, NotAuthenticatedDetail))
    ensures BearerCredentials(authorization).Ok? ==> r == UserForToken(users, decode(BearerCredentials(authorization).value))
  {
    match BearerCredentials(authorization)
    case Err(e) => Err(e)
    case Ok(token) => UserForToken(users, decode(token))
  }

  /** The backend answers 401 exactly when the request carries no usable `Bearer` header. */
  lemma UnauthorizedIffNoBearer(users: map<Id, User>, authorization: Option<string>, decode: string -> DecodedToken)
    ensures (GetCurrentUser(users, authorization, decode).Err?
             && GetCurrentUser(users, authorization, decode).error.status == Unauthorized)
            <==> BearerCredentials(authorization).Err?
  {
  }

  /** `get_current_active_superuser`: 403 unless the current user is a superuser. */
  function GetCurrentActiveSuperuser(current: User): (r: Result<User>)
    ensures r.Ok? <==> current.isSuperuser
    ensures r.Ok? ==> r.value == current
    ensures r.Err? ==> r.error == HttpError(Forbidden, NotEnoughPrivilegesDetail)
  {
    if !current.isSuperuser then Err(HttpError(Forbidden, NotEnoughPrivilegesDetail))
    else Ok(current)
  }

  /** The superuser routes run their dependencies in order: the header and token first, then the flag. */
  function SuperuserDependency(users: map<Id, User>, authorization: Option<string>, decode: string -> DecodedToken): (r: Result<User>)
    ensures GetCurrentUser(users, authorization, decode).Err? ==> r == GetCurrentUser(users, authorization, decode)
    ensures r.Ok? <==> GetCurrentUser(users, authorization, decode).Ok?
                       && GetCurrentUser(users, authorization, decode).value.isSuperuser
  {
    match GetCurrentUser(users, authorization, decode)
    case Err(e) => Err(e)
    case Ok(u) => GetCurrentActiveSuperuser(u)
  }
}
