# Users and items admin: backend store, auth gates and admin UI logic

This project models the core of a full-stack template: a FastAPI service over
MongoDB that stores users and their items, and the Next.js admin UI that talks
to it.

**Backend**
- The `users` and `items` collections form one `Backend.Store` class. Each
  route handler of `users.py`, `items.py` and `private.py`, each write of
  `crud.py` and the superuser seeding of `init_db` is a method that updates the
  two maps in place. Each method states its guards (status code and detail),
  its new state and what it leaves unchanged.
- The central invariant is that no two users share an e-mail address
  (`StoreSpec.EmailsUnique`). Every admin and signup write preserves it. The
  private endpoint does not.
- Item listing is specified by a set of matching ids, a newest-first order and
  a skip/limit page.
- The dependency chain `reusable_oauth2` / `get_current_user` /
  `get_current_active_superuser` is modelled in `Deps`, from the 401 for a
  missing `Bearer` header to the superuser flag. Field constraints and defaults of the Pydantic models are
  in `Models`.
- Status codes are those of section 15.5 of RFC 9110. The token's `sub` is the
  subject claim of section 4.1.2 of RFC 7519.

**Front end**
- `ServerAuth`: the session gates `requireAuth`, `getCurrentUser` and
  `redirectIfAuthenticated`. A redirect is a returned value.
- `SignIn`: the `signIn` server action.
- `FormSchemas`: the zod schemas and the field errors they report.
- `ApiClient`: the axios interceptors. This covers cookie parsing, the bearer
  header of section 2.1 of RFC 6750, the 401 redirect rule and error wrapping.
  Cookie pairs follow a simplified `name=value; ...` reading of section 4.2.1
  of RFC 6265.
- `SiteHeader`: the page title and the avatar initials.
- `QueryHooks`: the `useUsers` / `useItems` hooks. This covers list URLs,
  `handleSearch` over a `URLSearchParams`, write requests and where they are
  routed, cache invalidation and confirm-then-delete.

**Helper modules**
- `Text`: JavaScript's `split`, `trim` and ASCII case mapping.
- `Url`: `encodeURIComponent` and the `application/x-www-form-urlencoded`
  serialisation of the WHATWG URL standard, with their decoders and
  round-trip lemmas.

## Model

| member | source | states |
|---|---|---|
| Backend.Store.GetUserByEmail | backend/app/crud.py:37-44 | returns a stored user with exactly that address, and returns one iff the address is taken |
| Backend.Store.Authenticate | backend/app/crud.py:47-55 | returns None for an unknown address; with unique addresses, returns the stored holder iff the password verifies against its hash |
| Backend.Store.CrudCreateUser | backend/app/crud.py:9-18 | stores `NewUser` under a fresh id; the record keeps the input's fields and flags, its hash verifies the password and differs from it; nothing else changes |
| Backend.Store.CrudUpdateUser | backend/app/crud.py:21-34 | writes `MergeUserUpdate(dbUser, upd)` under the old id; other users and all items are unchanged |
| Backend.Store.CrudCreateItem | backend/app/crud.py:58-66 | stores `NewItem` with the given owner under a fresh id; users are unchanged |
| Backend.Store.ReadUsers | backend/app/api/routes/users.py:29-41 | callable only with a resolved superuser caller; `count` is the number of users whatever skip/limit are; `data` is the skip/limit page of a duplicate-free listing of exactly the stored users |
| Backend.Store.CreateUser | backend/app/api/routes/users.py:44-58 | callable only with a resolved superuser caller; 422 for an invalid body; 400 and nothing stored for a taken address; otherwise stores `NewUser`; Ok iff valid and not taken; keeps addresses unique |
| Backend.Store.UpdateUserMe | backend/app/api/routes/users.py:78-89 | 409 when another user holds the new address (keeping one's own is allowed); otherwise writes only the given fields of the caller; other users unchanged; keeps addresses unique |
| Backend.Store.UpdatePasswordMe | backend/app/api/routes/users.py:99-113 | 400 "Incorrect password" first, then 400 for a new password equal to the current one; otherwise only the caller's hash changes, to a hash of the new password |
| Backend.Store.ReadUserMe | backend/app/api/routes/users.py:116-121 | returns the stored record of the caller |
| Backend.Store.DeleteUserMe | backend/app/api/routes/users.py:129-135 | 403 for a superuser with nothing removed; otherwise removes exactly the caller; items unchanged |
| Backend.Store.RegisterUser | backend/app/api/routes/users.py:143-151 | as evidently intended: 422 for an invalid body; 400 and nothing stored for a taken address; otherwise stores a user with the default flags; Ok iff valid and not taken; keeps addresses unique |
| Backend.Store.RegisterUserAsWritten | backend/app/api/routes/users.py:143-151 | as written: 422 for an invalid body, 400 for a taken address, and a 500 with nothing stored for every valid, free sign-up (line 149) |
| Backend.Store.ReadUserById | backend/app/api/routes/users.py:159-173 | 404 for an absent id; the caller's own id always succeeds; a non-superuser reading another user gets 403; Ok iff present and (self or superuser) |
| Backend.Store.UpdateUser | backend/app/api/routes/users.py:176-208 | callable only with a resolved superuser caller; 404 for an absent id; 409 when a different user holds the new address; otherwise writes `MergeUserUpdate`; other users unchanged; keeps addresses unique |
| Backend.Store.DeleteUser | backend/app/api/routes/users.py:216-232 | 404 for an absent id, 403 for oneself; otherwise removes that user and exactly the items it owns; nothing changes on an error |
| Backend.Store.ReadItems | backend/app/api/routes/items.py:32-67 | the listing holds exactly the visible items that match the search, newest first; `count` is their number whatever skip/limit are; `data` is the skip/limit page |
| Backend.Store.ReadItem | backend/app/api/routes/items.py:75-84 | 404 for an absent id; 400 when a non-superuser is not the owner; otherwise the stored item |
| Backend.Store.CreateItem | backend/app/api/routes/items.py:94-99 | 422 for an invalid body; otherwise stores a new item owned by the caller; users unchanged |
| Backend.Store.UpdateItem | backend/app/api/routes/items.py:113-128 | the access errors of `CheckItemAccess`; otherwise only the given fields of that one item change, owner and creation time kept |
| Backend.Store.DeleteItem | backend/app/api/routes/items.py:136-148 | the access errors of `CheckItemAccess`; otherwise removes exactly the addressed item |
| Backend.Store.PrivateCreateUser | backend/app/api/routes/private.py:27-37 | as evidently intended: stores `PrivateUser` under a fresh id without any address check and returns it as stored |
| Backend.Store.PrivateCreateUserAsWritten | backend/app/api/routes/private.py:27-37 | as written: every request is a 500 and nothing is stored (line 33 inserts a model, not a mapping) |
| Backend.Store.InitDb | backend/app/core/db.py:9-18 | changes nothing when the superuser address is taken; otherwise creates exactly one superuser with that address; keeps addresses unique |
| Backend.PrivateCreateBreaksUniqueness | backend/app/api/routes/private.py:21-37 | a store with unique addresses gets a second holder of an address through the private endpoint |
| Backend.TestBodiesAccepted | backend/app/tests/api/routes/test_private.py:11-18 | the private-endpoint test's body, and a sign-up body of the same shape as in test_users.py, are valid and free, so the intended handlers store them |
| StoreSpec.StorePreservesUniqueness | backend/app/api/routes/users.py:78-84 | writing a user whose address no other user holds keeps addresses unique |
| StoreSpec.UniqueHolder | backend/app/api/routes/users.py:197-203 | with unique addresses, no other user holds a stored user's own address |
| StoreSpec.NewUser | backend/app/crud.py:10-11 | the record takes the input's address, name and flags; its hash verifies the password and is never the plaintext; a valid input gives a valid record |
| StoreSpec.PrivateUser | backend/app/api/routes/private.py:27-31 | address and name from the input, hashed password, active and not a superuser by the model defaults |
| StoreSpec.PrivateUserIgnoresVerified | backend/app/api/routes/private.py:14-18 | `is_verified` has no effect on the stored record |
| StoreSpec.MergeUserUpdate | backend/app/crud.py:24-29 | the id is kept; each unset field keeps its old value; each set field takes the new one; a given password replaces the hash; valid inputs give a valid record |
| StoreSpec.MergeUserUpdateMe | backend/app/api/routes/users.py:86-87 | only name and address may change; id, flags and hash are kept |
| StoreSpec.NewItem | backend/app/api/routes/items.py:94-96 | the new item takes the title and description, the owner and the creation time |
| StoreSpec.MergeItemUpdate | backend/app/api/routes/items.py:124-126 | id, owner and creation time kept; only the given fields change |
| StoreSpec.WithoutItemsOf | backend/app/api/routes/users.py:230 | keeps exactly the items of other owners, unchanged |
| StoreSpec.MatchingIds | backend/app/api/routes/items.py:32-54 | only the caller's items for a non-superuser and every item for a superuser; with a search, only items whose title or description match it case-insensitively |
| StoreSpec.InsertNewestFirst | backend/app/api/routes/items.py:60-61 | inserting into a newest-first list keeps it newest first and adds exactly that item |
| StoreSpec.Page | backend/app/api/routes/items.py:60-62 | the page is `s[skip..]` cut to `limit` elements, with `limit` 0 meaning no limit |
| StoreSpec.ListingLength | backend/app/api/routes/items.py:57-62 | a listing's length equals the number of matching ids, so `count` is the listing's size |
| StoreSpec.CheckItemAccess | backend/app/api/routes/items.py:75-83 | 404 "Item not found" for an absent id, 400 "Not enough permissions" for a non-owner non-superuser, otherwise the item |
| StoreSpec.SeedSuperuser | backend/app/core/db.py:9-18 | unchanged when the address is taken; otherwise adds exactly one superuser with that address |
| StoreSpec.SeedIdempotent | backend/app/core/db.py:9-18 | seeding twice gives the same users as seeding once |
| StoreSpec.SeedCreatesOneSuperuser | backend/app/core/db.py:11-18 | after seeding exactly one user holds the address; it is a superuser and its hash verifies the configured password |
| Deps.BearerCredentials | backend/app/api/deps.py:12-14 | 401 "Not authenticated" iff the header is missing or its scheme (before the first space, any letter case) is not `bearer`; otherwise the text after the space |
| Deps.BearerCredentialsCases | backend/app/api/deps.py:26 | `<scheme> <token>` gives exactly the token when the scheme is `bearer` in any case, and the 401 for another scheme or an empty header |
| Deps.UserForToken | backend/app/api/deps.py:30-52 | 403 for an undecodable token or invalid payload, then 404 for an unknown `sub`, then 400 for an inactive user; on success the user stored under `sub` |
| Deps.GetCurrentUser | backend/app/api/deps.py:26-52 | the header's 401 comes first; otherwise the outcome of the decoded token |
| Deps.UnauthorizedIffNoBearer | backend/app/api/deps.py:26-29 | the current-user dependency answers 401 exactly when there is no usable `Bearer` header |
| Deps.GetCurrentActiveSuperuser | backend/app/api/deps.py:58-64 | 403 for a non-superuser; otherwise the same user unchanged |
| Deps.SuperuserDependency | backend/app/api/deps.py:55-64 | the header's and the token's errors come first; Ok iff the token resolves to a superuser |
| Models.UserRegister.ToUserCreate | backend/app/models.py:50-53 | the sign-up body takes the default flags and keeps its fields; a valid body stays valid |
| Models.NewToken | backend/app/models.py:167-169 | the token type defaults to "bearer" |
| Models.ValidateObjectId | backend/app/models.py:32-36 | accepts exactly the values `ObjectId.is_valid` accepts, unchanged; otherwise a 422 |
| Models.UpdatesMayBeEmpty | backend/app/models.py:56-66 | an update body with no field set is valid |
| Security.PasswordHash | backend/app/crud.py:10-11 | the stored hash is never the plaintext |
| Security.VerifyHashed | backend/app/crud.py:47-55 | a password verifies against a hash iff it is the hashed password |
| FormSchemas.LoginErrors | frontend/lib/validations/auth.ts:3-10 | only `email` and `password` can fail; no errors iff both fields pass all their checks |
| FormSchemas.LoginValidIff | frontend/lib/validations/auth.ts:3-10 | the login form accepts exactly a non-empty formatted address and a 6 to 255 character password |
| FormSchemas.LoginEmptyFields | frontend/lib/validations/auth.ts:4-6 | empty fields report "Email is required" / "Password is required" |
| FormSchemas.ResponseSchemasIff | frontend/lib/validations/auth.ts:14-26 | `authResponseSchema` needs string `message` and `token` and a user object with string `id`, formatted `email` and optional string `name` |
| FormSchemas.UserCreateErrors | frontend/lib/validations/user.ts:3-9 | no errors iff address, name of 3+, optional boolean `is_superuser`, required boolean `is_active` and password of 3+ all pass |
| FormSchemas.UserUpdateErrors | frontend/lib/validations/user.ts:11-16 | no errors iff the address is formatted; every other field may be absent |
| FormSchemas.ProfileErrors | frontend/lib/validations/user.ts:18-23 | no errors iff a formatted address and a name of at least 2 characters |
| FormSchemas.PasswordFieldErrors | frontend/lib/validations/user.ts:25-34 | no field errors iff current password 1+, new and confirmation 8+ |
| FormSchemas.PasswordFormErrors | frontend/lib/validations/user.ts:35-38 | differing new passwords report "Passwords don't match." on `confirm_password` |
| FormSchemas.PasswordFormValidIff | frontend/lib/validations/user.ts:25-38 | the form accepts exactly a current password of 1+ and two equal new passwords of 8+ |
| FormSchemas.ItemErrors | frontend/lib/validations/item.ts:3-10 | only `title` and `description` are constrained; no errors iff a non-empty title and a 3 to 2000 character description |
| FormSchemas.CreatePasswordLooserThanBackend | frontend/lib/validations/user.ts:8 | a 3-character password passes the form and fails the backend's 8-character minimum |
| FormSchemas.DescriptionLooserThanBackend | frontend/lib/validations/item.ts:9 | a 256-character description passes the form and fails the backend's 255 maximum |
| FormSchemas.DescriptionStricterThanBackend | frontend/lib/validations/item.ts:5-8 | a missing description fails the form but passes the backend |
| FormSchemas.NewPasswordHasNoMaximum | frontend/lib/validations/user.ts:28-33 | a 41-character new password passes the form and fails the backend's 40 maximum |
| ServerAuth.GetSession | frontend/lib/session.ts:44-58 | no session without a non-empty cookie; otherwise the signature check's verdict |
| ServerAuth.RequireAuth | frontend/lib/server-auth.ts:8-20 | to `/sign-in` without a session; to `/unauthorized` when a demanded role differs from the session's, an absent one included; proceeds iff neither, with the session's user |
| ServerAuth.GetCurrentUser | frontend/lib/server-auth.ts:26-29 | the session's user iff there is a session; never redirects |
| ServerAuth.RedirectIfAuthenticated | frontend/lib/server-auth.ts:35-41 | redirects to `/admin` iff there is a session |
| ServerAuth.RolelessSessionGates | frontend/lib/server-auth.ts:15-19 | a session without a role passes `requireAuth()` and is refused by `requireAuth(role)` for every role |
| ServerAuth.GatesAgree | frontend/lib/server-auth.ts:8-41 | `requireAuth()` proceeds exactly when `redirectIfAuthenticated` redirects and `getCurrentUser` yields a user |
| SignIn.SignIn | frontend/lib/actions/auth.ts:9-43 | invalid input returns the raw data and field errors without calling the backend; a refused login returns "Invalid Credentials"; otherwise a session of id, name, address and token, then a redirect to `/admin` |
| SignIn.SignedInOnlyWithValidForm | frontend/lib/actions/auth.ts:14-20 | signing in implies string fields with a formatted address and a 6 to 255 character password |
| SignIn.MissingFieldReported | frontend/lib/actions/auth.ts:10-16 | a missing entry is reported on its own field |
| SignIn.SignedInSessionHasNoRole | frontend/lib/actions/auth.ts:33-40 | the stored session passes `requireAuth()` and is sent to `/unauthorized` by `requireAuth(role)` |
| ApiClient.ApiUrl | frontend/lib/axios.ts:4 | the default base URL only when the variable is unset |
| ApiClient.RequestConfig.constructor | frontend/lib/axios.ts:6-12 | a request starts with the JSON content-type header |
| ApiClient.ParseCookies | frontend/lib/axios.ts:19-23 | the record is the left fold over the `;`-pieces of the cookie string |
| ApiClient.ReduceCookies | frontend/lib/axios.ts:21-23 | the `reduce` loop builds the left fold of the pieces, one piece per step |
| ApiClient.FoldViaEntries | frontend/lib/axios.ts:21-23 | folding the pieces is folding their (key, value) entries in order |
| ApiClient.CookiePair | frontend/lib/axios.ts:20 | a trimmed `name=value[=...]` piece gives key `name` and value `value` |
| ApiClient.CookieWithoutValue | frontend/lib/axios.ts:20 | a piece without `=` gives its trimmed text as key and an undefined value |
| ApiClient.EntryKeysPresent | frontend/lib/axios.ts:21-23 | every entry's key is in the folded record |
| ApiClient.EntryKeysFromEntries | frontend/lib/axios.ts:21-23 | every key of the folded record comes from some entry |
| ApiClient.LastEntryWins | frontend/lib/axios.ts:21 | an entry not followed by one with the same key decides that key's value |
| ApiClient.CookieKeys | frontend/lib/axios.ts:19-23 | a key is in the record iff some piece has that key |
| ApiClient.LastWriterWins | frontend/lib/axios.ts:21 | the last piece with a key decides that key's value |
| ApiClient.BearerRoundTrip | frontend/lib/axios.ts:32 | the backend's `Bearer` reading (`Deps.BearerCredentials`) gives back exactly the token the interceptor wrote |
| ApiClient.RequestInterceptor | frontend/lib/axios.ts:14-37 | cookies are parsed iff in a browser; `Authorization` is set to `Bearer` plus the token iff in a browser with a non-empty token; otherwise the headers are unchanged |
| ApiClient.Wrap | frontend/lib/axios.ts:39 | the result is an `Error`; an `Error` passes through; anything else becomes `Error(String(e))` |
| ApiClient.WrapIdempotent | frontend/lib/axios.ts:62 | wrapping twice is wrapping once |
| ApiClient.OnRequestError | frontend/lib/axios.ts:38-40 | rejects with an `Error` carrying the same text |
| ApiClient.OnResponseError | frontend/lib/axios.ts:47-63 | navigates to `/sign-in` iff a 401 in a browser off a `/sign-in` path; always rejects with the wrapped error |
| ApiClient.NoRedirectLoop | frontend/lib/axios.ts:52 | no navigation on any path containing `/sign-in` |
| ApiClient.OnlyUnauthorizedNavigates | frontend/lib/axios.ts:48-60 | other statuses, request-only errors and plain errors never navigate |
| SiteHeader.PageTitle | frontend/components/site-header.tsx:28-49 | "Dashboard" for a missing or empty path or one without segments; otherwise the last segment's title; never empty |
| SiteHeader.LastSegmentDecides | frontend/components/site-header.tsx:46-48 | only the last segment decides the title |
| SiteHeader.TrailingSlashIgnored | frontend/components/site-header.tsx:32 | a trailing slash does not change the title |
| SiteHeader.KnownSegmentTitle | frontend/components/site-header.tsx:39-48 | admin, items, users and settings (and only they) get their mapped titles; other segments are capitalised |
| SiteHeader.UserInitialsAsWritten | frontend/components/site-header.tsx:51-60 | "U" for a missing or empty name |
| SiteHeader.TrailingSpaceShowsUndefined | frontend/components/site-header.tsx:54-56 | the name "Ada " shows "AUNDEFINED" |
| SiteHeader.SpaceOnlyNameThrows | frontend/components/site-header.tsx:54-56 | the name " " throws a TypeError |
| SiteHeader.UserInitials | frontend/components/site-header.tsx:51-60 | "U" without words; otherwise one or two upper-case characters |
| SiteHeader.TwoWordInitials | frontend/components/site-header.tsx:55-56 | two words give the upper-cased first letters of each |
| SiteHeader.WordsInitials | frontend/components/site-header.tsx:51-60 | for words joined by single spaces: one word gives its first two characters, two or more give the first letters of the first and the last word, upper-cased |
| SiteHeader.InitialsAgreeWithoutEmptyParts | frontend/components/site-header.tsx:54-58 | without empty parts the code as written and the corrected initials agree |
| QueryHooks.ListUrl | frontend/hooks/use-user-query.ts:29-33 | the bare path for an empty search, else `?q=` and the encoded text |
| QueryHooks.ListUrlCarriesSearch | frontend/hooks/use-item-query.ts:25-29 | the list URL's query parses back to exactly `q` and the search text |
| QueryHooks.FormDecodeUriComponent | frontend/hooks/use-user-query.ts:31 | form decoding on the server undoes `encodeURIComponent` |
| QueryHooks.InitialSearch | frontend/hooks/use-user-query.ts:17 | the page's `q` parameter, or "" |
| QueryHooks.HandleSearch | frontend/hooks/use-user-query.ts:40-54 | the pushed path is the pathname and the copied parameters with `q` set or deleted, with `?` only when any remain |
| QueryHooks.PathWithParams | frontend/hooks/use-item-query.ts:48 | no parameters give the bare pathname |
| QueryHooks.SearchSurvivesReload | frontend/hooks/use-item-query.ts:40-45 | after a search, `q` reads back as the query and every other parameter is kept |
| QueryHooks.PathParamsRoundTrip | frontend/hooks/use-user-query.ts:52 | the pushed path's query parses back to the parameters |
| QueryHooks.SearchPathRestoresQuery | frontend/hooks/use-user-query.ts:17 | reloading the pushed path starts with the same search text |
| QueryHooks.Invalidated | frontend/hooks/use-user-query.ts:59 | same keys and data; exactly the stale entries and the written entity's entries are stale |
| QueryHooks.InvalidateFacts | frontend/hooks/use-item-query.ts:55 | invalidation is idempotent and leaves the other entity's entries as they were |
| QueryHooks.QueryCache.Invalidate | frontend/hooks/use-user-query.ts:74 | the cache becomes `Invalidated` of its old entries |
| QueryHooks.RunMutation | frontend/hooks/use-item-query.ts:52-91 | sends the write's request; on success invalidates its entity and navigates (deletes stay); on failure changes nothing |
| QueryHooks.ConfirmDelete | frontend/hooks/use-user-query.ts:130-134 | the delete is sent iff confirmed; the cache changes only after a confirmed success |
| QueryHooks.WritesReachTheirHandlers | backend/app/api/routes/users.py:71-92 | every write the hooks send is routed to the handler it is meant for |
| QueryHooks.PathSegments | frontend/hooks/use-user-query.ts:72 | a request path splits back into its segments |
| Url.SearchParams.constructor | frontend/hooks/use-user-query.ts:44 | the entries are the parsed query string |
| Url.SearchParams.Set | frontend/hooks/use-user-query.ts:46 | the entries become `SetParam` of the old ones |
| Url.SearchParams.Delete | frontend/hooks/use-user-query.ts:48 | the entries become `DeleteParam` of the old ones |
| Url.SearchParams.ToString | frontend/hooks/use-user-query.ts:52 | the string is empty iff there are no entries |
| Url.SetParamSpec | frontend/hooks/use-user-query.ts:46 | after `set`, the name reads back as the value and the other entries are unchanged |
| Url.DeleteParamSpec | frontend/hooks/use-user-query.ts:48 | after `delete`, the name is absent; deleting is idempotent |
| Url.SerializeParseRoundTrip | frontend/hooks/use-user-query.ts:44 | parsing a serialised parameter list gives the list back |
| Url.UriComponentRoundTrip | frontend/hooks/use-item-query.ts:27 | decoding `encodeURIComponent(s)` gives `s` |
| Url.FormRoundTrip | frontend/hooks/use-item-query.ts:48 | form-decoding the form encoding of `s` gives `s` |

## Left out

- Password hashing (bcrypt), JWT decoding and HS256 session signing are
  abstract. The hash is an injective stand-in that never equals its input.
  JWT decoding is a function parameter `decode` of `Deps.GetCurrentUser`. Session verification is a function
  parameter of `GetSession`. `createSession` and the 7-day expiry are kept
  only as constants.
- MongoDB and motor I/O are operations on two maps. Ids are one abstract
  `nat` type handed out by a counter; the ObjectId, UUID4 and string forms
  of an id are not distinguished.
- The `$regex` search is modelled as a case-insensitive substring match.
  Regular-expression metacharacters in `q` are not modelled.
- The `Item` collection methods that `items.py` calls (`count`, `find`,
  `find_one`, `update_many`, `save`, `delete`) are not defined in
  `models.py`. They are modelled by their evident collection meaning.
- Clocks: `created_at` is a `now` parameter of item creation, and
  `updated_at` is not modelled.
- Sending e-mail after `create_user` (users.py:59-67) is I/O and is not
  modelled.
- The path parameter types (UUID4 for users, `PyObjectId` for items) are not
  checked on routes. `ValidateObjectId` models the validator alone. As
  written, `read_user_by_id`, `update_user` and `delete_user` declare
  `user_id: UUID4` (backend/app/api/routes/users.py:155, 184, 212), while
  `crud.create_user` stores users under the ObjectIds MongoDB generates; an
  ObjectId's 24 hex digits are not a UUID, so those three routes answer 422
  for the id of every user the backend created and can never reach one. The
  model lets them reach users by id, as evidently intended.
- Backend.Store.ReadUsers and Backend.Store.ReadItems: `skip` and `limit` are
  required parameters, while the routes default them to 0 and 100
  (users.py:34, items.py:24); a request without `limit` gets at most 100
  rows.
- A failed body validation is one `422` value. The detail list of the
  validation errors is not modelled.
- An explicit JSON `null` in an update body is treated as an unset field.
- Negative `skip` / `limit` are not modelled: both are `nat`, and `limit` 0
  means no limit.
- The network clients (`user-service.ts`, `auth-service.ts`,
  `api-request.ts`) are not modelled. The login answer is a parameter of
  `SignIn.SignIn`.
- React-query's stale time, retries and request sharing, toasts, the router's
  history and all JSX/UI rendering are not modelled. This includes the logout
  handler of the site header, `admin/layout.tsx`, `middleware.ts` and the
  settings tabs.
- Case mapping and percent-encoding are ASCII-only: non-ASCII characters
  keep their case and pass through unencoded, and UTF-8 encoding is not
  modelled. Trimming removes the full set of white space and line
  terminators that `String.prototype.trim` removes, including the non-ASCII
  ones (`Text.IsJsSpace`).
- The e-mail syntax of `EmailStr` and zod's `.email()` is one stand-in
  predicate (`Models.EmailFormat`).
- `titleMap` is a plain object, so a last segment such as `constructor`
  would hit an inherited property. The model maps only the four own keys.
- The cookie record that the request interceptor builds is only logged. The
  model returns it and nothing else uses it.
- `actions/auth.ts` imports `LoginFormSchema` while `validations/auth.ts`
  exports `loginSchema`. They are modelled as the same schema.
- The backend's login answer `Token` has only `access_token` and
  `token_type`, so the `id`, `full_name` and `email` that `signIn` stores
  are absent in practice. `SignIn.LoginResponse` keeps them as optional
  fields.
- Route matching is modelled modulo the trailing slash: `POST /users` and
  `POST /items` reach the routes declared as `/` through the framework's
  redirect.
- Self-deletion (`delete_user_me`, backend/app/api/routes/users.py:134)
  removes the caller but not the caller's items, unlike the admin delete;
  the model keeps that behaviour and leaves the orphaned items in place.
- Backend.Store.UpdateUserMe: the 409 guarantee is stated assuming addresses
  are unique. After the private endpoint has stored a duplicate, the first
  holder the lookup picks decides.
- Backend.Store.UpdateUser: the same, for the admin update's 409.
- Backend.Store.GetUserByEmail: with duplicate addresses, which holder is
  returned is left open, as `find_one` does.
- Backend.Store.Authenticate: the iff with password verification is stated
  only under unique addresses; with duplicates, only the picked holder's hash
  is checked.
- SiteHeader.UserInitialsAsWritten: its own contract states only the empty
  name. Its behaviour on other names is pinned down by
  `TrailingSpaceShowsUndefined`, `SpaceOnlyNameThrows` and
  `InitialsAgreeWithoutEmptyParts`.

## Findings

| source | as written | input that shows it | evidently intended | confidence | as-written member | corrected member |
|---|---|---|---|---|---|---|
| frontend/components/site-header.tsx:54-56 | takes `part[0]` of the first and last space-separated parts even when a part is empty | the name "Ada " shows "AUNDEFINED"; the name " " throws a TypeError (`undefined + undefined` is `NaN`) | ignore empty parts: initials from the first and last non-empty words, "U" when there are none | not executed | SiteHeader.UserInitialsAsWritten (with SiteHeader.TrailingSpaceShowsUndefined, SiteHeader.SpaceOnlyNameThrows) | SiteHeader.UserInitials (with SiteHeader.WordsInitials, SiteHeader.TwoWordInitials, SiteHeader.InitialsAgreeWithoutEmptyParts) |
| backend/app/api/routes/users.py:149 | `UserCreate.model_validate(user_in)` is given a `UserRegister` instance; pydantic 2 accepts only a mapping or a `UserCreate` there unless `from_attributes` is set, which no model does | any valid sign-up to a free address, e.g. the body of the sign-up test: the `ValidationError` is not a request error, so the answer is 500 and nothing is stored | build the `UserCreate` from the registration's fields and store the user with the default flags | not executed | Backend.Store.RegisterUserAsWritten (with Backend.TestBodiesAccepted) | Backend.Store.RegisterUser |
| backend/app/api/routes/private.py:33 | `insert_one(user)` is given the pydantic `User` object; pymongo accepts only a mapping as a document | the body of the private-endpoint test (`pollo@listo.com`): a `TypeError`, so a 500 and nothing stored | insert the user as a document (`user.model_dump()`) and return it | not executed | Backend.Store.PrivateCreateUserAsWritten (with Backend.TestBodiesAccepted) | Backend.Store.PrivateCreateUser |
