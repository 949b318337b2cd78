/**
 * The backend's users and items collections and the route handlers of
 * `users.py`, `items.py` and `private.py`, the writes of `crud.py` and
 * `init_db`, as a `Store` whose methods update the two maps in place.
 *
 * A handler that FastAPI calls with a `CurrentUser`, or that is declared
 * behind `get_current_active_superuser`, takes `caller`, the user
 * `get_current_user` resolved (`Resolved(caller)`); a handler behind
 * `get_current_active_superuser` also requires `caller.isSuperuser`. The
 * dependencies run before the body is validated, so a 403/404/400 from them
 * precedes any 422, and a handler's own guards follow the 422.
 */
module Backend {
  import opened Common
  import opened Models
  import opened StoreSpec
  import Security

  datatype UsersPage = UsersPage(data: seq<User>, count: nat)
  datatype ItemsPage = ItemsPage(data: seq<Item>, count: nat)

  /** How `init_db` ends: the address was already taken, a superuser was created, or `UserCreate` rejected the settings. */
  datatype SeedOutcome = AlreadySeeded | Seeded(user: User) | InvalidSettings

  const EmailExistsDetail := "The user with this email already exists in the system."
  const SignupEmailExistsDetail := "The user with this email already exists in the system"
  const EmailConflictDetail := "User with this email already exists"
  const IncorrectPasswordDetail := "Incorrect password"
  const SamePasswordDetail := "New password cannot be the same as the current one"
  const UserNotFoundDetail := "User not found"
  const NoSuchUserDetail := "The user with this id does not exist in the system"
  const NotEnoughPrivilegesDetail := "The user doesn't have enough privileges"
  const SelfDeleteDetail := "Super users are not allowed to delete themselves"
  const PasswordUpdatedMessage := "Password updated successfully"
  const UserDeletedMessage := "User deleted successfully"
  const ItemDeletedMessage := "Item deleted successfully"

  class Store {
    /** `db.users`, by `_id`. */
    var users: Users
    /** `db.items`, by `_id`. */
    var items: Items
    /** The next id the database hands out; ids are never reused. */
    var nextId: Id

    /** Every document sits under its own id, below `nextId`, and every user record validates as `User`. */
    ghost predicate Valid()
      reads this
    {
      (forall k :: k in users ==> users[k].id == k && k < nextId && users[k].Valid())
      && (forall k :: k in items ==> items[k].id == k && k < nextId)
    }

    /** `caller` is what `get_current_user` returned for this request: stored, unchanged, active. */
    predicate Resolved(caller: User)
      reads this
    {
      caller.id in users && users[caller.id] == caller && caller.isActive
    }

    constructor ()
      ensures users == map[] && items == map[] && nextId == 0
      ensures Valid()
    {
      users := map[];
      items := map[];
      nextId := 0;
    }

    // -------------------------------------------------------------------------
    // crud.py

    /**
     * `crud.get_user_by_email`: the record `find_one` returns for the address,
     * or None when there is none or it does not validate. Which of several
     * holders `find_one` returns is not determined.
     */
    method GetUserByEmail(email: string) returns (r: Option<User>)
      requires Valid()
      ensures r.Some? ==> r.value.id in users && users[r.value.id] == r.value && r.value.email == email
      ensures r.Some? <==> EmailTaken(users, email)
    {
      if !EmailTaken(users, email) {
        return None;
      }
      var k :| k in users && users[k].email == email;
      var user := users[k];
      if !user.Valid() {
        return None;
      }
      return Some(user);
    }

    /** `crud.authenticate`: the stored user with that address whose hash the password verifies, or None. */
    method Authenticate(email: string, password: string) returns (r: Option<User>)
      requires Valid()
      ensures r.Some? ==> r.value.id in users && users[r.value.id] == r.value && r.value.email == email
                          && Security.VerifyPassword(password, r.value.hashedPassword)
      ensures !EmailTaken(users, email) ==> r.None?
      ensures EmailsUnique(users) ==>
                (r.Some? <==> exists k :: k in users && users[k].email == email
                                          && Security.VerifyPassword(password, users[k].hashedPassword))
    {
      var user := GetUserByEmail(email);
      if user.None? {
        return None;
      }
      if !Security.VerifyPassword(password, user.value.hashedPassword) {
        return None;
      }
      return user;
    }

    /** `crud.create_user`: stores the body without its password, under a fresh id, with the password's hash. */
    method CrudCreateUser(c: UserCreate) returns (u: User)
      requires Valid() && c.Valid()
      modifies this
      ensures Valid()
      ensures u == NewUser(old(nextId), c) && old(nextId) !in old(users)
      ensures users == old(users)[u.id := u] && items == old(items) && nextId == old(nextId) + 1
    {
      u := NewUser(nextId, c);
      users := users[nextId := u];
      nextId := nextId + 1;
    }

    /**
     * `crud.update_user`: the set fields replace the old ones, a non-empty
     * password is re-hashed, and the record is written back under its old id.
     */
    method CrudUpdateUser(dbUser: User, upd: UserUpdate) returns (u: User)
      requires Valid() && dbUser.id in users && dbUser.Valid() && upd.Valid()
      modifies this
      ensures Valid()
      ensures u == MergeUserUpdate(dbUser, upd)
      ensures users == old(users)[dbUser.id := u] && items == old(items) && nextId == old(nextId)
    {
      u := MergeUserUpdate(dbUser, upd);
      users := users[dbUser.id := u];
    }

    /** `crud.create_item`: the body stored under a fresh id with the given owner. */
    method CrudCreateItem(ic: ItemCreate, ownerId: Id, now: int) returns (it: Item)
      requires Valid()
      modifies this
      ensures Valid()
      ensures it == NewItem(old(nextId), ic, ownerId, now) && old(nextId) !in old(items)
      ensures items == old(items)[it.id := it] && users == old(users) && nextId == old(nextId) + 1
    {
      it := NewItem(nextId, ic, ownerId, now);
      items := items[nextId := it];
      nextId := nextId + 1;
    }

    // -------------------------------------------------------------------------
    // users.py

    /**
     * `read_users` (superusers only): `count` is every user, whatever `skip`
     * and `limit`; `data` is the `skip`/`limit` page of the collection in its
     * natural order, which `listing` stands for.
     */
    method ReadUsers(caller: User, skip: nat, limit: nat) returns (page: UsersPage, ghost listing: seq<User>)
      requires Valid() && Resolved(caller) && caller.isSuperuser
      ensures NoDuplicates(listing)
      ensures forall u :: u in listing <==> u.id in users && users[u.id] == u
      ensures page.count == |users|
      ensures page.data == Page(listing, skip, limit)
      ensures |page.data| == PageLength(page.count, skip, limit)
    {
      var all: seq<User> := [];
      var remaining := users.Keys;
      while remaining != {}
        invariant remaining <= users.Keys
        invariant |all| + |remaining| == |users|
        invariant NoDuplicates(all)
        invariant forall u :: u in all <==> u.id in users && u.id !in remaining && users[u.id] == u
        decreases |remaining|
      {
        var k :| k in remaining;
        var u := users[k];
        assert u !in all;
        assert multiset(all + [u]) == multiset(all) + multiset{u};
        all := all + [u];
        remaining := remaining - {k};
      }
      listing := all;
      page := UsersPage(Page(all, skip, limit), |users|);
    }

    /** `create_user` (superusers only): 422, then 400 for a taken address; otherwise `crud.create_user`. */
    method CreateUser(caller: User, body: UserCreate) returns (r: Result<User>)
      requires Valid() && Resolved(caller) && caller.isSuperuser
      modifies this
      ensures Valid()
      ensures !body.Valid() ==> r == Err(ValidationFailed)
      ensures body.Valid() && EmailTaken(old(users), body.email) ==>
                r == Err(HttpError(BadRequest, EmailExistsDetail))
      ensures r.Err? ==> users == old(users) && nextId == old(nextId)
      ensures r.Ok? <==> body.Valid() && !EmailTaken(old(users), body.email)
      ensures r.Ok? ==> r.value == NewUser(old(nextId), body) && users == old(users)[old(nextId) := r.value]
      ensures items == old(items)
      ensures EmailsUnique(old(users)) ==> EmailsUnique(users)
    {
      if !body.Valid() {
        return Err(ValidationFailed);
      }
      var existing := GetUserByEmail(body.email);
      if existing.Some? {
        return Err(HttpError(BadRequest, EmailExistsDetail));
      }
      ghost var before := users;
      var u := CrudCreateUser(body);
      assert !EmailHeldByOther(before, u.email, u.id);
      if EmailsUnique(before) {
        StorePreservesUniqueness(before, u);
      }
      return Ok(u);
    }

    /**
     * `update_user_me`: 422, then 409 when the new address belongs to another
     * user, then `$set` of the fields the request set.
     */
    method UpdateUserMe(caller: User, body: UserUpdateMe) returns (r: Result<User>)
      requires Valid() && Resolved(caller)
      modifies this
      ensures Valid()
      ensures !body.Valid() ==> r == Err(ValidationFailed)
      ensures body.Valid() && body.email.Some? && EmailHeldByOther(old(users), body.email.value, caller.id)
                && EmailsUnique(old(users)) ==>
                r == Err(HttpError(Conflict, EmailConflictDetail))
      ensures r.Err? && r.error.status == Conflict ==>
                body.email.Some? && EmailHeldByOther(old(users), body.email.value, caller.id)
      ensures body.Valid() && (body.email.None? || !EmailHeldByOther(old(users), body.email.value, caller.id)) ==>
                r.Ok?
      ensures r.Ok? ==> r.value == MergeUserUpdateMe(caller, body) && users == old(users)[caller.id := r.value]
      ensures r.Err? ==> users == old(users)
      ensures items == old(items) && nextId == old(nextId)
      ensures EmailsUnique(old(users)) ==> EmailsUnique(users)
    {
      if !body.Valid() {
        return Err(ValidationFailed);
      }
      if body.email.Some? {
        var existing := GetUserByEmail(body.email.value);
        if existing.Some? && existing.value.id != caller.id {
          return Err(HttpError(Conflict, EmailConflictDetail));
        }
      }
      var u := MergeUserUpdateMe(caller, body);
      if EmailsUnique(users) {
        UniqueHolder(users, caller.id);
        StorePreservesUniqueness(users, u);
      }
      users := users[caller.id := u];
      return Ok(u);
    }

    /**
     * `update_password_me`: 422, then 400 for a current password that does not
     * verify, then 400 for a new password equal to it; otherwise only the
     * caller's hash changes.
     */
    method UpdatePasswordMe(caller: User, body: UpdatePassword) returns (r: Result<string>)
      requires Valid() && Resolved(caller)
      modifies this
      ensures Valid()
      ensures !body.Valid() ==> r == Err(ValidationFailed)
      ensures body.Valid() && !Security.VerifyPassword(body.currentPassword, caller.hashedPassword) ==>
                r == Err(HttpError(BadRequest, IncorrectPasswordDetail))
      ensures body.Valid() && Security.VerifyPassword(body.currentPassword, caller.hashedPassword)
                && body.currentPassword == body.newPassword ==>
                r == Err(HttpError(BadRequest, SamePasswordDetail))
      ensures r.Ok? <==> body.Valid() && Security.VerifyPassword(body.currentPassword, caller.hashedPassword)
                         && body.currentPassword != body.newPassword
      ensures r.Ok? ==> r.value == PasswordUpdatedMessage
                        && users == old(users)[caller.id := caller.(hashedPassword := Security.PasswordHash(body.newPassword))]
                        && Security.VerifyPassword(body.newPassword, users[caller.id].hashedPassword)
      ensures r.Err? ==> users == old(users)
      ensures items == old(items) && nextId == old(nextId)
      ensures EmailsUnique(old(users)) ==> EmailsUnique(users)
    {
      if !body.Valid() {
        return Err(ValidationFailed);
      }
      if !Security.VerifyPassword(body.currentPassword, caller.hashedPassword) {
        return Err(HttpError(BadRequest, IncorrectPasswordDetail));
      }
      if body.currentPassword == body.newPassword {
        return Err(HttpError(BadRequest, SamePasswordDetail));
      }
      var u := caller.(hashedPassword := Security.PasswordHash(body.newPassword));
      if EmailsUnique(users) {
        UniqueHolder(users, caller.id);
        StorePreservesUniqueness(users, u);
      }
      users := users[caller.id := u];
      return Ok(PasswordUpdatedMessage);
    }

    /** `read_user_me`: the caller's own stored record. */
    function ReadUserMe(caller: User): (r: User)
      requires Resolved(caller)
      reads this
      ensures r.id == caller.id && caller.id in users && r == users[caller.id]
    {
      caller
    }

    /** `delete_user_me`: 403 for a superuser; otherwise only the caller's record goes, their items stay. */
    method DeleteUserMe(caller: User) returns (r: Result<string>)
      requires Valid() && Resolved(caller)
      modifies this
      ensures Valid()
      ensures caller.isSuperuser ==> r == Err(HttpError(Forbidden, SelfDeleteDetail)) && users == old(users)
      ensures !caller.isSuperuser ==> r == Ok(UserDeletedMessage) && users == old(users) - {caller.id}
      ensures items == old(items) && nextId == old(nextId)
      ensures EmailsUnique(old(users)) ==> EmailsUnique(users)
    {
      if caller.isSuperuser {
        return Err(HttpError(Forbidden, SelfDeleteDetail));
      }
      users := users - {caller.id};
      return Ok(UserDeletedMessage);
    }

    /**
     * `register_user` as evidently intended: 422, then 400 for a taken
     * address; otherwise the registration's fields become a `UserCreate`
     * (`UserCreate.model_validate(user_in.model_dump())`) and the user is
     * stored with the default flags.
     */
    method RegisterUser(body: UserRegister) returns (r: Result<User>)
      requires Valid()
      modifies this
      ensures Valid()
      ensures !body.Valid() ==> r == Err(ValidationFailed)
      ensures body.Valid() && EmailTaken(old(users), body.email) ==>
                r == Err(HttpError(BadRequest, SignupEmailExistsDetail))
      ensures r.Err? ==> users == old(users) && nextId == old(nextId)
      ensures r.Ok? <==> body.Valid() && !EmailTaken(old(users), body.email)
      ensures r.Ok? ==> r.value == NewUser(old(nextId), body.ToUserCreate())
                        && !r.value.isSuperuser && r.value.isActive
                        && users == old(users)[old(nextId) := r.value]
      ensures items == old(items)
      ensures EmailsUnique(old(users)) ==> EmailsUnique(users)
    {
      if !body.Valid() {
        return Err(ValidationFailed);
      }
      var existing := GetUserByEmail(body.email);
      if existing.Some? {
        return Err(HttpError(BadRequest, SignupEmailExistsDetail));
      }
      ghost var before := users;
      var u := CrudCreateUser(body.ToUserCreate());
      assert !EmailHeldByOther(before, u.email, u.id);
      if EmailsUnique(before) {
        StorePreservesUniqueness(before, u);
      }
      return Ok(u);
    }

    /**
     * `register_user` as written: after the 400 guard, line 149 hands a
     * `UserRegister` instance to `UserCreate.model_validate`, which pydantic 2
     * refuses without `from_attributes`; the `ValidationError` escapes the
     * handler as a 500 before anything is stored.
     */
    method RegisterUserAsWritten(body: UserRegister) returns (r: Result<User>)
      requires Valid()
      ensures !body.Valid() ==> r == Err(ValidationFailed)
      ensures body.Valid() && EmailTaken(users, body.email) ==>
                r == Err(HttpError(BadRequest, SignupEmailExistsDetail))
      ensures body.Valid() && !EmailTaken(users, body.email) ==> r == Err(ServerError)
    {
      if !body.Valid() {
        return Err(ValidationFailed);
      }
      var existing := GetUserByEmail(body.email);
      if existing.Some? {
        return Err(HttpError(BadRequest, SignupEmailExistsDetail));
      }
      return Err(ServerError);
    }

    /**
     * `read_user_by_id`: 404 for an absent id; the caller's own record always;
     * another user's record only for a superuser, else 403.
     */
    function ReadUserById(caller: User, id: Id): (r: Result<User>)
      requires Valid() && Resolved(caller)
      reads this
      ensures id !in users ==> r == Err(HttpError(NotFound, UserNotFoundDetail))
      ensures id == caller.id ==> r == Ok(caller)
      ensures id in users && id != caller.id && !caller.isSuperuser ==>
                r == Err(HttpError(Forbidden, NotEnoughPrivilegesDetail))
      ensures r.Ok? <==> id in users && (id == caller.id || caller.isSuperuser)
      ensures r.Ok? ==> r.value == users[id]
    {
      if id !in users then Err(HttpError(NotFound, UserNotFoundDetail))
      else if users[id] == caller then Ok(users[id])
      else if !caller.isSuperuser then Err(HttpError(Forbidden, NotEnoughPrivilegesDetail))
      else Ok(users[id])
    }

    /**
     * `update_user` (superusers only): 422, then 404 for an absent id, then 409
     * when the new address belongs to another user; otherwise `crud.update_user`.
     */
    method UpdateUser(caller: User, id: Id, body: UserUpdate) returns (r: Result<User>)
      requires Valid() && Resolved(caller) && caller.isSuperuser
      modifies this
      ensures Valid()
      ensures !body.Valid() ==> r == Err(ValidationFailed)
      ensures body.Valid() && id !in old(users) ==> r == Err(HttpError(NotFound, NoSuchUserDetail))
      ensures (body.Valid() && id in old(users) && body.email.Some? && EmailsUnique(old(users))
               && EmailHeldByOther(old(users), body.email.value, id)) ==>
                r == Err(HttpError(Conflict, EmailConflictDetail))
      ensures r.Err? && r.error.status == Conflict ==>
                body.email.Some? && EmailHeldByOther(old(users), body.email.value, id)
      ensures body.Valid() && id in old(users)
                && (body.email.None? || !EmailHeldByOther(old(users), body.email.value, id)) ==>
                r.Ok?
      ensures r.Ok? ==> id in old(users) && r.value == MergeUserUpdate(old(users)[id], body)
                        && users == old(users)[id := r.value]
      ensures r.Err? ==> users == old(users)
      ensures items == old(items) && nextId == old(nextId)
      ensures EmailsUnique(old(users)) ==> EmailsUnique(users)
    {
      if !body.Valid() {
        return Err(ValidationFailed);
      }
      if id !in users {
        return Err(HttpError(NotFound, NoSuchUserDetail));
      }
      if body.email.Some? {
        var existing := GetUserByEmail(body.email.value);
        if existing.Some? && existing.value.id != id {
          return Err(HttpError(Conflict, EmailConflictDetail));
        }
      }
      ghost var before := users;
      var u := CrudUpdateUser(users[id], body);
      if EmailsUnique(before) {
        UniqueHolder(before, id);
        StorePreservesUniqueness(before, u);
      }
      return Ok(u);
    }

    /**
     * `delete_user` (superusers only): 404 for an absent id, 403 for the
     * caller's own id; otherwise exactly that user's items go, then the user.
     */
    method DeleteUser(caller: User, id: Id) returns (r: Result<string>)
      requires Valid() && Resolved(caller) && caller.isSuperuser
      modifies this
      ensures Valid()
      ensures id !in old(users) ==> r == Err(HttpError(NotFound, UserNotFoundDetail))
      ensures id == caller.id ==> r == Err(HttpError(Forbidden, SelfDeleteDetail))
      ensures r.Ok? <==> id in old(users) && id != caller.id
      ensures r.Ok? ==> r.value == UserDeletedMessage && users == old(users) - {id}
                        && items == WithoutItemsOf(old(items), id)
      ensures r.Err? ==> users == old(users) && items == old(items)
      ensures nextId == old(nextId)
      ensures EmailsUnique(old(users)) ==> EmailsUnique(users)
    {
      if id !in users {
        return Err(HttpError(NotFound, UserNotFoundDetail));
      }
      if users[id] == caller {
        return Err(HttpError(Forbidden, SelfDeleteDetail));
      }
      items := WithoutItemsOf(items, id);
      users := users - {id};
      return Ok(UserDeletedMessage);
    }

    // -------------------------------------------------------------------------
    // items.py

    /**
     * `read_items`: `count` is the number of items the owner and search
     * filter selects, whatever `skip` and `limit`; `data` is the page of
     * those items, newest first.
     */
    method ReadItems(caller: User, skip: nat, limit: nat, q: Option<string>)
      returns (page: ItemsPage, ghost listing: seq<Item>)
      requires Valid() && Resolved(caller)
      ensures IsListing(listing, items, caller, q) && NewestFirst(listing)
      ensures page.count == |MatchingIds(items, caller, q)|
      ensures page.data == Page(listing, skip, limit)
      ensures |page.data| == PageLength(page.count, skip, limit)
    {
      var ordered: seq<Item> := [];
      var remaining := items.Keys;
      while remaining != {}
        invariant remaining <= items.Keys
        invariant NewestFirst(ordered)
        invariant NoDuplicates(ordered)
        invariant forall x :: x in ordered <==>
                    x.id in items && x.id !in remaining && items[x.id] == x && Listed(x, caller, q)
        decreases remaining
      {
        var k :| k in remaining;
        var it := items[k];
        if Listed(it, caller, q) {
          assert it !in ordered;
          var ordered' := InsertNewestFirst(ordered, it);
          forall x ensures x in ordered' <==> x in ordered || x == it {
            assert x in ordered' <==> x in multiset(ordered');
          }
          ordered := ordered';
        }
        remaining := remaining - {k};
      }
      listing := ordered;
      ListingLength(listing, items, caller, q);
      page := ItemsPage(Page(ordered, skip, limit), |MatchingIds(items, caller, q)|);
    }

    /** `read_item`: 404 for an absent id, 400 for another user's item unless a superuser asks. */
    function ReadItem(caller: User, id: Id): (r: Result<Item>)
      requires Resolved(caller)
      reads this
      ensures r.Ok? <==> id in items && VisibleTo(items[id], caller)
      ensures r.Ok? ==> r.value == items[id]
      ensures id !in items ==> r.Err? && r.error.status == NotFound
      ensures id in items && !VisibleTo(items[id], caller) ==> r.Err? && r.error.status == BadRequest
    {
      CheckItemAccess(items, caller, id)
    }

    /** `create_item`: 422, otherwise the body stored with the caller as owner, created at `now`. */
    method CreateItem(caller: User, body: ItemCreate, now: int) returns (r: Result<Item>)
      requires Valid() && Resolved(caller)
      modifies this
      ensures Valid()
      ensures r.Ok? <==> body.Valid()
      ensures !body.Valid() ==> r == Err(ValidationFailed) && items == old(items) && nextId == old(nextId)
      ensures r.Ok? ==> r.value.ownerId == caller.id && r.value == NewItem(old(nextId), body, caller.id, now)
                        && items == old(items)[old(nextId) := r.value]
      ensures users == old(users)
    {
      if !body.Valid() {
        return Err(ValidationFailed);
      }
      var it := NewItem(nextId, body, caller.id, now);
      items := items[nextId := it];
      nextId := nextId + 1;
      return Ok(it);
    }

    /** `update_item`: 422, then the access guards; otherwise `$set` of the set fields of that one item. */
    method UpdateItem(caller: User, id: Id, body: ItemUpdate) returns (r: Result<Item>)
      requires Valid() && Resolved(caller)
      modifies this
      ensures Valid()
      ensures !body.Valid() ==> r == Err(ValidationFailed)
      ensures body.Valid() && CheckItemAccess(old(items), caller, id).Err? ==>
                r == Err(CheckItemAccess(old(items), caller, id).error)
      ensures r.Ok? <==> body.Valid() && CheckItemAccess(old(items), caller, id).Ok?
      ensures r.Ok? ==> id in old(items) && r.value == MergeItemUpdate(old(items)[id], body)
                        && items == old(items)[id := r.value]
      ensures r.Err? ==> items == old(items)
      ensures users == old(users) && nextId == old(nextId)
    {
      if !body.Valid() {
        return Err(ValidationFailed);
      }
      var access := CheckItemAccess(items, caller, id);
      if access.Err? {
        return Err(access.error);
      }
      var it := MergeItemUpdate(access.value, body);
      items := items[id := it];
      return Ok(it);
    }

    /** `delete_item`: the access guards; otherwise exactly the addressed item goes. */
    method DeleteItem(caller: User, id: Id) returns (r: Result<string>)
      requires Valid() && Resolved(caller)
      modifies this
      ensures Valid()
      ensures CheckItemAccess(old(items), caller, id).Err? ==>
                r == Err(CheckItemAccess(old(items), caller, id).error) && items == old(items)
      ensures CheckItemAccess(old(items), caller, id).Ok? ==>
                r == Ok(ItemDeletedMessage) && items == old(items) - {id}
      ensures users == old(users) && nextId == old(nextId)
    {
      var access := CheckItemAccess(items, caller, id);
      if access.Err? {
        return Err(access.error);
      }
      items := items - {id};
      return Ok(ItemDeletedMessage);
    }

    // -------------------------------------------------------------------------
    // private.py and db.py

    /**
     * The private `create_user` as evidently intended (the `User` inserted as
     * a document, `user.model_dump()`): no address check at all; the record
     * takes the model defaults, and a record `User` rejects is an unhandled 500.
     */
    method PrivateCreateUser(body: PrivateUserCreate) returns (r: Result<User>)
      requires Valid()
      modifies this
      ensures Valid()
      ensures r.Ok? <==> PrivateUser(old(nextId), body).Valid()
      ensures r.Err? ==> r == Err(ServerError) && users == old(users) && nextId == old(nextId)
      ensures r.Ok? ==> r.value == PrivateUser(old(nextId), body) && users == old(users)[old(nextId) := r.value]
      ensures items == old(items)
    {
      var u := PrivateUser(nextId, body);
      if !u.Valid() {
        return Err(ServerError);
      }
      users := users[nextId := u];
      nextId := nextId + 1;
      return Ok(u);
    }

    /**
     * The private `create_user` as written: line 33 passes the pydantic `User`
     * itself to `insert_one`, which accepts only a mapping; the `TypeError`
     * (or, before it, a `ValidationError` of `User`) is a 500, and nothing is
     * stored.
     */
    method PrivateCreateUserAsWritten(body: PrivateUserCreate) returns (r: Result<User>)
      requires Valid()
      ensures r == Err(ServerError)
    {
      return Err(ServerError);
    }

    /** `init_db`: seeds the first superuser unless a user already holds its address. */
    method InitDb(settings: SuperuserSettings) returns (outcome: SeedOutcome)
      requires Valid()
      modifies this
      ensures Valid()
      ensures users == SeedSuperuser(old(users), settings, old(nextId))
      ensures EmailTaken(old(users), settings.email) ==> outcome == AlreadySeeded
      ensures outcome.Seeded? <==> !EmailTaken(old(users), settings.email) && settings.Create().Valid()
      ensures outcome.Seeded? ==> outcome.user == users[old(nextId)] && outcome.user.isSuperuser
      ensures items == old(items)
      ensures EmailsUnique(old(users)) ==> EmailsUnique(users)
    {
      if EmailTaken(users, settings.email) {
        return AlreadySeeded;
      }
      var c := settings.Create();
      if !c.Valid() {
        return InvalidSettings;
      }
      ghost var before := users;
      var u := CrudCreateUser(c);
      assert !EmailHeldByOther(before, u.email, u.id);
      if EmailsUnique(before) {
        StorePreservesUniqueness(before, u);
      }
      return Seeded(u);
    }
  }

  /**
   * The request bodies of the sign-up and private-endpoint tests are valid
   * and free in an empty store: the intended handlers store them, while the
   * handlers as written answer 500.
   */
  lemma TestBodiesAccepted()
    ensures var signup := UserRegister("new@example.com", "password1", Some("New User"));
            signup.Valid() && !EmailTaken(map[], signup.email)
    ensures PrivateUser(0, PrivateUserCreate("pollo@listo.com", "password123", "Pollo Listo", false)).Valid()
  {
    assert "new@example.com"[3] == '@';
    assert "pollo@listo.com"[5] == '@';
  }

  /** The private endpoint can store a second holder of an address the admin and signup routes would refuse. */
  lemma PrivateCreateBreaksUniqueness()
    ensures var existing := User(0, "a@example.com", true, false, None, Security.PasswordHash("password1"));
            var users := map[0 := existing];
            var body := PrivateUserCreate("a@example.com", "password2", "Another", false);
            EmailsUnique(users) && EmailTaken(users, body.email)
            && PrivateUser(1, body).Valid()
            && !EmailsUnique(users[1 := PrivateUser(1, body)])
  {
    var existing := User(0, "a@example.com", true, false, None, Security.PasswordHash("password1"));
    var users := map[0 := existing];
    var body := PrivateUserCreate("a@example.com", "password2", "Another", false);
    var users' := users[1 := PrivateUser(1, body)];
    assert users'[0].email == users'[1].email;
    assert '@' in "a@example.com" by {
      assert "a@example.com"[1] == '@';
    }
  }
}
