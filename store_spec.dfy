/**
 * The users and items collections as maps, and the pure functions that say
 * what the backend's writes and queries do to them: record construction
 * (`crud.create_user`, the private endpoint, `crud.create_item`), the partial
 * merges of the update routes, the cascade of `delete_user`, the item listing
 * filter with its page, `init_db`, and e-mail uniqueness.
 */
module StoreSpec {
  import opened Common
  import opened Text
  import opened Models
  import Security

  type Users = map<Id, User>
  type Items = map<Id, Item>

  // ---------------------------------------------------------------------------
  // E-mail uniqueness

  /** `db.users.find_one({"email": email})` finds something. */
  predicate EmailTaken(users: Users, email: string)
  {
    exists k :: k in users && users[k].email == email
  }

  /** A user other than `id` holds `email`. */
  predicate EmailHeldByOther(users: Users, email: string, id: Id)
  {
    exists k :: k in users && k != id && users[k].email == email
  }

  /** No two users share an e-mail address. */
  predicate EmailsUnique(users: Users)
  {
    forall j, k :: j in users && k in users && users[j].email == users[k].email ==> j == k
  }

  /** The ids of the users holding `email`. */
  function HoldersOf(users: Users, email: string): set<Id>
  {
    set k | k in users && users[k].email == email
  }

  /** Storing a record whose e-mail no other user holds keeps e-mails unique. */
  lemma StorePreservesUniqueness(users: Users, u: User)
    requires EmailsUnique(users)
    requires !EmailHeldByOther(users, u.email, u.id)
    ensures EmailsUnique(users[u.id := u])
  {
    var users' := users[u.id := u];
    forall j, k | j in users' && k in users' && users'[j].email == users'[k].email
      ensures j == k
    {
      if j != u.id && k != u.id {
        assert users[j].email == users[k].email;
      }
    }
  }

  /** When e-mails are unique, a user holding an e-mail is the only one holding it. */
  lemma UniqueHolder(users: Users, id: Id)
    requires EmailsUnique(users) && id in users
    ensures !EmailHeldByOther(users, users[id].email, id)
  {
  }

  // ---------------------------------------------------------------------------
  // Records written by the routes

  /** The record `crud.create_user` stores: the body without its password, plus the password's hash. */
  function NewUser(id: Id, c: UserCreate): (u: User)
    ensures u.id == id && u.email == c.email && u.fullName == c.fullName
    ensures u.isActive == c.isActive && u.isSuperuser == c.isSuperuser
    ensures Security.VerifyPassword(c.password, u.hashedPassword)
    ensures u.hashedPassword != c.password
    ensures c.Valid() ==> u.Valid()
  {
    User(id, c.email, c.isActive, c.isSuperuser, c.fullName, Security.PasswordHash(c.password))
  }

  /** The body of the private endpoint; no field is constrained. */
  datatype PrivateUserCreate = PrivateUserCreate(
    email: string, password: string, fullName: string, isVerified: bool)

  /** `User(email=..., full_name=..., hashed_password=...)` in the private endpoint. */
  function PrivateUser(id: Id, p: PrivateUserCreate): (u: User)
    ensures u.id == id && u.email == p.email && u.fullName == Some(p.fullName)
    ensures u.isActive == DefaultIsActive && u.isSuperuser == DefaultIsSuperuser
    ensures Security.VerifyPassword(p.password, u.hashedPassword)
    ensures u.hashedPassword != p.password
  {
    User(id, p.email, DefaultIsActive, DefaultIsSuperuser, Some(p.fullName), Security.PasswordHash(p.password))
  }

  /** `is_verified` is accepted by the private endpoint but never reaches the record. */
  lemma PrivateUserIgnoresVerified(id: Id, p: PrivateUserCreate, verified: bool)
    ensures PrivateUser(id, p.(isVerified := verified)) == PrivateUser(id, p)
  {
  }

  /**
   * `crud.update_user`: the fields the request set replace the old ones, a
   * non-empty password replaces the hash, the id never changes.
   */
  function MergeUserUpdate(u: User, upd: UserUpdate): (r: User)
    ensures r.id == u.id
    ensures upd.email.None? ==> r.email == u.email
    ensures upd.email.Some? ==> r.email == upd.email.value
    ensures upd.isActive.None? ==> r.isActive == u.isActive
    ensures upd.isActive.Some? ==> r.isActive == upd.isActive.value
    ensures upd.isSuperuser.None? ==> r.isSuperuser == u.isSuperuser
    ensures upd.isSuperuser.Some? ==> r.isSuperuser == upd.isSuperuser.value
    ensures upd.fullName.None? ==> r.fullName == u.fullName
    ensures upd.fullName.Some? ==> r.fullName == upd.fullName
    ensures upd.password.Some? && upd.password.value != "" ==>
              Security.VerifyPassword(upd.password.value, r.hashedPassword)
    ensures upd.password.None? || upd.password.value == "" ==> r.hashedPassword == u.hashedPassword
    ensures u.Valid() && upd.Valid() ==> r.Valid()
  {
    User(
      u.id,
      if upd.email.Some? then upd.email.value else u.email,
      if upd.isActive.Some? then upd.isActive.value else u.isActive,
      if upd.isSuperuser.Some? then upd.isSuperuser.value else u.isSuperuser,
      if upd.fullName.Some? then upd.fullName else u.fullName,
      if upd.password.Some? && upd.password.value != "" then Security.PasswordHash(upd.password.value)
      else u.hashedPassword)
  }

  /** `update_user_me`: `$set` of the fields the request set; everything else is kept. */
  function MergeUserUpdateMe(u: User, upd: UserUpdateMe): (r: User)
    ensures r.id == u.id && r.isActive == u.isActive && r.isSuperuser == u.isSuperuser
    ensures r.hashedPassword == u.hashedPassword
    ensures upd.email.None? ==> r.email == u.email
    ensures upd.email.Some? ==> r.email == upd.email.value
    ensures upd.fullName.None? ==> r.fullName == u.fullName
    ensures upd.fullName.Some? ==> r.fullName == upd.fullName
    ensures u.Valid() && upd.Valid() ==> r.Valid()
  {
    u.(email := if upd.email.Some? then upd.email.value else u.email,
       fullName := if upd.fullName.Some? then upd.fullName else u.fullName)
  }

  /** The item `crud.create_item` (and `Item(...).save`) stores for a body and an owner. */
  function NewItem(id: Id, ic: ItemCreate, ownerId: Id, createdAt: int): (it: Item)
    ensures it.id == id && it.ownerId == ownerId && it.createdAt == createdAt
    ensures it.title == ic.title && it.description == ic.description
  {
    Item(id, ic.title, ic.description, ownerId, createdAt)
  }

  /** `update_item`: `$set` of the fields the request set; id, owner and creation time are kept. */
  function MergeItemUpdate(it: Item, upd: ItemUpdate): (r: Item)
    ensures r.id == it.id && r.ownerId == it.ownerId && r.createdAt == it.createdAt
    ensures upd.title.None? ==> r.title == it.title
    ensures upd.title.Some? ==> r.title == upd.title.value
    ensures upd.description.None? ==> r.description == it.description
    ensures upd.description.Some? ==> r.description == upd.description
  {
    it.(title := if upd.title.Some? then upd.title.value else it.title,
        description := if upd.description.Some? then upd.description else it.description)
  }

  /** `db.items.delete_many({"owner_id": owner})`: exactly the owner's items go. */
  function WithoutItemsOf(items: Items, owner: Id): (r: Items)
    ensures forall k :: k in r <==> k in items && items[k].ownerId != owner
    ensures forall k :: k in r ==> r[k] == items[k]
  {
    map k | k in items && items[k].ownerId != owner :: items[k]
  }

  // ---------------------------------------------------------------------------
  // Item listing

  /** `if q:` in `read_items`: an absent or empty query adds no search filter. */
  predicate SearchGiven(q: Option<string>)
  {
    q.Some? && q.value != ""
  }

  /**
   * `{"$regex": q, "$options": "i"}`: stand-in for the case-insensitive regular
   * expression match, as a case-insensitive substring test.
   */
  predicate TextMatches(q: string, text: string)
  {
    Contains(Lower(text), Lower(q))
  }

  /** The base filter: a superuser sees every item, anyone else only their own. */
  predicate VisibleTo(it: Item, caller: User)
  {
    caller.isSuperuser || it.ownerId == caller.id
  }

  /** The search filter on title or description; a missing description never matches. */
  predicate MatchesSearch(it: Item, q: Option<string>)
  {
    !SearchGiven(q)
    || TextMatches(q.value, it.title)
    || (it.description.Some? && TextMatches(q.value, it.description.value))
  }

  /** The combined filter `{"$and": [base_filter, search_filter]}`. */
  predicate Listed(it: Item, caller: User, q: Option<string>)
  {
    VisibleTo(it, caller) && MatchesSearch(it, q)
  }

  /**
   * The ids of the documents `filter_query` selects: stored items, only the
   * caller's own unless the caller is a superuser, who without a search sees all.
   */
  function MatchingIds(items: Items, caller: User, q: Option<string>): (r: set<Id>)
    ensures r <= items.Keys
    ensures forall k :: k in r ==> caller.isSuperuser || items[k].ownerId == caller.id
    ensures forall k :: k in r && SearchGiven(q) ==>
              TextMatches(q.value, items[k].title)
              || (items[k].description.Some? && TextMatches(q.value, items[k].description.value))
    ensures caller.isSuperuser && !SearchGiven(q) ==> r == items.Keys
    ensures !SearchGiven(q) ==> forall k :: k in items && items[k].ownerId == caller.id ==> k in r
  {
    set k | k in items && Listed(items[k], caller, q)
  }

  /** `sort=[("created_at", -1)]`. */
  predicate NewestFirst(s: seq<Item>)
  {
    forall i, j :: 0 <= i < j < |s| ==> s[i].createdAt >= s[j].createdAt
  }

  /** No element occurs twice. */
  ghost predicate NoDuplicates<T(!new)>(s: seq<T>)
  {
    forall x :: multiset(s)[x] <= 1
  }

  /** `s` lists the matching stored items, each once. */
  ghost predicate IsListing(s: seq<Item>, items: Items, caller: User, q: Option<string>)
  {
    NoDuplicates(s)
    && forall x :: x in s <==> x.id in items && items[x.id] == x && Listed(x, caller, q)
  }

  /** An item no younger than everything in a newest-first list may go in front of it. */
  lemma PrependNewest(x: Item, s: seq<Item>)
    requires NewestFirst(s)
    requires forall y :: y in s ==> x.createdAt >= y.createdAt
    ensures NewestFirst([x] + s)
  {
    var r := [x] + s;
    forall i, j | 0 <= i < j < |r| ensures r[i].createdAt >= r[j].createdAt {
      if i > 0 {
        assert r[i] == s[i - 1] && r[j] == s[j - 1];
      } else {
        assert r[j] in s;
      }
    }
  }

  /** Inserting into a newest-first list keeps it newest-first and adds exactly that item. */
  function InsertNewestFirst(s: seq<Item>, it: Item): (r: seq<Item>)
    requires NewestFirst(s)
    ensures NewestFirst(r)
    ensures multiset(r) == multiset(s) + multiset{it}
  {
    if s == [] then [it]
    else if it.createdAt >= s[0].createdAt then
      PrependNewest(it, s);
      [it] + s
    else
      var rest := InsertNewestFirst(s[1..], it);
      InsertedNoNewer(s, it, rest);
      PrependNewest(s[0], rest);
      assert multiset([s[0]] + rest) == multiset(s) + multiset{it} by {
        assert s == [s[0]] + s[1..];
      }
      [s[0]] + rest
  }

  /** The head of a newest-first list is no younger than the tail with an older item inserted. */
  lemma InsertedNoNewer(s: seq<Item>, it: Item, rest: seq<Item>)
    requires NewestFirst(s) && s != [] && it.createdAt < s[0].createdAt
    requires multiset(rest) == multiset(s[1..]) + multiset{it}
    ensures forall y :: y in rest ==> s[0].createdAt >= y.createdAt
  {
    forall y | y in rest ensures s[0].createdAt >= y.createdAt {
      assert y in multiset(rest);
      if y != it {
        assert y in multiset(s[1..]);
        var j :| 0 <= j < |s[1..]| && s[1..][j] == y;
        assert s[j + 1] == y;
      }
    }
  }

  /** The number of documents `skip(skip).limit(limit)` leaves of `n`; a limit of 0 is no limit. */
  function PageLength(n: nat, skip: nat, limit: nat): nat
  {
    var rest := if skip <= n then n - skip else 0;
    if limit == 0 || limit > rest then rest else limit
  }

  /** `cursor.skip(skip).limit(limit)`. */
  function Page<T>(s: seq<T>, skip: nat, limit: nat): (r: seq<T>)
    ensures |r| == PageLength(|s|, skip, limit)
    ensures limit > 0 ==> |r| <= limit
    ensures forall i :: 0 <= i < |r| ==> r[i] == s[skip + i]
  {
    if skip >= |s| then []
    else if limit == 0 || skip + limit >= |s| then s[skip..]
    else s[skip..skip + limit]
  }

  /** The listing has as many elements as there are matching items, whatever its order. */
  lemma {:induction false} ListingLength(s: seq<Item>, items: Items, caller: User, q: Option<string>)
    requires forall k :: k in items ==> items[k].id == k
    requires IsListing(s, items, caller, q)
    ensures |s| == |MatchingIds(items, caller, q)|
    decreases |s|
  {
    var ids := MatchingIds(items, caller, q);
    if s == [] {
      assert ids == {};
    } else {
      var x := s[0];
      var rest := s[1..];
      assert s == [x] + rest;
      assert multiset(s) == multiset{x} + multiset(rest);
      assert x !in rest by {
        assert multiset(s)[x] <= 1;
      }
      var items' := items - {x.id};
      forall y ensures y in rest <==> y.id in items' && items'[y.id] == y && Listed(y, caller, q) {
        if y in rest {
          assert y in s;
          assert y != x;
          assert y.id != x.id;
        }
      }
      assert NoDuplicates(rest) by {
        forall y ensures multiset(rest)[y] <= 1 {
          assert multiset(s)[y] <= 1;
        }
      }
      ListingLength(rest, items', caller, q);
      assert MatchingIds(items', caller, q) == ids - {x.id};
      assert x.id in ids;
    }
  }

  const ItemNotFoundDetail := "Item not found"
  const NotEnoughPermissionsDetail := "Not enough permissions"

  /**
   * The guards `read_item`, `update_item` and `delete_item` share: 404 for an
   * absent item, then 400 (not 403) when a non-superuser is not its owner.
   */
  function CheckItemAccess(items: Items, caller: User, id: Id): (r: Result<Item>)
    ensures id !in items ==> r == Err(HttpError(NotFound, ItemNotFoundDetail))
    ensures id in items && !VisibleTo(items[id], caller) ==>
              r == Err(HttpError(BadRequest, NotEnoughPermissionsDetail))
    ensures r.Ok? <==> id in items && (caller.isSuperuser || items[id].ownerId == caller.id)
    ensures r.Ok? ==> r.value == items[id]
  {
    if id !in items then Err(HttpError(NotFound, ItemNotFoundDetail))
    else if !caller.isSuperuser && items[id].ownerId != caller.id then
      Err(HttpError(BadRequest, NotEnoughPermissionsDetail))
    else Ok(items[id])
  }

  // ---------------------------------------------------------------------------
  // init_db

  /** `FIRST_SUPERUSER` and `FIRST_SUPERUSER_PASSWORD`. */
  datatype SuperuserSettings = SuperuserSettings(email: string, password: string)
  {
    /** `UserCreate(email=..., password=..., is_superuser=True)`; the other fields take their defaults. */
    function Create(): (c: UserCreate)
      ensures c.email == email && c.password == password && c.isSuperuser
      ensures c.isActive == DefaultIsActive && c.fullName.None?
    {
      UserCreate(email, DefaultIsActive, true, None, password)
    }
  }

  /** The users collection after `init_db`, the new user (if any) taking id `freshId`. */
  function SeedSuperuser(users: Users, settings: SuperuserSettings, freshId: Id): (r: Users)
    requires freshId !in users
    ensures EmailTaken(users, settings.email) ==> r == users
    ensures !EmailTaken(users, settings.email) && settings.Create().Valid() ==>
              r == users[freshId := NewUser(freshId, settings.Create())]
    ensures !settings.Create().Valid() ==> r == users
  {
    if EmailTaken(users, settings.email) || !settings.Create().Valid() then users
    else users[freshId := NewUser(freshId, settings.Create())]
  }

  /** Seeding twice leaves the collection as seeding once did. */
  lemma SeedIdempotent(users: Users, settings: SuperuserSettings, id1: Id, id2: Id)
    requires id1 !in users
    requires id2 !in SeedSuperuser(users, settings, id1)
    ensures SeedSuperuser(SeedSuperuser(users, settings, id1), settings, id2)
              == SeedSuperuser(users, settings, id1)
  {
    var once := SeedSuperuser(users, settings, id1);
    if !EmailTaken(users, settings.email) && settings.Create().Valid() {
      assert once[id1].email == settings.email;
      assert EmailTaken(once, settings.email);
    }
  }

  /** Seeding an empty-handed collection leaves exactly one holder of the address, a superuser. */
  lemma SeedCreatesOneSuperuser(users: Users, settings: SuperuserSettings, freshId: Id)
    requires freshId !in users
    requires !EmailTaken(users, settings.email) && settings.Create().Valid()
    ensures HoldersOf(SeedSuperuser(users, settings, freshId), settings.email) == {freshId}
    ensures SeedSuperuser(users, settings, freshId)[freshId].isSuperuser
    ensures Security.VerifyPassword(settings.password, SeedSuperuser(users, settings, freshId)[freshId].hashedPassword)
  {
    var r := SeedSuperuser(users, settings, freshId);
    assert forall k :: k in r && r[k].email == settings.email ==> k == freshId;
  }
}
