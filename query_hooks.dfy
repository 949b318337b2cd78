/**
 * The data hooks `useUsers` and `useItems`: the list request built from the
 * search text, `handleSearch` (a copy of the page's query parameters with
 * `q` set or deleted, pushed as the new path), the write requests, the
 * invalidation of every cached list of the written entity, and the
 * confirm-then-delete action. Toasts, the router's history and react-query's
 * timing are not modelled; the router push is returned as a value.
 */
module QueryHooks {
  import opened Common
  import opened Text
  import Url

  /** The two entities the hooks serve, with their API path and cache key. */
  datatype Entity = Users | Items
  {
    function Key(): (k: string)
      ensures k == "users" || k == "items"
    {
      match this
      case Users => "users"
      case Items => "items"
    }

    /** The list endpoint: `/users` or `/items`. */
    function ApiPath(): string
    {
      "/" + Key()
    }
  }

  const SearchParam := "q"

  // ---------------------------------------------------------------------------
  // List requests and search
  // ---------------------------------------------------------------------------

  /** The list request: the bare path for an empty search, else with `?q=` and the encoded text. */
  function ListUrl(base: string, searchQuery: string): (url: string)
    ensures searchQuery == "" ==> url == base
    ensures searchQuery != "" ==> url == base + "?q=" + Url.EncodeURIComponent(searchQuery)
  {
    if searchQuery == "" then base else base + "?q=" + Url.EncodeURIComponent(searchQuery)
  }

  /** Form decoding, as the backend applies it to the query, undoes `encodeURIComponent`. */
  lemma {:induction false} FormDecodeUriComponent(s: string)
    ensures Url.FormDecode(Url.EncodeURIComponent(s)) == s
    decreases |s|
  {
    if s != [] {
      var c, e, rest := s[0], Url.EncodeUriChar(s[0]), Url.EncodeURIComponent(s[1..]);
      FormDecodeUriComponent(s[1..]);
      var enc := e + rest;
      assert Url.EncodeURIComponent(s) == enc;
      if Url.UriUnreserved(c) || c as int >= 128 {
        assert enc[0] == c && enc[1..] == rest;
      } else {
        assert enc[0] == '%' && enc[1] == e[1] && enc[2] == e[2] && enc[3..] == rest;
        assert HexValue(e[1]) < 8;
      }
      assert s == [c] + s[1..];
    }
  }

  /** The query of a non-empty search's list request parses back to exactly `q` and the search text. */
  lemma ListUrlCarriesSearch(base: string, searchQuery: string)
    requires '?' !in base && searchQuery != ""
    ensures Url.ParseParams(Url.AfterFirst(ListUrl(base, searchQuery), '?')) == [(SearchParam, searchQuery)]
  {
    var enc := Url.EncodeURIComponent(searchQuery);
    var piece := "q=" + enc;
    assert ListUrl(base, searchQuery) == base + ['?'] + piece;
    Url.FirstSplit(base, '?', piece);
    assert '&' !in enc by {
      forall i | 0 <= i < |enc|
        ensures enc[i] != '&'
      {
        assert Url.IsDelimiter('&');
      }
    }
    assert '&' !in piece by {
      assert forall i :: 1 < i < |piece| ==> piece[i] == enc[i - 2];
    }
    SplitNoSeparator(piece, '&');
    assert piece == "q" + ['='] + enc;
    Url.FirstSplit("q", '=', enc);
    FormDecodeUriComponent(searchQuery);
    assert Url.FormDecode("q") == "q";
    assert piece != [] && piece[0] != '?';
    assert Url.ParseParams(piece) == Url.ParsePieces([piece]);
    assert [piece][1..] == [];
  }

  /** The initial search text: the page's `q` parameter, or "". */
  function InitialSearch(params: seq<Url.Param>): (q: string)
    ensures Url.GetParam(params, SearchParam).Some? ==> q == Url.GetParam(params, SearchParam).value
    ensures Url.GetParam(params, SearchParam).None? ==> q == ""
  {
    match Url.GetParam(params, SearchParam)
    case Some(v) => v
    case None => ""
  }

  /** The parameters after `handleSearch(query)`: `q` set to a non-empty query, deleted for an empty one. */
  function SearchEntries(current: seq<Url.Param>, query: string): seq<Url.Param>
  {
    if query != "" then Url.SetParam(current, SearchParam, query) else Url.DeleteParam(current, SearchParam)
  }

  /** The pushed path: the pathname, then `?` and the parameters only when there are any. */
  function PathWithParams(pathname: string, params: seq<Url.Param>): (path: string)
    ensures params == [] ==> path == pathname
  {
    Url.SerializeEmptyIff(params);
    var s := Url.SerializeParams(params);
    pathname + (if s != "" then "?" + s else "")
  }

  /**
   * `handleSearch(query)`: copy the page's parameters, set or delete `q`,
   * and push the pathname with the resulting parameters.
   */
  method HandleSearch(current: seq<Url.Param>, pathname: string, query: string)
    returns (searchQuery: string, newPath: string)
    ensures searchQuery == query
    ensures newPath == PathWithParams(pathname, SearchEntries(current, query))
  {
    searchQuery := query;
    var params := new Url.SearchParams(Url.SerializeParams(current));
    Url.SerializeParseRoundTrip(current);
    if query != "" {
      params.Set(SearchParam, query);
    } else {
      params.Delete(SearchParam);
    }
    var s := params.ToString();
    newPath := pathname + (if s != "" then "?" + s else "");
  }

  /** After a search, the parameters carry the query back as the initial search text, and nothing else changed. */
  lemma SearchSurvivesReload(current: seq<Url.Param>, query: string)
    ensures InitialSearch(SearchEntries(current, query)) == query
    ensures Url.DeleteParam(SearchEntries(current, query), SearchParam) == Url.DeleteParam(current, SearchParam)
  {
    if query != "" {
      Url.SetParamSpec(current, SearchParam, query);
    } else {
      Url.DeleteParamSpec(current, SearchParam);
    }
  }

  /** Text without `c` has nothing after a `c`. */
  lemma {:induction false} AfterFirstAbsent(s: string, c: char)
    requires c !in s
    ensures Url.AfterFirst(s, c) == ""
    decreases |s|
  {
    if s != [] {
      AfterFirstAbsent(s[1..], c);
    }
  }

  /** The query part of a pushed path parses back to the parameters. */
  lemma PathParamsRoundTrip(pathname: string, params: seq<Url.Param>)
    requires '?' !in pathname
    ensures Url.ParseParams(Url.AfterFirst(PathWithParams(pathname, params), '?')) == params
  {
    Url.SerializeEmptyIff(params);
    var s := Url.SerializeParams(params);
    if s == "" {
      assert PathWithParams(pathname, params) == pathname;
      AfterFirstAbsent(pathname, '?');
      assert Split("", '&') == [""];
      assert Url.ParseParams("") == Url.ParsePieces([""]);
      assert [""][1..] == [];
    } else {
      assert PathWithParams(pathname, params) == pathname + ['?'] + s;
      Url.FirstSplit(pathname, '?', s);
      Url.SerializeParseRoundTrip(params);
    }
  }

  /** Reloading the path `handleSearch` pushed starts with the same search text. */
  lemma SearchPathRestoresQuery(current: seq<Url.Param>, pathname: string, query: string)
    requires '?' !in pathname
    ensures InitialSearch(Url.ParseParams(Url.AfterFirst(PathWithParams(pathname, SearchEntries(current, query)), '?')))
            == query
  {
    PathParamsRoundTrip(pathname, SearchEntries(current, query));
    SearchSurvivesReload(current, query);
  }

  // ---------------------------------------------------------------------------
  // Cache
  // ---------------------------------------------------------------------------

  /** A list query's cache key: `[entity, searchQuery]`. */
  datatype QueryKey = QueryKey(entity: Entity, search: string)

  /** A cached list response and whether it must be fetched again. */
  datatype CacheEntry = CacheEntry(data: string, stale: bool)

  /** `invalidateQueries({ queryKey: [entity] })`: every entry whose key starts with the entity goes stale. */
  function Invalidated(entries: map<QueryKey, CacheEntry>, entity: Entity): (r: map<QueryKey, CacheEntry>)
    ensures r.Keys == entries.Keys
    ensures forall k :: k in r ==> r[k].data == entries[k].data
    ensures forall k :: k in r ==> (r[k].stale <==> entries[k].stale || k.entity == entity)
  {
    map k | k in entries :: CacheEntry(entries[k].data, entries[k].stale || k.entity == entity)
  }

  /** Invalidating twice is invalidating once, and invalidating one entity leaves the other's entries as they were. */
  lemma InvalidateFacts(entries: map<QueryKey, CacheEntry>, entity: Entity, other: Entity)
    requires other != entity
    ensures Invalidated(Invalidated(entries, entity), entity) == Invalidated(entries, entity)
    ensures forall k :: k in entries && k.entity == other ==> Invalidated(entries, entity)[k] == entries[k]
  {
  }

  /** react-query's cache of list responses. */
  class QueryCache {
    var entries: map<QueryKey, CacheEntry>

    constructor()
      ensures entries == map[]
    {
      entries := map[];
    }

    method Invalidate(entity: Entity)
      modifies this
      ensures entries == Invalidated(old(entries), entity)
    {
      entries := Invalidated(entries, entity);
    }
  }

  // ---------------------------------------------------------------------------
  // Writes
  // ---------------------------------------------------------------------------

  datatype Verb = Get | Post | Put | Patch | Delete

  /** A request: the verb and the path's segments below the API base. */
  datatype Endpoint = Endpoint(verb: Verb, segments: seq<string>)
  {
    function Path(): string
    {
      "/" + Join(segments, '/')
    }
  }

  /** The writes the two hooks offer. */
  datatype Mutation =
    | CreateUser | UpdateUser(userId: string) | UpdateProfile | UpdatePassword | DeleteUser(userId: string)
    | CreateItem | UpdateItem(itemId: string) | DeleteItem(itemId: string)
  {
    function Target(): Entity
    {
      if CreateUser? || UpdateUser? || UpdateProfile? || UpdatePassword? || DeleteUser? then Users else Items
    }

    /** The request the write sends. */
    function Request(): Endpoint
    {
      match this
      case CreateUser => Endpoint(Post, ["users"])
      case UpdateUser(id) => Endpoint(Patch, ["users", id])
      case UpdateProfile => Endpoint(Patch, ["users", "me"])
      case UpdatePassword => Endpoint(Patch, ["users", "me", "password"])
      case DeleteUser(id) => Endpoint(Delete, ["users", id])
      case CreateItem => Endpoint(Post, ["items"])
      case UpdateItem(id) => Endpoint(Put, ["items", id])
      case DeleteItem(id) => Endpoint(Delete, ["items", id])
    }

    /** Where a successful write navigates; deletes stay on the page. */
    function NavigateAfter(): Option<string>
    {
      match this
      case CreateUser => Some("/admin/users")
      case UpdateUser(_) => Some("/admin/users")
      case UpdateProfile => Some("/admin/settings?tab=profile")
      case UpdatePassword => Some("/admin/settings?tab=password")
      case DeleteUser(_) => None
      case CreateItem => Some("/admin/items")
      case UpdateItem(_) => Some("/admin/items")
      case DeleteItem(_) => None
    }
  }

  /**
   * A write: send its request; on success invalidate every cached list of
   * its entity and navigate; on failure change nothing.
   */
  method RunMutation(cache: QueryCache, m: Mutation, succeeded: bool)
    returns (sent: Endpoint, navigate: Option<string>)
    modifies cache
    ensures sent == m.Request()
    ensures succeeded ==> cache.entries == Invalidated(old(cache.entries), m.Target())
                          && navigate == m.NavigateAfter()
    ensures !succeeded ==> cache.entries == old(cache.entries) && navigate.None?
  {
    sent := m.Request();
    navigate := None;
    if succeeded {
      cache.Invalidate(m.Target());
      navigate := m.NavigateAfter();
    }
  }

  /** `actions.deleteUser` / `actions.deleteItem`: the delete runs only after the user confirms. */
  method ConfirmDelete(cache: QueryCache, m: Mutation, confirmed: bool, succeeded: bool)
    returns (sent: Option<Endpoint>)
    requires m.DeleteUser? || m.DeleteItem?
    modifies cache
    ensures sent.Some? <==> confirmed
    ensures sent.Some? ==> sent.value == m.Request() && sent.value.verb == Delete
    ensures !(confirmed && succeeded) ==> cache.entries == old(cache.entries)
    ensures confirmed && succeeded ==> cache.entries == Invalidated(old(cache.entries), m.Target())
  {
    sent := None;
    if confirmed {
      var endpoint, _ := RunMutation(cache, m, succeeded);
      sent := Some(endpoint);
    }
  }

  // ---------------------------------------------------------------------------
  // The backend routes the requests reach
  // ---------------------------------------------------------------------------

  /** The backend handlers of the users and items routers. */
  datatype Handler =
    | ReadUsers | CreateUserRoute | UpdateUserMe | UpdatePasswordMe | ReadUserMe | DeleteUserMe | RegisterUser
    | ReadUserById(userId: string) | UpdateUserRoute(userId: string) | DeleteUserRoute(userId: string)
    | ReadItems | ReadItem(id: string) | CreateItemRoute | UpdateItemRoute(id: string) | DeleteItemRoute(id: string)

  /**
   * Route matching under `/users` and `/items`, in declaration order: the
   * fixed paths `/me`, `/me/password` and `/signup` come before `/{user_id}`,
   * so a fixed path wins where its verb is declared for it.
   */
  function Route(e: Endpoint): Option<Handler>
  {
    var s := e.segments;
    if s == ["users"] then
      (if e.verb == Get then Some(ReadUsers) else if e.verb == Post then Some(CreateUserRoute) else None)
    else if s == ["users", "me"] && e.verb in {Patch, Get, Delete} then
      (if e.verb == Patch then Some(UpdateUserMe) else if e.verb == Get then Some(ReadUserMe) else Some(DeleteUserMe))
    else if s == ["users", "me", "password"] then
      (if e.verb == Patch then Some(UpdatePasswordMe) else None)
    else if s == ["users", "signup"] && e.verb == Post then Some(RegisterUser)
    else if |s| == 2 && s[0] == "users" then
      (if e.verb == Get then Some(ReadUserById(s[1]))
       else if e.verb == Patch then Some(UpdateUserRoute(s[1]))
       else if e.verb == Delete then Some(DeleteUserRoute(s[1]))
       else None)
    else if s == ["items"] then
      (if e.verb == Get then Some(ReadItems) else if e.verb == Post then Some(CreateItemRoute) else None)
    else if |s| == 2 && s[0] == "items" then
      (if e.verb == Get then Some(ReadItem(s[1]))
       else if e.verb == Put then Some(UpdateItemRoute(s[1]))
       else if e.verb == Delete then Some(DeleteItemRoute(s[1]))
       else None)
    else None
  }

  /** The handler each write is meant to reach. */
  function Intended(m: Mutation): Handler
  {
    match m
    case CreateUser => CreateUserRoute
    case UpdateUser(id) => UpdateUserRoute(id)
    case UpdateProfile => UpdateUserMe
    case UpdatePassword => UpdatePasswordMe
    case DeleteUser(id) => DeleteUserRoute(id)
    case CreateItem => CreateItemRoute
    case UpdateItem(id) => UpdateItemRoute(id)
    case DeleteItem(id) => DeleteItemRoute(id)
  }

  /**
   * Every write reaches the handler it is meant for, as long as a user id is
   * not the fixed segment `me` (stored ids are ObjectId strings, never `me`).
   */
  lemma WritesReachTheirHandlers(m: Mutation)
    requires m.UpdateUser? || m.DeleteUser? ==> m.userId != "me"
    ensures Route(m.Request()) == Some(Intended(m))
  {
  }

  /** A request's path splits back into its segments when none is empty or holds a `/`. */
  lemma PathSegments(e: Endpoint)
    requires e.segments != []
    requires forall i :: 0 <= i < |e.segments| ==> e.segments[i] != "" && '/' !in e.segments[i]
    ensures NonEmpty(Split(e.Path(), '/')) == e.segments
  {
    SplitJoin(e.segments, '/');
    assert e.Path() == "" + ['/'] + Join(e.segments, '/');
    SplitAtFirst("", '/', Join(e.segments, '/'));
    NonEmptyAppend([""], e.segments);
    NonEmptyKeepsAll(e.segments);
    assert NonEmpty([""]) == [] by {
      assert [""][1..] == [];
    }
  }
}
