/**
 * The front end's HTTP client set up in `axios.ts`: the base URL, the
 * request interceptor (parse `document.cookie`, attach the session's bearer
 * token) and the response interceptor (send a 401 to the sign-in page,
 * reject every error as an `Error`). Whether the code runs in a browser, the
 * cookie string, the session and the current pathname are parameters.
 */
module ApiClient {
  import opened Common
  import opened Text
  import Url
  import ServerAuth
  import Deps

  const DefaultApiUrl := "http://localhost:8000/api/v1"

  /** `NEXT_PUBLIC_API_URL ?? default`: only an unset variable falls back; an empty one is kept. */
  function ApiUrl(env: Option<string>): (r: string)
    ensures env.None? ==> r == DefaultApiUrl
    ensures env.Some? ==> r == env.value
  {
    match env
    case None => DefaultApiUrl
    case Some(url) => url
  }

  /** The headers every request starts with. */
  const DefaultHeaders := map["Content-Type" := "application/json"]

  // ---------------------------------------------------------------------------
  // Cookie parsing
  // ---------------------------------------------------------------------------

  /** The pieces of `cookie.trim().split("=")`. */
  function CookieParts(piece: string): seq<string>
  {
    Split(Trim(piece), '=')
  }

  /** `key`: the trimmed piece up to its first `=`. */
  function CookieKey(piece: string): (k: string)
    ensures '=' !in k
  {
    CookieParts(piece)[0]
  }

  /** `value`: the text between the first and second `=`, undefined when there is no `=`. */
  function CookieValue(piece: string): (v: Option<string>)
    ensures v.Some? ==> '=' !in v.value
  {
    var parts := CookieParts(piece);
    if |parts| >= 2 then Some(parts[1]) else None
  }

  /** The record the `reduce` builds from the pieces, as a left fold: each piece sets its key. */
  function FoldCookies(pieces: seq<string>): (r: map<string, Option<string>>)
  {
    if pieces == [] then map[]
    else
      var last := pieces[|pieces| - 1];
      FoldCookies(pieces[..|pieces| - 1])[CookieKey(last) := CookieValue(last)]
  }

  /** `document.cookie.split(";").reduce(...)`. */
  method ParseCookies(cookie: string) returns (cookies: map<string, Option<string>>)
    ensures cookies == FoldCookies(Split(cookie, ';'))
  {
    var pieces := Split(cookie, ';');
    cookies := ReduceCookies(pieces);
  }

  /** The `reduce` callback applied to the pieces one at a time, from an empty record. */
  method ReduceCookies(pieces: seq<string>) returns (cookies: map<string, Option<string>>)
    ensures cookies == FoldCookies(pieces)
  {
    cookies := map[];
    var i := 0;
    while i < |pieces|
      invariant 0 <= i <= |pieces|
      invariant cookies == FoldCookies(pieces[..i])
    {
      FoldStep(pieces, i);
      cookies := cookies[CookieKey(pieces[i]) := CookieValue(pieces[i])];
      i := i + 1;
    }
    assert pieces[..i] == pieces;
  }

  /** One more piece sets its own key on the record of the pieces before it. */
  lemma FoldStep(pieces: seq<string>, i: nat)
    requires i < |pieces|
    ensures FoldCookies(pieces[..i + 1]) == FoldCookies(pieces[..i])[CookieKey(pieces[i]) := CookieValue(pieces[i])]
  {
    var prefix := pieces[..i + 1];
    assert prefix[..|prefix| - 1] == pieces[..i];
    assert prefix[|prefix| - 1] == pieces[i];
  }

  /** What one piece contributes to the record: its key and its value. */
  type CookieEntry = (string, Option<string>)

  /** The entries of the pieces, in order. */
  function Entries(pieces: seq<string>): (es: seq<CookieEntry>)
    ensures |es| == |pieces|
    ensures forall i :: 0 <= i < |pieces| ==> es[i] == (CookieKey(pieces[i]), CookieValue(pieces[i]))
  {
    seq(|pieces|, i requires 0 <= i < |pieces| => (CookieKey(pieces[i]), CookieValue(pieces[i])))
  }

  /** The same left fold over entries. */
  function FoldEntries(es: seq<CookieEntry>): map<string, Option<string>>
  {
    if es == [] then map[] else FoldEntries(es[..|es| - 1])[es[|es| - 1].0 := es[|es| - 1].1]
  }

  /** Folding the pieces is folding their entries. */
  lemma {:induction false} FoldViaEntries(pieces: seq<string>)
    ensures FoldCookies(pieces) == FoldEntries(Entries(pieces))
    decreases |pieces|
  {
    if pieces != [] {
      var init := pieces[..|pieces| - 1];
      var es := Entries(pieces);
      assert Entries(init) == es[..|es| - 1];
      FoldViaEntries(init);
    }
  }

  /**
   * A trimmed piece `name=value` or `name=value=more`: the key is the name
   * and the value stops at the second `=`.
   */
  lemma CookiePair(piece: string, name: string, value: string, tail: string)
    requires '=' !in name && '=' !in value
    requires tail == [] || tail[0] == '='
    requires Trim(piece) == name + "=" + value + tail
    ensures CookieKey(piece) == name
    ensures CookieValue(piece) == Some(value)
  {
    PairParts(name, value, tail);
  }

  /** `name=value` followed by nothing or by `=...` splits on `=` into `name`, `value`, ... */
  lemma PairParts(name: string, value: string, tail: string)
    requires '=' !in name && '=' !in value
    requires tail == [] || tail[0] == '='
    ensures var parts := Split(name + "=" + value + tail, '=');
      |parts| >= 2 && parts[0] == name && parts[1] == value
  {
    assert name + "=" + value + tail == name + ['='] + (value + tail);
    SplitAtFirst(name, '=', value + tail);
    if tail == [] {
      SplitNoSeparator(value, '=');
      assert value + tail == value;
    } else {
      assert value + tail == value + ['='] + tail[1..];
      SplitAtFirst(value, '=', tail[1..]);
    }
  }

  /** A piece with no `=` sets its whole trimmed text as the key, with an undefined value. */
  lemma CookieWithoutValue(piece: string)
    requires '=' !in Trim(piece)
    ensures CookieKey(piece) == Trim(piece)
    ensures CookieValue(piece).None?
  {
    SplitNoSeparator(Trim(piece), '=');
  }

  /** Every entry's key is in the record. */
  lemma {:induction false} EntryKeysPresent(es: seq<CookieEntry>, i: int)
    requires 0 <= i < |es|
    ensures es[i].0 in FoldEntries(es)
    decreases |es|
  {
    if i < |es| - 1 {
      var init := es[..|es| - 1];
      assert init[i] == es[i];
      EntryKeysPresent(init, i);
    }
  }

  /** Every key of the record comes from some entry. */
  lemma {:induction false} EntryKeysFromEntries(es: seq<CookieEntry>, k: string)
    requires k in FoldEntries(es)
    ensures exists i :: 0 <= i < |es| && es[i].0 == k
    decreases |es|
  {
    var init := es[..|es| - 1];
    if k != es[|es| - 1].0 {
      EntryKeysFromEntries(init, k);
      var i :| 0 <= i < |init| && init[i].0 == k;
      assert es[i] == init[i];
    }
  }

  /** A later entry with the same key overwrites an earlier one: the last such entry decides. */
  lemma {:induction false} LastEntryWins(es: seq<CookieEntry>, j: int)
    requires 0 <= j < |es|
    requires forall i :: j < i < |es| ==> es[i].0 != es[j].0
    ensures es[j].0 in FoldEntries(es)
    ensures FoldEntries(es)[es[j].0] == es[j].1
    decreases |es|
  {
    if j < |es| - 1 {
      var init := es[..|es| - 1];
      assert init[j] == es[j];
      forall i | j < i < |init|
        ensures init[i].0 != init[j].0
      {
        assert init[i] == es[i];
      }
      LastEntryWins(init, j);
    }
  }

  /** The record's keys are exactly the pieces' keys. */
  lemma CookieKeys(pieces: seq<string>, k: string)
    ensures k in FoldCookies(pieces) <==> exists i :: 0 <= i < |pieces| && CookieKey(pieces[i]) == k
  {
    FoldViaEntries(pieces);
    var es := Entries(pieces);
    if k in FoldCookies(pieces) {
      EntryKeysFromEntries(es, k);
      var i :| 0 <= i < |es| && es[i].0 == k;
      assert CookieKey(pieces[i]) == k;
    }
    if exists i :: 0 <= i < |pieces| && CookieKey(pieces[i]) == k {
      var i :| 0 <= i < |pieces| && CookieKey(pieces[i]) == k;
      EntryKeysPresent(es, i);
    }
  }

  /** The last piece with a key decides that key's value. */
  lemma LastWriterWins(pieces: seq<string>, j: int)
    requires 0 <= j < |pieces|
    requires forall i :: j < i < |pieces| ==> CookieKey(pieces[i]) != CookieKey(pieces[j])
    ensures CookieKey(pieces[j]) in FoldCookies(pieces)
    ensures FoldCookies(pieces)[CookieKey(pieces[j])] == CookieValue(pieces[j])
  {
    FoldViaEntries(pieces);
    var es := Entries(pieces);
    forall i | j < i < |es| ensures es[i].0 != es[j].0 {
    }
    LastEntryWins(es, j);
  }

  // ---------------------------------------------------------------------------
  // Request interceptor
  // ---------------------------------------------------------------------------

  /** A request's configuration; the interceptor edits its headers in place. */
  class RequestConfig {
    var headers: map<string, string>

    constructor()
      ensures headers == DefaultHeaders
    {
      headers := DefaultHeaders;
    }
  }

  /** The token `session?.accessToken` yields, when it is truthy. */
  predicate HasToken(session: Option<ServerAuth.Session>)
  {
    session.Some? && session.value.accessToken != ""
  }

  /** The credentials of the bearer scheme, section 2.1 of RFC 6750. */
  function BearerHeader(token: string): (h: string)
    ensures |h| == |token| + 7 && h[7..] == token
  {
    "Bearer " + token
  }

  /** The header the interceptor writes carries the session's token back unchanged. */
  lemma BearerRoundTrip(token: string)
    ensures Deps.BearerCredentials(Some(BearerHeader(token))) == Ok(token)
  {
    assert BearerHeader(token) == "Bearer" + " " + token;
    assert Lower("Bearer") == "bearer";
    Deps.BearerCredentialsCases("Bearer", token);
  }

  /**
   * The request interceptor: in a browser it parses the cookie string (the
   * result is only logged) and sets `Authorization` when the session has a
   * token; outside a browser the configuration passes through untouched.
   */
  method RequestInterceptor(config: RequestConfig, inBrowser: bool, cookie: string,
                            session: Option<ServerAuth.Session>)
    returns (parsed: Option<map<string, Option<string>>>)
    modifies config
    ensures parsed.Some? <==> inBrowser
    ensures parsed.Some? ==> parsed.value == FoldCookies(Split(cookie, ';'))
    ensures inBrowser && HasToken(session) ==>
              config.headers == old(config.headers)["Authorization" := BearerHeader(session.value.accessToken)]
    ensures !(inBrowser && HasToken(session)) ==> config.headers == old(config.headers)
  {
    parsed := None;
    if inBrowser {
      var cookies := ParseCookies(cookie);
      parsed := Some(cookies);
      if HasToken(session) {
        config.headers := config.headers["Authorization" := BearerHeader(session.value.accessToken)];
      }
    }
  }

  // ---------------------------------------------------------------------------
  // Error handling
  // ---------------------------------------------------------------------------

  /**
   * A rejected value: whether it is an `Error`, its text (`String(error)`
   * for a non-`Error`), the status of a response it carries, and whether a
   * request went out without a response.
   */
  datatype Thrown = Thrown(isError: bool, message: string, response: Option<int>, hasRequest: bool)

  /** `error instanceof Error ? error : new Error(String(error))`. */
  function Wrap(e: Thrown): (r: Thrown)
    ensures r.isError
    ensures e.isError ==> r == e
    ensures !e.isError ==> r == Thrown(true, e.message, None, false)
  {
    if e.isError then e else Thrown(true, e.message, None, false)
  }

  /** Wrapping an already wrapped value changes nothing. */
  lemma WrapIdempotent(e: Thrown)
    ensures Wrap(Wrap(e)) == Wrap(e)
  {
  }

  /** The request interceptor's error handler only rejects, with the wrapped value. */
  function OnRequestError(e: Thrown): (rejected: Thrown)
    ensures rejected.isError && rejected.message == e.message
  {
    Wrap(e)
  }

  /** What the response error handler does: maybe navigate, then reject. */
  datatype ErrorHandling = ErrorHandling(navigate: Option<string>, rejected: Thrown)

  /** A 401 in a browser sends the window to the sign-in page, unless it is already there. */
  predicate RedirectsToSignIn(e: Thrown, inBrowser: bool, pathname: string)
  {
    e.response == Some(Unauthorized) && inBrowser && !Contains(pathname, ServerAuth.SignInPath)
  }

  /** The response interceptor's error handler. */
  function OnResponseError(e: Thrown, inBrowser: bool, pathname: string): (r: ErrorHandling)
    ensures r.navigate.Some? <==> RedirectsToSignIn(e, inBrowser, pathname)
    ensures r.navigate.Some? ==> r.navigate.value == ServerAuth.SignInPath
    ensures r.rejected == Wrap(e)
  {
    var navigate :=
      if e.response.Some? && e.response.value == Unauthorized && inBrowser
         && !Contains(pathname, ServerAuth.SignInPath)
      then Some(ServerAuth.SignInPath)
      else None;
    ErrorHandling(navigate, Wrap(e))
  }

  /** On any page whose path contains `/sign-in`, a 401 does not navigate, so there is no redirect loop. */
  lemma NoRedirectLoop(e: Thrown, inBrowser: bool, before: string, after: string)
    ensures OnResponseError(e, inBrowser, before + ServerAuth.SignInPath + after).navigate.None?
  {
    ContainsInfix(before, ServerAuth.SignInPath, after);
  }

  /** Statuses other than 401, request-only errors and plain errors never navigate. */
  lemma OnlyUnauthorizedNavigates(e: Thrown, inBrowser: bool, pathname: string)
    requires e.response != Some(Unauthorized)
    ensures OnResponseError(e, inBrowser, pathname).navigate.None?
    ensures OnResponseError(e, inBrowser, pathname).rejected.isError
  {
  }
}
