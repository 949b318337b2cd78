/**
 * The URL helpers the query hooks use: `encodeURIComponent` (with its inverse
 * `decodeURIComponent`), and `URLSearchParams` as a list of name/value pairs
 * with the `application/x-www-form-urlencoded` serialisation, its parser, and
 * the in-place `set`/`delete` operations.
 *
 * Characters below 128 are percent-encoded exactly as the browser does; other
 * characters are passed through unchanged (their UTF-8 encoding is not modelled).
 */
module Url {
  import opened Common
  import opened Text

  function HexDigit(n: nat): char
    requires n < 16
  {
    if n < 10 then ('0' as int + n) as char else ('A' as int + n - 10) as char
  }

  /** `%XY` for a character below 128, with upper-case hex digits. */
  function Escape(c: char): (r: string)
    requires c as int < 128
    ensures |r| == 3 && r[0] == '%' && IsHex(r[1]) && IsHex(r[2])
    ensures HexValue(r[1]) * 16 + HexValue(r[2]) == c as int
  {
    ['%', HexDigit(c as int / 16), HexDigit(c as int % 16)]
  }

  predicate IsAlphaNumeric(c: char)
  {
    ('0' <= c <= '9') || ('A' <= c <= 'Z') || ('a' <= c <= 'z')
  }

  /** Characters `encodeURIComponent` leaves as they are. */
  predicate UriUnreserved(c: char)
  {
    IsAlphaNumeric(c) || c == '-' || c == '_' || c == '.' || c == '!' || c == '~'
    || c == '*' || c == '\'' || c == '(' || c == ')'
  }

  /** Characters that delimit the parts of a URL or of a query string. */
  predicate IsDelimiter(c: char)
  {
    c == '&' || c == '=' || c == '#' || c == '?' || c == '+' || c == '%' || c == ' ' || c == '/'
  }

  function EncodeUriChar(c: char): string
  {
    if UriUnreserved(c) || c as int >= 128 then [c] else Escape(c)
  }

  /**
   * `encodeURIComponent(s)`: the result holds no URL delimiter other than the
   * `%` that starts an escape, so it cannot end the query parameter it is put in.
   */
  function EncodeURIComponent(s: string): (r: string)
    ensures forall i :: 0 <= i < |r| && r[i] != '%' ==> !IsDelimiter(r[i])
  {
    if s == [] then [] else EncodeUriChar(s[0]) + EncodeURIComponent(s[1..])
  }

  /** `decodeURIComponent(s)`; `None` where the browser throws a URIError. */
  function DecodeURIComponent(s: string): Option<string>
  {
    if s == [] then Some([])
    else if s[0] == '%' then
      if |s| >= 3 && IsHex(s[1]) && IsHex(s[2]) && HexValue(s[1]) < 8 then
        match DecodeURIComponent(s[3..])
        case Some(t) => Some([(HexValue(s[1]) * 16 + HexValue(s[2])) as char] + t)
        case None => None
      else None
    else
      match DecodeURIComponent(s[1..])
      case Some(t) => Some([s[0]] + t)
      case None => None
  }

  /** Decoding undoes encoding, for every string. */
  lemma {:induction false} UriComponentRoundTrip(s: string)
    ensures DecodeURIComponent(EncodeURIComponent(s)) == Some(s)
    decreases |s|
  {
    if s != [] {
      var c, e, rest := s[0], EncodeUriChar(s[0]), EncodeURIComponent(s[1..]);
      UriComponentRoundTrip(s[1..]);
      var enc := e + rest;
      assert EncodeURIComponent(s) == enc;
      if UriUnreserved(c) || c as int >= 128 {
        assert enc[0] == c && enc[1..] == rest;
      } else {
        assert enc[0] == '%' && enc[1] == e[1] && enc[2] == e[2] && enc[3..] == rest;
        assert HexValue(e[1]) < 8;
      }
      assert s == [c] + s[1..];
    }
  }

  /** Characters the `application/x-www-form-urlencoded` serialiser leaves as they are. */
  predicate FormUnreserved(c: char)
  {
    IsAlphaNumeric(c) || c == '*' || c == '-' || c == '.' || c == '_'
  }

  function FormEncodeChar(c: char): string
  {
    if FormUnreserved(c) || c as int >= 128 then [c]
    else if c == ' ' then ['+']
    else Escape(c)
  }

  /** The form-urlencoded serialisation of one name or value. */
  function FormEncode(s: string): (r: string)
    ensures forall i :: 0 <= i < |r| && r[i] != '%' && r[i] != '+' ==> !IsDelimiter(r[i])
  {
    if s == [] then [] else FormEncodeChar(s[0]) + FormEncode(s[1..])
  }

  /**
   * The form-urlencoded parser for one name or value: `+` is a space, `%XY`
   * below 128 is that character, anything else is kept as it is.
   */
  function FormDecode(s: string): string
  {
    if s == [] then []
    else if s[0] == '+' then [' '] + FormDecode(s[1..])
    else if s[0] == '%' && |s| >= 3 && IsHex(s[1]) && IsHex(s[2]) && HexValue(s[1]) < 8 then
      [(HexValue(s[1]) * 16 + HexValue(s[2])) as char] + FormDecode(s[3..])
    else [s[0]] + FormDecode(s[1..])
  }

  /** Form-decoding undoes form-encoding, for every string. */
  lemma {:induction false} FormRoundTrip(s: string)
    ensures FormDecode(FormEncode(s)) == s
    decreases |s|
  {
    if s != [] {
      var c, e, rest := s[0], FormEncodeChar(s[0]), FormEncode(s[1..]);
      FormRoundTrip(s[1..]);
      var enc := e + rest;
      assert FormEncode(s) == enc;
      if FormUnreserved(c) || c as int >= 128 {
        assert enc[0] == c && enc[1..] == rest;
      } else if c == ' ' {
        assert enc[0] == '+' && enc[1..] == rest;
      } else {
        assert enc[0] == '%' && enc[1] == e[1] && enc[2] == e[2] && enc[3..] == rest;
        assert HexValue(e[1]) < 8;
      }
      assert s == [c] + s[1..];
    }
  }

  // ---------------------------------------------------------------------------
  // URLSearchParams

  type Param = (string, string)

  /** The text before the first `c` (all of `s` when there is none). */
  function BeforeFirst(s: string, c: char): (r: string)
    ensures c !in r
  {
    if s == [] || s[0] == c then [] else [s[0]] + BeforeFirst(s[1..], c)
  }

  /** The text after the first `c` (empty when there is none). */
  function AfterFirst(s: string, c: char): string
  {
    if s == [] then [] else if s[0] == c then s[1..] else AfterFirst(s[1..], c)
  }

  lemma {:induction false} FirstSplit(a: string, c: char, b: string)
    requires c !in a
    ensures BeforeFirst(a + [c] + b, c) == a
    ensures AfterFirst(a + [c] + b, c) == b
    decreases |a|
  {
    var s := a + [c] + b;
    if a == [] {
      assert s == [c] + b;
    } else {
      FirstSplit(a[1..], c, b);
      assert s[0] == a[0] && s[1..] == a[1..] + [c] + b;
      assert [a[0]] + a[1..] == a;
    }
  }

  /** One `name=value` piece of the serialisation. */
  function ParamPiece(p: Param): string
  {
    FormEncode(p.0) + "=" + FormEncode(p.1)
  }

  function ParamPieces(ps: seq<Param>): (r: seq<string>)
    ensures |r| == |ps|
    ensures forall i :: 0 <= i < |r| ==> r[i] == ParamPiece(ps[i])
  {
    if ps == [] then [] else [ParamPiece(ps[0])] + ParamPieces(ps[1..])
  }

  /** `params.toString()`. */
  function SerializeParams(ps: seq<Param>): string
  {
    Join(ParamPieces(ps), '&')
  }

  /** Parsing the pieces of a query string; empty pieces are skipped. */
  function ParsePieces(pieces: seq<string>): seq<Param>
  {
    if pieces == [] then []
    else if pieces[0] == "" then ParsePieces(pieces[1..])
    else [(FormDecode(BeforeFirst(pieces[0], '=')), FormDecode(AfterFirst(pieces[0], '=')))]
         + ParsePieces(pieces[1..])
  }

  /** `new URLSearchParams(s)`: a leading `?` is dropped, then the pieces between `&` are parsed. */
  function ParseParams(s: string): seq<Param>
  {
    var body := if s != [] && s[0] == '?' then s[1..] else s;
    ParsePieces(Split(body, '&'))
  }

  lemma {:induction false} ParsePiecesOfSerialized(ps: seq<Param>)
    ensures ParsePieces(ParamPieces(ps)) == ps
    decreases |ps|
  {
    if ps != [] {
      var piece := ParamPiece(ps[0]);
      ParsePiecesOfSerialized(ps[1..]);
      assert piece == FormEncode(ps[0].0) + ['='] + FormEncode(ps[0].1);
      FirstSplit(FormEncode(ps[0].0), '=', FormEncode(ps[0].1));
      FormRoundTrip(ps[0].0);
      FormRoundTrip(ps[0].1);
      assert piece != "";
      assert ParamPieces(ps)[1..] == ParamPieces(ps[1..]);
    }
  }

  /** No serialised piece holds a `&` or a `?`. */
  lemma PiecesHaveNoSeparators(ps: seq<Param>)
    ensures forall i :: 0 <= i < |ps| ==> '&' !in ParamPiece(ps[i]) && '?' !in ParamPiece(ps[i])
  {
    forall i | 0 <= i < |ps|
      ensures '&' !in ParamPiece(ps[i]) && '?' !in ParamPiece(ps[i])
    {
      var a, b := FormEncode(ps[i].0), FormEncode(ps[i].1);
      assert ParamPiece(ps[i]) == a + "=" + b;
      assert forall j :: 0 <= j < |a| ==> a[j] != '&' && a[j] != '?';
      assert forall j :: 0 <= j < |b| ==> b[j] != '&' && b[j] != '?';
    }
  }

  /** Parsing the serialisation of a parameter list gives back the same list. */
  lemma SerializeParseRoundTrip(ps: seq<Param>)
    ensures ParseParams(SerializeParams(ps)) == ps
  {
    var pieces := ParamPieces(ps);
    if ps == [] {
      assert SerializeParams(ps) == "";
      assert Split("", '&') == [""];
      assert ParsePieces([""]) == [];
    } else {
      PiecesHaveNoSeparators(ps);
      SplitJoin(pieces, '&');
      var s := SerializeParams(ps);
      assert pieces[0] == FormEncode(ps[0].0) + "=" + FormEncode(ps[0].1);
      assert s[0] != '?' by {
        if |pieces| == 1 {
          assert s == pieces[0];
        } else {
          assert s == pieces[0] + ['&'] + Join(pieces[1..], '&');
        }
        assert s[0] == pieces[0][0];
      }
      assert ParseParams(s) == ParsePieces(Split(s, '&'));
      ParsePiecesOfSerialized(ps);
    }
  }

  /** `toString()` is empty exactly when there are no parameters. */
  lemma SerializeEmptyIff(ps: seq<Param>)
    ensures (SerializeParams(ps) == "") <==> (ps == [])
  {
    if ps != [] {
      var pieces := ParamPieces(ps);
      assert '=' in pieces[0];
      if |pieces| > 1 {
        assert SerializeParams(ps) == pieces[0] + ['&'] + Join(pieces[1..], '&');
      }
    }
  }

  /** `params.get(name)`: the value of the first pair with that name. */
  function GetParam(ps: seq<Param>, name: string): (r: Option<string>)
    ensures r.None? <==> forall i :: 0 <= i < |ps| ==> ps[i].0 != name
  {
    if ps == [] then None
    else if ps[0].0 == name then Some(ps[0].1)
    else GetParam(ps[1..], name)
  }

  /** `params.delete(name)`: every pair with that name is removed, the rest keep their order. */
  function DeleteParam(ps: seq<Param>, name: string): (r: seq<Param>)
    ensures forall i :: 0 <= i < |r| ==> r[i].0 != name && r[i] in ps
  {
    if ps == [] then []
    else if ps[0].0 == name then DeleteParam(ps[1..], name)
    else [ps[0]] + DeleteParam(ps[1..], name)
  }

  function ReplaceFirst(ps: seq<Param>, name: string, value: string): seq<Param>
  {
    if ps == [] then []
    else if ps[0].0 == name then [(name, value)] + DeleteParam(ps[1..], name)
    else [ps[0]] + ReplaceFirst(ps[1..], name, value)
  }

  /**
   * `params.set(name, value)`: the first pair with that name takes the value and
   * the others with that name are removed; with none, the pair is appended.
   */
  function SetParam(ps: seq<Param>, name: string, value: string): seq<Param>
  {
    if GetParam(ps, name).Some? then ReplaceFirst(ps, name, value) else ps + [(name, value)]
  }

  lemma {:induction false} DeleteIdempotent(ps: seq<Param>, name: string)
    ensures DeleteParam(DeleteParam(ps, name), name) == DeleteParam(ps, name)
    decreases |ps|
  {
    if ps != [] {
      DeleteIdempotent(ps[1..], name);
    }
  }

  lemma {:induction false} DeleteAbsent(ps: seq<Param>, name: string)
    requires GetParam(ps, name).None?
    ensures DeleteParam(ps, name) == ps
    decreases |ps|
  {
    if ps != [] {
      DeleteAbsent(ps[1..], name);
    }
  }

  lemma {:induction false} ReplaceFirstFacts(ps: seq<Param>, name: string, value: string)
    requires GetParam(ps, name).Some?
    ensures DeleteParam(ReplaceFirst(ps, name, value), name) == DeleteParam(ps, name)
    ensures GetParam(ReplaceFirst(ps, name, value), name) == Some(value)
    decreases |ps|
  {
    if ps[0].0 == name {
      DeleteIdempotent(ps[1..], name);
    } else {
      ReplaceFirstFacts(ps[1..], name, value);
    }
  }

  lemma {:induction false} DeleteAppend(ps: seq<Param>, p: Param, name: string)
    requires p.0 == name
    ensures DeleteParam(ps + [p], name) == DeleteParam(ps, name)
    decreases |ps|
  {
    if ps == [] {
      assert DeleteParam([p], name) == DeleteParam([], name);
    } else {
      DeleteAppend(ps[1..], p, name);
      assert (ps + [p])[1..] == ps[1..] + [p];
    }
  }

  lemma {:induction false} GetAppend(ps: seq<Param>, p: Param)
    requires GetParam(ps, p.0).None?
    ensures GetParam(ps + [p], p.0) == Some(p.1)
    decreases |ps|
  {
    if ps == [] {
    } else {
      GetAppend(ps[1..], p);
      assert (ps + [p])[1..] == ps[1..] + [p];
    }
  }

  /**
   * After `set(name, value)` the name has exactly the value `value` and every
   * other pair is still there, in its old order.
   */
  lemma SetParamSpec(ps: seq<Param>, name: string, value: string)
    ensures GetParam(SetParam(ps, name, value), name) == Some(value)
    ensures DeleteParam(SetParam(ps, name, value), name) == DeleteParam(ps, name)
  {
    if GetParam(ps, name).Some? {
      ReplaceFirstFacts(ps, name, value);
    } else {
      GetAppend(ps, (name, value));
      DeleteAppend(ps, (name, value), name);
    }
  }

  /** After `delete(name)` the name is gone and every other pair is still there, in order. */
  lemma DeleteParamSpec(ps: seq<Param>, name: string)
    ensures GetParam(DeleteParam(ps, name), name).None?
    ensures DeleteParam(DeleteParam(ps, name), name) == DeleteParam(ps, name)
  {
    DeleteIdempotent(ps, name);
  }

  /** A `URLSearchParams` object, which the hooks copy and then change in place. */
  class SearchParams {
    var entries: seq<Param>

    /** `new URLSearchParams(init)`. */
    constructor (init: string)
      ensures entries == ParseParams(init)
    {
      entries := ParseParams(init);
    }

    method Set(name: string, value: string)
      modifies this
      ensures entries == SetParam(old(entries), name, value)
    {
      entries := SetParam(entries, name, value);
    }

    method Delete(name: string)
      modifies this
      ensures entries == DeleteParam(old(entries), name)
    {
      entries := DeleteParam(entries, name);
    }

    function ToString(): (s: string)
      reads this
      ensures (s == "") <==> (entries == [])
    {
      SerializeEmptyIff(entries);
      SerializeParams(entries)
    }
  }
}
