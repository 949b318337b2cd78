/**
 * The two values the admin header computes: the page title from the
 * pathname, and the avatar initials from the user's name. Upper-casing is
 * ASCII-only (`Text.Upper`).
 */
module SiteHeader {
  import opened Common
  import opened Text

  const Dashboard := "Dashboard"

  /** `pathname.split("/").filter(Boolean)`. */
  function Segments(pathname: string): (segs: seq<string>)
    ensures forall i :: 0 <= i < |segs| ==> segs[i] != "" && '/' !in segs[i]
  {
    var parts := Split(pathname, '/');
    var segs := NonEmpty(parts);
    assert forall i :: 0 <= i < |segs| ==> segs[i] in parts;
    segs
  }

  /** `titleMap`: the four known segments and their titles. */
  function KnownTitle(segment: string): Option<string>
  {
    if segment == "admin" then Some("Dashboard")
    else if segment == "items" then Some("Items")
    else if segment == "users" then Some("Users")
    else if segment == "settings" then Some("Settings")
    else None
  }

  /** `s.charAt(0).toUpperCase() + s.slice(1)`. */
  function Capitalize(s: string): (r: string)
    ensures |r| == |s|
    ensures s != "" ==> r[0] == UpperChar(s[0]) && r[1..] == s[1..]
  {
    if s == "" then "" else [UpperChar(s[0])] + s[1..]
  }

  /** The title of one segment: its mapped title, else the segment capitalised. */
  function SegmentTitle(segment: string): (t: string)
    ensures KnownTitle(segment).Some? ==> t == KnownTitle(segment).value
    ensures KnownTitle(segment).None? ==> t == Capitalize(segment)
  {
    match KnownTitle(segment)
    case Some(title) => title
    case None => Capitalize(segment)
  }

  /**
   * `pageTitle`: "Dashboard" for a missing or empty pathname and for one
   * without segments; otherwise the title of the last segment, which is never empty.
   */
  function PageTitle(pathname: Option<string>): (t: string)
    ensures pathname.None? || pathname.value == "" ==> t == Dashboard
    ensures pathname.Some? && Segments(pathname.value) == [] ==> t == Dashboard
    ensures pathname.Some? && Segments(pathname.value) != [] ==>
              t == SegmentTitle(Segments(pathname.value)[|Segments(pathname.value)| - 1])
    ensures t != ""
  {
    if pathname.None? || pathname.value == "" then Dashboard
    else
      var segs := Segments(pathname.value);
      if segs == [] then Dashboard else SegmentTitle(segs[|segs| - 1])
  }

  /** Only the last segment decides the title: whatever comes before `/segment` is ignored. */
  lemma LastSegmentDecides(prefix: string, segment: string)
    requires segment != "" && '/' !in segment
    ensures PageTitle(Some(prefix + "/" + segment)) == SegmentTitle(segment)
  {
    SplitAtLast(prefix, '/', segment);
    NonEmptyAppend(Split(prefix, '/'), [segment]);
    assert NonEmpty([segment]) == [segment] by {
      assert [segment][1..] == [];
    }
  }

  /** A trailing slash does not change the title. */
  lemma TrailingSlashIgnored(pathname: string)
    ensures PageTitle(Some(pathname + "/")) == PageTitle(Some(pathname))
  {
    SplitAtLast(pathname, '/', "");
    assert pathname + "/" == pathname + ['/'] + "";
    NonEmptyAppend(Split(pathname, '/'), [""]);
    assert NonEmpty([""]) == [] by {
      assert [""][1..] == [];
    }
    assert Segments(pathname + "/") == Segments(pathname);
    if pathname == "" {
      assert Split("", '/') == [""];
      assert Segments(pathname) == [];
    }
  }

  /** Under any prefix, the four known segments get their mapped titles and no others do. */
  lemma KnownSegmentTitle(prefix: string, segment: string)
    requires segment != "" && '/' !in segment
    ensures KnownTitle(segment).Some? <==> segment in {"admin", "items", "users", "settings"}
    ensures KnownTitle(segment).Some? ==> PageTitle(Some(prefix + "/" + segment)) == KnownTitle(segment).value
    ensures KnownTitle(segment).None? ==> PageTitle(Some(prefix + "/" + segment)) == Capitalize(segment)
  {
    LastSegmentDecides(prefix, segment);
  }

  // ---------------------------------------------------------------------------
  // Initials
  // ---------------------------------------------------------------------------

  const DefaultInitials := "U"

  /** `part[0]`: a character, or `undefined` for an empty part. */
  datatype Indexed = Char(c: char) | Undefined

  function FirstChar(part: string): (r: Indexed)
    ensures r.Undefined? <==> part == ""
  {
    if part == "" then Undefined else Char(part[0])
  }

  /** The outcome of the initials expression: a string, or the `TypeError` of `NaN.toUpperCase()`. */
  datatype Initials = Text(text: string) | TypeError

  /** JavaScript's rendering of an indexed value inside a string concatenation. */
  function Shown(x: Indexed): string
  {
    match x
    case Char(c) => [c]
    case Undefined => "undefined"
  }

  /**
   * `(a + b).toUpperCase()` for two indexed values: `undefined + undefined`
   * is `NaN`, a number without `toUpperCase`; otherwise a string.
   */
  function UpperConcat(a: Indexed, b: Indexed): (r: Initials)
    ensures r.TypeError? <==> a.Undefined? && b.Undefined?
  {
    if a.Undefined? && b.Undefined? then TypeError else Text(Upper(Shown(a) + Shown(b)))
  }

  /** The first two characters of `s`, as `substring(0, 2)`. */
  function FirstTwo(s: string): (r: string)
    ensures |r| <= 2 && |r| <= |s| && r == s[..|r|]
    ensures |s| >= 2 ==> |r| == 2
    ensures |s| < 2 ==> r == s
  {
    if |s| <= 2 then s else s[..2]
  }

  /**
   * `userInitials` as written: "U" without a name; with two or more
   * space-separated parts the first characters of the first and last part,
   * even when a part is empty; otherwise the first two characters.
   */
  function UserInitialsAsWritten(name: Option<string>): (r: Initials)
    ensures name.None? || name.value == "" ==> r == Text(DefaultInitials)
  {
    if name.None? || name.value == "" then Text(DefaultInitials)
    else
      var parts := Split(name.value, ' ');
      if |parts| >= 2 then UpperConcat(FirstChar(parts[0]), FirstChar(parts[|parts| - 1]))
      else Text(Upper(FirstTwo(name.value)))
  }

  /** A trailing space turns the last initial into the text "UNDEFINED". */
  lemma TrailingSpaceShowsUndefined()
    ensures UserInitialsAsWritten(Some("Ada ")) == Text("AUNDEFINED")
  {
    SplitAtFirst("Ada", ' ', "");
    assert "Ada " == "Ada" + [' '] + "";
    assert Split("", ' ') == [""];
    assert Split("Ada ", ' ') == ["Ada", ""];
    var shown := Shown(Char('A')) + Shown(Undefined);
    assert shown == "Aundefined";
    assert Upper(shown) == "AUNDEFINED";
  }

  /** A name of one space makes the header throw. */
  lemma SpaceOnlyNameThrows()
    ensures UserInitialsAsWritten(Some(" ")) == TypeError
  {
    SplitAtFirst("", ' ', "");
    assert " " == "" + [' '] + "";
    assert Split("", ' ') == [""];
  }

  /**
   * The initials as evidently intended: the parts are the non-empty
   * space-separated words; with none the default, with one its first two
   * characters, otherwise the first characters of the first and last word.
   */
  function UserInitials(name: Option<string>): (r: string)
    ensures name.None? || NonEmpty(Split(name.value, ' ')) == [] ==> r == DefaultInitials
    ensures 1 <= |r| <= 2
    ensures forall i :: 0 <= i < |r| ==> r[i] == UpperChar(r[i])
  {
    if name.None? then DefaultInitials
    else
      var words := NonEmpty(Split(name.value, ' '));
      if words == [] then DefaultInitials
      else if |words| == 1 then UpperIdempotent(FirstTwo(words[0])); Upper(FirstTwo(words[0]))
      else UpperIdempotent([words[0][0], words[|words| - 1][0]]); Upper([words[0][0], words[|words| - 1][0]])
  }

  /** Upper-cased text is already upper case. */
  lemma UpperIdempotent(s: string)
    ensures forall i :: 0 <= i < |Upper(s)| ==> UpperChar(Upper(s)[i]) == Upper(s)[i]
  {
  }

  /** Two words separated by one space give their upper-cased first letters. */
  lemma TwoWordInitials(first: string, last: string)
    requires first != "" && last != "" && ' ' !in first && ' ' !in last
    ensures UserInitials(Some(first + " " + last)) == Upper([first[0], last[0]])
  {
    SplitAtFirst(first, ' ', last);
    assert first + " " + last == first + [' '] + last;
    SplitNoSeparator(last, ' ');
    NonEmptyAppend([first], [last]);
    assert NonEmpty([first]) == [first] by { assert [first][1..] == []; }
    assert NonEmpty([last]) == [last] by { assert [last][1..] == []; }
    assert [first] + [last] == [first, last];
  }

  /**
   * For words joined by single spaces: one word gives its first two
   * characters, two or more give the first letters of the first and the last
   * word, upper-cased either way.
   */
  lemma WordsInitials(words: seq<string>)
    requires |words| >= 1
    requires forall i :: 0 <= i < |words| ==> words[i] != "" && ' ' !in words[i]
    ensures |words| == 1 ==> UserInitials(Some(Join(words, ' '))) == Upper(FirstTwo(words[0]))
    ensures |words| >= 2 ==> UserInitials(Some(Join(words, ' '))) == Upper([words[0][0], words[|words| - 1][0]])
  {
    SplitJoin(words, ' ');
    NonEmptyKeepsAll(words);
    InitialsOfWords(Join(words, ' '), words);
  }

  /** The initials of a name depend only on its non-empty words. */
  lemma InitialsOfWords(name: string, words: seq<string>)
    requires words == NonEmpty(Split(name, ' ')) && |words| >= 1
    ensures |words| == 1 ==> UserInitials(Some(name)) == Upper(FirstTwo(words[0]))
    ensures |words| >= 2 ==> UserInitials(Some(name)) == Upper([words[0][0], words[|words| - 1][0]])
  {
  }

  /**
   * Where no part is empty (no leading, trailing or doubled space) the
   * code as written and the intended initials agree.
   */
  lemma InitialsAgreeWithoutEmptyParts(name: string)
    requires name != ""
    requires forall i :: 0 <= i < |Split(name, ' ')| ==> Split(name, ' ')[i] != ""
    ensures UserInitialsAsWritten(Some(name)) == Text(UserInitials(Some(name)))
  {
    var parts := Split(name, ' ');
    NonEmptyKeepsAll(parts);
    if |parts| == 1 {
      JoinSplit(name, ' ');
    }
  }
}
