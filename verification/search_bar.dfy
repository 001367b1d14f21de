/**
  The search input (`SearchBar`): typing edits the term, Clear empties it,
  Enter submits the trimmed term when it is not blank, and a tag chip
  submits its text without the `#`. Each event yields the new term and the
  argument of the `onSearch` callback, if it was called.
 */
module SearchBar {
  import opened Common

  /** The tag chips shown under the input. */
  const TrendingTags: seq<string> := ["#trending", "#funny", "#reactions", "#memes", "#animals"]

  /**
    The characters `String.prototype.trim` removes: ECMAScript WhiteSpace
    (tab, vertical tab, form feed, space, no-break space, byte order mark and
    the space separators of category Zs) and LineTerminator.
   */
  const JsSpaceChars: set<char> := {
    '\U{0009}', '\U{000B}', '\U{000C}', '\U{0020}', '\U{00A0}', '\U{FEFF}',
    '\U{1680}', '\U{202F}', '\U{205F}', '\U{3000}',
    '\U{000A}', '\U{000D}', '\U{2028}', '\U{2029}'
  }

  predicate IsJsWhitespace(c: char) {
    c in JsSpaceChars || '\U{2000}' <= c <= '\U{200A}'
  }

  predicate Blank(s: string) {
    forall k :: 0 <= k < |s| ==> IsJsWhitespace(s[k])
  }

  /** Drop leading whitespace. */
  function TrimStart(s: string): (r: string)
    ensures |r| <= |s| && r == s[|s| - |r|..]
    ensures forall k :: 0 <= k < |s| - |r| ==> IsJsWhitespace(s[k])
    ensures r != [] ==> !IsJsWhitespace(r[0])
  {
    if s != [] && IsJsWhitespace(s[0]) then
      var r := TrimStart(s[1..]);
      assert s[1..][|s| - 1 - |r|..] == s[|s| - |r|..];
      assert forall k :: 1 <= k < |s| - |r| ==> s[k] == s[1..][k - 1];
      r
    else s
  }

  /** Drop trailing whitespace. */
  function TrimEnd(s: string): (r: string)
    ensures |r| <= |s| && r == s[..|r|]
    ensures forall k :: |r| <= k < |s| ==> IsJsWhitespace(s[k])
    ensures r != [] ==> !IsJsWhitespace(r[|r| - 1])
  {
    if s != [] && IsJsWhitespace(s[|s| - 1]) then
      var r := TrimEnd(s[..|s| - 1]);
      assert s[..|s| - 1][..|r|] == s[..|r|];
      assert forall k :: |r| <= k < |s| - 1 ==> s[k] == s[..|s| - 1][k];
      r
    else s
  }

  /** `r` is the slice of `s` starting at `i`, with only whitespace around it. */
  predicate TrimmedSlice(s: string, r: string, i: int) {
    && 0 <= i <= i + |r| <= |s|
    && r == s[i..i + |r|]
    && (forall k :: 0 <= k < i ==> IsJsWhitespace(s[k]))
    && (forall k :: i + |r| <= k < |s| ==> IsJsWhitespace(s[k]))
  }

  /** `String.prototype.trim`. */
  function Trim(s: string): (r: string)
    ensures TrimmedSlice(s, r, |s| - |TrimStart(s)|)
    ensures r != [] ==> !IsJsWhitespace(r[0]) && !IsJsWhitespace(r[|r| - 1])
    ensures r == [] <==> Blank(s)
  {
    TrimFacts(s);
    TrimEnd(TrimStart(s))
  }

  lemma TrimFacts(s: string)
    ensures TrimmedSlice(s, TrimEnd(TrimStart(s)), |s| - |TrimStart(s)|)
    ensures TrimEnd(TrimStart(s)) == [] <==> Blank(s)
    ensures var r := TrimEnd(TrimStart(s)); r != [] ==> !IsJsWhitespace(r[0]) && !IsJsWhitespace(r[|r| - 1])
  {
    TrimSlice(s);
    var t := TrimStart(s);
    var i := |s| - |t|;
    if t != [] {
      assert t[0] == s[i];
      assert !IsJsWhitespace(s[i]);
    }
    var r := TrimEnd(t);
    if r != [] {
      assert r[0] == t[0];
    }
  }

  lemma TrimSlice(s: string)
    ensures TrimmedSlice(s, TrimEnd(TrimStart(s)), |s| - |TrimStart(s)|)
  {
    var t := TrimStart(s);
    SliceOfSuffix(s, t, TrimEnd(t), |s| - |t|);
  }

  /** A prefix `r` of the suffix `t == s[i..]`, with whitespace on both sides, is a trimmed slice of `s`. */
  lemma SliceOfSuffix(s: string, t: string, r: string, i: int)
    requires 0 <= i <= |s| && t == s[i..]
    requires |r| <= |t| && r == t[..|r|]
    requires forall k :: 0 <= k < i ==> IsJsWhitespace(s[k])
    requires forall k :: |r| <= k < |t| ==> IsJsWhitespace(t[k])
    ensures TrimmedSlice(s, r, i)
  {
    assert r == s[i..i + |r|];
    forall k | i + |r| <= k < |s|
      ensures IsJsWhitespace(s[k])
    {
      assert s[k] == t[k - i];
    }
  }

  /** The index of the first `#`, or the length when there is none. */
  function FirstHash(s: string): (i: nat)
    ensures i <= |s|
    ensures '#' !in s[..i]
    ensures i < |s| <==> '#' in s
    ensures i < |s| ==> s[i] == '#'
  {
    if s == [] then 0
    else if s[0] == '#' then 0
    else
      var i := FirstHash(s[1..]);
      assert s[..i + 1] == [s[0]] + s[1..][..i];
      assert s[1..] == s[1..][..i] + s[1..][i..];
      i + 1
  }

  /** `tag.replace("#", "")`: a string pattern replaces its first occurrence only. */
  function RemoveFirstHash(s: string): (r: string)
    ensures '#' !in s ==> r == s
    ensures '#' in s ==> exists i :: (0 <= i < |s| && s[i] == '#' && '#' !in s[..i] && r == s[..i] + s[i + 1..])
  {
    var i := FirstHash(s);
    if i < |s| then s[..i] + s[i + 1..] else s
  }

  datatype BarState = BarState(term: string)

  datatype BarEvent =
    | Input(value: string)
    | Clear
    | KeyDown(key: string)
    | TagClick(tag: string)

  datatype BarStep = BarStep(state: BarState, onSearch: Option<string>)

  /** The four handlers of the search bar. */
  function Step(s: BarState, e: BarEvent): (r: BarStep)
    ensures r.onSearch.Some? ==> e.KeyDown? || e.TagClick?
    ensures e.KeyDown? ==> r.state == s
    ensures e.KeyDown? ==> (r.onSearch.Some? <==> e.key == "Enter" && !Blank(s.term))
    ensures e.KeyDown? && r.onSearch.Some? ==> r.onSearch.value == Trim(s.term) && r.onSearch.value != ""
    ensures e.TagClick? ==> r.onSearch == Some(r.state.term) && r.state.term == RemoveFirstHash(e.tag)
    ensures e.Clear? ==> r.state.term == ""
    ensures e.Input? ==> r.state.term == e.value
  {
    match e
    case Input(v) => BarStep(BarState(v), None)
    case Clear => BarStep(BarState(""), None)
    case KeyDown(key) =>
      if key == "Enter" && Trim(s.term) != "" then BarStep(s, Some(Trim(s.term))) else BarStep(s, None)
    case TagClick(tag) =>
      var query := RemoveFirstHash(tag);
      BarStep(BarState(query), Some(query))
  }

  /** A tag that starts with `#` loses exactly that character. */
  lemma LeadingHashStripped(tag: string)
    requires |tag| >= 1 && tag[0] == '#'
    ensures RemoveFirstHash(tag) == tag[1..]
  {
  }

  /** Every trending tag searches for its text without the leading `#`, never for "". */
  lemma TrendingTagsSearchTheirText(i: int)
    requires 0 <= i < |TrendingTags|
    ensures Step(BarState(""), TagClick(TrendingTags[i])).onSearch == Some(TrendingTags[i][1..])
    ensures TrendingTags[i][1..] != ""
  {
    LeadingHashStripped(TrendingTags[i]);
  }
}
