/**
  Test filters: the wildcard matcher and its lists of patterns.
  Strings are C strings: the first NUL character, if there is one, ends the text.
 */
module Filters {
  import opened CStrings

  /** The first pattern of a list. */
  function Pattern(s: string): string {
    Before(s, {'\0', ':'})
  }

  // ----- what a wildcard pattern means

  ghost predicate Fits(c: char, piece: string) {
    c == '*' || (if c == '?' then |piece| == 1 else piece == [c])
  }

  ghost function Concat(pieces: seq<string>): string {
    if pieces == [] then [] else pieces[0] + Concat(pieces[1..])
  }

  ghost predicate CutsUp(pattern: string, str: string, pieces: seq<string>) {
    && |pieces| == |pattern| && Concat(pieces) == str
    && forall k :: 0 <= k < |pattern| ==> Fits(pattern[k], pieces[k])
  }

  /** The string can be cut into one piece per pattern character: any piece, one character, or the character itself. */
  ghost predicate Glob(pattern: string, str: string) {
    exists pieces: seq<string> :: CutsUp(pattern, str, pieces)
  }

  lemma GlobEmpty(str: string)
    ensures Glob([], str) <==> str == []
  {
    if str == [] {
      assert CutsUp([], str, []);
    }
  }

  lemma GlobCut(pattern: string, str: string) returns (n: nat)
    requires pattern != [] && Glob(pattern, str)
    ensures n <= |str| && Fits(pattern[0], str[..n]) && Glob(pattern[1..], str[n..])
  {
    var pieces: seq<string> :| CutsUp(pattern, str, pieces);
    n := |pieces[0]|;
    assert str == pieces[0] + Concat(pieces[1..]);
    assert str[..n] == pieces[0] && str[n..] == Concat(pieces[1..]);
    assert CutsUp(pattern[1..], str[n..], pieces[1..]);
  }

  lemma GlobPaste(pattern: string, str: string, n: nat)
    requires pattern != [] && n <= |str| && Fits(pattern[0], str[..n]) && Glob(pattern[1..], str[n..])
    ensures Glob(pattern, str)
  {
    var pieces: seq<string> :| CutsUp(pattern[1..], str[n..], pieces);
    var all := [str[..n]] + pieces;
    assert all[1..] == pieces && str == str[..n] + str[n..];
    forall k | 0 <= k < |pattern| ensures Fits(pattern[k], all[k]) {
      assert k > 0 ==> Fits(pattern[1..][k - 1], pieces[k - 1]);
    }
    assert CutsUp(pattern, str, all);
  }

  lemma GlobOne(pattern: string, str: string)
    requires pattern != [] && pattern[0] != '*'
    ensures Glob(pattern, str) <==>
      str != [] && (pattern[0] == '?' || pattern[0] == str[0]) && Glob(pattern[1..], str[1..])
  {
    if Glob(pattern, str) {
      var n := GlobCut(pattern, str);
      assert n == 1;
    }
    if str != [] && (pattern[0] == '?' || pattern[0] == str[0]) && Glob(pattern[1..], str[1..]) {
      assert str[..1] == [str[0]];
      GlobPaste(pattern, str, 1);
    }
  }

  lemma GlobStar(pattern: string, str: string)
    requires pattern != [] && pattern[0] == '*'
    ensures Glob(pattern, str) <==> (str != [] && Glob(pattern, str[1..])) || Glob(pattern[1..], str)
  {
    if Glob(pattern, str) {
      var n := GlobCut(pattern, str);
      if n > 0 {
        assert str[1..][n - 1..] == str[n..];
        GlobPaste(pattern, str[1..], n - 1);
      } else {
        assert str[0..] == str;
      }
    }
    if Glob(pattern[1..], str) {
      assert str[0..] == str;
      GlobPaste(pattern, str, 0);
    } else if str != [] && Glob(pattern, str[1..]) {
      var n := GlobCut(pattern, str[1..]);
      assert str[1..][n..] == str[n + 1..];
      GlobPaste(pattern, str, n + 1);
    }
  }

  // ----- the matcher

  function PatternMatchesString(pattern: string, str: string): bool
    decreases |pattern|, |str|
  {
    var atEnd := str == [] || str[0] == '\0';
    if pattern == [] || pattern[0] == '\0' || pattern[0] == ':' then
      atEnd
    else if pattern[0] == '?' then
      !atEnd && PatternMatchesString(pattern[1..], str[1..])
    else if pattern[0] == '*' then
      (!atEnd && PatternMatchesString(pattern, str[1..])) || PatternMatchesString(pattern[1..], str)
    else
      !atEnd && pattern[0] == str[0] && PatternMatchesString(pattern[1..], str[1..])
  }

  lemma {:induction false} MatchesAsGlob(pattern: string, str: string)
    ensures PatternMatchesString(pattern, str) <==> Glob(Pattern(pattern), Text(str))
    decreases |pattern|, |str|
  {
    var p, s := Pattern(pattern), Text(str);
    if p == [] {
      GlobEmpty(s);
    } else {
      BeforeStep(pattern, {'\0', ':'});
      if s != [] {
        BeforeStep(str, {'\0'});
        MatchesAsGlob(pattern[1..], str[1..]);
      }
      if pattern[0] == '*' {
        GlobStar(p, s);
        MatchesAsGlob(pattern[1..], str);
        if s != [] {
          MatchesAsGlob(pattern, str[1..]);
        }
      } else {
        GlobOne(p, s);
      }
    }
  }

  // ----- lists of patterns

  /** A maximal stretch without a colon. */
  ghost predicate IsSegment(filter: string, a: nat, b: nat) {
    && a <= b <= |filter| && (a == 0 || filter[a - 1] == ':') && (b == |filter| || filter[b] == ':')
    && forall k :: a <= k < b ==> filter[k] != ':'
  }

  ghost predicate SegmentMatches(name: string, filter: string, a: nat, b: nat) {
    IsSegment(filter, a, b) && Glob(filter[a..b], name)
  }

  /** One of the patterns of the filter matches the name. */
  ghost predicate SomeSegment(name: string, filter: string) {
    exists a: nat, b: nat :: SegmentMatches(name, filter, a, b)
  }

  /** The next segment is what the matcher takes as its pattern. */
  lemma PatternIsSegment(filter: string, a: nat)
    requires a <= |Text(filter)| && (a == 0 || Text(filter)[a - 1] == ':')
    ensures a + |Pattern(filter[a..])| <= |Text(filter)|
    ensures var b := a + |Pattern(filter[a..])|;
      IsSegment(Text(filter), a, b) && Text(filter)[a..b] == Pattern(filter[a..])
  {
    StopsFirst(filter, a);
    var b := a + |Pattern(filter[a..])|;
    forall k | a <= k < b ensures Text(filter)[k] == filter[a..][k - a] == Pattern(filter[a..])[k - a] {
    }
    assert b < |filter| ==> filter[a..][b - a] == filter[b];
  }

  /** A pattern does not run past the end of the text. */
  lemma StopsFirst(filter: string, a: nat)
    requires a <= |Text(filter)|
    ensures a + |Pattern(filter[a..])| <= |Text(filter)|
  {
    var n, p := |Text(filter)|, Pattern(filter[a..]);
    forall k | a <= k < a + |p| ensures filter[k] != '\0' {
      assert p[k - a] == filter[a..][k - a];
    }
  }

  lemma SegmentsAgree(filter: string, a: nat, b: nat, c: nat)
    requires IsSegment(filter, a, b) && IsSegment(filter, a, c)
    ensures b == c
  {
  }

  method MatchesFilter(name: string, filter: string) returns (matches: bool)
    ensures matches <==> SomeSegment(Text(name), Text(filter))
  {
    var cur := 0;
    while true
      invariant 0 <= cur <= |Text(filter)| && (cur == 0 || Text(filter)[cur - 1] == ':')
      invariant forall a: nat, b: nat :: a < cur ==> !SegmentMatches(Text(name), Text(filter), a, b)
      decreases |filter| - cur
    {
      MatchesAsGlob(filter[cur..], name);
      PatternIsSegment(filter, cur);
      ghost var end := cur + |Pattern(filter[cur..])|;
      if PatternMatchesString(filter[cur..], name) {
        assert SegmentMatches(Text(name), Text(filter), cur, end);
        return true;
      }
      var next := FindChar(filter, cur, ':');
      OnlySegmentFrom(Text(name), Text(filter), cur, end);
      if next == -1 {
        return false;
      }
      cur := next + 1;
    }
  }

  lemma OnlySegmentFrom(name: string, filter: string, cur: nat, end: nat)
    requires IsSegment(filter, cur, end) && !Glob(filter[cur..end], name)
    ensures forall a: nat, b: nat :: cur <= a <= end ==> !SegmentMatches(name, filter, a, b)
  {
    forall a: nat, b: nat | cur <= a <= end ensures !SegmentMatches(name, filter, a, b) {
      if SegmentMatches(name, filter, a, b) {
        SegmentsAgree(filter, cur, end, b);
      }
    }
  }

  /** The C library's search for a character in a text. */
  method FindChar(s: string, from: nat, c: char) returns (at: int)
    requires from <= |Text(s)| && c != '\0'
    ensures at == -1 <==> c !in Text(s)[from..]
    ensures at != -1 ==> from <= at < |Text(s)| && s[at] == c && forall k :: from <= k < at ==> s[k] != c
  {
    at := from;
    while at < |s| && s[at] != '\0' && s[at] != c
      invariant from <= at <= |Text(s)| && forall k :: from <= k < at ==> s[k] != c
    {
      at := at + 1;
    }
    if at == |s| || s[at] == '\0' {
      assert at == |Text(s)|;
      return -1;
    }
    assert Text(s)[from..][at - from] == c;
  }

  // ----- the filter of the test program

  /** Patterns before the first dash select, patterns behind it reject; nothing before it means everything. */
  ghost predicate Selects(filter: string, name: string) {
    var front := Before(filter, {'-'});
    if |front| == |filter| then SomeSegment(name, filter) && !SomeSegment(name, "")
    else
      && SomeSegment(name, if front == "" then "*" else front)
      && !SomeSegment(name, filter[|front| + 1..])
  }

  const UNIVERSAL_FILTER := "*"

  method FilterMatchesTest(testCaseName: string, testName: string, filter: string) returns (matches: bool)
    ensures matches <==> Selects(Text(filter), Text(testCaseName + "." + Text(testName)))
  {
    var name := testCaseName + "." + Text(testName);
    var p := Text(filter);
    TextOfText(filter);
    var dash := FindChar(p, 0, '-');
    var positive, negative;
    if dash == -1 {
      positive, negative := p, "";
    } else {
      positive, negative := p[..dash], p[dash + 1..];
      if positive == "" {
        positive := UNIVERSAL_FILTER;
      }
    }
    FirstDash(p, dash);
    NoEndInside(positive);
    NoEndInside(negative);
    var wanted := MatchesFilter(name, positive);
    var unwanted := MatchesFilter(name, negative);
    matches := wanted && !unwanted;
  }

  lemma FirstDash(p: string, dash: int)
    requires dash == -1 ==> '-' !in p
    requires dash != -1 ==> 0 <= dash < |p| && p[dash] == '-' && forall k :: 0 <= k < dash ==> p[k] != '-'
    ensures Before(p, {'-'}) == if dash == -1 then p else p[..dash]
  {
    var front := Before(p, {'-'});
    if |front| < |p| {
      assert p[|front|] == '-';
    }
  }

  // ----- what the filters come to

  /** A pattern alone. */
  lemma OnePattern(name: string, pattern: string)
    requires ':' !in pattern
    ensures SomeSegment(name, pattern) <==> Glob(pattern, name)
  {
    assert IsSegment(pattern, 0, |pattern|) && pattern[0..|pattern|] == pattern;
    if Glob(pattern, name) {
      assert SegmentMatches(name, pattern, 0, |pattern|);
    }
  }

  /** A colon adds patterns to a list: one on either side has to match. */
  lemma TwoLists(name: string, first: string, second: string)
    ensures SomeSegment(name, first + ":" + second) <==> SomeSegment(name, first) || SomeSegment(name, second)
  {
    var all, n := first + ":" + second, |first| + 1;
    forall a: nat, b: nat | SegmentMatches(name, first, a, b) ensures SegmentMatches(name, all, a, b) {
      assert all[a..b] == first[a..b];
      assert b < |first| ==> all[b] == first[b];
    }
    forall a: nat, b: nat | SegmentMatches(name, second, a, b) ensures SegmentMatches(name, all, n + a, n + b) {
      assert all[n + a..n + b] == second[a..b];
    }
    forall a: nat, b: nat | SegmentMatches(name, all, a, b)
      ensures SegmentMatches(name, first, a, b) || (n <= a && SegmentMatches(name, second, a - n, b - n))
    {
      SegmentOfOneList(name, first, second, a, b);
    }
  }

  lemma SegmentOfOneList(name: string, first: string, second: string, a: nat, b: nat)
    requires SegmentMatches(name, first + ":" + second, a, b)
    ensures var n := |first| + 1;
      SegmentMatches(name, first, a, b) || (n <= a && SegmentMatches(name, second, a - n, b - n))
  {
    var all, n := first + ":" + second, |first| + 1;
    assert all[|first|] == ':';
    if b <= |first| {
      assert all[a..b] == first[a..b];
      assert forall k :: 0 <= k < |first| ==> all[k] == first[k];
    } else {
      assert all[a..b] == second[a - n..b - n];
      assert forall k :: 0 <= k < |second| ==> all[n + k] == second[k];
    }
  }

  /** The patterns before the first dash select; whatever they are, those behind it reject. */
  lemma SelectsBothSides(front: string, negative: string, name: string)
    requires '-' !in front && front != ""
    ensures Selects(front + "-" + negative, name) <==> SomeSegment(name, front) && !SomeSegment(name, negative)
  {
    var filter := front + "-" + negative;
    assert forall k :: 0 <= k < |front| ==> filter[k] == front[k];
    FirstDash(filter, |front|);
    assert filter[..|front|] == front && filter[|front| + 1..] == negative;
  }

  /** Without a dash the filter selects what one of its patterns matches; every test name holds a dot. */
  lemma SelectsWithoutDash(filter: string, name: string)
    requires '-' !in filter && name != ""
    ensures Selects(filter, name) <==> SomeSegment(name, filter)
  {
    FirstDash(filter, -1);
    OnlyEmptyName(name);
  }

  lemma OnlyEmptyName(name: string)
    ensures SomeSegment(name, "") <==> name == ""
  {
    GlobEmpty(name);
    assert IsSegment("", 0, 0) && ""[0..0] == "";
    if name == "" {
      assert SegmentMatches(name, "", 0, 0);
    }
  }

  /** A leading dash selects all but what the rest matches. */
  lemma SelectsAllBut(negative: string, name: string)
    ensures Selects("-" + negative, name) <==> !SomeSegment(name, negative)
  {
    FirstDash("-" + negative, 0);
    assert ("-" + negative)[..0] == "" && ("-" + negative)[1..] == negative;
    GlobAny(name);
    assert IsSegment("*", 0, 1) && "*"[0..1] == "*";
    assert SegmentMatches(name, "*", 0, 1);
  }

  lemma GlobAny(str: string)
    ensures Glob("*", str)
  {
    assert Concat([str]) == str + Concat([]) == str;
    assert CutsUp("*", str, [str]);
  }

  /** Plain characters match themselves. */
  lemma {:induction false} GlobLiteral(literal: string, pattern: string, str: string)
    requires '*' !in literal && '?' !in literal
    ensures Glob(literal + pattern, str) <==> literal <= str && Glob(pattern, str[|literal|..])
  {
    if literal == "" {
      assert literal + pattern == pattern && str[0..] == str;
    } else {
      var all := literal + pattern;
      GlobOne(all, str);
      assert all[1..] == literal[1..] + pattern;
      if str != "" {
        GlobLiteral(literal[1..], pattern, str[1..]);
        assert str[0] == literal[0] && literal[1..] <= str[1..] <==> literal <= str;
      }
    }
  }

  const DISABLE_TEST_FILTER := "DISABLED_*:*/DISABLED_*"

  ghost predicate ReadsAt(str: string, at: nat, part: string) {
    at <= |str| && part <= str[at..]
  }

  /** A name is disabled if it starts with DISABLED_ or has /DISABLED_ anywhere in it. */
  lemma DisabledNames(name: string)
    ensures SomeSegment(name, DISABLE_TEST_FILTER) <==>
      "DISABLED_" <= name || exists at: nat :: ReadsAt(name, at, "/DISABLED_")
  {
    var filter, first, second := DISABLE_TEST_FILTER, "DISABLED_*", "*/DISABLED_*";
    assert filter == first + ":" + second;
    assert filter[0..10] == first && filter[11..23] == second && filter[10] == ':';
    assert IsSegment(filter, 0, 10) && IsSegment(filter, 11, 23);
    forall a: nat, b: nat | IsSegment(filter, a, b) ensures (a, b) in {(0, 10), (11, 23)} {
      TwoSegments(first, second, a, b);
    }
    DisabledFirst(name);
    DisabledSecond(name);
    assert SegmentMatches(name, filter, 0, 10) <==> "DISABLED_" <= name;
    assert SegmentMatches(name, filter, 11, 23) <==> exists at: nat :: ReadsAt(name, at, "/DISABLED_");
  }

  lemma TwoSegments(first: string, second: string, a: nat, b: nat)
    requires ':' !in first && ':' !in second && IsSegment(first + ":" + second, a, b)
    ensures (a, b) == (0, |first|) || (a, b) == (|first| + 1, |first| + 1 + |second|)
  {
    var all := first + ":" + second;
    assert all[|first|] == ':';
    assert forall k :: 0 <= k < |first| ==> all[k] == first[k];
    assert forall k :: 0 <= k < |second| ==> all[|first| + 1 + k] == second[k];
  }

  lemma DisabledFirst(name: string)
    ensures Glob("DISABLED_*", name) <==> "DISABLED_" <= name
  {
    assert "DISABLED_*" == "DISABLED_" + "*";
    GlobLiteral("DISABLED_", "*", name);
    if "DISABLED_" <= name {
      GlobAny(name[9..]);
    }
  }

  lemma {:induction false} DisabledSecond(name: string)
    ensures Glob("*/DISABLED_*", name) <==> exists at: nat :: ReadsAt(name, at, "/DISABLED_")
  {
    var part := "/DISABLED_*";
    assert "*/DISABLED_*"[1..] == part == "/DISABLED_" + "*";
    GlobStar("*/DISABLED_*", name);
    GlobLiteral("/DISABLED_", "*", name);
    assert name[0..] == name;
    if ReadsAt(name, 0, "/DISABLED_") {
      GlobAny(name[10..]);
    }
    if name != "" {
      DisabledSecond(name[1..]);
      forall at: nat | ReadsAt(name[1..], at, "/DISABLED_") ensures ReadsAt(name, at + 1, "/DISABLED_") {
        assert name[1..][at..] == name[at + 1..];
      }
      forall at: nat | at > 0 && ReadsAt(name, at, "/DISABLED_") ensures ReadsAt(name[1..], at - 1, "/DISABLED_") {
        assert name[1..][at - 1..] == name[at..];
      }
    }
  }
}
