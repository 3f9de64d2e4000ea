// The regular expression matcher of grep: c, ., c*, ^ at the start and $ at the end. Strings are
// without their terminating NUL; `re[1]` of a one-character pattern is that NUL.
module Grep {

  // ---- What a pattern means -------------------------------------------------------------------

  datatype Item = One(c: char) | Star(c: char)

  /** The items of a pattern and whether it must end where the text ends. */
  datatype Pattern = Pattern(items: seq<Item>, atEnd: bool)

  predicate Fits(c: char, ch: char) {
    c == '.' || c == ch
  }

  /** Reading a pattern: a star applies to any character before it, $ is special only at the end. */
  function Parse(re: string): Pattern {
    if re == "" then Pattern([], false)
    else if |re| >= 2 && re[1] == '*' then
      var p := Parse(re[2..]);
      Pattern([Star(re[0])] + p.items, p.atEnd)
    else if re == "$" then Pattern([], true)
    else
      var p := Parse(re[1..]);
      Pattern([One(re[0])] + p.items, p.atEnd)
  }

  /** s is, as a whole, a text the items describe. */
  ghost predicate Describes(items: seq<Item>, s: string) {
    if items == [] then s == ""
    else match items[0]
      case One(c) => s != "" && Fits(c, s[0]) && Describes(items[1..], s[1..])
      case Star(c) => exists k :: 0 <= k <= |s| && AllFit(c, s[..k]) && Describes(items[1..], s[k..])
  }

  predicate AllFit(c: char, s: string) {
    forall j :: 0 <= j < |s| ==> Fits(c, s[j])
  }

  /** Some prefix of the text is described by the pattern; all of it if the pattern ends in $. */
  ghost predicate MatchesPrefix(p: Pattern, text: string) {
    exists n :: 0 <= n <= |text| && Describes(p.items, text[..n]) && (p.atEnd ==> n == |text|)
  }

  /** Some substring is, or some prefix if the pattern begins with ^. */
  ghost predicate Matches(re: string, text: string) {
    if re != "" && re[0] == '^' then MatchesPrefix(Parse(re[1..]), text)
    else exists i :: 0 <= i <= |text| && MatchesPrefix(Parse(re), text[i..])
  }

  // ---- One item at a time ---------------------------------------------------------------------

  lemma NothingLeft(text: string)
    ensures MatchesPrefix(Pattern([], false), text)
  {
    assert Describes([], text[..0]);
  }

  lemma EndLeft(text: string)
    ensures MatchesPrefix(Pattern([], true), text) <==> text == ""
  {
    if text == "" {
      assert Describes([], text[..0]);
    }
  }

  lemma OneThenRest(c: char, p: Pattern, text: string)
    ensures MatchesPrefix(Pattern([One(c)] + p.items, p.atEnd), text) <==>
            text != "" && Fits(c, text[0]) && MatchesPrefix(p, text[1..])
  {
    var items := [One(c)] + p.items;
    assert items[1..] == p.items;
    if text != "" {
      forall n | 1 <= n <= |text|
        ensures text[..n][1..] == text[1..][..n-1]
      {
      }
      if MatchesPrefix(Pattern(items, p.atEnd), text) {
        var n :| 0 <= n <= |text| && Describes(items, text[..n]) && (p.atEnd ==> n == |text|);
        assert Describes(p.items, text[1..][..n-1]);
      }
      if Fits(c, text[0]) && MatchesPrefix(p, text[1..]) {
        var m :| 0 <= m <= |text| - 1 && Describes(p.items, text[1..][..m]) && (p.atEnd ==> m == |text| - 1);
        assert text[..m+1][1..] == text[1..][..m];
        assert Describes(items, text[..m+1]);
      }
    }
  }

  lemma StarThenRest(c: char, p: Pattern, text: string)
    ensures MatchesPrefix(Pattern([Star(c)] + p.items, p.atEnd), text) <==>
            exists k :: 0 <= k <= |text| && AllFit(c, text[..k]) && MatchesPrefix(p, text[k..])
  {
    var items := [Star(c)] + p.items;
    assert items[1..] == p.items;
    if MatchesPrefix(Pattern(items, p.atEnd), text) {
      var n :| 0 <= n <= |text| && Describes(items, text[..n]) && (p.atEnd ==> n == |text|);
      var k :| 0 <= k <= n && AllFit(c, text[..n][..k]) && Describes(p.items, text[..n][k..]);
      assert text[..n][..k] == text[..k];
      assert text[..n][k..] == text[k..][..n-k];
      assert MatchesPrefix(p, text[k..]);
    }
    if exists k :: 0 <= k <= |text| && AllFit(c, text[..k]) && MatchesPrefix(p, text[k..]) {
      var k :| 0 <= k <= |text| && AllFit(c, text[..k]) && MatchesPrefix(p, text[k..]);
      var m :| 0 <= m <= |text[k..]| && Describes(p.items, text[k..][..m]) && (p.atEnd ==> m == |text[k..]|);
      assert text[..k+m][..k] == text[..k];
      assert text[..k+m][k..] == text[k..][..m];
      assert Describes(items, text[..k+m]);
    }
  }

  // ---- The matcher ----------------------------------------------------------------------------

  method Match(re: string, text: string) returns (found: bool)
    ensures found <==> Matches(re, text)
  {
    hide MatchesPrefix;
    if re != "" && re[0] == '^' {
      found := MatchHere(re[1..], text);
      return;
    }
    var i := 0;
    while true
      invariant 0 <= i <= |text|
      invariant forall j :: 0 <= j < i ==> !MatchesPrefix(Parse(re), text[j..])
      decreases |text| - i
    {
      found := MatchHere(re, text[i..]);
      if found {
        return;
      }
      if i == |text| {
        return false;
      }
      i := i + 1;
    }
  }

  /** Search for re at the beginning of the text. */
  method MatchHere(re: string, text: string) returns (found: bool)
    ensures found <==> MatchesPrefix(Parse(re), text)
    decreases |re|, 0
  {
    hide MatchesPrefix;
    if re == "" {
      NothingLeft(text);
      return true;
    }
    if |re| >= 2 && re[1] == '*' {
      StarThenRest(re[0], Parse(re[2..]), text);
      found := MatchStar(re[0], re[2..], text);
      return;
    }
    if re == "$" {
      EndLeft(text);
      return text == "";
    }
    OneThenRest(re[0], Parse(re[1..]), text);
    if text != "" && (re[0] == '.' || re[0] == text[0]) {
      found := MatchHere(re[1..], text[1..]);
      return;
    }
    return false;
  }

  /** Search for c*re at the beginning of the text. */
  method MatchStar(c: char, re: string, text: string) returns (found: bool)
    ensures found <==> exists k :: 0 <= k <= |text| && AllFit(c, text[..k]) && MatchesPrefix(Parse(re), text[k..])
    decreases |re|, 1
  {
    hide MatchesPrefix;
    var i := 0;
    while true
      invariant 0 <= i <= |text| && AllFit(c, text[..i])
      invariant forall k :: 0 <= k < i ==> !MatchesPrefix(Parse(re), text[k..])
      decreases |text| - i
    {
      found := MatchHere(re, text[i..]);
      if found {
        return;
      }
      if !(i < |text| && (text[i] == c || c == '.')) {
        assert forall k :: i < k <= |text| ==> !AllFit(c, text[..k]) by {
          forall k | i < k <= |text|
            ensures !AllFit(c, text[..k])
          {
            assert !Fits(c, text[..k][i]);
          }
        }
        return false;
      }
      i := i + 1;
    }
  }
}
