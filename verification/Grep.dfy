/**
The matcher of `grep.c` against the language its patterns denote. Strings are the characters
before the terminating NUL.
*/
module Grep {
  type CString = s: string | '\0' !in s witness ""

  /** The character at `s[i]`, where the string may just have ended. */
  function CharAt(s: CString, i: nat): char
    requires i <= |s|
  {
    if i < |s| then s[i] else '\0'
  }

  // ---------- what a pattern denotes ----------

  datatype Atom = Literal(c: char) | Any

  datatype Item = One(a: Atom) | Star(a: Atom)

  /** A pattern without a leading `^`: items, and whether a final `$` ties it to the end. */
  datatype Pattern = Pattern(items: seq<Item>, toEnd: bool)

  function AtomOf(c: char): Atom { if c == '.' then Any else Literal(c) }

  /** How a pattern reads: a character before `*` is repeated, `$` is special only as the last
      character, and `*` or `^` anywhere else stands for itself. */
  function Parse(re: CString): Pattern {
    if re == "" then Pattern([], false)
    else if |re| > 1 && re[1] == '*' then
      var p := Parse(re[2..]);
      p.(items := [Star(AtomOf(re[0]))] + p.items)
    else if re == "$" then Pattern([], true)
    else
      var p := Parse(re[1..]);
      p.(items := [One(AtomOf(re[0]))] + p.items)
  }

  predicate Accepts(a: Atom, c: char) { a == Any || a == Literal(c) }

  predicate AllAccepted(a: Atom, w: string) { forall i :: 0 <= i < |w| ==> Accepts(a, w[i]) }

  predicate InItem(item: Item, w: string) {
    match item
    case One(a) => |w| == 1 && Accepts(a, w[0])
    case Star(a) => AllAccepted(a, w)
  }

  /** The words of a sequence of items: concatenations of words of each. */
  ghost predicate InItems(items: seq<Item>, w: string) {
    if items == [] then w == []
    else exists i :: 0 <= i <= |w| && InItem(items[0], w[..i]) && InItems(items[1..], w[i..])
  }

  /** Some word of the pattern starts the text, and ends it too if the pattern is tied to the end. */
  ghost predicate StartsWith(p: Pattern, text: string) {
    exists k :: 0 <= k <= |text| && InItems(p.items, text[..k]) && (p.toEnd ==> k == |text|)
  }

  /** What `match` is to decide: with a leading `^` the text starts with a word, else some part of
      the text does. */
  ghost predicate Matches(re: CString, text: string) {
    if re != "" && re[0] == '^' then StartsWith(Parse(re[1..]), text)
    else exists k :: 0 <= k <= |text| && StartsWith(Parse(re), text[k..])
  }

  // ---------- reading loses nothing ----------

  function Unatom(a: Atom): char { if a == Any then '.' else a.c }

  function Render(p: Pattern): string
    decreases |p.items|
  {
    if p.items == [] then (if p.toEnd then "$" else "")
    else
      [Unatom(p.items[0].a)] + (if p.items[0].Star? then "*" else "") + Render(p.(items := p.items[1..]))
  }

  /** A pattern can be read back from its parse. */
  lemma {:induction false} RenderParse(re: CString)
    ensures Render(Parse(re)) == re
  {
    if re == "" || re == "$" {
    } else if |re| > 1 && re[1] == '*' {
      RenderParse(re[2..]);
      assert Parse(re).items[1..] == Parse(re[2..]).items;
      assert re == [re[0]] + "*" + re[2..];
    } else {
      RenderParse(re[1..]);
      assert Parse(re).items[1..] == Parse(re[1..]).items;
    }
  }

  // ---------- how a match proceeds ----------

  lemma StartNone(toEnd: bool, text: string)
    ensures StartsWith(Pattern([], toEnd), text) <==> (toEnd ==> text == "")
  {
    if toEnd ==> text == "" { assert InItems([], text[..0]); }
  }

  lemma StartOne(a: Atom, p: Pattern, text: string)
    ensures StartsWith(p.(items := [One(a)] + p.items), text) <==>
      text != "" && Accepts(a, text[0]) && StartsWith(p, text[1..])
  {
    var items := [One(a)] + p.items;
    assert items[1..] == p.items;
    if StartsWith(p.(items := items), text) {
      var k :| 0 <= k <= |text| && InItems(items, text[..k]) && (p.toEnd ==> k == |text|);
      assert text[..k][1..] == text[1..][..k - 1];
    }
    if text != "" && Accepts(a, text[0]) && StartsWith(p, text[1..]) {
      var k :| 0 <= k <= |text[1..]| && InItems(p.items, text[1..][..k]) && (p.toEnd ==> k == |text[1..]|);
      assert text[..k + 1][1..] == text[1..][..k];
      assert InItem(items[0], text[..k + 1][..1]);
      assert InItems(items, text[..k + 1]);
    }
  }

  /** A starred atom takes some characters it accepts; the rest of the text starts with the rest. */
  lemma StartStar(a: Atom, p: Pattern, text: string)
    ensures StartsWith(p.(items := [Star(a)] + p.items), text) <==>
      exists i :: 0 <= i <= |text| && AllAccepted(a, text[..i]) && StartsWith(p, text[i..])
  {
    var items := [Star(a)] + p.items;
    assert items[1..] == p.items;
    if StartsWith(p.(items := items), text) {
      var k :| 0 <= k <= |text| && InItems(items, text[..k]) && (p.toEnd ==> k == |text|);
      var w := text[..k];
      var i :| 0 <= i <= |w| && InItem(items[0], w[..i]) && InItems(items[1..], w[i..]);
      assert w[..i] == text[..i] && w[i..] == text[i..][..k - i];
    }
    if i :| 0 <= i <= |text| && AllAccepted(a, text[..i]) && StartsWith(p, text[i..]) {
      var k :| 0 <= k <= |text[i..]| && InItems(p.items, text[i..][..k]) && (p.toEnd ==> k == |text[i..]|);
      var w := text[..i + k];
      assert w[..i] == text[..i] && w[i..] == text[i..][..k];
      assert InItem(items[0], w[..i]);
      assert InItems(items, w);
    }
  }

  // ---------- the matcher ----------

  method Match(re: CString, text: CString) returns (found: bool)
    ensures found <==> Matches(re, text)
  {
    if CharAt(re, 0) == '^' {
      found := MatchHere(re[1..], text);
      return;
    }
    var k := 0;
    while true
      invariant k <= |text|
      invariant forall j :: 0 <= j < k ==> !StartsWith(Parse(re), text[j..])
      decreases |text| - k
    {
      var here := MatchHere(re, text[k..]);
      if here { return true; }
      if CharAt(text, k) == '\0' { return false; }
      k := k + 1;
    }
  }

  method MatchHere(re: CString, text: CString) returns (found: bool)
    ensures found <==> StartsWith(Parse(re), text)
    decreases |re|, 0
  {
    if CharAt(re, 0) == '\0' {
      StartNone(false, text);
      return true;
    }
    if CharAt(re, 1) == '*' {
      found := MatchStar(re[0], re[2..], text);
      StartStar(AtomOf(re[0]), Parse(re[2..]), text);
      return;
    }
    if CharAt(re, 0) == '$' && CharAt(re, 1) == '\0' {
      StartNone(true, text);
      return CharAt(text, 0) == '\0';
    }
    StartOne(AtomOf(re[0]), Parse(re[1..]), text);
    if CharAt(text, 0) != '\0' && (re[0] == '.' || re[0] == text[0]) {
      found := MatchHere(re[1..], text[1..]);
      return;
    }
    return false;
  }

  method MatchStar(c: char, re: CString, text: CString) returns (found: bool)
    ensures found <==>
      exists i :: 0 <= i <= |text| && AllAccepted(AtomOf(c), text[..i]) && StartsWith(Parse(re), text[i..])
    decreases |re|, 1
  {
    var k := 0;
    while true
      invariant k <= |text| && AllAccepted(AtomOf(c), text[..k])
      invariant forall i :: 0 <= i < k ==> !StartsWith(Parse(re), text[i..])
      decreases |text| - k
    {
      var here := MatchHere(re, text[k..]);
      if here { return true; }
      if !(CharAt(text, k) != '\0' && (text[k] == c || c == '.')) {
        return false;
      }
      k := k + 1;
    }
  }
}
