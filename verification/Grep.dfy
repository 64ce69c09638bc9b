/**
 * The matcher of user/grep.c.  A C string is the sequence of its characters before the
 * terminating NUL, so `*text == '\0'` reads as "no characters left".
 */
module Grep {
  // ----- what a pattern means

  datatype Item = One(c: char) | Many(c: char)

  /** A pattern: its items in order, and whether it is tied to the start or the end of the text. */
  datatype Pattern = Pattern(atStart: bool, items: seq<Item>, atEnd: bool)

  predicate Accepts(c: char, x: char) { c == '.' || c == x }

  predicate AllAccepted(c: char, s: string) {
    forall i :: 0 <= i < |s| ==> Accepts(c, s[i])
  }

  predicate InItem(it: Item, s: string) {
    match it
    case One(c) => |s| == 1 && Accepts(c, s[0])
    case Many(c) => AllAccepted(c, s)
  }

  function Concat(parts: seq<string>): string {
    if parts == [] then "" else parts[0] + Concat(parts[1..])
  }

  /** `s` can be cut into one piece per item, each piece in the language of its item. */
  ghost predicate InLanguage(items: seq<Item>, s: string) {
    exists parts: seq<string> :: Splits(items, parts, s)
  }

  ghost predicate Splits(items: seq<Item>, parts: seq<string>, s: string) {
    && |parts| == |items| && Concat(parts) == s
    && forall i :: 0 <= i < |items| ==> InItem(items[i], parts[i])
  }

  /** How the matcher reads the pattern: `c*` first, then a final `$`, then single characters. */
  function Items(re: string): seq<Item> {
    if re == "" then []
    else if |re| >= 2 && re[1] == '*' then [Many(re[0])] + Items(re[2..])
    else if re == "$" then []
    else [One(re[0])] + Items(re[1..])
  }

  predicate EndsAnchored(re: string) {
    if re == "" then false
    else if |re| >= 2 && re[1] == '*' then EndsAnchored(re[2..])
    else if re == "$" then true
    else EndsAnchored(re[1..])
  }

  function Parse(re: string): Pattern {
    if re != "" && re[0] == '^' then Pattern(true, Items(re[1..]), EndsAnchored(re[1..]))
    else Pattern(false, Items(re), EndsAnchored(re))
  }

  /** Some substring of the text, placed as the anchors demand, is in the language. */
  ghost predicate Found(p: Pattern, text: string) {
    exists i: nat, j: nat ::
      && i <= j <= |text| && (p.atStart ==> i == 0) && (p.atEnd ==> j == |text|)
      && InLanguage(p.items, text[i..j])
  }

  /** The same for substrings that start where the text starts. */
  ghost predicate FoundHere(items: seq<Item>, atEnd: bool, text: string) {
    exists j: nat :: j <= |text| && (atEnd ==> j == |text|) && InLanguage(items, text[..j])
  }

  // ----- languages one item at a time

  lemma EmptyLanguage(s: string)
    ensures InLanguage([], s) <==> s == ""
  {
    if s == "" { assert Splits([], [], s); }
  }

  lemma ConsLanguage(it: Item, rest: seq<Item>, s: string)
    ensures InLanguage([it] + rest, s) <==>
      exists k: nat :: k <= |s| && InItem(it, s[..k]) && InLanguage(rest, s[k..])
  {
    var items := [it] + rest;
    if InLanguage(items, s) {
      var parts :| Splits(items, parts, s);
      var k := |parts[0]|;
      assert s[..k] == parts[0] && s[k..] == Concat(parts[1..]);
      assert Splits(rest, parts[1..], s[k..]) by {
        assert forall i :: 0 <= i < |rest| ==> rest[i] == items[i + 1];
      }
      assert InItem(items[0], parts[0]);
    }
    if k: nat :| k <= |s| && InItem(it, s[..k]) && InLanguage(rest, s[k..]) {
      var parts :| Splits(rest, parts, s[k..]);
      var all := [s[..k]] + parts;
      assert all[1..] == parts;
      assert Concat(all) == s;
      assert Splits(items, all, s);
    }
  }

  lemma HereNothing(atEnd: bool, text: string)
    ensures FoundHere([], atEnd, text) <==> (atEnd ==> text == "")
  {
    forall j: nat | j <= |text| ensures InLanguage([], text[..j]) <==> j == 0 {
      EmptyLanguage(text[..j]);
    }
    if atEnd ==> text == "" { assert InLanguage([], text[..0]); }
  }

  lemma Slices(text: string, k: nat, j: nat)
    requires k <= j <= |text|
    ensures text[..j][..k] == text[..k]
    ensures text[..j][k..] == text[k..][..j - k]
  {
  }

  /** A match of `it` and then of the rest. */
  lemma HereCons(it: Item, rest: seq<Item>, atEnd: bool, text: string)
    ensures FoundHere([it] + rest, atEnd, text) <==>
      exists k: nat :: k <= |text| && InItem(it, text[..k]) && FoundHere(rest, atEnd, text[k..])
  {
    if FoundHere([it] + rest, atEnd, text) {
      var j: nat :| j <= |text| && (atEnd ==> j == |text|) && InLanguage([it] + rest, text[..j]);
      ConsLanguage(it, rest, text[..j]);
      var k: nat :| k <= j && InItem(it, text[..j][..k]) && InLanguage(rest, text[..j][k..]);
      Slices(text, k, j);
      assert FoundHere(rest, atEnd, text[k..]);
    }
    if k: nat :| k <= |text| && InItem(it, text[..k]) && FoundHere(rest, atEnd, text[k..]) {
      var j: nat :| j <= |text[k..]| && (atEnd ==> j == |text[k..]|) && InLanguage(rest, text[k..][..j]);
      var s := text[..k + j];
      Slices(text, k, k + j);
      ConsLanguage(it, rest, s);
    }
  }

  // ----- the code

  method Match(re: string, text: string) returns (r: bool)
    ensures r <==> Found(Parse(re), text)
  {
    if |re| > 0 && re[0] == '^' {
      r := MatchHere(re[1..], text);
      StartAnchored(Parse(re), text);
      return;
    }
    var p := Parse(re);
    var t := 0;
    while true
      invariant 0 <= t <= |text|
      invariant forall i :: 0 <= i < t ==> !FoundHere(p.items, p.atEnd, text[i..])
      decreases |text| - t
    {
      r := MatchHere(re, text[t..]);
      if r {
        Anywhere(p, text, t);
        return;
      }
      if t == |text| {
        break;
      }
      t := t + 1;
    }
    NotAnywhere(p, text);
  }

  method MatchHere(re: string, text: string) returns (r: bool)
    ensures r <==> FoundHere(Items(re), EndsAnchored(re), text)
    decreases |re|, 0
  {
    if re == "" {
      HereNothing(false, text);
      return true;
    }
    if |re| >= 2 && re[1] == '*' {
      r := MatchStar(re[0], re[2..], text);
      return;
    }
    if re[0] == '$' && |re| == 1 {
      HereNothing(true, text);
      return text == "";
    }
    HereOne(re[0], Items(re[1..]), EndsAnchored(re[1..]), text);
    if text != "" && (re[0] == '.' || re[0] == text[0]) {
      r := MatchHere(re[1..], text[1..]);
      return;
    }
    return false;
  }

  method MatchStar(c: char, re: string, text: string) returns (r: bool)
    ensures r <==> FoundHere([Many(c)] + Items(re), EndsAnchored(re), text)
    decreases |re|, 1
  {
    HereCons(Many(c), Items(re), EndsAnchored(re), text);
    var t := 0;
    while true
      invariant 0 <= t <= |text| && AllAccepted(c, text[..t])
      invariant forall k :: 0 <= k < t ==> !FoundHere(Items(re), EndsAnchored(re), text[k..])
      decreases |text| - t
    {
      r := MatchHere(re, text[t..]);
      if r {
        return;
      }
      if t < |text| && (text[t] == c || c == '.') {
        t := t + 1;
      } else {
        forall k: nat | k <= |text| && AllAccepted(c, text[..k])
          ensures !FoundHere(Items(re), EndsAnchored(re), text[k..])
        {
          if k > t { assert text[..k][t] == text[t]; }
        }
        return;
      }
    }
  }

  lemma HereOne(c: char, rest: seq<Item>, atEnd: bool, text: string)
    ensures FoundHere([One(c)] + rest, atEnd, text) <==>
      text != "" && Accepts(c, text[0]) && FoundHere(rest, atEnd, text[1..])
  {
    HereCons(One(c), rest, atEnd, text);
    if text != "" && Accepts(c, text[0]) && FoundHere(rest, atEnd, text[1..]) {
      assert InItem(One(c), text[..1]);
    }
  }

  lemma StartAnchored(p: Pattern, text: string)
    requires p.atStart
    ensures Found(p, text) <==> FoundHere(p.items, p.atEnd, text)
  {
    if Found(p, text) {
      var i: nat, j: nat :| i <= j <= |text| && i == 0 && (p.atEnd ==> j == |text|) && InLanguage(p.items, text[i..j]);
      assert text[0..j] == text[..j];
    }
    if FoundHere(p.items, p.atEnd, text) {
      var j: nat :| j <= |text| && (p.atEnd ==> j == |text|) && InLanguage(p.items, text[..j]);
      assert text[0..j] == text[..j];
    }
  }

  lemma Anywhere(p: Pattern, text: string, t: nat)
    requires !p.atStart && t <= |text| && FoundHere(p.items, p.atEnd, text[t..])
    ensures Found(p, text)
  {
    var j: nat :| j <= |text[t..]| && (p.atEnd ==> j == |text[t..]|) && InLanguage(p.items, text[t..][..j]);
    assert text[t..][..j] == text[t..t + j];
  }

  lemma NotAnywhere(p: Pattern, text: string)
    requires forall i :: 0 <= i <= |text| ==> !FoundHere(p.items, p.atEnd, text[i..])
    ensures !Found(p, text)
  {
    if Found(p, text) {
      Somewhere(p, text);
    }
  }

  lemma Somewhere(p: Pattern, text: string)
    requires Found(p, text)
    ensures exists i :: 0 <= i <= |text| && FoundHere(p.items, p.atEnd, text[i..])
  {
    var i: nat, j: nat :| i <= j <= |text| && (p.atEnd ==> j == |text|) && InLanguage(p.items, text[i..j]);
    assert text[i..j] == text[i..][..j - i];
    assert FoundHere(p.items, p.atEnd, text[i..]);
  }
}
