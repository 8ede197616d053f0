/**
 The pattern matcher of grep.c (match, matchhere, matchstar) against a declarative meaning
 of ^ . * $.  Strings are NUL-terminated in the source; here the NUL is what lies past the end.
 */
module Grep {

  const NUL := '\0'

  predicate NoNul(s: string) {
    forall i | 0 <= i < |s| :: s[i] != NUL
  }

  // s[i], with the terminator at the end.
  function Ch(s: string, i: nat): char {
    if i < |s| then s[i] else NUL
  }

  // ------------------------------------------------------------ the meaning

  // One(c): one character c;  Many(c): any number of them;  Eol: the end of the text.
  datatype Item = One(c: char) | Many(c: char) | Eol

  // The pattern from position i on.
  function Items(re: string, i: nat): (r: seq<Item>)
    decreases |re| - i
  {
    if i >= |re| then []
    else if i + 1 < |re| && re[i + 1] == '*' then [Many(re[i])] + Items(re, i + 2)
    else if re[i] == '$' && i + 1 == |re| then [Eol]
    else [One(re[i])] + Items(re, i + 1)
  }

  predicate Fits(c: char, x: char) {
    c == '.' || c == x
  }

  // Item it matches text[i..j].
  predicate Segment(it: Item, text: string, i: nat, j: nat) {
    i <= j <= |text| &&
    match it
    case One(c) => j == i + 1 && Fits(c, text[i])
    case Many(c) => forall k | i <= k < j :: Fits(c, text[k])
    case Eol => i == j == |text|
  }

  // Cutting the text at `cuts` gives each item a segment it matches.
  ghost predicate Cut(items: seq<Item>, text: string, start: nat, cuts: seq<nat>) {
    && |cuts| == |items| + 1 && cuts[0] == start
    && forall k | 0 <= k < |items| :: Segment(items[k], text, cuts[k], cuts[k + 1])
  }

  // The items match some text that begins at start.
  ghost predicate Matches(items: seq<Item>, text: string, start: nat) {
    exists cuts :: Cut(items, text, start, cuts)
  }

  // The text has a match of the pattern: at its beginning after ^, anywhere otherwise.
  ghost predicate Found(re: string, text: string) {
    if Ch(re, 0) == '^' then Matches(Items(re, 1), text, 0)
    else exists start: nat :: start <= |text| && Matches(Items(re, 0), text, start)
  }

  // -------------------------------------------------------------- its laws

  lemma MatchesNothing(text: string, start: nat)
    ensures Matches([], text, start)
  {
    assert Cut([], text, start, [start]);
  }

  // A match of the first item followed by a match of the rest.
  lemma MatchesCons(it: Item, rest: seq<Item>, text: string, start: nat)
    ensures Matches([it] + rest, text, start) <==> exists mid: nat ::
      Segment(it, text, start, mid) && Matches(rest, text, mid)
  {
    var items := [it] + rest;
    if Matches(items, text, start) {
      var cuts :| Cut(items, text, start, cuts);
      assert Segment(items[0], text, cuts[0], cuts[1]);
      forall k | 0 <= k < |rest| ensures Segment(rest[k], text, cuts[1..][k], cuts[1..][k + 1]) {
        assert Segment(items[k + 1], text, cuts[k + 1], cuts[k + 2]);
      }
      assert Cut(rest, text, cuts[1], cuts[1..]);
    }
    if mid: nat :| Segment(it, text, start, mid) && Matches(rest, text, mid) {
      var tail :| Cut(rest, text, mid, tail);
      var cuts := [start] + tail;
      forall k | 0 <= k < |items| ensures Segment(items[k], text, cuts[k], cuts[k + 1]) {
        if k > 0 { assert Segment(rest[k - 1], text, tail[k - 1], tail[k]); }
      }
      assert Cut(items, text, start, cuts);
    }
  }

  // ------------------------------------------------------ what a pattern is

  function Spell(it: Item): string {
    match it
    case One(c) => [c]
    case Many(c) => [c, '*']
    case Eol => "$"
  }

  function Print(items: seq<Item>): string {
    if items == [] then "" else Spell(items[0]) + Print(items[1..])
  }

  // No item would be read differently beside its neighbour.
  predicate Readable(items: seq<Item>) {
    items == [] || (Clear(items[0], items[1..]) && Readable(items[1..]))
  }

  predicate Clear(it: Item, rest: seq<Item>) {
    match it
    case One(c) => if rest == [] then c != '$' else Spell(rest[0])[0] != '*'
    case Many(c) => true
    case Eol => rest == []
  }

  // Every pattern is the print of its items, which are readable ...
  lemma {:induction false} PrintOfItems(re: string, i: nat)
    requires i <= |re|
    ensures Print(Items(re, i)) == re[i..] && Readable(Items(re, i))
    decreases |re| - i
  {
    if i < |re| {
      var items := Items(re, i);
      if i + 1 < |re| && re[i + 1] == '*' {
        PrintOfItems(re, i + 2);
        assert items[1..] == Items(re, i + 2) && re[i..] == [re[i], '*'] + re[i + 2..];
      } else if re[i] == '$' && i + 1 == |re| {
        assert items[1..] == [] && re[i..] == "$";
      } else {
        PrintOfItems(re, i + 1);
        assert items[1..] == Items(re, i + 1) && re[i..] == [re[i]] + re[i + 1..];
        FirstChar(Items(re, i + 1));
      }
    }
  }

  lemma FirstChar(items: seq<Item>)
    ensures items != [] ==> |Print(items)| > 0 && Print(items)[0] == Spell(items[0])[0]
    ensures items == [] <==> Print(items) == ""
  {
  }

  // ... and readable items are read back from their print: the two are inverse to each other.
  lemma {:induction false} ItemsOfPrint(items: seq<Item>, re: string, i: nat)
    requires Readable(items) && i <= |re| && re[i..] == Print(items)
    ensures Items(re, i) == items
    decreases |items|
  {
    FirstChar(items);
    if items != [] {
      var rest := items[1..];
      FirstChar(rest);
      var n := |Spell(items[0])|;
      assert re[i] == re[i..][0] == Spell(items[0])[0];
      assert re[i + n..] == re[i..][n..] == Print(rest);
      if items[0].Many? { assert re[i + 1] == re[i..][1] == '*'; }
      if items[0].One? && rest != [] { assert re[i + 1] == re[i + 1..][0]; }
      ItemsOfPrint(rest, re, i + n);
      assert items == [items[0]] + rest;
    }
  }

  // ------------------------------------------------- what simple patterns find

  // Plain characters and dots.
  predicate Literal(p: string) {
    forall k | 0 <= k < |p| :: p[k] != '*' && p[k] != '$' && p[k] != '^'
  }

  // p stands at position i of the text, a dot for any character.
  predicate Like(p: string, text: string, i: int) {
    0 <= i && i + |p| <= |text| && forall k | 0 <= k < |p| :: p[k] == '.' || p[k] == text[i + k]
  }

  // A stretch re[i..m] of plain characters and dots.
  lemma {:induction false} Through(re: string, i: nat, m: nat, text: string, start: nat)
    requires i <= m <= |re| && start <= |text| && (m < |re| ==> re[m] != '*') && Literal(re[i..m])
    ensures Matches(Items(re, i), text, start) <==>
            Like(re[i..m], text, start) && Matches(Items(re, m), text, start + (m - i))
    decreases m - i
  {
    if i < m {
      var p := re[i..m];
      assert p[0] == re[i] && p[1..] == re[i + 1..m];
      assert i + 1 < m ==> re[i + 1] == p[1];
      MatchesCons(One(re[i]), Items(re, i + 1), text, start);
      if start < |text| && Fits(re[i], text[start]) {
        assert Segment(One(re[i]), text, start, start + 1);
        Through(re, i + 1, m, text, start + 1);
        assert Like(p, text, start) <==> Like(p[1..], text, start + 1) by { LikeTail(p, text, start); }
      } else {
        assert !Like(p, text, start);
      }
    } else {
      assert re[i..m] == "";
    }
  }

  lemma LikeTail(p: string, text: string, i: nat)
    requires p != "" && i < |text| && (p[0] == '.' || p[0] == text[i])
    ensures Like(p, text, i) <==> Like(p[1..], text, i + 1)
  {
    if Like(p[1..], text, i + 1) {
      forall k | 0 <= k < |p| ensures p[k] == '.' || p[k] == text[i + k] {
        if k > 0 { assert p[1..][k - 1] == p[k]; }
      }
    }
  }

  lemma AtEnd(re: string, m: nat, text: string, start: nat)
    requires m <= |re| && (re[m..] == "" || re[m..] == "$") && start <= |text|
    ensures Matches(Items(re, m), text, start) <==> re[m..] == "" || start == |text|
  {
    if re[m..] == "$" {
      assert re[m] == re[m..][0] && [Eol] + [] == [Eol];
      MatchesCons(Eol, [], text, start);
      MatchesNothing(text, start);
      assert start == |text| ==> Segment(Eol, text, start, start);
    } else {
      MatchesNothing(text, start);
    }
  }

  // p finds the texts that contain it, ^p those that begin with it, p$ those that end with it, and
  // ^p$ those that are like it.
  lemma FoundLiteral(p: string, text: string)
    requires Literal(p)
    ensures Found(p, text) <==> exists i :: Like(p, text, i)
    ensures Found("^" + p, text) <==> Like(p, text, 0)
    ensures Found(p + "$", text) <==> Like(p, text, |text| - |p|)
    ensures Found("^" + p + "$", text) <==> |p| == |text| && Like(p, text, 0)
  {
    LiteralAnywhere(p, text);
    LiteralLast(p, text);
    LiteralFirst(p, "", text);
    LiteralFirst(p, "$", text);
    assert "^" + p + "" == "^" + p;
  }

  lemma LiteralFirst(p: string, tail: string, text: string)
    requires Literal(p) && (tail == "" || tail == "$")
    ensures Found("^" + p + tail, text) <==> Like(p, text, 0) && (tail == "" || |p| == |text|)
  {
    var re := "^" + p + tail;
    assert re[1..|p| + 1] == p && re[|p| + 1..] == tail;
    Through(re, 1, |p| + 1, text, 0);
    if |p| <= |text| { AtEnd(re, |p| + 1, text, |p|); }
  }

  lemma LiteralAnywhere(p: string, text: string)
    requires Literal(p)
    ensures Found(p, text) <==> exists i :: Like(p, text, i)
  {
    assert p[0..|p|] == p && p[|p|..] == "" && Ch(p, 0) != '^';
    forall start: nat | start <= |text| ensures Matches(Items(p, 0), text, start) <==> Like(p, text, start) {
      Through(p, 0, |p|, text, start);
      if start + |p| <= |text| { AtEnd(p, |p|, text, start + |p|); }
    }
  }

  lemma LiteralLast(p: string, text: string)
    requires Literal(p)
    ensures Found(p + "$", text) <==> Like(p, text, |text| - |p|)
  {
    var re := p + "$";
    assert re[0..|p|] == p && re[|p|..] == "$" && Ch(re, 0) != '^';
    forall start: nat | start <= |text|
      ensures Matches(Items(re, 0), text, start) <==> Like(p, text, start) && start + |p| == |text|
    {
      Through(re, 0, |p|, text, start);
      if start + |p| <= |text| { AtEnd(re, |p|, text, start + |p|); }
    }
  }

  // ^c*$ finds the texts of nothing but c, and ^.*$ all.
  lemma FoundStar(c: char, text: string)
    ensures Found("^" + [c] + "*$", text) <==> c == '.' || forall k | 0 <= k < |text| :: text[k] == c
  {
    var re := "^" + [c] + "*$";
    assert re == ['^', c, '*', '$'];
    MatchesCons(Many(c), Items(re, 3), text, 0);
    forall mid: nat | mid <= |text| ensures Matches(Items(re, 3), text, mid) <==> mid == |text| {
      AtEnd(re, 3, text, mid);
    }
    assert Segment(Many(c), text, 0, |text|) <==> c == '.' || forall k | 0 <= k < |text| :: text[k] == c;
  }

  // ------------------------------------------------------------ the matcher

  // c*re at text position i: after some run of characters that fit c, re matches.
  ghost predicate StarMatches(c: char, re: string, i: nat, text: string, j: nat) {
    exists mid: nat :: Segment(Many(c), text, j, mid) && Matches(Items(re, i), text, mid)
  }

  method MatchHere(re: string, i: nat, text: string, j: nat) returns (r: bool)
    requires NoNul(re) && NoNul(text) && i <= |re| && j <= |text|
    ensures r <==> Matches(Items(re, i), text, j)
    decreases |re| - i, 1
  {
    if Ch(re, i) == NUL {
      MatchesNothing(text, j);
      return true;
    }
    if Ch(re, i + 1) == '*' {
      r := MatchStar(Ch(re, i), re, i + 2, text, j);
      MatchesCons(Many(re[i]), Items(re, i + 2), text, j);
      return;
    }
    if Ch(re, i) == '$' && Ch(re, i + 1) == NUL {
      MatchesCons(Eol, [], text, j);
      MatchesNothing(text, j);
      assert [Eol] + [] == [Eol];
      assert j == |text| ==> Segment(Eol, text, j, j);
      return Ch(text, j) == NUL;
    }
    MatchesCons(One(re[i]), Items(re, i + 1), text, j);
    if Ch(text, j) != NUL && (Ch(re, i) == '.' || Ch(re, i) == Ch(text, j)) {
      r := MatchHere(re, i + 1, text, j + 1);
      assert Segment(One(re[i]), text, j, j + 1);
      return;
    }
    return false;
  }

  method MatchStar(c: char, re: string, i: nat, text: string, j: nat) returns (r: bool)
    requires NoNul(re) && NoNul(text) && i <= |re| && j <= |text|
    ensures r <==> StarMatches(c, re, i, text, j)
    decreases |re| - i, 2
  {
    var t := j;
    while true
      invariant j <= t <= |text| && Segment(Many(c), text, j, t)
      invariant forall mid: nat | mid < t :: !(Segment(Many(c), text, j, mid) && Matches(Items(re, i), text, mid))
      decreases |text| - t
    {
      var here := MatchHere(re, i, text, t);
      if here {
        return true;
      }
      if !(Ch(text, t) != NUL && (Ch(text, t) == c || c == '.')) {
        return false;
      }
      t := t + 1;
    }
  }

  // match returns 1 if and only if the text has a match.
  method Match(re: string, text: string) returns (r: bool)
    requires NoNul(re) && NoNul(text)
    ensures r <==> Found(re, text)
  {
    if Ch(re, 0) == '^' {
      r := MatchHere(re, 1, text, 0);
      return;
    }
    var t := 0;
    while true
      invariant 0 <= t <= |text|
      invariant forall start: nat | start < t :: !Matches(Items(re, 0), text, start)
      decreases |text| - t
    {
      var here := MatchHere(re, 0, text, t);
      if here {
        return true;
      }
      if Ch(text, t) == NUL {
        return false;
      }
      t := t + 1;
    }
  }
}
