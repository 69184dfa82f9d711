/**
The regular expressions of grep.c.  C strings are sequences without their final NUL.

The meaning of a pattern is given first, without any matching procedure: a pattern is a list
of items, and a text matches when a stretch of it is a concatenation of pieces, one for each item.
*/
module Grep {
  datatype Item = One(c: char) | Star(c: char)

  predicate CharOk(c: char, x: char)
  {
    c == '.' || c == x
  }

  ghost predicate ItemOk(item: Item, piece: string)
  {
    match item
    case One(c) => |piece| == 1 && CharOk(c, piece[0])
    case Star(c) => forall i :: 0 <= i < |piece| ==> CharOk(c, piece[i])
  }

  /** The items of a pattern without its leading caret. */
  function Items(re: string): seq<Item>
  {
    if re == "" then []
    else if |re| > 1 && re[1] == '*' then [Star(re[0])] + Items(re[2..])
    else if re == "$" then []
    else [One(re[0])] + Items(re[1..])
  }

  /** The pattern demands the end of the text. */
  predicate Ends(re: string)
  {
    if re == "" then false
    else if |re| > 1 && re[1] == '*' then Ends(re[2..])
    else if re == "$" then true
    else Ends(re[1..])
  }

  function Concat(pieces: seq<string>): string
  {
    if pieces == [] then "" else pieces[0] + Concat(pieces[1..])
  }

  ghost predicate Fits(items: seq<Item>, pieces: seq<string>)
  {
    |pieces| == |items| && forall i :: 0 <= i < |items| ==> ItemOk(items[i], pieces[i])
  }

  /** The language of a list of items. */
  ghost predicate InLanguage(items: seq<Item>, w: string)
  {
    exists pieces :: Fits(items, pieces) && Concat(pieces) == w
  }

  /** text[a..b] is an occurrence of the pattern re, which has no caret. */
  ghost predicate Occurs(re: string, text: string, a: int, b: int)
  {
    0 <= a <= b <= |text| && InLanguage(Items(re), text[a..b]) && (Ends(re) ==> b == |text|)
  }

  /** The meaning of a whole pattern. */
  ghost predicate Matches(re: string, text: string)
  {
    if re != "" && re[0] == '^' then exists b :: Occurs(re[1..], text, 0, b)
    else exists a, b :: Occurs(re, text, a, b)
  }

  /** re, without a caret, matches at the beginning of text. */
  ghost predicate Here(re: string, text: string)
  {
    exists b :: Occurs(re, text, 0, b)
  }

  // ---------------------------------------------------------------- the language, item by item

  lemma NoItems(w: string)
    ensures InLanguage([], w) <==> w == ""
  {
    if w == "" {
      assert Fits([], []) && Concat([]) == w;
    }
  }

  lemma FirstItem(item: Item, rest: seq<Item>, w: string)
    ensures InLanguage([item] + rest, w)
       <==> exists k :: 0 <= k <= |w| && ItemOk(item, w[..k]) && InLanguage(rest, w[k..])
  {
    var items := [item] + rest;
    if InLanguage(items, w) {
      var pieces :| Fits(items, pieces) && Concat(pieces) == w;
      var k := |pieces[0]|;
      assert ItemOk(items[0], pieces[0]);
      assert w[..k] == pieces[0] && w[k..] == Concat(pieces[1..]);
      assert Fits(rest, pieces[1..]) by {
        forall i | 0 <= i < |rest| ensures ItemOk(rest[i], pieces[1..][i]) {
          assert ItemOk(items[i + 1], pieces[i + 1]);
        }
      }
    }
    if k :| 0 <= k <= |w| && ItemOk(item, w[..k]) && InLanguage(rest, w[k..]) {
      var pieces :| Fits(rest, pieces) && Concat(pieces) == w[k..];
      var all := [w[..k]] + pieces;
      assert all[1..] == pieces && w == w[..k] + w[k..];
      assert Fits(items, all);
    }
  }

  lemma HereEmpty(text: string)
    ensures Here("", text)
  {
    NoItems("");
    assert text[0..0] == "";
    assert Occurs("", text, 0, 0);
  }

  lemma HereEnd(text: string)
    ensures Here("$", text) <==> text == ""
  {
    if Here("$", text) {
      var b :| Occurs("$", text, 0, b);
      NoItems(text[0..b]);
    }
    if text == "" {
      NoItems("");
      assert text[0..0] == "";
      assert Occurs("$", text, 0, 0);
    }
  }

  /** The pattern with the given first item and the rest tail. */
  ghost predicate Starts(re: string, item: Item, tail: string)
  {
    Items(re) == [item] + Items(tail) && Ends(re) == Ends(tail)
  }

  lemma HereFirst(re: string, item: Item, tail: string, text: string)
    requires Starts(re, item, tail)
    ensures Here(re, text) <==> exists k :: 0 <= k <= |text| && ItemOk(item, text[..k]) && Here(tail, text[k..])
  {
    if Here(re, text) {
      var b :| Occurs(re, text, 0, b);
      var w := text[0..b];
      FirstItem(item, Items(tail), w);
      var k :| 0 <= k <= |w| && ItemOk(item, w[..k]) && InLanguage(Items(tail), w[k..]);
      assert w[..k] == text[..k] && w[k..] == text[k..][0..b - k];
      assert Occurs(tail, text[k..], 0, b - k);
    }
    if k :| 0 <= k <= |text| && ItemOk(item, text[..k]) && Here(tail, text[k..]) {
      var b :| Occurs(tail, text[k..], 0, b);
      var w := text[0..k + b];
      assert w[..k] == text[..k] && w[k..] == text[k..][0..b];
      FirstItem(item, Items(tail), w);
      assert Occurs(re, text, 0, k + b);
    }
  }

  lemma HereOne(re: string, text: string)
    requires re != "" && !(|re| > 1 && re[1] == '*') && re != "$"
    ensures Here(re, text) <==> text != "" && CharOk(re[0], text[0]) && Here(re[1..], text[1..])
  {
    HereFirst(re, One(re[0]), re[1..], text);
    if text != "" {
      assert text[..1] == [text[0]];
      assert ItemOk(One(re[0]), text[..1]) <==> CharOk(re[0], text[0]);
    }
  }

  /** The first k characters of text can be taken by c*. */
  ghost predicate Run(c: char, text: string, k: int)
  {
    0 <= k <= |text| && forall i :: 0 <= i < k ==> CharOk(c, text[i])
  }

  lemma HereStar(re: string, text: string)
    requires |re| > 1 && re[1] == '*'
    ensures Here(re, text) <==> exists k :: Run(re[0], text, k) && Here(re[2..], text[k..])
  {
    HereFirst(re, Star(re[0]), re[2..], text);
    forall k | 0 <= k <= |text| ensures ItemOk(Star(re[0]), text[..k]) <==> Run(re[0], text, k) {
      if ItemOk(Star(re[0]), text[..k]) {
        forall i | 0 <= i < k ensures CharOk(re[0], text[i]) {
          assert text[..k][i] == text[i];
        }
      }
    }
  }

  // ---------------------------------------------------------------- the matcher

  /** matchhere: re at the beginning of text. */
  method MatchHere(re: string, text: string) returns (r: bool)
    ensures r <==> Here(re, text)
    decreases |re|, 0
  {
    if re == "" {
      HereEmpty(text);
      return true;
    }
    if |re| > 1 && re[1] == '*' {
      HereStar(re, text);
      r := MatchStar(re[0], re[2..], text);
      return;
    }
    if re == "$" {
      HereEnd(text);
      return text == "";
    }
    HereOne(re, text);
    if text != "" && (re[0] == '.' || re[0] == text[0]) {
      r := MatchHere(re[1..], text[1..]);
      return;
    }
    r := false;
  }

  /** matchstar: c* and then re, at the beginning of text. */
  method MatchStar(c: char, re: string, text: string) returns (r: bool)
    ensures r <==> exists k :: Run(c, text, k) && Here(re, text[k..])
    decreases |re|, 1
  {
    var i := 0;
    while true
      invariant Run(c, text, i)
      invariant forall k :: 0 <= k < i ==> !Here(re, text[k..])
      decreases |text| - i
    {
      r := MatchHere(re, text[i..]);
      if r {
        return true;
      }
      if !(i < |text| && (text[i] == c || c == '.')) {
        break;
      }
      i := i + 1;
    }
    r := false;
  }

  /** match returns 1 exactly for the texts that the pattern means. */
  method Match(re: string, text: string) returns (r: bool)
    ensures r <==> Matches(re, text)
  {
    if re != "" && re[0] == '^' {
      r := MatchHere(re[1..], text);
      return;
    }
    var i := 0;
    while true
      invariant 0 <= i <= |text|
      invariant forall k :: 0 <= k < i ==> !Here(re, text[k..])
      decreases |text| - i
    {
      r := MatchHere(re, text[i..]);
      if r {
        Shifted(re, text, i);
        return true;
      }
      if i == |text| {
        break;
      }
      i := i + 1;
    }
    forall a, b | 0 <= a <= |text| ensures !Occurs(re, text, a, b) {
      Shifted(re, text, a);
    }
    r := false;
  }

  /** An occurrence from a on is one at the beginning of the rest. */
  lemma Shifted(re: string, text: string, a: int)
    requires 0 <= a <= |text|
    ensures Here(re, text[a..]) <==> exists b :: Occurs(re, text, a, b)
  {
    if Here(re, text[a..]) {
      var b :| Occurs(re, text[a..], 0, b);
      assert text[a..][0..b] == text[a..a + b];
      assert Occurs(re, text, a, a + b);
    }
    if b :| Occurs(re, text, a, b) {
      assert text[a..][0..b - a] == text[a..b];
      assert Occurs(re, text[a..], 0, b - a);
    }
  }
}
