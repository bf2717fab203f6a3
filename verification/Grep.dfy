/** The regular expression matcher of user/grep.c, against the language a
    pattern denotes. Patterns and texts are C strings without their terminator. */
module Grep {

  // -------- What a pattern means --------

  /** One piece of a pattern: a character or `.`, possibly starred, or a final `$`. */
  datatype Item = One(c: char) | Star(c: char) | End

  /** `.` stands for any character; every other character for itself. */
  predicate Accepts(c: char, x: char) {
    c == '.' || c == x
  }

  /** A character followed by `*` is starred, whatever it is; `$` is an anchor only at
      the very end. `*` and `^` are ordinary characters elsewhere. */
  function Parse(re: string): seq<Item> {
    if re == [] then []
    else if |re| > 1 && re[1] == '*' then [Star(re[0])] + Parse(re[2..])
    else if re == "$" then [End]
    else [One(re[0])] + Parse(re[1..])
  }

  /** Word `w`, followed by `rest` in the text, is in the language of `items`. */
  ghost predicate Matches(items: seq<Item>, w: string, rest: string)
    decreases |items|
  {
    if items == [] then w == []
    else match items[0]
      case One(c) => w != [] && Accepts(c, w[0]) && Matches(items[1..], w[1..], rest)
      case Star(c) =>
        exists k: nat :: k <= |w| && (forall j :: 0 <= j < k ==> Accepts(c, w[j])) && Matches(items[1..], w[k..], rest)
      case End => w == [] && rest == [] && Matches(items[1..], w, rest)
  }

  /** Some prefix of `text` is in the language of the pattern. */
  ghost predicate MatchesHere(re: string, text: string) {
    exists n: nat :: n <= |text| && Matches(Parse(re), text[..n], text[n..])
  }

  /** What grep promises: a match somewhere, or at the start if the pattern begins with `^`. */
  ghost predicate Found(re: string, text: string) {
    if re != [] && re[0] == '^' then MatchesHere(re[1..], text)
    else exists i: nat :: i <= |text| && MatchesHere(re, text[i..])
  }

  // -------- What that comes to --------

  /** `^` at the start ties the match to the start of the text. */
  lemma Caret(re: string, text: string)
    ensures Found("^" + re, text) <==> MatchesHere(re, text)
  {
    assert ("^" + re)[1..] == re;
  }

  /** `.` takes any character. */
  lemma Dot(re: string, text: string)
    requires re == [] || re[0] != '*'
    ensures MatchesHere("." + re, text) <==> text != [] && MatchesHere(re, text[1..])
  {
    var dotted := "." + re;
    assert dotted[0] == '.' && dotted[1..] == re && (re != [] ==> dotted[1] == re[0]);
    OneMeans(dotted, text);
  }

  /** `*` takes any number of the character before it, or of any characters after `.`. */
  lemma Starred(c: char, re: string, text: string)
    ensures MatchesHere([c, '*'] + re, text) <==>
            exists k: nat :: k <= |text| && MatchesHere(re, text[k..]) &&
                             (forall j :: 0 <= j < k ==> c == '.' || c == text[j])
  {
    assert ([c, '*'] + re)[2..] == re;
    StarMeans([c, '*'] + re, text);
  }

  predicate Plain(re: string) {
    forall i :: 0 <= i < |re| ==> re[i] != '.' && re[i] != '*' && re[i] != '$' && re[i] != '^'
  }

  lemma {:induction false} PlainPrefix(re: string, text: string)
    requires Plain(re)
    ensures MatchesHere(re, text) <==> re <= text
  {
    if re == [] {
      assert Matches(Parse(re), text[..0], text[0..]);
    } else {
      OneMeans(re, text);
      if text != [] {
        PlainPrefix(re[1..], text[1..]);
        assert re <= text <==> re[0] == text[0] && re[1..] <= text[1..] by {
          assert re == [re[0]] + re[1..] && text == [text[0]] + text[1..];
        }
      }
    }
  }

  /** A pattern without special characters is found exactly if it is a substring. */
  lemma PlainIsSubstring(re: string, text: string)
    requires Plain(re)
    ensures Found(re, text) <==> exists i: nat :: i <= |text| && re <= text[i..]
  {
    forall i: nat | i <= |text| ensures MatchesHere(re, text[i..]) <==> re <= text[i..] {
      PlainPrefix(re, text[i..]);
    }
  }

  // -------- The matcher --------

  /** `matchhere` */
  method MatchHere(re: string, text: string) returns (r: bool)
    ensures r <==> MatchesHere(re, text)
    decreases |re|, 1
  {
    if re == [] {
      assert Matches(Parse(re), text[..0], text[0..]);
      return true;
    }
    if |re| > 1 && re[1] == '*' {
      r := MatchStar(re[0], re[2..], text);
      StarMeans(re, text);
      return;
    }
    if re == "$" {
      EndMeans(re, text);
      return text == [];
    }
    OneMeans(re, text);
    if text != [] && (re[0] == '.' || re[0] == text[0]) {
      r := MatchHere(re[1..], text[1..]);
      return;
    }
    r := false;
  }

  /** `matchstar`: the loop tries ever longer runs of `c`. */
  method MatchStar(c: char, re: string, text: string) returns (r: bool)
    ensures r <==> StarHere(c, re, text)
    decreases |re|, 2
  {
    var k := 0;
    while true
      invariant 0 <= k <= |text| && (forall j :: 0 <= j < k ==> Accepts(c, text[j]))
      invariant forall j: nat :: j < k ==> !MatchesHere(re, text[j..])
      decreases |text| - k
    {
      var here := MatchHere(re, text[k..]);
      if here { return true; }
      if k == |text| || !(text[k] == c || c == '.') { break; }
      k := k + 1;
    }
    r := false;
  }

  /** `match` */
  method Match(re: string, text: string) returns (r: bool)
    ensures r <==> Found(re, text)
  {
    if re != [] && re[0] == '^' {
      r := MatchHere(re[1..], text);
      return;
    }
    var i := 0;
    while true
      invariant 0 <= i <= |text| && forall j: nat :: j < i ==> !MatchesHere(re, text[j..])
      decreases |text| - i
    {
      var here := MatchHere(re, text[i..]);
      if here { return true; }
      if i == |text| { break; }
      i := i + 1;
    }
    r := false;
  }

  // -------- Peeling one item off a pattern --------

  /** Some run of characters accepted by `c`, then a match of `re`. */
  ghost predicate StarHere(c: char, re: string, text: string) {
    exists k: nat :: k <= |text| && (forall j :: 0 <= j < k ==> Accepts(c, text[j])) && MatchesHere(re, text[k..])
  }

  lemma OneMeans(re: string, text: string)
    requires re != [] && !(|re| > 1 && re[1] == '*') && re != "$"
    ensures MatchesHere(re, text) <==> text != [] && Accepts(re[0], text[0]) && MatchesHere(re[1..], text[1..])
  {
    var items := Parse(re);
    assert items[1..] == Parse(re[1..]);
    if text != [] && Accepts(re[0], text[0]) && MatchesHere(re[1..], text[1..]) {
      var n: nat :| n <= |text[1..]| && Matches(Parse(re[1..]), text[1..][..n], text[1..][n..]);
      assert text[..n + 1][1..] == text[1..][..n] && text[n + 1..] == text[1..][n..];
      assert Matches(items, text[..n + 1], text[n + 1..]);
    }
    if MatchesHere(re, text) {
      var n: nat :| n <= |text| && Matches(items, text[..n], text[n..]);
      assert text[..n][1..] == text[1..][..n - 1] && text[n..] == text[1..][n - 1..];
    }
  }

  lemma EndMeans(re: string, text: string)
    requires re == "$"
    ensures MatchesHere(re, text) <==> text == []
  {
    assert Parse(re) == [End] && [End][1..] == [];
    if text == [] {
      assert Matches(Parse(re), text[..0], text[0..]);
    }
  }

  lemma StarMeans(re: string, text: string)
    requires |re| > 1 && re[1] == '*'
    ensures MatchesHere(re, text) <==> StarHere(re[0], re[2..], text)
  {
    var items := Parse(re);
    assert items[1..] == Parse(re[2..]);
    if StarHere(re[0], re[2..], text) {
      var k: nat :| && k <= |text| && (forall j :: 0 <= j < k ==> Accepts(re[0], text[j]))
                    && MatchesHere(re[2..], text[k..]);
      var n: nat :| n <= |text[k..]| && Matches(Parse(re[2..]), text[k..][..n], text[k..][n..]);
      var w := text[..k + n];
      assert w[k..] == text[k..][..n] && text[k + n..] == text[k..][n..];
      assert Matches(items, w, text[k + n..]);
    }
    if MatchesHere(re, text) {
      var n: nat :| n <= |text| && Matches(items, text[..n], text[n..]);
      var w := text[..n];
      var k: nat :| && k <= |w| && (forall j :: 0 <= j < k ==> Accepts(re[0], w[j]))
                    && Matches(items[1..], w[k..], text[n..]);
      assert w[k..] == text[k..][..n - k] && text[n..] == text[k..][n - k..];
      assert forall j :: 0 <= j < k ==> text[j] == w[j];
      assert MatchesHere(re[2..], text[k..]);
    }
  }
}
