// The regular-expression matcher of user/grep.c, proved against the textbook meaning of the
// patterns it accepts. Strings are C strings: the terminating NUL is the end of the sequence.

module Patterns {

  /** Regular expressions and the words they denote, independently of how grep matches them. */
  datatype Regex =
    | Empty
    | Only(c: char)
    | AnyOne
    | Cat(first: Regex, second: Regex)
    | Repeat(body: Regex)

  ghost predicate InLanguage(r: Regex, w: string)
    decreases r, |w|
  {
    match r
    case Empty => w == ""
    case Only(c) => w == [c]
    case AnyOne => |w| == 1
    case Cat(r1, r2) => exists k :: 0 <= k <= |w| && InLanguage(r1, w[..k]) && InLanguage(r2, w[k..])
    case Repeat(b) => w == "" || exists k :: 0 < k <= |w| && InLanguage(b, w[..k]) && InLanguage(r, w[k..])
  }

  function OneChar(c: char): Regex {
    if c == '.' then AnyOne else Only(c)
  }

  /** A pattern without its leading ^: its expression, and whether it is tied to the end of the text. */
  datatype Pattern = Pattern(regex: Regex, toEnd: bool)

  function Meaning(re: string): Pattern {
    if re == "" then Pattern(Empty, false)
    else if |re| > 1 && re[1] == '*' then
      var p := Meaning(re[2..]);
      Pattern(Cat(Repeat(OneChar(re[0])), p.regex), p.toEnd)
    else if re == "$" then Pattern(Empty, true)
    else
      var p := Meaning(re[1..]);
      Pattern(Cat(OneChar(re[0]), p.regex), p.toEnd)
  }

  /** Some prefix of `text`, or all of it for a pattern ending in $, is a word of the pattern. */
  ghost predicate MatchesHere(re: string, text: string) {
    exists k :: PrefixIn(re, text, k)
  }

  ghost predicate PrefixIn(re: string, text: string, k: int) {
    && 0 <= k <= |text|
    && InLanguage(Meaning(re).regex, text[..k])
    && (Meaning(re).toEnd ==> k == |text|)
  }

  /** What grep promises of a pattern and a line: the start of a matching stretch is 0 after a ^. */
  ghost predicate Matches(re: string, text: string) {
    if re != "" && re[0] == '^' then MatchesHere(re[1..], text)
    else exists i :: 0 <= i <= |text| && MatchesHere(re, text[i..])
  }

  predicate Fits(c: char, x: char) {
    c == '.' || c == x
  }

  predicate AllFit(c: char, w: string) {
    forall i | 0 <= i < |w| :: Fits(c, w[i])
  }

  lemma OneCharWords(c: char, w: string)
    ensures InLanguage(OneChar(c), w) <==> |w| == 1 && Fits(c, w[0])
  {
  }

  lemma {:induction false} RepeatWords(c: char, w: string)
    ensures InLanguage(Repeat(OneChar(c)), w) <==> AllFit(c, w)
    decreases |w|
  {
    var r := Repeat(OneChar(c));
    if w != "" {
      RepeatWords(c, w[1..]);
      OneCharWords(c, w[..1]);
      assert AllFit(c, w) <==> Fits(c, w[0]) && AllFit(c, w[1..]) by {
        assert forall i | 0 < i < |w| :: w[i] == w[1..][i - 1];
      }
      if AllFit(c, w) {
        assert InLanguage(OneChar(c), w[..1]) && InLanguage(r, w[1..]);
      }
      if InLanguage(r, w) {
        var k :| 0 < k <= |w| && InLanguage(OneChar(c), w[..k]) && InLanguage(r, w[k..]);
        OneCharWords(c, w[..k]);
      }
    }
  }

  /** A pattern that begins with a single character takes it off the front of the text. */
  lemma HereOne(re: string, text: string)
    requires re != "" && re != "$" && !(|re| > 1 && re[1] == '*')
    ensures MatchesHere(re, text) <==> text != "" && Fits(re[0], text[0]) && MatchesHere(re[1..], text[1..])
  {
    var first, rest := OneChar(re[0]), Meaning(re[1..]).regex;
    if MatchesHere(re, text) {
      var k :| PrefixIn(re, text, k);
      var j :| 0 <= j <= k && InLanguage(first, text[..k][..j]) && InLanguage(rest, text[..k][j..]);
      OneCharWords(re[0], text[..k][..j]);
      assert text[..k][1..] == text[1..][..k - 1];
      assert PrefixIn(re[1..], text[1..], k - 1);
    }
    if text != "" && Fits(re[0], text[0]) && MatchesHere(re[1..], text[1..]) {
      var k :| PrefixIn(re[1..], text[1..], k);
      var w := text[..k + 1];
      OneCharWords(re[0], w[..1]);
      assert w[1..] == text[1..][..k];
      assert InLanguage(first, w[..1]) && InLanguage(rest, w[1..]);
      assert PrefixIn(re, text, k + 1);
    }
  }

  /** A pattern that begins with c* may take any run of fitting characters off the front. */
  lemma HereStar(re: string, text: string)
    requires |re| > 1 && re[1] == '*'
    ensures MatchesHere(re, text) <==>
            exists j :: 0 <= j <= |text| && AllFit(re[0], text[..j]) && MatchesHere(re[2..], text[j..])
  {
    var first, rest := Repeat(OneChar(re[0])), Meaning(re[2..]).regex;
    if MatchesHere(re, text) {
      var k :| PrefixIn(re, text, k);
      var j :| 0 <= j <= k && InLanguage(first, text[..k][..j]) && InLanguage(rest, text[..k][j..]);
      RepeatWords(re[0], text[..k][..j]);
      assert text[..k][..j] == text[..j] && text[..k][j..] == text[j..][..k - j];
      assert PrefixIn(re[2..], text[j..], k - j);
    }
    if j :| 0 <= j <= |text| && AllFit(re[0], text[..j]) && MatchesHere(re[2..], text[j..]) {
      var k :| PrefixIn(re[2..], text[j..], k);
      var w := text[..j + k];
      RepeatWords(re[0], text[..j]);
      assert w[..j] == text[..j] && w[j..] == text[j..][..k];
      assert InLanguage(first, w[..j]) && InLanguage(rest, w[j..]);
      assert PrefixIn(re, text, j + k);
    }
  }

  lemma HereEmptyOrEnd(re: string, text: string)
    requires re == "" || re == "$"
    ensures MatchesHere(re, text) <==> re == "" || text == ""
  {
    assert text[..0] == "";
    if re == "" || text == "" {
      assert PrefixIn(re, text, 0);
    }
  }
}

module Grep {
  import opened Patterns

  method Match(re: string, text: string) returns (b: bool)
    ensures b <==> Matches(re, text)
  {
    if re != "" && re[0] == '^' {
      b := MatchHere(re[1..], text);
      return;
    }
    var rest := text;
    ghost var i := 0;
    assert text[0..] == text;
    while true
      invariant 0 <= i <= |text| && rest == text[i..]
      invariant forall j | 0 <= j < i :: !MatchesHere(re, text[j..])
      decreases |rest|
    {
      b := MatchHere(re, rest);
      if b {
        return;
      }
      if rest == "" {
        break;
      }
      rest := rest[1..];
      i := i + 1;
    }
    b := false;
  }

  /** Search for re at the beginning of text. */
  method MatchHere(re: string, text: string) returns (b: bool)
    ensures b <==> MatchesHere(re, text)
    decreases |re|, 0
  {
    if re == "" {
      HereEmptyOrEnd(re, text);
      return true;
    }
    if |re| > 1 && re[1] == '*' {
      HereStar(re, text);
      b := MatchStar(re[0], re[2..], text);
      return;
    }
    if re[0] == '$' && |re| == 1 {
      HereEmptyOrEnd(re, text);
      return text == "";
    }
    HereOne(re, text);
    if text != "" && (re[0] == '.' || re[0] == text[0]) {
      b := MatchHere(re[1..], text[1..]);
      return;
    }
    return false;
  }

  /** Search for c*re at the beginning of text. */
  method MatchStar(c: char, re: string, text: string) returns (b: bool)
    ensures b <==> exists j :: 0 <= j <= |text| && AllFit(c, text[..j]) && MatchesHere(re, text[j..])
    decreases |re|, 1
  {
    var rest := text;
    ghost var i := 0;
    assert text[0..] == text;
    while true
      invariant 0 <= i <= |text| && rest == text[i..]
      invariant AllFit(c, text[..i])
      invariant forall j | 0 <= j < i :: !MatchesHere(re, text[j..])
      decreases |rest|
    {
      b := MatchHere(re, rest);
      if b {
        return;
      }
      if rest == "" {
        break;
      }
      if !(rest[0] == c || c == '.') {
        assert !Fits(c, text[i]);
        assert forall j | i < j <= |text| :: text[..j][i] == text[i];
        break;
      }
      rest := rest[1..];
      i := i + 1;
    }
    b := false;
  }
}
