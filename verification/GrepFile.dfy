
module GrepLines {
  import opened Patterns

  const BUFSIZE: nat := 1024
  const NUL: char := '\0'
  const NEWLINE: char := '\n'

  /** The first place of `c` in `s` from `i` on, or its length. */
  function FindFrom(s: string, c: char, i: nat): (j: nat)
    requires i <= |s|
    ensures i <= j <= |s| && (forall k | i <= k < j :: s[k] != c) && (j < |s| ==> s[j] == c)
    decreases |s| - i
  {
    if i == |s| || s[i] == c then i else FindFrom(s, c, i + 1)
  }

  function Find(s: string, c: char): (j: nat)
    ensures j <= |s| && (forall k | 0 <= k < j :: s[k] != c) && (j < |s| ==> s[j] == c)
  {
    FindFrom(s, c, 0)
  }

  /** The newline-terminated lines of a file that match: what grep is for. */
  ghost function Selected(re: string, s: string): string
    decreases |s|
  {
    var j := Find(s, NEWLINE);
    if j == |s| then "" else
      (if Matches(re, s[..j]) then s[..j + 1] else "") + Selected(re, s[j + 1..])
  }

  /** A line that fits the buffer with its terminator and holds no NUL. */
  predicate Tractable(line: string) {
    |line| < BUFSIZE - 1 && NUL !in line
  }

  /** What grep writes: the selected lines before the first intractable one. */
  ghost function Reported(re: string, s: string): string
    decreases |s|
  {
    var j := Find(s, NEWLINE);
    if j == |s| || !Tractable(s[..j]) then "" else
      (if Matches(re, s[..j]) then s[..j + 1] else "") + Reported(re, s[j + 1..])
  }

  predicate AllTractable(s: string)
    decreases |s|
  {
    var j := Find(s, NEWLINE);
    j == |s| || (Tractable(s[..j]) && AllTractable(s[j + 1..]))
  }

  lemma {:induction false} ReportedIfTractable(re: string, s: string)
    requires AllTractable(s)
    ensures Reported(re, s) == Selected(re, s)
    decreases |s|
  {
    var j := Find(s, NEWLINE);
    if j < |s| {
      ReportedIfTractable(re, s[j + 1..]);
    }
  }

  lemma EmptyPatternMatches(line: string)
    ensures Matches("", line)
  {
    assert line[0..] == line;
    HereEmptyOrEnd("", line);
  }

  /** With an intractable line, grep for the empty pattern already loses lines. */
  lemma {:induction false} IntractableLoses(s: string)
    requires !AllTractable(s)
    ensures |Reported("", s)| < |Selected("", s)|
    decreases |s|
  {
    var j := Find(s, NEWLINE);
    EmptyPatternMatches(s[..j]);
    if Tractable(s[..j]) {
      IntractableLoses(s[j + 1..]);
    }
  }

  /** grep selects exactly the matching lines, whatever the pattern, if and only if no complete line
      of the file is 1023 characters or longer or contains a NUL. */
  lemma CompleteIffTractable(s: string)
    ensures AllTractable(s) <==> forall re :: Reported(re, s) == Selected(re, s)
  {
    if AllTractable(s) {
      forall re ensures Reported(re, s) == Selected(re, s) {
        ReportedIfTractable(re, s);
      }
    } else {
      IntractableLoses(s);
    }
  }

  /** No complete line can be taken off the front of `s`: no newline comes before its first NUL. */
  predicate NoneReady(s: string) {
    Find(s, NEWLINE) == |s| || Find(s, NUL) < Find(s, NEWLINE)
  }

  lemma NothingReadyInNothing()
    ensures NoneReady("")
  {
    assert Find("", NEWLINE) == 0;
  }

  lemma StuckReportsNothing(re: string, s: string, t: string)
    requires NoneReady(s) && (t == "" || |s| >= BUFSIZE - 1)
    ensures Reported(re, s + t) == ""
  {
    var j := Find(s + t, NEWLINE);
    if j < |s + t| {
      if j < |s| {
        var k := Find(s, NEWLINE);
        assert k < |s| ==> (s + t)[k] == s[k];
        assert (s + t)[j] == s[j] && k == j;
        assert (s + t)[..j][Find(s, NUL)] == NUL;
      }
    }
  }

  /** Taking the first line off `s`, with `out` already written. */
  lemma LineReports(re: string, out: string, s: string, t: string, j: nat)
    requires j < |s| < BUFSIZE && s[j] == NEWLINE
    requires forall i | 0 <= i < j :: s[i] != NEWLINE && s[i] != NUL
    ensures out + Reported(re, s + t)
         == (if Matches(re, s[..j]) then out + (s[..j] + [NEWLINE]) else out) + Reported(re, s[j + 1..] + t)
  {
    var u, line := s + t, s[..j];
    assert u[j] == NEWLINE && Find(u, NEWLINE) == j;
    assert u[..j] == line && NUL !in line;
    assert u[..j + 1] == line + [NEWLINE];
    assert u[j + 1..] == s[j + 1..] + t;
    var rest := Reported(re, u[j + 1..]);
    assert Reported(re, u) == (if Matches(re, line) then line + [NEWLINE] else "") + rest;
    assert out + ((line + [NEWLINE]) + rest) == (out + (line + [NEWLINE])) + rest;
    assert out + ("" + rest) == out + rest;
  }
}

module GrepFile {
  import opened Patterns
  import opened GrepLines
  import Grep

  /** An open file; a read may return fewer bytes than asked for. */
  class File {
    const contents: string
    var pos: nat

    constructor (s: string)
      ensures contents == s && pos == 0
    {
      contents, pos := s, 0;
    }

    method Read(buf: array<char>, at: nat, max: nat) returns (n: nat)
      requires pos <= |contents| && at + max <= buf.Length
      modifies this`pos, buf
      ensures old(pos) <= pos == old(pos) + n <= |contents| && n <= max
      ensures n == 0 <==> max == 0 || old(pos) == |contents|
      ensures buf[..at] == old(buf[..at]) && buf[at..at + n] == contents[old(pos)..pos]
    {
      n := 0;
      if max > 0 && pos < |contents| {
        n :| 1 <= n <= max && pos + n <= |contents|;
        forall i | 0 <= i < n {
          buf[at + i] := contents[pos + i];
        }
        pos := pos + n;
      }
    }
  }

  method StrChr(buf: array<char>, p: nat, c: char, ghost s: string) returns (q: int)
    requires p + |s| < buf.Length && s == buf[p..p + |s|] && buf[p + |s|] == NUL && c != NUL
    ensures q == -1 <==> (Find(s, c) == |s| || Find(s, NUL) < Find(s, c))
    ensures q != -1 ==> p <= q < p + |s| && s[q - p] == c && forall i | 0 <= i < q - p :: s[i] != c && s[i] != NUL
  {
    q := p;
    while buf[q] != NUL
      invariant p <= q <= p + |s|
      invariant forall i | 0 <= i < q - p :: s[i] != c && s[i] != NUL
      decreases p + |s| - q
    {
      assert buf[q] == s[q - p];
      if buf[q] == c {
        return;
      }
      q := q + 1;
    }
    assert q < p + |s| ==> s[q - p] == NUL;
    q := -1;
  }

  method MemMoveDown(buf: array<char>, p: nat, n: nat)
    requires p + n <= buf.Length
    modifies buf
    ensures buf[..n] == old(buf[p..p + n])
  {
    var i := 0;
    while i < n
      invariant 0 <= i <= n
      invariant buf[..i] == old(buf[p..p + i])
      invariant forall k | i <= k < buf.Length :: buf[k] == old(buf[k])
    {
      buf[i] := buf[p + i];
      i := i + 1;
    }
  }

  lemma LineAndRest(buf: array<char>, p: nat, q: nat, m: nat)
    requires p <= q < m <= buf.Length
    ensures buf[p..q] == buf[p..m][..q - p] && buf[q + 1..m] == buf[p..m][q - p + 1..]
  {
  }

  /** The lines that are complete in buf[..m], which holds `s`: print those that match, and say where
      the rest, `left`, starts. */
  method TakeLines(pattern: string, buf: array<char>, m: nat, ghost s: string, ghost tail: string)
      returns (out: string, p: nat, ghost left: string)
    requires m < buf.Length <= BUFSIZE && buf[..m] == s && buf[m] == NUL
    modifies buf
    ensures p <= m && buf[p..m] == left && NoneReady(left)
    ensures out + Reported(pattern, left + tail) == Reported(pattern, s + tail)
  {
    hide Reported, Matches, MatchesHere, Find;
    out, p, left := "", 0, s;
    while true
      invariant p <= m && buf[m] == NUL && buf[p..m] == left
      invariant out + Reported(pattern, left + tail) == Reported(pattern, s + tail)
      decreases m - p
    {
      var q := StrChr(buf, p, NEWLINE, left);
      if q == -1 {
        break;
      }
      ghost var line, left' := left[..q - p], left[q - p + 1..];
      LineReports(pattern, out, left, tail, q - p);
      LineAndRest(buf, p, q, m);
      out := MatchLine(pattern, buf, p, q, line, out);
      assert buf[q + 1..m] == left';
      p, left := q + 1, left';
    }
  }

  /** Match the line buf[p..q], with a NUL put in place of its newline; print it if it matches. */
  method MatchLine(pattern: string, buf: array<char>, p: nat, q: nat, ghost line: string, out: string)
      returns (out': string)
    requires p <= q < buf.Length && buf[p..q] == line
    modifies buf
    ensures forall k | q < k < buf.Length :: buf[k] == old(buf[k])
    ensures out' == if Matches(pattern, line) then out + (line + [NEWLINE]) else out
  {
    out' := out;
    buf[q] := NUL;
    assert buf[p..q] == line;
    var matched := Grep.Match(pattern, buf[p..q]);
    if matched {
      buf[q] := NEWLINE;
      out' := out + buf[p..q + 1];
      assert buf[p..q + 1] == line + [NEWLINE];
    }
  }

  /** Read into the buffer behind the `kept` characters and put a NUL behind what was read. */
  method Refill(f: File, buf: array<char>, m: nat, ghost kept: string) returns (n: nat)
    requires buf.Length == BUFSIZE && m < BUFSIZE && buf[..m] == kept && f.pos <= |f.contents|
    modifies f`pos, buf
    ensures n == 0 ==> f.pos == old(f.pos) && (m == BUFSIZE - 1 || f.pos == |f.contents|)
    ensures n > 0 ==> old(f.pos) < f.pos <= |f.contents| && m + n < BUFSIZE && buf[m + n] == NUL
    ensures n > 0 ==> buf[..m + n] == kept + f.contents[old(f.pos)..f.pos]
  {
    n := f.Read(buf, m, BUFSIZE - m - 1);
    if n > 0 {
      buf[m + n] := NUL;
      assert buf[..m + n] == buf[..m] + buf[m..m + n];
    }
  }

  /** Filter a file through the 1024-byte buffer: however read() cuts the file up, what is written
      is Reported. */
  method Run(pattern: string, f: File, buf: array<char>) returns (out: string)
    requires buf.Length == BUFSIZE && f.pos == 0
    modifies f, buf
    ensures out == Reported(pattern, f.contents)
  {
    hide Reported, Matches, NoneReady, Find;
    out := "";
    var m: nat := 0;
    ghost var all, kept := f.contents, "";
    assert kept + all[0..] == all;
    NothingReadyInNothing();
    while true
      invariant m < BUFSIZE && f.pos <= |all| && buf[..m] == kept && NoneReady(kept)
      invariant out + Reported(pattern, kept + all[f.pos..]) == Reported(pattern, all)
      decreases |all| - f.pos
    {
      ghost var rest := all[f.pos..];
      var n := Refill(f, buf, m, kept);
      if n == 0 {
        StuckReportsNothing(pattern, kept, rest);
        break;
      }
      ghost var s, tail := buf[..m + n], all[f.pos..];
      assert s + tail == kept + rest;
      m := m + n;
      var lines, p;
      lines, p, kept := TakeLines(pattern, buf, m, s, tail);
      assert out + (lines + Reported(pattern, kept + tail)) == (out + lines) + Reported(pattern, kept + tail);
      out := out + lines;
      m := m - p;
      MemMoveDown(buf, p, m);
    }
  }
}
