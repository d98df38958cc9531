// Printing a command tree with parentheses, and parsing it back (user/sh.c).

module ShellPrint {
  import opened ShellGrammar

  type Tree = Cmd<string>

  predicate Printable(w: string) {
    w != [] && forall k | 0 <= k < |w| :: WordChar(w[k])
  }

  /** At most nine words to a command; no word with a blank, a symbol or a NUL. */
  predicate Plain(t: Tree) {
    match t
    case Exec(ws) => |ws| < MAXARGS && forall k | 0 <= k < |ws| :: Printable(ws[k])
    case Redir(c, f, _) => Plain(c) && Printable(f)
    case Pipe(l, r) => Plain(l) && Plain(r)
    case List(l, r) => Plain(l) && Plain(r)
    case Back(c) => Plain(c)
  }

  function Join(ws: seq<string>): string {
    if ws == [] then "" else if |ws| == 1 then ws[0] else ws[0] + " " + Join(ws[1..])
  }

  function Operator(m: Mode): string {
    match m case Read => "<" case Truncate => ">" case Append => ">>"
  }

  function Parens(s: string): string {
    "(" + s + ")"
  }

  function Print(t: Tree): string {
    match t
    case Exec(ws) => Join(ws)
    case Redir(c, f, m) => Parens(Print(c)) + Operator(m) + f
    case Pipe(l, r) => Parens(Print(l)) + "|" + Parens(Print(r))
    case List(l, r) => Parens(Print(l)) + ";" + Parens(Print(r))
    case Back(c) => Parens(Print(c)) + "&"
  }

  function TextOf(text: string, w: Span): string
    requires IsWord(text, w)
  {
    text[w.q..w.eq]
  }

  /** The tree's words, read off the line. */
  function Texts(text: string, c: Cmd<Span>): Tree
    requires WordsOk(text, c)
  {
    match c
    case Exec(argv) => Exec(seq(|argv|, k requires 0 <= k < |argv| => TextOf(text, argv[k])))
    case Redir(d, f, m) => Redir(Texts(text, d), TextOf(text, f), m)
    case Pipe(l, r) => Pipe(Texts(text, l), Texts(text, r))
    case List(l, r) => List(Texts(text, l), Texts(text, r))
    case Back(d) => Back(Texts(text, d))
  }

  predicate Has(text: string, i: nat, s: string) {
    i + |s| <= |text| && text[i..i + |s|] == s
  }

  /** The line ends at j, or goes on with a closing parenthesis. */
  predicate Ends(text: string, j: nat) {
    j <= |text| && (j < |text| ==> text[j] == ')')
  }

  lemma HasParts(text: string, i: nat, a: string, b: string)
    ensures Has(text, i, a + b) <==> Has(text, i, a) && Has(text, i + |a|, b)
  {
    if Has(text, i, a + b) {
      assert text[i..i + |a|] == (a + b)[..|a|];
      assert text[i + |a|..i + |a| + |b|] == (a + b)[|a|..];
    }
  }

  lemma HasChar(text: string, i: nat, c: char)
    requires Has(text, i, [c])
    ensures i < |text| && text[i] == c == CharAt(text, i)
  {
    assert text[i..i + 1][0] == c;
  }

  lemma {:induction false} WordEndIs(text: string, i: nat, j: nat)
    requires Line(text) && i <= j <= |text| && (forall k | i <= k < j :: WordChar(text[k]))
    requires !WordChar(CharAt(text, j))
    ensures WordEnd(text, i) == j
    decreases j - i
  {
    if i < j {
      WordEndIs(text, i + 1, j);
    } else {
      assert j < |text| ==> text[j] in text;
    }
  }

  /** A word in the line, followed by something else, is one token. */
  lemma WordToken(text: string, i: nat, w: string)
    requires Line(text) && Has(text, i, w) && Printable(w) && !WordChar(CharAt(text, i + |w|))
    ensures WordChar(text[i]) && GetToken(text, i) == Token('a', i, i + |w|, Skip(text, i + |w|))
    ensures IsWord(text, Span(i, i + |w|)) && TextOf(text, Span(i, i + |w|)) == w
  {
    forall k | i <= k < i + |w| ensures WordChar(text[k]) {
      assert text[k] == text[i..i + |w|][k - i];
    }
    WordEndIs(text, i, i + |w|);
  }

  lemma NoRedirs(text: string, i: nat)
    requires Line(text) && i <= |text| && !Space(CharAt(text, i)) && CharAt(text, i) != '<' && CharAt(text, i) != '>'
    ensures Skip(text, i) == i && GetRedirs(text, i) == Redirs([], i)
  {
  }

  // ---- simple commands ----

  /** One word of a simple command. */
  lemma ArgsStep(text: string, i: nat, argv: seq<Span>, w: string, j: nat)
    requires Line(text) && Has(text, i, w) && Printable(w) && !WordChar(CharAt(text, i + |w|)) && |argv| + 1 < MAXARGS
    requires WordsOk(text, Exec(argv)) && Skip(text, i + |w|) == j && CharAt(text, j) != '<' && CharAt(text, j) != '>'
    ensures IsWord(text, Span(i, i + |w|)) && TextOf(text, Span(i, i + |w|)) == w
    ensures WordsOk(text, Exec(argv + [Span(i, i + |w|)]))
    ensures Args(text, argv, [], i) == Args(text, argv + [Span(i, i + |w|)], [], j)
  {
    hide GetRedirs, GetToken, Wrap, WordEnd;
    WordToken(text, i, w);
    NoRedirs(text, j);
    NoTos();
    assert Skip(text, i) == i;
  }

  lemma NoTos()
    ensures var none: seq<To> := []; none + none == none
  {
  }

  lemma ArgsEnd(text: string, i: nat, argv: seq<Span>)
    requires Line(text) && Ends(text, i) && WordsOk(text, Exec(argv))
    ensures Args(text, argv, [], i) == Ok(Exec(argv), i)
  {
    assert CharAt(text, i) == ')' || CharAt(text, i) == NUL;
  }

  predicate ReadAt(text: string, all: seq<Span>, n: nat, ws: seq<string>, k: nat)
    requires n + |ws| <= |all| && k < |ws|
  {
    IsWord(text, all[n + k]) && TextOf(text, all[n + k]) == ws[k]
  }

  /** The tree of a simple command: the words `argv`, and then `ws`. */
  predicate Reads(text: string, r: Parsed, argv: seq<Span>, ws: seq<string>, e: nat) {
    && r.Ok? && r.pos == e && r.cmd.Exec? && |r.cmd.argv| == |argv| + |ws| && r.cmd.argv[..|argv|] == argv
    && forall k | 0 <= k < |ws| :: ReadAt(text, r.cmd.argv, |argv|, ws, k)
  }

  lemma ReadsOneMore(text: string, r: Parsed, argv: seq<Span>, x: Span, ws: seq<string>, e: nat)
    requires ws != [] && IsWord(text, x) && TextOf(text, x) == ws[0] && Reads(text, r, argv + [x], ws[1..], e)
    ensures Reads(text, r, argv, ws, e)
  {
    var all, n := r.cmd.argv, |argv|;
    assert all[..n + 1][n] == x && all[..n] == all[..n + 1][..n];
    forall k | 0 <= k < |ws| ensures ReadAt(text, all, n, ws, k) {
      if k > 0 {
        assert ReadAt(text, all, n + 1, ws[1..], k - 1);
      }
    }
  }

  lemma {:induction false} ArgsParse(text: string, i: nat, argv: seq<Span>, ws: seq<string>)
    requires Line(text) && Has(text, i, Join(ws)) && Ends(text, i + |Join(ws)|) && |argv| + |ws| < MAXARGS
    requires WordsOk(text, Exec(argv)) && forall k | 0 <= k < |ws| :: Printable(ws[k])
    ensures Reads(text, Args(text, argv, [], i), argv, ws, i + |Join(ws)|)
    decreases |ws|
  {
    hide Args, GetToken, GetRedirs, Reads, IsWord, Printable;
    if ws == [] {
      ArgsEnd(text, i, argv);
      ReadsNone(text, argv, i);
    } else {
      var w, rest := ws[0], ws[1..];
      var j := i + |w|;
      var next := if rest == [] then j else j + 1;
      if rest == [] {
        assert Join(ws) == w;
        assert Has(text, j, Join(rest));
      } else {
        assert Join(ws) == w + (" " + Join(rest));
        HasParts(text, i, w, " " + Join(rest));
        HasParts(text, j, " ", Join(rest));
        HasChar(text, j, ' ');
        FirstOfJoin(text, j + 1, rest);
      }
      ArgsStep(text, i, argv, w, next);
      ArgsParse(text, next, argv + [Span(i, j)], rest);
      ReadsOneMore(text, Args(text, argv, [], i), argv, Span(i, j), ws, i + |Join(ws)|);
    }
  }

  lemma ReadsNone(text: string, argv: seq<Span>, e: nat)
    ensures Reads(text, Ok(Exec(argv), e), argv, [], e)
  {
    assert argv[..|argv|] == argv;
  }

  lemma FirstOfJoin(text: string, i: nat, ws: seq<string>)
    requires Has(text, i, Join(ws)) && ws != [] && Printable(ws[0])
    ensures i < |text| && WordChar(text[i])
  {
    assert Join(ws)[0] == ws[0][0];
    assert text[i..i + |Join(ws)|][0] == text[i];
  }

  // ---- one step of each grammar function ----

  function Piped(c: Cmd<Span>, r: Parsed): Parsed {
    if r.Ok? then Ok(Pipe(c, r.cmd), r.pos) else Panic
  }

  function Listed(c: Cmd<Span>, r: Parsed): Parsed {
    if r.Ok? then Ok(List(c, r.cmd), r.pos) else Panic
  }

  function Redirected(c: Cmd<Span>, r: Redirs): Parsed {
    if r.Redirs? then Ok(Wrap(c, r.tos), r.pos) else Panic
  }

  lemma SymbolToken(text: string, i: nat, c: char)
    requires Line(text) && i < |text| && text[i] == c && !Space(CharAt(text, i + 1))
    requires c == '|' || c == '(' || c == ')' || c == ';' || c == '&' || c == '<'
    ensures Skip(text, i) == i && GetToken(text, i) == Token(c, i, i + 1, i + 1)
  {
  }

  lemma SymbolThen(text: string, i: nat, c: char)
    requires Line(text) && i < |text| && text[i] == c
    requires c == '|' || c == '(' || c == ')' || c == ';' || c == '&' || c == '<'
    ensures Skip(text, i) == i && GetToken(text, i) == Token(c, i, i + 1, Skip(text, i + 1))
  {
  }

  lemma PipeStep(text: string, i: nat, c: Cmd<Span>, j: nat)
    requires Line(text) && i <= |text| && ParseExec(text, i) == Ok(c, j) && !Space(CharAt(text, j))
    requires CharAt(text, j) == '|' ==> !Space(CharAt(text, j + 1))
    ensures i <= j <= |text| && WordsOk(text, c)
    ensures CharAt(text, j) != '|' ==> ParsePipe(text, i) == Ok(c, j)
    ensures CharAt(text, j) == '|' ==>
              j < |text| && ParsePipe(text, i) == Piped(c, ParsePipe(text, j + 1))
  {
    assert Good(text, i, ParseExec(text, i));
    if CharAt(text, j) == '|' {
      SymbolToken(text, j, '|');
    }
  }

  lemma LineStep(text: string, i: nat, c: Cmd<Span>, j: nat)
    requires Line(text) && i <= |text| && ParsePipe(text, i) == Ok(c, j) && !Space(CharAt(text, j))
    requires CharAt(text, j) == ';' ==> !Space(CharAt(text, j + 1))
    requires CharAt(text, j) == '&' ==> Ends(text, j + 1)
    ensures i <= j <= |text| && WordsOk(text, c)
    ensures CharAt(text, j) == ')' || CharAt(text, j) == NUL ==> ParseLine(text, i) == Ok(c, j)
    ensures CharAt(text, j) == '&' ==> ParseLine(text, i) == Ok(Back(c), j + 1)
    ensures CharAt(text, j) == ';' ==>
              j < |text| && ParseLine(text, i) == Listed(c, ParseLine(text, j + 1))
  {
    assert Good(text, i, ParsePipe(text, i));
    if CharAt(text, j) == ';' {
      SymbolToken(text, j, ';');
    } else if CharAt(text, j) == '&' {
      SymbolToken(text, j, '&');
      assert Amps(text, Back(c), j + 1) == Ok(Back(c), j + 1);
    }
  }

  lemma BlockStep(text: string, i: nat, c: Cmd<Span>, j: nat)
    requires Line(text) && i < |text| && text[i] == '(' && !Space(CharAt(text, i + 1))
    requires ParseLine(text, i + 1) == Ok(c, j) && j < |text| && text[j] == ')'
    ensures WordsOk(text, c)
    ensures ParseExec(text, i) == Redirected(c, GetRedirs(text, Skip(text, j + 1)))
  {
    hide ParseLine, GetRedirs, Wrap, GetToken;
    SymbolToken(text, i, '(');
    SymbolThen(text, j, ')');
    assert Good(text, i + 1, ParseLine(text, i + 1));
    assert ParseExec(text, i) == ParseBlock(text, i);
  }

  // ---- parenthesised commands ----

  /** A parenthesised tree is parsed, and what follows it is looked at for redirections. */
  lemma BlockParses(text: string, i: nat, t: Tree) returns (c: Cmd<Span>)
    requires Line(text) && Plain(t) && Has(text, i, Parens(Print(t)))
    ensures var j := i + |Print(t)| + 2;
            && j <= |text| && WordsOk(text, c) && Texts(text, c) == t
            && ParseExec(text, i) == Redirected(c, GetRedirs(text, Skip(text, j)))
    decreases t, 5
  {
    hide ParseLine, ParseExec, GetRedirs, Wrap, Print, Texts, Plain, Skip;
    var p := Print(t);
    assert Parens(p) == "(" + (p + ")");
    HasParts(text, i, "(", p + ")");
    HasParts(text, i + 1, p, ")");
    HasChar(text, i, '(');
    HasChar(text, i + 1 + |p|, ')');
    StartIsNotSpace(text, i + 1, t);
    LineParses(text, i + 1, t);
    c := ParseLine(text, i + 1).cmd;
    BlockStep(text, i, c, i + 1 + |p|);
  }

  /** A parenthesised tree without redirections. */
  lemma BlockAlone(text: string, i: nat, t: Tree) returns (c: Cmd<Span>)
    requires Line(text) && Plain(t) && Has(text, i, Parens(Print(t)))
    requires var x := CharAt(text, i + |Print(t)| + 2); !Space(x) && x != '<' && x != '>'
    ensures WordsOk(text, c) && Texts(text, c) == t && i < |text| && CharAt(text, i) == '('
    ensures ParseExec(text, i) == Ok(c, i + |Print(t)| + 2)
    decreases t, 6
  {
    hide ParseLine, ParseExec, Print, Texts, Plain, Skip;
    c := BlockParses(text, i, t);
    NoRedirs(text, i + |Print(t)| + 2);
    ParenStarts(text, i, t);
    assert Wrap(c, []) == c;
  }

  /** A printed tree, or what ends it, does not start with a blank. */
  lemma StartIsNotSpace(text: string, i: nat, t: Tree)
    requires Line(text) && Plain(t) && Has(text, i, Print(t)) && Ends(text, i + |Print(t)|)
    ensures !Space(CharAt(text, i)) && Skip(text, i) == i
  {
    if t.Exec? {
      if t.argv != [] {
        FirstOfJoin(text, i, t.argv);
      }
    } else {
      assert Print(t)[0] == '(';
      assert text[i..i + |Print(t)|][0] == text[i];
    }
  }

  lemma LineParses(text: string, i: nat, t: Tree)
    requires Line(text) && Plain(t) && Has(text, i, Print(t)) && Ends(text, i + |Print(t)|)
    ensures var r := ParseLine(text, i); r.Ok? && r.pos == i + |Print(t)| && Texts(text, r.cmd) == t
    decreases t, 4
  {
    hide ParseLine, Print, Texts, Has;
    match t
    case Exec(ws) => ExecParses(text, i, t);
    case Redir(c, f, m) => RedirParses(text, i, t);
    case Pipe(l, r) => PipeParses(text, i, t);
    case List(l, r) => ListParses(text, i, t);
    case Back(c) => BackParses(text, i, t);
  }

  lemma ExecParses(text: string, i: nat, t: Tree)
    requires t.Exec? && Line(text) && Plain(t) && Has(text, i, Print(t)) && Ends(text, i + |Print(t)|)
    ensures var r := ParseLine(text, i); r.Ok? && r.pos == i + |Print(t)| && Texts(text, r.cmd) == t
  {
    hide ParseLine, ParsePipe, ParseExec, Args, Reads, Texts, GetRedirs;
    var ws, e := t.argv, i + |Print(t)|;
    if ws != [] {
      FirstOfJoin(text, i, ws);
    }
    ArgsParse(text, i, [], ws);
    var r := Args(text, [], [], i);
    ReadsTexts(text, r, ws, e);
    ExecStep(text, i);
    PipeStep(text, i, r.cmd, e);
    LineStep(text, i, r.cmd, e);
  }

  lemma ExecStep(text: string, i: nat)
    requires Line(text) && i <= |text| && !Space(CharAt(text, i))
    requires CharAt(text, i) != '(' && CharAt(text, i) != '<' && CharAt(text, i) != '>'
    ensures ParseExec(text, i) == Args(text, [], [], i)
  {
    NoRedirs(text, i);
  }

  lemma ReadsTexts(text: string, r: Parsed, ws: seq<string>, e: nat)
    requires Reads(text, r, [], ws, e)
    ensures r.Ok? && r.pos == e && WordsOk(text, r.cmd) && Texts(text, r.cmd) == Exec(ws)
  {
    var argv := r.cmd.argv;
    forall k | 0 <= k < |argv| ensures IsWord(text, argv[k]) && TextOf(text, argv[k]) == ws[k] {
      assert ReadAt(text, argv, 0, ws, k);
    }
    assert Texts(text, r.cmd).argv == ws;
  }

  lemma ParenStarts(text: string, i: nat, t: Tree)
    requires Has(text, i, Parens(Print(t)))
    ensures i < |text| && CharAt(text, i) == '(' && Skip(text, i) == i
  {
    assert Parens(Print(t)) == "(" + (Print(t) + ")");
    HasParts(text, i, "(", Print(t) + ")");
    HasChar(text, i, '(');
  }

  lemma PipeParses(text: string, i: nat, t: Tree)
    requires t.Pipe? && Line(text) && Plain(t) && Has(text, i, Print(t)) && Ends(text, i + |Print(t)|)
    ensures var r := ParseLine(text, i); r.Ok? && r.pos == i + |Print(t)| && Texts(text, r.cmd) == t
    decreases t, 3
  {
    hide ParseLine, ParsePipe, ParseExec, Has, Skip;
    var a, b := Parens(Print(t.left)), Parens(Print(t.right));
    var j, e := i + |a|, i + |a| + 1 + |b|;
    assert Print(t) == a + ("|" + b);
    HasParts(text, i, a, "|" + b);
    HasParts(text, j, "|", b);
    HasChar(text, j, '|');
    ParenStarts(text, j + 1, t.right);
    var c := BlockAlone(text, i, t.left);
    var d := BlockAlone(text, j + 1, t.right);
    PipeStep(text, j + 1, d, e);
    PipeStep(text, i, c, j);
    LineStep(text, i, Pipe(c, d), e);
  }

  lemma ListParses(text: string, i: nat, t: Tree)
    requires t.List? && Line(text) && Plain(t) && Has(text, i, Print(t)) && Ends(text, i + |Print(t)|)
    ensures var r := ParseLine(text, i); r.Ok? && r.pos == i + |Print(t)| && Texts(text, r.cmd) == t
    decreases t, 3
  {
    hide ParseLine, ParsePipe, ParseExec, Has, Skip;
    var a, b := Parens(Print(t.left)), Parens(Print(t.right));
    var j, e := i + |a|, i + |a| + 1 + |b|;
    assert Print(t) == a + (";" + b);
    HasParts(text, i, a, ";" + b);
    HasParts(text, j, ";", b);
    HasChar(text, j, ';');
    ParenStarts(text, j + 1, t.right);
    var c := BlockAlone(text, i, t.left);
    var d := BlockAlone(text, j + 1, t.right);
    PipeStep(text, j + 1, d, e);
    LineStep(text, j + 1, d, e);
    PipeStep(text, i, c, j);
    LineStep(text, i, c, j);
  }

  lemma BackParses(text: string, i: nat, t: Tree)
    requires t.Back? && Line(text) && Plain(t) && Has(text, i, Print(t)) && Ends(text, i + |Print(t)|)
    ensures var r := ParseLine(text, i); r.Ok? && r.pos == i + |Print(t)| && Texts(text, r.cmd) == t
    decreases t, 3
  {
    hide ParseLine, ParsePipe, ParseExec, Has, Skip;
    var a := Parens(Print(t.cmd));
    HasParts(text, i, a, "&");
    HasChar(text, i + |a|, '&');
    var c := BlockAlone(text, i, t.cmd);
    PipeStep(text, i, c, i + |a|);
    LineStep(text, i, c, i + |a|);
  }

  lemma RedirParses(text: string, i: nat, t: Tree)
    requires t.Redir? && Line(text) && Plain(t) && Has(text, i, Print(t)) && Ends(text, i + |Print(t)|)
    ensures var r := ParseLine(text, i); r.Ok? && r.pos == i + |Print(t)| && Texts(text, r.cmd) == t
    decreases t, 3
  {
    hide ParseLine, ParsePipe, ParseExec, Has, Skip, GetRedirs, Operator;
    var a, o := Parens(Print(t.cmd)), Operator(t.mode);
    assert Print(t) == a + (o + t.file);
    HasParts(text, i, a, o + t.file);
    HasParts(text, i + |a|, o, t.file);
    var c := BlockParses(text, i, t.cmd);
    RedirTail(text, i + |a|, t.file, t.mode);
    var e := i + |a| + |o| + |t.file|;
    var w := Span(i + |a| + |o|, e);
    WrapOne(c, w, t.mode);
    PipeStep(text, i, Redir(c, w, t.mode), e);
    LineStep(text, i, Redir(c, w, t.mode), e);
  }

  lemma WrapOne(c: Cmd<Span>, w: Span, m: Mode)
    ensures Wrap(c, [To(w, m)]) == Redir(c, w, m)
  {
    assert [To(w, m)][1..] == [];
  }

  /** An operator and its file, at the end of a command. */
  lemma RedirTail(text: string, i: nat, f: string, m: Mode)
    requires Line(text) && Printable(f) && Has(text, i, Operator(m)) && Has(text, i + |Operator(m)|, f)
    requires Ends(text, i + |Operator(m)| + |f|)
    ensures Skip(text, i) == i
    ensures var j, e := i + |Operator(m)|, i + |Operator(m)| + |f|;
            && IsWord(text, Span(j, e)) && TextOf(text, Span(j, e)) == f
            && GetRedirs(text, i) == Redirs([To(Span(j, e), m)], e)
  {
    hide GetRedirs, GetToken;
    var j, e := i + |Operator(m)|, i + |Operator(m)| + |f|;
    WordToken(text, j, f);
    NoRedirs(text, e);
    OperatorToken(text, i, m);
    RedirStep(text, i, Span(j, e), e);
  }

  lemma OperatorToken(text: string, i: nat, m: Mode)
    requires Line(text) && Has(text, i, Operator(m)) && i + |Operator(m)| < |text| && WordChar(text[i + |Operator(m)|])
    ensures Skip(text, i) == i && (CharAt(text, i) == '<' || CharAt(text, i) == '>')
    ensures ModeOf(GetToken(text, i).kind) == m && GetToken(text, i).next == i + |Operator(m)|
  {
    hide Has;
    if m == Append {
      assert Operator(m) == ">" + ">";
      HasParts(text, i, ">", ">");
      HasChar(text, i, '>');
      HasChar(text, i + 1, '>');
    } else {
      HasChar(text, i, Operator(m)[0]);
    }
  }

  lemma RedirStep(text: string, i: nat, w: Span, e: nat)
    requires Line(text) && i <= |text| && Skip(text, i) == i && (CharAt(text, i) == '<' || CharAt(text, i) == '>')
    requires GetToken(text, GetToken(text, i).next) == Token('a', w.q, w.eq, e) && e <= |text|
    requires GetRedirs(text, e) == Redirs([], e)
    ensures GetRedirs(text, i) == Redirs([To(w, ModeOf(GetToken(text, i).kind))], e)
  {
    assert [To(w, ModeOf(GetToken(text, i).kind))] + [] == [To(w, ModeOf(GetToken(text, i).kind))];
  }

  /** Every command tree, printed, parses back to itself. */
  lemma PrintParses(t: Tree)
    requires Plain(t)
    ensures Line(Print(t))
    ensures var r := ParseCmd(Print(t)); r.Ok? && Texts(Print(t), r.cmd) == t
  {
    PrintIsLine(t);
    var text := Print(t);
    assert text[0..0 + |text|] == text;
    LineParses(text, 0, t);
  }

  lemma {:induction false} PrintIsLine(t: Tree)
    requires Plain(t)
    ensures Line(Print(t))
  {
    match t
    case Exec(ws) => JoinIsLine(ws);
    case Redir(c, f, m) => PrintIsLine(c);
    case Pipe(l, r) => PrintIsLine(l); PrintIsLine(r);
    case List(l, r) => PrintIsLine(l); PrintIsLine(r);
    case Back(c) => PrintIsLine(c);
  }

  lemma {:induction false} JoinIsLine(ws: seq<string>)
    requires forall k | 0 <= k < |ws| :: Printable(ws[k])
    ensures Line(Join(ws))
  {
    if |ws| > 1 {
      JoinIsLine(ws[1..]);
    }
  }
}
