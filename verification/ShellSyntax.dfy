// The shell's language (user/sh.c), told without its parser: lines are sequences of tokens, syntax says how
// tokens group, and the parser accepts a line exactly if its tokens have a syntax, with that syntax' tree.

module ShellSyntax {
  import opened ShellGrammar
  import opened ShellPrint
  import S = Shell

  datatype Tok = Sym(c: char) | Word(w: string)

  /** The tokens of the line from position i on; '+' stands for >>. */
  function Toks(text: string, i: nat): seq<Tok>
    requires i <= |text| && Line(text)
    decreases |text| - i
  {
    var t := GetToken(text, i);
    if t.kind == NUL then []
    else [if t.kind == 'a' then Word(text[t.q..t.eq]) else Sym(t.kind)] + Toks(text, t.next)
  }

  /** A word, or a redirection, of a simple command. */
  datatype Item = Arg(w: string) | Dir(file: string, mode: Mode)

  /** Pipelines, each with the ampersands after it, between semicolons. */
  datatype Lines = Last(pipe: Pipeline, amps: nat) | Then(pipe: Pipeline, amps: nat, rest: Lines)

  datatype Pipeline = One(e: Element) | Bar(e: Element, rest: Pipeline)

  datatype Element = Simple(items: seq<Item>) | Block(body: Lines, dirs: seq<Item>)

  // ---- how a syntax is written ----

  function FlatItem(x: Item): seq<Tok> {
    match x
    case Arg(w) => [Word(w)]
    case Dir(f, m) => [Sym(match m case Read => '<' case Truncate => '>' case Append => '+'), Word(f)]
  }

  function Flat(items: seq<Item>): seq<Tok> {
    if items == [] then [] else FlatItem(items[0]) + Flat(items[1..])
  }

  function FlatElement(e: Element): seq<Tok> {
    match e
    case Simple(items) => Flat(items)
    case Block(b, ds) => [Sym('(')] + FlatLines(b) + [Sym(')')] + Flat(ds)
  }

  function FlatPipe(p: Pipeline): seq<Tok> {
    match p
    case One(e) => FlatElement(e)
    case Bar(e, r) => FlatElement(e) + [Sym('|')] + FlatPipe(r)
  }

  function FlatAmps(n: nat): seq<Tok> {
    seq(n, _ => Sym('&'))
  }

  function FlatLines(l: Lines): seq<Tok> {
    match l
    case Last(p, n) => FlatPipe(p) + FlatAmps(n)
    case Then(p, n, r) => FlatPipe(p) + FlatAmps(n) + [Sym(';')] + FlatLines(r)
  }

  // ---- what it means ----

  function ArgOf(x: Item): seq<string> {
    if x.Arg? then [x.w] else []
  }

  function DirOf(x: Item): seq<Item> {
    if x.Dir? then [x] else []
  }

  function ArgsOf(items: seq<Item>): seq<string> {
    if items == [] then [] else ArgOf(items[0]) + ArgsOf(items[1..])
  }

  function DirsOf(items: seq<Item>): seq<Item> {
    if items == [] then [] else DirOf(items[0]) + DirsOf(items[1..])
  }

  predicate AllDirs(ds: seq<Item>) {
    forall k | 0 <= k < |ds| :: ds[k].Dir?
  }

  /** A command with redirections around it, the last outermost. */
  function Outer(c: Tree, ds: seq<Item>): Tree
    requires AllDirs(ds)
  {
    if ds == [] then c else var d := ds[|ds| - 1]; Redir(Outer(c, ds[..|ds| - 1]), d.file, d.mode)
  }

  function Backs(c: Tree, n: nat): Tree {
    if n == 0 then c else Back(Backs(c, n - 1))
  }

  /** At most nine words to a simple command; nothing but redirections after a parenthesis. */
  predicate ElementOk(e: Element) {
    match e
    case Simple(items) => |ArgsOf(items)| < MAXARGS
    case Block(b, ds) => LinesOk(b) && AllDirs(ds)
  }

  predicate PipeOk(p: Pipeline) {
    match p
    case One(e) => ElementOk(e)
    case Bar(e, r) => ElementOk(e) && PipeOk(r)
  }

  predicate LinesOk(l: Lines) {
    match l
    case Last(p, _) => PipeOk(p)
    case Then(p, _, r) => PipeOk(p) && LinesOk(r)
  }

  lemma {:induction false} DirsAreDirs(items: seq<Item>)
    ensures AllDirs(DirsOf(items))
  {
    if items != [] {
      DirsAreDirs(items[1..]);
    }
  }

  function TreeOfElement(e: Element): Tree
    requires ElementOk(e)
  {
    match e
    case Simple(items) => DirsAreDirs(items); Outer(Exec(ArgsOf(items)), DirsOf(items))
    case Block(b, ds) => Outer(TreeOf(b), ds)
  }

  function TreeOfPipe(p: Pipeline): Tree
    requires PipeOk(p)
  {
    match p
    case One(e) => TreeOfElement(e)
    case Bar(e, r) => Pipe(TreeOfElement(e), TreeOfPipe(r))
  }

  function TreeOf(l: Lines): Tree
    requires LinesOk(l)
  {
    match l
    case Last(p, n) => Backs(TreeOfPipe(p), n)
    case Then(p, n, r) => List(Backs(TreeOfPipe(p), n), TreeOf(r))
  }

  // ---- the first token of the rest of a line ----

  lemma SkipAgain(text: string, i: nat)
    requires i <= |text|
    ensures Skip(text, Skip(text, i)) == Skip(text, i)
  {
  }

  lemma SameToks(text: string, i: nat)
    requires i <= |text| && Line(text)
    ensures GetToken(text, Skip(text, i)) == GetToken(text, i) && Toks(text, Skip(text, i)) == Toks(text, i)
  {
    SkipAgain(text, i);
  }

  function HeadChar(ts: seq<Tok>): char {
    if ts == [] then NUL else if ts[0].Word? then 'a' else ts[0].c
  }

  /** What parsing procedures see of the first token. */
  lemma Head(text: string, i: nat)
    requires i <= |text| && Line(text)
    ensures var c, h, t := CharAt(text, Skip(text, i)), HeadChar(Toks(text, i)), GetToken(text, i);
      && h == t.kind && (h == NUL <==> c == NUL) && (c == '>' <==> h == '>' || h == '+')
      && (c in "|();&<" && c != NUL ==> h == c) && (h in "|();&<" ==> c == h)
      && (h == 'a' <==> WordChar(c)) && (h != NUL ==> Toks(text, i)[1..] == Toks(text, t.next))
      && (h == 'a' ==> Toks(text, i)[0] == Word(text[t.q..t.eq]) && IsWord(text, Span(t.q, t.eq)))
  {
    var k := Skip(text, i);
    if k < |text| {
      assert text[k] in text;
    }
  }

  // ---- redirections ----

  function DirText(text: string, to: To): (d: Item)
    requires IsWord(text, to.file)
    ensures d.Dir?
  {
    Dir(TextOf(text, to.file), to.mode)
  }

  function DirsText(text: string, tos: seq<To>): (ds: seq<Item>)
    requires TosOk(text, tos)
    ensures AllDirs(ds) && |ds| == |tos|
  {
    seq(|tos|, k requires 0 <= k < |tos| => DirText(text, tos[k]))
  }

  predicate NoDirNext(ts: seq<Tok>) {
    HeadChar(ts) != '<' && HeadChar(ts) != '>' && HeadChar(ts) != '+'
  }

  lemma {:induction false} FlatOfConcat(a: seq<Item>, b: seq<Item>)
    ensures Flat(a + b) == Flat(a) + Flat(b)
  {
    hide FlatItem;
    if a == [] {
      assert a + b == b;
    } else {
      FlatOfConcat(a[1..], b);
      assert (a + b)[1..] == a[1..] + b;
      assert Flat(a + b) == FlatItem(a[0]) + (Flat(a[1..]) + Flat(b));
    }
  }

  lemma {:induction false} ArgsOfConcat(a: seq<Item>, b: seq<Item>)
    ensures ArgsOf(a + b) == ArgsOf(a) + ArgsOf(b)
  {
    hide ArgOf;
    if a == [] {
      assert a + b == b;
    } else {
      ArgsOfConcat(a[1..], b);
      assert (a + b)[1..] == a[1..] + b;
      assert ArgsOf(a + b) == ArgOf(a[0]) + (ArgsOf(a[1..]) + ArgsOf(b));
    }
  }

  lemma {:induction false} DirsOfConcat(a: seq<Item>, b: seq<Item>)
    ensures DirsOf(a + b) == DirsOf(a) + DirsOf(b)
  {
    hide DirOf;
    if a == [] {
      assert a + b == b;
    } else {
      DirsOfConcat(a[1..], b);
      assert (a + b)[1..] == a[1..] + b;
      assert DirsOf(a + b) == DirOf(a[0]) + (DirsOf(a[1..]) + DirsOf(b));
    }
  }

  lemma {:induction false} OnlyDirs(ds: seq<Item>)
    requires AllDirs(ds)
    ensures ArgsOf(ds) == [] && DirsOf(ds) == ds
  {
    if ds != [] {
      OnlyDirs(ds[1..]);
      assert ds == [ds[0]] + ds[1..];
    }
  }

  /** A redirection takes two tokens. */
  lemma DirTokens(d: Item, ds: seq<Item>, rest: seq<Tok>)
    requires d.Dir?
    ensures var ts := Flat([d] + ds) + rest;
      && |ts| >= 2 && ts[0].Sym? && (ts[0].c == '<' || ts[0].c == '>' || ts[0].c == '+') && ModeOf(ts[0].c) == d.mode
      && ts[1..][0] == Word(d.file) && ts[1..][1..] == Flat(ds) + rest
  {
    assert ([d] + ds)[1..] == ds;
  }

  /** One turn of parseredirs' loop. */
  lemma RedirsTurn(text: string, i: nat)
    requires i <= |text| && Line(text) && !NoDirNext(Toks(text, i))
    ensures var t := GetToken(text, i);
      && i < t.next && ModeOf(Toks(text, i)[0].c) == ModeOf(t.kind) && Toks(text, i)[1..] == Toks(text, t.next)
      && (HeadChar(Toks(text, t.next)) != 'a' <==> GetToken(text, t.next).kind != 'a')
      && GetRedirs(text, i) == AfterFile(text, t.kind, GetToken(text, t.next))
  {
    Head(text, i);
    SameToks(text, i);
    Head(text, GetToken(text, i).next);
  }

  /** parseredirs once the token after the operator has been read. */
  function AfterFile(text: string, kind: char, f: Token): Redirs
    requires f.next <= |text| && Line(text)
  {
    if f.kind != 'a' then NoFile
    else match GetRedirs(text, f.next)
         case NoFile => NoFile
         case Redirs(tos, pos) => Redirs([To(Span(f.q, f.eq), ModeOf(kind))] + tos, pos)
  }

  lemma RedirsStop(text: string, i: nat)
    requires i <= |text| && Line(text) && NoDirNext(Toks(text, i))
    ensures GetRedirs(text, i) == Redirs([], Skip(text, i)) && Toks(text, Skip(text, i)) == Toks(text, i)
  {
    Head(text, i);
    SameToks(text, i);
  }

  lemma FirstDir(text: string, to: To, tos: seq<To>)
    requires TosOk(text, [to] + tos)
    ensures IsWord(text, to.file) && TosOk(text, tos)
    ensures DirsText(text, [to] + tos) == [DirText(text, to)] + DirsText(text, tos)
  {
    hide IsWord, DirText;
    var all := [to] + tos;
    assert all[0] == to && forall k | 0 <= k < |tos| :: all[k + 1] == tos[k];
  }

  lemma {:induction false} RedirsComplete(text: string, i: nat, ds: seq<Item>, rest: seq<Tok>)
    requires i <= |text| && Line(text) && AllDirs(ds) && Toks(text, i) == Flat(ds) + rest && NoDirNext(rest)
    ensures var r := GetRedirs(text, i);
      && r.Redirs? && TosOk(text, r.tos) && r.pos <= |text| && Toks(text, r.pos) == rest && DirsText(text, r.tos) == ds
    decreases |ds|
  {
    hide GetRedirs, GetToken, Toks, Flat, IsWord, DirsText;
    if ds == [] {
      assert Flat(ds) == [] by { FlatNothing(); }
      assert [] + rest == rest;
      RedirsStop(text, i);
      NoDirs(text);
    } else {
      assert ds == [ds[0]] + ds[1..];
      DirTokens(ds[0], ds[1..], rest);
      RedirsTurn(text, i);
      var t := GetToken(text, i);
      var f := GetToken(text, t.next);
      Head(text, t.next);
      RedirsComplete(text, f.next, ds[1..], rest);
      FirstDir(text, To(Span(f.q, f.eq), ModeOf(t.kind)), GetRedirs(text, f.next).tos);
    }
  }

  lemma FlatNothing()
    ensures Flat([]) == [] && ArgsOf([]) == [] && DirsOf([]) == []
  {
  }

  lemma NoDirs(text: string)
    ensures TosOk(text, []) && DirsText(text, []) == []
  {
  }

  lemma {:induction false} RedirsSound(text: string, i: nat)
    requires i <= |text| && Line(text) && GetRedirs(text, i).Redirs?
    ensures var r := GetRedirs(text, i);
      && r.pos <= |text| && TosOk(text, r.tos) && Toks(text, i) == Flat(DirsText(text, r.tos)) + Toks(text, r.pos)
      && NoDirNext(Toks(text, r.pos))
    decreases |text| - i
  {
    hide GetRedirs, GetToken, Toks, Flat, FlatItem, IsWord, DirsText;
    if NoDirNext(Toks(text, i)) {
      RedirsStop(text, i);
      NoDirs(text);
      FlatNothing();
      assert [] + Toks(text, i) == Toks(text, i);
    } else {
      RedirsTurn(text, i);
      var t := GetToken(text, i);
      var f := GetToken(text, t.next);
      Head(text, t.next);
      RedirsSound(text, f.next);
      var more := GetRedirs(text, f.next);
      FirstDir(text, To(Span(f.q, f.eq), ModeOf(t.kind)), more.tos);
      DirBack(Toks(text, i), text[f.q..f.eq], ModeOf(t.kind), DirsText(text, more.tos), Toks(text, more.pos));
    }
  }

  lemma DirBack(ts: seq<Tok>, f: string, m: Mode, ds: seq<Item>, rest: seq<Tok>)
    requires |ts| >= 2 && !NoDirNext(ts) && ModeOf(ts[0].c) == m && ts[1..][0] == Word(f)
    requires ts[1..][1..] == Flat(ds) + rest
    ensures ts == Flat([Dir(f, m)] + ds) + rest
  {
    var all := [Dir(f, m)] + ds;
    assert all[1..] == ds;
    assert ts == [ts[0], ts[1]] + ts[1..][1..];
    assert Flat(all) + rest == FlatItem(all[0]) + (Flat(ds) + rest);
  }

  // ---- simple commands ----

  /** What may follow a command. */
  predicate Stops(ts: seq<Tok>) {
    ts == [] || (ts[0].Sym? && (ts[0].c == '|' || ts[0].c == ')' || ts[0].c == '&' || ts[0].c == ';'))
  }

  function WordsText(text: string, argv: seq<Span>): (ws: seq<string>)
    requires WordsOk(text, Exec(argv))
    ensures |ws| == |argv|
  {
    seq(|argv|, k requires 0 <= k < |argv| => TextOf(text, argv[k]))
  }

  lemma {:induction false} OuterFront(c: Tree, d: Item, ds: seq<Item>)
    requires d.Dir? && AllDirs(ds)
    ensures AllDirs([d] + ds) && Outer(Redir(c, d.file, d.mode), ds) == Outer(c, [d] + ds)
    decreases |ds|
  {
    var all, n := [d] + ds, |ds|;
    if n == 0 {
      assert all[..0] == [] && all[0] == d;
    } else {
      OuterFront(c, d, ds[..n - 1]);
      assert all[..n] == [d] + ds[..n - 1] && all[n] == ds[n - 1];
    }
  }

  /** Wrapping redirections around a command, first to last, leaves the last outermost. */
  lemma {:induction false} WrapText(text: string, c: Cmd<Span>, tos: seq<To>)
    requires WordsOk(text, c) && TosOk(text, tos)
    ensures WordsOk(text, Wrap(c, tos)) && Texts(text, Wrap(c, tos)) == Outer(Texts(text, c), DirsText(text, tos))
    decreases |tos|
  {
    if tos == [] {
    } else {
      var d := Redir(c, tos[0].file, tos[0].mode);
      assert tos == [tos[0]] + tos[1..];
      FirstDir(text, tos[0], tos[1..]);
      WrapText(text, d, tos[1..]);
      OuterFront(Texts(text, c), DirText(text, tos[0]), DirsText(text, tos[1..]));
    }
  }

  /** The redirections before the first word. */
  lemma {:induction false} SplitOff(items: seq<Item>) returns (ds: seq<Item>, more: seq<Item>)
    ensures items == ds + more && AllDirs(ds) && (more == [] || more[0].Arg?)
  {
    if items == [] || items[0].Arg? {
      ds, more := [], items;
    } else {
      ds, more := SplitOff(items[1..]);
      ds := [items[0]] + ds;
    }
  }

  lemma Split(items: seq<Item>) returns (ds: seq<Item>, more: seq<Item>)
    ensures items == ds + more && AllDirs(ds) && (more == [] || more[0].Arg?)
    ensures Flat(items) == Flat(ds) + Flat(more) && ArgsOf(items) == ArgsOf(more) && DirsOf(items) == ds + DirsOf(more)
  {
    hide Flat, ArgsOf, DirsOf;
    ds, more := SplitOff(items);
    FlatOfConcat(ds, more);
    ArgsOfConcat(ds, more);
    DirsOfConcat(ds, more);
    OnlyDirs(ds);
  }

  lemma OneMoreWord(text: string, argv: seq<Span>, w: Span)
    requires WordsOk(text, Exec(argv)) && IsWord(text, w)
    ensures WordsOk(text, Exec(argv + [w]))
    ensures WordsText(text, argv + [w]) == WordsText(text, argv) + [TextOf(text, w)]
  {
  }

  lemma MoreDirs(text: string, tos: seq<To>, more: seq<To>)
    requires TosOk(text, tos) && TosOk(text, more)
    ensures TosOk(text, tos + more) && DirsText(text, tos + more) == DirsText(text, tos) + DirsText(text, more)
  {
  }

  /** What a simple command's tree says: its words, inside its redirections. */
  function Meaning(ws: seq<string>, ds: seq<Item>): Tree
    requires AllDirs(ds)
  {
    Outer(Exec(ws), ds)
  }

  lemma WrappedExec(text: string, argv: seq<Span>, tos: seq<To>)
    requires WordsOk(text, Exec(argv)) && TosOk(text, tos)
    ensures WordsOk(text, Wrap(Exec(argv), tos))
    ensures Texts(text, Wrap(Exec(argv), tos)) == Meaning(WordsText(text, argv), DirsText(text, tos))
  {
    WrapText(text, Exec(argv), tos);
    assert Texts(text, Exec(argv)) == Exec(WordsText(text, argv));
  }

  /** parseexec's loop stops where a command does. */
  lemma ArgsStops(text: string, i: nat, argv: seq<Span>, tos: seq<To>)
    requires i <= |text| && Line(text) && WordsOk(text, Exec(argv)) && TosOk(text, tos) && Stops(Toks(text, i))
    ensures var r := Args(text, argv, tos, i);
      && r.Ok? && r.cmd == Wrap(Exec(argv), tos) && r.pos <= |text| && Toks(text, r.pos) == Toks(text, i)
  {
    hide Args, Wrap;
    Head(text, i);
    SameToks(text, i);
    SkipAgain(text, i);
    S.ArgsSkip(text, argv, tos, i);
    if Toks(text, i) == [] {
      S.ArgsTurn(text, argv, tos, Skip(text, i));
      Head(text, GetToken(text, i).next);
    } else {
      S.ArgsStop(text, argv, tos, Skip(text, i));
    }
  }

  /** One turn of the loop. */
  lemma ArgsTurn(text: string, i: nat, argv: seq<Span>, tos: seq<To>)
    requires i <= |text| && Line(text) && WordsOk(text, Exec(argv)) && TosOk(text, tos) && !Stops(Toks(text, i))
    ensures HeadChar(Toks(text, i)) != 'a' || |argv| + 1 >= MAXARGS ==> Args(text, argv, tos, i) == Panic
    ensures HeadChar(Toks(text, i)) == 'a' && |argv| + 1 < MAXARGS ==>
              var t := GetToken(text, i);
              && i < t.next && IsWord(text, Span(t.q, t.eq)) && WordsOk(text, Exec(argv + [Span(t.q, t.eq)]))
              && Toks(text, i) == [Word(TextOf(text, Span(t.q, t.eq)))] + Toks(text, t.next)
              && Args(text, argv, tos, i)
                 == S.Continued(text, argv + [Span(t.q, t.eq)], tos, GetRedirs(text, t.next))
  {
    hide Args;
    Head(text, i);
    SameToks(text, i);
    SkipAgain(text, i);
    S.ArgsSkip(text, argv, tos, i);
    S.ArgsTurn(text, argv, tos, Skip(text, i));
  }

  lemma FirstItem(items: seq<Item>, rest: seq<Tok>)
    requires items != []
    ensures items[0].Arg? ==> Flat(items) + rest == [Word(items[0].w)] + (Flat(items[1..]) + rest)
    ensures items[0].Arg? ==> ArgsOf(items) == [items[0].w] + ArgsOf(items[1..]) && DirsOf(items) == DirsOf(items[1..])
  {
  }

  lemma {:induction false} ArgsComplete(text: string, i: nat, argv: seq<Span>, tos: seq<To>, items: seq<Item>,
                                        rest: seq<Tok>)
    requires i <= |text| && Line(text) && WordsOk(text, Exec(argv)) && TosOk(text, tos)
    requires Toks(text, i) == Flat(items) + rest && Stops(rest) && (items == [] || items[0].Arg?)
    requires |argv| + |ArgsOf(items)| < MAXARGS
    ensures var r, ds := Args(text, argv, tos, i), DirsText(text, tos) + DirsOf(items);
      && r.Ok? && r.pos <= |text| && WordsOk(text, r.cmd) && Toks(text, r.pos) == rest
      && AllDirs(ds) && Texts(text, r.cmd) == Meaning(WordsText(text, argv) + ArgsOf(items), ds)
    decreases |items|
  {
    hide Args, Wrap, GetRedirs, GetToken, Toks, Flat, ArgsOf, DirsOf, Texts, WordsText, DirsText, IsWord, Meaning;
    if items == [] {
      FlatNothing();
      assert [] + rest == rest;
      ArgsStops(text, i, argv, tos);
      WrappedExec(text, argv, tos);
      assert WordsText(text, argv) + [] == WordsText(text, argv) && DirsText(text, tos) + [] == DirsText(text, tos);
    } else {
      FirstItem(items, rest);
      var ds, more := Split(items[1..]);
      ArgsTurn(text, i, argv, tos);
      var t := GetToken(text, i);
      var w := Span(t.q, t.eq);
      SameRest(Word(TextOf(text, w)), Toks(text, t.next), Word(items[0].w), Flat(items[1..]) + rest);
      assert Flat(items[1..]) + rest == Flat(ds) + (Flat(more) + rest);
      StartsRight(more, rest);
      RedirsComplete(text, t.next, ds, Flat(more) + rest);
      var r := GetRedirs(text, t.next);
      OneMoreWord(text, argv, w);
      MoreDirs(text, tos, r.tos);
      ArgsComplete(text, r.pos, argv + [w], tos + r.tos, more, rest);
      assert WordsText(text, argv) + ArgsOf(items) == WordsText(text, argv + [w]) + ArgsOf(more);
      assert DirsText(text, tos) + DirsOf(items) == DirsText(text, tos + r.tos) + DirsOf(more);
    }
  }

  lemma SameRest(a: Tok, x: seq<Tok>, b: Tok, y: seq<Tok>)
    requires [a] + x == [b] + y
    ensures a == b && x == y
  {
    assert ([a] + x)[0] == a && ([b] + y)[0] == b && ([a] + x)[1..] == x && ([b] + y)[1..] == y;
  }

  lemma StartsRight(more: seq<Item>, rest: seq<Tok>)
    requires Stops(rest) && (more == [] || more[0].Arg?)
    ensures NoDirNext(Flat(more) + rest)
  {
    if more != [] {
      FirstItem(more, rest);
    }
  }

  lemma {:induction false} ArgsSound(text: string, i: nat, argv: seq<Span>, tos: seq<To>) returns (items: seq<Item>)
    requires i <= |text| && Line(text) && WordsOk(text, Exec(argv)) && TosOk(text, tos) && |argv| < MAXARGS
    requires Args(text, argv, tos, i).Ok?
    ensures var r, ds := Args(text, argv, tos, i), DirsText(text, tos) + DirsOf(items);
      && r.pos <= |text| && WordsOk(text, r.cmd) && Toks(text, i) == Flat(items) + Toks(text, r.pos)
      && Stops(Toks(text, r.pos)) && |argv| + |ArgsOf(items)| < MAXARGS
      && AllDirs(ds) && Texts(text, r.cmd) == Meaning(WordsText(text, argv) + ArgsOf(items), ds)
    decreases |text| - i
  {
    hide Args, Wrap, GetRedirs, GetToken, Toks, Flat, ArgsOf, DirsOf, Texts, WordsText, DirsText, IsWord, Meaning;
    if Stops(Toks(text, i)) {
      items := [];
      FlatNothing();
      assert [] + Toks(text, i) == Toks(text, i);
      ArgsStops(text, i, argv, tos);
      WrappedExec(text, argv, tos);
      assert WordsText(text, argv) + [] == WordsText(text, argv) && DirsText(text, tos) + [] == DirsText(text, tos);
    } else {
      ArgsTurn(text, i, argv, tos);
      var t := GetToken(text, i);
      var w := Span(t.q, t.eq);
      RedirsSound(text, t.next);
      var r := GetRedirs(text, t.next);
      var ds := DirsText(text, r.tos);
      OneMoreWord(text, argv, w);
      MoreDirs(text, tos, r.tos);
      var more := ArgsSound(text, r.pos, argv + [w], tos + r.tos);
      items := [Arg(TextOf(text, w))] + (ds + more);
      ItemsJoin(Arg(TextOf(text, w)), ds, more);
      assert WordsText(text, argv) + ArgsOf(items) == WordsText(text, argv + [w]) + ArgsOf(more);
      assert DirsText(text, tos) + DirsOf(items) == DirsText(text, tos + r.tos) + DirsOf(more);
    }
  }

  lemma ItemsJoin(a: Item, ds: seq<Item>, more: seq<Item>)
    requires a.Arg? && AllDirs(ds)
    ensures var items := [a] + (ds + more);
      && Flat(items) == [Word(a.w)] + Flat(ds) + Flat(more)
      && ArgsOf(items) == [a.w] + ArgsOf(more) && DirsOf(items) == ds + DirsOf(more)
  {
    hide Flat, ArgsOf, DirsOf;
    ItemFirst(a, ds + more);
    DirsJoin(ds, more);
  }

  lemma DirsJoin(ds: seq<Item>, more: seq<Item>)
    requires AllDirs(ds)
    ensures Flat(ds + more) == Flat(ds) + Flat(more)
    ensures ArgsOf(ds + more) == ArgsOf(more) && DirsOf(ds + more) == ds + DirsOf(more)
  {
    hide Flat, ArgsOf, DirsOf;
    FlatOfConcat(ds, more);
    ArgsOfConcat(ds, more);
    DirsOfConcat(ds, more);
    OnlyDirs(ds);
    assert [] + ArgsOf(more) == ArgsOf(more);
  }

  lemma ItemFirst(a: Item, items: seq<Item>)
    requires a.Arg?
    ensures Flat([a] + items) == [Word(a.w)] + Flat(items)
    ensures ArgsOf([a] + items) == [a.w] + ArgsOf(items) && DirsOf([a] + items) == DirsOf(items)
  {
    assert ([a] + items)[1..] == items;
  }

  // ---- the grammar, one element, pipeline and line at a time ----

  /** Parsing from i on gives this tree and leaves these tokens. */
  ghost predicate Gives(text: string, r: Parsed, t: Tree, rest: seq<Tok>)
    requires Line(text)
  {
    r.Ok? && r.pos <= |text| && WordsOk(text, r.cmd) && Texts(text, r.cmd) == t && Toks(text, r.pos) == rest
  }

  lemma SimpleComplete(text: string, i: nat, items: seq<Item>, rest: seq<Tok>)
    requires i <= |text| && Line(text) && ElementOk(Simple(items)) && Toks(text, i) == Flat(items) + rest && Stops(rest)
    ensures Gives(text, ParseExec(text, i), TreeOfElement(Simple(items)), rest)
  {
    hide Args, Wrap, GetRedirs, GetToken, Toks, Flat, ArgsOf, DirsOf, Texts, WordsText, DirsText, IsWord, ParseBlock;
    var ds, more := Split(items);
    assert Flat(items) + rest == Flat(ds) + (Flat(more) + rest);
    StartsRight(more, rest);
    NotOpen(items, rest);
    Head(text, i);
    SameToks(text, i);
    SkipAgain(text, i);
    var k := Skip(text, i);
    RedirsComplete(text, k, ds, Flat(more) + rest);
    var r := GetRedirs(text, k);
    NoWords(text);
    ArgsComplete(text, r.pos, [], r.tos, more, rest);
    assert [] + ArgsOf(more) == ArgsOf(items);
    DirsAreDirs(items);
  }

  lemma NoWords(text: string)
    ensures WordsOk(text, Exec([])) && WordsText(text, []) == []
  {
  }

  lemma NotOpen(items: seq<Item>, rest: seq<Tok>)
    requires Stops(rest)
    ensures HeadChar(Flat(items) + rest) != '('
  {
  }

  lemma OpenBlock(text: string, i: nat, rest: seq<Tok>)
    requires i <= |text| && Line(text) && Toks(text, i) == [Sym('(')] + rest
    ensures var j := GetToken(text, Skip(text, i)).next;
      && CharAt(text, Skip(text, i)) == '(' && i < j <= |text| && Toks(text, j) == rest
      && ParseExec(text, i) == ParseBlock(text, Skip(text, i))
  {
    Head(text, i);
    SameToks(text, i);
  }

  /** A block once its commands have been parsed. */
  lemma CloseBlock(text: string, i: nat, t: Tree, ds: seq<Item>, rest: seq<Tok>)
    requires i <= |text| && Line(text) && CharAt(text, Skip(text, i)) == '(' && AllDirs(ds) && Stops(rest)
    requires Gives(text, ParseLine(text, GetToken(text, i).next), t, [Sym(')')] + (Flat(ds) + rest))
    ensures Gives(text, ParseBlock(text, i), Outer(t, ds), rest)
  {
    hide ParseLine, Wrap, GetRedirs, Toks, Flat, Texts, DirsText, Outer, WordsOk;
    var r := ParseLine(text, GetToken(text, i).next);
    Head(text, r.pos);
    SameToks(text, r.pos);
    var j := GetToken(text, Skip(text, r.pos)).next;
    StartsRight([], rest);
    FlatNothing();
    assert [] + rest == rest;
    RedirsComplete(text, j, ds, rest);
    WrapText(text, r.cmd, GetRedirs(text, j).tos);
  }

  lemma {:induction false} BacksInside(t: Tree, n: nat)
    ensures Backs(Back(t), n) == Back(Backs(t, n))
  {
    if n > 0 {
      BacksInside(t, n - 1);
    }
  }

  lemma {:induction false} AmpsComplete(text: string, i: nat, c: Cmd<Span>, n: nat, rest: seq<Tok>)
    requires i <= |text| && Line(text) && WordsOk(text, c)
    requires Toks(text, i) == FlatAmps(n) + rest && HeadChar(rest) != '&'
    ensures Gives(text, Amps(text, c, i), Backs(Texts(text, c), n), rest)
    decreases n
  {
    hide Toks, GetToken;
    Head(text, i);
    SameToks(text, i);
    if n == 0 {
      assert FlatAmps(0) + rest == rest;
    } else {
      assert FlatAmps(n) + rest == [Sym('&')] + (FlatAmps(n - 1) + rest);
      AmpsComplete(text, GetToken(text, i).next, Back(c), n - 1, rest);
      BacksInside(Texts(text, c), n - 1);
    }
  }

  /** What may follow a pipeline, and a line. */
  predicate PipeStops(ts: seq<Tok>) {
    Stops(ts) && HeadChar(ts) != '|'
  }

  predicate LineStops(ts: seq<Tok>) {
    Stops(ts) && (ts == [] || ts[0].c == ')')
  }

  lemma ElementComplete(text: string, i: nat, e: Element, rest: seq<Tok>)
    requires i <= |text| && Line(text) && ElementOk(e) && Toks(text, i) == FlatElement(e) + rest && Stops(rest)
    ensures Gives(text, ParseExec(text, i), TreeOfElement(e), rest)
    decreases e
  {
    hide ParseExec, ParseBlock, Toks, Flat, Texts, Outer, GetToken, Skip, Gives;
    match e
    case Simple(items) => SimpleComplete(text, i, items, rest);
    case Block(b, ds) =>
      var inner := [Sym(')')] + (Flat(ds) + rest);
      assert FlatElement(e) + rest == [Sym('(')] + (FlatLines(b) + inner);
      OpenBlock(text, i, FlatLines(b) + inner);
      LinesComplete(text, GetToken(text, Skip(text, i)).next, b, inner);
      SkipAgain(text, i);
      CloseBlock(text, Skip(text, i), TreeOf(b), ds, rest);
  }

  lemma PipeComplete(text: string, i: nat, p: Pipeline, rest: seq<Tok>)
    requires i <= |text| && Line(text) && PipeOk(p) && Toks(text, i) == FlatPipe(p) + rest && PipeStops(rest)
    ensures Gives(text, ParsePipe(text, i), TreeOfPipe(p), rest)
    decreases p
  {
    hide ParseExec, Toks, FlatElement, TreeOfElement, GetToken, Skip;
    match p
    case One(e) =>
      ElementComplete(text, i, e, rest);
      Head(text, ParseExec(text, i).pos);
      SameToks(text, ParseExec(text, i).pos);
    case Bar(e, q) =>
      var more := [Sym('|')] + (FlatPipe(q) + rest);
      assert FlatPipe(p) + rest == FlatElement(e) + more;
      ElementComplete(text, i, e, more);
      var j := ParseExec(text, i).pos;
      Head(text, j);
      SameToks(text, j);
      PipeComplete(text, GetToken(text, j).next, q, rest);
  }

  lemma LinesComplete(text: string, i: nat, l: Lines, rest: seq<Tok>)
    requires i <= |text| && Line(text) && LinesOk(l) && Toks(text, i) == FlatLines(l) + rest && LineStops(rest)
    ensures Gives(text, ParseLine(text, i), TreeOf(l), rest)
    decreases l
  {
    hide ParsePipe, Toks, FlatPipe, FlatAmps, TreeOfPipe, GetToken, Skip, Amps, Backs;
    var more := if l.Last? then rest else [Sym(';')] + (FlatLines(l.rest) + rest);
    assert FlatLines(l) + rest == FlatPipe(l.pipe) + (FlatAmps(l.amps) + more);
    AmpsThen(l.amps, more);
    PipeComplete(text, i, l.pipe, FlatAmps(l.amps) + more);
    var r := ParsePipe(text, i);
    AmpsComplete(text, r.pos, r.cmd, l.amps, more);
    var k := Amps(text, r.cmd, r.pos).pos;
    Head(text, k);
    SameToks(text, k);
    if l.Then? {
      LinesComplete(text, GetToken(text, k).next, l.rest, rest);
    }
  }

  lemma AmpsThen(n: nat, more: seq<Tok>)
    requires PipeStops(more)
    ensures PipeStops(FlatAmps(n) + more)
  {
    assert n == 0 ==> FlatAmps(n) + more == more;
  }

  // ---- whatever parses has a syntax ----

  /** The tokens from i on are those of some syntax with tree `t`, and then the rest. */
  ghost predicate Took(text: string, i: nat, r: Parsed, ts: seq<Tok>, t: Tree)
    requires i <= |text| && Line(text)
  {
    && r.Ok? && r.pos <= |text| && WordsOk(text, r.cmd) && Texts(text, r.cmd) == t
    && Toks(text, i) == ts + Toks(text, r.pos)
  }

  lemma {:induction false} AmpsSound(text: string, i: nat, c: Cmd<Span>) returns (n: nat)
    requires i <= |text| && Line(text) && WordsOk(text, c)
    ensures Took(text, i, Amps(text, c, i), FlatAmps(n), Backs(Texts(text, c), n))
    decreases |text| - i
  {
    hide Toks, GetToken;
    Head(text, i);
    SameToks(text, i);
    if CharAt(text, Skip(text, i)) == '&' {
      n := AmpsSound(text, GetToken(text, i).next, Back(c));
      n := n + 1;
      BacksInside(Texts(text, c), n - 1);
      assert FlatAmps(n) == [Sym('&')] + FlatAmps(n - 1);
      FirstThen(text, i, '&');
    } else {
      n := 0;
      assert FlatAmps(0) + Toks(text, i) == Toks(text, i);
    }
  }

  lemma FirstThen(text: string, i: nat, c: char)
    requires i <= |text| && Line(text) && CharAt(text, Skip(text, i)) == c && c in "|();&<"
    ensures c != NUL && i < GetToken(text, i).next <= |text|
    ensures Toks(text, i) == [Sym(c)] + Toks(text, GetToken(text, i).next)
  {
    Head(text, i);
  }

  lemma SimpleSound(text: string, i: nat) returns (items: seq<Item>)
    requires i <= |text| && Line(text) && ParseExec(text, i).Ok? && CharAt(text, Skip(text, i)) != '('
    ensures ElementOk(Simple(items))
    ensures Took(text, i, ParseExec(text, i), Flat(items), TreeOfElement(Simple(items)))
  {
    hide Args, Wrap, GetRedirs, GetToken, Toks, Flat, ArgsOf, DirsOf, Texts, WordsText, DirsText, IsWord, ParseBlock;
    var k := Skip(text, i);
    SameToks(text, i);
    RedirsSound(text, k);
    var r := GetRedirs(text, k);
    var ds := DirsText(text, r.tos);
    NoWords(text);
    var more := ArgsSound(text, r.pos, [], r.tos);
    items := ds + more;
    DirsJoin(ds, more);
    assert [] + ArgsOf(more) == ArgsOf(items);
    assert Flat(items) + Toks(text, Args(text, [], r.tos, r.pos).pos)
        == Flat(ds) + (Flat(more) + Toks(text, Args(text, [], r.tos, r.pos).pos));
    DirsAreDirs(items);
  }

  lemma CloseSound(text: string, i: nat, b: Lines) returns (ds: seq<Item>)
    requires i <= |text| && Line(text) && CharAt(text, Skip(text, i)) == '(' && ParseBlock(text, i).Ok? && LinesOk(b)
    requires var j := GetToken(text, i).next; Took(text, j, ParseLine(text, j), FlatLines(b), TreeOf(b))
    ensures ElementOk(Block(b, ds))
    ensures Took(text, i, ParseBlock(text, i), FlatElement(Block(b, ds)), TreeOfElement(Block(b, ds)))
  {
    hide ParseLine, Wrap, GetRedirs, Toks, Flat, Texts, DirsText, Outer, WordsOk, FlatLines;
    FirstThen(text, i, '(');
    var r := ParseLine(text, GetToken(text, i).next);
    SameToks(text, r.pos);
    FirstThen(text, r.pos, ')');
    var j := GetToken(text, r.pos).next;
    RedirsSound(text, j);
    var s := GetRedirs(text, j);
    ds := DirsText(text, s.tos);
    WrapText(text, r.cmd, s.tos);
  }

  lemma ElementSound(text: string, i: nat) returns (e: Element)
    requires i <= |text| && Line(text) && ParseExec(text, i).Ok?
    ensures ElementOk(e) && Took(text, i, ParseExec(text, i), FlatElement(e), TreeOfElement(e))
    decreases |text| - i, 2
  {
    hide Toks, Flat, Texts, Outer, GetToken, Skip, Took, TreeOfElement, FlatElement;
    if CharAt(text, Skip(text, i)) == '(' {
      SkipAgain(text, i);
      SameToks(text, i);
      FirstThen(text, i, '(');
      var k := Skip(text, i);
      var b := LinesSound(text, GetToken(text, k).next);
      var ds := CloseSound(text, k, b);
      e := Block(b, ds);
      TookSkipped(text, i, ParseBlock(text, k), FlatElement(e), TreeOfElement(e));
    } else {
      var items := SimpleSound(text, i);
      e := Simple(items);
      assert FlatElement(e) == Flat(items) by { FlatOfSimple(items); }
    }
  }

  lemma FlatOfSimple(items: seq<Item>)
    ensures FlatElement(Simple(items)) == Flat(items)
  {
  }

  lemma TookSkipped(text: string, i: nat, r: Parsed, ts: seq<Tok>, t: Tree)
    requires i <= |text| && Line(text) && Took(text, Skip(text, i), r, ts, t)
    ensures Took(text, i, r, ts, t)
  {
    SameToks(text, i);
  }

  lemma PipeSound(text: string, i: nat) returns (p: Pipeline)
    requires i <= |text| && Line(text) && ParsePipe(text, i).Ok?
    ensures PipeOk(p) && Took(text, i, ParsePipe(text, i), FlatPipe(p), TreeOfPipe(p))
    decreases |text| - i, 3
  {
    hide ParseExec, Toks, FlatElement, TreeOfElement, GetToken, Skip;
    var e := ElementSound(text, i);
    var j := ParseExec(text, i).pos;
    assert Good(text, i, ParseExec(text, i));
    SameToks(text, j);
    if CharAt(text, Skip(text, j)) == '|' {
      FirstThen(text, j, '|');
      var q := PipeSound(text, GetToken(text, j).next);
      p := Bar(e, q);
      var r := ParsePipe(text, i);
      assert FlatPipe(p) + Toks(text, r.pos) == FlatElement(e) + ([Sym('|')] + (FlatPipe(q) + Toks(text, r.pos)));
    } else {
      p := One(e);
    }
  }

  lemma LinesSound(text: string, i: nat) returns (l: Lines)
    requires i <= |text| && Line(text) && ParseLine(text, i).Ok?
    ensures LinesOk(l) && Took(text, i, ParseLine(text, i), FlatLines(l), TreeOf(l))
    decreases |text| - i, 4
  {
    hide ParsePipe, Toks, FlatPipe, FlatAmps, TreeOfPipe, GetToken, Skip, Amps, Backs;
    var p := PipeSound(text, i);
    var c := ParsePipe(text, i);
    assert Good(text, i, c);
    var n := AmpsSound(text, c.pos, c.cmd);
    var k, r := Amps(text, c.cmd, c.pos).pos, ParseLine(text, i);
    if CharAt(text, k) == ';' {
      FirstThen(text, k, ';');
      var q := LinesSound(text, GetToken(text, k).next);
      l := Then(p, n, q);
      assert FlatLines(l) + Toks(text, r.pos)
          == FlatPipe(p) + (FlatAmps(n) + ([Sym(';')] + (FlatLines(q) + Toks(text, r.pos))));
    } else {
      l := Last(p, n);
      assert FlatLines(l) + Toks(text, r.pos) == FlatPipe(p) + (FlatAmps(n) + Toks(text, r.pos));
    }
  }

  // ---- the language ----

  /** A line with the tokens of a syntax parses to the tree of that syntax. */
  lemma ParsesTo(text: string, l: Lines)
    requires Line(text) && LinesOk(l) && Toks(text, 0) == FlatLines(l)
    ensures var r := ParseCmd(text); r.Ok? && Texts(text, r.cmd) == TreeOf(l)
  {
    assert FlatLines(l) + [] == FlatLines(l);
    LinesComplete(text, 0, l, []);
    Head(text, ParseLine(text, 0).pos);
    S.AtTheEnd(text, Skip(text, ParseLine(text, 0).pos));
  }

  /** The shell accepts a line exactly if it has a syntax; otherwise it panics. */
  lemma ParsesIff(text: string)
    requires Line(text)
    ensures ParseCmd(text).Ok? <==> exists l :: LinesOk(l) && Toks(text, 0) == FlatLines(l)
  {
    if ParseCmd(text).Ok? {
      var l := LinesSound(text, 0);
      var j := ParseLine(text, 0).pos;
      Head(text, j);
      assert FlatLines(l) + [] == FlatLines(l);
    } else {
      forall l | LinesOk(l) ensures Toks(text, 0) != FlatLines(l) {
        if Toks(text, 0) == FlatLines(l) {
          ParsesTo(text, l);
        }
      }
    }
  }

  /** The command inside all redirections, and the redirections from the inside out. */
  function Inside(t: Tree): Tree {
    if t.Redir? then Inside(t.cmd) else t
  }

  function Around(t: Tree): seq<Item> {
    if t.Redir? then Around(t.cmd) + [Dir(t.file, t.mode)] else []
  }

  lemma {:induction false} OuterReads(c: Tree, ds: seq<Item>)
    requires AllDirs(ds) && !c.Redir?
    ensures Inside(Outer(c, ds)) == c && Around(Outer(c, ds)) == ds
    decreases |ds|
  {
    if ds != [] {
      OuterReads(c, ds[..|ds| - 1]);
      assert ds == ds[..|ds| - 1] + [ds[|ds| - 1]];
    }
  }

  /** A line of up to nine words with redirections anywhere among them: the tree has the line's words in order
      and, from the inside out, the line's redirections in order. */
  lemma SimpleLine(text: string, items: seq<Item>)
    requires Line(text) && Toks(text, 0) == Flat(items) && |ArgsOf(items)| < MAXARGS
    ensures ParseCmd(text).Ok?
    ensures var t := Texts(text, ParseCmd(text).cmd); Inside(t) == Exec(ArgsOf(items)) && Around(t) == DirsOf(items)
  {
    hide Flat, ArgsOf, DirsOf, Outer, Texts, Toks, ParseCmd, Inside, Around;
    OneCommand(items);
    ParsesTo(text, Last(One(Simple(items)), 0));
    DirsAreDirs(items);
    OuterReads(Exec(ArgsOf(items)), DirsOf(items));
  }

  lemma OneCommand(items: seq<Item>)
    requires |ArgsOf(items)| < MAXARGS
    ensures var l := Last(One(Simple(items)), 0);
      && LinesOk(l) && FlatLines(l) == Flat(items)
      && AllDirs(DirsOf(items)) && TreeOf(l) == Outer(Exec(ArgsOf(items)), DirsOf(items))
  {
    hide Flat, ArgsOf, DirsOf, Outer;
    DirsAreDirs(items);
    var e := Simple(items);
    var p := One(e);
    assert ElementOk(e) && PipeOk(p) && FlatElement(e) == Flat(items);
    assert FlatPipe(p) == Flat(items) && TreeOfPipe(p) == TreeOfElement(e);
    assert Flat(items) + FlatAmps(0) == Flat(items);
  }

  // ---- writing a syntax down ----

  predicate Spellable(x: Tok) {
    match x
    case Word(w) => Printable(w)
    case Sym(c) => c == '|' || c == '(' || c == ')' || c == ';' || c == '&' || c == '<' || c == '>' || c == '+'
  }

  function SpellOne(x: Tok): string {
    match x case Word(w) => w case Sym(c) => if c == '+' then ">>" else [c]
  }

  function Spell(ts: seq<Tok>): string {
    if ts == [] then "" else SpellOne(ts[0]) + " " + Spell(ts[1..])
  }

  /** A token in the line, with a blank after it, is read as that token. */
  lemma OneToken(text: string, i: nat, x: Tok)
    requires Line(text) && Spellable(x) && Has(text, i, SpellOne(x)) && i + |SpellOne(x)| < |text|
    requires text[i + |SpellOne(x)|] == ' '
    ensures Toks(text, i) == [x] + Toks(text, i + |SpellOne(x)| + 1)
  {
    hide Toks, GetToken, WordEnd, Has, SpellOne;
    var j := i + |SpellOne(x)|;
    SpelledToken(text, i, x);
    Head(text, i);
    assert Skip(text, j) == Skip(text, j + 1);
    SameToks(text, j + 1);
  }

  lemma SpelledToken(text: string, i: nat, x: Tok)
    requires Line(text) && Spellable(x) && Has(text, i, SpellOne(x)) && i + |SpellOne(x)| < |text|
    requires text[i + |SpellOne(x)|] == ' '
    ensures var t, j := GetToken(text, i), i + |SpellOne(x)|;
      && t.next == Skip(text, j)
      && if x.Word? then t.kind == 'a' && text[t.q..t.eq] == x.w else t.kind == x.c && t.kind != 'a' && t.kind != NUL
  {
    hide GetToken, WordEnd, Skip, WordChar;
    match x
    case Word(w) =>
      BlankEnds(text, i + |w|);
      WordToken(text, i, w);
    case Sym(c) =>
      if c == '+' {
        HasParts(text, i, ">", ">");
        assert ">" + ">" == ">>";
        HasChar(text, i, '>');
        HasChar(text, i + 1, '>');
        AppendToken(text, i);
      } else {
        HasChar(text, i, c);
        SymbolToken(text, i, c);
      }
  }

  lemma BlankEnds(text: string, i: nat)
    requires i < |text| && text[i] == ' '
    ensures !WordChar(CharAt(text, i))
  {
  }

  lemma AppendToken(text: string, i: nat)
    requires Line(text) && i + 1 < |text| && text[i] == '>' && text[i + 1] == '>'
    ensures GetToken(text, i).kind == '+' && GetToken(text, i).next == Skip(text, i + 2)
  {
  }

  lemma SymbolToken(text: string, i: nat, c: char)
    requires Line(text) && i + 1 < |text| && text[i] == c && text[i + 1] == ' '
    requires c == '|' || c == '(' || c == ')' || c == ';' || c == '&' || c == '<' || c == '>'
    ensures GetToken(text, i).kind == c && GetToken(text, i).next == Skip(text, i + 1)
  {
  }

  lemma {:induction false} SpellReads(text: string, i: nat, ts: seq<Tok>)
    requires Line(text) && Has(text, i, Spell(ts)) && i + |Spell(ts)| == |text|
    requires forall k | 0 <= k < |ts| :: Spellable(ts[k])
    ensures Toks(text, i) == ts
    decreases |ts|
  {
    hide GetToken, SpellOne, Has;
    if ts == [] {
      Head(text, i);
    } else {
      var a, b := SpellOne(ts[0]), Spell(ts[1..]);
      assert Spell(ts) == a + (" " + b);
      HasParts(text, i, a, " " + b);
      HasParts(text, i + |a|, " ", b);
      HasChar(text, i + |a|, ' ');
      OneToken(text, i, ts[0]);
      SpellReads(text, i + |a| + 1, ts[1..]);
    }
  }

  lemma {:induction false} SpellIsLine(ts: seq<Tok>)
    requires forall k | 0 <= k < |ts| :: Spellable(ts[k])
    ensures Line(Spell(ts))
  {
    if ts != [] {
      SpellIsLine(ts[1..]);
      assert Line(SpellOne(ts[0]));
    }
  }

  /** Every syntax, written with blanks between its tokens, parses to its tree. */
  lemma SpelledParses(l: Lines)
    requires LinesOk(l) && forall k | 0 <= k < |FlatLines(l)| :: Spellable(FlatLines(l)[k])
    ensures var text := Spell(FlatLines(l));
      Line(text) && ParseCmd(text).Ok? && Texts(text, ParseCmd(text).cmd) == TreeOf(l)
  {
    var text := Spell(FlatLines(l));
    SpellIsLine(FlatLines(l));
    assert text[0..0 + |text|] == text;
    SpellReads(text, 0, FlatLines(l));
    ParsesTo(text, l);
  }
}
