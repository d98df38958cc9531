// The shell's parser (user/sh.c): a cursor that its procedures advance over the command line, and the
// NULs written into the line once it has been parsed.

module ShellWords {
  import opened ShellGrammar

  /** The words that a tree points to. */
  function Words(cmd: Cmd<Span>): set<Span> {
    match cmd
    case Exec(argv) => set w | w in argv
    case Redir(c, f, _) => Words(c) + {f}
    case Pipe(l, r) => Words(l) + Words(r)
    case List(l, r) => Words(l) + Words(r)
    case Back(c) => Words(c)
  }

  function Ends(cmd: Cmd<Span>): set<nat> {
    set w | w in Words(cmd) :: w.eq
  }

  lemma EndsParts(cmd: Cmd<Span>)
    ensures cmd.Redir? ==> Ends(cmd) == Ends(cmd.cmd) + {cmd.file.eq}
    ensures cmd.Pipe? ==> Ends(cmd) == Ends(cmd.left) + Ends(cmd.right)
    ensures cmd.List? ==> Ends(cmd) == Ends(cmd.left) + Ends(cmd.right)
    ensures cmd.Back? ==> Ends(cmd) == Ends(cmd.cmd)
  {
  }

  lemma ExecEnds(argv: seq<Span>, i: nat)
    requires i < |argv|
    ensures Ends(Exec(argv[..i + 1])) == Ends(Exec(argv[..i])) + {argv[i].eq}
  {
    assert argv[..i + 1] == argv[..i] + [argv[i]];
  }

  lemma {:induction false} WordsAreWords(text: string, cmd: Cmd<Span>, w: Span)
    requires WordsOk(text, cmd) && w in Words(cmd)
    ensures IsWord(text, w)
  {
    match cmd
    case Exec(argv) =>
    case Redir(c, f, _) =>
      if w in Words(c) { WordsAreWords(text, c, w); }
    case Pipe(l, r) =>
      if w in Words(l) { WordsAreWords(text, l, w); } else { WordsAreWords(text, r, w); }
    case List(l, r) =>
      if w in Words(l) { WordsAreWords(text, l, w); } else { WordsAreWords(text, r, w); }
    case Back(c) => WordsAreWords(text, c, w);
  }

  /** The C string at q is w. */
  predicate Spells(buf: seq<char>, q: nat, w: string) {
    q + |w| < |buf| && buf[q..q + |w|] == w && NUL !in w && buf[q + |w|] == NUL
  }

  /** The line with NULs at some places. */
  predicate Terminated(line: seq<char>, buf: seq<char>, ends: set<nat>) {
    |buf| == |line| && forall k | 0 <= k < |buf| :: buf[k] == if k in ends then NUL else line[k]
  }

  /** nulterminate leaves every pointer of the tree reading exactly the text of its token: no NUL falls
      inside another token. */
  lemma EveryWordReads(text: string, line: seq<char>, buf: seq<char>, cmd: Cmd<Span>, w: Span)
    requires Line(text) && WordsOk(text, cmd) && w in Words(cmd)
    requires line == text + [NUL] && Terminated(line, buf, Ends(cmd))
    ensures w.q <= w.eq <= |text| && Spells(buf, w.q, text[w.q..w.eq])
  {
    WordsAreWords(text, cmd, w);
    forall k | w.q <= k < w.eq ensures buf[k] == text[k] && text[k] != NUL {
      if k in Ends(cmd) {
        var v :| v in Words(cmd) && v.eq == k;
        WordsAreWords(text, cmd, v);
      }
    }
    assert w.eq in Ends(cmd);
    assert buf[w.q..w.q + (w.eq - w.q)] == text[w.q..w.eq];
  }
}

module Shell {
  import opened ShellGrammar
  import opened ShellWords
  import G = ShellGrammar

  /** What a parsing procedure did is what the grammar says. */
  predicate Agrees(ok: bool, cmd: Cmd<Span>, s: nat, r: Parsed) {
    ok == r.Ok? && (ok ==> cmd == r.cmd && s == r.pos)
  }

  /** Redirections read before the rest of them. */
  function Before(tos: seq<To>, r: Redirs): Redirs {
    if r.Redirs? then Redirs(tos + r.tos, r.pos) else NoFile
  }

  lemma BeforeOne(tos: seq<To>, to: To, r: Redirs)
    ensures Before(tos + [to], r) == Before(tos, Before([to], r))
  {
    if r.Redirs? {
      assert tos + [to] + r.tos == tos + ([to] + r.tos);
    }
  }

  lemma BeforeNothing(tos: seq<To>, r: Redirs, s: nat)
    ensures Before([], r) == r && Before(tos, Redirs([], s)) == Redirs(tos, s)
  {
    assert tos + [] == tos;
    assert r.Redirs? ==> [] + r.tos == r.tos;
  }

  lemma AtTheEnd(text: string, i: nat)
    requires Line(text) && i <= |text|
    ensures CharAt(text, i) == NUL <==> i == |text|
  {
    assert i < |text| ==> text[i] in text;
  }

  /** One turn of parseexec's loop. */
  lemma ArgsTurn(text: string, argv: seq<Span>, tos: seq<To>, i: nat)
    requires Line(text) && i <= |text| && WordsOk(text, Exec(argv)) && TosOk(text, tos) && Skip(text, i) == i
    requires CharAt(text, i) == NUL || CharAt(text, i) !in "|)&;"
    ensures var tok := GetToken(text, i);
            if tok.kind == NUL then Args(text, argv, tos, i) == Ok(Wrap(Exec(argv), tos), tok.next)
            else if tok.kind != 'a' || |argv| + 1 >= MAXARGS then Args(text, argv, tos, i) == Panic
            else WordsOk(text, Exec(argv + [Span(tok.q, tok.eq)]))
    ensures var tok := GetToken(text, i);
            tok.kind == 'a' && |argv| + 1 < MAXARGS ==>
              Args(text, argv, tos, i)
              == Continued(text, argv + [Span(tok.q, tok.eq)], tos, GetRedirs(text, tok.next))
  {
  }

  /** The rest of a simple command after a word and the redirections that follow it. */
  function Continued(text: string, argv: seq<Span>, tos: seq<To>, r: Redirs): Parsed
    requires Line(text) && WordsOk(text, Exec(argv)) && TosOk(text, tos)
    requires r.Redirs? ==> r.pos <= |text| && TosOk(text, r.tos)
  {
    if r.Redirs? then Args(text, argv, tos + r.tos, r.pos) else Panic
  }

  lemma ArgsStop(text: string, argv: seq<Span>, tos: seq<To>, i: nat)
    requires Line(text) && i <= |text| && WordsOk(text, Exec(argv)) && TosOk(text, tos) && Skip(text, i) == i
    requires CharAt(text, i) != NUL && CharAt(text, i) in "|)&;"
    ensures Args(text, argv, tos, i) == Ok(Wrap(Exec(argv), tos), i)
  {
  }

  lemma NoWords(text: string)
    ensures WordsOk(text, Exec([]))
  {
  }

  lemma MoreTos(text: string, tos: seq<To>, more: seq<To>, i: nat, j: nat)
    requires Line(text) && i <= |text| && TosOk(text, tos) && GetRedirs(text, i) == Redirs(more, j)
    ensures TosOk(text, tos + more) && i <= j <= |text|
  {
    assert GetRedirs(text, i).Redirs? && TosOk(text, more);
  }

  lemma ArgsSkip(text: string, argv: seq<Span>, tos: seq<To>, i: nat)
    requires Line(text) && i <= |text| && WordsOk(text, Exec(argv)) && TosOk(text, tos)
    ensures Args(text, argv, tos, i) == Args(text, argv, tos, Skip(text, i))
  {
    SkipTwice(text, i);
    assert GetToken(text, i) == GetToken(text, Skip(text, i));
  }

  lemma SkipTwice(text: string, i: nat)
    requires i <= |text|
    ensures Skip(text, Skip(text, i)) == Skip(text, i)
  {
  }

  class Parser {
    const text: string
    var s: nat                 // *ps

    predicate Ok()
      reads this
    {
      Line(text) && s <= |text|
    }

    constructor (text: string)
      requires Line(text)
      ensures Ok() && this.text == text && s == 0
    {
      this.text, s := text, 0;
    }

    method SkipSpace()
      requires Ok()
      modifies this`s
      ensures Ok() && s == Skip(text, old(s))
    {
      while s < |text| && Space(text[s])
        invariant Ok() && Skip(text, s) == Skip(text, old(s))
        decreases |text| - s
      {
        s := s + 1;
      }
    }

    method GetToken() returns (kind: char, q: nat, eq: nat)
      requires Ok()
      modifies this`s
      ensures Ok() && Token(kind, q, eq, s) == G.GetToken(text, old(s))
    {
      SkipSpace();
      q := s;
      kind := CharAt(text, s);
      AtTheEnd(text, s);
      if kind == NUL {
      } else if kind == '|' || kind == '(' || kind == ')' || kind == ';' || kind == '&' || kind == '<' {
        s := s + 1;
      } else if kind == '>' {
        s := s + 1;
        if CharAt(text, s) == '>' {
          kind := '+';
          s := s + 1;
        }
      } else {
        kind := 'a';
        while s < |text| && !Space(text[s]) && !Symbol(text[s])
          invariant Ok() && WordEnd(text, s) == WordEnd(text, q)
          decreases |text| - s
        {
          s := s + 1;
        }
      }
      eq := s;
      SkipSpace();
    }

    method Peek(toks: string) returns (found: bool)
      requires Ok()
      modifies this`s
      ensures Ok() && s == Skip(text, old(s)) && (found <==> CharAt(text, s) != NUL && CharAt(text, s) in toks)
    {
      SkipSpace();
      found := CharAt(text, s) != NUL && CharAt(text, s) in toks;
    }

    /** The redirections from here on, innermost first; parseredirs wraps them around its command. */
    method ParseRedirs() returns (ok: bool, tos: seq<To>)
      requires Ok()
      modifies this`s
      ensures Ok() && ok == GetRedirs(text, old(s)).Redirs?
      ensures ok ==> GetRedirs(text, old(s)) == Redirs(tos, s)
    {
      tos := [];
      ghost var from := s;
      BeforeNothing([], GetRedirs(text, from), s);
      while true
        invariant Ok() && from <= s
        invariant GetRedirs(text, from) == Before(tos, GetRedirs(text, s))
        decreases |text| - s
      {
        ghost var here := s;
        var more := Peek("<>");
        if !more {
          BeforeNothing(tos, GetRedirs(text, here), s);
          return true, tos;
        }
        var tok, q, eq := GetToken();
        var kind;
        kind, q, eq := GetToken();
        if kind != 'a' {
          return false, tos;
        }
        BeforeOne(tos, To(Span(q, eq), ModeOf(tok)), GetRedirs(text, s));
        tos := tos + [To(Span(q, eq), ModeOf(tok))];
      }
    }

    method ParseLine() returns (ok: bool, cmd: Cmd<Span>)
      requires Ok()
      modifies this`s
      ensures Ok() && Agrees(ok, cmd, s, G.ParseLine(text, old(s)))
      decreases |text| - s, 4
    {
      ghost var i := s;
      ok, cmd := ParsePipe();
      if !ok {
        return;
      }
      ghost var c, j := cmd, s;
      var amp := Peek("&");
      while amp
        invariant Ok() && j <= s && WordsOk(text, cmd) && Skip(text, s) == s
        invariant Amps(text, c, j) == Amps(text, cmd, s) && (amp <==> CharAt(text, s) == '&')
        decreases |text| - s, amp
      {
        var _, _, _ := GetToken();
        cmd := Back(cmd);
        amp := Peek("&");
      }
      var semi := Peek(";");
      if semi {
        var _, _, _ := GetToken();
        var right;
        ok, right := ParseLine();
        cmd := List(cmd, right);
      }
    }

    method ParsePipe() returns (ok: bool, cmd: Cmd<Span>)
      requires Ok()
      modifies this`s
      ensures Ok() && Agrees(ok, cmd, s, G.ParsePipe(text, old(s)))
      decreases |text| - s, 3
    {
      ok, cmd := ParseExec();
      if !ok {
        return;
      }
      var bar := Peek("|");
      if bar {
        var _, _, _ := GetToken();
        var right;
        ok, right := ParsePipe();
        cmd := Pipe(cmd, right);
      }
    }

    /** Called where peek has seen a parenthesis. */
    method ParseBlock() returns (ok: bool, cmd: Cmd<Span>)
      requires Ok() && CharAt(text, Skip(text, s)) == '('
      modifies this`s
      ensures Ok() && Agrees(ok, cmd, s, G.ParseBlock(text, old(s)))
      decreases |text| - s, 1
    {
      var _, _, _ := GetToken();
      ok, cmd := ParseLine();
      if !ok {
        return;
      }
      var close := Peek(")");
      if !close {
        return false, cmd;
      }
      var _, _, _ := GetToken();
      var tos;
      ok, tos := ParseRedirs();
      if ok {
        cmd := Wrap(cmd, tos);
      }
    }

    /** A simple command's words go into its argv while the redirections among them pile up around it. */
    method ParseExec() returns (ok: bool, cmd: Cmd<Span>)
      requires Ok()
      modifies this`s
      ensures Ok() && Agrees(ok, cmd, s, G.ParseExec(text, old(s)))
      decreases |text| - s, 2
    {
      hide G.ParseBlock, Args;
      cmd := Exec([]);
      var open := Peek("(");
      if open {
        SkipTwice(text, old(s));
        ok, cmd := ParseBlock();
        return;
      }
      var tos;
      ok, tos := ParseRedirs();
      if ok {
        ok, cmd := ParseArgs(tos);
      }
    }

    /** parseexec's loop. */
    method ParseArgs(redirs: seq<To>) returns (ok: bool, cmd: Cmd<Span>)
      requires Ok() && TosOk(text, redirs)
      modifies this`s
      ensures Ok() && Agrees(ok, cmd, s, Args(text, [], redirs, old(s)))
    {
      hide Args, Wrap, GetRedirs, G.GetToken, WordsOk, TosOk, Skip;
      var argv: seq<Span>, tos := [], redirs;
      ghost var i := s;
      NoWords(text);
      ghost var all := Args(text, [], redirs, i);
      ok, cmd := true, Exec([]);
      ArgsSkip(text, argv, tos, s);
      var stop := Peek("|)&;");
      SkipTwice(text, i);
      while !stop
        invariant Ok() && Skip(text, s) == s && WordsOk(text, Exec(argv)) && TosOk(text, tos)
        invariant Args(text, argv, tos, s) == all
        invariant stop <==> CharAt(text, s) != NUL && CharAt(text, s) in "|)&;"
        decreases |text| - s, !stop
      {
        ArgsTurn(text, argv, tos, s);
        var tok, q, eq := GetToken();
        if tok == NUL {
          return true, Wrap(Exec(argv), tos);
        }
        if tok != 'a' || |argv| + 1 >= MAXARGS {
          return false, cmd;
        }
        argv := argv + [Span(q, eq)];
        ghost var here := s;
        var more;
        ok, more := ParseRedirs();
        if !ok {
          return;
        }
        MoreTos(text, tos, more, here, s);
        tos := tos + more;
        ArgsSkip(text, argv, tos, s);
        SkipTwice(text, s);
        stop := Peek("|)&;");
      }
      ArgsStop(text, argv, tos, s);
      cmd := Wrap(Exec(argv), tos);
      ok := true;
    }
  }

  /** Write a NUL after every word that the tree points to. */
  method NulTerminate(buf: array<char>, cmd: Cmd<Span>)
    requires forall w | w in Words(cmd) :: w.eq < buf.Length
    modifies buf
    ensures Terminated(old(buf[..]), buf[..], Ends(cmd))
    decreases cmd
  {
    match cmd
    case Exec(argv) =>
      var i := 0;
      while i < |argv|
        invariant i <= |argv| && forall k | 0 <= k < buf.Length ::
                    buf[k] == if k in Ends(Exec(argv[..i])) then NUL else old(buf[k])
      {
        assert argv[i] in Words(cmd);
        buf[argv[i].eq] := NUL;
        ExecEnds(argv, i);
        i := i + 1;
      }
      assert argv[..i] == argv;
    case Redir(c, f, m) =>
      NulTerminate(buf, c);
      buf[f.eq] := NUL;
      EndsParts(cmd);
    case Pipe(l, r) =>
      NulTerminate(buf, l);
      NulTerminate(buf, r);
      EndsParts(cmd);
    case List(l, r) =>
      NulTerminate(buf, l);
      NulTerminate(buf, r);
      EndsParts(cmd);
    case Back(c) =>
      NulTerminate(buf, c);
      EndsParts(cmd);
  }

  /** parsecmd on the line in buf[..es]; false is a syntax panic. */
  method ParseCmd(buf: array<char>, es: nat) returns (ok: bool, cmd: Cmd<Span>)
    requires buf.Length == es + 1 && Line(buf[..es]) && buf[es] == NUL
    modifies buf
    ensures ok == G.ParseCmd(old(buf[..es])).Ok?
    ensures !ok ==> buf[..] == old(buf[..])
    ensures ok ==> cmd == G.ParseCmd(old(buf[..es])).cmd && Terminated(old(buf[..]), buf[..], Ends(cmd))
  {
    ghost var text := buf[..es];
    var p := new Parser(buf[..es]);
    ok, cmd := p.ParseLine();
    if !ok {
      return;
    }
    var _ := p.Peek("");
    if p.s != es {
      return false, cmd;
    }
    forall w | w in Words(cmd) ensures w.eq < buf.Length {
      WordsAreWords(text, cmd, w);
    }
    NulTerminate(buf, cmd);
  }
}
