// The shell's command language (user/sh.c): tokens, the grammar its recursive-descent parser accepts, and
// the trees it builds, whose words are stretches of the command line.

module ShellGrammar {

  const NUL: char := '\0'
  const MAXARGS: nat := 10

  datatype Span = Span(q: nat, eq: nat)

  /** How a redirection opens its file: < is O_RDONLY on fd 0; > is O_WRONLY|O_CREATE|O_TRUNC and
      >> is O_WRONLY|O_CREATE on fd 1. */
  datatype Mode = Read | Truncate | Append

  /** A command tree over words, or over places of words. */
  datatype Cmd<T> =
    | Exec(argv: seq<T>)
    | Redir(cmd: Cmd<T>, file: T, mode: Mode)
    | Pipe(left: Cmd<T>, right: Cmd<T>)
    | List(left: Cmd<T>, right: Cmd<T>)
    | Back(cmd: Cmd<T>)

  datatype Parsed = Ok(cmd: Cmd<Span>, pos: nat) | Panic

  predicate Space(c: char) { c == ' ' || c == '\t' || c == '\r' || c == '\n' || c == '\U{b}' }

  predicate Symbol(c: char) { c == '<' || c == '|' || c == '>' || c == '&' || c == ';' || c == '(' || c == ')' }

  predicate WordChar(c: char) { !Space(c) && !Symbol(c) && c != NUL }

  /** A command line: NUL only after its end. */
  predicate Line(text: string) {
    NUL !in text
  }

  function CharAt(text: string, i: nat): char {
    if i < |text| then text[i] else NUL
  }

  function Skip(text: string, i: nat): (j: nat)
    requires i <= |text|
    ensures i <= j <= |text| && !Space(CharAt(text, j))
    decreases |text| - i
  {
    if i < |text| && Space(text[i]) then Skip(text, i + 1) else i
  }

  function WordEnd(text: string, i: nat): (j: nat)
    requires i <= |text| && Line(text)
    ensures i <= j <= |text| && !WordChar(CharAt(text, j)) && (forall k | i <= k < j :: WordChar(text[k]))
    ensures i < |text| && WordChar(text[i]) ==> i < j
    decreases |text| - i
  {
    if i < |text| && !Space(text[i]) && !Symbol(text[i]) then WordEnd(text, i + 1) else i
  }

  /** kind is the character of a symbol, '+' for >>, 'a' for a word and NUL at the end. */
  datatype Token = Token(kind: char, q: nat, eq: nat, next: nat)

  /** A word of the line, with nothing of a word before or after it. */
  predicate IsWord(text: string, w: Span) {
    w.q < w.eq <= |text| && (forall k | w.q <= k < w.eq :: WordChar(text[k])) && !WordChar(CharAt(text, w.eq))
  }

  function GetToken(text: string, i: nat): (t: Token)
    requires i <= |text| && Line(text)
    ensures i <= t.q <= t.eq <= t.next <= |text| && (t.kind != NUL ==> i < t.next)
    ensures t.kind == 'a' ==> IsWord(text, Span(t.q, t.eq))
    ensures t.q == Skip(text, i)
  {
    var q := Skip(text, i);
    var c := CharAt(text, q);
    if c == NUL then Token(NUL, q, q, q)
    else if c == '|' || c == '(' || c == ')' || c == ';' || c == '&' || c == '<'
        then Token(c, q, q + 1, Skip(text, q + 1))
    else if c == '>' then
      if CharAt(text, q + 1) == '>' then Token('+', q, q + 2, Skip(text, q + 2))
      else Token('>', q, q + 1, Skip(text, q + 1))
    else Token('a', q, WordEnd(text, q), Skip(text, WordEnd(text, q)))
  }

  /** Every word of the tree is a whole word of the line. */
  predicate WordsOk(text: string, cmd: Cmd<Span>) {
    match cmd
    case Exec(argv) => forall k | 0 <= k < |argv| :: IsWord(text, argv[k])
    case Redir(c, f, _) => WordsOk(text, c) && IsWord(text, f)
    case Pipe(l, r) => WordsOk(text, l) && WordsOk(text, r)
    case List(l, r) => WordsOk(text, l) && WordsOk(text, r)
    case Back(c) => WordsOk(text, c)
  }

  predicate Good(text: string, i: nat, r: Parsed) {
    r.Ok? ==> i <= r.pos <= |text| && WordsOk(text, r.cmd)
  }

  // ---- redirections ----

  datatype To = To(file: Span, mode: Mode)

  datatype Redirs = Redirs(tos: seq<To>, pos: nat) | NoFile

  predicate TosOk(text: string, tos: seq<To>) {
    forall k | 0 <= k < |tos| :: IsWord(text, tos[k].file)
  }

  function ModeOf(kind: char): Mode {
    if kind == '<' then Read else if kind == '>' then Truncate else Append
  }

  /** The redirections from position i on. */
  function GetRedirs(text: string, i: nat): (r: Redirs)
    requires i <= |text| && Line(text)
    ensures r.Redirs? ==> i <= r.pos <= |text| && TosOk(text, r.tos)
    decreases |text| - i
  {
    var k := Skip(text, i);
    if CharAt(text, k) == '<' || CharAt(text, k) == '>' then
      var tok := GetToken(text, k);
      var f := GetToken(text, tok.next);
      if f.kind != 'a' then NoFile
      else match GetRedirs(text, f.next)
           case NoFile => NoFile
           case Redirs(tos, pos) => Redirs([To(Span(f.q, f.eq), ModeOf(tok.kind))] + tos, pos)
    else Redirs([], k)
  }

  /** A command with redirections around it, the first innermost. */
  function Wrap(cmd: Cmd<Span>, tos: seq<To>): Cmd<Span>
    decreases |tos|
  {
    if tos == [] then cmd else Wrap(Redir(cmd, tos[0].file, tos[0].mode), tos[1..])
  }

  lemma {:induction false} WrapOk(text: string, cmd: Cmd<Span>, tos: seq<To>)
    requires WordsOk(text, cmd) && TosOk(text, tos)
    ensures WordsOk(text, Wrap(cmd, tos))
    decreases |tos|
  {
    if tos != [] {
      WrapOk(text, Redir(cmd, tos[0].file, tos[0].mode), tos[1..]);
    }
  }

  // ---- the grammar ----

  function ParseLine(text: string, i: nat): (r: Parsed)
    requires i <= |text| && Line(text)
    ensures Good(text, i, r)
    decreases |text| - i, 4
  {
    match ParsePipe(text, i)
    case Panic => Panic
    case Ok(c, j) =>
      match Amps(text, c, j)
      case Panic => Panic
      case Ok(d, k) =>
        if CharAt(text, k) == ';' then
          match ParseLine(text, GetToken(text, k).next)
          case Panic => Panic
          case Ok(e, m) => Ok(List(d, e), m)
        else Ok(d, k)
  }

  /** The &s after a pipeline. */
  function Amps(text: string, c: Cmd<Span>, i: nat): (r: Parsed)
    requires i <= |text| && Line(text) && WordsOk(text, c)
    ensures r.Ok? && Good(text, i, r) && Skip(text, r.pos) == r.pos
    decreases |text| - i
  {
    var k := Skip(text, i);
    if CharAt(text, k) == '&' then Amps(text, Back(c), GetToken(text, k).next) else Ok(c, k)
  }

  function ParsePipe(text: string, i: nat): (r: Parsed)
    requires i <= |text| && Line(text)
    ensures Good(text, i, r)
    decreases |text| - i, 3
  {
    match ParseExec(text, i)
    case Panic => Panic
    case Ok(c, j) =>
      var k := Skip(text, j);
      if CharAt(text, k) == '|' then
        match ParsePipe(text, GetToken(text, k).next)
        case Panic => Panic
        case Ok(d, m) => Ok(Pipe(c, d), m)
      else Ok(c, k)
  }

  function ParseBlock(text: string, i: nat): (r: Parsed)
    requires i <= |text| && Line(text) && CharAt(text, Skip(text, i)) == '('
    ensures Good(text, i, r)
    decreases |text| - i, 1
  {
    match ParseLine(text, GetToken(text, i).next)
    case Panic => Panic
    case Ok(c, j) =>
      var k := Skip(text, j);
      if CharAt(text, k) != ')' then Panic
      else match GetRedirs(text, GetToken(text, k).next)
           case NoFile => Panic
           case Redirs(tos, m) => WrapOk(text, c, tos); Ok(Wrap(c, tos), m)
  }

  function ParseExec(text: string, i: nat): (r: Parsed)
    requires i <= |text| && Line(text)
    ensures Good(text, i, r)
    decreases |text| - i, 2
  {
    var k := Skip(text, i);
    if CharAt(text, k) == '(' then ParseBlock(text, k)
    else match GetRedirs(text, k)
         case NoFile => Panic
         case Redirs(tos, j) => Args(text, [], tos, j)
  }

  /** The words of a simple command, with its redirections among them. */
  function Args(text: string, argv: seq<Span>, tos: seq<To>, i: nat): (r: Parsed)
    requires i <= |text| && Line(text) && WordsOk(text, Exec(argv)) && TosOk(text, tos)
    ensures Good(text, i, r)
    decreases |text| - i, 0
  {
    var k := Skip(text, i);
    var c := CharAt(text, k);
    if c == '|' || c == ')' || c == '&' || c == ';' then WrapOk(text, Exec(argv), tos); Ok(Wrap(Exec(argv), tos), k)
    else
      var tok := GetToken(text, k);
      if tok.kind == NUL then WrapOk(text, Exec(argv), tos); Ok(Wrap(Exec(argv), tos), tok.next)
      else if tok.kind != 'a' then Panic
      else if |argv| + 1 >= MAXARGS then Panic
      else match GetRedirs(text, tok.next)
           case NoFile => Panic
           case Redirs(more, j) => Args(text, argv + [Span(tok.q, tok.eq)], tos + more, j)
  }

  /** parsecmd: the whole line, or a panic. */
  function ParseCmd(text: string): (r: Parsed)
    requires Line(text)
    ensures Good(text, 0, r)
  {
    match ParseLine(text, 0)
    case Panic => Panic
    case Ok(c, j) => if Skip(text, j) != |text| then Panic else Ok(c, |text|)
  }
}
