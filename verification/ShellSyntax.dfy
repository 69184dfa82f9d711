/**
The shell's parser (sh.c) as functions of the input line and a position in it.  The line is a C
string without its final NUL.  Words are kept, as in the source, as spans of the line.
*/
module ShellSyntax {
  const MAXARGS := 10
  const O_RDONLY := 0
  const O_WRONLY_CREATE := 0x201

  datatype Span = Span(q: int, eq: int)

  datatype Redirection = Redirection(file: Span, mode: int, fd: int)

  datatype Cmd =
    | Exec(argv: seq<Span>)
    | Redir(cmd: Cmd, to: Redirection)
    | Pipe(left: Cmd, right: Cmd)
    | List(left: Cmd, right: Cmd)
    | Back(cmd: Cmd)

  /** The shell's panics end the parse. */
  datatype Parsed = Ok(cmd: Cmd, s: int) | Panic(msg: string)

  datatype ParsedRedirs = Redirs(rs: seq<Redirection>, s: int) | NoFile

  predicate IsSpace(c: char)
  {
    c == ' ' || c == '\t' || c == '\r' || c == '\n' || c == '\U{0B}'
  }

  predicate IsSymbol(c: char)
  {
    c == '<' || c == '|' || c == '>' || c == '&' || c == ';' || c == '(' || c == ')'
  }

  predicate WordChar(c: char)
  {
    !IsSpace(c) && !IsSymbol(c)
  }

  // ---------------------------------------------------------------- tokens

  function Skip(buf: string, s: int): (r: int)
    requires 0 <= s <= |buf|
    ensures s <= r <= |buf| && (r < |buf| ==> !IsSpace(buf[r]))
    decreases |buf| - s
  {
    if s < |buf| && IsSpace(buf[s]) then Skip(buf, s + 1) else s
  }

  function WordEnd(buf: string, s: int): (r: int)
    requires 0 <= s <= |buf|
    ensures s <= r <= |buf| && (r < |buf| ==> !WordChar(buf[r]))
    ensures forall i :: s <= i < r ==> WordChar(buf[i])
    decreases |buf| - s
  {
    if s < |buf| && WordChar(buf[s]) then WordEnd(buf, s + 1) else s
  }

  /** kind is the symbol, '+' for ">>", 'a' for a word, or NUL at the end of the line. */
  datatype Token = Token(kind: char, span: Span, s: int)

  /** The end of the token that starts at q. */
  function TokenEnd(buf: string, q: int): (r: int)
    requires 0 <= q < |buf| && !IsSpace(buf[q])
    ensures q < r <= |buf|
  {
    if buf[q] == '>' then (if q + 1 < |buf| && buf[q + 1] == '>' then q + 2 else q + 1)
    else if IsSymbol(buf[q]) then q + 1
    else WordEnd(buf, q)
  }

  function TokenKind(buf: string, q: int): char
    requires 0 <= q < |buf|
  {
    if buf[q] == '>' then (if q + 1 < |buf| && buf[q + 1] == '>' then '+' else '>')
    else if IsSymbol(buf[q]) then buf[q]
    else 'a'
  }

  function NextToken(buf: string, s: int): (t: Token)
    requires 0 <= s <= |buf|
    ensures t.span.q == Skip(buf, s) && s <= t.s <= |buf|
    ensures t.kind != '\0' ==> t.span.q < |buf| && s < t.s
    ensures t.kind == 'a' ==> IsWord(buf, t.span)
  {
    var q := Skip(buf, s);
    if q == |buf| then Token('\0', Span(q, q), q)
    else Token(TokenKind(buf, q), Span(q, TokenEnd(buf, q)), Skip(buf, TokenEnd(buf, q)))
  }

  /** The next character that is not white space is one of toks. */
  predicate Sees(buf: string, s: int, toks: string)
    requires 0 <= s <= |buf|
  {
    Skip(buf, s) < |buf| && buf[Skip(buf, s)] in toks
  }

  // ---------------------------------------------------------------- commands

  /** The span is a whole word: word characters, and what follows is none. */
  ghost predicate IsWord(buf: string, w: Span)
  {
    && 0 <= w.q < w.eq <= |buf| && (w.eq < |buf| ==> !WordChar(buf[w.eq]))
    && forall i :: w.q <= i < w.eq ==> WordChar(buf[i])
  }

  ghost predicate AllWords(buf: string, c: Cmd)
  {
    match c
    case Exec(argv) => forall i :: 0 <= i < |argv| ==> IsWord(buf, argv[i])
    case Redir(d, to) => AllWords(buf, d) && IsWord(buf, to.file)
    case Pipe(l, r) => AllWords(buf, l) && AllWords(buf, r)
    case List(l, r) => AllWords(buf, l) && AllWords(buf, r)
    case Back(d) => AllWords(buf, d)
  }

  ghost predicate AllFiles(buf: string, rs: seq<Redirection>)
  {
    forall i :: 0 <= i < |rs| ==> IsWord(buf, rs[i].file)
  }

  /** The redirection a token asks for; ">>" is treated like ">". */
  function Target(kind: char, file: Span): Redirection
  {
    if kind == '<' then Redirection(file, O_RDONLY, 0) else Redirection(file, O_WRONLY_CREATE, 1)
  }

  function Wrap(c: Cmd, rs: seq<Redirection>): (r: Cmd)
    ensures forall buf :: AllWords(buf, c) && AllFiles(buf, rs) ==> AllWords(buf, r)
    decreases |rs|
  {
    if rs == [] then c else Wrap(Redir(c, rs[0]), rs[1..])
  }

  function ParseRedirs(buf: string, s: int): (r: ParsedRedirs)
    requires 0 <= s <= |buf|
    ensures r.Redirs? ==> s <= r.s <= |buf| && AllFiles(buf, r.rs)
    decreases |buf| - s
  {
    if !Sees(buf, s, "<>") then Redirs([], Skip(buf, s))
    else
      var tok := NextToken(buf, s);
      var file := NextToken(buf, tok.s);
      if file.kind != 'a' then NoFile
      else
        match ParseRedirs(buf, file.s)
        case NoFile => NoFile
        case Redirs(rs, s') => Redirs([Target(tok.kind, file.span)] + rs, s')
  }

  /** The loop of parseexec, with the words and redirections so far. */
  function ParseArgs(buf: string, s: int, argv: seq<Span>, rs: seq<Redirection>): (r: Parsed)
    requires 0 <= s <= |buf| && AllFiles(buf, rs) && AllWords(buf, Exec(argv))
    ensures r.Ok? ==> s <= r.s <= |buf| && AllWords(buf, r.cmd)
    decreases |buf| - s
  {
    if Sees(buf, s, "|)&;") then Ok(Wrap(Exec(argv), rs), Skip(buf, s))
    else
      var tok := NextToken(buf, s);
      if tok.kind == '\0' then Ok(Wrap(Exec(argv), rs), tok.s)
      else if tok.kind != 'a' then Panic("syntax")
      else if |argv| + 1 >= MAXARGS then Panic("too many args")
      else
        match ParseRedirs(buf, tok.s)
        case NoFile => Panic("missing file for redirection")
        case Redirs(more, s') => ParseArgs(buf, s', argv + [tok.span], rs + more)
  }

  function ParseExec(buf: string, s: int): (r: Parsed)
    requires 0 <= s <= |buf|
    ensures r.Ok? ==> s <= r.s <= |buf| && AllWords(buf, r.cmd)
    decreases |buf| - s, 2
  {
    if Sees(buf, s, "(") then ParseBlock(buf, s)
    else
      match ParseRedirs(buf, s)
      case NoFile => Panic("missing file for redirection")
      case Redirs(rs, s') => ParseArgs(buf, s', [], rs)
  }

  /** The part of parseblock up to the closing parenthesis. */
  function ParseParens(buf: string, s: int): (r: Parsed)
    requires 0 <= s <= |buf| && Sees(buf, s, "(")
    ensures r.Ok? ==> s <= r.s <= |buf| && AllWords(buf, r.cmd)
    decreases |buf| - s, 0
  {
    var open := NextToken(buf, s);
    var line := ParseLine(buf, open.s);
    if line.Panic? then line
    else if !Sees(buf, line.s, ")") then Panic("syntax - missing )")
    else Ok(line.cmd, NextToken(buf, line.s).s)
  }

  function ParseBlock(buf: string, s: int): (r: Parsed)
    requires 0 <= s <= |buf| && Sees(buf, s, "(")
    ensures r.Ok? ==> s <= r.s <= |buf| && AllWords(buf, r.cmd)
    decreases |buf| - s, 1
  {
    var inner := ParseParens(buf, s);
    if inner.Panic? then inner
    else
      match ParseRedirs(buf, inner.s)
      case NoFile => Panic("missing file for redirection")
      case Redirs(rs, s') => Ok(Wrap(inner.cmd, rs), s')
  }

  function ParsePipe(buf: string, s: int): (r: Parsed)
    requires 0 <= s <= |buf|
    ensures r.Ok? ==> s <= r.s <= |buf| && AllWords(buf, r.cmd)
    decreases |buf| - s, 3
  {
    var left := ParseExec(buf, s);
    if left.Panic? then left
    else if !Sees(buf, left.s, "|") then Ok(left.cmd, Skip(buf, left.s))
    else
      var right := ParsePipe(buf, NextToken(buf, left.s).s);
      if right.Panic? then right else Ok(Pipe(left.cmd, right.cmd), right.s)
  }

  function ParseBacks(buf: string, s: int, c: Cmd): (r: (Cmd, int))
    requires 0 <= s <= |buf|
    ensures s <= r.1 <= |buf| && (AllWords(buf, c) ==> AllWords(buf, r.0))
    decreases |buf| - s
  {
    if Sees(buf, s, "&") then ParseBacks(buf, NextToken(buf, s).s, Back(c)) else (c, Skip(buf, s))
  }

  function ParseLine(buf: string, s: int): (r: Parsed)
    requires 0 <= s <= |buf|
    ensures r.Ok? ==> s <= r.s <= |buf| && AllWords(buf, r.cmd)
    decreases |buf| - s, 4
  {
    var first := ParsePipe(buf, s);
    if first.Panic? then first
    else
      var (c, s1) := ParseBacks(buf, first.s, first.cmd);
      if !Sees(buf, s1, ";") then Ok(c, Skip(buf, s1))
      else
        var rest := ParseLine(buf, NextToken(buf, s1).s);
        if rest.Panic? then rest else Ok(List(c, rest.cmd), rest.s)
  }

  /** parsecmd, but for the final nulterminate: the whole line must be used. */
  function ParseCmd(buf: string): Parsed
  {
    var r := ParseLine(buf, 0);
    if r.Panic? then r else if Skip(buf, r.s) != |buf| then Panic("syntax") else Ok(r.cmd, Skip(buf, r.s))
  }
}
