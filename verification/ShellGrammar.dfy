/**
The grammar of command lines, as rules over characters and lists of tokens that say nothing about
reading from left to right, and the parser against it: it accepts exactly the lines the grammar derives,
with exactly the tree of the derivation.

  line  ::=  back  |  back ";" line
  back  ::=  pipe  |  back "&"
  pipe  ::=  exec  |  exec "|" pipe
  exec  ::=  { word | redir }  |  "(" line ")" { redir }
  redir ::=  "<" word  |  ">" word  |  ">>" word
*/
module ShellGrammar {
  import opened ShellSyntax

  datatype Tok = Tok(kind: char, span: Span)

  // ---------------------------------------------------------------- tokens

  /** Characters a up to b are white space. */
  ghost predicate Blank(buf: string, a: int, b: int)
    requires 0 <= a <= b <= |buf|
  {
    forall i :: a <= i < b ==> buf[i] in " \t\r\n\U{0B}"
  }

  /** The token's text is ">>", a symbol that is not the start of ">>", or a whole word. */
  ghost predicate Spells(buf: string, t: Tok)
  {
    && 0 <= t.span.q < t.span.eq <= |buf|
    && var text, next := buf[t.span.q..t.span.eq], buf[t.span.eq..];
       if t.kind == '+' then text == ">>"
       else if t.kind == 'a' then
         && (forall i :: 0 <= i < |text| ==> text[i] !in " \t\r\n\U{0B}<|>&;()")
         && (next != [] ==> next[0] in " \t\r\n\U{0B}<|>&;()")
       else t.kind in "<|>&;()" && text == [t.kind] && (t.kind == '>' && next != [] ==> next[0] != '>')
  }

  /** The line from s on is the tokens ts with white space around them. */
  ghost predicate Lexes(buf: string, s: int, ts: seq<Tok>)
    requires 0 <= s <= |buf|
    decreases |ts|
  {
    if ts == [] then Blank(buf, s, |buf|)
    else
      && s <= ts[0].span.q && Spells(buf, ts[0]) && Blank(buf, s, ts[0].span.q)
      && Lexes(buf, ts[0].span.eq, ts[1..])
  }

  /** The tokens of the line from s on. */
  function Tokens(buf: string, s: int): seq<Tok>
    requires 0 <= s <= |buf|
    decreases |buf| - s
  {
    var t := NextToken(buf, s);
    if t.kind == '\0' then [] else [Tok(t.kind, t.span)] + Tokens(buf, t.s)
  }

  // ---------------------------------------------------------------- the grammar

  predicate IsRedir(k: char)
  {
    k == '<' || k == '>' || k == '+'
  }

  /** What a redirection asks for: "<" opens the file for reading as 0, ">" and ">>" create it for writing as 1. */
  ghost predicate AsksFor(op: Tok, file: Tok, to: Redirection)
  {
    && IsRedir(op.kind) && file.kind == 'a' && to.file == file.span
    && if op.kind == '<' then to.mode == 0 && to.fd == 0 else to.mode == 0x201 && to.fd == 1
  }

  ghost predicate DerivesRedirs(ts: seq<Tok>, rs: seq<Redirection>)
    decreases |rs|
  {
    if rs == [] then ts == []
    else
      |ts| >= 2 && AsksFor(ts[0], ts[1], rs[0]) && DerivesRedirs(ts[2..], rs[1..])
  }

  /** Words and redirections in any mixture; argv are the words and rs the redirections, in order. */
  ghost predicate DerivesArgs(ts: seq<Tok>, argv: seq<Span>, rs: seq<Redirection>)
    decreases |ts|
  {
    if ts == [] then argv == [] && rs == []
    else if ts[0].kind == 'a' then
      argv != [] && argv[0] == ts[0].span && DerivesArgs(ts[1..], argv[1..], rs)
    else
      |ts| >= 2 && rs != [] && AsksFor(ts[0], ts[1], rs[0]) && DerivesArgs(ts[2..], argv, rs[1..])
  }

  /** c is d inside the redirections rs, the last one outermost. */
  ghost predicate Inside(c: Cmd, d: Cmd, rs: seq<Redirection>)
    decreases |rs|
  {
    if rs == [] then c == d
    else c.Redir? && c.to == rs[|rs| - 1] && Inside(c.cmd, d, rs[..|rs| - 1])
  }

  ghost predicate DerivesSimple(ts: seq<Tok>, c: Cmd, argv: seq<Span>, rs: seq<Redirection>)
  {
    |argv| < 10 && DerivesArgs(ts, argv, rs) && Inside(c, Exec(argv), rs)
  }

  /** Tokens 1 up to k are a line in parentheses. */
  ghost predicate DerivesBlock(ts: seq<Tok>, c: Cmd, k: int, d: Cmd, rs: seq<Redirection>)
    decreases |ts|, 0
  {
    && 0 < k < |ts| && ts[0].kind == '(' && ts[k].kind == ')'
    && DerivesLine(ts[1..k], d) && DerivesRedirs(ts[k + 1..], rs) && Inside(c, d, rs)
  }

  ghost predicate DerivesExec(ts: seq<Tok>, c: Cmd)
    decreases |ts|, 1
  {
    || (exists argv, rs :: DerivesSimple(ts, c, argv, rs))
    || (exists k, d, rs :: DerivesBlock(ts, c, k, d, rs))
  }

  ghost predicate PipeAt(ts: seq<Tok>, c: Cmd, k: int)
    decreases |ts|, 2
  {
    && c.Pipe? && 0 <= k < |ts| && ts[k].kind == '|'
    && DerivesExec(ts[..k], c.left) && DerivesPipe(ts[k + 1..], c.right)
  }

  ghost predicate DerivesPipe(ts: seq<Tok>, c: Cmd)
    decreases |ts|, 3
  {
    DerivesExec(ts, c) || exists k :: PipeAt(ts, c, k)
  }

  ghost predicate DerivesBack(ts: seq<Tok>, c: Cmd)
    decreases |ts|, 4
  {
    || DerivesPipe(ts, c)
    || (c.Back? && ts != [] && ts[|ts| - 1].kind == '&' && DerivesBack(ts[..|ts| - 1], c.cmd))
  }

  ghost predicate ListAt(ts: seq<Tok>, c: Cmd, k: int)
    decreases |ts|, 5
  {
    && c.List? && 0 <= k < |ts| && ts[k].kind == ';'
    && DerivesBack(ts[..k], c.left) && DerivesLine(ts[k + 1..], c.right)
  }

  ghost predicate DerivesLine(ts: seq<Tok>, c: Cmd)
    decreases |ts|, 6
  {
    DerivesBack(ts, c) || exists k :: ListAt(ts, c, k)
  }

  // ---------------------------------------------------------------- looking ahead

  /** The kind of the first token, NUL if there is none. */
  function First(ts: seq<Tok>): char
  {
    if ts == [] then '\0' else ts[0].kind
  }

  lemma SkipTokens(buf: string, s: int)
    requires 0 <= s <= |buf|
    ensures Tokens(buf, Skip(buf, s)) == Tokens(buf, s)
  {
  }

  /** peek sees the next token's first character. */
  lemma Ahead(buf: string, s: int)
    requires 0 <= s <= |buf|
    ensures var t := NextToken(buf, s);
      && First(Tokens(buf, s)) == t.kind && (t.kind == '\0' <==> Tokens(buf, s) == [])
      && Tokens(buf, s) == (if t.kind == '\0' then [] else [Tok(t.kind, t.span)]) + Tokens(buf, t.s)
      && (Sees(buf, s, "<>") <==> IsRedir(t.kind)) && (Sees(buf, s, "|") <==> t.kind == '|')
      && (Sees(buf, s, "&") <==> t.kind == '&') && (Sees(buf, s, ";") <==> t.kind == ';')
      && (Sees(buf, s, "(") <==> t.kind == '(') && (Sees(buf, s, ")") <==> t.kind == ')')
      && (Sees(buf, s, "|)&;") <==> t.kind == '|' || t.kind == ')' || t.kind == '&' || t.kind == ';')
  {
  }

  lemma {:induction false} SkipBlank(buf: string, s: int)
    requires 0 <= s <= |buf|
    ensures Blank(buf, s, Skip(buf, s))
    decreases |buf| - s
  {
    if s < |buf| && IsSpace(buf[s]) {
      SkipBlank(buf, s + 1);
    }
  }

  lemma {:induction false} BlankSkip(buf: string, s: int, q: int)
    requires 0 <= s <= q <= |buf| && Blank(buf, s, q)
    ensures Skip(buf, s) == Skip(buf, q)
    decreases q - s
  {
    if s < q {
      assert IsSpace(buf[s]);
      BlankSkip(buf, s + 1, q);
    }
  }

  lemma TokenSpells(buf: string, q: int)
    requires 0 <= q < |buf| && !IsSpace(buf[q])
    ensures Spells(buf, Tok(TokenKind(buf, q), Span(q, TokenEnd(buf, q))))
  {
    var e := TokenEnd(buf, q);
    assert buf[q..e][0] == buf[q];
  }

  lemma SpellsToken(buf: string, t: Tok)
    requires Spells(buf, t)
    ensures !IsSpace(buf[t.span.q]) && t.kind == TokenKind(buf, t.span.q) && t.span.eq == TokenEnd(buf, t.span.q)
  {
    var q, eq := t.span.q, t.span.eq;
    var text := buf[q..eq];
    assert text[0] == buf[q];
    if t.kind == '+' {
      assert text[1] == buf[q + 1];
    } else if t.kind == 'a' {
      forall i | q <= i < eq ensures WordChar(buf[i]) {
        assert buf[i] == text[i - q];
      }
      WordIs(buf, q, eq);
    }
  }

  lemma {:induction false} WordIs(buf: string, q: int, eq: int)
    requires 0 <= q <= eq <= |buf| && (eq < |buf| ==> !WordChar(buf[eq]))
    requires forall i :: q <= i < eq ==> WordChar(buf[i])
    ensures WordEnd(buf, q) == eq
    decreases eq - q
  {
    if q < eq {
      WordIs(buf, q + 1, eq);
    }
  }

  /** gettoken cuts the line into tokens, in the one way there is. */
  lemma {:induction false} LexIff(buf: string, s: int, ts: seq<Tok>)
    requires 0 <= s <= |buf|
    ensures Lexes(buf, s, ts) <==> ts == Tokens(buf, s)
    decreases |buf| - s
  {
    hide TokenEnd, TokenKind, Skip, WordEnd, IsWord, Blank;
    SkipBlank(buf, s);
    var q := Skip(buf, s);
    if q < |buf| {
      TokenSpells(buf, q);
      var e := TokenEnd(buf, q);
      SkipTokens(buf, e);
      assert Tokens(buf, s)[1..] == Tokens(buf, e);
      if ts != [] {
        LexIff(buf, e, ts[1..]);
      }
    }
    if Lexes(buf, s, ts) {
      var at := if ts == [] then |buf| else ts[0].span.q;
      BlankSkip(buf, s, at);
      LexFirst(buf, at, ts);
    }
  }

  lemma LexFirst(buf: string, at: int, ts: seq<Tok>)
    requires 0 <= at <= |buf| && (ts == [] ==> at == |buf|)
    requires ts != [] ==> ts[0].span.q == at && Spells(buf, ts[0])
    ensures Skip(buf, at) == at && (at < |buf| <==> ts != [])
    ensures ts != [] ==> !IsSpace(buf[at]) && ts[0].kind == TokenKind(buf, at) && ts[0].span.eq == TokenEnd(buf, at)
  {
    if ts != [] {
      SpellsToken(buf, ts[0]);
    }
  }

  // ---------------------------------------------------------------- redirections

  lemma {:induction false} WrapLast(c: Cmd, rs: seq<Redirection>)
    requires rs != []
    ensures Wrap(c, rs) == Redir(Wrap(c, rs[..|rs| - 1]), rs[|rs| - 1])
    decreases |rs|
  {
    if |rs| > 1 {
      WrapLast(Redir(c, rs[0]), rs[1..]);
      assert rs[1..][..|rs| - 2] == rs[..|rs| - 1][1..];
    }
  }

  /** parseredirs builds the nesting from the inside out. */
  lemma {:induction false} InsideIff(c: Cmd, d: Cmd, rs: seq<Redirection>)
    ensures Inside(c, d, rs) <==> c == Wrap(d, rs)
    decreases |rs|
  {
    if rs != [] {
      WrapLast(d, rs);
      if c.Redir? {
        InsideIff(c.cmd, d, rs[..|rs| - 1]);
      }
    }
  }

  // ---------------------------------------------------------------- what is accepted is derived

  lemma {:induction false} RedirsSound(buf: string, s: int) returns (ts: seq<Tok>)
    requires 0 <= s <= |buf| && ParseRedirs(buf, s).Redirs?
    ensures var r := ParseRedirs(buf, s); Tokens(buf, s) == ts + Tokens(buf, r.s) && DerivesRedirs(ts, r.rs)
    decreases |buf| - s
  {
    hide Tokens, Skip, Sees, NextToken, TokenEnd, TokenKind, WordEnd, IsWord, AllWords;
    Ahead(buf, s);
    SkipTokens(buf, s);
    ts := [];
    assert [] + Tokens(buf, s) == Tokens(buf, s);
    if Sees(buf, s, "<>") {
      var tok := NextToken(buf, s);
      Ahead(buf, tok.s);
      var file := NextToken(buf, tok.s);
      var more := RedirsSound(buf, file.s);
      var t, f, rest := Tok(tok.kind, tok.span), Tok(file.kind, file.span), Tokens(buf, ParseRedirs(buf, s).s);
      ts := [t, f] + more;
      assert [t] + ([f] + (more + rest)) == ts + rest;
      assert ts[2..] == more && ParseRedirs(buf, s).rs[1..] == ParseRedirs(buf, file.s).rs;
    }
  }

  lemma {:induction false} RedirsThenArgs(ts: seq<Tok>, rs: seq<Redirection>, us: seq<Tok>, argv: seq<Span>,
                                          more: seq<Redirection>)
    requires DerivesRedirs(ts, rs) && DerivesArgs(us, argv, more)
    ensures DerivesArgs(ts + us, argv, rs + more)
    decreases |rs|
  {
    if rs == [] {
      assert ts + us == us && rs + more == more;
    } else {
      RedirsThenArgs(ts[2..], rs[1..], us, argv, more);
      assert (ts + us)[2..] == ts[2..] + us && (rs + more)[1..] == rs[1..] + more;
    }
  }

  lemma {:induction false} ArgsSound(buf: string, s: int, argv: seq<Span>, rs: seq<Redirection>)
    returns (ts: seq<Tok>, ws: seq<Span>, more: seq<Redirection>)
    requires 0 <= s <= |buf| && AllFiles(buf, rs) && AllWords(buf, Exec(argv)) && |argv| < MAXARGS
    requires ParseArgs(buf, s, argv, rs).Ok?
    ensures var r := ParseArgs(buf, s, argv, rs);
      && Tokens(buf, s) == ts + Tokens(buf, r.s) && DerivesArgs(ts, ws, more)
      && |argv + ws| < MAXARGS && r.cmd == Wrap(Exec(argv + ws), rs + more)
    decreases |buf| - s
  {
    hide Tokens, Skip, Sees, NextToken, TokenEnd, TokenKind, WordEnd, IsWord, Wrap, ParseRedirs, DerivesRedirs;
    Ahead(buf, s);
    SkipTokens(buf, s);
    ts, ws, more := [], [], [];
    assert argv + [] == argv && rs + [] == rs;
    if !Sees(buf, s, "|)&;") && NextToken(buf, s).kind != '\0' {
      var tok := NextToken(buf, s);
      var redirs := ParseRedirs(buf, tok.s);
      var us := RedirsSound(buf, tok.s);
      var vs, ws', more' := ArgsSound(buf, redirs.s, argv + [tok.span], rs + redirs.rs);
      RedirsThenArgs(us, redirs.rs, vs, ws', more');
      ts, ws, more := [Tok(tok.kind, tok.span)] + (us + vs), [tok.span] + ws', redirs.rs + more';
      assert ts[1..] == us + vs && ws[1..] == ws';
      assert argv + [tok.span] + ws' == argv + ws && rs + redirs.rs + more' == rs + more;
    }
  }

  lemma {:induction false} ExecSound(buf: string, s: int) returns (ts: seq<Tok>)
    requires 0 <= s <= |buf| && ParseExec(buf, s).Ok?
    ensures var r := ParseExec(buf, s); Tokens(buf, s) == ts + Tokens(buf, r.s) && DerivesExec(ts, r.cmd)
    decreases |buf| - s, 1
  {
    hide Tokens, Skip, Sees, NextToken, TokenEnd, TokenKind, WordEnd, IsWord, Wrap, ParseRedirs, DerivesRedirs,
         DerivesArgs, DerivesBlock, ParseArgs, ParseBlock;
    if Sees(buf, s, "(") {
      ts := BlockSound(buf, s);
    } else {
      var redirs := ParseRedirs(buf, s);
      var us := RedirsSound(buf, s);
      var vs, ws, more := ArgsSound(buf, redirs.s, [], redirs.rs);
      RedirsThenArgs(us, redirs.rs, vs, ws, more);
      ts := us + vs;
      assert [] + ws == ws;
      InsideIff(ParseExec(buf, s).cmd, Exec(ws), redirs.rs + more);
      assert DerivesSimple(ts, ParseExec(buf, s).cmd, ws, redirs.rs + more);
    }
  }

  lemma {:induction false} BlockSound(buf: string, s: int) returns (ts: seq<Tok>)
    requires 0 <= s <= |buf| && Sees(buf, s, "(") && ParseBlock(buf, s).Ok?
    ensures var r := ParseBlock(buf, s); Tokens(buf, s) == ts + Tokens(buf, r.s) && DerivesExec(ts, r.cmd)
    decreases |buf| - s, 0
  {
    hide Tokens, Skip, Sees, NextToken, TokenEnd, TokenKind, WordEnd, IsWord, AllWords, DerivesLine,
         DerivesRedirs, ParseLine, ParseRedirs, Wrap, DerivesSimple;
    Ahead(buf, s);
    var open := NextToken(buf, s);
    var line := ParseLine(buf, open.s);
    var us := LineSound(buf, open.s);
    Ahead(buf, line.s);
    var close := NextToken(buf, line.s);
    var redirs := ParseRedirs(buf, close.s);
    var vs := RedirsSound(buf, close.s);
    ts := [Tok(open.kind, open.span)] + us + [Tok(close.kind, close.span)] + vs;
    var k := |us| + 1;
    assert ts[1..k] == us && ts[k + 1..] == vs;
    InsideIff(ParseBlock(buf, s).cmd, line.cmd, redirs.rs);
    assert DerivesBlock(ts, ParseBlock(buf, s).cmd, k, line.cmd, redirs.rs);
  }

  lemma {:induction false} PipeSound(buf: string, s: int) returns (ts: seq<Tok>)
    requires 0 <= s <= |buf| && ParsePipe(buf, s).Ok?
    ensures var r := ParsePipe(buf, s); Tokens(buf, s) == ts + Tokens(buf, r.s) && DerivesPipe(ts, r.cmd)
    decreases |buf| - s, 2
  {
    hide Tokens, Skip, Sees, NextToken, TokenEnd, TokenKind, WordEnd, IsWord, AllWords, DerivesExec, ParseExec;
    var left := ParseExec(buf, s);
    var us := ExecSound(buf, s);
    Ahead(buf, left.s);
    SkipTokens(buf, left.s);
    ts := us;
    if Sees(buf, left.s, "|") {
      var bar := NextToken(buf, left.s);
      var vs := PipeSound(buf, bar.s);
      ts := us + [Tok(bar.kind, bar.span)] + vs;
      assert ts[..|us|] == us && ts[|us| + 1..] == vs;
      assert PipeAt(ts, ParsePipe(buf, s).cmd, |us|);
    }
  }

  lemma {:induction false} BacksSound(buf: string, s: int, c: Cmd, us: seq<Tok>) returns (vs: seq<Tok>)
    requires 0 <= s <= |buf| && DerivesBack(us, c)
    ensures var r := ParseBacks(buf, s, c); Tokens(buf, s) == vs + Tokens(buf, r.1) && DerivesBack(us + vs, r.0)
    decreases |buf| - s
  {
    hide Tokens, Skip, Sees, NextToken, TokenEnd, TokenKind, WordEnd, IsWord, AllWords, DerivesPipe;
    Ahead(buf, s);
    SkipTokens(buf, s);
    vs := [];
    assert us + [] == us;
    if Sees(buf, s, "&") {
      var amp := NextToken(buf, s);
      var t := Tok(amp.kind, amp.span);
      assert (us + [t])[..|us|] == us;
      vs := BacksSound(buf, amp.s, Back(c), us + [t]);
      assert us + [t] + vs == us + ([t] + vs);
      vs := [t] + vs;
    }
  }

  lemma {:induction false} LineSound(buf: string, s: int) returns (ts: seq<Tok>)
    requires 0 <= s <= |buf| && ParseLine(buf, s).Ok?
    ensures var r := ParseLine(buf, s); Tokens(buf, s) == ts + Tokens(buf, r.s) && DerivesLine(ts, r.cmd)
    decreases |buf| - s, 3
  {
    hide Tokens, Skip, Sees, NextToken, TokenEnd, TokenKind, WordEnd, IsWord, AllWords,
         DerivesPipe, ParsePipe, ParseBacks;
    var first := ParsePipe(buf, s);
    var us := PipeSound(buf, s);
    var (c, s1) := ParseBacks(buf, first.s, first.cmd);
    var vs := BacksSound(buf, first.s, first.cmd, us);
    ts := us + vs;
    Ahead(buf, s1);
    SkipTokens(buf, s1);
    if Sees(buf, s1, ";") {
      var semi := NextToken(buf, s1);
      var ws := LineSound(buf, semi.s);
      ts := us + vs + [Tok(semi.kind, semi.span)] + ws;
      assert ts[..|us + vs|] == us + vs && ts[|us + vs| + 1..] == ws;
      assert ListAt(ts, ParseLine(buf, s).cmd, |us + vs|);
    }
  }

  // ---------------------------------------------------------------- what is derived is accepted

  /** A token that can follow an exec command. */
  predicate EndsExec(k: char)
  {
    k == '|' || EndsPipe(k)
  }

  predicate EndsPipe(k: char)
  {
    k == '&' || k == ';' || EndsLine(k)
  }

  predicate EndsLine(k: char)
  {
    k == ')' || k == '\0'
  }

  /** The cursor has moved past its first token. */
  lemma Taken(buf: string, s: int, t: Tok, rest: seq<Tok>)
    requires 0 <= s <= |buf| && Tokens(buf, s) == [t] + rest
    ensures NextToken(buf, s).kind == t.kind != '\0' && NextToken(buf, s).span == t.span
    ensures Tokens(buf, NextToken(buf, s).s) == rest
  {
    hide Skip, Sees, TokenEnd, TokenKind, NextToken;
    Ahead(buf, s);
    var n := NextToken(buf, s);
    assert Tokens(buf, s)[0] == t && n.kind != '\0';
    assert Tokens(buf, s)[1..] == rest && ([Tok(n.kind, n.span)] + Tokens(buf, n.s))[1..] == Tokens(buf, n.s);
  }

  lemma {:induction false} RedirsComplete(buf: string, s: int, ts: seq<Tok>, rs: seq<Redirection>, rest: seq<Tok>)
    requires 0 <= s <= |buf| && Tokens(buf, s) == ts + rest && DerivesRedirs(ts, rs) && !IsRedir(First(rest))
    ensures var r := ParseRedirs(buf, s); r.Redirs? && r.rs == rs && Tokens(buf, r.s) == rest
    decreases |ts|
  {
    hide Tokens, Skip, Sees, NextToken, TokenEnd, TokenKind, WordEnd, IsWord, AllWords;
    Ahead(buf, s);
    SkipTokens(buf, s);
    if rs == [] {
      assert ts + rest == rest;
    } else {
      assert ts + rest == [ts[0]] + ([ts[1]] + (ts[2..] + rest));
      Taken(buf, s, ts[0], [ts[1]] + (ts[2..] + rest));
      var tok := NextToken(buf, s);
      Taken(buf, tok.s, ts[1], ts[2..] + rest);
      var file := NextToken(buf, tok.s);
      RedirsComplete(buf, file.s, ts[2..], rs[1..], rest);
      assert rs == [rs[0]] + rs[1..];
    }
  }

  /** The redirections that stand before the first word. */
  lemma {:induction false} SplitRedirs(ts: seq<Tok>, argv: seq<Span>, rs: seq<Redirection>)
    returns (us: seq<Tok>, first: seq<Redirection>, vs: seq<Tok>, more: seq<Redirection>)
    requires DerivesArgs(ts, argv, rs)
    ensures ts == us + vs && rs == first + more && DerivesRedirs(us, first) && DerivesArgs(vs, argv, more)
    ensures vs == [] || vs[0].kind == 'a'
    decreases |ts|
  {
    if ts == [] || ts[0].kind == 'a' {
      us, first, vs, more := [], [], ts, rs;
    } else {
      us, first, vs, more := SplitRedirs(ts[2..], argv, rs[1..]);
      var us', first' := ts[..2] + us, [rs[0]] + first;
      assert us'[2..] == us && first'[1..] == first;
      assert ts == us' + vs && rs == first' + more;
      us, first := us', first';
    }
  }

  lemma {:induction false} ArgsComplete(buf: string, s: int, argv: seq<Span>, rs: seq<Redirection>, ts: seq<Tok>,
                                        ws: seq<Span>, more: seq<Redirection>, rest: seq<Tok>)
    requires 0 <= s <= |buf| && AllFiles(buf, rs) && AllWords(buf, Exec(argv)) && |argv + ws| < MAXARGS
    requires Tokens(buf, s) == ts + rest && DerivesArgs(ts, ws, more) && (ts == [] || ts[0].kind == 'a')
    requires EndsExec(First(rest))
    ensures var r := ParseArgs(buf, s, argv, rs);
      r.Ok? && r.cmd == Wrap(Exec(argv + ws), rs + more) && Tokens(buf, r.s) == rest
    decreases |ts|
  {
    hide Tokens, Skip, Sees, NextToken, TokenEnd, TokenKind, WordEnd, IsWord, Wrap, ParseRedirs, DerivesRedirs;
    Ahead(buf, s);
    SkipTokens(buf, s);
    if ts == [] {
      assert ts + rest == rest && argv + ws == argv && rs + more == rs;
    } else {
      assert ts + rest == [ts[0]] + (ts[1..] + rest);
      Taken(buf, s, ts[0], ts[1..] + rest);
      var tok := NextToken(buf, s);
      var us, first, vs, later := SplitRedirs(ts[1..], ws[1..], more);
      assert ts[1..] + rest == us + (vs + rest);
      RedirsComplete(buf, tok.s, us, first, vs + rest);
      assert argv + [tok.span] + ws[1..] == argv + ws && rs + first + later == rs + more;
      ArgsComplete(buf, ParseRedirs(buf, tok.s).s, argv + [tok.span], rs + first, vs, ws[1..], later, rest);
    }
  }

  lemma SimpleComplete(buf: string, s: int, ts: seq<Tok>, c: Cmd, argv: seq<Span>, rs: seq<Redirection>, rest: seq<Tok>)
    requires 0 <= s <= |buf| && Tokens(buf, s) == ts + rest && DerivesSimple(ts, c, argv, rs) && EndsExec(First(rest))
    ensures var r := ParseExec(buf, s); r.Ok? && r.cmd == c && Tokens(buf, r.s) == rest
  {
    hide Tokens, Skip, Sees, NextToken, TokenEnd, TokenKind, WordEnd, IsWord, Wrap, ParseRedirs,
         DerivesRedirs, ParseArgs,
         ParseBlock;
    Ahead(buf, s);
    assert First(ts + rest) == if ts == [] then First(rest) else ts[0].kind;
    var us, first, vs, later := SplitRedirs(ts, argv, rs);
    assert ts + rest == us + (vs + rest);
    RedirsComplete(buf, s, us, first, vs + rest);
    ArgsComplete(buf, ParseRedirs(buf, s).s, [], first, vs, argv, later, rest);
    assert [] + argv == argv;
    InsideIff(c, Exec(argv), rs);
  }

  lemma {:induction false} BlockComplete(buf: string, s: int, ts: seq<Tok>, c: Cmd, k: int, d: Cmd,
                                         rs: seq<Redirection>, rest: seq<Tok>)
    requires 0 <= s <= |buf| && Tokens(buf, s) == ts + rest && DerivesBlock(ts, c, k, d, rs) && EndsExec(First(rest))
    ensures var r := ParseExec(buf, s); r.Ok? && r.cmd == c && Tokens(buf, r.s) == rest
    decreases |ts|, 0
  {
    hide Tokens, Skip, Sees, NextToken, TokenEnd, TokenKind, WordEnd, IsWord, AllWords, Wrap,
         ParseRedirs, DerivesRedirs,
         ParseArgs, ParseLine, DerivesLine;
    Ahead(buf, s);
    var after := ts[k + 1..] + rest;
    assert ts + rest == [ts[0]] + (ts[1..k] + ([ts[k]] + after));
    Taken(buf, s, ts[0], ts[1..k] + ([ts[k]] + after));
    var open := NextToken(buf, s);
    LineComplete(buf, open.s, ts[1..k], d, [ts[k]] + after);
    var line := ParseLine(buf, open.s);
    Ahead(buf, line.s);
    Taken(buf, line.s, ts[k], after);
    var close := NextToken(buf, line.s);
    RedirsComplete(buf, close.s, ts[k + 1..], rs, rest);
    InsideIff(c, d, rs);
    assert ParseParens(buf, s) == Ok(d, close.s);
    assert ParseExec(buf, s) == ParseBlock(buf, s) == Ok(c, ParseRedirs(buf, close.s).s);
  }

  lemma {:induction false} ExecComplete(buf: string, s: int, ts: seq<Tok>, c: Cmd, rest: seq<Tok>)
    requires 0 <= s <= |buf| && Tokens(buf, s) == ts + rest && DerivesExec(ts, c) && EndsExec(First(rest))
    ensures var r := ParseExec(buf, s); r.Ok? && r.cmd == c && Tokens(buf, r.s) == rest
    decreases |ts|, 1
  {
    hide Tokens, ParseExec, DerivesSimple, DerivesBlock;
    if argv, rs :| DerivesSimple(ts, c, argv, rs) {
      SimpleComplete(buf, s, ts, c, argv, rs, rest);
    } else {
      var k, d, rs :| DerivesBlock(ts, c, k, d, rs);
      BlockComplete(buf, s, ts, c, k, d, rs, rest);
    }
  }

  lemma {:induction false} PipeComplete(buf: string, s: int, ts: seq<Tok>, c: Cmd, rest: seq<Tok>)
    requires 0 <= s <= |buf| && Tokens(buf, s) == ts + rest && DerivesPipe(ts, c) && EndsPipe(First(rest))
    ensures var r := ParsePipe(buf, s); r.Ok? && r.cmd == c && Tokens(buf, r.s) == rest
    decreases |ts|, 2
  {
    hide Tokens, Skip, Sees, NextToken, ParseExec, DerivesExec;
    var left := ParseExec(buf, s);
    if DerivesExec(ts, c) {
      ExecComplete(buf, s, ts, c, rest);
      Ahead(buf, left.s);
      SkipTokens(buf, left.s);
    } else {
      var k :| PipeAt(ts, c, k);
      var after := ts[k + 1..] + rest;
      assert ts + rest == ts[..k] + ([ts[k]] + after);
      ExecComplete(buf, s, ts[..k], c.left, [ts[k]] + after);
      Ahead(buf, left.s);
      Taken(buf, left.s, ts[k], after);
      PipeComplete(buf, NextToken(buf, left.s).s, ts[k + 1..], c.right, rest);
    }
  }

  /** parsepipe and then some turns of the loop over "&" arrive at c. */
  lemma {:induction false} BackComplete(buf: string, s: int, ts: seq<Tok>, c: Cmd, rest: seq<Tok>) returns (s': int)
    requires 0 <= s <= |buf| && Tokens(buf, s) == ts + rest && DerivesBack(ts, c) && EndsPipe(First(rest))
    ensures var r := ParsePipe(buf, s);
      && 0 <= s' <= |buf| && Tokens(buf, s') == rest && r.Ok?
      && ParseBacks(buf, r.s, r.cmd) == ParseBacks(buf, s', c)
    decreases |ts|, 3
  {
    hide Tokens, Skip, Sees, NextToken, ParsePipe, DerivesPipe, AllWords;
    if DerivesPipe(ts, c) {
      PipeComplete(buf, s, ts, c, rest);
      s' := ParsePipe(buf, s).s;
    } else {
      var n := |ts| - 1;
      assert ts + rest == ts[..n] + ([ts[n]] + rest);
      s' := BackComplete(buf, s, ts[..n], c.cmd, [ts[n]] + rest);
      Ahead(buf, s');
      Taken(buf, s', ts[n], rest);
      s' := NextToken(buf, s').s;
    }
  }

  lemma {:induction false} LineComplete(buf: string, s: int, ts: seq<Tok>, c: Cmd, rest: seq<Tok>)
    requires 0 <= s <= |buf| && Tokens(buf, s) == ts + rest && DerivesLine(ts, c) && EndsLine(First(rest))
    ensures var r := ParseLine(buf, s); r.Ok? && r.cmd == c && Tokens(buf, r.s) == rest
    decreases |ts|, 4
  {
    hide Tokens, Skip, Sees, NextToken, ParsePipe, DerivesBack, AllWords;
    if DerivesBack(ts, c) {
      var s1 := BackComplete(buf, s, ts, c, rest);
      Ahead(buf, s1);
      SkipTokens(buf, s1);
      Ahead(buf, Skip(buf, s1));
      SkipTokens(buf, Skip(buf, s1));
    } else {
      var k :| ListAt(ts, c, k);
      var after := ts[k + 1..] + rest;
      assert ts + rest == ts[..k] + ([ts[k]] + after);
      var s1 := BackComplete(buf, s, ts[..k], c.left, [ts[k]] + after);
      Ahead(buf, s1);
      SkipTokens(buf, s1);
      var s2 := Skip(buf, s1);
      Ahead(buf, s2);
      Taken(buf, s2, ts[k], after);
      LineComplete(buf, NextToken(buf, s2).s, ts[k + 1..], c.right, rest);
    }
  }

  // ---------------------------------------------------------------- the parser and the grammar

  lemma NoTokens(buf: string, s: int)
    requires 0 <= s <= |buf|
    ensures Tokens(buf, s) == [] <==> Skip(buf, s) == |buf|
  {
  }

  /** The parser accepts a line with tree c exactly when the line is spelled by tokens that the grammar derives
      from c.  So a line has at most one tree, and the parser panics exactly on the lines that have none. */
  lemma ParseIff(buf: string, c: Cmd)
    ensures ParseCmd(buf) == Ok(c, |buf|) <==> exists ts :: Lexes(buf, 0, ts) && DerivesLine(ts, c)
    ensures ParseCmd(buf).Ok? ==> ParseCmd(buf).s == |buf|
  {
    hide Lexes, DerivesLine, ParseCmd;
    ParseTokens(buf, c);
    LexIff(buf, 0, Tokens(buf, 0));
    if ts :| Lexes(buf, 0, ts) && DerivesLine(ts, c) {
      LexIff(buf, 0, ts);
    }
  }

  lemma ParseTokens(buf: string, c: Cmd)
    ensures ParseCmd(buf) == Ok(c, |buf|) <==> DerivesLine(Tokens(buf, 0), c)
    ensures ParseCmd(buf).Ok? ==> ParseCmd(buf).s == |buf|
  {
    hide Tokens, Skip, ParseLine, DerivesLine;
    var ts, r := Tokens(buf, 0), ParseLine(buf, 0);
    if r.Ok? {
      var us := LineSound(buf, 0);
      NoTokens(buf, r.s);
      assert us + [] == us;
    }
    if DerivesLine(ts, c) {
      assert ts + [] == ts;
      LineComplete(buf, 0, ts, c, []);
      NoTokens(buf, r.s);
    }
  }

  /** Every line has at most one tree. */
  lemma OneTree(buf: string, ts: seq<Tok>, c: Cmd, us: seq<Tok>, d: Cmd)
    requires Lexes(buf, 0, ts) && DerivesLine(ts, c) && Lexes(buf, 0, us) && DerivesLine(us, d)
    ensures c == d
  {
    hide Lexes, DerivesLine, ParseCmd;
    ParseIff(buf, c);
    ParseIff(buf, d);
  }
}
