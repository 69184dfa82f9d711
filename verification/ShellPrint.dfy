/**
Round trip: a command tree, printed with every node in parentheses, parses back to the same tree.
*/
module ShellPrint {
  import opened ShellSyntax

  /** A command tree with its words as text; output is ">" against "<". */
  datatype Tree =
    | ExecTree(words: seq<string>)
    | RedirTree(cmd: Tree, file: string, output: bool)
    | PipeTree(left: Tree, right: Tree)
    | ListTree(left: Tree, right: Tree)
    | BackTree(cmd: Tree)

  predicate GoodWord(w: string)
  {
    w != "" && forall i :: 0 <= i < |w| ==> WordChar(w[i]) && w[i] != '\0'
  }

  /** Non-empty words, and fewer than MAXARGS of them in each exec node. */
  predicate Good(t: Tree)
  {
    match t
    case ExecTree(ws) => |ws| < MAXARGS && forall i :: 0 <= i < |ws| ==> GoodWord(ws[i])
    case RedirTree(c, f, _) => Good(c) && GoodWord(f)
    case PipeTree(l, r) => Good(l) && Good(r)
    case ListTree(l, r) => Good(l) && Good(r)
    case BackTree(c) => Good(c)
  }

  function Join(ws: seq<string>): string
  {
    if |ws| == 0 then "" else if |ws| == 1 then ws[0] else ws[0] + " " + Join(ws[1..])
  }

  /** What stands between the parentheses. */
  function Inside(t: Tree): string
    decreases t, 0
  {
    match t
    case ExecTree(ws) => Join(ws)
    case RedirTree(c, f, output) => Print(c) + ((if output then ">" else "<") + f)
    case PipeTree(l, r) => Print(l) + ("|" + Print(r))
    case ListTree(l, r) => Print(l) + (";" + Print(r))
    case BackTree(c) => Print(c) + "&"
  }

  function Print(t: Tree): (r: string)
    ensures |r| == |Inside(t)| + 2
    decreases t, 1
  {
    "(" + (Inside(t) + ")")
  }

  /** c is the tree t, with words as spans of buf. */
  ghost predicate Means(buf: string, c: Cmd, t: Tree)
  {
    match t
    case ExecTree(ws) => c.Exec? && SameWords(buf, c.argv, ws)
    case RedirTree(d, f, output) =>
      && c.Redir? && Means(buf, c.cmd, d) && SpanIs(buf, c.to.file, f)
      && c.to.mode == (if output then 0x201 else 0) && c.to.fd == (if output then 1 else 0)
    case PipeTree(l, r) => c.Pipe? && Means(buf, c.left, l) && Means(buf, c.right, r)
    case ListTree(l, r) => c.List? && Means(buf, c.left, l) && Means(buf, c.right, r)
    case BackTree(d) => c.Back? && Means(buf, c.cmd, d)
  }

  ghost predicate SpanIs(buf: string, w: Span, text: string)
  {
    0 <= w.q <= w.eq <= |buf| && buf[w.q..w.eq] == text
  }

  ghost predicate SameWords(buf: string, argv: seq<Span>, ws: seq<string>)
  {
    |argv| == |ws| && forall i :: 0 <= i < |ws| ==> SpanIs(buf, argv[i], ws[i])
  }

  /** text stands at p in buf. */
  ghost predicate At(buf: string, p: int, text: string)
  {
    0 <= p && p + |text| <= |buf| && buf[p..p + |text|] == text
  }

  lemma AtBoth(buf: string, p: int, a: string, b: string)
    ensures At(buf, p, a + b) <==> At(buf, p, a) && At(buf, p + |a|, b)
  {
    if At(buf, p, a + b) {
      assert buf[p..p + |a|] == (a + b)[..|a|] == a;
      assert buf[p + |a|..p + |a| + |b|] == (a + b)[|a|..] == b;
    }
    if At(buf, p, a) && At(buf, p + |a|, b) {
      assert buf[p..p + |a + b|] == buf[p..p + |a|] + buf[p + |a|..p + |a| + |b|];
    }
  }

  lemma AtChar(buf: string, p: int, c: char)
    ensures At(buf, p, [c]) <==> 0 <= p < |buf| && buf[p] == c
  {
  }

  /** Nothing to skip at p. */
  ghost predicate Tight(buf: string, p: int)
  {
    0 <= p <= |buf| && (p < |buf| ==> !IsSpace(buf[p]))
  }

  lemma Symbol(buf: string, p: int)
    requires 0 <= p < |buf| && IsSymbol(buf[p]) && buf[p] != '>' && Tight(buf, p + 1)
    ensures NextToken(buf, p) == Token(buf[p], Span(p, p + 1), p + 1)
  {
  }

  lemma Greater(buf: string, p: int)
    requires 0 <= p < |buf| && buf[p] == '>' && Tight(buf, p + 1) && (p + 1 < |buf| ==> buf[p + 1] != '>')
    ensures NextToken(buf, p) == Token('>', Span(p, p + 1), p + 1)
  {
  }

  /** A word at p, followed by something that is not part of it. */
  lemma WordAt(buf: string, p: int, w: string)
    requires At(buf, p, w) && GoodWord(w) && (p + |w| < |buf| ==> !WordChar(buf[p + |w|]))
    ensures Tight(buf, p) && p < |buf| && !IsSymbol(buf[p])
    ensures NextToken(buf, p) == Token('a', Span(p, p + |w|), Skip(buf, p + |w|)) && SpanIs(buf, Span(p, p + |w|), w)
  {
  }

  // ---------------------------------------------------------------- exec nodes

  lemma NoRedirs(buf: string, p: int)
    requires Tight(buf, p) && (p < |buf| ==> buf[p] != '<' && buf[p] != '>')
    ensures ParseRedirs(buf, p) == Redirs([], p)
  {
  }

  /** The words ws from p on, then a closing parenthesis at e. */
  lemma {:induction false} WordsAt(buf: string, p: int, ws: seq<string>, e: int,
                                   argv: seq<Span>) returns (spans: seq<Span>)
    requires At(buf, p, Join(ws)) && e == p + |Join(ws)| < |buf| && buf[e] == ')'
    requires (forall i :: 0 <= i < |ws| ==> GoodWord(ws[i])) && |argv| + |ws| < MAXARGS && AllWords(buf, Exec(argv))
    ensures AllFiles(buf, []) && ParseArgs(buf, p, argv, []) == Ok(Exec(argv + spans), e) && SameWords(buf, spans, ws)
    ensures Tight(buf, p) && p < |buf| && buf[p] != '(' && buf[p] != '<' && buf[p] != '>'
    decreases |ws|
  {
    if |ws| == 0 {
      spans := [];
      assert argv + [] == argv;
    } else {
      var w := ws[0];
      var n := p + |w|;
      if |ws| == 1 {
        WordAt(buf, p, w);
        NoRedirs(buf, n);
      } else {
        AtBoth(buf, p, w + " ", Join(ws[1..]));
        AtBoth(buf, p, w, " ");
        AtChar(buf, n, ' ');
        assert Join(ws) == (w + " ") + Join(ws[1..]);
        WordAt(buf, p, w);
      }
      spans := WordsNext(buf, p, ws, e, argv);
    }
  }

  /** After the first word. */
  lemma {:induction false} WordsNext(buf: string, p: int, ws: seq<string>, e: int,
                                     argv: seq<Span>) returns (spans: seq<Span>)
    requires |ws| > 0 && 0 <= e < |buf| && buf[e] == ')' && e == p + |Join(ws)|
    requires (forall i :: 0 <= i < |ws| ==> GoodWord(ws[i])) && |argv| + |ws| < MAXARGS && AllWords(buf, Exec(argv))
    requires 0 <= p < |buf| && p + |ws[0]| <= |buf| && !IsSymbol(buf[p]) && Tight(buf, p)
    requires SpanIs(buf, Span(p, p + |ws[0]|), ws[0])
    requires NextToken(buf, p) == Token('a', Span(p, p + |ws[0]|), Skip(buf, p + |ws[0]|))
    requires if |ws| == 1 then p + |ws[0]| == e
      else p + |ws[0]| < |buf| && buf[p + |ws[0]|] == ' ' && At(buf, p + |ws[0]| + 1, Join(ws[1..]))
    ensures AllFiles(buf, []) && ParseArgs(buf, p, argv, []) == Ok(Exec(argv + spans), e) && SameWords(buf, spans, ws)
    decreases |ws|, 0
  {
    hide NextToken, ParseArgs, Skip, AllWords, IsWord;
    var w, n := ws[0], p + |ws[0]|;
    var next := if |ws| == 1 then e else n + 1;
    TokenWord(buf, p, argv, Span(p, n));
    var argv' := argv + [Span(p, n)];
    var rest := WordsAt(buf, next, ws[1..], e, argv');
    SkipOne(buf, n, next);
    NoRedirs(buf, next);
    ArgsStep(buf, p, argv, Span(p, n), next);
    spans := [Span(p, n)] + rest;
    assert argv' + rest == argv + spans;
  }

  lemma SkipOne(buf: string, n: int, next: int)
    requires 0 <= n <= next <= |buf| && Tight(buf, next) && (next == n || (next == n + 1 && buf[n] == ' '))
    ensures Skip(buf, n) == next
  {
  }

  lemma TokenWord(buf: string, p: int, argv: seq<Span>, w: Span)
    requires 0 <= p <= |buf| && NextToken(buf, p).kind == 'a' && NextToken(buf, p).span == w
    requires AllWords(buf, Exec(argv))
    ensures AllWords(buf, Exec(argv + [w])) && AllFiles(buf, [])
  {
  }

  lemma ArgsStep(buf: string, p: int, argv: seq<Span>, w: Span, next: int)
    requires 0 <= p < |buf| && !IsSymbol(buf[p]) && Tight(buf, p) && NextToken(buf, p) == Token('a', w, next)
    requires |argv| + 1 < MAXARGS
    requires 0 <= next <= |buf| && ParseRedirs(buf, next) == Redirs([], next) && AllFiles(buf, [])
    requires AllWords(buf, Exec(argv)) && AllWords(buf, Exec(argv + [w]))
    ensures ParseArgs(buf, p, argv, []) == ParseArgs(buf, next, argv + [w], [])
  {
    hide IsWord, NextToken, ParseRedirs, AllWords, AllFiles;
    assert Skip(buf, p) == p;
    var none: seq<Redirection> := [];
    assert none + none == none;
  }

  // ---------------------------------------------------------------- one level of the grammar at a time

  /** At e stands x, or the end of the line. */
  ghost predicate Next(buf: string, e: int, x: string)
  {
    0 <= e <= |buf| && (e < |buf| ==> buf[e] in x)
  }

  lemma NextTight(buf: string, e: int)
    requires Next(buf, e, "|;&)<>(")
    ensures Tight(buf, e) && Skip(buf, e) == e
  {
  }

  /** A pipe element followed by none of the pipe's own symbols. */
  lemma PipeEnd(buf: string, p: int, c: Cmd, e: int)
    requires 0 <= p <= |buf| && ParseExec(buf, p) == Ok(c, e) && Next(buf, e, ";&)")
    ensures ParsePipe(buf, p) == Ok(c, e)
  {
  }

  lemma PipeStep(buf: string, p: int, l: Cmd, m: int, r: Cmd, e: int)
    requires 0 <= p <= |buf| && ParseExec(buf, p) == Ok(l, m) && 0 <= m < |buf| && buf[m] == '|'
    requires Tight(buf, m + 1) && ParsePipe(buf, m + 1) == Ok(r, e)
    ensures ParsePipe(buf, p) == Ok(Pipe(l, r), e)
  {
    hide ParseExec;
    NextTight(buf, m);
    Symbol(buf, m);
  }

  lemma LineEnd(buf: string, p: int, c: Cmd, e: int)
    requires 0 <= p <= |buf| && ParsePipe(buf, p) == Ok(c, e) && Next(buf, e, ")")
    ensures ParseLine(buf, p) == Ok(c, e)
  {
  }

  lemma ListStep(buf: string, p: int, l: Cmd, m: int, r: Cmd, e: int)
    requires 0 <= p <= |buf| && ParsePipe(buf, p) == Ok(l, m) && 0 <= m < |buf| && buf[m] == ';'
    requires Tight(buf, m + 1) && ParseLine(buf, m + 1) == Ok(r, e)
    ensures ParseLine(buf, p) == Ok(List(l, r), e)
  {
    hide ParsePipe;
    NextTight(buf, m);
    Symbol(buf, m);
    assert ParseBacks(buf, m, l) == (l, m);
  }

  lemma BackStep(buf: string, p: int, c: Cmd, m: int)
    requires 0 <= p <= |buf| && ParsePipe(buf, p) == Ok(c, m) && 0 <= m < |buf| && buf[m] == '&'
    requires Next(buf, m + 1, ")")
    ensures ParseLine(buf, p) == Ok(Back(c), m + 1)
  {
    hide ParsePipe;
    NextTight(buf, m);
    NextTight(buf, m + 1);
    Symbol(buf, m);
    assert ParseBacks(buf, m, c) == (Back(c), m + 1);
  }

  lemma ParensStep(buf: string, p: int, c: Cmd, e: int)
    requires 0 <= p < |buf| && buf[p] == '(' && Tight(buf, p + 1) && ParseLine(buf, p + 1) == Ok(c, e)
    requires 0 <= e < |buf| && buf[e] == ')' && Tight(buf, e + 1)
    ensures Sees(buf, p, "(") && ParseParens(buf, p) == Ok(c, e + 1)
  {
    hide ParseLine;
    NextTight(buf, p);
    NextTight(buf, e);
    Symbol(buf, p);
    Symbol(buf, e);
  }

  lemma BlockStep(buf: string, p: int, c: Cmd, m: int, rs: seq<Redirection>, e: int)
    requires 0 <= p < |buf| && Sees(buf, p, "(") && ParseParens(buf, p) == Ok(c, m)
    requires ParseRedirs(buf, m) == Redirs(rs, e)
    ensures ParseExec(buf, p) == Ok(Wrap(c, rs), e)
  {
  }

  lemma ExecStep(buf: string, p: int, c: Cmd, e: int)
    requires 0 <= p < |buf| && Tight(buf, p) && buf[p] != '(' && buf[p] != '<' && buf[p] != '>'
    requires AllFiles(buf, []) && AllWords(buf, Exec([])) && ParseArgs(buf, p, [], []) == Ok(c, e)
    ensures ParseExec(buf, p) == Ok(c, e)
  {
  }

  /** "<" or ">" and a file name, then a closing parenthesis. */
  lemma RedirAt(buf: string, m: int, f: string, output: bool, e: int) returns (to: Redirection)
    requires 0 <= m < |buf| && buf[m] == (if output then '>' else '<') && At(buf, m + 1, f) && GoodWord(f)
    requires e == m + 1 + |f| < |buf| && buf[e] == ')'
    ensures ParseRedirs(buf, m) == Redirs([to], e) && SpanIs(buf, to.file, f)
    ensures to == Target(if output then '>' else '<', to.file)
  {
    WordAt(buf, m + 1, f);
    NextTight(buf, m);
    NextTight(buf, e);
    if output { Greater(buf, m); } else { Symbol(buf, m); }
    NoRedirs(buf, e);
    to := Target(if output then '>' else '<', Span(m + 1, e));
    RedirsStep(buf, m, to, e);
  }

  lemma RedirsStep(buf: string, m: int, to: Redirection, e: int)
    requires 0 <= m < |buf| && (buf[m] == '<' || buf[m] == '>') && 0 <= e <= |buf|
    requires ParseRedirs(buf, e) == Redirs([], e)
    requires var tok := NextToken(buf, m);
      tok.s <= |buf| && var file := NextToken(buf, tok.s);
        file.kind == 'a' && file.s == e && to == Target(tok.kind, file.span)
    ensures ParseRedirs(buf, m) == Redirs([to], e)
  {
  }

  // ---------------------------------------------------------------- whole trees

  lemma Parts(buf: string, p: int, t: Tree)
    requires At(buf, p, Print(t))
    ensures var e := p + 1 + |Inside(t)|;
      0 <= p && e < |buf| && buf[p] == '(' && At(buf, p + 1, Inside(t)) && buf[e] == ')'
  {
    AtBoth(buf, p, "(", Inside(t) + ")");
    AtBoth(buf, p + 1, Inside(t), ")");
    AtChar(buf, p, '(');
    AtChar(buf, p + 1 + |Inside(t)|, ')');
  }

  /** The parenthesised tree at p is read as t, up to its closing parenthesis. */
  lemma {:induction false} ParensAt(buf: string, p: int, t: Tree) returns (c: Cmd)
    requires At(buf, p, Print(t)) && Good(t) && Tight(buf, p + |Print(t)|)
    ensures Sees(buf, p, "(") && ParseParens(buf, p) == Ok(c, p + |Print(t)|) && Means(buf, c, t)
    decreases t, 2
  {
    hide Print, Inside, At, Means, Good;
    Parts(buf, p, t);
    var e := p + 1 + |Inside(t)|;
    c := LineAt(buf, p + 1, t, e);
    ParensStep(buf, p, c, e);
  }

  /** ParensAt in a place where no redirection follows. */
  lemma {:induction false} ExecAt(buf: string, p: int, t: Tree) returns (c: Cmd)
    requires At(buf, p, Print(t)) && Good(t) && Next(buf, p + |Print(t)|, "|;&)")
    ensures ParseExec(buf, p) == Ok(c, p + |Print(t)|) && Means(buf, c, t) && Tight(buf, p)
    decreases t, 3
  {
    hide Print, Inside, At, Means, Good;
    Parts(buf, p, t);
    NextTight(buf, p + |Print(t)|);
    c := ParensAt(buf, p, t);
    NoRedirs(buf, p + |Print(t)|);
    BlockStep(buf, p, c, p + |Print(t)|, [], p + |Print(t)|);
  }

  /** What stands inside the parentheses is read by parseline as t. */
  lemma {:induction false} LineAt(buf: string, p: int, t: Tree, e: int) returns (c: Cmd)
    requires At(buf, p, Inside(t)) && e == p + |Inside(t)| < |buf| && buf[e] == ')' && Good(t)
    ensures ParseLine(buf, p) == Ok(c, e) && Means(buf, c, t) && Tight(buf, p)
    decreases t, 1
  {
    hide Print, At;
    match t
    case ExecTree(ws) =>
      c := ExecLine(buf, p, ws, e);
    case RedirTree(d, f, output) =>
      AtBoth(buf, p, Print(d), (if output then ">" else "<") + f);
      c := RedirLine(buf, p, d, f, output, e);
    case PipeTree(l, r) =>
      AtBoth(buf, p, Print(l), "|" + Print(r));
      c := PipeLine(buf, p, l, r, e);
    case ListTree(l, r) =>
      AtBoth(buf, p, Print(l), ";" + Print(r));
      c := ListLine(buf, p, l, r, e);
    case BackTree(d) =>
      AtBoth(buf, p, Print(d), "&");
      c := BackLine(buf, p, d, e);
  }

  lemma ExecLine(buf: string, p: int, ws: seq<string>, e: int) returns (c: Cmd)
    requires At(buf, p, Join(ws)) && e == p + |Join(ws)| < |buf| && buf[e] == ')' && Good(ExecTree(ws))
    ensures ParseLine(buf, p) == Ok(c, e) && Means(buf, c, ExecTree(ws)) && Tight(buf, p)
  {
    hide ParseArgs, ParseExec, ParsePipe, ParseLine;
    var argv: seq<Span> := [];
    var spans := WordsAt(buf, p, ws, e, argv);
    assert argv + spans == spans;
    c := Exec(spans);
    ExecStep(buf, p, c, e);
    PipeEnd(buf, p, c, e);
    LineEnd(buf, p, c, e);
  }

  lemma {:induction false} RedirLine(buf: string, p: int, d: Tree, f: string, output: bool, e: int) returns (c: Cmd)
    requires At(buf, p, Print(d)) && At(buf, p + |Print(d)|, (if output then ">" else "<") + f) && Good(d)
    requires GoodWord(f)
    requires e == p + |Print(d)| + 1 + |f| < |buf| && buf[e] == ')'
    ensures ParseLine(buf, p) == Ok(c, e) && Means(buf, c, RedirTree(d, f, output)) && Tight(buf, p)
    decreases RedirTree(d, f, output), 0
  {
    hide Print, At, Good, ParseExec, ParsePipe, ParseLine, ParseParens, ParseRedirs, GoodWord;
    var m := p + |Print(d)|;
    Parts(buf, p, d);
    if output {
      AtBoth(buf, m, ">", f);
      AtChar(buf, m, '>');
    } else {
      AtBoth(buf, m, "<", f);
      AtChar(buf, m, '<');
    }
    var inner := ParensAt(buf, p, d);
    var to := RedirAt(buf, m, f, output, e);
    BlockStep(buf, p, inner, m, [to], e);
    c := Redir(inner, to);
    assert Wrap(inner, [to]) == c;
    PipeEnd(buf, p, c, e);
    LineEnd(buf, p, c, e);
  }

  lemma {:induction false} PipeLine(buf: string, p: int, l: Tree, r: Tree, e: int) returns (c: Cmd)
    requires At(buf, p, Print(l)) && At(buf, p + |Print(l)|, "|" + Print(r)) && Good(l) && Good(r)
    requires e == p + |Print(l)| + 1 + |Print(r)| < |buf| && buf[e] == ')'
    ensures ParseLine(buf, p) == Ok(c, e) && Means(buf, c, PipeTree(l, r)) && Tight(buf, p)
    decreases PipeTree(l, r), 0
  {
    hide Print, At, Good, ParseExec, ParsePipe, ParseLine;
    var m := p + |Print(l)|;
    AtBoth(buf, m, "|", Print(r));
    AtChar(buf, m, '|');
    var left := ExecAt(buf, p, l);
    var right := ExecAt(buf, m + 1, r);
    PipeEnd(buf, m + 1, right, e);
    PipeStep(buf, p, left, m, right, e);
    c := Pipe(left, right);
    LineEnd(buf, p, c, e);
  }

  lemma {:induction false} ListLine(buf: string, p: int, l: Tree, r: Tree, e: int) returns (c: Cmd)
    requires At(buf, p, Print(l)) && At(buf, p + |Print(l)|, ";" + Print(r)) && Good(l) && Good(r)
    requires e == p + |Print(l)| + 1 + |Print(r)| < |buf| && buf[e] == ')'
    ensures ParseLine(buf, p) == Ok(c, e) && Means(buf, c, ListTree(l, r)) && Tight(buf, p)
    decreases ListTree(l, r), 0
  {
    hide Print, At, Good, ParseExec, ParsePipe, ParseLine;
    var m := p + |Print(l)|;
    AtBoth(buf, m, ";", Print(r));
    AtChar(buf, m, ';');
    var left := ExecAt(buf, p, l);
    PipeEnd(buf, p, left, m);
    var right := ExecAt(buf, m + 1, r);
    PipeEnd(buf, m + 1, right, e);
    LineEnd(buf, m + 1, right, e);
    ListStep(buf, p, left, m, right, e);
    c := List(left, right);
  }

  lemma {:induction false} BackLine(buf: string, p: int, d: Tree, e: int) returns (c: Cmd)
    requires At(buf, p, Print(d)) && At(buf, p + |Print(d)|, "&") && Good(d)
    requires e == p + |Print(d)| + 1 < |buf| && buf[e] == ')'
    ensures ParseLine(buf, p) == Ok(c, e) && Means(buf, c, BackTree(d)) && Tight(buf, p)
    decreases BackTree(d), 0
  {
    hide Print, At, Good, ParseExec, ParsePipe, ParseLine;
    var m := p + |Print(d)|;
    AtChar(buf, m, '&');
    var inner := ExecAt(buf, p, d);
    PipeEnd(buf, p, inner, m);
    BackStep(buf, p, inner, m);
    c := Back(inner);
  }

  /** Every command tree, printed fully parenthesised, parses back to the same tree, and the whole
      line is used. */
  lemma RoundTrip(t: Tree) returns (c: Cmd)
    requires Good(t)
    ensures ParseCmd(Print(t)) == Ok(c, |Print(t)|) && Means(Print(t), c, t)
  {
    hide Print, Good, Means, ParseExec, ParsePipe, ParseLine;
    var buf := Print(t);
    assert buf[0..|buf|] == buf;
    c := ExecAt(buf, 0, t);
    PipeEnd(buf, 0, c, |buf|);
    LineEnd(buf, 0, c, |buf|);
  }

  /** Different trees print differently: what c means is determined by the line. */
  lemma {:induction false} MeansOnce(buf: string, c: Cmd, t: Tree, u: Tree)
    requires Means(buf, c, t) && Means(buf, c, u)
    ensures t == u
    decreases t
  {
    match t
    case ExecTree(ws) =>
      assert ws == u.words by {
        forall i | 0 <= i < |ws| ensures ws[i] == u.words[i] {
          assert SpanIs(buf, c.argv[i], ws[i]) && SpanIs(buf, c.argv[i], u.words[i]);
        }
      }
    case RedirTree(d, f, output) => MeansOnce(buf, c.cmd, d, u.cmd);
    case PipeTree(l, r) => MeansOnce(buf, c.left, l, u.left); MeansOnce(buf, c.right, r, u.right);
    case ListTree(l, r) => MeansOnce(buf, c.left, l, u.left); MeansOnce(buf, c.right, r, u.right);
    case BackTree(d) => MeansOnce(buf, c.cmd, d, u.cmd);
  }

  lemma PrintInjective(t: Tree, u: Tree)
    requires Good(t) && Good(u) && Print(t) == Print(u)
    ensures t == u
  {
    hide Print, Good, Means, ParseCmd;
    var c := RoundTrip(t);
    var d := RoundTrip(u);
    MeansOnce(Print(t), c, t, u);
  }
}
