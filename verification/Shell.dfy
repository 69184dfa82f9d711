/**
The shell's parser as it runs: methods that move a cursor along the line, each proved to
compute the function of ShellSyntax; and nulterminate, which writes into the line.
*/
module Shell {
  import opened ShellSyntax

  /** A cursor that has skipped white space sees what it saw before. */
  lemma SkippedSame(buf: string, s: int)
    requires 0 <= s <= |buf|
    ensures NextToken(buf, Skip(buf, s)) == NextToken(buf, s)
    ensures forall toks :: Sees(buf, Skip(buf, s), toks) == Sees(buf, s, toks)
  {
  }

  /** The positions nulterminate writes to. */
  ghost function WordEnds(c: Cmd): set<int>
  {
    match c
    case Exec(argv) => set i | 0 <= i < |argv| :: argv[i].eq
    case Redir(d, to) => WordEnds(d) + {to.file.eq}
    case Pipe(l, r) => WordEnds(l) + WordEnds(r)
    case List(l, r) => WordEnds(l) + WordEnds(r)
    case Back(d) => WordEnds(d)
  }

  ghost predicate HasWord(c: Cmd, w: Span)
  {
    match c
    case Exec(argv) => w in argv
    case Redir(d, to) => HasWord(d, w) || w == to.file
    case Pipe(l, r) => HasWord(l, w) || HasWord(r, w)
    case List(l, r) => HasWord(l, w) || HasWord(r, w)
    case Back(d) => HasWord(d, w)
  }

  /** The C string at q. */
  ghost function ReadFrom(b: seq<char>, q: int): string
    requires 0 <= q <= |b|
    decreases |b| - q
  {
    if q < |b| && b[q] != '\0' then [b[q]] + ReadFrom(b, q + 1) else ""
  }

  /** line with NUL at the given places. */
  ghost predicate Terminated(line: seq<char>, line': seq<char>, ends: set<int>)
  {
    |line'| == |line| && forall i :: 0 <= i < |line| ==> line'[i] == if i in ends then '\0' else line[i]
  }

  lemma {:induction false} EndsOutside(buf: string, c: Cmd, i: int)
    requires AllWords(buf, c) && i in WordEnds(c)
    ensures 0 < i <= |buf| && (i < |buf| ==> !WordChar(buf[i]))
  {
    match c
    case Exec(argv) =>
    case Redir(d, to) => if i in WordEnds(d) { EndsOutside(buf, d, i); }
    case Pipe(l, r) => if i in WordEnds(l) { EndsOutside(buf, l, i); } else { EndsOutside(buf, r, i); }
    case List(l, r) => if i in WordEnds(l) { EndsOutside(buf, l, i); } else { EndsOutside(buf, r, i); }
    case Back(d) => EndsOutside(buf, d, i);
  }

  lemma {:induction false} WordsOf(buf: string, c: Cmd, w: Span)
    requires AllWords(buf, c) && HasWord(c, w)
    ensures IsWord(buf, w) && w.eq in WordEnds(c)
  {
    match c
    case Exec(argv) =>
      var i :| 0 <= i < |argv| && argv[i] == w;
    case Redir(d, to) => if HasWord(d, w) { WordsOf(buf, d, w); }
    case Pipe(l, r) => if HasWord(l, w) { WordsOf(buf, l, w); } else { WordsOf(buf, r, w); }
    case List(l, r) => if HasWord(l, w) { WordsOf(buf, l, w); } else { WordsOf(buf, r, w); }
    case Back(d) => WordsOf(buf, d, w);
  }

  lemma {:induction false} ReadUpTo(b: seq<char>, q: int, e: int)
    requires 0 <= q <= e < |b| && b[e] == '\0' && forall i :: q <= i < e ==> b[i] != '\0'
    ensures ReadFrom(b, q) == b[q..e]
    decreases e - q
  {
    if q < e {
      ReadUpTo(b, q + 1, e);
      assert [b[q]] + b[q + 1..e] == b[q..e];
    }
  }

  /** After nulterminate every stored word reads as exactly its original token: no terminator lands
      inside a word, whatever the line was. */
  lemma WordsReadBack(buf: string, c: Cmd, line': seq<char>, w: Span)
    requires AllWords(buf, c) && HasWord(c, w) && '\0' !in buf
    requires Terminated(buf + ['\0'], line', WordEnds(c))
    ensures IsWord(buf, w) && |line'| == |buf| + 1 && ReadFrom(line', w.q) == buf[w.q..w.eq]
  {
    hide AllWords, HasWord, WordEnds, WordChar;
    WordsOf(buf, c, w);
    var line := buf + ['\0'];
    forall i | w.q <= i < w.eq ensures line'[i] == buf[i] && line'[i] != '\0' {
      if i in WordEnds(c) { EndsOutside(buf, c, i); }
      assert line[i] == buf[i] && buf[i] in buf;
    }
    assert line[|buf|] == '\0';
    ReadUpTo(line', w.q, w.eq);
    assert line'[w.q..w.eq] == buf[w.q..w.eq];
  }

  class Parser {
    const line: array<char>    // the line and its NUL
    const es: int              // where the NUL is
    var s: int                 // the cursor

    ghost predicate Valid()
      reads this, line
    {
      0 <= s <= es == line.Length - 1 && line[es] == '\0' && '\0' !in line[..es]
    }

    ghost function Buf(): string
      requires Valid()
      reads this, line
    {
      line[..es]
    }

    constructor (text: array<char>)
      requires text.Length > 0 && text[text.Length - 1] == '\0' && '\0' !in text[..text.Length - 1]
      ensures Valid() && line == text && s == 0
    {
      line, es, s := text, text.Length - 1, 0;
    }

    method SkipSpace()
      requires Valid()
      modifies this`s
      ensures Valid() && s == Skip(Buf(), old(s))
    {
      while s < es && IsSpace(line[s])
        invariant Valid() && Skip(Buf(), s) == Skip(Buf(), old(s))
      {
        s := s + 1;
      }
    }

    /** The switch in gettoken, at a character that is not white space. */
    method Lex() returns (kind: char)
      requires Valid() && s < es && !IsSpace(Buf()[s])
      modifies this`s
      ensures Valid() && kind == TokenKind(Buf(), old(s)) && s == TokenEnd(Buf(), old(s))
    {
      var q := s;
      kind := line[s];
      if kind == '|' || kind == '(' || kind == ')' || kind == ';' || kind == '&' || kind == '<' {
        s := s + 1;
      } else if kind == '>' {
        s := s + 1;
        if line[s] == '>' {
          kind := '+';
          s := s + 1;
        }
      } else {
        kind := 'a';
        while s < es && !IsSpace(line[s]) && !IsSymbol(line[s])
          invariant Valid() && WordEnd(Buf(), s) == WordEnd(Buf(), q)
        {
          s := s + 1;
        }
      }
    }

    method Gettoken() returns (kind: char, w: Span)
      requires Valid()
      modifies this`s
      ensures Valid() && Token(kind, w, s) == NextToken(Buf(), old(s))
    {
      hide Skip, TokenEnd, TokenKind, IsWord;
      SkipSpace();
      var q := s;
      if s == es {
        kind := '\0';
      } else {
        kind := Lex();
      }
      w := Span(q, s);
      SkipSpace();
    }

    method Peek(toks: string) returns (r: bool)
      requires Valid()
      modifies this`s
      ensures Valid() && s == Skip(Buf(), old(s)) && r == Sees(Buf(), old(s), toks)
    {
      SkipSpace();
      r := s < es && line[s] in toks;
    }

    method Parseredirs() returns (r: ParsedRedirs)
      requires Valid()
      modifies this`s
      ensures Valid() && r == ParseRedirs(Buf(), old(s)) && (r.Redirs? ==> s == r.s)
    {
      var rs := [];
      var more := Peek("<>");
      SkippedSame(Buf(), old(s));
      while more
        invariant Valid() && more == Sees(Buf(), s, "<>") && Skip(Buf(), s) == s
        invariant ParseRedirs(Buf(), old(s)) == Prepend(rs, ParseRedirs(Buf(), s))
        decreases es - s
      {
        ghost var s0 := s;
        var tok, _ := Gettoken();
        var kind, file := Gettoken();
        if kind != 'a' {
          return NoFile;
        }
        PrependOne(rs, Target(tok, file), ParseRedirs(Buf(), s));
        rs := rs + [Target(tok, file)];
        ghost var s1 := s;
        more := Peek("<>");
        SkippedSame(Buf(), s1);
        RedirsSkip(Buf(), s1);
      }
      assert rs + [] == rs;
      r := Redirs(rs, s);
    }

    /** parseexec; the node is built once its words are known. */
    method Parseexec() returns (r: Parsed)
      requires Valid()
      modifies this`s
      ensures Valid() && r == ParseExec(Buf(), old(s)) && (r.Ok? ==> s == r.s)
      decreases es - s, 2
    {
      hide IsWord, AllWords, AllFiles, NextToken, ParseLine;
      var block := Peek("(");
      SkippedSame(Buf(), old(s));
      RedirsSkip(Buf(), old(s));
      BlockSkip(Buf(), old(s));
      if block {
        r := Parseblock();
        return;
      }
      var argv := [];
      var redirs := Parseredirs();
      if redirs.NoFile? {
        return Panic("missing file for redirection");
      }
      var rs := redirs.rs;
      NoArgs(Buf());
      r := ParseWords(argv, rs);
    }

    /** The loop of parseexec. */
    method ParseWords(argv0: seq<Span>, rs0: seq<Redirection>) returns (r: Parsed)
      requires Valid() && AllFiles(Buf(), rs0) && AllWords(Buf(), Exec(argv0))
      modifies this`s
      ensures Valid() && r == ParseArgs(Buf(), old(s), argv0, rs0) && (r.Ok? ==> s == r.s)
    {
      hide IsWord, NextToken;
      var argv, rs := argv0, rs0;
      var done := Peek("|)&;");
      SkippedSame(Buf(), old(s));
      ArgsSkip(Buf(), old(s), argv, rs);
      while !done
        invariant Valid() && done == Sees(Buf(), s, "|)&;") && Skip(Buf(), s) == s
        invariant AllFiles(Buf(), rs) && AllWords(Buf(), Exec(argv))
        invariant ParseArgs(Buf(), old(s), argv0, rs0) == ParseArgs(Buf(), s, argv, rs)
        decreases es - s
      {
        ghost var s0 := s;
        var tok, w := Gettoken();
        if tok == '\0' {
          return Ok(Wrap(Exec(argv), rs), s);
        }
        if tok != 'a' {
          return Panic("syntax");
        }
        ghost var argv1, rs1 := argv, rs;
        argv := argv + [w];
        if |argv| >= MAXARGS {
          return Panic("too many args");
        }
        var more := Parseredirs();
        if more.NoFile? {
          return Panic("missing file for redirection");
        }
        rs := rs + more.rs;
        MoreWords(Buf(), argv1, w, rs1, more.rs);
        ghost var s1 := s;
        done := Peek("|)&;");
        SkippedSame(Buf(), s1);
        ArgsSkip(Buf(), s1, argv, rs);
      }
      r := Ok(Wrap(Exec(argv), rs), s);
    }

    method Parseblock() returns (r: Parsed)
      requires Valid() && Sees(Buf(), s, "(")
      modifies this`s
      ensures Valid() && r == ParseBlock(Buf(), old(s)) && (r.Ok? ==> s == r.s)
      decreases es - s, 1
    {
      hide IsWord, AllWords, AllFiles, ParseLine;
      var _, _ := Gettoken();
      r := Parseline();
      if r.Panic? {
        return;
      }
      ghost var s1 := s;
      var close := Peek(")");
      SkippedSame(Buf(), s1);
      if !close {
        return Panic("syntax - missing )");
      }
      var _, _ := Gettoken();
      var redirs := Parseredirs();
      if redirs.NoFile? {
        return Panic("missing file for redirection");
      }
      r := Ok(Wrap(r.cmd, redirs.rs), s);
    }

    method Parsepipe() returns (r: Parsed)
      requires Valid()
      modifies this`s
      ensures Valid() && r == ParsePipe(Buf(), old(s)) && (r.Ok? ==> s == r.s)
      decreases es - s, 3
    {
      hide IsWord, AllWords, AllFiles, ParseExec;
      r := Parseexec();
      if r.Panic? {
        return;
      }
      var cmd := r.cmd;
      ghost var s1 := s;
      var more := Peek("|");
      SkippedSame(Buf(), s1);
      if more {
        var _, _ := Gettoken();
        r := Parsepipe();
        if r.Ok? {
          r := Ok(Pipe(cmd, r.cmd), s);
        }
        return;
      }
      r := Ok(cmd, s);
    }

    method Parseline() returns (r: Parsed)
      requires Valid()
      modifies this`s
      ensures Valid() && r == ParseLine(Buf(), old(s)) && (r.Ok? ==> s == r.s)
      decreases es - s, 4
    {
      hide IsWord, AllWords, AllFiles, ParsePipe;
      r := Parsepipe();
      if r.Panic? {
        return;
      }
      var cmd := r.cmd;
      ghost var s1 := s;
      var back := Peek("&");
      SkippedSame(Buf(), s1);
      BacksSkip(Buf(), s1, cmd);
      ghost var goal := ParseBacks(Buf(), s1, cmd);
      while back
        invariant Valid() && s >= s1 && back == Sees(Buf(), s, "&") && Skip(Buf(), s) == s
        invariant goal == ParseBacks(Buf(), s, cmd)
        decreases es - s
      {
        var _, _ := Gettoken();
        cmd := Back(cmd);
        ghost var s2 := s;
        back := Peek("&");
        SkippedSame(Buf(), s2);
        BacksSkip(Buf(), s2, cmd);
      }
      var list := Peek(";");
      SkippedSame(Buf(), goal.1);
      if list {
        var _, _ := Gettoken();
        r := Parseline();
        if r.Ok? {
          r := Ok(List(cmd, r.cmd), s);
        }
        return;
      }
      r := Ok(cmd, s);
    }

    /** NUL at the end of every word of c. */
    method Nulterminate(c: Cmd)
      requires forall i :: i in WordEnds(c) ==> 0 <= i < line.Length
      modifies line
      ensures Terminated(old(line[..]), line[..], WordEnds(c))
      decreases c
    {
      match c {
        case Exec(argv) =>
          var i := 0;
          while i < |argv|
            invariant 0 <= i <= |argv|
            invariant Terminated(old(line[..]), line[..], set k | 0 <= k < i :: argv[k].eq)
          {
            assert argv[i].eq in WordEnds(c);
            line[argv[i].eq] := '\0';
            i := i + 1;
          }
        case Redir(d, to) =>
          PartEnds(c, WordEnds(d) + {to.file.eq}, line.Length);
          Nulterminate(d);
          ghost var mid := line[..];
          assert to.file.eq in WordEnds(d) + {to.file.eq};
          line[to.file.eq] := '\0';
          TerminatedBoth(old(line[..]), mid, line[..], WordEnds(d), {to.file.eq});
        case Pipe(l, r) =>
          PartEnds(c, WordEnds(l) + WordEnds(r), line.Length);
          Nulterminate(l);
          ghost var mid := line[..];
          Nulterminate(r);
          TerminatedBoth(old(line[..]), mid, line[..], WordEnds(l), WordEnds(r));
        case List(l, r) =>
          PartEnds(c, WordEnds(l) + WordEnds(r), line.Length);
          Nulterminate(l);
          ghost var mid := line[..];
          Nulterminate(r);
          TerminatedBoth(old(line[..]), mid, line[..], WordEnds(l), WordEnds(r));
        case Back(d) =>
          PartEnds(c, WordEnds(d), line.Length);
          Nulterminate(d);
      }
    }

    /** parsecmd: the tree, and every word of it readable as a C string in the line. */
    method Parsecmd() returns (r: Parsed)
      requires Valid() && s == 0
      modifies this`s, line
      ensures r == ParseCmd(old(line[..es]))
      ensures r.Panic? ==> line[..] == old(line[..])
      ensures r.Ok? ==> Terminated(old(line[..]), line[..], WordEnds(r.cmd))
      ensures r.Ok? ==> forall w :: HasWord(r.cmd, w) ==>
        0 <= w.q <= w.eq <= es < line.Length && ReadFrom(line[..], w.q) == old(line[..es])[w.q..w.eq]
    {
      hide WordEnds, HasWord, AllWords, ParseLine, Terminated;
      ghost var buf := Buf();
      r := Parseline();
      if r.Panic? {
        return;
      }
      ghost var s1 := s;
      var _ := Peek("");
      if s != es {
        return Panic("syntax");
      }
      forall i | i in WordEnds(r.cmd) ensures 0 <= i < line.Length {
        EndsOutside(buf, r.cmd, i);
      }
      Nulterminate(r.cmd);
      assert old(line[..]) == buf + ['\0'];
      forall w | HasWord(r.cmd, w)
        ensures 0 <= w.q <= w.eq <= es && ReadFrom(line[..], w.q) == buf[w.q..w.eq]
      {
        WordsReadBack(buf, r.cmd, line[..], w);
      }
      r := Ok(r.cmd, s);
    }
  }

  lemma PartEnds(c: Cmd, ends: set<int>, n: int)
    requires WordEnds(c) == ends && forall i :: i in WordEnds(c) ==> 0 <= i < n
    ensures forall i :: i in ends ==> 0 <= i < n
  {
  }

  lemma TerminatedBoth(a: seq<char>, b: seq<char>, c: seq<char>, e1: set<int>, e2: set<int>)
    requires Terminated(a, b, e1) && Terminated(b, c, e2)
    ensures Terminated(a, c, e1 + e2)
  {
  }

  lemma NoArgs(buf: string)
    ensures AllWords(buf, Exec([]))
  {
  }

  lemma MoreWords(buf: string, argv: seq<Span>, w: Span, rs: seq<Redirection>, more: seq<Redirection>)
    requires AllWords(buf, Exec(argv)) && IsWord(buf, w) && AllFiles(buf, rs) && AllFiles(buf, more)
    ensures AllWords(buf, Exec(argv + [w])) && AllFiles(buf, rs + more)
  {
  }

  lemma ArgsSkip(buf: string, s: int, argv: seq<Span>, rs: seq<Redirection>)
    requires 0 <= s <= |buf| && AllFiles(buf, rs) && AllWords(buf, Exec(argv))
    ensures ParseArgs(buf, Skip(buf, s), argv, rs) == ParseArgs(buf, s, argv, rs)
  {
  }

  lemma BacksSkip(buf: string, s: int, c: Cmd)
    requires 0 <= s <= |buf|
    ensures ParseBacks(buf, Skip(buf, s), c) == ParseBacks(buf, s, c)
  {
  }

  lemma BlockSkip(buf: string, s: int)
    requires 0 <= s <= |buf|
    ensures Sees(buf, s, "(") ==> Sees(buf, Skip(buf, s), "(") && ParseBlock(buf, Skip(buf, s)) == ParseBlock(buf, s)
  {
  }

  function Prepend(rs: seq<Redirection>, r: ParsedRedirs): ParsedRedirs
  {
    match r
    case NoFile => NoFile
    case Redirs(more, s) => Redirs(rs + more, s)
  }

  lemma PrependOne(rs: seq<Redirection>, x: Redirection, r: ParsedRedirs)
    ensures Prepend(rs, Prepend([x], r)) == Prepend(rs + [x], r)
  {
  }

  lemma RedirsSkip(buf: string, s: int)
    requires 0 <= s <= |buf|
    ensures ParseRedirs(buf, Skip(buf, s)) == ParseRedirs(buf, s)
  {
  }
}
