/** gettoken, peek, the recursive parser and nulterminate (user/sh.c) over the characters
    of a line. Words are ranges of positions, as the q and eq pointers are. */
module ShellParser {
  import opened Basics
  import opened ShellSyntax
  import opened ShellLexer

  datatype Range = Range(q: int, e: int)

  /** The range holds one whole word of the line. */
  ghost predicate GoodRange(s: string, r: Range) {
    0 <= r.q < r.e <= |s| && (forall i | r.q <= i < r.e :: IsWordChar(s[i])) && (r.e < |s| ==> !IsWordChar(s[r.e]))
  }

  /** What gettoken returns: 0 at the end, 'a' for a word, '+' for ">>", else the symbol. */
  function Code(ts: seq<Token>): char {
    if ts == [] then '\0' else if ts[0].Word? then 'a' else if ts[0].Append? then '+' else Text(ts[0])[0]
  }

  lemma SkipStep(s: string, p: int)
    requires 0 <= p <= |s|
    ensures p < |s| && IsSpace(s[p]) ==> Skip(s[p..]) == Skip(s[p + 1..]) && Tokens(s[p..]) == Tokens(s[p + 1..])
    ensures p == |s| || !IsSpace(s[p]) ==> Skip(s[p..]) == s[p..]
  {
    if p < |s| { assert s[p..][1..] == s[p + 1..] && s[p..][0] == s[p]; }
  }

  /** The loops that step over white space. */
  method SkipSpace(s: string, p: int) returns (p1: int)
    requires 0 <= p <= |s|
    ensures p <= p1 <= |s| && (p1 < |s| ==> !IsSpace(s[p1]))
    ensures Skip(s[p..]) == s[p1..] && Tokens(s[p..]) == Tokens(s[p1..])
  {
    p1 := p;
    while p1 < |s| && IsSpace(s[p1])
      invariant p <= p1 <= |s| && Skip(s[p..]) == Skip(s[p1..]) && Tokens(s[p..]) == Tokens(s[p1..])
    {
      SkipStep(s, p1);
      p1 := p1 + 1;
    }
    SkipStep(s, p1);
  }

  /** The first token of a line that starts with no white space. */
  lemma TokenAt(s: string, p: int)
    requires 0 <= p < |s| && !IsSpace(s[p])
    ensures s[p] == '>' && p + 1 < |s| && s[p + 1] == '>' ==> Tokens(s[p..]) == [Append] + Tokens(s[p + 2..])
    ensures IsSymbol(s[p]) && !(s[p] == '>' && p + 1 < |s| && s[p + 1] == '>') ==>
      Tokens(s[p..]) == [SymbolToken(s[p])] + Tokens(s[p + 1..])
    ensures IsWordChar(s[p]) ==>
      var n := WordLength(s[p..]);
      0 < n && p + n <= |s| && Tokens(s[p..]) == [Word(s[p..p + n])] + Tokens(s[p + n..])
  {
    var r := s[p..];
    assert r[0] == s[p] && Skip(r) == r;
    if p + 1 < |s| { assert r[1] == s[p + 1] && r[1..] == s[p + 1..]; }
    if p + 2 <= |s| { assert r[2..] == s[p + 2..]; }
    if IsWordChar(s[p]) {
      var n := WordLength(r);
      assert r[..n] == s[p..p + n] && r[n..] == s[p + n..];
    } else {
      assert r[1..] == s[p + 1..];
    }
  }

  /** The loop of gettoken that steps over a word. */
  method WordEnd(s: string, q: int) returns (e: int)
    requires 0 <= q < |s| && IsWordChar(s[q])
    ensures GoodRange(s, Range(q, e)) && WordLength(s[q..]) == e - q
  {
    e := q;
    while e < |s| && !IsSpace(s[e]) && !IsSymbol(s[e])
      invariant q <= e <= |s| && forall i | q <= i < e :: IsWordChar(s[i])
    {
      e := e + 1;
    }
    WordEndsAt(s, q, e);
  }

  /** gettoken: the first token at p, and the position after it and white space. */
  method GetToken(s: string, p: int) returns (tok: char, r: Range, p1: int)
    requires 0 <= p <= |s|
    ensures p <= p1 <= |s| && tok == Code(Tokens(s[p..]))
    ensures Tokens(s[p..]) == [] ==> Tokens(s[p1..]) == []
    ensures Tokens(s[p..]) != [] ==> p < p1 && Tokens(s[p1..]) == Tokens(s[p..])[1..]
    ensures Tokens(s[p..]) != [] && Tokens(s[p..])[0].Word? ==>
      GoodRange(s, r) && Tokens(s[p..])[0] == Word(s[r.q..r.e])
  {
    hide Tokens, WordLength;
    var q := SkipSpace(s, p);
    var e := q;
    EndOfLine(s);
    if q == |s| {
      tok := '\0';
    } else {
      TokenAt(s, q);
      tok := s[q];
      if IsSymbol(s[q]) {
        e := q + 1;
        if s[q] == '>' && e < |s| && s[e] == '>' {
          tok := '+';
          e := e + 1;
        }
      } else {
        tok := 'a';
        e := WordEnd(s, q);
      }
    }
    r := Range(q, e);
    p1 := SkipSpace(s, e);
  }

  lemma WordEndsAt(s: string, q: int, e: int)
    requires 0 <= q <= e <= |s| && (forall i | q <= i < e :: IsWordChar(s[i])) && (e < |s| ==> !IsWordChar(s[e]))
    ensures WordLength(s[q..]) == e - q
  {
    assert s[q..] == s[q..e] + s[e..];
    WordLengthOf(s[q..e], s[e..]);
  }

  lemma EndOfLine(s: string)
    ensures Tokens(s[|s|..]) == []
  {}

  /** peek: whether the next character after white space is one of toks. */
  method Peek(s: string, p: int, toks: string) returns (b: bool, p1: int)
    requires 0 <= p <= |s|
    ensures p <= p1 <= |s| && Tokens(s[p1..]) == Tokens(s[p..]) && (p1 < |s| ==> !IsSpace(s[p1]))
    ensures b <==> StartsWith(Tokens(s[p..]), toks)
  {
    p1 := SkipSpace(s, p);
    b := p1 < |s| && s[p1] in toks;
    if p1 < |s| { TokenAt(s, p1); }
  }

  /** The first token starts with one of these characters. */
  ghost predicate StartsWith(ts: seq<Token>, toks: string) {
    ts != [] && Text(ts[0]) != "" && Text(ts[0])[0] in toks
  }

  /** Words have no symbol in front, so a peek tells the kind of the next token. */
  lemma PeekKinds(s: string)
    ensures
      var ts := Tokens(s);
      && (StartsWith(ts, "<>") <==> ts != [] && IsRedir(ts[0]))
      && (StartsWith(ts, "&") <==> ts != [] && ts[0].Amp?)
      && (StartsWith(ts, ";") <==> ts != [] && ts[0].Semi?)
      && (StartsWith(ts, "|") <==> ts != [] && ts[0].Bar?)
      && (StartsWith(ts, "(") <==> ts != [] && ts[0].LPar?)
      && (StartsWith(ts, ")") <==> ts != [] && ts[0].RPar?)
      && (StartsWith(ts, "|)&;") <==> ts != [] && EndsArgs(ts))
      && (ts != [] && ts[0].Word? ==> IsWord(ts[0].text))
  {
    var r := Skip(s);
    if r != "" && IsWordChar(r[0]) {
      var n := WordLength(r);
      assert Tokens(s)[0] == Word(r[..n]) && r[..n][0] == r[0];
    }
  }

  // ---- trees of ranges and their text ----

  ghost function WordText(s: string, r: Range): string {
    if 0 <= r.q <= r.e <= |s| then s[r.q..r.e] else ""
  }

  ghost function Texts(s: string, rs: seq<Range>): (t: seq<string>)
    ensures |t| == |rs| && forall i | 0 <= i < |rs| :: t[i] == WordText(s, rs[i])
  {
    seq(|rs|, i requires 0 <= i < |rs| => WordText(s, rs[i]))
  }

  ghost function RedirTexts(s: string, rs: seq<Redirection<Range>>): (t: seq<Redirection<string>>)
    ensures |t| == |rs| && forall i | 0 <= i < |rs| :: t[i] == Redirection(WordText(s, rs[i].file), rs[i].dir)
  {
    seq(|rs|, i requires 0 <= i < |rs| => Redirection(WordText(s, rs[i].file), rs[i].dir))
  }

  ghost function TextOf(s: string, c: Cmd<Range>): Cmd<string> {
    match c
    case Exec(argv) => Exec(Texts(s, argv))
    case Redir(c1, file, dir) => Redir(TextOf(s, c1), WordText(s, file), dir)
    case Pipe(l, r) => Pipe(TextOf(s, l), TextOf(s, r))
    case Back(c1) => Back(TextOf(s, c1))
    case List(l, r) => List(TextOf(s, l), TextOf(s, r))
  }

  ghost predicate GoodCmd(s: string, c: Cmd<Range>) {
    match c
    case Exec(argv) => forall i | 0 <= i < |argv| :: GoodRange(s, argv[i])
    case Redir(c1, file, dir) => GoodCmd(s, c1) && GoodRange(s, file)
    case Pipe(l, r) => GoodCmd(s, l) && GoodCmd(s, r)
    case Back(c1) => GoodCmd(s, c1)
    case List(l, r) => GoodCmd(s, l) && GoodCmd(s, r)
  }

  ghost predicate GoodRedirs(s: string, rs: seq<Redirection<Range>>) {
    forall i | 0 <= i < |rs| :: GoodRange(s, rs[i].file)
  }

  lemma {:induction false} WrapText(s: string, c: Cmd<Range>, rs: seq<Redirection<Range>>)
    ensures TextOf(s, Wrap(c, rs)) == Wrap(TextOf(s, c), RedirTexts(s, rs))
    ensures GoodCmd(s, c) && GoodRedirs(s, rs) ==> GoodCmd(s, Wrap(c, rs))
    decreases |rs|
  {
    if rs == [] {
      assert RedirTexts(s, rs) == [];
    } else {
      var n := |rs| - 1;
      WrapText(s, c, rs[..n]);
      assert RedirTexts(s, rs)[..n] == RedirTexts(s, rs[..n]);
    }
  }

  /** The outcome of a parser method is that of the function on the tokens from p on. */
  ghost predicate Agrees(s: string, r: Option<Parsed>, ok: bool, c: Cmd<Range>, p: int, p1: int) {
    && (ok <==> r.Some?)
    && (ok ==> 0 <= p <= p1 <= |s| && GoodCmd(s, c) && r.value == Parsed(TextOf(s, c), Tokens(s[p1..])))
  }

  // ---- the parser ----

  /** parseredirs, collecting the redirections it wraps around the command. */
  method ParseRedirections(s: string, p: int, rs: seq<Redirection<Range>>)
    returns (ok: bool, rs1: seq<Redirection<Range>>, p1: int)
    requires 0 <= p <= |s| && GoodRedirs(s, rs)
    ensures ok <==> ParseRedirs(Tokens(s[p..]), RedirTexts(s, rs)).Some?
    ensures ok ==> p <= p1 <= |s| && GoodRedirs(s, rs1)
    ensures ok ==> ParseRedirs(Tokens(s[p..]), RedirTexts(s, rs)).value == Redirs(RedirTexts(s, rs1), Tokens(s[p1..]))
  {
    hide Tokens;
    rs1, p1 := rs, p;
    ghost var goal := ParseRedirs(Tokens(s[p..]), RedirTexts(s, rs));
    while true
      invariant p <= p1 <= |s| && GoodRedirs(s, rs1)
      invariant goal == ParseRedirs(Tokens(s[p1..]), RedirTexts(s, rs1))
      decreases |s| - p1
    {
      var b;
      PeekKinds(s[p1..]);
      b, p1 := Peek(s, p1, "<>");
      if !b {
        break;
      }
      ghost var ts := Tokens(s[p1..]);
      var tok, _, p2 := GetToken(s, p1);
      var word, r, p3 := GetToken(s, p2);
      if word != 'a' {
        NotWord(ts[1..]);
        return false, rs1, p1;
      }
      NotWord(ts[1..]);
      RedirTextsMore(s, rs1, Redirection(r, if tok == '<' then Input else Output));
      assert ts[1..][1..] == ts[2..];
      rs1 := rs1 + [Redirection(r, if tok == '<' then Input else Output)];
      p1 := p3;
    }
    ok := true;
  }

  lemma NotWord(ts: seq<Token>)
    ensures Code(ts) == 'a' <==> ts != [] && ts[0].Word?
  {}

  lemma RedirTextsMore(s: string, rs: seq<Redirection<Range>>, r: Redirection<Range>)
    ensures RedirTexts(s, rs + [r]) == RedirTexts(s, rs) + [Redirection(WordText(s, r.file), r.dir)]
  {}

  /** parseexec. The words go into the command while redirections are wrapped around it. */
  method ParseExecAt(s: string, p: int) returns (ok: bool, c: Cmd<Range>, p1: int)
    requires 0 <= p <= |s|
    ensures Agrees(s, ParseExec(Tokens(s[p..])), ok, c, p, p1)
    decreases |s| - p, 1
  {
    hide Tokens, ParseLine, ParseArgs, ParseRedirs, Wrap, TextOf, GoodCmd;
    c := Exec([]);
    PeekKinds(s[p..]);
    var b;
    b, p1 := Peek(s, p, "(");
    if b {
      ok, c, p1 := ParseBlockAt(s, p1);
      return;
    }
    var rs;
    assert RedirTexts(s, []) == [];
    ok, rs, p1 := ParseRedirections(s, p1, []);
    if !ok {
      return;
    }
    var argv;
    ok, argv, rs, p1 := ParseArguments(s, p1, rs);
    if ok {
      c := Wrap(Exec(argv), rs);
      WrapText(s, Exec(argv), rs);
      ExecText(s, argv);
    }
  }

  lemma ExecText(s: string, argv: seq<Range>)
    ensures TextOf(s, Exec(argv)) == Exec(Texts(s, argv))
    ensures GoodCmd(s, Exec(argv)) <==> forall i | 0 <= i < |argv| :: GoodRange(s, argv[i])
  {}

  /** The loop of parseexec. */
  method ParseArguments(s: string, p: int, rs: seq<Redirection<Range>>)
    returns (ok: bool, argv: seq<Range>, rs1: seq<Redirection<Range>>, p1: int)
    requires 0 <= p <= |s| && GoodRedirs(s, rs)
    ensures ok <==> ParseArgs(Tokens(s[p..]), [], RedirTexts(s, rs)).Some?
    ensures ok ==> p <= p1 <= |s| && GoodRedirs(s, rs1) && forall i | 0 <= i < |argv| :: GoodRange(s, argv[i])
    ensures ok ==>
      ParseArgs(Tokens(s[p..]), [], RedirTexts(s, rs)).value == Args(Texts(s, argv), RedirTexts(s, rs1), Tokens(s[p1..]))
  {
    hide Tokens, ParseRedirs, RedirTexts;
    argv, rs1, p1 := [], rs, p;
    ghost var goal := ParseArgs(Tokens(s[p..]), [], RedirTexts(s, rs));
    assert Texts(s, argv) == [];
    while true
      invariant p <= p1 <= |s| && GoodRedirs(s, rs1) && |argv| < MAXARGS
      invariant forall i | 0 <= i < |argv| :: GoodRange(s, argv[i])
      invariant goal == ParseArgs(Tokens(s[p1..]), Texts(s, argv), RedirTexts(s, rs1))
      decreases |s| - p1
    {
      PeekKinds(s[p1..]);
      var b;
      b, p1 := Peek(s, p1, "|)&;");
      if b {
        break;
      }
      ghost var ts := Tokens(s[p1..]);
      NotWord(ts);
      var tok, r, p2 := GetToken(s, p1);
      if tok == '\0' {
        CodeZero(ts);
        break;
      }
      if tok != 'a' {
        CodeZero(ts);
        return false, argv, rs1, p1;
      }
      ghost var more := Texts(s, argv);
      argv := argv + [r];
      assert Texts(s, argv) == more + [WordText(s, r)];
      if |argv| >= MAXARGS {
        return false, argv, rs1, p1;
      }
      ok, rs1, p1 := ParseRedirections(s, p2, rs1);
      if !ok {
        return;
      }
    }
    ok := true;
  }

  lemma CodeZero(ts: seq<Token>)
    requires ts != [] && ts[0].Word? ==> IsWord(ts[0].text)
    ensures Code(ts) == '\0' <==> ts == []
  {}

  /** parseblock, at an opening parenthesis. */
  method ParseBlockAt(s: string, p: int) returns (ok: bool, c: Cmd<Range>, p1: int)
    requires 0 <= p <= |s| && Tokens(s[p..]) != [] && Tokens(s[p..])[0].LPar?
    ensures Agrees(s, ParseExec(Tokens(s[p..])), ok, c, p, p1)
    decreases |s| - p, 0
  {
    hide Tokens, ParseLine, ParseArgs, ParseRedirs, Wrap, TextOf, GoodCmd;
    var _, _, p2 := GetToken(s, p);
    ok, c, p1 := ParseLineAt(s, p2);
    if !ok {
      return;
    }
    PeekKinds(s[p1..]);
    var b;
    b, p1 := Peek(s, p1, ")");
    if !b {
      return false, c, p1;
    }
    var _, _, p3 := GetToken(s, p1);
    var rs;
    assert RedirTexts(s, []) == [];
    ok, rs, p1 := ParseRedirections(s, p3, []);
    if ok {
      WrapText(s, c, rs);
      c := Wrap(c, rs);
    }
  }

  /** parsepipe. */
  method ParsePipeAt(s: string, p: int) returns (ok: bool, c: Cmd<Range>, p1: int)
    requires 0 <= p <= |s|
    ensures Agrees(s, ParsePipe(Tokens(s[p..])), ok, c, p, p1)
    decreases |s| - p, 2
  {
    hide Tokens, ParseExec;
    ok, c, p1 := ParseExecAt(s, p);
    if !ok {
      return;
    }
    PeekKinds(s[p1..]);
    var b;
    b, p1 := Peek(s, p1, "|");
    if b {
      var _, _, p2 := GetToken(s, p1);
      var right;
      ok, right, p1 := ParsePipeAt(s, p2);
      c := Pipe(c, right);
    }
  }

  /** parseline. */
  method ParseLineAt(s: string, p: int) returns (ok: bool, c: Cmd<Range>, p1: int)
    requires 0 <= p <= |s|
    ensures Agrees(s, ParseLine(Tokens(s[p..])), ok, c, p, p1)
    decreases |s| - p, 3
  {
    hide Tokens, ParsePipe;
    ok, c, p1 := ParsePipeAt(s, p);
    if !ok {
      return;
    }
    ghost var goal := Amps(TextOf(s, c), Tokens(s[p1..]));
    while true
      invariant p <= p1 <= |s| && GoodCmd(s, c) && goal == Amps(TextOf(s, c), Tokens(s[p1..]))
      decreases |s| - p1
    {
      PeekKinds(s[p1..]);
      var b;
      b, p1 := Peek(s, p1, "&");
      if !b {
        break;
      }
      var _, _, p2 := GetToken(s, p1);
      p1 := p2;
      c := Back(c);
    }
    PeekKinds(s[p1..]);
    var b;
    b, p1 := Peek(s, p1, ";");
    if b {
      var _, _, p2 := GetToken(s, p1);
      var right;
      ok, right, p1 := ParseLineAt(s, p2);
      c := List(c, right);
    }
  }

  // ---- nulterminate ----

  /** Some word of the tree ends at position i. */
  ghost predicate EndsAt(c: Cmd<Range>, i: int) {
    match c
    case Exec(argv) => exists j | 0 <= j < |argv| :: argv[j].e == i
    case Redir(c1, file, dir) => EndsAt(c1, i) || file.e == i
    case Pipe(l, r) => EndsAt(l, i) || EndsAt(r, i)
    case Back(c1) => EndsAt(c1, i)
    case List(l, r) => EndsAt(l, i) || EndsAt(r, i)
  }

  /** r is a word or file name of the tree. */
  ghost predicate HasWord(c: Cmd<Range>, r: Range) {
    match c
    case Exec(argv) => r in argv
    case Redir(c1, file, dir) => HasWord(c1, r) || r == file
    case Pipe(l, m) => HasWord(l, r) || HasWord(m, r)
    case Back(c1) => HasWord(c1, r)
    case List(l, m) => HasWord(l, r) || HasWord(m, r)
  }

  /** nulterminate: a NUL at the end of every word, and nothing else changed. */
  method NulTerminate(c: Cmd<Range>, buf: array<char>, ghost s: string)
    requires GoodCmd(s, c) && |s| < buf.Length
    modifies buf
    ensures forall i | 0 <= i < buf.Length :: buf[i] == if EndsAt(c, i) then '\0' else old(buf[i])
    decreases c
  {
    match c
    case Exec(argv) =>
      var j := 0;
      while j < |argv|
        invariant 0 <= j <= |argv|
        invariant forall i | 0 <= i < buf.Length ::
          buf[i] == if exists k | 0 <= k < j :: argv[k].e == i then '\0' else old(buf[i])
      {
        assert GoodRange(s, argv[j]);
        buf[argv[j].e] := '\0';
        j := j + 1;
      }
    case Redir(c1, file, dir) =>
      NulTerminate(c1, buf, s);
      buf[file.e] := '\0';
    case Pipe(l, r) =>
      NulTerminate(l, buf, s);
      NulTerminate(r, buf, s);
    case List(l, r) =>
      NulTerminate(l, buf, s);
      NulTerminate(r, buf, s);
    case Back(c1) =>
      NulTerminate(c1, buf, s);
  }

  /** Words end where no word has a character. */
  lemma {:induction false} EndsOutside(s: string, c: Cmd<Range>, i: int)
    requires GoodCmd(s, c) && EndsAt(c, i)
    ensures i == |s| || (0 <= i < |s| && !IsWordChar(s[i]))
  {
    match c
    case Exec(argv) =>
      var j :| 0 <= j < |argv| && argv[j].e == i;
      assert GoodRange(s, argv[j]);
    case Redir(c1, file, dir) => if EndsAt(c1, i) { EndsOutside(s, c1, i); }
    case Pipe(l, r) => if EndsAt(l, i) { EndsOutside(s, l, i); } else { EndsOutside(s, r, i); }
    case Back(c1) => EndsOutside(s, c1, i);
    case List(l, r) => if EndsAt(l, i) { EndsOutside(s, l, i); } else { EndsOutside(s, r, i); }
  }

  lemma {:induction false} WordIsGood(s: string, c: Cmd<Range>, r: Range)
    requires GoodCmd(s, c) && HasWord(c, r)
    ensures GoodRange(s, r) && EndsAt(c, r.e)
  {
    match c
    case Exec(argv) => var j :| 0 <= j < |argv| && argv[j] == r;
    case Redir(c1, file, dir) => if HasWord(c1, r) { WordIsGood(s, c1, r); }
    case Pipe(l, m) => if HasWord(l, r) { WordIsGood(s, l, r); } else { WordIsGood(s, m, r); }
    case Back(c1) => WordIsGood(s, c1, r);
    case List(l, m) => if HasWord(l, r) { WordIsGood(s, l, r); } else { WordIsGood(s, m, r); }
  }

  /** The C string that starts at position q of a buffer. */
  function CString(b: seq<char>, q: int): string
    requires 0 <= q
    decreases |b| - q
  {
    if q >= |b| || b[q] == '\0' then "" else [b[q]] + CString(b, q + 1)
  }

  lemma {:induction false} CStringIs(b: seq<char>, q: int, e: int)
    requires 0 <= q <= e < |b| && b[e] == '\0' && forall i | q <= i < e :: b[i] != '\0'
    ensures CString(b, q) == b[q..e]
    decreases e - q
  {
    if q < e {
      CStringIs(b, q + 1, e);
      assert b[q..e] == [b[q]] + b[q + 1..e];
    }
  }

  /** After nulterminate every word of the tree is, as a C string, its text in the line. */
  lemma WordsTerminated(s: string, c: Cmd<Range>, b: seq<char>, r: Range)
    requires GoodCmd(s, c) && HasWord(c, r) && |s| < |b| && forall i | 0 <= i < |s| :: s[i] != '\0'
    requires forall i | 0 <= i < |s| :: b[i] == if EndsAt(c, i) then '\0' else s[i]
    requires b[|s|] == '\0'
    ensures 0 <= r.q && CString(b, r.q) == WordText(s, r)
  {
    WordIsGood(s, c, r);
    forall i | r.q <= i < r.e ensures b[i] == s[i] {
      if EndsAt(c, i) { EndsOutside(s, c, i); }
    }
    CStringIs(b, r.q, r.e);
    assert b[r.q..r.e] == s[r.q..r.e];
  }

  /** parsecmd on the line in buf up to its NUL: the tree of its tokens, with every word
      made a C string in place; or a panic, when the tokens do not parse. */
  method ParseCommand(buf: array<char>, n: int) returns (ok: bool, c: Cmd<Range>)
    requires 0 <= n < buf.Length && buf[n] == '\0' && forall i | 0 <= i < n :: buf[i] != '\0'
    modifies buf
    ensures ok <==> ParseCmd(Tokens(old(buf[..n]))).Some?
    ensures ok ==> ParseCmd(Tokens(old(buf[..n]))).value == TextOf(old(buf[..n]), c)
    ensures ok ==> forall r | HasWord(c, r) :: 0 <= r.q && CString(buf[..], r.q) == WordText(old(buf[..n]), r)
    ensures !ok ==> buf[..] == old(buf[..])
  {
    hide Tokens;
    var s := buf[..n];
    assert s[0..] == s;
    var p;
    ok, c, p := ParseLineAt(s, 0);
    if !ok {
      return;
    }
    var _, p1 := Peek(s, p, "");
    AtEnd(s, p1);
    if p1 != n {
      return false, c;
    }
    NulTerminate(c, buf, s);
    forall r | HasWord(c, r) ensures 0 <= r.q && CString(buf[..], r.q) == WordText(s, r) {
      WordsTerminated(s, c, buf[..], r);
    }
  }

  lemma AtEnd(s: string, p: int)
    requires 0 <= p <= |s| && (p < |s| ==> !IsSpace(s[p]))
    ensures Tokens(s[p..]) == [] <==> p == |s|
  {
    if p < |s| { TokenAt(s, p); }
  }
}
