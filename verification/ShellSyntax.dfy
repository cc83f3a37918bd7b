/** The shell's grammar (user/sh.c) on tokens: the parser as a function, the canonical
    printing of a command tree, and the round trip between the two. */
module ShellSyntax {
  import opened Basics

  const MAXARGS := 10

  /** `dir` Output is O_WRONLY|O_CREATE on descriptor 1, Input is O_RDONLY on descriptor 0. */
  datatype Dir = Input | Output

  datatype Cmd<W> =
    | Exec(argv: seq<W>)
    | Redir(cmd: Cmd<W>, file: W, dir: Dir)
    | Pipe(left: Cmd<W>, right: Cmd<W>)
    | List(left: Cmd<W>, right: Cmd<W>)
    | Back(cmd: Cmd<W>)

  datatype Token = Bar | LPar | RPar | Semi | Amp | Less | Great | Append | Word(text: string)

  /** A parsed command and the tokens after it. */
  datatype Parsed = Parsed(cmd: Cmd<string>, rest: seq<Token>)

  /** A redirection: the file and the direction. */
  datatype Redirection<W> = Redirection(file: W, dir: Dir)

  datatype Redirs = Redirs(rs: seq<Redirection<string>>, rest: seq<Token>)

  datatype Args = Args(argv: seq<string>, rs: seq<Redirection<string>>, rest: seq<Token>)

  predicate IsRedir(t: Token) {
    t.Less? || t.Great? || t.Append?
  }

  /** ">>" is read as ">" is. */
  function DirOf(t: Token): Dir {
    if t.Less? then Input else Output
  }

  /** The redirections wrapped around c, the first innermost. */
  function Wrap<W>(c: Cmd<W>, rs: seq<Redirection<W>>): Cmd<W> {
    if rs == [] then c else Redir(Wrap(c, rs[..|rs| - 1]), rs[|rs| - 1].file, rs[|rs| - 1].dir)
  }

  // ---- the parser; None stands for a panic ----

  function ParseRedirs(ts: seq<Token>, rs: seq<Redirection<string>>): (r: Option<Redirs>)
    ensures r.Some? ==> |r.value.rest| <= |ts|
    decreases |ts|
  {
    if ts == [] || !IsRedir(ts[0]) then Some(Redirs(rs, ts))
    else if |ts| == 1 || !ts[1].Word? then None
    else ParseRedirs(ts[2..], rs + [Redirection(ts[1].text, DirOf(ts[0]))])
  }

  predicate EndsArgs(ts: seq<Token>) {
    ts == [] || ts[0].Bar? || ts[0].RPar? || ts[0].Amp? || ts[0].Semi?
  }

  /** The words and redirections of a simple command. */
  function ParseArgs(ts: seq<Token>, argv: seq<string>, rs: seq<Redirection<string>>): (r: Option<Args>)
    ensures r.Some? ==> |r.value.rest| <= |ts|
    decreases |ts|
  {
    if EndsArgs(ts) then Some(Args(argv, rs, ts))
    else if !ts[0].Word? || |argv| + 1 >= MAXARGS then None
    else
      match ParseRedirs(ts[1..], rs)
      case None => None
      case Some(q) => ParseArgs(q.rest, argv + [ts[0].text], q.rs)
  }

  function ParseExec(ts: seq<Token>): (r: Option<Parsed>)
    ensures r.Some? ==> |r.value.rest| <= |ts|
    decreases |ts|, 0
  {
    if ts != [] && ts[0].LPar? then
      match ParseLine(ts[1..])
      case None => None
      case Some(p) =>
        if p.rest == [] || !p.rest[0].RPar? then None
        else
          match ParseRedirs(p.rest[1..], [])
          case None => None
          case Some(q) => Some(Parsed(Wrap(p.cmd, q.rs), q.rest))
    else
      match ParseRedirs(ts, [])
      case None => None
      case Some(q) =>
        match ParseArgs(q.rest, [], q.rs)
        case None => None
        case Some(a) => Some(Parsed(Wrap(Exec(a.argv), a.rs), a.rest))
  }

  function ParsePipe(ts: seq<Token>): (r: Option<Parsed>)
    ensures r.Some? ==> |r.value.rest| <= |ts|
    decreases |ts|, 1
  {
    match ParseExec(ts)
    case None => None
    case Some(p) =>
      if p.rest == [] || !p.rest[0].Bar? then Some(p)
      else
        match ParsePipe(p.rest[1..])
        case None => None
        case Some(q) => Some(Parsed(Pipe(p.cmd, q.cmd), q.rest))
  }

  function Amps(c: Cmd<string>, ts: seq<Token>): (r: Parsed)
    ensures |r.rest| <= |ts|
    decreases |ts|
  {
    if ts == [] || !ts[0].Amp? then Parsed(c, ts) else Amps(Back(c), ts[1..])
  }

  function ParseLine(ts: seq<Token>): (r: Option<Parsed>)
    ensures r.Some? ==> |r.value.rest| <= |ts|
    decreases |ts|, 2
  {
    match ParsePipe(ts)
    case None => None
    case Some(p) =>
      var a := Amps(p.cmd, p.rest);
      if a.rest == [] || !a.rest[0].Semi? then Some(a)
      else
        match ParseLine(a.rest[1..])
        case None => None
        case Some(q) => Some(Parsed(List(a.cmd, q.cmd), q.rest))
  }

  /** parsecmd: the whole line or nothing. */
  function ParseCmd(ts: seq<Token>): Option<Cmd<string>> {
    match ParseLine(ts)
    case None => None
    case Some(p) => if p.rest == [] then Some(p.cmd) else None
  }

  // ---- canonical printing ----

  /** The loosest position a command fits without parentheses: 0 in a pipe, 1 on the
      right of a pipe, 2 before & or ;, 3 a whole line. */
  function Level<W>(c: Cmd<W>): int {
    match c
    case Exec(_) => 0
    case Redir(_, _, _) => 0
    case Pipe(_, _) => 1
    case Back(_) => 2
    case List(_, _) => 3
  }

  function Words(argv: seq<string>): (r: seq<Token>)
    ensures |r| == |argv| && forall i | 0 <= i < |r| :: r[i] == Word(argv[i])
  {
    seq(|argv|, i requires 0 <= i < |argv| => Word(argv[i]))
  }

  function Show(c: Cmd<string>, level: int): seq<Token>
    decreases c, 1
  {
    if Level(c) > level then [LPar] + Bare(c) + [RPar] else Bare(c)
  }

  function Bare(c: Cmd<string>): seq<Token>
    decreases c, 0
  {
    match c
    case Exec(argv) => Words(argv)
    case Redir(c1, file, dir) => Show(c1, 0) + [RedirToken(dir), Word(file)]
    case Pipe(l, r) => Show(l, 0) + [Bar] + Show(r, 1)
    case Back(c1) => Show(c1, 2) + [Amp]
    case List(l, r) => Show(l, 2) + [Semi] + Show(r, 3)
  }

  /** At most MAXARGS - 1 words in every simple command. */
  predicate Fits(c: Cmd<string>) {
    match c
    case Exec(argv) => |argv| < MAXARGS
    case Redir(c1, file, dir) => Fits(c1)
    case Pipe(l, r) => Fits(l) && Fits(r)
    case Back(c1) => Fits(c1)
    case List(l, r) => Fits(l) && Fits(r)
  }

  // ---- printing and parsing ----

  function RedirToks(rs: seq<Redirection<string>>): seq<Token> {
    if rs == [] then []
    else RedirToks(rs[..|rs| - 1]) + [RedirToken(rs[|rs| - 1].dir), Word(rs[|rs| - 1].file)]
  }

  function RedirToken(d: Dir): Token {
    if d.Input? then Less else Great
  }

  lemma RedirsStep(r: Redirection<string>, tail: seq<Token>, before: seq<Redirection<string>>)
    ensures ParseRedirs([RedirToken(r.dir), Word(r.file)] + tail, before) == ParseRedirs(tail, before + [r])
  {
    var ts := [RedirToken(r.dir), Word(r.file)] + tail;
    assert ts[2..] == tail && ts[1] == Word(r.file) && ts[0] == RedirToken(r.dir);
  }

  lemma {:induction false} RedirsRead(rs: seq<Redirection<string>>, before: seq<Redirection<string>>, k: seq<Token>)
    requires k == [] || !IsRedir(k[0])
    ensures ParseRedirs(RedirToks(rs) + k, before) == Some(Redirs(before + rs, k))
    decreases |rs|
  {
    if rs == [] {
      assert RedirToks(rs) + k == k && before + rs == before;
    } else {
      var tail := RedirToks(rs[1..]) + k;
      RedirToksFirst(rs);
      RedirsStep(rs[0], tail, before);
      RedirsRead(rs[1..], before + [rs[0]], k);
      Concat3(RedirToken(rs[0].dir), Word(rs[0].file), RedirToks(rs[1..]), k);
      assert before + [rs[0]] + rs[1..] == before + rs;
      hide ParseRedirs, RedirToks, RedirToken;
    }
  }

  lemma Concat3(a: Token, b: Token, x: seq<Token>, k: seq<Token>)
    ensures ([a, b] + x) + k == [a, b] + (x + k)
  {}

  lemma {:induction false} RedirToksFirst(rs: seq<Redirection<string>>)
    requires rs != []
    ensures RedirToks(rs) == [RedirToken(rs[0].dir), Word(rs[0].file)] + RedirToks(rs[1..])
  {
    var n := |rs| - 1;
    if n > 0 {
      RedirToksFirst(rs[..n]);
      assert rs[..n][1..] == rs[1..][..n - 1];
    }
  }

  /** A word that is neither the last allowed nor followed by a redirection. */
  lemma ArgsStep(w: string, tail: seq<Token>, before: seq<string>, rs: seq<Redirection<string>>, q: Redirs)
    requires |before| + 1 < MAXARGS && ParseRedirs(tail, rs) == Some(q)
    ensures ParseArgs([Word(w)] + tail, before, rs) == ParseArgs(q.rest, before + [w], q.rs)
  {
    var ts := [Word(w)] + tail;
    assert ts[1..] == tail;
  }

  lemma ArgsEnd(k: seq<Token>, argv: seq<string>, rs: seq<Redirection<string>>)
    requires EndsArgs(k)
    ensures ParseArgs(k, argv, rs) == Some(Args(argv, rs, k))
  {}

  lemma WordsFirst(argv: seq<string>, more: seq<Token>)
    requires argv != []
    ensures Words(argv) + more == [Word(argv[0])] + (Words(argv[1..]) + more)
  {}

  lemma NoRedirFirst(argv: seq<string>, more: seq<Token>)
    requires argv != []
    ensures ParseRedirs(Words(argv) + more, []) == Some(Redirs([], Words(argv) + more))
  {
    assert (Words(argv) + more)[0] == Word(argv[0]);
  }

  lemma {:induction false} ArgsRead(argv: seq<string>, before: seq<string>, rs: seq<Redirection<string>>, k: seq<Token>)
    requires EndsArgs(k) && |before| + |argv| < MAXARGS && argv != []
    ensures ParseArgs(Words(argv) + (RedirToks(rs) + k), before, []) == Some(Args(before + argv, rs, k))
    decreases |argv|
  {
    hide ParseRedirs, ParseArgs, RedirToks;
    var more := RedirToks(rs) + k;
    var tail := Words(argv[1..]) + more;
    WordsFirst(argv, more);
    if |argv| == 1 {
      assert tail == more;
      RedirsRead(rs, [], k);
      assert [] + rs == rs && before + [argv[0]] == before + argv;
      ArgsStep(argv[0], tail, before, [], Redirs(rs, k));
      ArgsEnd(k, before + argv, rs);
    } else {
      NoRedirFirst(argv[1..], more);
      ArgsStep(argv[0], tail, before, [], Redirs([], tail));
      ArgsRead(argv[1..], before + [argv[0]], rs, k);
      assert before + [argv[0]] + argv[1..] == before + argv;
    }
  }

  /** parseexec on something that does not open a block. */
  lemma ExecStep(ts: seq<Token>, q: Redirs, a: Args)
    requires ts == [] || !ts[0].LPar?
    requires ParseRedirs(ts, []) == Some(q) && ParseArgs(q.rest, [], q.rs) == Some(a)
    ensures ParseExec(ts) == Some(Parsed(Wrap(Exec(a.argv), a.rs), a.rest))
  {}

  /** A simple command with redirections after its words. */
  lemma SimpleRead(argv: seq<string>, rs: seq<Redirection<string>>, k: seq<Token>)
    requires EndsArgs(k) && |argv| < MAXARGS
    ensures ParseExec(Words(argv) + (RedirToks(rs) + k)) == Some(Parsed(Wrap(Exec(argv), rs), k))
  {
    var all := Words(argv) + (RedirToks(rs) + k);
    if argv == [] {
      assert all == RedirToks(rs) + k;
      if rs != [] { RedirToksFirst(rs); }
      RedirsRead(rs, [], k);
      assert [] + rs == rs;
      ExecStep(all, Redirs(rs, k), Args([], rs, k));
    } else {
      NoRedirFirst(argv, RedirToks(rs) + k);
      ArgsRead(argv, [], rs, k);
      assert [] + argv == argv && all[0] == Word(argv[0]);
      ExecStep(all, Redirs([], all), Args(argv, rs, k));
    }
    hide ParseRedirs, ParseArgs, ParseExec, RedirToks, Wrap;
  }

  // ---- the round trip ----

  /** What is left of c without its outer redirections, and those redirections. */
  function Core(c: Cmd<string>): Cmd<string> {
    if c.Redir? then Core(c.cmd) else c
  }

  function Outer(c: Cmd<string>): seq<Redirection<string>> {
    if c.Redir? then Outer(c.cmd) + [Redirection(c.file, c.dir)] else []
  }

  lemma {:induction false} Peel(c: Cmd<string>)
    ensures Wrap(Core(c), Outer(c)) == c && !Core(c).Redir?
    ensures Show(c, 0) == Show(Core(c), 0) + RedirToks(Outer(c))
    ensures Fits(c) ==> Fits(Core(c))
  {
    if c.Redir? {
      Peel(c.cmd);
      var rs := Outer(c);
      assert rs[..|rs| - 1] == Outer(c.cmd);
    }
  }

  /** The part of parseline before the semicolon. */
  function ParseBack(ts: seq<Token>): Option<Parsed> {
    match ParsePipe(ts)
    case None => None
    case Some(p) => Some(Amps(p.cmd, p.rest))
  }

  /** Which of the four positions a tree is read at first, counted from its own level. */
  function Rank(level: int, c: Cmd<string>): int {
    if level >= Level(c) then level - Level(c) else level - Level(c) + 4
  }

  predicate Follows(level: int, k: seq<Token>) {
    k == [] || k[0].RPar? || (level <= 2 && (k[0].Amp? || k[0].Semi?)) || (level == 0 && k[0].Bar?)
  }

  /** A block with redirections after it. */
  lemma BlockStep(c: Cmd<string>, body: seq<Token>, rs: seq<Redirection<string>>, k: seq<Token>)
    requires EndsArgs(k) && ParseLine(body + ([RPar] + (RedirToks(rs) + k))) == Some(Parsed(c, [RPar] + (RedirToks(rs) + k)))
    ensures ParseExec([LPar] + (body + ([RPar] + (RedirToks(rs) + k)))) == Some(Parsed(Wrap(c, rs), k))
  {
    var after := RedirToks(rs) + k;
    var ts := [LPar] + (body + ([RPar] + after));
    assert ts[1..] == body + ([RPar] + after);
    assert ([RPar] + after)[1..] == after;
    RedirsRead(rs, [], k);
    assert [] + rs == rs;
  }

  lemma {:induction false} ReadExec(c: Cmd<string>, k: seq<Token>)
    requires Fits(c) && Follows(0, k)
    ensures ParseExec(Show(c, 0) + k) == Some(Parsed(c, k))
    decreases c, Rank(0, c)
  {
    Peel(c);
    var core, rs := Core(c), Outer(c);
    var more := RedirToks(rs) + k;
    Assoc(Show(core, 0), RedirToks(rs), k);
    if core.Exec? {
      SimpleRead(core.argv, rs, k);
    } else {
      CoreSmaller(c);
      Enclosed(Bare(core), more);
      ReadLine(core, [RPar] + more);
      BlockStep(core, Bare(core), rs, k);
    }
    hide ParseExec, ParseLine, RedirToks, Wrap;
  }

  lemma Assoc(a: seq<Token>, b: seq<Token>, k: seq<Token>)
    ensures (a + b) + k == a + (b + k)
  {}

  lemma Enclosed(b: seq<Token>, k: seq<Token>)
    ensures [LPar] + b + [RPar] + k == [LPar] + (b + ([RPar] + k))
  {}

  lemma {:induction false} CoreSmaller(c: Cmd<string>)
    ensures Core(c) == c || Core(c) < c
  {
    if c.Redir? { CoreSmaller(c.cmd); }
  }

  lemma PipeStep(l: Cmd<string>, r: Cmd<string>, ts: seq<Token>, more: seq<Token>, k: seq<Token>)
    requires ParseExec(ts) == Some(Parsed(l, [Bar] + more)) && ParsePipe(more) == Some(Parsed(r, k))
    ensures ParsePipe(ts) == Some(Parsed(Pipe(l, r), k))
  {
    assert ([Bar] + more)[1..] == more;
  }

  lemma {:induction false} ReadPipe(c: Cmd<string>, k: seq<Token>)
    requires Fits(c) && Follows(1, k)
    ensures ParsePipe(Show(c, 1) + k) == Some(Parsed(c, k))
    decreases c, Rank(1, c)
  {
    if c.Pipe? {
      var more := Show(c.right, 1) + k;
      assert Show(c, 1) + k == Show(c.left, 0) + ([Bar] + more);
      ReadExec(c.left, [Bar] + more);
      ReadPipe(c.right, k);
      PipeStep(c.left, c.right, Show(c, 1) + k, more, k);
    } else {
      assert Show(c, 1) == Show(c, 0);
      ReadExec(c, k);
    }
  }

  lemma {:induction false} ReadBack(c: Cmd<string>, k: seq<Token>)
    requires Fits(c) && Follows(2, k)
    ensures ParseBack(Show(c, 2) + k) == Some(Amps(c, k))
    decreases c, Rank(2, c)
  {
    if c.Back? {
      assert Show(c, 2) + k == Show(c.cmd, 2) + ([Amp] + k);
      ReadBack(c.cmd, [Amp] + k);
      assert ([Amp] + k)[1..] == k;
    } else {
      assert Show(c, 2) == Show(c, 1);
      ReadPipe(c, k);
    }
  }

  lemma LineStep(l: Cmd<string>, r: Cmd<string>, ts: seq<Token>, more: seq<Token>, k: seq<Token>)
    requires ParseBack(ts) == Some(Parsed(l, [Semi] + more)) && ParseLine(more) == Some(Parsed(r, k))
    ensures ParseLine(ts) == Some(Parsed(List(l, r), k))
  {
    assert ([Semi] + more)[1..] == more;
  }

  lemma {:induction false} ReadLine(c: Cmd<string>, k: seq<Token>)
    requires Fits(c) && Follows(3, k)
    ensures ParseLine(Bare(c) + k) == Some(Parsed(c, k))
    decreases c, Rank(3, c)
  {
    if c.List? {
      var more := Bare(c.right) + k;
      assert Show(c.right, 3) == Bare(c.right);
      assert Bare(c) + k == Show(c.left, 2) + ([Semi] + more);
      ReadBack(c.left, [Semi] + more);
      ReadLine(c.right, k);
      LineStep(c.left, c.right, Bare(c) + k, more, k);
    } else {
      assert Show(c, 2) == Bare(c);
      ReadBack(c, k);
    }
  }

  // ---- commands with too many words ----

  /** Ten words in a row do not parse, whatever follows. */
  lemma {:induction false} TooManyArgs(argv: seq<string>, before: seq<string>, k: seq<Token>)
    requires |before| < MAXARGS <= |before| + |argv|
    ensures ParseArgs(Words(argv) + k, before, []) == None
    decreases |argv|
  {
    var all := Words(argv) + k;
    assert all[0] == Word(argv[0]);
    if |before| + 1 < MAXARGS {
      var tail := Words(argv[1..]) + k;
      WordsFirst(argv, k);
      NoRedirFirst(argv[1..], k);
      ArgsStep(argv[0], tail, before, [], Redirs([], tail));
      TooManyArgs(argv[1..], before + [argv[0]], k);
    }
  }

  lemma {:induction false} PeelFits(c: Cmd<string>)
    ensures Fits(c) == Fits(Core(c))
  {
    if c.Redir? { PeelFits(c.cmd); }
  }

  lemma BlockFails(body: seq<Token>, more: seq<Token>)
    requires ParseLine(body + ([RPar] + more)) == None
    ensures ParseExec([LPar] + (body + ([RPar] + more))) == None
  {
    assert ([LPar] + (body + ([RPar] + more)))[1..] == body + ([RPar] + more);
  }

  lemma SimpleFails(argv: seq<string>, more: seq<Token>)
    requires |argv| >= MAXARGS
    ensures ParseExec(Words(argv) + more) == None
  {
    assert (Words(argv) + more)[0] == Word(argv[0]);
    NoRedirFirst(argv, more);
    TooManyArgs(argv, [], more);
  }

  lemma {:induction false} FailExec(c: Cmd<string>, k: seq<Token>)
    requires !Fits(c) && Follows(0, k)
    ensures ParseExec(Show(c, 0) + k) == None
    decreases c, Rank(0, c)
  {
    Peel(c);
    PeelFits(c);
    var core, rs := Core(c), Outer(c);
    var more := RedirToks(rs) + k;
    Assoc(Show(core, 0), RedirToks(rs), k);
    if core.Exec? {
      SimpleFails(core.argv, more);
    } else {
      CoreSmaller(c);
      Enclosed(Bare(core), more);
      FailLine(core, [RPar] + more);
      BlockFails(Bare(core), more);
    }
    hide ParseExec, ParseLine, RedirToks, Wrap;
  }

  lemma {:induction false} FailPipe(c: Cmd<string>, k: seq<Token>)
    requires !Fits(c) && Follows(1, k)
    ensures ParsePipe(Show(c, 1) + k) == None
    decreases c, Rank(1, c)
  {
    if c.Pipe? {
      var more := Show(c.right, 1) + k;
      assert Show(c, 1) + k == Show(c.left, 0) + ([Bar] + more);
      if Fits(c.left) {
        ReadExec(c.left, [Bar] + more);
        FailPipe(c.right, k);
        assert ([Bar] + more)[1..] == more;
      } else {
        FailExec(c.left, [Bar] + more);
      }
    } else {
      assert Show(c, 1) == Show(c, 0);
      FailExec(c, k);
    }
  }

  lemma {:induction false} FailBack(c: Cmd<string>, k: seq<Token>)
    requires !Fits(c) && Follows(2, k)
    ensures ParseBack(Show(c, 2) + k) == None
    decreases c, Rank(2, c)
  {
    if c.Back? {
      assert Show(c, 2) + k == Show(c.cmd, 2) + ([Amp] + k);
      FailBack(c.cmd, [Amp] + k);
    } else {
      assert Show(c, 2) == Show(c, 1);
      FailPipe(c, k);
    }
  }

  lemma {:induction false} FailLine(c: Cmd<string>, k: seq<Token>)
    requires !Fits(c) && Follows(3, k)
    ensures ParseLine(Bare(c) + k) == None
    decreases c, Rank(3, c)
  {
    if c.List? {
      var more := Bare(c.right) + k;
      assert Show(c.right, 3) == Bare(c.right);
      assert Bare(c) + k == Show(c.left, 2) + ([Semi] + more);
      if Fits(c.left) {
        ReadBack(c.left, [Semi] + more);
        FailLine(c.right, k);
        assert ([Semi] + more)[1..] == more;
      } else {
        FailBack(c.left, [Semi] + more);
      }
    } else {
      assert Show(c, 2) == Bare(c);
      FailBack(c, k);
    }
  }

  /** Printing a command and parsing the tokens gives the command back if it fits, and a panic
      if some simple command of it has too many words. */
  lemma RoundTrip(c: Cmd<string>)
    ensures ParseCmd(Bare(c)) == if Fits(c) then Some(c) else None
  {
    assert Bare(c) + [] == Bare(c);
    if Fits(c) {
      ReadLine(c, []);
    } else {
      FailLine(c, []);
    }
  }

  // ---- ">>" and ">" ----

  /** The tokens with every ">>" replaced by ">". */
  function AsGreat(ts: seq<Token>): (r: seq<Token>)
    ensures |r| == |ts| && forall i | 0 <= i < |r| :: r[i] == if ts[i].Append? then Great else ts[i]
  {
    seq(|ts|, i requires 0 <= i < |ts| => if ts[i].Append? then Great else ts[i])
  }

  lemma AsGreatRest(ts: seq<Token>, n: nat)
    requires n <= |ts|
    ensures AsGreat(ts)[n..] == AsGreat(ts[n..])
  {}

  function ParsedGreat(r: Option<Parsed>): Option<Parsed> {
    match r
    case None => None
    case Some(p) => Some(Parsed(p.cmd, AsGreat(p.rest)))
  }

  lemma {:induction false} RedirsGreat(ts: seq<Token>, rs: seq<Redirection<string>>)
    ensures ParseRedirs(AsGreat(ts), rs) ==
            match ParseRedirs(ts, rs)
            case None => None
            case Some(q) => Some(Redirs(q.rs, AsGreat(q.rest)))
    decreases |ts|
  {
    if ts != [] && IsRedir(ts[0]) && |ts| > 1 && ts[1].Word? {
      AsGreatRest(ts, 2);
      RedirsGreat(ts[2..], rs + [Redirection(ts[1].text, DirOf(ts[0]))]);
    }
  }

  lemma {:induction false} ArgsGreat(ts: seq<Token>, argv: seq<string>, rs: seq<Redirection<string>>)
    ensures ParseArgs(AsGreat(ts), argv, rs) ==
            match ParseArgs(ts, argv, rs)
            case None => None
            case Some(a) => Some(Args(a.argv, a.rs, AsGreat(a.rest)))
    decreases |ts|
  {
    if !EndsArgs(ts) && ts[0].Word? && |argv| + 1 < MAXARGS {
      AsGreatRest(ts, 1);
      RedirsGreat(ts[1..], rs);
      var r := ParseRedirs(ts[1..], rs);
      if r.Some? { ArgsGreat(r.value.rest, argv + [ts[0].text], r.value.rs); }
    }
  }

  lemma {:induction false} ExecGreat(ts: seq<Token>)
    ensures ParseExec(AsGreat(ts)) == ParsedGreat(ParseExec(ts))
    decreases |ts|, 0
  {
    if ts != [] && ts[0].LPar? {
      AsGreatRest(ts, 1);
      LineGreat(ts[1..]);
      var p := ParseLine(ts[1..]);
      if p.Some? && p.value.rest != [] && p.value.rest[0].RPar? {
        AsGreatRest(p.value.rest, 1);
        RedirsGreat(p.value.rest[1..], []);
      }
    } else {
      RedirsGreat(ts, []);
      var q := ParseRedirs(ts, []);
      if q.Some? { ArgsGreat(q.value.rest, [], q.value.rs); }
    }
  }

  lemma {:induction false} PipeGreat(ts: seq<Token>)
    ensures ParsePipe(AsGreat(ts)) == ParsedGreat(ParsePipe(ts))
    decreases |ts|, 1
  {
    ExecGreat(ts);
    var p := ParseExec(ts);
    if p.Some? && p.value.rest != [] && p.value.rest[0].Bar? {
      AsGreatRest(p.value.rest, 1);
      PipeGreat(p.value.rest[1..]);
    }
  }

  lemma {:induction false} AmpsGreat(c: Cmd<string>, ts: seq<Token>)
    ensures Amps(c, AsGreat(ts)) == Parsed(Amps(c, ts).cmd, AsGreat(Amps(c, ts).rest))
    decreases |ts|
  {
    if ts != [] && ts[0].Amp? {
      AsGreatRest(ts, 1);
      AmpsGreat(Back(c), ts[1..]);
    }
  }

  lemma {:induction false} LineGreat(ts: seq<Token>)
    ensures ParseLine(AsGreat(ts)) == ParsedGreat(ParseLine(ts))
    decreases |ts|, 2
  {
    PipeGreat(ts);
    var p := ParsePipe(ts);
    if p.Some? {
      AmpsGreat(p.value.cmd, p.value.rest);
      var a := Amps(p.value.cmd, p.value.rest);
      if a.rest != [] && a.rest[0].Semi? {
        AsGreatRest(a.rest, 1);
        LineGreat(a.rest[1..]);
      }
    }
  }

  /** The shell does not append: whatever the line, with ">" for every ">>" it is parsed into the
      same tree, or refused alike. */
  lemma AppendIsGreat(ts: seq<Token>)
    ensures ParseCmd(ts) == ParseCmd(AsGreat(ts))
  {
    LineGreat(ts);
  }
}
