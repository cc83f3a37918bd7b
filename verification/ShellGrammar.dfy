/** The grammar that the shell's recursive parser (user/sh.c) accepts, as rules over whole token
    sequences with no order of reading in them, and the proof that the parser decides it. */
module ShellGrammar {
  import opened Basics
  import opened ShellSyntax

  // ---- the rules ----

  /** simple: words and redirections in any order. */
  predicate IsSimple(ts: seq<Token>) {
    ts == []
    || (ts[0].Word? && IsSimple(ts[1..]))
    || (IsRedir(ts[0]) && |ts| > 1 && ts[1].Word? && IsSimple(ts[2..]))
  }

  function ArgsOf(ts: seq<Token>): seq<string>
    requires IsSimple(ts)
  {
    if ts == [] then [] else if ts[0].Word? then [ts[0].text] + ArgsOf(ts[1..]) else ArgsOf(ts[2..])
  }

  function RedirsOf(ts: seq<Token>): seq<Redirection<string>>
    requires IsSimple(ts)
  {
    if ts == [] then []
    else if ts[0].Word? then RedirsOf(ts[1..])
    else [Redirection(ts[1].text, DirOf(ts[0]))] + RedirsOf(ts[2..])
  }

  ghost predicate SimpleRule(ts: seq<Token>, c: Cmd<string>) {
    IsSimple(ts) && |ArgsOf(ts)| < MAXARGS && c == Wrap(Exec(ArgsOf(ts)), RedirsOf(ts))
  }

  /** block: ( line ), or a block and one more redirection. */
  ghost predicate BlockRule(ts: seq<Token>, c: Cmd<string>)
    decreases |ts|, 0
  {
    var n := |ts|;
    || (n >= 2 && ts[0].LPar? && ts[n - 1].RPar? && LineRule(ts[1..n - 1], c))
    || (n >= 2 && c.Redir? && IsRedir(ts[n - 2]) && ts[n - 1] == Word(c.file) && c.dir == DirOf(ts[n - 2])
        && BlockRule(ts[..n - 2], c.cmd))
  }

  ghost predicate ExecRule(ts: seq<Token>, c: Cmd<string>)
    decreases |ts|, 1
  {
    SimpleRule(ts, c) || BlockRule(ts, c)
  }

  /** pipe: exec, or exec | pipe. */
  ghost predicate PipeRule(ts: seq<Token>, c: Cmd<string>)
    decreases |ts|, 2
  {
    || ExecRule(ts, c)
    || (c.Pipe? && exists i | 0 <= i < |ts| :: ts[i].Bar? && ExecRule(ts[..i], c.left) && PipeRule(ts[i + 1..], c.right))
  }

  /** back: pipe, or back &. */
  ghost predicate BackRule(ts: seq<Token>, c: Cmd<string>)
    decreases |ts|, 3
  {
    || PipeRule(ts, c)
    || (c.Back? && ts != [] && ts[|ts| - 1].Amp? && BackRule(ts[..|ts| - 1], c.cmd))
  }

  /** line: back, or back ; line. */
  ghost predicate LineRule(ts: seq<Token>, c: Cmd<string>)
    decreases |ts|, 4
  {
    || BackRule(ts, c)
    || (c.List? && exists i | 0 <= i < |ts| :: ts[i].Semi? && BackRule(ts[..i], c.left) && LineRule(ts[i + 1..], c.right))
  }

  // ---- what the rules derive, the parser reads ----

  lemma RedirsEnd(k: seq<Token>, rs: seq<Redirection<string>>)
    requires k == [] || !IsRedir(k[0])
    ensures ParseRedirs(k, rs) == Some(Redirs(rs, k))
  {}

  lemma RedirsNext(ts: seq<Token>, k: seq<Token>, rs: seq<Redirection<string>>)
    requires |ts| > 1 && IsRedir(ts[0]) && ts[1].Word?
    ensures ParseRedirs(ts + k, rs) == ParseRedirs(ts[2..] + k, rs + [Redirection(ts[1].text, DirOf(ts[0]))])
  {
    assert (ts + k)[2..] == ts[2..] + k;
  }

  /** The redirections at the front, and what stands after them. */
  lemma {:induction false} RedirsFront(ts: seq<Token>, k: seq<Token>, rs: seq<Redirection<string>>)
    returns (n: nat, more: seq<Redirection<string>>)
    requires IsSimple(ts) && (k == [] || !IsRedir(k[0]))
    ensures n <= |ts| && IsSimple(ts[n..]) && (n < |ts| ==> ts[n].Word?)
    ensures ArgsOf(ts) == ArgsOf(ts[n..]) && RedirsOf(ts) == more + RedirsOf(ts[n..])
    ensures ParseRedirs(ts + k, rs) == Some(Redirs(rs + more, ts[n..] + k))
    decreases |ts|
  {
    hide ParseRedirs;
    if ts == [] || ts[0].Word? {
      n, more := 0, [];
      assert ts[0..] == ts && rs + [] == rs;
      assert ts + k == [] || !IsRedir((ts + k)[0]);
      RedirsEnd(ts + k, rs);
    } else {
      var r := Redirection(ts[1].text, DirOf(ts[0]));
      var m, tail := RedirsFront(ts[2..], k, rs + [r]);
      n, more := m + 2, [r] + tail;
      RedirsNext(ts, k, rs);
      assert ts[2..][m..] == ts[n..];
      assert rs + [r] + tail == rs + more;
    }
  }

  lemma {:induction false} ArgsReadAll(ts: seq<Token>, k: seq<Token>, before: seq<string>, rs: seq<Redirection<string>>)
    requires IsSimple(ts) && (ts == [] || ts[0].Word?) && EndsArgs(k) && |before| + |ArgsOf(ts)| < MAXARGS
    ensures ParseArgs(ts + k, before, rs) == Some(Args(before + ArgsOf(ts), rs + RedirsOf(ts), k))
    decreases |ts|
  {
    hide ParseArgs, ParseRedirs;
    if ts == [] {
      assert ts + k == k && before + [] == before && rs + [] == rs;
      ArgsEnd(k, before, rs);
    } else {
      var w, tail := ts[0].text, ts[1..];
      var n, more := RedirsFront(tail, k, rs);
      ArgsReadAll(tail[n..], k, before + [w], rs + more);
      ArgsStep(w, tail + k, before, rs, Redirs(rs + more, tail[n..] + k));
      assert ts + k == [Word(w)] + (tail + k);
      assert before + [w] + ArgsOf(tail) == before + ArgsOf(ts);
      assert rs + more + RedirsOf(tail[n..]) == rs + RedirsOf(ts);
    }
  }

  lemma SimpleReads(ts: seq<Token>, c: Cmd<string>, k: seq<Token>)
    requires SimpleRule(ts, c) && EndsArgs(k)
    ensures ParseExec(ts + k) == Some(Parsed(c, k))
  {
    hide ParseArgs, ParseRedirs, Wrap;
    var n, more := RedirsFront(ts, k, []);
    assert [] + more == more && [] + ArgsOf(ts) == ArgsOf(ts);
    ArgsReadAll(ts[n..], k, [], more);
    assert ts + k != [] ==> (ts + k)[0] == if ts == [] then k[0] else ts[0];
    ExecStep(ts + k, Redirs(more, ts[n..] + k), Args(ArgsOf(ts), RedirsOf(ts), k));
    hide ParseExec;
  }

  predicate OnlyRedirs(ts: seq<Token>) {
    IsSimple(ts) && ArgsOf(ts) == []
  }

  lemma {:induction false} OneMore(ts: seq<Token>, t: Token, file: string)
    requires OnlyRedirs(ts) && IsRedir(t)
    ensures OnlyRedirs(ts + [t, Word(file)])
    ensures RedirsOf(ts + [t, Word(file)]) == RedirsOf(ts) + [Redirection(file, DirOf(t))]
    decreases |ts|
  {
    var all := ts + [t, Word(file)];
    if ts == [] {
      assert all == [t, Word(file)] && all[2..] == [];
    } else {
      assert all[2..] == ts[2..] + [t, Word(file)] && all[0] == ts[0] && all[1] == ts[1];
      OneMore(ts[2..], t, file);
    }
  }

  /** A block in its three parts. */
  lemma {:induction false} BlockParts(ts: seq<Token>, c: Cmd<string>) returns (i: nat, core: Cmd<string>)
    requires BlockRule(ts, c)
    ensures 0 < i < |ts| && ts[0].LPar? && ts[i].RPar? && LineRule(ts[1..i], core)
    ensures OnlyRedirs(ts[i + 1..]) && c == Wrap(core, RedirsOf(ts[i + 1..]))
    decreases |ts|
  {
    hide LineRule;
    var n := |ts|;
    if ts[0].LPar? && ts[n - 1].RPar? && LineRule(ts[1..n - 1], c) {
      i, core := n - 1, c;
    } else {
      var front := ts[..n - 2];
      i, core := BlockParts(front, c.cmd);
      assert front[1..i] == ts[1..i];
      var rs := RedirsOf(front[i + 1..]);
      OneMore(front[i + 1..], ts[n - 2], c.file);
      assert ts[i + 1..] == front[i + 1..] + [ts[n - 2], Word(c.file)];
      assert (rs + [Redirection(c.file, c.dir)])[..|rs|] == rs;
    }
  }

  lemma {:induction false} ExecReads(ts: seq<Token>, c: Cmd<string>, k: seq<Token>)
    requires ExecRule(ts, c) && Follows(0, k)
    ensures ParseExec(ts + k) == Some(Parsed(c, k))
    decreases |ts|, 1
  {
    hide ParseExec, ParseLine, ParseRedirs, LineRule, SimpleRule, BlockRule, Wrap, IsSimple;
    if SimpleRule(ts, c) {
      SimpleReads(ts, c, k);
    } else {
      var i, core := BlockParts(ts, c);
      var after := ts[i + 1..] + k;
      LineReads(ts[1..i], core, [RPar] + after);
      ParenStep(ts, i, k);
      var n, more := RedirsFront(ts[i + 1..], k, []);
      NoArgs(ts[i + 1..][n..]);
      assert [] + more == more && more + [] == more && [] + k == k;
      BlockDone(core, ts[1..i], ts[i + 1..], more, k);
    }
  }

  lemma ParenStep(ts: seq<Token>, i: nat, k: seq<Token>)
    requires 0 < i < |ts| && ts[0].LPar? && ts[i].RPar?
    ensures ts + k == [LPar] + (ts[1..i] + ([RPar] + (ts[i + 1..] + k)))
  {}

  lemma NoArgs(ts: seq<Token>)
    requires IsSimple(ts) && ArgsOf(ts) == [] && (ts != [] ==> ts[0].Word?)
    ensures ts == [] && RedirsOf(ts) == []
  {}

  lemma BlockDone(c: Cmd<string>, body: seq<Token>, tail: seq<Token>, rs: seq<Redirection<string>>, k: seq<Token>)
    requires ParseLine(body + ([RPar] + (tail + k))) == Some(Parsed(c, [RPar] + (tail + k)))
    requires ParseRedirs(tail + k, []) == Some(Redirs(rs, k))
    ensures ParseExec([LPar] + (body + ([RPar] + (tail + k)))) == Some(Parsed(Wrap(c, rs), k))
  {
    assert ([LPar] + (body + ([RPar] + (tail + k))))[1..] == body + ([RPar] + (tail + k));
    assert ([RPar] + (tail + k))[1..] == tail + k;
  }

  lemma LonePipe(ts: seq<Token>, c: Cmd<string>, k: seq<Token>)
    requires ParseExec(ts) == Some(Parsed(c, k)) && Follows(1, k)
    ensures ParsePipe(ts) == Some(Parsed(c, k))
  {}

  lemma {:induction false} PipeReads(ts: seq<Token>, c: Cmd<string>, k: seq<Token>)
    requires PipeRule(ts, c) && Follows(1, k)
    ensures ParsePipe(ts + k) == Some(Parsed(c, k))
    decreases |ts|, 2
  {
    hide ParseExec, ExecRule, ParsePipe;
    if ExecRule(ts, c) {
      ExecReads(ts, c, k);
      LonePipe(ts + k, c, k);
    } else {
      var i :| 0 <= i < |ts| && ts[i].Bar? && ExecRule(ts[..i], c.left) && PipeRule(ts[i + 1..], c.right);
      var more := ts[i + 1..] + k;
      assert ts + k == ts[..i] + ([Bar] + more);
      ExecReads(ts[..i], c.left, [Bar] + more);
      PipeReads(ts[i + 1..], c.right, k);
      PipeStep(c.left, c.right, ts + k, more, k);
    }
  }

  lemma {:induction false} BackReads(ts: seq<Token>, c: Cmd<string>, k: seq<Token>)
    requires BackRule(ts, c) && Follows(2, k)
    ensures ParseBack(ts + k) == Some(Amps(c, k))
    decreases |ts|, 3
  {
    hide ParsePipe, PipeRule;
    if PipeRule(ts, c) {
      PipeReads(ts, c, k);
    } else {
      var n := |ts| - 1;
      assert ts + k == ts[..n] + ([Amp] + k) && ([Amp] + k)[1..] == k;
      BackReads(ts[..n], c.cmd, [Amp] + k);
    }
  }

  lemma {:induction false} LineReads(ts: seq<Token>, c: Cmd<string>, k: seq<Token>)
    requires LineRule(ts, c) && Follows(3, k)
    ensures ParseLine(ts + k) == Some(Parsed(c, k))
    decreases |ts|, 4
  {
    hide BackRule;
    if BackRule(ts, c) {
      BackReads(ts, c, k);
    } else {
      var i :| 0 <= i < |ts| && ts[i].Semi? && BackRule(ts[..i], c.left) && LineRule(ts[i + 1..], c.right);
      var more := ts[i + 1..] + k;
      assert ts + k == ts[..i] + ([Semi] + more);
      BackReads(ts[..i], c.left, [Semi] + more);
      LineReads(ts[i + 1..], c.right, k);
      LineStep(c.left, c.right, ts + k, more, k);
    }
  }

  // ---- what the parser reads, the rules derive ----

  lemma {:induction false} SimpleMore(a: seq<Token>, b: seq<Token>)
    requires IsSimple(a) && IsSimple(b)
    ensures IsSimple(a + b) && ArgsOf(a + b) == ArgsOf(a) + ArgsOf(b) && RedirsOf(a + b) == RedirsOf(a) + RedirsOf(b)
    decreases |a|
  {
    if a == [] {
      assert a + b == b;
    } else if a[0].Word? {
      assert (a + b)[1..] == a[1..] + b;
      SimpleMore(a[1..], b);
    } else {
      assert (a + b)[2..] == a[2..] + b;
      SimpleMore(a[2..], b);
    }
  }

  lemma Assoc3(a: seq<Token>, b: seq<Token>, c: seq<Token>, d: seq<Token>)
    ensures a + (b + (c + d)) == (a + b + c) + d
  {}

  /** The redirections that were read. */
  lemma {:induction false} RedirsSound(ts: seq<Token>, rs: seq<Redirection<string>>) returns (d: seq<Token>)
    requires ParseRedirs(ts, rs).Some?
    ensures ts == d + ParseRedirs(ts, rs).value.rest
    ensures OnlyRedirs(d) && ParseRedirs(ts, rs).value.rs == rs + RedirsOf(d)
    decreases |ts|
  {
    if ts == [] || !IsRedir(ts[0]) {
      d := [];
      assert [] + ts == ts && rs + [] == rs;
    } else {
      var r := Redirection(ts[1].text, DirOf(ts[0]));
      var e := RedirsSound(ts[2..], rs + [r]);
      d := ts[..2] + e;
      FirstTwo(ts[..2], e);
      assert ts == d + ParseRedirs(ts[2..], rs + [r]).value.rest;
      assert rs + [r] + RedirsOf(e) == rs + ([r] + RedirsOf(e));
    }
  }

  lemma FirstTwo(a: seq<Token>, e: seq<Token>)
    requires |a| == 2 && IsRedir(a[0]) && a[1].Word? && OnlyRedirs(e)
    ensures OnlyRedirs(a + e) && RedirsOf(a + e) == [Redirection(a[1].text, DirOf(a[0]))] + RedirsOf(e)
  {
    assert (a + e)[2..] == e;
  }

  /** The words and redirections that were read. */
  lemma {:induction false} ArgsSound(ts: seq<Token>, argv: seq<string>, rs: seq<Redirection<string>>) returns (d: seq<Token>)
    requires ParseArgs(ts, argv, rs).Some? && |argv| < MAXARGS
    ensures ts == d + ParseArgs(ts, argv, rs).value.rest && IsSimple(d)
    ensures ParseArgs(ts, argv, rs).value.argv == argv + ArgsOf(d) && |argv + ArgsOf(d)| < MAXARGS
    ensures ParseArgs(ts, argv, rs).value.rs == rs + RedirsOf(d)
    decreases |ts|
  {
    hide ParseRedirs, IsSimple, ArgsOf, RedirsOf;
    if EndsArgs(ts) {
      d := [];
      NothingRead();
      assert [] + ts == ts && rs + [] == rs && argv + [] == argv;
    } else {
      var w := ts[0].text;
      var e := RedirsSound(ts[1..], rs);
      var q := ParseRedirs(ts[1..], rs).value;
      var f := ArgsSound(q.rest, argv + [w], q.rs);
      var rest := ParseArgs(q.rest, argv + [w], q.rs).value.rest;
      OneWord(w);
      SimpleMore([Word(w)], e);
      SimpleMore([Word(w)] + e, f);
      d := [Word(w)] + e + f;
      assert ts == [Word(w)] + ts[1..];
      Assoc3([Word(w)], e, f, rest);
      hide ParseArgs;
    }
  }

  lemma NothingRead()
    ensures IsSimple([]) && ArgsOf([]) == [] && RedirsOf([]) == []
  {}

  lemma OneWord(w: string)
    ensures IsSimple([Word(w)]) && ArgsOf([Word(w)]) == [w] && RedirsOf([Word(w)]) == []
  {}

  lemma {:induction false} RedirsAfterBlock(d: seq<Token>, c: Cmd<string>, e: seq<Token>)
    requires BlockRule(d, c) && OnlyRedirs(e)
    ensures BlockRule(d + e, Wrap(c, RedirsOf(e)))
    decreases |e|
  {
    if e == [] {
      assert d + e == d;
    } else {
      var r := Redirection(e[1].text, DirOf(e[0]));
      var d1 := d + e[..2];
      assert d1[..|d1| - 2] == d;
      RedirsAfterBlock(d1, Redir(c, r.file, r.dir), e[2..]);
      assert d1 + e[2..] == d + e;
      WrapFirst(c, r, RedirsOf(e[2..]));
    }
  }

  lemma {:induction false} WrapFirst(c: Cmd<string>, r: Redirection<string>, rs: seq<Redirection<string>>)
    ensures Wrap(c, [r] + rs) == Wrap(Redir(c, r.file, r.dir), rs)
    decreases |rs|
  {
    var all := [r] + rs;
    if rs == [] {
      assert all[..0] == [] && all == [r];
    } else {
      var n := |rs| - 1;
      assert all[..n + 1] == [r] + rs[..n] && all[n + 1] == rs[n];
      WrapFirst(c, r, rs[..n]);
    }
  }

  lemma {:induction false} ExecSound(ts: seq<Token>) returns (d: seq<Token>)
    requires ParseExec(ts).Some?
    ensures ts == d + ParseExec(ts).value.rest && ExecRule(d, ParseExec(ts).value.cmd)
    decreases |ts|, 1
  {
    hide ParseLine, ParseRedirs, ParseArgs, BlockRule, IsSimple, ArgsOf, RedirsOf, Wrap;
    if ts != [] && ts[0].LPar? {
      d := BlockSound(ts);
    } else {
      var e := RedirsSound(ts, []);
      var q := ParseRedirs(ts, []).value;
      var f := ArgsSound(q.rest, [], q.rs);
      SimpleMore(e, f);
      d := e + f;
      assert [] + ArgsOf(f) == ArgsOf(f) && [] + RedirsOf(e) == RedirsOf(e);
      assert ts == d + ParseArgs(q.rest, [], q.rs).value.rest;
    }
  }

  lemma {:induction false} BlockSound(ts: seq<Token>) returns (d: seq<Token>)
    requires ParseExec(ts).Some? && ts != [] && ts[0].LPar?
    ensures ts == d + ParseExec(ts).value.rest && BlockRule(d, ParseExec(ts).value.cmd)
    decreases |ts|, 0
  {
    hide ParseLine, ParseRedirs, ParseArgs, LineRule, IsSimple, ArgsOf, RedirsOf, Wrap;
    var body := LineSound(ts[1..]);
    var l := ParseLine(ts[1..]).value;
    var e := RedirsSound(l.rest[1..], []);
    var rest := ParseRedirs(l.rest[1..], []).value.rest;
    d := [LPar] + body + [RPar];
    assert d[1..|d| - 1] == body;
    RedirsAfterBlock(d, l.cmd, e);
    assert [] + RedirsOf(e) == RedirsOf(e);
    assert ts == [LPar] + ts[1..] && l.rest == [RPar] + l.rest[1..];
    Assoc3([LPar], body, [RPar], e + rest);
    d := d + e;
  }

  lemma {:induction false} PipeSound(ts: seq<Token>) returns (d: seq<Token>)
    requires ParsePipe(ts).Some?
    ensures ts == d + ParsePipe(ts).value.rest && PipeRule(d, ParsePipe(ts).value.cmd)
    decreases |ts|, 2
  {
    hide ParseExec, ExecRule;
    d := ExecSound(ts);
    var l := ParseExec(ts).value;
    if l.rest != [] && l.rest[0].Bar? {
      var e := PipeSound(l.rest[1..]);
      var r := ParsePipe(l.rest[1..]).value;
      PipeOf(d, l.cmd, e, r.cmd);
      assert l.rest == [Bar] + l.rest[1..];
      Assoc3(d, [Bar], e, r.rest);
      d := d + [Bar] + e;
    }
  }

  lemma PipeOf(d: seq<Token>, l: Cmd<string>, e: seq<Token>, r: Cmd<string>)
    requires ExecRule(d, l) && PipeRule(e, r)
    ensures PipeRule(d + [Bar] + e, Pipe(l, r))
  {
    hide ExecRule;
    var ts, i := d + [Bar] + e, |d|;
    assert ts[..i] == d && ts[i].Bar? && ts[i + 1..] == e;
  }

  lemma {:induction false} AmpsSound(d: seq<Token>, c: Cmd<string>, more: seq<Token>) returns (e: seq<Token>)
    requires BackRule(d, c)
    ensures d + more == e + Amps(c, more).rest && BackRule(e, Amps(c, more).cmd)
    decreases |more|
  {
    e := d;
    if more != [] && more[0].Amp? {
      assert (d + [Amp])[..|d|] == d;
      e := AmpsSound(d + [Amp], Back(c), more[1..]);
      assert d + more == d + [Amp] + more[1..];
    }
  }

  lemma {:induction false} LineSound(ts: seq<Token>) returns (d: seq<Token>)
    requires ParseLine(ts).Some?
    ensures ts == d + ParseLine(ts).value.rest && LineRule(d, ParseLine(ts).value.cmd)
    decreases |ts|, 4
  {
    hide ParsePipe, PipeRule, Amps;
    d := PipeSound(ts);
    var p := ParsePipe(ts).value;
    d := AmpsSound(d, p.cmd, p.rest);
    var a := Amps(p.cmd, p.rest);
    if a.rest != [] && a.rest[0].Semi? {
      var e := LineSound(a.rest[1..]);
      var r := ParseLine(a.rest[1..]).value;
      ListOf(d, a.cmd, e, r.cmd);
      assert a.rest == [Semi] + a.rest[1..];
      Assoc3(d, [Semi], e, r.rest);
      d := d + [Semi] + e;
    }
  }

  lemma ListOf(d: seq<Token>, l: Cmd<string>, e: seq<Token>, r: Cmd<string>)
    requires BackRule(d, l) && LineRule(e, r)
    ensures LineRule(d + [Semi] + e, List(l, r))
  {
    hide BackRule;
    var ts, i := d + [Semi] + e, |d|;
    assert ts[..i] == d && ts[i].Semi? && ts[i + 1..] == e;
  }

  // ---- the parser decides the grammar ----

  /** Exactly the lines of the grammar are parsed, each into the tree its rules give it. */
  lemma ParsesIff(ts: seq<Token>, c: Cmd<string>)
    ensures ParseCmd(ts) == Some(c) <==> LineRule(ts, c)
  {
    hide ParseLine, LineRule;
    if LineRule(ts, c) {
      LineReads(ts, c, []);
      assert ts + [] == ts;
    }
    if ParseCmd(ts).Some? {
      var d := LineSound(ts);
      assert d + [] == d;
    }
  }

  /** A line is refused, with a panic, when no tree follows from the rules. */
  lemma RefusedIff(ts: seq<Token>)
    ensures ParseCmd(ts) == None <==> forall c :: !LineRule(ts, c)
  {
    hide ParseCmd, LineRule;
    forall c ensures LineRule(ts, c) <==> ParseCmd(ts) == Some(c) { ParsesIff(ts, c); }
    if ParseCmd(ts).Some? { assert LineRule(ts, ParseCmd(ts).value); }
  }

  /** No line has two trees. */
  lemma Unambiguous(ts: seq<Token>, c: Cmd<string>, d: Cmd<string>)
    requires LineRule(ts, c) && LineRule(ts, d)
    ensures c == d
  {
    ParsesIff(ts, c);
    ParsesIff(ts, d);
  }
}
