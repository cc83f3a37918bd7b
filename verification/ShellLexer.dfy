/** The shell's tokens (user/sh.c: gettoken, peek): which tokens a line holds, how a
    token list is spelled, and the two operations over a line and a position in it. */
module ShellLexer {
  import opened Basics
  import opened ShellSyntax

  predicate IsSpace(c: char) {
    c == ' ' || c == '\t' || c == '\r' || c == '\n' || c == '\U{000B}'
  }

  predicate IsSymbol(c: char) {
    c == '<' || c == '|' || c == '>' || c == '&' || c == ';' || c == '(' || c == ')'
  }

  predicate IsWordChar(c: char) {
    !IsSpace(c) && !IsSymbol(c)
  }

  function SymbolToken(c: char): Token
    requires IsSymbol(c)
  {
    match c
    case '<' => Less
    case '|' => Bar
    case '>' => Great
    case '&' => Amp
    case ';' => Semi
    case '(' => LPar
    case _ => RPar
  }

  /** The line from its first character that is not white space. */
  function Skip(s: string): (r: string)
    ensures |r| <= |s| && (r != "" ==> !IsSpace(r[0]))
  {
    if s != "" && IsSpace(s[0]) then Skip(s[1..]) else s
  }

  function WordLength(s: string): (n: int)
    ensures 0 <= n <= |s| && (forall i | 0 <= i < n :: IsWordChar(s[i])) && (n < |s| ==> !IsWordChar(s[n]))
  {
    if s != "" && IsWordChar(s[0]) then 1 + WordLength(s[1..]) else 0
  }

  function Tokens(s: string): seq<Token>
    decreases |s|
  {
    var r := Skip(s);
    if r == "" then []
    else if |r| > 1 && r[0] == '>' && r[1] == '>' then [Append] + Tokens(r[2..])
    else if IsSymbol(r[0]) then [SymbolToken(r[0])] + Tokens(r[1..])
    else var n := WordLength(r); [Word(r[..n])] + Tokens(r[n..])
  }

  // ---- spelling ----

  predicate IsWord(w: string) {
    w != "" && forall i | 0 <= i < |w| :: IsWordChar(w[i])
  }

  function Text(t: Token): string {
    match t
    case Less => "<"
    case Bar => "|"
    case Great => ">"
    case Amp => "&"
    case Semi => ";"
    case LPar => "("
    case RPar => ")"
    case Append => ">>"
    case Word(w) => w
  }

  /** Every token followed by a space. */
  function Spell(ts: seq<Token>): string {
    if ts == [] then "" else Text(ts[0]) + (" " + Spell(ts[1..]))
  }

  lemma {:induction false} WordLengthOf(w: string, x: string)
    requires (forall i | 0 <= i < |w| :: IsWordChar(w[i])) && (x == "" || !IsWordChar(x[0]))
    ensures WordLength(w + x) == |w|
  {
    if w == "" {
      assert w + x == x;
    } else {
      assert (w + x)[1..] == w[1..] + x;
      WordLengthOf(w[1..], x);
    }
  }

  // ---- white space and symbols, spelled out ----

  /** A character other than those of the source's two strings belongs to a word. */
  lemma CharKinds(c: char)
    ensures IsSpace(c) <==> c in " \t\r\n\U{000B}"
    ensures IsSymbol(c) <==> c in "<|>&;()"
    ensures IsWordChar(c) <==> c !in " \t\r\n\U{000B}" + "<|>&;()"
    ensures IsSymbol(c) ==> !IsSpace(c) && Text(SymbolToken(c)) == [c]
  {}

  lemma {:induction false} SkipMore(s: string, x: string)
    ensures Skip(s + x) == if Skip(s) == "" then Skip(x) else Skip(s) + x
  {
    if s == "" {
      assert s + x == x;
    } else {
      assert (s + x)[1..] == s[1..] + x;
      if IsSpace(s[0]) { SkipMore(s[1..], x); }
    }
  }

  lemma {:induction false} SkipLast(s: string)
    requires Skip(s) != ""
    ensures Skip(s)[|Skip(s)| - 1] == s[|s| - 1]
  {
    if IsSpace(s[0]) { SkipLast(s[1..]); }
  }

  lemma SkippedTokens(s: string, t: string)
    requires Skip(s) == Skip(t)
    ensures Tokens(s) == Tokens(t)
  {}

  /** The tokens of a line that starts with white space or with what is left of it. */
  lemma SkipOnce(s: string)
    ensures Skip(Skip(s)) == Skip(s)
  {}

  /** The first token of a line with a white-space or symbol character after its part r. */
  lemma FirstBefore(r: string, c: char, t: string) returns (n: nat)
    requires r != "" && !IsSpace(r[0]) && !IsWordChar(c) && !(c == '>' == r[|r| - 1])
    ensures 0 < n <= |r|
    ensures exists k: Token :: Tokens(r) == [k] + Tokens(r[n..]) && Tokens(r + ([c] + t)) == [k] + Tokens(r[n..] + ([c] + t))
  {
    hide Tokens;
    var x := r + ([c] + t);
    assert x[0] == r[0] && (|r| > 1 ==> x[1] == r[1]) && (|r| == 1 ==> x[1] == c);
    StartsAt(r);
    StartsAt(x);
    if |r| > 1 && r[0] == '>' && r[1] == '>' {
      n := 2;
    } else if IsSymbol(r[0]) {
      n := 1;
    } else {
      n := WordLength(r);
      WordEndsBefore(r, c, t);
      assert x[..n] == r[..n];
    }
    assert x[n..] == r[n..] + ([c] + t);
  }

  lemma WordEndsBefore(r: string, c: char, t: string)
    requires !IsWordChar(c)
    ensures WordLength(r + ([c] + t)) == WordLength(r)
  {
    var n := WordLength(r);
    WordLengthOf(r[..n], r[n..] + ([c] + t));
    assert r[..n] + (r[n..] + ([c] + t)) == r + ([c] + t);
  }

  /** How Tokens reads a line with no white space in front. */
  lemma StartsAt(r: string)
    requires r != "" && !IsSpace(r[0])
    ensures Tokens(r) ==
      if |r| > 1 && r[0] == '>' && r[1] == '>' then [Append] + Tokens(r[2..])
      else if IsSymbol(r[0]) then [SymbolToken(r[0])] + Tokens(r[1..])
      else [Word(r[..WordLength(r)])] + Tokens(r[WordLength(r)..])
  {}

  /** A line is read in parts around any character that is neither in a word nor the second of ">>". */
  lemma {:induction false} TokensAround(s: string, c: char, t: string)
    requires !IsWordChar(c) && (c == '>' && s != "" ==> s[|s| - 1] != '>')
    ensures Tokens(s + ([c] + t)) == Tokens(s) + Tokens([c] + t)
    decreases |s|
  {
    hide Tokens;
    var r, x := Skip(s), [c] + t;
    SkipMore(s, x);
    SkipOnce(s);
    SkippedTokens(s, r);
    if r == "" {
      SkippedTokens(s + x, x);
      NoTokens();
      assert Tokens(s) + Tokens(x) == Tokens(x);
    } else {
      SkipLast(s);
      SkipMore(r, x);
      SkippedTokens(s + x, r + x);
      var n := FirstBefore(r, c, t);
      var k :| Tokens(r) == [k] + Tokens(r[n..]) && Tokens(r + x) == [k] + Tokens(r[n..] + x);
      TokensAround(r[n..], c, t);
      assert [k] + (Tokens(r[n..]) + Tokens(x)) == ([k] + Tokens(r[n..])) + Tokens(x);
    }
  }

  lemma NoTokens()
    ensures Tokens("") == []
  {}

  /** White space separates and means nothing else, wherever it stands: the newline that ends a
      typed line is no part of its last word. */
  lemma SpaceSeparates(s: string, c: char, t: string)
    requires c in " \t\r\n\U{000B}"
    ensures Tokens(s + ([c] + t)) == Tokens(s) + Tokens(t)
  {
    TokensAround(s, c, t);
    assert ([c] + t)[1..] == t;
    SkippedTokens([c] + t, t);
    hide Tokens;
  }

  /** A symbol at the front of a line. */
  lemma SymbolFirst(k: Token, t: string)
    requires !k.Word? && (k.Great? && t != "" ==> t[0] != '>')
    ensures Tokens(Text(k) + t) == [k] + Tokens(t)
  {
    hide Tokens;
    var n := |Text(k)|;
    var x := Text(k) + t;
    assert x[0] == Text(k)[0] && x[n..] == t && (|x| > 1 && k.Great? ==> x[1] != '>');
    assert k.Append? ==> x[1] == '>';
    StartsAt(x);
  }

  /** A symbol needs no white space around it, as long as no ">" meets another. */
  lemma SymbolSeparates(s: string, k: Token, t: string)
    requires !k.Word? && (k.Great? && t != "" ==> t[0] != '>')
    requires (k.Great? || k.Append?) && s != "" ==> s[|s| - 1] != '>'
    ensures Tokens(s + (Text(k) + t)) == Tokens(s) + [k] + Tokens(t)
  {
    hide Tokens;
    var c, u := Text(k)[0], Text(k)[1..];
    TokensAround(s, c, u + t);
    assert Text(k) + t == [c] + (u + t);
    SymbolFirst(k, t);
    assert Tokens(s) + ([k] + Tokens(t)) == Tokens(s) + [k] + Tokens(t);
  }

  /** A word, read up to the first character that is in no word. */
  lemma WordFirst(w: string, t: string)
    requires w != "" && forall i | 0 <= i < |w| :: w[i] !in " \t\r\n\U{000B}<|>&;()"
    requires t != "" ==> t[0] in " \t\r\n\U{000B}<|>&;()"
    ensures Tokens(w + t) == [Word(w)] + Tokens(t)
  {
    hide Tokens;
    assert (w + t)[0] == w[0] && (w + t)[..|w|] == w && (w + t)[|w|..] == t;
    WordLengthOf(w, t);
    StartsAt(w + t);
  }

  /** A typed word and the newline that gets leaves after it: the command of that one word. */
  lemma TypedWord(w: string)
    requires w != "" && forall i | 0 <= i < |w| :: w[i] !in " \t\r\n\U{000B}<|>&;()"
    ensures ParseCmd(Tokens(w + "\n")) == Some(Exec([w]))
  {
    hide Tokens, ParseCmd;
    SpaceSeparates(w, '\n', "");
    assert ['\n'] + "" == "\n" && w + "" == w;
    WordFirst(w, "");
    NoTokens();
    RoundTrip(Exec([w]));
    assert [Word(w)] + [] + [] == [Word(w)] == Words([w]) == Bare(Exec([w]));
  }

  lemma TokensSpace(s: string)
    ensures Tokens(" " + s) == Tokens(s)
  {
    assert (" " + s)[1..] == s;
  }

  lemma FirstToken(t: Token, x: string)
    requires t.Word? ==> IsWord(t.text)
    ensures Tokens(Text(t) + (" " + x)) == [t] + Tokens(" " + x)
  {
    var s := Text(t) + (" " + x);
    assert s[0] == Text(t)[0] && s[|Text(t)|] == ' ' && s[|Text(t)|..] == " " + x;
    if t.Word? { WordLengthOf(t.text, " " + x); assert s[..|t.text|] == t.text; }
  }

  /** The tokens of a spelling are what was spelled. */
  lemma {:induction false} TokensOfSpelling(ts: seq<Token>)
    requires forall i | 0 <= i < |ts| && ts[i].Word? :: IsWord(ts[i].text)
    ensures Tokens(Spell(ts)) == ts
  {
    if ts != [] {
      FirstToken(ts[0], Spell(ts[1..]));
      TokensSpace(Spell(ts[1..]));
      TokensOfSpelling(ts[1..]);
    }
  }

  /** Every word and file name in the tree is one the lexer reads as a word. */
  predicate GoodWords(c: Cmd<string>) {
    match c
    case Exec(argv) => forall i | 0 <= i < |argv| :: IsWord(argv[i])
    case Redir(c1, file, dir) => GoodWords(c1) && IsWord(file)
    case Pipe(l, r) => GoodWords(l) && GoodWords(r)
    case Back(c1) => GoodWords(c1)
    case List(l, r) => GoodWords(l) && GoodWords(r)
  }

  ghost predicate WordsGood(ts: seq<Token>) {
    forall i | 0 <= i < |ts| && ts[i].Word? :: IsWord(ts[i].text)
  }

  lemma {:induction false} BareWordsGood(c: Cmd<string>)
    requires GoodWords(c)
    ensures WordsGood(Bare(c)) && forall l :: WordsGood(Show(c, l))
  {
    match c
    case Exec(argv) =>
    case Redir(c1, file, dir) => BareWordsGood(c1);
    case Pipe(l, r) => BareWordsGood(l); BareWordsGood(r);
    case Back(c1) => BareWordsGood(c1);
    case List(l, r) => BareWordsGood(l); BareWordsGood(r);
  }

  /** Spelling a command canonically and parsing the line gives the command back, or a panic
      if some simple command of it has too many words. */
  lemma LineRoundTrip(c: Cmd<string>)
    requires GoodWords(c)
    ensures ParseCmd(Tokens(Spell(Bare(c)))) == if Fits(c) then Some(c) else None
  {
    BareWordsGood(c);
    TokensOfSpelling(Bare(c));
    RoundTrip(c);
  }

  /** A line of one word: its only token. */
  lemma LastWord(f: string)
    requires IsWord(f)
    ensures Tokens(f) == [Word(f)]
  {
    assert f + "" == f;
    WordLengthOf(f, "");
    assert f[..|f|] == f && f[|f|..] == "";
  }

  lemma RedirectionTokens(w: string, t: Token, f: string)
    requires IsWord(w) && IsRedir(t) && IsWord(f)
    ensures Tokens(w + (" " + (Text(t) + (" " + f)))) == [Word(w), t, Word(f)]
  {
    hide Tokens, Text;
    FirstToken(Word(w), Text(t) + (" " + f));
    assert Text(Word(w)) == w by { WordText(w); }
    TokensSpace(Text(t) + (" " + f));
    FirstToken(t, f);
    TokensSpace(f);
    LastWord(f);
    assert [Word(w)] + ([t] + [Word(f)]) == [Word(w), t, Word(f)];
  }

  lemma WordText(w: string)
    ensures Text(Word(w)) == w
  {}

  /** Of two lines that differ in this alone: both make the file anew and give the same tree. */
  lemma AppendLine(w: string, f: string)
    requires IsWord(w) && IsWord(f)
    ensures ParseCmd(Tokens(w + (" " + (">>" + (" " + f))))) == ParseCmd(Tokens(w + (" " + (">" + (" " + f)))))
            == Some(Redir(Exec([w]), f, Output))
  {
    RedirectionTokens(w, Append, f);
    RedirectionTokens(w, Great, f);
    GreatTree(w, f);
    AppendIsGreat([Word(w), Append, Word(f)]);
    assert AsGreat([Word(w), Append, Word(f)]) == [Word(w), Great, Word(f)];
    hide ParseCmd, Tokens;
  }

  lemma GreatTree(w: string, f: string)
    ensures ParseCmd([Word(w), Great, Word(f)]) == Some(Redir(Exec([w]), f, Output))
  {
    var c := Redir(Exec([w]), f, Output);
    RoundTrip(c);
    assert Words([w]) == [Word(w)];
    assert Show(Exec([w]), 0) == [Word(w)];
    assert Bare(c) == [Word(w)] + [Great, Word(f)] == [Word(w), Great, Word(f)];
    hide ParseCmd;
  }
}
