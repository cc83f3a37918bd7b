/** The regular expression matcher of user/grep.c against the language a pattern stands
    for. Strings are the characters before the terminating NUL. */
module Regex {

  /** One character of the pattern, plain or starred. */
  datatype Item = One(c: char) | Star(c: char)

  /** A pattern as the code reads it: x* is starred whatever x is, a final $ that is not
      starred anchors at the end, everything else is plain. */
  function Items(re: string): seq<Item> {
    if re == "" || re == "$" then []
    else if |re| > 1 && re[1] == '*' then [Star(re[0])] + Items(re[2..])
    else [One(re[0])] + Items(re[1..])
  }

  predicate Anchored(re: string) {
    if re == "" then false
    else if |re| > 1 && re[1] == '*' then Anchored(re[2..])
    else re == "$" || Anchored(re[1..])
  }

  predicate Fits(c: char, x: char) {
    c == '.' || c == x
  }

  /** The words of one item: one fitting character, or any number of them. */
  predicate WordOf(i: Item, w: string) {
    (i.One? ==> |w| == 1) && forall k | 0 <= k < |w| :: Fits(i.c, w[k])
  }

  function Flatten(ws: seq<string>): string {
    if ws == [] then "" else ws[0] + Flatten(ws[1..])
  }

  /** w is split into one word for each item. */
  ghost predicate Splits(items: seq<Item>, ws: seq<string>, w: string) {
    |ws| == |items| && Flatten(ws) == w && forall i | 0 <= i < |items| :: WordOf(items[i], ws[i])
  }

  /** The language of a sequence of items: concatenations of a word of each. */
  ghost predicate InLanguage(items: seq<Item>, w: string) {
    exists ws :: Splits(items, ws, w)
  }

  /** The first n characters of text are a word of re, up to the end if re is anchored. */
  ghost predicate BeginsWith(re: string, text: string, n: int) {
    0 <= n <= |text| && InLanguage(Items(re), text[..n]) && (Anchored(re) ==> n == |text|)
  }

  ghost predicate Here(re: string, text: string) {
    exists n :: BeginsWith(re, text, n)
  }

  /** What match promises. */
  ghost predicate Matches(re: string, text: string) {
    if re != "" && re[0] == '^' then Here(re[1..], text)
    else exists j | 0 <= j <= |text| :: Here(re, text[j..])
  }

  // ---- unfolding Here along the pattern ----

  lemma LanguageNil(w: string)
    ensures InLanguage([], w) <==> w == ""
  {
    if w == "" { assert Splits([], [], w); }
  }

  lemma LanguageCons(i: Item, items: seq<Item>, w: string)
    ensures InLanguage([i] + items, w) <==> exists k | 0 <= k <= |w| :: WordOf(i, w[..k]) && InLanguage(items, w[k..])
  {
    var all := [i] + items;
    assert all[1..] == items;
    if InLanguage(all, w) {
      var ws :| Splits(all, ws, w);
      var k := |ws[0]|;
      assert w[..k] == ws[0] && w[k..] == Flatten(ws[1..]);
      forall j | 0 <= j < |items| ensures WordOf(items[j], ws[1..][j]) { assert all[j + 1] == items[j]; }
      assert Splits(items, ws[1..], w[k..]);
    }
    if k :| 0 <= k <= |w| && WordOf(i, w[..k]) && InLanguage(items, w[k..]) {
      var ws :| Splits(items, ws, w[k..]);
      var vs := [w[..k]] + ws;
      assert vs[1..] == ws && w[..k] + w[k..] == w;
      assert Splits(all, vs, w);
    }
  }

  lemma HereNil(text: string)
    ensures Here("", text)
  {
    LanguageNil(text[..0]);
    assert BeginsWith("", text, 0);
  }

  lemma HereEnd(text: string)
    ensures Here("$", text) <==> text == ""
  {
    forall n | BeginsWith("$", text, n) ensures n == 0 == |text| { LanguageNil(text[..n]); }
    LanguageNil("");
    if text == "" { assert text[..0] == ""; assert BeginsWith("$", text, 0); }
  }

  /** The leading item of re takes the first k characters. */
  lemma HereCons(re: string, i: Item, rest: string, text: string)
    requires re != "" && Items(re) == [i] + Items(rest) && Anchored(re) == Anchored(rest)
    ensures Here(re, text) <==> exists k | 0 <= k <= |text| :: WordOf(i, text[..k]) && Here(rest, text[k..])
  {
    if Here(re, text) {
      var n :| BeginsWith(re, text, n);
      LanguageCons(i, Items(rest), text[..n]);
      var k :| 0 <= k <= |text[..n]| && WordOf(i, text[..n][..k]) && InLanguage(Items(rest), text[..n][k..]);
      assert text[..n][..k] == text[..k] && text[..n][k..] == text[k..][..n - k];
      assert BeginsWith(rest, text[k..], n - k);
    }
    if k :| 0 <= k <= |text| && WordOf(i, text[..k]) && Here(rest, text[k..]) {
      var m :| BeginsWith(rest, text[k..], m);
      var n := k + m;
      assert text[..n][..k] == text[..k] && text[..n][k..] == text[k..][..m];
      LanguageCons(i, Items(rest), text[..n]);
      assert BeginsWith(re, text, n);
    }
  }

  lemma HereOne(re: string, text: string)
    requires re != "" && re != "$" && !(|re| > 1 && re[1] == '*')
    ensures Here(re, text) <==> text != "" && Fits(re[0], text[0]) && Here(re[1..], text[1..])
  {
    HereCons(re, One(re[0]), re[1..], text);
    forall k | 0 <= k <= |text| ensures WordOf(One(re[0]), text[..k]) <==> k == 1 && Fits(re[0], text[0]) {}
  }

  lemma HereStar(c: char, re: string, text: string)
    ensures Here([c] + "*" + re, text) <==> StarHere(c, re, text, 0)
  {
    var all := [c] + "*" + re;
    assert all[2..] == re;
    HereCons(all, Star(c), re, text);
    if Here(all, text) {
      var k :| 0 <= k <= |text| && WordOf(Star(c), text[..k]) && Here(re, text[k..]);
      forall j | 0 <= j < k ensures Fits(c, text[j]) { assert text[..k][j] == text[j]; }
      assert Stops(c, re, text, 0, k);
    }
    if StarHere(c, re, text, 0) {
      var k :| Stops(c, re, text, 0, k);
      assert WordOf(Star(c), text[..k]);
    }
  }

  /** From position j on: characters that fit c up to k, and re from there. */
  ghost predicate Stops(c: char, re: string, text: string, j: int, k: int) {
    0 <= j <= k <= |text| && (forall i | j <= i < k :: Fits(c, text[i])) && Here(re, text[k..])
  }

  ghost predicate StarHere(c: char, re: string, text: string, j: int) {
    exists k :: Stops(c, re, text, j, k)
  }

  // ---- the code ----

  /** matchhere: re matches at the beginning of text. */
  method MatchHere(re: string, text: string) returns (b: bool)
    ensures b == Here(re, text)
    decreases |re|, 0
  {
    if re == "" {
      HereNil(text);
      return true;
    }
    if |re| > 1 && re[1] == '*' {
      HereStar(re[0], re[2..], text);
      assert [re[0]] + "*" + re[2..] == re;
      b := MatchStar(re[0], re[2..], text);
      return;
    }
    if re[0] == '$' && |re| == 1 {
      assert re == "$";
      HereEnd(text);
      return text == "";
    }
    HereOne(re, text);
    if text != "" && (re[0] == '.' || re[0] == text[0]) {
      b := MatchHere(re[1..], text[1..]);
      return;
    }
    b := false;
  }

  /** matchstar: c* followed by re matches at the beginning of text. */
  method MatchStar(c: char, re: string, text: string) returns (b: bool)
    ensures b == StarHere(c, re, text, 0)
    decreases |re|, 1
  {
    var j := 0;
    while true
      invariant 0 <= j <= |text|
      invariant StarHere(c, re, text, 0) == StarHere(c, re, text, j)
      decreases |text| - j
    {
      var m := MatchHere(re, text[j..]);
      StarStep(c, re, text, j);
      if m {
        return true;
      }
      if j == |text| || !(text[j] == c || c == '.') {
        break;
      }
      j := j + 1;
    }
    b := false;
  }

  lemma StarStep(c: char, re: string, text: string, j: int)
    requires 0 <= j <= |text|
    ensures StarHere(c, re, text, j) <==>
      Here(re, text[j..]) || (j < |text| && Fits(c, text[j]) && StarHere(c, re, text, j + 1))
  {
    if Here(re, text[j..]) { assert Stops(c, re, text, j, j); }
    if k :| Stops(c, re, text, j, k) {
      if k > j { assert Stops(c, re, text, j + 1, k); }
    }
    if j < |text| && Fits(c, text[j]) && StarHere(c, re, text, j + 1) {
      var k :| Stops(c, re, text, j + 1, k);
      assert Stops(c, re, text, j, k);
    }
  }

  /** match: re matches somewhere in text, or at its beginning if it starts with ^. */
  method Match(re: string, text: string) returns (b: bool)
    ensures b == Matches(re, text)
  {
    if re != "" && re[0] == '^' {
      b := MatchHere(re[1..], text);
      return;
    }
    var j := 0;
    while true
      invariant 0 <= j <= |text| && forall i | 0 <= i < j :: !Here(re, text[i..])
      decreases |text| - j
    {
      var m := MatchHere(re, text[j..]);
      if m {
        return true;
      }
      if j == |text| {
        break;
      }
      j := j + 1;
    }
    b := false;
  }
}
