/** gettoken and peek of sh.c over a command line, and how a list of tokens is written out. */
module ShellLexer {
  import opened ShellSyntax

  /** The characters of a word, as positions in the line. */
  datatype Span = Span(start: nat, end: nat)

  predicate IsSpace(c: char) {
    c == ' ' || c == '\t' || c == '\r' || c == '\n' || c == 11 as char
  }

  predicate IsSymbol(c: char) {
    c == '<' || c == '|' || c == '>' || c == '&' || c == ';' || c == '(' || c == ')'
  }

  predicate IsWordChar(c: char) {
    !IsSpace(c) && !IsSymbol(c)
  }

  /** The first position from p on that is not white space. */
  function Skip(text: string, p: nat): (q: nat)
    requires p <= |text|
    ensures p <= q <= |text| && (q < |text| ==> !IsSpace(text[q]))
    decreases |text| - p
  {
    if p < |text| && IsSpace(text[p]) then Skip(text, p + 1) else p
  }

  /** The end of the word that p is in. */
  function WordEnd(text: string, p: nat): (q: nat)
    requires p <= |text|
    ensures p <= q <= |text| && (q < |text| ==> !IsWordChar(text[q]))
    ensures forall i :: p <= i < q ==> IsWordChar(text[i])
    decreases |text| - p
  {
    if p < |text| && IsWordChar(text[p]) then WordEnd(text, p + 1) else p
  }

  datatype Lexeme = Lexeme(tok: Token<Span>, end: nat)

  /** The token at q, which is not white space. */
  function Lex(text: string, q: nat): (l: Lexeme)
    requires q < |text| && !IsSpace(text[q])
    ensures q < l.end <= |text|
  {
    if text[q] == '>' then
      if q + 1 < |text| && text[q + 1] == '>' then Lexeme(More, q + 2) else Lexeme(Sym('>'), q + 1)
    else if IsSymbol(text[q]) then Lexeme(Sym(text[q]), q + 1)
    else
      var e := WordEnd(text, q + 1);
      Lexeme(Word(Span(q, e)), e)
  }

  /** All tokens from p on. */
  function Tokens(text: string, p: nat): seq<Token<Span>>
    requires p <= |text|
    decreases |text| - p
  {
    var q := Skip(text, p);
    if q == |text| then [] else [Lex(text, q).tok] + Tokens(text, Lex(text, q).end)
  }

  lemma {:induction false} SkipTwice(text: string, p: nat)
    requires p <= |text|
    ensures Skip(text, Skip(text, p)) == Skip(text, p)
    ensures Tokens(text, Skip(text, p)) == Tokens(text, p)
  {
  }

  /** A word of the line: all of its characters and no more. */
  predicate WordSpan(text: string, sp: Span) {
    && sp.start < sp.end <= |text| && (forall i :: sp.start <= i < sp.end ==> IsWordChar(text[i]))
    && (sp.end < |text| ==> !IsWordChar(text[sp.end]))
  }

  ghost predicate AllWords(text: string, ts: seq<Token<Span>>) {
    forall i :: 0 <= i < |ts| ==> (ts[i].Word? ==> WordSpan(text, ts[i].w))
  }

  lemma {:induction false} TokensWords(text: string, p: nat)
    requires p <= |text|
    ensures AllWords(text, Tokens(text, p))
    decreases |text| - p
  {
    var q := Skip(text, p);
    if q < |text| {
      TokensWords(text, Lex(text, q).end);
    }
  }

  /** The characters of a span. */
  function Str(text: string, sp: Span): string {
    if sp.start <= sp.end <= |text| then text[sp.start..sp.end] else ""
  }

  function Texts(text: string): Span -> string {
    (sp: Span) => Str(text, sp)
  }

  function Spell(t: Token<string>): string {
    match t case Word(w) => w case Sym(c) => [c] case More => ">>"
  }

  /** Tokens written out, each after a blank. */
  function Render(ts: seq<Token<string>>): string {
    if ts == [] then "" else " " + Spell(ts[0]) + Render(ts[1..])
  }

  predicate GoodWord(w: string) {
    w != "" && forall i :: 0 <= i < |w| ==> IsWordChar(w[i])
  }

  predicate Good(t: Token<string>) {
    match t case Word(w) => GoodWord(w) case Sym(c) => IsSymbol(c) case More => true
  }

  ghost predicate AllGood(ts: seq<Token<string>>) {
    forall i :: 0 <= i < |ts| ==> Good(ts[i])
  }

  lemma {:induction false} WordEndIs(text: string, p: nat, e: nat)
    requires p <= e <= |text| && forall i :: p <= i < e ==> IsWordChar(text[i])
    requires e < |text| ==> !IsWordChar(text[e])
    ensures WordEnd(text, p) == e
    decreases e - p
  {
    if p < e {
      WordEndIs(text, p + 1, e);
    }
  }

  /** A token written at q and followed by a blank or the end is read back. */
  lemma LexSpelled(text: string, q: nat, t: Token<string>)
    requires Good(t) && q + |Spell(t)| <= |text| && text[q..q + |Spell(t)|] == Spell(t)
    requires q + |Spell(t)| < |text| ==> text[q + |Spell(t)|] == ' '
    ensures q < |text| && !IsSpace(text[q])
    ensures Lex(text, q).end == q + |Spell(t)| && MapTok(Texts(text), Lex(text, q).tok) == t
  {
    var e := q + |Spell(t)|;
    assert forall i :: q <= i < e ==> text[i] == text[q..e][i - q];
    if t.Word? {
      WordEndIs(text, q + 1, e);
    }
  }

  lemma Pieces(pre: string, w: string, rest: string)
    ensures var text, q := pre + " " + w + rest, |pre| + 1;
            && |text| == q + |w| + |rest| && text[|pre|] == ' ' && text[q..q + |w|] == w
            && (rest != "" ==> text[q + |w|] == rest[0])
  {
  }

  lemma Assoc(a: string, b: string, c: string, d: string)
    ensures a + (b + c + d) == a + b + c + d
  {
  }

  lemma RenderStarts(pre: string, ts: seq<Token<string>>)
    requires ts != []
    ensures pre + Render(ts) == pre + " " + Spell(ts[0]) + Render(ts[1..])
    ensures Render(ts[1..]) != "" ==> Render(ts[1..])[0] == ' '
  {
    Assoc(pre, " ", Spell(ts[0]), Render(ts[1..]));
    assert Render(ts) == " " + Spell(ts[0]) + Render(ts[1..]);
  }

  lemma TokensStep(text: string, p: nat, f: Span -> string)
    requires p < |text| && Skip(text, p) < |text|
    ensures var l := Lex(text, Skip(text, p));
            MapToks(f, Tokens(text, p)) == [MapTok(f, l.tok)] + MapToks(f, Tokens(text, l.end))
  {
  }

  lemma LexOne(pre: string, t: Token<string>, rest: string)
    requires Good(t) && (rest != "" ==> rest[0] == ' ')
    ensures var text := pre + " " + Spell(t) + rest;
            && |pre| < |text| && Skip(text, |pre|) == |pre| + 1 < |text|
            && var l := Lex(text, |pre| + 1); l.end == |pre + " " + Spell(t)| && MapTok(Texts(text), l.tok) == t
  {
    var text := pre + " " + Spell(t) + rest;
    Pieces(pre, Spell(t), rest);
    LexSpelled(text, |pre| + 1, t);
    assert Skip(text, |pre| + 1) == |pre| + 1;
  }

  /** Lexing what Render wrote gives the tokens back. */
  lemma {:induction false} LexRender(pre: string, ts: seq<Token<string>>)
    requires AllGood(ts)
    ensures MapToks(Texts(pre + Render(ts)), Tokens(pre + Render(ts), |pre|)) == ts
    decreases |ts|
  {
    var text := pre + Render(ts);
    if ts == [] {
      assert text == pre;
    } else {
      RenderStarts(pre, ts);
      LexOne(pre, ts[0], Render(ts[1..]));
      TokensStep(text, |pre|, Texts(text));
      LexRender(pre + " " + Spell(ts[0]), ts[1..]);
    }
  }
}
