/** The regular expression matcher of grep.c, against the language a pattern denotes. */
module Regex {
  /** One character, or any number of one character. */
  datatype Item = One(c: char) | Star(c: char)

  /** A pattern as the matcher reads it; `dollar` if it has to reach the end of the text. */
  datatype Pattern = Pattern(items: seq<Item>, dollar: bool)

  /** A character followed by * repeats, whatever it is; a $ at the very end is an anchor; any
      other character, $ and * and ^ included, stands for itself or, if it is a dot, for any. */
  function Parse(re: string): Pattern {
    if re == [] then Pattern([], false)
    else if |re| > 1 && re[1] == '*' then Cons(Star(re[0]), Parse(re[2..]))
    else if re == "$" then Pattern([], true)
    else Cons(One(re[0]), Parse(re[1..]))
  }

  function Cons(x: Item, p: Pattern): Pattern {
    Pattern([x] + p.items, p.dollar)
  }

  /** A pattern written out: a star behind what repeats, a $ at the end for the anchor. */
  function Write(p: Pattern): string
    decreases |p.items|
  {
    if p.items == [] then if p.dollar then "$" else ""
    else Spell(p.items[0]) + Write(Rest(p))
  }

  function Spell(x: Item): string {
    if x.One? then [x.c] else [x.c, '*']
  }

  function Rest(p: Pattern): Pattern
    requires p.items != []
  {
    Pattern(p.items[1..], p.dollar)
  }

  /** No character that stands for itself reads as something else when written: none is before a
      star, and a $ at the very end is the anchor. */
  predicate Clear(p: Pattern) {
    forall i :: 0 <= i < |p.items| ==> ClearAt(p, i)
  }

  predicate ClearAt(p: Pattern, i: nat)
    requires i < |p.items|
  {
    p.items[i].One? ==>
      if i + 1 < |p.items| then p.items[i + 1].c != '*' else p.items[i].c == '$' ==> p.dollar
  }

  lemma ClearRest(p: Pattern)
    requires p.items != []
    ensures Clear(p) <==> ClearAt(p, 0) && Clear(Rest(p))
  {
    forall i: nat | i < |p.items| - 1 ensures ClearAt(Rest(p), i) <==> ClearAt(p, i + 1) {
      assert p.items[1..][i] == p.items[i + 1];
    }
    if ClearAt(p, 0) && Clear(Rest(p)) {
      forall i | 0 <= i < |p.items| ensures ClearAt(p, i) {
        assert i > 0 ==> ClearAt(Rest(p), i - 1);
      }
    }
  }

  /** The empty pattern is the only one written with no characters, and the first item starts
      with its character. */
  lemma WriteFirst(p: Pattern)
    ensures Write(p) == "" <==> p == Pattern([], false)
    ensures p.items != [] ==> Write(p)[0] == p.items[0].c
    ensures p.items == [] && p.dollar ==> Write(p) == "$"
  {
  }

  lemma ConsRest(x: Item, p: Pattern)
    ensures Rest(Cons(x, p)) == p && Write(Cons(x, p)) == Spell(x) + Write(p)
    ensures Clear(Cons(x, p)) <==> Clear(p) && (x.One? ==> if Write(p) == "" then x.c != '$' else Write(p)[0] != '*')
  {
    assert Cons(x, p).items[1..] == p.items;
    ClearRest(Cons(x, p));
    WriteFirst(p);
  }

  lemma ParseSpelled(x: Item, re: string)
    requires x.One? ==> if re == "" then x.c != '$' else re[0] != '*'
    ensures Parse(Spell(x) + re) == Cons(x, Parse(re))
  {
    assert (Spell(x) + re)[|Spell(x)|..] == re;
  }

  /** Reading what was written gives the pattern back. */
  lemma {:induction false} ParseWrite(p: Pattern)
    requires Clear(p)
    ensures Parse(Write(p)) == p
    decreases |p.items|
  {
    if p.items != [] {
      var x, q := p.items[0], Rest(p);
      assert p == Cons(x, q);
      ConsRest(x, q);
      ParseWrite(q);
      ParseSpelled(x, Write(q));
    }
  }

  /** What is read from a string is clear, and is written as that string. */
  lemma {:induction false} WriteParse(re: string)
    ensures Write(Parse(re)) == re && Clear(Parse(re))
  {
    if re != [] && re != "$" {
      var n := if |re| > 1 && re[1] == '*' then 2 else 1;
      WriteParse(re[n..]);
      ConsRest(if n == 2 then Star(re[0]) else One(re[0]), Parse(re[n..]));
    }
  }

  /** Exactly the clear patterns can be written. */
  lemma ReadsBack(p: Pattern)
    ensures Parse(Write(p)) == p <==> Clear(p)
  {
    WriteParse(Write(p));
    if Clear(p) {
      ParseWrite(p);
    }
  }

  predicate Fits(c: char, x: char) {
    c == '.' || c == x
  }

  predicate AllFit(c: char, u: string) {
    forall i :: 0 <= i < |u| ==> Fits(c, u[i])
  }

  /** The language of a list of items: a word splits into a piece for each. */
  ghost predicate InLanguage(items: seq<Item>, u: string) {
    if items == [] then u == []
    else match items[0]
      case One(c) => u != [] && Fits(c, u[0]) && InLanguage(items[1..], u[1..])
      case Star(c) => exists k :: 0 <= k <= |u| && AllFit(c, u[..k]) && InLanguage(items[1..], u[k..])
  }

  /** The stretch of text from i to j is in the language, and ends where the pattern wants. */
  ghost predicate Occurs(p: Pattern, text: string, i: nat, j: nat) {
    i <= j <= |text| && InLanguage(p.items, text[i..j]) && (p.dollar ==> j == |text|)
  }

  /** The pattern occurs at the start of the text. */
  ghost predicate Here(p: Pattern, text: string) {
    exists j: nat :: Occurs(p, text, 0, j)
  }

  lemma HereNothing(dollar: bool, text: string)
    ensures Here(Pattern([], dollar), text) <==> (dollar ==> text == [])
  {
    if dollar ==> text == [] {
      assert Occurs(Pattern([], dollar), text, 0, 0);
    }
  }

  lemma HereOne(c: char, p: Pattern, text: string)
    ensures Here(Cons(One(c), p), text) <==> text != [] && Fits(c, text[0]) && Here(p, text[1..])
  {
    var q := Cons(One(c), p);
    assert q.items[1..] == p.items;
    if j: nat :| Occurs(q, text, 0, j) {
      assert text[0..j][1..] == text[1..][0..j - 1];
      assert Occurs(p, text[1..], 0, j - 1);
    }
    if text != [] && Fits(c, text[0]) && Here(p, text[1..]) {
      var j: nat :| Occurs(p, text[1..], 0, j);
      assert text[0..j + 1][1..] == text[1..][0..j];
      assert Occurs(q, text, 0, j + 1);
    }
  }

  /** c repeated takes up the first k characters, and the rest of the pattern occurs there. */
  ghost predicate StarStop(c: char, p: Pattern, text: string, k: nat) {
    k <= |text| && AllFit(c, text[..k]) && Here(p, text[k..])
  }

  lemma HereStar(c: char, p: Pattern, text: string)
    ensures Here(Cons(Star(c), p), text) <==> exists k: nat :: StarStop(c, p, text, k)
  {
    var q := Cons(Star(c), p);
    assert q.items[1..] == p.items;
    if j: nat :| Occurs(q, text, 0, j) {
      var u := text[0..j];
      var k :| 0 <= k <= |u| && AllFit(c, u[..k]) && InLanguage(p.items, u[k..]);
      assert u[..k] == text[..k] && u[k..] == text[k..][0..j - k];
      assert Occurs(p, text[k..], 0, j - k);
      assert StarStop(c, p, text, k);
    }
    if k: nat :| StarStop(c, p, text, k) {
      var j: nat :| Occurs(p, text[k..], 0, j);
      var u := text[0..k + j];
      assert u[..k] == text[..k] && u[k..] == text[k..][0..j];
      assert Occurs(q, text, 0, k + j);
    }
  }

  /** matchhere. */
  method MatchHere(re: string, text: string) returns (found: bool)
    ensures found <==> Here(Parse(re), text)
    decreases |re|, 0
  {
    if re == [] {
      HereNothing(false, text);
      return true;
    }
    if |re| > 1 && re[1] == '*' {
      ghost var p := Parse(re[2..]);
      assert Parse(re) == Cons(Star(re[0]), p);
      HereStar(re[0], p, text);
      found := MatchStar(re[0], re[2..], p, text);
      return;
    }
    if re == "$" {
      HereNothing(true, text);
      return text == [];
    }
    ghost var p := Parse(re[1..]);
    assert Parse(re) == Cons(One(re[0]), p);
    HereOne(re[0], p, text);
    if text != [] && (re[0] == '.' || re[0] == text[0]) {
      found := MatchHere(re[1..], text[1..]);
      return;
    }
    return false;
  }

  /** matchstar: the shortest repetition first. */
  method MatchStar(c: char, re: string, ghost p: Pattern, text: string) returns (found: bool)
    requires p == Parse(re)
    ensures found <==> exists k: nat :: StarStop(c, p, text, k)
    decreases |re|, 1
  {
    var i := 0;
    while true
      invariant i <= |text| && AllFit(c, text[..i])
      invariant forall k: nat :: k < i ==> !StarStop(c, p, text, k)
      decreases |text| - i
    {
      var here := MatchHere(re, text[i..]);
      if here {
        assert StarStop(c, p, text, i);
        return true;
      }
      if i == |text| || !(text[i] == c || c == '.') {
        forall k: nat | k > i && k <= |text| ensures !AllFit(c, text[..k]) {
          assert text[..k][i] == text[i];
        }
        return false;
      }
      i := i + 1;
    }
  }

  /** match: 1 exactly when some stretch of the text is in the pattern's language, starting at
      the beginning under ^ and ending at the end under $. */
  method Match(re: string, text: string) returns (found: bool)
    ensures re != [] && re[0] == '^' ==> (found <==> exists j: nat :: Occurs(Parse(re[1..]), text, 0, j))
    ensures !(re != [] && re[0] == '^') ==> (found <==> exists i: nat, j: nat :: Occurs(Parse(re), text, i, j))
  {
    if re != [] && re[0] == '^' {
      found := MatchHere(re[1..], text);
      return;
    }
    var i := 0;
    while true
      invariant i <= |text| && forall k: nat, j: nat :: k < i ==> !Occurs(Parse(re), text, k, j)
      decreases |text| - i
    {
      Shifted(Parse(re), text, i);
      var here := MatchHere(re, text[i..]);
      if here {
        return true;
      }
      if i == |text| {
        return false;
      }
      i := i + 1;
    }
  }

  /** Occurring at position i is occurring at the start of what follows. */
  lemma Shifted(p: Pattern, text: string, i: nat)
    requires i <= |text|
    ensures Here(p, text[i..]) <==> exists j: nat :: Occurs(p, text, i, j)
  {
    if j: nat :| Occurs(p, text[i..], 0, j) {
      assert text[i..][0..j] == text[i..i + j];
      assert Occurs(p, text, i, i + j);
    }
    if j: nat :| Occurs(p, text, i, j) {
      assert text[i..][0..j - i] == text[i..j];
      assert Occurs(p, text[i..], 0, j - i);
    }
  }
}
