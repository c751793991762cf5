/** sh.c's parser with its cursor, and nulterminate. */
module ShellParser {
  import opened Options
  import opened ShellSyntax
  import opened ShellLexer

  // Printing and parsing.

  predicate GoodCmd(t: Cmd<string>) {
    match t
    case Exec(argv) => forall i :: 0 <= i < |argv| ==> GoodWord(argv[i])
    case Redir(c, file, _) => GoodCmd(c) && GoodWord(file)
    case Pipe(l, r) => GoodCmd(l) && GoodCmd(r)
    case List(l, r) => GoodCmd(l) && GoodCmd(r)
    case Back(c) => GoodCmd(c)
  }

  lemma {:induction false} PrintGood(t: Cmd<string>)
    requires GoodCmd(t)
    ensures AllGood(PrintLine(t)) && AllGood(PrintBack(t)) && AllGood(PrintPipeline(t)) && AllGood(PrintSimple(t))
  {
    match t
    case Exec(_) =>
    case Redir(c, _, _) =>
      PrintGood(c);
      assert AllGood(PrintSimple(t));
      assert PrintPipeline(t) == PrintSimple(t) && PrintBack(t) == PrintPipeline(t) && PrintLine(t) == PrintBack(t);
    case Pipe(l, r) =>
      PrintGood(l);
      PrintGood(r);
      assert AllGood(PrintPipeline(t));
      assert PrintBack(t) == PrintPipeline(t) && PrintLine(t) == PrintBack(t) && AllGood(PrintSimple(t));
    case List(l, r) =>
      PrintGood(l);
      PrintGood(r);
      assert AllGood(PrintLine(t)) && AllGood(PrintSimple(t));
      assert PrintPipeline(t) == PrintSimple(t) && PrintBack(t) == PrintPipeline(t);
    case Back(c) =>
      PrintGood(c);
      assert AllGood(PrintBack(t));
      assert PrintLine(t) == PrintBack(t) && AllGood(PrintSimple(t)) && PrintPipeline(t) == PrintSimple(t);
  }

  /** The text of a command. */
  function Written(t: Cmd<string>): string {
    Render(PrintLine(t))
  }

  /** Any command with good words and no more of them than argv holds is read back from its text. */
  lemma RoundTrip(t: Cmd<string>)
    requires GoodCmd(t) && Sized(t)
    ensures var p := Line(Tokens(Written(t), 0)); p.Ok? && p.rest == [] && MapCmd(Texts(Written(t)), p.cmd) == t
  {
    var text, ts := Written(t), PrintLine(t);
    PrintGood(t);
    assert "" + Render(ts) == text;
    LexRender("", ts);
    assert ts + [] == ts;
    LineRound(t, []);
    LineMap(Texts(text), Tokens(text, 0));
  }

  // The cursor.

  /** The first token begins with the first character that is not white space. */
  lemma FirstToken(text: string, p: nat)
    requires p <= |text|
    ensures var ts, q := Tokens(text, p), Skip(text, p);
            && (ts == [] <==> q == |text|)
            && (forall c :: c != '>' && IsSymbol(c) ==> (Next(ts, c) <==> q < |text| && text[q] == c))
            && (NextRedir(ts) <==> q < |text| && (text[q] == '<' || text[q] == '>'))
            && (NextStop(ts) <==> q < |text| && (text[q] == '|' || text[q] == ')' || text[q] == '&' || text[q] == ';'))
            && Tokens(text, q) == ts
  {
    SkipTwice(text, p);
  }

  method SkipSpace(text: string, p: nat) returns (q: nat)
    requires p <= |text|
    ensures q == Skip(text, p)
  {
    q := p;
    while q < |text| && IsSpace(text[q])
      invariant p <= q <= |text| && Skip(text, q) == Skip(text, p)
    {
      q := q + 1;
    }
  }

  /** gettoken: the first token, and the position after it and any white space; none at the end. */
  method GetToken(text: string, p: nat) returns (tok: Option<Token<Span>>, r: nat)
    requires p <= |text|
    ensures r <= |text|
    ensures tok.None? ==> Tokens(text, p) == [] && r == |text|
    ensures tok.Some? ==> Tokens(text, p) == [tok.value] + Tokens(text, r)
  {
    var q := SkipSpace(text, p);
    if q == |text| {
      return None, q;
    }
    var s := q + 1;
    if text[q] == '>' {
      if s < |text| && text[s] == '>' {
        tok, s := Some(More), s + 1;
      } else {
        tok := Some(Sym('>'));
      }
    } else if IsSymbol(text[q]) {
      tok := Some(Sym(text[q]));
    } else {
      while s < |text| && !IsSpace(text[s]) && !IsSymbol(text[s])
        invariant q < s <= |text| && WordEnd(text, s) == WordEnd(text, q + 1)
      {
        s := s + 1;
      }
      tok := Some(Word(Span(q, s)));
    }
    assert Lex(text, q) == Lexeme(tok.value, s);
    SkipTwice(text, s);
    r := SkipSpace(text, s);
  }

  /** peek: skip white space, and see whether the next character is one of those given. */
  method Peek(text: string, p: nat, toks: string) returns (hit: bool, q: nat)
    requires p <= |text|
    ensures q == Skip(text, p) && Tokens(text, q) == Tokens(text, p)
    ensures hit <==> q < |text| && text[q] in toks
  {
    SkipTwice(text, p);
    q := SkipSpace(text, p);
    hit := q < |text| && text[q] in toks;
  }

  /** A parsing function's result and the cursor it leaves agree with the grammar's. */
  ghost predicate Agrees(text: string, res: Option<Cmd<Span>>, r: nat, p: Parsed<Span>) {
    match p
    case Panic => res.None?
    case Ok(c, rest) => res == Some(c) && r <= |text| && rest == Tokens(text, r)
  }

  /** One redirection: the operator and its file. */
  lemma RedirsTwo(cmd: Cmd<Span>, a: Token<Span>, more: seq<Token<Span>>)
    requires NextRedir([a] + more)
    ensures more == [] || !more[0].Word? ==> Redirs(cmd, [a] + more) == Panic
    ensures more != [] && more[0].Word? ==>
            Redirs(cmd, [a] + more) == Redirs(Redir(cmd, more[0].w, ModeOf(a)), more[1..])
  {
    var ts := [a] + more;
    assert more != [] ==> ts[1] == more[0] && ts[2..] == more[1..];
  }

  lemma ArgsOne(cmd: Cmd<Span>, argc: nat, a: Token<Span>, more: seq<Token<Span>>)
    requires !NextStop([a] + more)
    ensures !a.Word? || argc + 1 >= MAXARGS ==> Args(cmd, argc, [a] + more) == Panic
    ensures a.Word? && argc + 1 < MAXARGS ==>
              Args(cmd, argc, [a] + more)
              == match Redirs(AddArg(cmd, a.w), more)
                 case Panic => Panic
                 case Ok(c, rest) => Args(c, argc + 1, rest)
  {
    assert ([a] + more)[1..] == more;
  }

  method ParseRedirs(cmd: Cmd<Span>, text: string, p: nat) returns (res: Option<Cmd<Span>>, r: nat)
    requires p <= |text|
    ensures Agrees(text, res, r, Redirs(cmd, Tokens(text, p)))
  {
    var c := cmd;
    r := p;
    while true
      invariant r <= |text| && Redirs(c, Tokens(text, r)) == Redirs(cmd, Tokens(text, p))
      decreases |Tokens(text, r)|
    {
      FirstToken(text, r);
      var hit;
      hit, r := Peek(text, r, "<>");
      if !hit {
        return Some(c), r;
      }
      var tok, file, r1;
      tok, r1 := GetToken(text, r);
      file, r := GetToken(text, r1);
      RedirsTwo(c, tok.value, Tokens(text, r1));
      if !(file.Some? && file.value.Word?) {
        return None, r;
      }
      c := Redir(c, file.value.w, ModeOf(tok.value));
    }
  }

  method ParseExec(text: string, p: nat) returns (res: Option<Cmd<Span>>, r: nat)
    requires p <= |text|
    ensures Agrees(text, res, r, Simple(Tokens(text, p)))
    decreases |Tokens(text, p)|, 1
  {
    FirstToken(text, p);
    var block;
    block, r := Peek(text, p, "(");
    if block {
      res, r := ParseBlock(text, r);
      return;
    }
    res, r := ParseRedirs(Exec([]), text, r);
    if res.Some? {
      res, r := ParseArgs(res.value, text, r);
    }
  }

  /** parseexec's loop. */
  method ParseArgs(cmd: Cmd<Span>, text: string, p: nat) returns (res: Option<Cmd<Span>>, r: nat)
    requires p <= |text|
    ensures Agrees(text, res, r, Args(cmd, 0, Tokens(text, p)))
  {
    var argc := 0;
    res, r := Some(cmd), p;
    while true
      invariant res.Some? && r <= |text| && Args(res.value, argc, Tokens(text, r)) == Args(cmd, 0, Tokens(text, p))
      decreases |Tokens(text, r)|
    {
      var stop;
      stop, res, r := ParseArg(res.value, argc, text, r);
      if stop {
        return;
      }
      argc := argc + 1;
    }
  }

  /** One turn of it: the loop ends, or one more argument is taken with the redirections after it. */
  method ParseArg(cmd: Cmd<Span>, argc: nat, text: string, p: nat) returns (stop: bool, res: Option<Cmd<Span>>, r: nat)
    requires p <= |text|
    ensures stop ==> Agrees(text, res, r, Args(cmd, argc, Tokens(text, p)))
    ensures !stop ==> res.Some? && r <= |text| && |Tokens(text, r)| < |Tokens(text, p)|
    ensures !stop ==> Args(cmd, argc, Tokens(text, p)) == Args(res.value, argc + 1, Tokens(text, r))
  {
    FirstToken(text, p);
    stop, r := Peek(text, p, "|)&;");
    if stop {
      return stop, Some(cmd), r;
    }
    var tok, r1 := GetToken(text, r);
    if tok.None? {
      return true, Some(cmd), r;
    }
    ArgsOne(cmd, argc, tok.value, Tokens(text, r1));
    if !tok.value.Word? || argc + 1 >= MAXARGS {
      return true, None, r;
    }
    res, r := ParseRedirs(AddArg(cmd, tok.value.w), text, r1);
    stop := res.None?;
  }

  method ParseBlock(text: string, p: nat) returns (res: Option<Cmd<Span>>, r: nat)
    requires p <= |text| && Next(Tokens(text, p), '(')
    ensures Agrees(text, res, r, Simple(Tokens(text, p)))
    decreases |Tokens(text, p)|, 0
  {
    var tok;
    tok, r := GetToken(text, p);
    res, r := ParseLine(text, r);
    if res.None? {
      return;
    }
    FirstToken(text, r);
    var close;
    close, r := Peek(text, r, ")");
    if !close {
      return None, r;
    }
    tok, r := GetToken(text, r);
    res, r := ParseRedirs(res.value, text, r);
  }

  method ParsePipe(text: string, p: nat) returns (res: Option<Cmd<Span>>, r: nat)
    requires p <= |text|
    ensures Agrees(text, res, r, Pipeline(Tokens(text, p)))
    decreases |Tokens(text, p)|, 2
  {
    res, r := ParseExec(text, p);
    if res.None? {
      return;
    }
    FirstToken(text, r);
    var more;
    more, r := Peek(text, r, "|");
    if more {
      var tok, right;
      tok, r := GetToken(text, r);
      right, r := ParsePipe(text, r);
      res := if right.Some? then Some(Pipe(res.value, right.value)) else None;
    }
  }

  method ParseLine(text: string, p: nat) returns (res: Option<Cmd<Span>>, r: nat)
    requires p <= |text|
    ensures Agrees(text, res, r, Line(Tokens(text, p)))
    decreases |Tokens(text, p)|, 3
  {
    res, r := ParsePipe(text, p);
    if res.None? {
      return;
    }
    res, r := ParseBacks(res.value, text, r);
    FirstToken(text, r);
    var more;
    more, r := Peek(text, r, ";");
    if more {
      var tok, right;
      tok, r := GetToken(text, r);
      right, r := ParseLine(text, r);
      res := if right.Some? then Some(List(res.value, right.value)) else None;
    }
  }

  /** parseline's loop. */
  method ParseBacks(cmd: Cmd<Span>, text: string, p: nat) returns (res: Option<Cmd<Span>>, r: nat)
    requires p <= |text|
    ensures Agrees(text, res, r, Backs(cmd, Tokens(text, p)))
  {
    var c := cmd;
    r := p;
    while true
      invariant r <= |text| && Backs(c, Tokens(text, r)) == Backs(cmd, Tokens(text, p))
      decreases |Tokens(text, r)|
    {
      FirstToken(text, r);
      var hit;
      hit, r := Peek(text, r, "&");
      if !hit {
        return Some(c), r;
      }
      var tok;
      tok, r := GetToken(text, r);
      c := Back(c);
    }
  }

  // nulterminate.

  /** A word of a command. */
  predicate InCmd(c: Cmd<Span>, sp: Span) {
    match c
    case Exec(argv) => sp in argv
    case Redir(d, file, _) => sp == file || InCmd(d, sp)
    case Pipe(l, r) => InCmd(l, sp) || InCmd(r, sp)
    case List(l, r) => InCmd(l, sp) || InCmd(r, sp)
    case Back(d) => InCmd(d, sp)
  }

  ghost predicate IsEnd(c: Cmd<Span>, i: nat) {
    exists sp :: InCmd(c, sp) && sp.end == i
  }

  lemma {:induction false} MapFixed(f: Span -> Span, c: Cmd<Span>, sp: Span)
    requires MapCmd(f, c) == c && InCmd(c, sp)
    ensures f(sp) == sp
  {
    match c
    case Exec(argv) =>
      var i :| 0 <= i < |argv| && argv[i] == sp;
      assert MapWords(f, argv)[i] == f(sp);
    case Redir(d, file, _) => if sp != file { MapFixed(f, d, sp); }
    case Pipe(l, r) => if InCmd(l, sp) { MapFixed(f, l, sp); } else { MapFixed(f, r, sp); }
    case List(l, r) => if InCmd(l, sp) { MapFixed(f, l, sp); } else { MapFixed(f, r, sp); }
    case Back(d) => MapFixed(f, d, sp);
  }

  /** Whatever the parser puts in a command is a word of the line. The parser treats all words
      alike, so a renaming that moves only what is not a word of the line moves nothing. */
  lemma ParsedWords(text: string, sp: Span)
    requires Line(Tokens(text, 0)).Ok? && InCmd(Line(Tokens(text, 0)).cmd, sp)
    ensures WordSpan(text, sp)
  {
    var ts := Tokens(text, 0);
    var f := (s: Span) => if WordSpan(text, s) then s else Span(s.start + 1, s.end);
    TokensWords(text, 0);
    assert MapToks(f, ts) == ts;
    LineMap(f, ts);
    MapFixed(f, Line(ts).cmd, sp);
  }

  /** A NUL at the end of every word, and nothing else changed. */
  ghost predicate Terminated(was: seq<char>, c: Cmd<Span>, now: seq<char>) {
    && |now| == |was|
    && forall i :: 0 <= i < |was| ==> (IsEnd(c, i) ==> now[i] == '\0') && (!IsEnd(c, i) ==> now[i] == was[i])
  }

  ghost predicate Ending(c: Cmd<Span>, n: nat) {
    forall sp :: InCmd(c, sp) ==> sp.end < n
  }

  lemma EndsOfTwo(l: Cmd<Span>, r: Cmd<Span>, i: nat)
    ensures IsEnd(Pipe(l, r), i) <==> IsEnd(l, i) || IsEnd(r, i)
    ensures IsEnd(List(l, r), i) <==> IsEnd(l, i) || IsEnd(r, i)
  {
    if IsEnd(l, i) {
      var sp :| InCmd(l, sp) && sp.end == i;
      assert InCmd(Pipe(l, r), sp) && InCmd(List(l, r), sp);
    }
    if IsEnd(r, i) {
      var sp :| InCmd(r, sp) && sp.end == i;
      assert InCmd(Pipe(l, r), sp) && InCmd(List(l, r), sp);
    }
  }

  lemma EndsOfOne(d: Cmd<Span>, file: Span, mode: Mode, i: nat)
    ensures IsEnd(Redir(d, file, mode), i) <==> IsEnd(d, i) || file.end == i
    ensures IsEnd(Back(d), i) <==> IsEnd(d, i)
  {
    if IsEnd(d, i) {
      var sp :| InCmd(d, sp) && sp.end == i;
      assert InCmd(Redir(d, file, mode), sp) && InCmd(Back(d), sp);
    }
    assert InCmd(Redir(d, file, mode), file);
    if IsEnd(Back(d), i) {
      var sp :| InCmd(Back(d), sp) && sp.end == i;
      assert InCmd(d, sp);
    }
  }

  /** nulterminate. */
  method NulTerminate(c: Cmd<Span>, buf: array<char>)
    requires Ending(c, buf.Length)
    modifies buf
    ensures Terminated(old(buf[..]), c, buf[..])
    decreases c
  {
    match c
    case Exec(argv) => TerminateWords(argv, buf);
    case Redir(d, file, mode) =>
      assert InCmd(c, file);
      assert forall sp :: InCmd(d, sp) ==> InCmd(c, sp);
      NulTerminate(d, buf);
      buf[file.end] := '\0';
      forall i: nat ensures IsEnd(c, i) <==> IsEnd(d, i) || file.end == i {
        EndsOfOne(d, file, mode, i);
      }
    case Pipe(l, r) =>
      assert forall sp :: InCmd(l, sp) || InCmd(r, sp) ==> InCmd(c, sp);
      NulTerminate(l, buf);
      NulTerminate(r, buf);
      forall i: nat ensures IsEnd(c, i) <==> IsEnd(l, i) || IsEnd(r, i) {
        EndsOfTwo(l, r, i);
      }
    case List(l, r) =>
      assert forall sp :: InCmd(l, sp) || InCmd(r, sp) ==> InCmd(c, sp);
      NulTerminate(l, buf);
      NulTerminate(r, buf);
      forall i: nat ensures IsEnd(c, i) <==> IsEnd(l, i) || IsEnd(r, i) {
        EndsOfTwo(l, r, i);
      }
    case Back(d) =>
      assert forall sp :: InCmd(d, sp) ==> InCmd(c, sp);
      NulTerminate(d, buf);
      forall i: nat ensures IsEnd(c, i) <==> IsEnd(d, i) {
        EndsOfOne(d, Span(0, 0), Read, i);
      }
  }

  method TerminateWords(argv: seq<Span>, buf: array<char>)
    requires Ending(Exec(argv), buf.Length)
    modifies buf
    ensures Terminated(old(buf[..]), Exec(argv), buf[..])
  {
    assert forall k :: 0 <= k < |argv| ==> InCmd(Exec(argv), argv[k]);
    var i := 0;
    while i < |argv|
      invariant i <= |argv|
      invariant forall k :: 0 <= k < i ==> buf[argv[k].end] == '\0'
      invariant forall j :: 0 <= j < buf.Length && buf[j] != old(buf[j]) ==>
                buf[j] == '\0' && exists k :: 0 <= k < i && argv[k].end == j
    {
      buf[argv[i].end] := '\0';
      i := i + 1;
    }
    forall j | 0 <= j < buf.Length && IsEnd(Exec(argv), j) ensures buf[j] == '\0' {
      var sp :| InCmd(Exec(argv), sp) && sp.end == j;
      var k :| 0 <= k < |argv| && argv[k] == sp;
    }
  }

  /** The string a program sees at position i of a buffer. */
  function CString(buf: seq<char>, i: nat): string
    decreases |buf| - i
  {
    if i >= |buf| || buf[i] == '\0' then "" else [buf[i]] + CString(buf, i + 1)
  }

  lemma {:induction false} CStringIs(buf: seq<char>, i: nat, e: nat)
    requires i <= e < |buf| && buf[e] == '\0' && forall k :: i <= k < e ==> buf[k] != '\0'
    ensures CString(buf, i) == buf[i..e]
    decreases e - i
  {
    if i < e {
      CStringIs(buf, i + 1, e);
      assert buf[i..e] == [buf[i]] + buf[i + 1..e];
    }
  }

  /** Ends of words are never inside words, so terminating all words leaves each one whole. */
  lemma WordsWhole(text: string, c: Cmd<Span>, now: seq<char>, sp: Span)
    requires '\0' !in text && Terminated(text + "\0", c, now) && InCmd(c, sp)
    requires forall w :: InCmd(c, w) ==> WordSpan(text, w)
    ensures CString(now, sp.start) == Str(text, sp)
  {
    assert WordSpan(text, sp) && IsEnd(c, sp.end);
    forall k | sp.start <= k < sp.end ensures now[k] == text[k] && now[k] != '\0' {
      assert !IsEnd(c, k);
      assert (text + "\0")[k] == text[k];
    }
    CStringIs(now, sp.start, sp.end);
    assert now[sp.start..sp.end] == text[sp.start..sp.end];
  }

  /** parsecmd: the command, when the grammar takes the whole line, with every word in the
      buffer turned into a string that is exactly its token; otherwise a panic. */
  method ParseCmd(buf: array<char>) returns (res: Option<Cmd<Span>>)
    requires buf.Length > 0 && buf[buf.Length - 1] == '\0' && '\0' !in buf[..buf.Length - 1]
    modifies buf
    ensures var text := old(buf[..buf.Length - 1]);
            match Line(Tokens(text, 0))
            case Panic => res.None?
            case Ok(c, rest) => if rest == [] then res == Some(c) else res.None?
    ensures res.Some? ==> Sized(res.value)
    ensures res.Some? ==> forall sp :: InCmd(res.value, sp) ==>
              CString(buf[..], sp.start) == Str(old(buf[..buf.Length - 1]), sp)
  {
    var text := buf[..buf.Length - 1];
    var r;
    res, r := ParseLine(text, 0);
    if res.None? {
      return;
    }
    LineSized(Tokens(text, 0));
    FirstToken(text, r);
    r := SkipSpace(text, r);
    if r != |text| {
      return None;
    }
    var c := res.value;
    forall sp | InCmd(c, sp) ensures WordSpan(text, sp) {
      ParsedWords(text, sp);
    }
    assert buf[..] == text + "\0";
    NulTerminate(c, buf);
    forall sp | InCmd(c, sp) ensures CString(buf[..], sp.start) == Str(text, sp) {
      WordsWhole(text, c, buf[..], sp);
    }
  }
}
