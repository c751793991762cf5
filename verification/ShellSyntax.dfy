/** The shell's grammar as sh.c's parser reads it, over tokens, and a printer that it undoes. */
module ShellSyntax {
  const MAXARGS: nat := 10

  /** <, > and >>. */
  datatype Mode = Read | Truncate | Extend

  /** What gettoken returns; a word is given by whatever stands for its characters. */
  datatype Token<T> = Word(w: T) | Sym(c: char) | More

  datatype Cmd<T> =
    | Exec(argv: seq<T>)
    | Redir(cmd: Cmd<T>, file: T, mode: Mode)
    | Pipe(left: Cmd<T>, right: Cmd<T>)
    | List(left: Cmd<T>, right: Cmd<T>)
    | Back(cmd: Cmd<T>)

  /** A command and the tokens after it, or one of the parser's panics. */
  datatype Parsed<T> = Ok(cmd: Cmd<T>, rest: seq<Token<T>>) | Panic

  /** peek for one character. */
  predicate Next<T>(ts: seq<Token<T>>, c: char) {
    ts != [] && ts[0].Sym? && ts[0].c == c
  }

  /** peek for < and >. */
  predicate NextRedir<T>(ts: seq<Token<T>>) {
    Next(ts, '<') || Next(ts, '>') || (ts != [] && ts[0].More?)
  }

  /** peek for what ends a simple command. */
  predicate NextStop<T>(ts: seq<Token<T>>) {
    Next(ts, '|') || Next(ts, ')') || Next(ts, '&') || Next(ts, ';')
  }

  function ModeOf<T>(t: Token<T>): Mode {
    if t.More? then Extend else if t.Sym? && t.c == '<' then Read else Truncate
  }

  /** parseredirs. */
  function Redirs<T>(cmd: Cmd<T>, ts: seq<Token<T>>): (r: Parsed<T>)
    ensures r.Ok? ==> |r.rest| <= |ts|
    decreases |ts|
  {
    if !NextRedir(ts) then Ok(cmd, ts)
    else if |ts| < 2 || !ts[1].Word? then Panic
    else Redirs(Redir(cmd, ts[1].w, ModeOf(ts[0])), ts[2..])
  }

  /** cmd with one more argument for the command at the bottom of its redirections. */
  function AddArg<T>(cmd: Cmd<T>, w: T): Cmd<T> {
    match cmd
    case Exec(argv) => Exec(argv + [w])
    case Redir(c, file, mode) => Redir(AddArg(c, w), file, mode)
    case _ => cmd
  }

  /** The loop of parseexec, with argc arguments so far. */
  function Args<T>(cmd: Cmd<T>, argc: nat, ts: seq<Token<T>>): (r: Parsed<T>)
    ensures r.Ok? ==> |r.rest| <= |ts|
    decreases |ts|
  {
    if ts == [] || NextStop(ts) then Ok(cmd, ts)
    else if !ts[0].Word? || argc + 1 >= MAXARGS then Panic
    else match Redirs(AddArg(cmd, ts[0].w), ts[1..])
      case Panic => Panic
      case Ok(c, rest) => Args(c, argc + 1, rest)
  }

  /** parseexec, with parseblock. */
  function Simple<T>(ts: seq<Token<T>>): (r: Parsed<T>)
    ensures r.Ok? ==> |r.rest| <= |ts|
    decreases |ts|, 0
  {
    if Next(ts, '(') then
      match Line(ts[1..])
      case Panic => Panic
      case Ok(c, rest) => if Next(rest, ')') then Redirs(c, rest[1..]) else Panic
    else
      match Redirs(Exec([]), ts)
      case Panic => Panic
      case Ok(c, rest) => Args(c, 0, rest)
  }

  /** parsepipe. */
  function Pipeline<T>(ts: seq<Token<T>>): (r: Parsed<T>)
    ensures r.Ok? ==> |r.rest| <= |ts|
    decreases |ts|, 1
  {
    match Simple(ts)
    case Panic => Panic
    case Ok(c, rest) =>
      if !Next(rest, '|') then Ok(c, rest)
      else match Pipeline(rest[1..])
        case Panic => Panic
        case Ok(d, rest') => Ok(Pipe(c, d), rest')
  }

  /** The loop of parseline. */
  function Backs<T>(cmd: Cmd<T>, ts: seq<Token<T>>): (r: Parsed<T>)
    ensures r.Ok? && |r.rest| <= |ts|
    decreases |ts|
  {
    if Next(ts, '&') then Backs(Back(cmd), ts[1..]) else Ok(cmd, ts)
  }

  /** parseline. */
  function Line<T>(ts: seq<Token<T>>): (r: Parsed<T>)
    ensures r.Ok? ==> |r.rest| <= |ts|
    decreases |ts|, 2
  {
    match Pipeline(ts)
    case Panic => Panic
    case Ok(c, rest) =>
      var b := Backs(c, rest);
      if !Next(b.rest, ';') then b
      else match Line(b.rest[1..])
        case Panic => Panic
        case Ok(d, rest') => Ok(List(b.cmd, d), rest')
  }

  // The printer. Each level puts parentheses around what the grammar has no other place for.

  function PrintMode<T>(m: Mode): Token<T> {
    match m case Read => Sym('<') case Truncate => Sym('>') case Extend => More
  }

  function Words<T>(argv: seq<T>): seq<Token<T>> {
    seq(|argv|, i requires 0 <= i < |argv| => Word(argv[i]))
  }

  function PrintSimple<T>(t: Cmd<T>): seq<Token<T>>
    decreases t, if t.Exec? || t.Redir? then 0 else 4
  {
    match t
    case Exec(argv) => Words(argv)
    case Redir(c, file, mode) => PrintSimple(c) + [PrintMode(mode), Word(file)]
    case _ => [Sym('(')] + PrintLine(t) + [Sym(')')]
  }

  function PrintPipeline<T>(t: Cmd<T>): seq<Token<T>>
    decreases t, if t.Exec? || t.Redir? || t.Pipe? then 1 else 5
  {
    if t.Pipe? then PrintSimple(t.left) + [Sym('|')] + PrintPipeline(t.right) else PrintSimple(t)
  }

  function PrintBack<T>(t: Cmd<T>): seq<Token<T>>
    decreases t, if t.List? then 6 else 2
  {
    if t.Back? then PrintBack(t.cmd) + [Sym('&')] else PrintPipeline(t)
  }

  function PrintLine<T>(t: Cmd<T>): seq<Token<T>>
    decreases t, 3
  {
    if t.List? then PrintBack(t.left) + [Sym(';')] + PrintLine(t.right) else PrintBack(t)
  }

  /** No command has more words than argv holds. */
  predicate Sized<T>(t: Cmd<T>) {
    match t
    case Exec(argv) => |argv| < MAXARGS
    case Redir(c, _, _) => Sized(c)
    case Pipe(l, r) => Sized(l) && Sized(r)
    case List(l, r) => Sized(l) && Sized(r)
    case Back(c) => Sized(c)
  }

  /** What a chain of redirections is around. */
  function Bottom<T>(t: Cmd<T>): Cmd<T> {
    if t.Redir? then Bottom(t.cmd) else t
  }

  function Rebased<T>(t: Cmd<T>, b: Cmd<T>): Cmd<T> {
    if t.Redir? then Redir(Rebased(t.cmd, b), t.file, t.mode) else b
  }

  function RedirTokens<T>(t: Cmd<T>): seq<Token<T>> {
    if t.Redir? then RedirTokens(t.cmd) + [PrintMode(t.mode), Word(t.file)] else []
  }

  lemma {:induction false} SimpleSplits<T>(t: Cmd<T>)
    ensures PrintSimple(t) == PrintSimple(Bottom(t)) + RedirTokens(t)
    ensures Rebased(t, Bottom(t)) == t
    ensures Sized(t) ==> Sized(Bottom(t))
  {
    if t.Redir? {
      SimpleSplits(t.cmd);
    }
  }

  /** Printed redirections are read back around whatever comes first. */
  lemma {:induction false} RedirsApply<T>(t: Cmd<T>, b: Cmd<T>, more: seq<Token<T>>)
    ensures Redirs(b, RedirTokens(t) + more) == Redirs(Rebased(t, b), more)
  {
    if t.Redir? {
      var last := [PrintMode(t.mode), Word(t.file)];
      RedirsApply(t.cmd, b, last + more);
      assert RedirTokens(t) + more == RedirTokens(t.cmd) + (last + more);
      assert (last + more)[2..] == more;
    } else {
      assert RedirTokens(t) + more == more;
    }
  }

  /** What may follow a simple command. */
  predicate Stops<T>(ts: seq<Token<T>>) {
    ts == [] || NextStop(ts)
  }

  lemma {:induction false} RedirStarts<T>(t: Cmd<T>)
    ensures t.Redir? ==> |RedirTokens(t)| > 0 && NextRedir(RedirTokens(t))
  {
    if t.Redir? {
      RedirStarts(t.cmd);
    }
  }

  lemma Joined<T>(a: seq<Token<T>>, x: Token<T>, b: seq<Token<T>>, rest: seq<Token<T>>)
    ensures a + [x] + b + rest == a + ([x] + (b + rest))
    ensures ([x] + (b + rest))[0] == x && ([x] + (b + rest))[1..] == b + rest
  {
  }

  lemma WordsSplit<T>(left: seq<T>, tail: seq<Token<T>>)
    requires left != []
    ensures Words(left) + tail == [Word(left[0])] + (Words(left[1..]) + tail)
    ensures |left| == 1 ==> Words(left[1..]) + tail == tail
    ensures |left| > 1 ==> (Words(left[1..]) + tail)[0] == Word(left[1])
  {
    assert Words(left) == [Word(left[0])] + Words(left[1..]);
  }

  /** One turn of parseexec's loop. */
  lemma ArgsStep<T>(done: seq<T>, w: T, ts: seq<Token<T>>)
    requires |done| + 1 < MAXARGS
    ensures Args(Exec(done), |done|, [Word(w)] + ts) ==
            match Redirs(Exec(done + [w]), ts) case Panic => Panic case Ok(c, rest) => Args(c, |done| + 1, rest)
  {
    var all := [Word(w)] + ts;
    assert all[0] == Word(w) && all[1..] == ts;
  }

  /** The words of a command are read back, and the redirections after them. */
  lemma {:induction false} ArgsRead<T>(done: seq<T>, left: seq<T>, t: Cmd<T>, rest: seq<Token<T>>)
    requires left != [] && Bottom(t) == Exec(done + left) && |done| + |left| < MAXARGS && Stops(rest)
    ensures Args(Exec(done), |done|, Words(left) + (RedirTokens(t) + rest)) == Ok(t, rest)
    decreases |left|
  {
    var tail, next := RedirTokens(t) + rest, done + [left[0]];
    WordsSplit(left, tail);
    ArgsStep(done, left[0], Words(left[1..]) + tail);
    if |left| == 1 {
      assert done + left == next;
      LastArg(next, t, rest);
    } else {
      assert next + left[1..] == done + left;
      ArgsRead(next, left[1..], t, rest);
    }
  }

  lemma LastArg<T>(argv: seq<T>, t: Cmd<T>, rest: seq<Token<T>>)
    requires Bottom(t) == Exec(argv) && Stops(rest)
    ensures Redirs(Exec(argv), RedirTokens(t) + rest) == Ok(t, rest)
    ensures forall argc: nat :: Args(t, argc, rest) == Ok(t, rest)
  {
    RedirsApply(t, Exec(argv), rest);
    SimpleSplits(t);
  }

  lemma NoWordsRound<T>(t: Cmd<T>, rest: seq<Token<T>>)
    requires Bottom(t) == Exec([]) && Stops(rest)
    ensures Simple(RedirTokens(t) + rest) == Ok(t, rest)
  {
    RedirStarts(t);
    var ts := RedirTokens(t) + rest;
    assert t.Redir? ==> ts[0] == RedirTokens(t)[0];
    assert !t.Redir? ==> ts == rest;
    LastArg([], t, rest);
  }

  lemma WordsRound<T>(t: Cmd<T>, argv: seq<T>, rest: seq<Token<T>>)
    requires Bottom(t) == Exec(argv) && argv != [] && |argv| < MAXARGS && Stops(rest)
    ensures Simple(Words(argv) + (RedirTokens(t) + rest)) == Ok(t, rest)
  {
    var ts := Words(argv) + (RedirTokens(t) + rest);
    assert ts[0] == Word(argv[0]);
    assert [] + argv == argv;
    ArgsRead([], argv, t, rest);
  }

  lemma ExecPrinted<T>(t: Cmd<T>, rest: seq<Token<T>>)
    requires Bottom(t).Exec?
    ensures PrintSimple(t) + rest == Words(Bottom(t).argv) + (RedirTokens(t) + rest)
    ensures Bottom(t).argv == [] ==> PrintSimple(t) + rest == RedirTokens(t) + rest
  {
    SimpleSplits(t);
  }

  lemma SimpleExecRound<T>(t: Cmd<T>, rest: seq<Token<T>>)
    requires Bottom(t).Exec? && Sized(t) && Stops(rest)
    ensures Simple(PrintSimple(t) + rest) == Ok(t, rest)
  {
    ExecPrinted(t, rest);
    SimpleSplits(t);
    if Bottom(t).argv == [] {
      NoWordsRound(t, rest);
    } else {
      WordsRound(t, Bottom(t).argv, rest);
    }
  }

  /** What may follow a line: nothing, or the closing parenthesis. */
  predicate Ends<T>(ts: seq<Token<T>>) {
    ts == [] || Next(ts, ')')
  }

  lemma {:induction false} SimpleRound<T>(t: Cmd<T>, rest: seq<Token<T>>)
    requires Sized(t) && Stops(rest)
    ensures Simple(PrintSimple(t) + rest) == Ok(t, rest)
    decreases t, if t.Exec? || t.Redir? then 0 else 4
  {
    var b := Bottom(t);
    if b.Exec? {
      SimpleExecRound(t, rest);
    } else {
      SimpleSplits(t);
      BottomSmaller(t);
      var inner := [Sym(')')] + (RedirTokens(t) + rest);
      assert PrintSimple(t) + rest == [Sym('(')] + (PrintLine(b) + inner);
      LineRound(b, inner);
      RedirsApply(t, b, rest);
      assert inner[1..] == RedirTokens(t) + rest;
    }
  }

  lemma {:induction false} BottomSmaller<T>(t: Cmd<T>)
    ensures Bottom(t) == t || Bottom(t) < t
    ensures !Bottom(t).Redir?
  {
    if t.Redir? {
      BottomSmaller(t.cmd);
    }
  }

  lemma {:induction false} PipelineRound<T>(t: Cmd<T>, rest: seq<Token<T>>)
    requires Sized(t) && (rest == [] || (NextStop(rest) && !Next(rest, '|')))
    ensures Pipeline(PrintPipeline(t) + rest) == Ok(t, rest)
    decreases t, if t.Exec? || t.Redir? || t.Pipe? then 1 else 5
  {
    if t.Pipe? {
      var more := [Sym('|')] + (PrintPipeline(t.right) + rest);
      Joined(PrintSimple(t.left), Sym('|'), PrintPipeline(t.right), rest);
      SimpleRound(t.left, more);
      PipelineRound(t.right, rest);
    } else {
      SimpleRound(t, rest);
    }
  }

  /** A printed pipeline with its ampersands is read back as the start of a line. */
  lemma {:induction false} BackRound<T>(t: Cmd<T>, rest: seq<Token<T>>)
    requires Sized(t) && (rest == [] || (NextStop(rest) && !Next(rest, '|')))
    ensures var p := Pipeline(PrintBack(t) + rest); p.Ok? && Backs(p.cmd, p.rest) == Backs(t, rest)
    decreases t, if t.List? then 6 else 2
  {
    if t.Back? {
      var more := [Sym('&')] + rest;
      assert PrintBack(t) + rest == PrintBack(t.cmd) + more;
      BackRound(t.cmd, more);
      assert more[1..] == rest;
    } else {
      PipelineRound(t, rest);
    }
  }

  /** Printing any command and parsing the result gives the command back. */
  lemma {:induction false} LineRound<T>(t: Cmd<T>, rest: seq<Token<T>>)
    requires Sized(t) && Ends(rest)
    ensures Line(PrintLine(t) + rest) == Ok(t, rest)
    decreases t, 3
  {
    if t.List? {
      var more := [Sym(';')] + (PrintLine(t.right) + rest);
      Joined(PrintBack(t.left), Sym(';'), PrintLine(t.right), rest);
      BackRound(t.left, more);
      LineRound(t.right, rest);
    } else {
      BackRound(t, rest);
    }
  }

  // What the parser builds, the printer can write.

  lemma {:induction false} RedirsSized<T>(cmd: Cmd<T>, ts: seq<Token<T>>)
    requires Sized(cmd)
    ensures Redirs(cmd, ts).Ok? ==> Sized(Redirs(cmd, ts).cmd) && Bottom(Redirs(cmd, ts).cmd) == Bottom(cmd)
    decreases |ts|
  {
    if NextRedir(ts) && |ts| >= 2 && ts[1].Word? {
      RedirsSized(Redir(cmd, ts[1].w, ModeOf(ts[0])), ts[2..]);
    }
  }

  lemma {:induction false} AddArgSized<T>(cmd: Cmd<T>, w: T)
    requires Bottom(cmd).Exec? && |Bottom(cmd).argv| + 1 < MAXARGS
    ensures Sized(AddArg(cmd, w)) && Bottom(AddArg(cmd, w)) == Exec(Bottom(cmd).argv + [w])
  {
    if cmd.Redir? {
      AddArgSized(cmd.cmd, w);
    }
  }

  lemma {:induction false} ArgsSized<T>(cmd: Cmd<T>, argc: nat, ts: seq<Token<T>>)
    requires Sized(cmd) && Bottom(cmd).Exec? && |Bottom(cmd).argv| == argc
    ensures Args(cmd, argc, ts).Ok? ==> Sized(Args(cmd, argc, ts).cmd)
    decreases |ts|
  {
    if ts != [] && !NextStop(ts) && ts[0].Word? && argc + 1 < MAXARGS {
      AddArgSized(cmd, ts[0].w);
      RedirsSized(AddArg(cmd, ts[0].w), ts[1..]);
      match Redirs(AddArg(cmd, ts[0].w), ts[1..])
      case Panic =>
      case Ok(c, rest) => ArgsSized(c, argc + 1, rest);
    }
  }

  lemma {:induction false} SimpleSized<T>(ts: seq<Token<T>>)
    ensures Simple(ts).Ok? ==> Sized(Simple(ts).cmd)
    decreases |ts|, 0
  {
    if Next(ts, '(') {
      LineSized(ts[1..]);
      match Line(ts[1..])
      case Panic =>
      case Ok(c, rest) =>
        if Next(rest, ')') {
          RedirsSized(c, rest[1..]);
        }
    } else {
      RedirsSized(Exec([]), ts);
      match Redirs(Exec([]), ts)
      case Panic =>
      case Ok(c, rest) => ArgsSized(c, 0, rest);
    }
  }

  lemma {:induction false} PipelineSized<T>(ts: seq<Token<T>>)
    ensures Pipeline(ts).Ok? ==> Sized(Pipeline(ts).cmd)
    decreases |ts|, 1
  {
    SimpleSized(ts);
    match Simple(ts)
    case Panic =>
    case Ok(c, rest) =>
      if Next(rest, '|') {
        PipelineSized(rest[1..]);
      }
  }

  lemma {:induction false} BacksSized<T>(cmd: Cmd<T>, ts: seq<Token<T>>)
    requires Sized(cmd)
    ensures Sized(Backs(cmd, ts).cmd)
    decreases |ts|
  {
    if Next(ts, '&') {
      BacksSized(Back(cmd), ts[1..]);
    }
  }

  /** No command the parser accepts has more words than argv holds. */
  lemma {:induction false} LineSized<T>(ts: seq<Token<T>>)
    ensures Line(ts).Ok? ==> Sized(Line(ts).cmd)
    decreases |ts|, 2
  {
    PipelineSized(ts);
    match Pipeline(ts)
    case Panic =>
    case Ok(c, rest) =>
      BacksSized(c, rest);
      var b := Backs(c, rest);
      if Next(b.rest, ';') {
        LineSized(b.rest[1..]);
      }
  }

  /** Parsing, printing and parsing again gives what the first parse gave. */
  lemma Reparses<T>(ts: seq<Token<T>>)
    requires Line(ts).Ok?
    ensures Line(PrintLine(Line(ts).cmd)) == Ok(Line(ts).cmd, [])
  {
    LineSized(ts);
    var none: seq<Token<T>> := [];
    LineRound(Line(ts).cmd, none);
    assert PrintLine(Line(ts).cmd) + none == PrintLine(Line(ts).cmd);
  }

  // The parser does not look at what words are.

  function MapTok<T, U>(f: T -> U, t: Token<T>): Token<U> {
    match t case Word(w) => Word(f(w)) case Sym(c) => Sym(c) case More => More
  }

  function MapToks<T, U>(f: T -> U, ts: seq<Token<T>>): (r: seq<Token<U>>)
    ensures |r| == |ts| && forall i :: 0 <= i < |ts| ==> r[i] == MapTok(f, ts[i])
  {
    seq(|ts|, i requires 0 <= i < |ts| => MapTok(f, ts[i]))
  }

  function MapWords<T, U>(f: T -> U, ws: seq<T>): (r: seq<U>)
    ensures |r| == |ws| && forall i :: 0 <= i < |ws| ==> r[i] == f(ws[i])
  {
    seq(|ws|, i requires 0 <= i < |ws| => f(ws[i]))
  }

  function MapCmd<T, U>(f: T -> U, c: Cmd<T>): Cmd<U> {
    match c
    case Exec(argv) => Exec(MapWords(f, argv))
    case Redir(d, file, mode) => Redir(MapCmd(f, d), f(file), mode)
    case Pipe(l, r) => Pipe(MapCmd(f, l), MapCmd(f, r))
    case List(l, r) => List(MapCmd(f, l), MapCmd(f, r))
    case Back(d) => Back(MapCmd(f, d))
  }

  function MapParsed<T, U>(f: T -> U, p: Parsed<T>): Parsed<U> {
    match p case Ok(c, rest) => Ok(MapCmd(f, c), MapToks(f, rest)) case Panic => Panic
  }

  lemma MapDrop<T, U>(f: T -> U, ts: seq<Token<T>>, n: nat)
    requires n <= |ts|
    ensures MapToks(f, ts)[n..] == MapToks(f, ts[n..])
  {
  }

  lemma {:induction false} RedirsMap<T, U>(f: T -> U, cmd: Cmd<T>, ts: seq<Token<T>>)
    ensures Redirs(MapCmd(f, cmd), MapToks(f, ts)) == MapParsed(f, Redirs(cmd, ts))
    decreases |ts|
  {
    if NextRedir(ts) && |ts| >= 2 && ts[1].Word? {
      MapDrop(f, ts, 2);
      RedirsMap(f, Redir(cmd, ts[1].w, ModeOf(ts[0])), ts[2..]);
    }
  }

  lemma {:induction false} AddArgMap<T, U>(f: T -> U, cmd: Cmd<T>, w: T)
    ensures AddArg(MapCmd(f, cmd), f(w)) == MapCmd(f, AddArg(cmd, w))
  {
    match cmd
    case Exec(argv) => assert MapWords(f, argv + [w]) == MapWords(f, argv) + [f(w)];
    case Redir(c, _, _) => AddArgMap(f, c, w);
    case _ =>
  }

  lemma {:induction false} ArgsMap<T, U>(f: T -> U, cmd: Cmd<T>, argc: nat, ts: seq<Token<T>>)
    ensures Args(MapCmd(f, cmd), argc, MapToks(f, ts)) == MapParsed(f, Args(cmd, argc, ts))
    decreases |ts|
  {
    if ts != [] && !NextStop(ts) && ts[0].Word? && argc + 1 < MAXARGS {
      var ms, r := MapToks(f, ts), Redirs(AddArg(cmd, ts[0].w), ts[1..]);
      assert ms[0] == Word(f(ts[0].w));
      assert Redirs(AddArg(MapCmd(f, cmd), f(ts[0].w)), ms[1..]) == MapParsed(f, r) by {
        MapDrop(f, ts, 1);
        AddArgMap(f, cmd, ts[0].w);
        RedirsMap(f, AddArg(cmd, ts[0].w), ts[1..]);
      }
      if r.Ok? {
        ArgsMap(f, r.cmd, argc + 1, r.rest);
      }
    }
  }

  lemma {:induction false} SimpleMap<T, U>(f: T -> U, ts: seq<Token<T>>)
    ensures Simple(MapToks(f, ts)) == MapParsed(f, Simple(ts))
    decreases |ts|, 0
  {
    if Next(ts, '(') {
      MapDrop(f, ts, 1);
      LineMap(f, ts[1..]);
      var r := Line(ts[1..]);
      if r.Ok? && Next(r.rest, ')') {
        MapDrop(f, r.rest, 1);
        RedirsMap(f, r.cmd, r.rest[1..]);
      }
    } else {
      assert MapCmd(f, Exec([])) == Exec([]);
      RedirsMap(f, Exec([]), ts);
      var r := Redirs(Exec([]), ts);
      if r.Ok? {
        ArgsMap(f, r.cmd, 0, r.rest);
      }
    }
  }

  lemma {:induction false} PipelineMap<T, U>(f: T -> U, ts: seq<Token<T>>)
    ensures Pipeline(MapToks(f, ts)) == MapParsed(f, Pipeline(ts))
    decreases |ts|, 1
  {
    SimpleMap(f, ts);
    var r := Simple(ts);
    if r.Ok? && Next(r.rest, '|') {
      MapDrop(f, r.rest, 1);
      PipelineMap(f, r.rest[1..]);
    }
  }

  lemma {:induction false} BacksMap<T, U>(f: T -> U, cmd: Cmd<T>, ts: seq<Token<T>>)
    ensures Backs(MapCmd(f, cmd), MapToks(f, ts)) == MapParsed(f, Backs(cmd, ts))
    decreases |ts|
  {
    if Next(ts, '&') {
      MapDrop(f, ts, 1);
      BacksMap(f, Back(cmd), ts[1..]);
    }
  }

  lemma {:induction false} LineMap<T, U>(f: T -> U, ts: seq<Token<T>>)
    ensures Line(MapToks(f, ts)) == MapParsed(f, Line(ts))
    decreases |ts|, 2
  {
    PipelineMap(f, ts);
    var r := Pipeline(ts);
    if r.Ok? {
      BacksMap(f, r.cmd, r.rest);
      var b := Backs(r.cmd, r.rest);
      if Next(b.rest, ';') {
        MapDrop(f, b.rest, 1);
        LineMap(f, b.rest[1..]);
      }
    }
  }
}
