// The shell's command language: tokens, command trees, the grammar, and a printer it inverts.
module ShellGrammar {

  const MAXARGS: nat := 10

  /** A token: one of the symbols | ( ) ; & < > and + (standing for >>), or a word. */
  datatype Token<W> = Sym(k: char) | Word(w: W)

  /** How a redirection opens its file: < for reading, > created and truncated, >> created but not
      truncated. */
  datatype How = In | Out | Append

  datatype Cmd<W> =
    | Exec(argv: seq<W>)
    | Redir(cmd: Cmd<W>, file: W, how: How)
    | Pipe(left: Cmd<W>, right: Cmd<W>)
    | List(left: Cmd<W>, right: Cmd<W>)
    | Back(cmd: Cmd<W>)

  datatype Result<W> = Fail | Done(cmd: Cmd<W>, rest: seq<Token<W>>)

  datatype Redirection<W> = Redirection(file: W, how: How)

  datatype Redirs<W> = BadRedir | Redirs(list: seq<Redirection<W>>, rest: seq<Token<W>>)

  // ---- The grammar ------------------------------------------------------------------------------

  predicate Starts<W>(ts: seq<Token<W>>, k: char) {
    ts != [] && ts[0].Sym? && ts[0].k == k
  }

  predicate StartsRedir<W>(ts: seq<Token<W>>) {
    Starts(ts, '<') || Starts(ts, '>') || Starts(ts, '+')
  }

  predicate StartsStop<W>(ts: seq<Token<W>>) {
    Starts(ts, '|') || Starts(ts, ')') || Starts(ts, '&') || Starts(ts, ';')
  }

  function HowOf(k: char): (h: How) {
    if k == '<' then In else if k == '>' then Out else Append
  }

  /** Redirections, each a symbol and a word. */
  function PRedirs<W>(ts: seq<Token<W>>): (r: Redirs<W>)
    ensures r.Redirs? ==> |r.rest| <= |ts| && (r.list == [] ==> r.rest == ts)
    ensures r.Redirs? ==> !StartsRedir(r.rest)
  {
    if !StartsRedir(ts) then Redirs([], ts)
    else if |ts| < 2 || !ts[1].Word? then BadRedir
    else
      var rest := PRedirs(ts[2..]);
      if rest.BadRedir? then BadRedir
      else Redirs([Redirection(ts[1].w, HowOf(ts[0].k))] + rest.list, rest.rest)
  }

  /** The redirections wrap the command, the first innermost. */
  function Wrap<W>(c: Cmd<W>, rs: seq<Redirection<W>>): (r: Cmd<W>)
    decreases |rs|
  {
    if rs == [] then c else Wrap(Redir(c, rs[0].file, rs[0].how), rs[1..])
  }

  /** The rest of a simple command: words and redirections in any order. */
  function PArgs<W>(ts: seq<Token<W>>, argv: seq<W>, rs: seq<Redirection<W>>): (r: Result<W>)
    ensures r.Done? ==> |r.rest| <= |ts|
    decreases |ts|
  {
    if ts == [] || StartsStop(ts) then Done(Wrap(Exec(argv), rs), ts)
    else if !ts[0].Word? || |argv| + 1 >= MAXARGS then Fail
    else
      var more := PRedirs(ts[1..]);
      if more.BadRedir? then Fail else PArgs(more.rest, argv + [ts[0].w], rs + more.list)
  }

  function PExec<W>(ts: seq<Token<W>>): (r: Result<W>)
    ensures r.Done? ==> |r.rest| <= |ts|
    decreases |ts|, 1
  {
    if Starts(ts, '(') then PBlock(ts)
    else
      var rs := PRedirs(ts);
      if rs.BadRedir? then Fail else PArgs(rs.rest, [], rs.list)
  }

  function PBlock<W>(ts: seq<Token<W>>): (r: Result<W>)
    requires Starts(ts, '(')
    ensures r.Done? ==> |r.rest| <= |ts|
    decreases |ts|, 0
  {
    var body := PLine(ts[1..]);
    if body.Fail? || !Starts(body.rest, ')') then Fail
    else
      var rs := PRedirs(body.rest[1..]);
      if rs.BadRedir? then Fail else Done(Wrap(body.cmd, rs.list), rs.rest)
  }

  function PPipe<W>(ts: seq<Token<W>>): (r: Result<W>)
    ensures r.Done? ==> |r.rest| <= |ts|
    decreases |ts|, 2
  {
    var left := PExec(ts);
    if left.Fail? || !Starts(left.rest, '|') then left
    else
      var right := PPipe(left.rest[1..]);
      if right.Fail? then Fail else Done(Pipe(left.cmd, right.cmd), right.rest)
  }

  function PBacks<W>(c: Cmd<W>, ts: seq<Token<W>>): (r: Result<W>)
    ensures r.Done? && |r.rest| <= |ts| && !Starts(r.rest, '&')
    decreases |ts|
  {
    if Starts(ts, '&') then PBacks(Back(c), ts[1..]) else Done(c, ts)
  }

  function PLine<W>(ts: seq<Token<W>>): (r: Result<W>)
    ensures r.Done? ==> |r.rest| <= |ts|
    decreases |ts|, 3
  {
    var first := PPipe(ts);
    if first.Fail? then Fail
    else
      var left := PBacks(first.cmd, first.rest);
      if !Starts(left.rest, ';') then left
      else
        var right := PLine(left.rest[1..]);
        if right.Fail? then Fail else Done(List(left.cmd, right.cmd), right.rest)
  }

  /** A whole command line. */
  function PCmd<W>(ts: seq<Token<W>>): (r: Result<W>) {
    var r := PLine(ts);
    if r.Done? && r.rest == [] then r else Fail
  }

  // ---- The printer ------------------------------------------------------------------------------

  function SymOf(h: How): (k: char) {
    match h case In => '<' case Out => '>' case Append => '+'
  }

  function WordTokens<W>(argv: seq<W>): (ts: seq<Token<W>>)
    ensures |ts| == |argv| && (forall i :: 0 <= i < |argv| ==> ts[i] == Word(argv[i]))
  {
    if argv == [] then [] else [Word(argv[0])] + WordTokens(argv[1..])
  }

  /** The tree's tokens, every operand in parentheses. */
  function Show<W>(c: Cmd<W>): (ts: seq<Token<W>>) {
    match c
    case Exec(argv) => WordTokens(argv)
    case Redir(c, f, h) => Paren(Show(c)) + [Sym(SymOf(h)), Word(f)]
    case Pipe(l, r) => Paren(Show(l)) + [Sym('|')] + Paren(Show(r))
    case List(l, r) => Paren(Show(l)) + [Sym(';')] + Paren(Show(r))
    case Back(c) => Paren(Show(c)) + [Sym('&')]
  }

  function Paren<W>(ts: seq<Token<W>>): (r: seq<Token<W>>) {
    [Sym('(')] + ts + [Sym(')')]
  }

  /** Fewer than MAXARGS words to a simple command. */
  predicate Short<W>(c: Cmd<W>) {
    match c
    case Exec(argv) => |argv| < MAXARGS
    case Redir(c, _, _) => Short(c)
    case Pipe(l, r) => Short(l) && Short(r)
    case List(l, r) => Short(l) && Short(r)
    case Back(c) => Short(c)
  }

  // ---- The grammar inverts the printer ----------------------------------------------------------

  /** rest is where a parenthesised line ends. */
  predicate Closes<W>(rest: seq<Token<W>>) {
    rest == [] || Starts(rest, ')')
  }

  lemma {:induction false} ArgsShown<W>(argv: seq<W>, done: seq<W>, rest: seq<Token<W>>)
    requires |done| + |argv| < MAXARGS && (rest == [] || StartsStop(rest))
    ensures PArgs(WordTokens(argv) + rest, done, []) == Done(Exec(done + argv), rest)
    decreases |argv|
  {
    hide PRedirs, PArgs;
    if argv == [] {
      assert WordTokens(argv) + rest == rest && done + argv == done;
      NoMoreArgs(done, rest);
    } else {
      assert WordTokens(argv) + rest == [Word(argv[0])] + (WordTokens(argv[1..]) + rest);
      NoRedir(argv[1..], rest);
      OneArg(argv[0], done, WordTokens(argv[1..]) + rest);
      ArgsShown(argv[1..], done + [argv[0]], rest);
      assert done + [argv[0]] + argv[1..] == done + argv;
    }
  }

  lemma NoMoreArgs<W>(done: seq<W>, rest: seq<Token<W>>)
    requires rest == [] || StartsStop(rest)
    ensures PArgs(rest, done, []) == Done(Exec(done), rest)
  {
  }

  lemma OneArg<W>(w: W, done: seq<W>, later: seq<Token<W>>)
    requires |done| + 1 < MAXARGS && PRedirs(later) == Redirs([], later)
    ensures PArgs([Word(w)] + later, done, []) == PArgs(later, done + [w], [])
  {
    hide PRedirs;
    assert ([Word(w)] + later)[1..] == later;
    var none: seq<Redirection<W>> := [];
    assert none + none == none;
  }

  lemma NoRedir<W>(argv: seq<W>, rest: seq<Token<W>>)
    requires rest == [] || StartsStop(rest)
    ensures PRedirs(WordTokens(argv) + rest) == Redirs([], WordTokens(argv) + rest)
  {
    var ts := WordTokens(argv) + rest;
    assert argv != [] ==> ts[0] == Word(argv[0]);
    assert argv == [] ==> ts == rest;
  }

  /** A line in parentheses is what is read between them, wrapped in the redirections that follow. */
  lemma ParenRead<W>(inner: seq<Token<W>>, c: Cmd<W>, rs: seq<Redirection<W>>, later: seq<Token<W>>, rest: seq<Token<W>>)
    requires PLine(inner + ([Sym(')')] + later)) == Done(c, [Sym(')')] + later) && PRedirs(later) == Redirs(rs, rest)
    ensures PExec(Paren(inner) + later) == Done(Wrap(c, rs), rest)
  {
    hide PLine, PRedirs, Wrap, PArgs;
    var ts, close := Paren(inner) + later, [Sym(')')] + later;
    assert ts[0] == Sym('(') && ts[1..] == inner + close;
    assert close[1..] == later;
  }

  /** A parenthesised tree parses to that tree, wrapped in the redirections that follow it. */
  lemma {:induction false} BlockShown<W>(c: Cmd<W>, rest: seq<Token<W>>)
    requires Short(c) && PRedirs(rest).Redirs?
    ensures PExec(Paren(Show(c)) + rest) == Done(Wrap(c, PRedirs(rest).list), PRedirs(rest).rest)
    decreases c, 1
  {
    hide PLine, PExec, PRedirs, Wrap, Paren, Show, Short;
    LineShown(c, [Sym(')')] + rest);
    ParenRead(Show(c), c, PRedirs(rest).list, rest, PRedirs(rest).rest);
  }

  lemma {:induction false} PlainBlock<W>(c: Cmd<W>, rest: seq<Token<W>>)
    requires Short(c) && !StartsRedir(rest)
    ensures PExec(Paren(Show(c)) + rest) == Done(c, rest)
    decreases c, 2
  {
    hide PExec, Paren, Show, Short;
    BlockShown(c, rest);
  }

  /** A printed tree, where a line may end, parses to that tree. */
  lemma {:induction false} LineShown<W>(c: Cmd<W>, rest: seq<Token<W>>)
    requires Short(c) && Closes(rest)
    ensures PLine(Show(c) + rest) == Done(c, rest)
    decreases c, 0
  {
    hide PLine, PExec, PRedirs, Wrap, Paren;
    match c
    case Exec(argv) => ExecLine(argv, rest);
    case Redir(d, f, h) =>
      Joined3(Paren(Show(d)), [Sym(SymOf(h)), Word(f)], rest);
      OneRedir(f, h, rest);
      BlockShown(d, [Sym(SymOf(h)), Word(f)] + rest);
      EndsLine(Show(c) + rest, c, rest);
    case Back(d) =>
      Joined3(Paren(Show(d)), [Sym('&')], rest);
      PlainBlock(d, [Sym('&')] + rest);
      BackLine(Show(c) + rest, d, rest);
    case Pipe(l, r) =>
      Joined4(Paren(Show(l)), [Sym('|')], Paren(Show(r)), rest);
      PlainBlock(l, [Sym('|')] + (Paren(Show(r)) + rest));
      PlainBlock(r, rest);
      PipeLine(Show(c) + rest, l, Paren(Show(r)) + rest, r, rest);
    case List(l, r) =>
      Joined4(Paren(Show(l)), [Sym(';')], Paren(Show(r)), rest);
      PlainBlock(l, [Sym(';')] + (Paren(Show(r)) + rest));
      PlainBlock(r, rest);
      ListLine(Show(c) + rest, l, Paren(Show(r)) + rest, r, rest);
  }

  lemma Joined3<T>(a: seq<T>, b: seq<T>, c: seq<T>)
    ensures (a + b) + c == a + (b + c)
  {
  }

  lemma Joined4<T>(a: seq<T>, b: seq<T>, c: seq<T>, d: seq<T>)
    ensures (a + b + c) + d == a + (b + (c + d))
  {
  }

  lemma BackLine<W>(ts: seq<Token<W>>, d: Cmd<W>, rest: seq<Token<W>>)
    requires PExec(ts) == Done(d, [Sym('&')] + rest) && Closes(rest)
    ensures PLine(ts) == Done(Back(d), rest)
  {
    var after := [Sym('&')] + rest;
    assert after[1..] == rest;
    assert PBacks(d, after) == PBacks(Back(d), rest) == Done(Back(d), rest);
  }

  lemma PipeLine<W>(ts: seq<Token<W>>, l: Cmd<W>, right: seq<Token<W>>, r: Cmd<W>, rest: seq<Token<W>>)
    requires PExec(ts) == Done(l, [Sym('|')] + right) && PExec(right) == Done(r, rest) && Closes(rest)
    ensures PLine(ts) == Done(Pipe(l, r), rest)
  {
    assert ([Sym('|')] + right)[1..] == right;
    EndsPipe(right, r, rest);
  }

  lemma ListLine<W>(ts: seq<Token<W>>, l: Cmd<W>, right: seq<Token<W>>, r: Cmd<W>, rest: seq<Token<W>>)
    requires PExec(ts) == Done(l, [Sym(';')] + right) && PExec(right) == Done(r, rest) && Closes(rest)
    ensures PLine(ts) == Done(List(l, r), rest)
  {
    assert ([Sym(';')] + right)[1..] == right;
    EndsLine(right, r, rest);
  }

  lemma ExecLine<W>(argv: seq<W>, rest: seq<Token<W>>)
    requires |argv| < MAXARGS && Closes(rest)
    ensures PLine(WordTokens(argv) + rest) == Done(Exec(argv), rest)
  {
    var ts := WordTokens(argv) + rest;
    assert argv != [] ==> ts[0] == Word(argv[0]);
    assert argv == [] ==> ts == rest;
    ArgsShown(argv, [], rest);
    assert [] + argv == argv;
    EndsLine(ts, Exec(argv), rest);
  }

  lemma OneRedir<W>(f: W, h: How, rest: seq<Token<W>>)
    requires Closes(rest)
    ensures var ts := [Sym(SymOf(h)), Word(f)] + rest;
            PRedirs(ts) == Redirs([Redirection(f, h)], rest) && forall c: Cmd<W> :: Wrap(c, PRedirs(ts).list) == Redir(c, f, h)
  {
    var ts := [Sym(SymOf(h)), Word(f)] + rest;
    assert ts[2..] == rest;
  }

  lemma EndsPipe<W>(ts: seq<Token<W>>, c: Cmd<W>, rest: seq<Token<W>>)
    requires PExec(ts) == Done(c, rest) && Closes(rest)
    ensures PPipe(ts) == Done(c, rest)
  {
  }

  lemma EndsLine<W>(ts: seq<Token<W>>, c: Cmd<W>, rest: seq<Token<W>>)
    requires PExec(ts) == Done(c, rest) && Closes(rest)
    ensures PLine(ts) == Done(c, rest)
  {
    EndsPipe(ts, c, rest);
  }

  /** Every tree whose simple commands are short enough is what its printing parses to. */
  lemma ShowParses<W>(c: Cmd<W>)
    requires Short(c)
    ensures PCmd(Show(c)) == Done(c, [])
  {
    LineShown(c, []);
    assert Show(c) + [] == Show(c);
  }

  // ---- Parsing looks at words only to place them ------------------------------------------------

  function MapToken<A, B>(t: Token<A>, f: A -> B): (r: Token<B>) {
    match t case Sym(k) => Sym(k) case Word(w) => Word(f(w))
  }

  function MapTokens<A, B>(ts: seq<Token<A>>, f: A -> B): (r: seq<Token<B>>)
    ensures |r| == |ts| && (forall i :: 0 <= i < |ts| ==> r[i] == MapToken(ts[i], f))
  {
    if ts == [] then [] else [MapToken(ts[0], f)] + MapTokens(ts[1..], f)
  }

  function MapSeq<A, B>(ws: seq<A>, f: A -> B): (r: seq<B>)
    ensures |r| == |ws| && (forall i :: 0 <= i < |ws| ==> r[i] == f(ws[i]))
  {
    if ws == [] then [] else [f(ws[0])] + MapSeq(ws[1..], f)
  }

  function MapRedirs<A, B>(rs: seq<Redirection<A>>, f: A -> B): (r: seq<Redirection<B>>)
    ensures |r| == |rs| && (forall i :: 0 <= i < |rs| ==> r[i] == Redirection(f(rs[i].file), rs[i].how))
  {
    if rs == [] then [] else [Redirection(f(rs[0].file), rs[0].how)] + MapRedirs(rs[1..], f)
  }

  function MapCmd<A, B>(c: Cmd<A>, f: A -> B): (r: Cmd<B>) {
    match c
    case Exec(argv) => Exec(MapSeq(argv, f))
    case Redir(c, w, h) => Redir(MapCmd(c, f), f(w), h)
    case Pipe(l, r) => Pipe(MapCmd(l, f), MapCmd(r, f))
    case List(l, r) => List(MapCmd(l, f), MapCmd(r, f))
    case Back(c) => Back(MapCmd(c, f))
  }

  function MapResult<A, B>(r: Result<A>, f: A -> B): (q: Result<B>) {
    if r.Fail? then Fail else Done(MapCmd(r.cmd, f), MapTokens(r.rest, f))
  }

  predicate Every<A>(ws: seq<A>, good: A -> bool) {
    forall i :: 0 <= i < |ws| ==> good(ws[i])
  }

  predicate EveryToken<A>(ts: seq<Token<A>>, good: A -> bool) {
    forall i :: 0 <= i < |ts| && ts[i].Word? ==> good(ts[i].w)
  }

  predicate EveryRedir<A>(rs: seq<Redirection<A>>, good: A -> bool) {
    forall i :: 0 <= i < |rs| ==> good(rs[i].file)
  }

  /** Every word of the tree is good. */
  predicate EveryWord<A>(c: Cmd<A>, good: A -> bool) {
    match c
    case Exec(argv) => Every(argv, good)
    case Redir(c, w, _) => EveryWord(c, good) && good(w)
    case Pipe(l, r) => EveryWord(l, good) && EveryWord(r, good)
    case List(l, r) => EveryWord(l, good) && EveryWord(r, good)
    case Back(c) => EveryWord(c, good)
  }

  /** r is what q is, with every word replaced by its image; the words of r are good. */
  ghost predicate Same<A, B>(r: Result<A>, q: Result<B>, f: A -> B, good: A -> bool) {
    q == MapResult(r, f) && (r.Done? ==> EveryWord(r.cmd, good) && EveryToken(r.rest, good))
  }

  lemma MapDrop<A, B>(ts: seq<Token<A>>, f: A -> B, k: nat)
    requires k <= |ts|
    ensures MapTokens(ts[k..], f) == MapTokens(ts, f)[k..]
  {
  }

  lemma {:induction false} RedirsSame<A, B>(ts: seq<Token<A>>, f: A -> B, good: A -> bool)
    requires EveryToken(ts, good)
    ensures var r, q := PRedirs(ts), PRedirs(MapTokens(ts, f));
            if r.BadRedir? then q.BadRedir?
            else q == Redirs(MapRedirs(r.list, f), MapTokens(r.rest, f)) && EveryRedir(r.list, good) && EveryToken(r.rest, good)
    decreases |ts|
  {
    if StartsRedir(ts) && |ts| >= 2 && ts[1].Word? {
      RedirsSame(ts[2..], f, good);
      MapDrop(ts, f, 2);
    }
  }

  lemma {:induction false} WrapSame<A, B>(c: Cmd<A>, rs: seq<Redirection<A>>, f: A -> B, good: A -> bool)
    requires EveryWord(c, good) && EveryRedir(rs, good)
    ensures Wrap(MapCmd(c, f), MapRedirs(rs, f)) == MapCmd(Wrap(c, rs), f) && EveryWord(Wrap(c, rs), good)
    decreases |rs|
  {
    if rs != [] {
      WrapSame(Redir(c, rs[0].file, rs[0].how), rs[1..], f, good);
      assert MapRedirs(rs, f)[1..] == MapRedirs(rs[1..], f);
    }
  }

  lemma MapSeqMore<A, B>(ws: seq<A>, w: A, f: A -> B)
    ensures MapSeq(ws + [w], f) == MapSeq(ws, f) + [f(w)]
  {
  }

  lemma MapRedirsMore<A, B>(rs: seq<Redirection<A>>, more: seq<Redirection<A>>, f: A -> B)
    ensures MapRedirs(rs + more, f) == MapRedirs(rs, f) + MapRedirs(more, f)
  {
  }

  lemma {:induction false} ArgsSame<A, B>(ts: seq<Token<A>>, argv: seq<A>, rs: seq<Redirection<A>>, f: A -> B, good: A -> bool)
    requires EveryToken(ts, good) && Every(argv, good) && EveryRedir(rs, good)
    ensures Same(PArgs(ts, argv, rs), PArgs(MapTokens(ts, f), MapSeq(argv, f), MapRedirs(rs, f)), f, good)
    decreases |ts|
  {
    hide PRedirs, Wrap, MapSeq, MapRedirs, MapTokens;
    if ts == [] || StartsStop(ts) {
      WrapSame(Exec(argv), rs, f, good);
    } else if ts[0].Word? && |argv| + 1 < MAXARGS {
      RedirsSame(ts[1..], f, good);
      MapDrop(ts, f, 1);
      var more := PRedirs(ts[1..]);
      if more.Redirs? {
        MapSeqMore(argv, ts[0].w, f);
        MapRedirsMore(rs, more.list, f);
        ArgsSame(more.rest, argv + [ts[0].w], rs + more.list, f, good);
      }
    }
  }

  lemma {:induction false} ExecSame<A, B>(ts: seq<Token<A>>, f: A -> B, good: A -> bool)
    requires EveryToken(ts, good)
    ensures Same(PExec(ts), PExec(MapTokens(ts, f)), f, good)
    decreases |ts|, 1
  {
    if Starts(ts, '(') {
      BlockSame(ts, f, good);
    } else {
      RedirsSame(ts, f, good);
      var rs := PRedirs(ts);
      if rs.Redirs? { ArgsSame(rs.rest, [], rs.list, f, good); }
    }
  }

  lemma {:induction false} BlockSame<A, B>(ts: seq<Token<A>>, f: A -> B, good: A -> bool)
    requires EveryToken(ts, good) && Starts(ts, '(')
    ensures Starts(MapTokens(ts, f), '(') && Same(PBlock(ts), PBlock(MapTokens(ts, f)), f, good)
    decreases |ts|, 0
  {
    LineSame(ts[1..], f, good);
    MapDrop(ts, f, 1);
    var body := PLine(ts[1..]);
    if body.Done? && Starts(body.rest, ')') {
      RedirsSame(body.rest[1..], f, good);
      MapDrop(body.rest, f, 1);
      var rs := PRedirs(body.rest[1..]);
      if rs.Redirs? { WrapSame(body.cmd, rs.list, f, good); }
    }
  }

  lemma {:induction false} PipeSame<A, B>(ts: seq<Token<A>>, f: A -> B, good: A -> bool)
    requires EveryToken(ts, good)
    ensures Same(PPipe(ts), PPipe(MapTokens(ts, f)), f, good)
    decreases |ts|, 2
  {
    ExecSame(ts, f, good);
    var left := PExec(ts);
    if left.Done? && Starts(left.rest, '|') {
      MapDrop(left.rest, f, 1);
      PipeSame(left.rest[1..], f, good);
    }
  }

  lemma {:induction false} BacksSame<A, B>(c: Cmd<A>, ts: seq<Token<A>>, f: A -> B, good: A -> bool)
    requires EveryWord(c, good) && EveryToken(ts, good)
    ensures Same(PBacks(c, ts), PBacks(MapCmd(c, f), MapTokens(ts, f)), f, good)
    decreases |ts|
  {
    if Starts(ts, '&') {
      MapDrop(ts, f, 1);
      BacksSame(Back(c), ts[1..], f, good);
    }
  }

  lemma {:induction false} LineSame<A, B>(ts: seq<Token<A>>, f: A -> B, good: A -> bool)
    requires EveryToken(ts, good)
    ensures Same(PLine(ts), PLine(MapTokens(ts, f)), f, good)
    decreases |ts|, 3
  {
    PipeSame(ts, f, good);
    var first := PPipe(ts);
    if first.Done? {
      BacksSame(first.cmd, first.rest, f, good);
      var left := PBacks(first.cmd, first.rest);
      if Starts(left.rest, ';') {
        MapDrop(left.rest, f, 1);
        LineSame(left.rest[1..], f, good);
      }
    }
  }
}
