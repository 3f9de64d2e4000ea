// The shell's grammar as derivations, apart from any parser: what text each derives and what tree it
// stands for. The grammar functions accept exactly the derivable lines.
module ShellSyntax {
  import opened ShellGrammar

  /** line: pipeline '&'* [ ';' line ]
      pipeline: simple [ '|' pipeline ]
      simple: '(' line ')' redirection*  or  redirection* (word redirection*)* */
  datatype Line<W> = Last(p: Pipeline<W>, backs: nat) | More(p: Pipeline<W>, backs: nat, rest: Line<W>)
  datatype Pipeline<W> = One(s: Simple<W>) | Piped(s: Simple<W>, rest: Pipeline<W>)
  datatype Simple<W> = Block(line: Line<W>, rs: seq<Redirection<W>>) | Words(rs: seq<Redirection<W>>, items: seq<Item<W>>)
  datatype Item<W> = Item(w: W, rs: seq<Redirection<W>>)

  // ---- The tokens derived -------------------------------------------------------------------------

  function RedirText<W>(rs: seq<Redirection<W>>): seq<Token<W>> {
    if rs == [] then [] else [Sym(SymOf(rs[0].how)), Word(rs[0].file)] + RedirText(rs[1..])
  }

  function ItemText<W>(items: seq<Item<W>>): seq<Token<W>> {
    if items == [] then [] else [Word(items[0].w)] + RedirText(items[0].rs) + ItemText(items[1..])
  }

  function Amps<W>(n: nat): seq<Token<W>> {
    if n == 0 then [] else [Sym('&')] + Amps(n-1)
  }

  function SimpleText<W>(s: Simple<W>): seq<Token<W>> {
    match s
    case Block(line, rs) => Paren(LineText(line)) + RedirText(rs)
    case Words(rs, items) => RedirText(rs) + ItemText(items)
  }

  function PipeText<W>(p: Pipeline<W>): seq<Token<W>> {
    match p
    case One(s) => SimpleText(s)
    case Piped(s, rest) => SimpleText(s) + [Sym('|')] + PipeText(rest)
  }

  function LineText<W>(d: Line<W>): seq<Token<W>> {
    match d
    case Last(p, n) => PipeText(p) + Amps(n)
    case More(p, n, rest) => PipeText(p) + Amps(n) + [Sym(';')] + LineText(rest)
  }

  // ---- The tree meant -----------------------------------------------------------------------------

  function ItemWords<W>(items: seq<Item<W>>): seq<W> {
    if items == [] then [] else [items[0].w] + ItemWords(items[1..])
  }

  function ItemRedirs<W>(items: seq<Item<W>>): seq<Redirection<W>> {
    if items == [] then [] else items[0].rs + ItemRedirs(items[1..])
  }

  function Backs<W>(c: Cmd<W>, n: nat): Cmd<W>
    decreases n
  {
    if n == 0 then c else Backs(Back(c), n-1)
  }

  /** Each redirection applies to the command with those before it: the last one is the outermost. */
  function Redirected<W>(c: Cmd<W>, rs: seq<Redirection<W>>): Cmd<W>
    decreases |rs|
  {
    if rs == [] then c
    else
      var last := rs[|rs|-1];
      Redir(Redirected(c, rs[..|rs|-1]), last.file, last.how)
  }

  function SimpleTree<W>(s: Simple<W>): Cmd<W> {
    match s
    case Block(line, rs) => Redirected(LineTree(line), rs)
    case Words(rs, items) => Redirected(Exec(ItemWords(items)), rs + ItemRedirs(items))
  }

  function PipeTree<W>(p: Pipeline<W>): Cmd<W> {
    match p
    case One(s) => SimpleTree(s)
    case Piped(s, rest) => Pipe(SimpleTree(s), PipeTree(rest))
  }

  function LineTree<W>(d: Line<W>): Cmd<W> {
    match d
    case Last(p, n) => Backs(PipeTree(p), n)
    case More(p, n, rest) => List(Backs(PipeTree(p), n), LineTree(rest))
  }

  /** Fewer than MAXARGS words to a simple command. */
  predicate SimpleFits<W>(s: Simple<W>) {
    match s case Block(line, _) => LineFits(line) case Words(_, items) => |items| < MAXARGS
  }

  predicate PipeFits<W>(p: Pipeline<W>) {
    match p case One(s) => SimpleFits(s) case Piped(s, rest) => SimpleFits(s) && PipeFits(rest)
  }

  predicate LineFits<W>(d: Line<W>) {
    match d case Last(p, _) => PipeFits(p) case More(p, _, rest) => PipeFits(p) && LineFits(rest)
  }

  /** Wrapping a command in redirections as they are read leaves the last one outermost. */
  lemma {:induction false} WrapIs<W>(c: Cmd<W>, rs: seq<Redirection<W>>)
    ensures Wrap(c, rs) == Redirected(c, rs)
    decreases |rs|
  {
    if rs != [] {
      WrapIs(Redir(c, rs[0].file, rs[0].how), rs[1..]);
      RedirectedCons(c, rs);
    }
  }

  lemma {:induction false} RedirectedCons<W>(c: Cmd<W>, rs: seq<Redirection<W>>)
    requires rs != []
    ensures Redirected(c, rs) == Redirected(Redir(c, rs[0].file, rs[0].how), rs[1..])
    decreases |rs|
  {
    var before, after := rs[..|rs|-1], rs[1..];
    if |rs| > 1 {
      RedirectedCons(c, before);
      assert before[1..] == after[..|after|-1];
    }
  }

  /** What each redirection symbol does to its file. */
  lemma RedirMeans<W>(f: W, rest: seq<Token<W>>)
    requires !StartsRedir(rest)
    ensures PRedirs([Sym('<'), Word(f)] + rest) == Redirs([Redirection(f, In)], rest)
    ensures PRedirs([Sym('>'), Word(f)] + rest) == Redirs([Redirection(f, Out)], rest)
    ensures PRedirs([Sym('+'), Word(f)] + rest) == Redirs([Redirection(f, Append)], rest)
  {
    hide PRedirs, StartsRedir, SymOf;
    NoRedirs(rest);
    RedirStep(Redirection(f, In), rest);
    RedirStep(Redirection(f, Out), rest);
    RedirStep(Redirection(f, Append), rest);
    SymsOf();
  }

  lemma SymsOf()
    ensures SymOf(In) == '<' && SymOf(Out) == '>' && SymOf(Append) == '+'
  {
  }

  // ---- What is accepted is derived ----------------------------------------------------------------

  lemma RedirRead<W>(ts: seq<Token<W>>)
    requires PRedirs(ts).Redirs? && StartsRedir(ts)
    ensures |ts| >= 2 && ts[1].Word? && PRedirs(ts[2..]).Redirs?
    ensures var r := Redirection(ts[1].w, HowOf(ts[0].k));
            ts[0] == Sym(SymOf(r.how)) && PRedirs(ts) == Redirs([r] + PRedirs(ts[2..]).list, PRedirs(ts[2..]).rest)
  {
  }

  lemma {:induction false} RedirsSound<W>(ts: seq<Token<W>>)
    requires PRedirs(ts).Redirs?
    ensures ts == RedirText(PRedirs(ts).list) + PRedirs(ts).rest
  {
    if StartsRedir(ts) {
      RedirRead(ts);
      RedirsSound(ts[2..]);
      hide PRedirs, RedirText, SymOf, HowOf, StartsRedir;
      var r, more := Redirection(ts[1].w, HowOf(ts[0].k)), PRedirs(ts[2..]);
      assert ([r] + more.list)[1..] == more.list;
      RedirCons([r] + more.list, more.rest);
      assert ts == [ts[0], ts[1]] + ts[2..];
    }
  }

  lemma NoItems<W>()
    ensures ItemText<W>([]) == [] && ItemWords<W>([]) == [] && ItemRedirs<W>([]) == []
  {
  }

  lemma ItemCons<W>(it: Item<W>, later: seq<Item<W>>)
    ensures ItemText([it] + later) == [Word(it.w)] + RedirText(it.rs) + ItemText(later)
    ensures ItemWords([it] + later) == [it.w] + ItemWords(later)
    ensures ItemRedirs([it] + later) == it.rs + ItemRedirs(later)
  {
    hide RedirText;
    assert ([it] + later)[1..] == later;
  }

  /** One word and its redirections. */
  lemma ArgsStep<W>(ts: seq<Token<W>>, argv: seq<W>, rs: seq<Redirection<W>>)
    requires ts != [] && ts[0].Word? && |argv| + 1 < MAXARGS && PRedirs(ts[1..]).Redirs?
    ensures PArgs(ts, argv, rs) == PArgs(PRedirs(ts[1..]).rest, argv + [ts[0].w], rs + PRedirs(ts[1..]).list)
  {
    hide Wrap, PRedirs;
  }

  lemma ArgsWord<W>(ts: seq<Token<W>>, argv: seq<W>, rs: seq<Redirection<W>>)
    requires PArgs(ts, argv, rs).Done? && ts != [] && !StartsStop(ts)
    ensures ts[0].Word? && |argv| + 1 < MAXARGS && PRedirs(ts[1..]).Redirs?
  {
    hide Wrap, PRedirs;
  }

  lemma ArgsStop<W>(ts: seq<Token<W>>, argv: seq<W>, rs: seq<Redirection<W>>)
    requires ts == [] || StartsStop(ts)
    ensures PArgs(ts, argv, rs) == Done(Wrap(Exec(argv), rs), ts)
  {
    hide Wrap, PRedirs;
  }

  lemma {:induction false} ArgsSound<W>(ts: seq<Token<W>>, argv: seq<W>, rs: seq<Redirection<W>>) returns (items: seq<Item<W>>)
    requires PArgs(ts, argv, rs).Done? && |argv| < MAXARGS
    ensures ts == ItemText(items) + PArgs(ts, argv, rs).rest && |argv| + |items| < MAXARGS
    ensures PArgs(ts, argv, rs).cmd == Wrap(Exec(argv + ItemWords(items)), rs + ItemRedirs(items))
    decreases |ts|
  {
    hide Wrap, PArgs, PRedirs, ItemText, ItemWords, ItemRedirs, RedirText, StartsStop;
    if ts == [] || StartsStop(ts) {
      ArgsStop(ts, argv, rs);
      items := [];
      NoItems<W>();
      assert argv + ItemWords(items) == argv && rs + ItemRedirs(items) == rs && ts == ItemText(items) + ts;
    } else {
      ArgsWord(ts, argv, rs);
      ArgsStep(ts, argv, rs);
      var more := PRedirs(ts[1..]);
      RedirsSound(ts[1..]);
      var later := ArgsSound(more.rest, argv + [ts[0].w], rs + more.list);
      var it := Item(ts[0].w, more.list);
      items := [it] + later;
      ItemCons(it, later);
      assert argv + [ts[0].w] + ItemWords(later) == argv + ItemWords(items);
      assert rs + more.list + ItemRedirs(later) == rs + ItemRedirs(items);
      assert ts == [ts[0]] + ts[1..];
    }
  }

  lemma {:induction false} ExecSound<W>(ts: seq<Token<W>>) returns (s: Simple<W>)
    requires PExec(ts).Done?
    ensures ts == SimpleText(s) + PExec(ts).rest && PExec(ts).cmd == SimpleTree(s) && SimpleFits(s)
    decreases |ts|, 1
  {
    hide Wrap, Redirected, PBlock, PArgs, PRedirs, RedirText, ItemText, ItemWords, ItemRedirs;
    if Starts(ts, '(') {
      s := BlockSound(ts);
    } else {
      var rs := PRedirs(ts);
      RedirsSound(ts);
      var items := ArgsSound(rs.rest, [], rs.list);
      s := Words(rs.list, items);
      assert [] + ItemWords(items) == ItemWords(items);
      WrapIs(Exec(ItemWords(items)), rs.list + ItemRedirs(items));
    }
  }

  lemma {:induction false} BlockSound<W>(ts: seq<Token<W>>) returns (s: Simple<W>)
    requires Starts(ts, '(') && PBlock(ts).Done?
    ensures ts == SimpleText(s) + PBlock(ts).rest && PBlock(ts).cmd == SimpleTree(s) && SimpleFits(s)
    decreases |ts|, 0
  {
    hide Wrap, Redirected, LineText, LineTree, LineFits, PLine, PRedirs, RedirText, Paren;
    var body := PLine(ts[1..]);
    var line := LineSound(ts[1..]);
    var rs := PRedirs(body.rest[1..]);
    RedirsSound(body.rest[1..]);
    s := Block(line, rs.list);
    WrapIs(LineTree(line), rs.list);
    assert body.rest == [Sym(')')] + body.rest[1..];
    assert ts == [Sym('(')] + ts[1..];
    ParenJoin(LineText(line), RedirText(rs.list), rs.rest);
  }

  lemma ParenJoin<W>(line: seq<Token<W>>, redirs: seq<Token<W>>, rest: seq<Token<W>>)
    ensures Paren(line) + redirs + rest == [Sym('(')] + (line + ([Sym(')')] + (redirs + rest)))
  {
  }

  lemma {:induction false} PipeSound<W>(ts: seq<Token<W>>) returns (p: Pipeline<W>)
    requires PPipe(ts).Done?
    ensures ts == PipeText(p) + PPipe(ts).rest && PPipe(ts).cmd == PipeTree(p) && PipeFits(p)
    decreases |ts|, 2
  {
    hide SimpleText, SimpleTree, SimpleFits;
    var left := PExec(ts);
    var s := ExecSound(ts);
    if !Starts(left.rest, '|') {
      p := One(s);
    } else {
      var right := PipeSound(left.rest[1..]);
      p := Piped(s, right);
      assert left.rest == [Sym('|')] + left.rest[1..];
    }
  }

  lemma {:induction false} BacksSound<W>(c: Cmd<W>, ts: seq<Token<W>>) returns (n: nat)
    ensures ts == Amps(n) + PBacks(c, ts).rest && PBacks(c, ts).cmd == Backs(c, n)
    decreases |ts|
  {
    if Starts(ts, '&') {
      var m := BacksSound(Back(c), ts[1..]);
      n := m + 1;
      assert ts == [Sym('&')] + ts[1..];
    } else {
      n := 0;
    }
  }

  lemma {:induction false} LineSound<W>(ts: seq<Token<W>>) returns (d: Line<W>)
    requires PLine(ts).Done?
    ensures ts == LineText(d) + PLine(ts).rest && PLine(ts).cmd == LineTree(d) && LineFits(d)
    decreases |ts|, 3
  {
    hide PipeText, PipeTree, PipeFits, Backs, Amps, PBacks;
    var first := PPipe(ts);
    var p := PipeSound(ts);
    var left := PBacks(first.cmd, first.rest);
    var n := BacksSound(first.cmd, first.rest);
    if !Starts(left.rest, ';') {
      d := Last(p, n);
    } else {
      var right := LineSound(left.rest[1..]);
      d := More(p, n, right);
      assert left.rest == [Sym(';')] + left.rest[1..];
    }
  }

  // ---- What is derived is accepted ----------------------------------------------------------------

  /** Where a simple command, a pipeline or a line may end. */
  predicate EndsSimple<W>(rest: seq<Token<W>>) {
    rest == [] || StartsStop(rest)
  }

  predicate EndsPipe<W>(rest: seq<Token<W>>) {
    EndsSimple(rest) && !Starts(rest, '|')
  }

  lemma RedirStep<W>(r: Redirection<W>, later: seq<Token<W>>)
    requires PRedirs(later).Redirs?
    ensures PRedirs([Sym(SymOf(r.how)), Word(r.file)] + later) == Redirs([r] + PRedirs(later).list, PRedirs(later).rest)
  {
    assert ([Sym(SymOf(r.how)), Word(r.file)] + later)[2..] == later;
    assert HowOf(SymOf(r.how)) == r.how;
  }

  lemma {:induction false} RedirsComplete<W>(rs: seq<Redirection<W>>, rest: seq<Token<W>>)
    requires !StartsRedir(rest)
    ensures PRedirs(RedirText(rs) + rest) == Redirs(rs, rest)
  {
    hide PRedirs, RedirText, StartsRedir, SymOf;
    if rs == [] {
      NoRedirs(rest);
    } else {
      RedirsComplete(rs[1..], rest);
      var later := RedirText(rs[1..]) + rest;
      RedirCons(rs, rest);
      RedirStep(rs[0], later);
      assert rs == [rs[0]] + rs[1..];
    }
  }

  lemma NoRedirs<W>(rest: seq<Token<W>>)
    requires !StartsRedir(rest)
    ensures PRedirs(RedirText([]) + rest) == Redirs([], rest)
  {
    assert RedirText([]) + rest == rest;
  }

  lemma RedirCons<W>(rs: seq<Redirection<W>>, rest: seq<Token<W>>)
    requires rs != []
    ensures RedirText(rs) + rest == [Sym(SymOf(rs[0].how)), Word(rs[0].file)] + (RedirText(rs[1..]) + rest)
  {
  }

  lemma {:induction false} ArgsComplete<W>(items: seq<Item<W>>, argv: seq<W>, rs: seq<Redirection<W>>, rest: seq<Token<W>>)
    requires EndsSimple(rest) && |argv| + |items| < MAXARGS
    ensures PArgs(ItemText(items) + rest, argv, rs) == Done(Wrap(Exec(argv + ItemWords(items)), rs + ItemRedirs(items)), rest)
    decreases |items|
  {
    hide Wrap, PArgs, PRedirs, ItemText, ItemWords, ItemRedirs, RedirText, StartsStop;
    var ts := ItemText(items) + rest;
    if items == [] {
      NoItems<W>();
      assert ts == rest && argv + ItemWords(items) == argv && rs + ItemRedirs(items) == rs;
      ArgsStop(ts, argv, rs);
    } else {
      var later := ItemText(items[1..]) + rest;
      assert items == [items[0]] + items[1..];
      ItemCons(items[0], items[1..]);
      assert ts[0] == Word(items[0].w) && ts[1..] == RedirText(items[0].rs) + later;
      NotRedir(items[1..], rest);
      RedirsComplete(items[0].rs, later);
      ArgsStep(ts, argv, rs);
      ArgsComplete(items[1..], argv + [items[0].w], rs + items[0].rs, rest);
      assert argv + [items[0].w] + ItemWords(items[1..]) == argv + ItemWords(items);
      assert rs + items[0].rs + ItemRedirs(items[1..]) == rs + ItemRedirs(items);
    }
  }

  lemma NotRedir<W>(items: seq<Item<W>>, rest: seq<Token<W>>)
    requires EndsSimple(rest)
    ensures !StartsRedir(ItemText(items) + rest) && !Starts(ItemText(items) + rest, '(')
  {
    var ts := ItemText(items) + rest;
    if items == [] {
      assert ts == rest;
    } else {
      assert ts[0] == Word(items[0].w);
    }
  }

  lemma {:induction false} SimpleComplete<W>(s: Simple<W>, rest: seq<Token<W>>)
    requires SimpleFits(s) && EndsSimple(rest)
    ensures PExec(SimpleText(s) + rest) == Done(SimpleTree(s), rest)
    decreases s, 1
  {
    hide PExec, SimpleText, SimpleTree;
    if s.Block? {
      BlockComplete(s, rest);
    } else {
      WordsComplete(s, rest);
    }
  }

  lemma WordsComplete<W>(s: Simple<W>, rest: seq<Token<W>>)
    requires s.Words? && SimpleFits(s) && EndsSimple(rest)
    ensures PExec(SimpleText(s) + rest) == Done(SimpleTree(s), rest)
  {
    hide Wrap, Redirected, PRedirs, PArgs, PBlock, RedirText, ItemText, ItemWords, ItemRedirs;
    WrapIs(Exec(ItemWords(s.items)), s.rs + ItemRedirs(s.items));
    var later := ItemText(s.items) + rest;
    assert SimpleText(s) + rest == RedirText(s.rs) + later;
    NotRedir(s.items, rest);
    NotParen(s.rs, later);
    RedirsComplete(s.rs, later);
    ArgsComplete(s.items, [], s.rs, rest);
    assert [] + ItemWords(s.items) == ItemWords(s.items);
  }

  lemma {:induction false} BlockComplete<W>(s: Simple<W>, rest: seq<Token<W>>)
    requires s.Block? && SimpleFits(s) && EndsSimple(rest)
    ensures PExec(SimpleText(s) + rest) == Done(SimpleTree(s), rest)
    decreases s, 0
  {
    hide Wrap, Redirected, PRedirs, PArgs, PExec, Paren, RedirText, LineText, PLine, LineTree, LineFits;
    var later := RedirText(s.rs) + rest;
    assert SimpleText(s) + rest == Paren(LineText(s.line)) + later;
    LineComplete(s.line, [Sym(')')] + later);
    RedirsComplete(s.rs, rest);
    ParenRead(LineText(s.line), LineTree(s.line), s.rs, later, rest);
    WrapIs(LineTree(s.line), s.rs);
  }

  lemma NotParen<W>(rs: seq<Redirection<W>>, later: seq<Token<W>>)
    requires !Starts(later, '(')
    ensures !Starts(RedirText(rs) + later, '(')
  {
    if rs == [] {
      assert RedirText(rs) + later == later;
    }
  }

  lemma {:induction false} PipeComplete<W>(p: Pipeline<W>, rest: seq<Token<W>>)
    requires PipeFits(p) && EndsPipe(rest)
    ensures PPipe(PipeText(p) + rest) == Done(PipeTree(p), rest)
    decreases p
  {
    hide SimpleText, SimpleTree, SimpleFits, PExec;
    match p
    case One(s) => SimpleComplete(s, rest);
    case Piped(s, q) =>
      var later := [Sym('|')] + (PipeText(q) + rest);
      assert PipeText(p) + rest == SimpleText(s) + later;
      SimpleComplete(s, later);
      assert later[1..] == PipeText(q) + rest;
      PipeComplete(q, rest);
  }

  lemma {:induction false} BacksComplete<W>(c: Cmd<W>, n: nat, rest: seq<Token<W>>)
    requires !Starts(rest, '&')
    ensures PBacks(c, Amps(n) + rest) == Done(Backs(c, n), rest)
    decreases n
  {
    hide PBacks;
    if n == 0 {
      assert Amps(n) + rest == rest;
      NoAmp(c, rest);
    } else {
      BacksComplete(Back(c), n-1, rest);
      assert Amps(n) + rest == [Sym('&')] + (Amps(n-1) + rest);
      OneAmp(c, Amps(n-1) + rest);
    }
  }

  lemma NoAmp<W>(c: Cmd<W>, rest: seq<Token<W>>)
    requires !Starts(rest, '&')
    ensures PBacks(c, rest) == Done(c, rest)
  {
  }

  lemma OneAmp<W>(c: Cmd<W>, later: seq<Token<W>>)
    ensures PBacks(c, [Sym('&')] + later) == PBacks(Back(c), later)
  {
    assert ([Sym('&')] + later)[1..] == later;
  }

  lemma AmpsEnd<W>(n: nat, rest: seq<Token<W>>)
    requires EndsPipe(rest)
    ensures EndsPipe(Amps(n) + rest)
  {
    if n == 0 {
      assert Amps(n) + rest == rest;
    }
  }

  lemma {:induction false} LineComplete<W>(d: Line<W>, rest: seq<Token<W>>)
    requires LineFits(d) && Closes(rest)
    ensures PLine(LineText(d) + rest) == Done(LineTree(d), rest)
    decreases d
  {
    hide PipeText, PipeTree, PipeFits, PPipe, PBacks, Amps, Backs;
    var later := if d.Last? then rest else [Sym(';')] + (LineText(d.rest) + rest);
    assert LineText(d) + rest == PipeText(d.p) + (Amps(d.backs) + later);
    AmpsEnd(d.backs, later);
    PipeComplete(d.p, Amps(d.backs) + later);
    BacksComplete(PipeTree(d.p), d.backs, later);
    if d.More? {
      assert later[1..] == LineText(d.rest) + rest;
      LineComplete(d.rest, rest);
    }
  }

  // ---- The language -------------------------------------------------------------------------------

  /** d derives ts and means c. */
  predicate Derives<W(==)>(d: Line<W>, ts: seq<Token<W>>, c: Cmd<W>) {
    LineFits(d) && LineText(d) == ts && LineTree(d) == c
  }

  /** A line is accepted with a tree exactly if it has a derivation that means that tree: pipes bind
      tighter than & and ;, and both pipes and lists group to the right. */
  lemma AcceptsDerived<W(!new)>(ts: seq<Token<W>>, c: Cmd<W>)
    ensures PCmd(ts) == Done(c, []) <==> exists d :: Derives(d, ts, c)
  {
    if PCmd(ts) == Done(c, []) {
      var d := LineSound(ts);
      assert ts == LineText(d) + [] == LineText(d);
      assert Derives(d, ts, c);
    }
    if d :| Derives(d, ts, c) {
      assert ts + [] == ts;
      LineComplete(d, []);
    }
  }

  /** No line has two meanings. */
  lemma OneMeaning<W>(d: Line<W>, e: Line<W>)
    requires LineFits(d) && LineFits(e) && LineText(d) == LineText(e)
    ensures LineTree(d) == LineTree(e)
  {
    hide LineText, LineTree, LineFits, PLine;
    assert LineText(d) + [] == LineText(d);
    LineComplete(d, []);
    LineComplete(e, []);
  }
}
