// The shell's parser: tokens read from a text through a cursor, recursive descent over them, and the NULs
// it writes into the text at the end of every word.
module Shell {
  import opened Options
  import opened ShellGrammar
  import ShellSyntax

  /** A word of the text: where it starts and where it ends. */
  datatype Span = Span(q: nat, eq: nat)

  const NUL: char := '\0'

  predicate IsSpace(c: char) {
    c == ' ' || c == '\t' || c == '\r' || c == '\n' || c == '\U{0B}'
  }

  predicate IsSymbol(c: char) {
    c == '<' || c == '|' || c == '>' || c == '&' || c == ';' || c == '(' || c == ')'
  }

  predicate IsWordChar(c: char) {
    !IsSpace(c) && !IsSymbol(c) && c != NUL
  }

  predicate NoNul(t: string) {
    forall i :: 0 <= i < |t| ==> t[i] != NUL
  }

  // ---- Tokens of a text -------------------------------------------------------------------------

  function Skip(t: string, i: nat): (s: nat)
    requires i <= |t|
    ensures i <= s <= |t| && (forall k :: i <= k < s ==> IsSpace(t[k])) && (s < |t| ==> !IsSpace(t[s]))
    decreases |t| - i
  {
    if i < |t| && IsSpace(t[i]) then Skip(t, i + 1) else i
  }

  function WordEnd(t: string, i: nat): (e: nat)
    requires i <= |t|
    ensures i <= e <= |t| && (forall k :: i <= k < e ==> IsWordChar(t[k])) && (e < |t| ==> !IsWordChar(t[e]))
    decreases |t| - i
  {
    if i < |t| && IsWordChar(t[i]) then WordEnd(t, i + 1) else i
  }

  /** Where the token that starts at s ends. */
  function TokenEnd(t: string, s: nat): (e: nat)
    requires s < |t| && !IsSpace(t[s]) && t[s] != NUL
    ensures s < e <= |t|
  {
    if t[s] == '>' then (if s + 1 < |t| && t[s+1] == '>' then s + 2 else s + 1)
    else if IsSymbol(t[s]) then s + 1
    else WordEnd(t, s)
  }

  function TokenAt(t: string, s: nat): (k: Token<Span>)
    requires s < |t| && !IsSpace(t[s]) && t[s] != NUL
  {
    if t[s] == '>' then (if s + 1 < |t| && t[s+1] == '>' then Sym('+') else Sym('>'))
    else if IsSymbol(t[s]) then Sym(t[s])
    else Word(Span(s, WordEnd(t, s)))
  }

  /** The tokens of the text from i on. */
  function Lex(t: string, i: nat): (ts: seq<Token<Span>>)
    requires i <= |t| && NoNul(t)
    decreases |t| - i
  {
    var s := Skip(t, i);
    if s == |t| then [] else [TokenAt(t, s)] + Lex(t, TokenEnd(t, s))
  }

  lemma SkipTwice(t: string, i: nat)
    requires i <= |t| && NoNul(t)
    ensures Skip(t, Skip(t, i)) == Skip(t, i) && Lex(t, Skip(t, i)) == Lex(t, i)
  {
  }

  /** What peek sees decides how the tokens start. */
  lemma Peeked(t: string, i: nat)
    requires i <= |t| && NoNul(t)
    ensures var s, ts := Skip(t, i), Lex(t, i);
            && (s == |t| <==> ts == [])
            && (s < |t| ==>
                  && (t[s] in "<|&;()" ==> Starts(ts, t[s]))
                  && (t[s] == '>' <==> Starts(ts, '>') || Starts(ts, '+'))
                  && (forall k :: k in "<|&;()" ==> (Starts(ts, k) <==> t[s] == k)))
  {
  }

  // ---- What the tokens of a text are, apart from any lexer ----------------------------------------

  predicate Blank(t: string, i: nat, j: nat) {
    i <= j <= |t| && forall k :: i <= k < j ==> IsSpace(t[k])
  }

  /** The token k is what the text has at sp: >> if it can be, and a word as long as it can be. */
  predicate TokenIs(t: string, sp: Span, k: Token<Span>) {
    && sp.q < sp.eq <= |t|
    && match k
       case Sym(c) =>
         if c == '+' then t[sp.q..sp.eq] == ">>"
         else IsSymbol(c) && t[sp.q..sp.eq] == [c] && (c == '>' && sp.eq < |t| ==> t[sp.eq] != '>')
       case Word(w) =>
         w == sp && (forall j :: sp.q <= j < sp.eq ==> IsWordChar(t[j])) && (sp.eq < |t| ==> !IsWordChar(t[sp.eq]))
  }

  /** ts are the tokens of the text from i on and ps the places they are at: one after the other, with
      nothing but white space before, between and after them. */
  predicate Tokenizes(t: string, i: nat, ts: seq<Token<Span>>, ps: seq<Span>)
    decreases |ts|
  {
    && |ps| == |ts|
    && if ts == [] then Blank(t, i, |t|)
       else TokenIs(t, ps[0], ts[0]) && Blank(t, i, ps[0].q) && Tokenizes(t, ps[0].eq, ts[1..], ps[1..])
  }

  function Places(t: string, i: nat): (ps: seq<Span>)
    requires i <= |t| && NoNul(t)
    decreases |t| - i
  {
    var s := Skip(t, i);
    if s == |t| then [] else [Span(s, TokenEnd(t, s))] + Places(t, TokenEnd(t, s))
  }

  /** Every character of the text is white space or in exactly one token. */
  lemma {:induction false} LexTokenizes(t: string, i: nat)
    requires i <= |t| && NoNul(t)
    ensures Tokenizes(t, i, Lex(t, i), Places(t, i))
    decreases |t| - i
  {
    var s := Skip(t, i);
    if s < |t| {
      var e := TokenEnd(t, s);
      LexTokenizes(t, e);
      LexTokenIs(t, s);
      hide TokenIs, TokenAt, TokenEnd;
      assert Lex(t, i)[1..] == Lex(t, e) && Places(t, i)[1..] == Places(t, e);
    }
  }

  lemma LexTokenIs(t: string, s: nat)
    requires s < |t| && !IsSpace(t[s]) && t[s] != NUL
    ensures TokenIs(t, Span(s, TokenEnd(t, s)), TokenAt(t, s))
  {
  }

  /** And there is no other way to cut it up. */
  lemma {:induction false} OneTokenization(t: string, i: nat, ts: seq<Token<Span>>, ps: seq<Span>)
    requires i <= |t| && NoNul(t) && Tokenizes(t, i, ts, ps)
    ensures ts == Lex(t, i)
    decreases |ts|
  {
    if ts == [] {
      assert Skip(t, i) == |t|;
    } else {
      var sp := ps[0];
      SkipIs(t, i, sp, ts[0]);
      OneTokenization(t, sp.eq, ts[1..], ps[1..]);
      assert ts == [ts[0]] + ts[1..];
    }
  }

  lemma SkipIs(t: string, i: nat, sp: Span, k: Token<Span>)
    requires NoNul(t) && Blank(t, i, sp.q) && TokenIs(t, sp, k)
    ensures Skip(t, i) == sp.q < |t| && TokenAt(t, sp.q) == k && TokenEnd(t, sp.q) == sp.eq
  {
    var w := t[sp.q..sp.eq];
    assert forall j :: sp.q <= j < sp.eq ==> t[j] == w[j - sp.q];
    var x := Skip(t, i);
    assert !IsSpace(t[sp.q]);
    assert !(x < sp.q) && !(sp.q < x);
    if k.Word? {
      var e := WordEnd(t, sp.q);
      assert !(e < sp.eq) && !(sp.eq < e);
    }
  }

  /** The text with its white space removed. */
  function Squeezed(t: string): string {
    if t == "" then "" else (if IsSpace(t[0]) then "" else [t[0]]) + Squeezed(t[1..])
  }

  function Joined(t: string, ts: seq<Token<Span>>): string {
    if ts == [] then "" else TokenText(MapToken(ts[0], Texts(t))) + Joined(t, ts[1..])
  }

  lemma {:induction false} SqueezeBlank(t: string, i: nat, j: nat)
    requires Blank(t, i, j)
    ensures Squeezed(t[i..]) == Squeezed(t[j..])
    decreases j - i
  {
    if i < j {
      assert t[i..][1..] == t[i + 1..];
      SqueezeBlank(t, i + 1, j);
    }
  }

  lemma {:induction false} SqueezeSolid(t: string, i: nat, j: nat)
    requires i <= j <= |t| && forall k :: i <= k < j ==> !IsSpace(t[k])
    ensures Squeezed(t[i..]) == t[i..j] + Squeezed(t[j..])
    decreases j - i
  {
    if i < j {
      assert t[i..][1..] == t[i + 1..];
      SqueezeSolid(t, i + 1, j);
      assert t[i..j] == [t[i]] + t[i + 1..j];
    }
  }

  lemma TokenShows(t: string, sp: Span, k: Token<Span>)
    requires TokenIs(t, sp, k)
    ensures t[sp.q..sp.eq] == TokenText(MapToken(k, Texts(t))) && (forall j :: sp.q <= j < sp.eq ==> !IsSpace(t[j]))
  {
    var w := t[sp.q..sp.eq];
    assert forall j :: sp.q <= j < sp.eq ==> t[j] == w[j - sp.q];
  }

  /** The tokens' texts, joined, are the text without its white space. */
  lemma {:induction false} TokensJoin(t: string, i: nat, ts: seq<Token<Span>>, ps: seq<Span>)
    requires i <= |t| && Tokenizes(t, i, ts, ps)
    ensures Joined(t, ts) == Squeezed(t[i..])
    decreases |ts|
  {
    hide TokenIs, TokenText, Texts;
    if ts == [] {
      SqueezeBlank(t, i, |t|);
    } else {
      TokensJoin(t, ps[0].eq, ts[1..], ps[1..]);
      TokenPlace(t, ps[0], ts[0]);
      TokenShows(t, ps[0], ts[0]);
      SqueezeBlank(t, i, ps[0].q);
      SqueezeSolid(t, ps[0].q, ps[0].eq);
    }
  }

  lemma TokenPlace(t: string, sp: Span, k: Token<Span>)
    requires TokenIs(t, sp, k)
    ensures sp.q < sp.eq <= |t|
  {
  }

  lemma LexJoins(t: string)
    requires NoNul(t)
    ensures Joined(t, Lex(t, 0)) == Squeezed(t)
  {
    hide Lex, Places;
    LexTokenizes(t, 0);
    TokensJoin(t, 0, Lex(t, 0), Places(t, 0));
    assert t[0..] == t;
  }

  /** A line is accepted with a tree exactly if its text is cut into tokens that the grammar derives and
      means by that tree. */
  lemma TextMeans(t: string, c: Cmd<Span>)
    requires NoNul(t)
    ensures PCmd(Lex(t, 0)) == Done(c, []) <==>
            exists ts, ps, d :: Tokenizes(t, 0, ts, ps) && ShellSyntax.Derives(d, ts, c)
  {
    hide Lex, Places, Tokenizes, PCmd, ShellSyntax.Derives;
    LexTokenizes(t, 0);
    ShellSyntax.AcceptsDerived(Lex(t, 0), c);
    if PCmd(Lex(t, 0)) == Done(c, []) {
      var d :| ShellSyntax.Derives(d, Lex(t, 0), c);
      assert Tokenizes(t, 0, Lex(t, 0), Places(t, 0)) && ShellSyntax.Derives(d, Lex(t, 0), c);
    }
    if ts, ps, d :| Tokenizes(t, 0, ts, ps) && ShellSyntax.Derives(d, ts, c) {
      OneTokenization(t, 0, ts, ps);
    }
  }

  // ---- Words ------------------------------------------------------------------------------------

  /** A maximal run of word characters. */
  predicate IsWord(t: string, sp: Span) {
    && sp.q < sp.eq <= |t| && (forall k :: sp.q <= k < sp.eq ==> IsWordChar(t[k]))
    && (sp.q > 0 ==> !IsWordChar(t[sp.q - 1]))
    && (sp.eq < |t| ==> !IsWordChar(t[sp.eq]))
  }

  lemma {:induction false} LexWords(t: string, i: nat)
    requires i <= |t| && NoNul(t) && (0 < i < |t| ==> !IsWordChar(t[i-1]) || !IsWordChar(t[i]))
    ensures EveryToken(Lex(t, i), Words(t))
    decreases |t| - i
  {
    var s := Skip(t, i);
    if s < |t| { LexWords(t, TokenEnd(t, s)); }
  }

  function TextOf(t: string, sp: Span): (w: string) {
    if sp.q <= sp.eq <= |t| then t[sp.q..sp.eq] else ""
  }

  /** Each word's text, and whether it is a word of t. */
  function Texts(t: string): (f: Span -> string) {
    sp => TextOf(t, sp)
  }

  function Words(t: string): (f: Span -> bool) {
    sp => IsWord(t, sp)
  }

  // ---- A printer of texts -----------------------------------------------------------------------

  function TokenText(k: Token<string>): (w: string) {
    match k case Sym(c) => if c == '+' then ">>" else [c] case Word(w) => w
  }

  /** The tokens, each followed by a space. */
  function Render(ts: seq<Token<string>>): (t: string) {
    if ts == [] then "" else TokenText(ts[0]) + " " + Render(ts[1..])
  }

  predicate LegalWord(w: string) {
    w != "" && (forall i :: 0 <= i < |w| ==> IsWordChar(w[i]))
  }

  predicate LegalToken(k: Token<string>) {
    match k case Sym(c) => c == '+' || IsSymbol(c) case Word(w) => LegalWord(w)
  }

  predicate LegalTokens(ts: seq<Token<string>>) {
    forall i :: 0 <= i < |ts| ==> LegalToken(ts[i])
  }

  predicate Legal(c: Cmd<string>) {
    EveryWord(c, (w: string) => LegalWord(w))
  }

  lemma WordEndAt(t: string, s: nat, e: nat)
    requires s <= e < |t| && (forall k :: s <= k < e ==> IsWordChar(t[k])) && !IsWordChar(t[e])
    ensures WordEnd(t, s) == e
  {
    var x := WordEnd(t, s);
    assert !(x < e) && !(e < x);
  }

  /** A legal token followed by a space is read back. */
  lemma FirstToken(t: string, i: nat, k: Token<string>, rest: string)
    requires i <= |t| && LegalToken(k) && t[i..] == TokenText(k) + " " + rest
    ensures i < |t| && !IsSpace(t[i]) && t[i] != NUL
    ensures TokenEnd(t, i) == i + |TokenText(k)| && t[TokenEnd(t, i)..] == " " + rest
    ensures MapToken(TokenAt(t, i), Texts(t)) == k
  {
    var w := TokenText(k);
    var e := i + |w|;
    assert t[i..][|w|..] == " " + rest;
    assert t[e..] == " " + rest;
    assert forall j :: 0 <= j < |w| ==> t[i + j] == t[i..][j] == w[j];
    assert t[e] == t[e..][0] == ' ';
    assert t[i..e] == w;
    if k.Word? {
      forall j | i <= j < e ensures IsWordChar(t[j]) {
        assert t[j] == w[j - i];
      }
      WordEndAt(t, i, e);
    }
  }

  /** Printed tokens are read back, whatever text comes before them. */
  lemma {:induction false} LexRender(t: string, i: nat, ts: seq<Token<string>>)
    requires i <= |t| && NoNul(t) && LegalTokens(ts) && t[i..] == Render(ts)
    ensures MapTokens(Lex(t, i), Texts(t)) == ts
    decreases |ts|
  {
    hide Texts, MapTokens, TokenAt, TokenEnd, TokenText, LegalToken, Lex, Skip;
    if ts == [] {
      assert i == |t|;
      LexEnd(t);
    } else {
      FirstToken(t, i, ts[0], Render(ts[1..]));
      var e := TokenEnd(t, i);
      LexStep(t, i, e, Render(ts[1..]));
      LexRender(t, e + 1, ts[1..]);
      MapCons(TokenAt(t, i), Lex(t, e + 1), Texts(t));
      assert ts == [ts[0]] + ts[1..];
    }
  }

  lemma MapCons<A, B>(k: Token<A>, ts: seq<Token<A>>, f: A -> B)
    ensures MapTokens([k] + ts, f) == [MapToken(k, f)] + MapTokens(ts, f)
  {
  }

  lemma LexEnd(t: string)
    requires NoNul(t)
    ensures Lex(t, |t|) == [] && MapTokens(Lex(t, |t|), Texts(t)) == []
  {
  }

  lemma LexStep(t: string, i: nat, e: nat, rest: string)
    requires i < |t| && NoNul(t) && !IsSpace(t[i]) && e == TokenEnd(t, i) && t[e..] == " " + rest
    ensures e < |t| && t[e + 1..] == rest && Lex(t, i) == [TokenAt(t, i)] + Lex(t, e + 1)
  {
    assert t[e] == t[e..][0] == ' ';
    assert t[e + 1..] == t[e..][1..];
    assert Skip(t, i) == i;
    assert Skip(t, e) == Skip(t, e + 1);
  }

  lemma {:induction false} RenderNoNul(ts: seq<Token<string>>)
    requires LegalTokens(ts)
    ensures NoNul(Render(ts))
  {
    if ts != [] { RenderNoNul(ts[1..]); }
  }

  /** A legal tree's printing has legal tokens. */
  lemma {:induction false} ShowLegal(c: Cmd<string>)
    requires Legal(c)
    ensures LegalTokens(Show(c))
  {
    match c
    case Exec(_) =>
    case Redir(d, _, _) => ShowLegal(d); ParenLegal(Show(d));
    case Back(d) => ShowLegal(d); ParenLegal(Show(d));
    case Pipe(l, r) => ShowLegal(l); ShowLegal(r); ParenLegal(Show(l)); ParenLegal(Show(r));
    case List(l, r) => ShowLegal(l); ShowLegal(r); ParenLegal(Show(l)); ParenLegal(Show(r));
  }

  lemma ParenLegal(ts: seq<Token<string>>)
    requires LegalTokens(ts)
    ensures LegalTokens(Paren(ts))
  {
  }

  /** Any text whose tokens are a tree's printing parses to that tree, however it is spaced. */
  lemma TextParses(t: string, c: Cmd<string>)
    requires NoNul(t) && Short(c) && MapTokens(Lex(t, 0), Texts(t)) == Show(c)
    ensures PCmd(Lex(t, 0)).Done? && MapCmd(PCmd(Lex(t, 0)).cmd, Texts(t)) == c
  {
    hide PLine, Lex;
    LexWords(t, 0);
    LineSame(Lex(t, 0), Texts(t), Words(t));
    ShowParses(c);
  }

  /** Printing a tree and parsing the text gives the tree back. */
  lemma ParseInvertsPrint(c: Cmd<string>)
    requires Legal(c) && Short(c)
    ensures var t := Render(Show(c));
            NoNul(t) && PCmd(Lex(t, 0)).Done? && MapCmd(PCmd(Lex(t, 0)).cmd, Texts(t)) == c
  {
    hide PLine, Lex, Legal, Show;
    var t := Render(Show(c));
    ShowLegal(c);
    RenderNoNul(Show(c));
    assert t[0..] == t;
    LexRender(t, 0, Show(c));
    TextParses(t, c);
  }

  // ---- The parser -------------------------------------------------------------------------------

  /** A parser's answer agrees with the grammar: a tree and the tokens left, or a syntax error. */
  ghost predicate Agrees(r: Option<Cmd<Span>>, left: seq<Token<Span>>, q: Result<Span>) {
    if q.Fail? then r.None? else r == Some(q.cmd) && left == q.rest
  }

  class Parser {
    const t: string
    var s: nat

    ghost predicate Valid()
      reads this
    {
      s <= |t| && NoNul(t)
    }

    ghost function Tokens(): (ts: seq<Token<Span>>)
      requires Valid()
      reads this
    {
      Lex(t, s)
    }

    constructor (text: string)
      requires NoNul(text)
      ensures Valid() && t == text && s == 0
    {
      t, s := text, 0;
    }

    method SkipSpace(i: nat) returns (j: nat)
      requires i <= |t|
      ensures j == Skip(t, i)
    {
      j := i;
      while j < |t| && IsSpace(t[j])
        invariant i <= j <= |t| && Skip(t, j) == Skip(t, i)
      {
        j := j + 1;
      }
    }

    /** Takes the next token: its kind, 'a' for a word and NUL at the end, and where it lies. */
    method Gettoken() returns (ret: char, q: nat, eq: nat)
      requires Valid()
      modifies this
      ensures Valid() && (ret == NUL <==> old(Tokens()) == [])
      ensures ret != NUL ==> old(Tokens()) == [if ret == 'a' then Word(Span(q, eq)) else Sym(ret)] + Tokens()
      ensures ret == NUL ==> Tokens() == []
    {
      var i := SkipSpace(s);
      q := i;
      if i == |t| {
        ret := NUL;
      } else if t[i] == '>' {
        ret := '>';
        i := i + 1;
        if i < |t| && t[i] == '>' {
          ret := '+';
          i := i + 1;
        }
      } else if IsSymbol(t[i]) {
        ret := t[i];
        i := i + 1;
      } else {
        ret := 'a';
        while i < |t| && !IsSpace(t[i]) && !IsSymbol(t[i])
          invariant q <= i <= |t| && WordEnd(t, i) == WordEnd(t, q)
          modifies {}
        {
          i := i + 1;
        }
      }
      eq := i;
      SkipTwice(t, eq);
      i := SkipSpace(i);
      s := i;
    }

    /** Moves past white space and tells whether the next character is one of toks. */
    method Peek(toks: string) returns (b: bool)
      requires Valid()
      modifies this
      ensures Valid() && Tokens() == old(Tokens()) && s == Skip(t, old(s)) && Skip(t, s) == s
      ensures b <==> s < |t| && t[s] in toks
    {
      SkipTwice(t, s);
      s := SkipSpace(s);
      b := s < |t| && t[s] in toks;
    }

    /** Redirections, added to those already found. */
    method ParseRedirs(rs: seq<Redirection<Span>>) returns (ok: bool, more: seq<Redirection<Span>>)
      requires Valid()
      modifies this
      ensures Valid() && (ok <==> PRedirs(old(Tokens())).Redirs?)
      ensures ok ==> more == rs + PRedirs(old(Tokens())).list && Tokens() == PRedirs(old(Tokens())).rest
    {
      hide Lex, Skip, PRedirs, RedirsLeft;
      more := rs;
      ghost var done: seq<Redirection<Span>> := [];
      ghost var ts0 := Tokens();
      RedirsStart(ts0);
      var b := Peek("<>");
      while b
        invariant Valid() && more == rs + done && Skip(t, s) == s && (b <==> s < |t| && t[s] in "<>")
        invariant RedirsLeft(ts0, done, Tokens())
        decreases |Tokens()|
      {
        Peeked(t, s);
        ghost var ts := Tokens();
        var tok, _, _ := Gettoken();
        ghost var after := Tokens();
        var word, q, eq := Gettoken();
        RedirsTurn(ts0, done, ts, tok, after, word == 'a', Span(q, eq), Tokens());
        if word != 'a' { return false, more; }
        more := more + [Redirection(Span(q, eq), HowOf(tok))];
        done := done + [Redirection(Span(q, eq), HowOf(tok))];
        b := Peek("<>");
      }
      Peeked(t, s);
      RedirsEnd(ts0, done, Tokens());
      ok := true;
    }

    /** A simple command, or a block. The words are collected as the redirections are. */
    method ParseExec() returns (r: Option<Cmd<Span>>)
      requires Valid()
      modifies this
      ensures Valid() && Agrees(r, Tokens(), PExec(old(Tokens())))
      decreases |Tokens()|, 1
    {
      hide Lex, Skip, PRedirs, PArgs, PBlock, Wrap;
      ghost var ts0 := Tokens();
      var b := Peek("(");
      Peeked(t, s);
      if b { r := ParseBlock(); return; }
      var argv: seq<Span> := [];
      var ok, rs := ParseRedirs([]);
      if !ok { return None; }
      var none: seq<Redirection<Span>> := [];
      assert none + PRedirs(ts0).list == PRedirs(ts0).list;
      b := Peek("|)&;");
      while !b
        invariant Valid() && Skip(t, s) == s && (b <==> s < |t| && t[s] in "|)&;")
        invariant PExec(ts0) == PArgs(Tokens(), argv, rs)
        decreases |Tokens()|
      {
        Peeked(t, s);
        ghost var ts := Tokens();
        var tok, q, eq := Gettoken();
        if tok == NUL { break; }
        ghost var after := Tokens();
        ArgsTurn(ts, argv, rs, tok, Span(q, eq), after);
        if tok != 'a' { return None; }
        argv := argv + [Span(q, eq)];
        if |argv| >= MAXARGS { return None; }
        ok, rs := ParseRedirs(rs);
        if !ok { return None; }
        b := Peek("|)&;");
      }
      Peeked(t, s);
      ArgsEnd(Tokens(), argv, rs);
      return Some(Wrap(Exec(argv), rs));
    }

    /** A parenthesised line and the redirections after it. */
    method ParseBlock() returns (r: Option<Cmd<Span>>)
      requires Valid() && Starts(Tokens(), '(')
      modifies this
      ensures Valid() && Agrees(r, Tokens(), PBlock(old(Tokens())))
      decreases |Tokens()|, 0
    {
      hide Lex, Skip, PRedirs, PLine, Wrap;
      ghost var ts0 := Tokens();
      var _, _, _ := Gettoken();
      assert Tokens() == ts0[1..];
      r := ParseLine();
      if r.None? { return; }
      ghost var body := Tokens();
      var b := Peek(")");
      Peeked(t, s);
      if !b { return None; }
      var _, _, _ := Gettoken();
      assert Tokens() == body[1..];
      var ok, rs := ParseRedirs([]);
      if !ok { return None; }
      var none: seq<Redirection<Span>> := [];
      assert none + PRedirs(body[1..]).list == PRedirs(body[1..]).list;
      return Some(Wrap(r.value, rs));
    }

    method ParsePipe() returns (r: Option<Cmd<Span>>)
      requires Valid()
      modifies this
      ensures Valid() && Agrees(r, Tokens(), PPipe(old(Tokens())))
      decreases |Tokens()|, 2
    {
      hide Lex, Skip, PExec;
      r := ParseExec();
      if r.None? { return; }
      ghost var left := Tokens();
      var b := Peek("|");
      Peeked(t, s);
      if b {
        var _, _, _ := Gettoken();
        assert Tokens() == left[1..];
        var right := ParsePipe();
        if right.None? { return None; }
        r := Some(Pipe(r.value, right.value));
      }
    }

    method ParseLine() returns (r: Option<Cmd<Span>>)
      requires Valid()
      modifies this
      ensures Valid() && Agrees(r, Tokens(), PLine(old(Tokens())))
      decreases |Tokens()|, 3
    {
      hide Lex, Skip, PPipe;
      r := ParsePipe();
      if r.None? { return; }
      ghost var first, ts1 := r.value, Tokens();
      var b := Peek("&");
      while b
        invariant Valid() && r.Some? && Skip(t, s) == s && (b <==> s < |t| && t[s] in "&")
        invariant PBacks(first, ts1) == PBacks(r.value, Tokens()) && |Tokens()| <= |ts1|
        decreases |Tokens()|
      {
        Peeked(t, s);
        ghost var ts := Tokens();
        var _, _, _ := Gettoken();
        assert Tokens() == ts[1..];
        r := Some(Back(r.value));
        b := Peek("&");
      }
      Peeked(t, s);
      ghost var ts2 := Tokens();
      b := Peek(";");
      Peeked(t, s);
      if b {
        var _, _, _ := Gettoken();
        assert Tokens() == ts2[1..];
        var right := ParseLine();
        if right.None? { return None; }
        r := Some(List(r.value, right.value));
      }
    }

    /** The whole text is one line. */
    method ParseCmd() returns (r: Option<Cmd<Span>>)
      requires Valid() && s == 0
      modifies this
      ensures Valid()
      ensures r == if PCmd(Lex(t, 0)).Done? then Some(PCmd(Lex(t, 0)).cmd) else None
    {
      hide Lex, Skip, PLine;
      r := ParseLine();
      if r.None? { return; }
      var _ := Peek("");
      Peeked(t, s);
      if s != |t| { return None; }
    }
  }

  /** done redirections have been read from ts0 and ts is left. */
  ghost predicate RedirsLeft(ts0: seq<Token<Span>>, done: seq<Redirection<Span>>, ts: seq<Token<Span>>) {
    if PRedirs(ts).BadRedir? then PRedirs(ts0).BadRedir?
    else PRedirs(ts0) == Redirs(done + PRedirs(ts).list, PRedirs(ts).rest)
  }

  lemma RedirsStart(ts: seq<Token<Span>>)
    ensures RedirsLeft(ts, [], ts)
  {
    var none: seq<Redirection<Span>> := [];
    assert PRedirs(ts).Redirs? ==> none + PRedirs(ts).list == PRedirs(ts).list;
  }

  lemma RedirsTurn(ts0: seq<Token<Span>>, done: seq<Redirection<Span>>, ts: seq<Token<Span>>, tok: char,
                   after: seq<Token<Span>>, isWord: bool, w: Span, rest: seq<Token<Span>>)
    requires RedirsLeft(ts0, done, ts) && StartsRedir(ts) && ts == [if tok == 'a' then Word(w) else Sym(tok)] + after
    requires isWord ==> after == [Word(w)] + rest
    requires !isWord ==> after == [] || !after[0].Word?
    ensures isWord ==> RedirsLeft(ts0, done + [Redirection(w, HowOf(tok))], rest)
    ensures !isWord ==> PRedirs(ts0).BadRedir?
  {
    if isWord {
      assert ts[2..] == rest;
      var one := [Redirection(w, HowOf(tok))];
      if PRedirs(rest).Redirs? { assert done + (one + PRedirs(rest).list) == done + one + PRedirs(rest).list; }
    }
  }

  lemma RedirsEnd(ts0: seq<Token<Span>>, done: seq<Redirection<Span>>, ts: seq<Token<Span>>)
    requires RedirsLeft(ts0, done, ts) && !StartsRedir(ts)
    ensures PRedirs(ts0) == Redirs(done, ts)
  {
  }

  lemma ArgsTurn(ts: seq<Token<Span>>, argv: seq<Span>, rs: seq<Redirection<Span>>, tok: char, w: Span, after: seq<Token<Span>>)
    requires !StartsStop(ts) && ts == [if tok == 'a' then Word(w) else Sym(tok)] + after
    ensures tok != 'a' || |argv| + 1 >= MAXARGS || PRedirs(after).BadRedir? ==> PArgs(ts, argv, rs).Fail?
    ensures tok == 'a' && |argv| + 1 < MAXARGS && PRedirs(after).Redirs? ==>
              PArgs(ts, argv, rs) == PArgs(PRedirs(after).rest, argv + [w], rs + PRedirs(after).list)
  {
    assert ts[1..] == after;
  }

  lemma ArgsEnd(ts: seq<Token<Span>>, argv: seq<Span>, rs: seq<Redirection<Span>>)
    requires ts == [] || StartsStop(ts)
    ensures PArgs(ts, argv, rs) == Done(Wrap(Exec(argv), rs), ts)
  {
  }

  // ---- NULs -------------------------------------------------------------------------------------

  /** The C string at q. */
  function CString(buf: seq<char>, q: nat): (w: string)
    decreases |buf| - q
  {
    if q < |buf| && buf[q] != NUL then [buf[q]] + CString(buf, q + 1) else ""
  }

  lemma {:induction false} CStringIs(buf: seq<char>, q: nat, e: nat)
    requires q <= e < |buf| && buf[e] == NUL && (forall k :: q <= k < e ==> buf[k] != NUL)
    ensures CString(buf, q) == buf[q..e]
    decreases e - q
  {
    if q < e {
      CStringIs(buf, q + 1, e);
      assert buf[q..e] == [buf[q]] + buf[q + 1..e];
    }
  }

  /** Some word of the tree ends at k. */
  predicate EndsAt(c: Cmd<Span>, k: nat) {
    match c
    case Exec(argv) => exists i :: 0 <= i < |argv| && argv[i].eq == k
    case Redir(c, w, _) => EndsAt(c, k) || w.eq == k
    case Pipe(l, r) => EndsAt(l, k) || EndsAt(r, k)
    case List(l, r) => EndsAt(l, k) || EndsAt(r, k)
    case Back(c) => EndsAt(c, k)
  }

  function Fits(n: nat): (f: Span -> bool) {
    (sp: Span) => sp.eq < n
  }

  /** Writes a NUL at the end of every word, in place. */
  method NulTerminate(c: Cmd<Span>, buf: array<char>)
    requires EveryWord(c, Fits(buf.Length))
    modifies buf
    ensures forall k :: 0 <= k < buf.Length ==> buf[k] == if EndsAt(c, k) then NUL else old(buf[k])
    decreases c
  {
    match c
    case Exec(argv) =>
      var i := 0;
      while i < |argv|
        invariant 0 <= i <= |argv|
        invariant forall k :: 0 <= k < buf.Length ==>
                    buf[k] == if exists j :: 0 <= j < i && argv[j].eq == k then NUL else old(buf[k])
      {
        assert Fits(buf.Length)(argv[i]);
        buf[argv[i].eq] := NUL;
        i := i + 1;
      }
    case Redir(d, w, _) =>
      NulTerminate(d, buf);
      buf[w.eq] := NUL;
    case Pipe(l, r) => NulTerminate(l, buf); NulTerminate(r, buf);
    case List(l, r) => NulTerminate(l, buf); NulTerminate(r, buf);
    case Back(d) => NulTerminate(d, buf);
  }

  /** Words end where no word goes on. */
  lemma {:induction false} EndsOutside(t: string, c: Cmd<Span>, k: nat)
    requires EveryWord(c, Words(t)) && EndsAt(c, k)
    ensures k <= |t| && (k < |t| ==> !IsWordChar(t[k]))
  {
    match c
    case Exec(argv) =>
      var i :| 0 <= i < |argv| && argv[i].eq == k;
      assert Words(t)(argv[i]);
    case Redir(d, w, _) => if EndsAt(d, k) { EndsOutside(t, d, k); }
    case Pipe(l, r) => if EndsAt(l, k) { EndsOutside(t, l, k); } else { EndsOutside(t, r, k); }
    case List(l, r) => if EndsAt(l, k) { EndsOutside(t, l, k); } else { EndsOutside(t, r, k); }
    case Back(d) => EndsOutside(t, d, k);
  }

  /** The word at each span of the tree, read as a C string, is the token's text. */
  function Reads(buf: seq<char>, t: string): (f: Span -> bool) {
    (sp: Span) => CString(buf, sp.q) == TextOf(t, sp)
  }

  /** buf holds t with a NUL at the end of every word of the whole tree. */
  ghost predicate Ended(buf: seq<char>, t: string, whole: Cmd<Span>) {
    && |buf| == |t| + 1 && buf[|t|] == NUL
    && (forall k :: 0 <= k < |t| ==> buf[k] == if EndsAt(whole, k) then NUL else t[k])
  }

  lemma WordReads(buf: seq<char>, t: string, whole: Cmd<Span>, sp: Span)
    requires Ended(buf, t, whole) && EveryWord(whole, Words(t)) && IsWord(t, sp) && EndsAt(whole, sp.eq)
    ensures CString(buf, sp.q) == TextOf(t, sp)
  {
    forall k | sp.q <= k < sp.eq ensures buf[k] == t[k] && t[k] != NUL {
      if EndsAt(whole, k) { EndsOutside(t, whole, k); }
    }
    CStringIs(buf, sp.q, sp.eq);
    assert buf[sp.q..sp.eq] == t[sp.q..sp.eq];
  }

  /** The NULs of other words leave every word whole. */
  lemma {:induction false} TreeReads(buf: seq<char>, t: string, whole: Cmd<Span>, c: Cmd<Span>)
    requires Ended(buf, t, whole) && EveryWord(whole, Words(t)) && EveryWord(c, Words(t))
    requires forall k: nat :: EndsAt(c, k) ==> EndsAt(whole, k)
    ensures EveryWord(c, Reads(buf, t))
  {
    match c
    case Exec(argv) =>
      forall i | 0 <= i < |argv| ensures Reads(buf, t)(argv[i]) {
        assert Words(t)(argv[i]);
        assert EndsAt(c, argv[i].eq);
        WordReads(buf, t, whole, argv[i]);
      }
    case Redir(d, w, _) =>
      assert EndsAt(c, w.eq);
      WordReads(buf, t, whole, w);
      assert forall k: nat :: EndsAt(d, k) ==> EndsAt(c, k);
      TreeReads(buf, t, whole, d);
    case Pipe(l, r) =>
      assert forall k: nat :: EndsAt(l, k) || EndsAt(r, k) ==> EndsAt(c, k);
      TreeReads(buf, t, whole, l);
      TreeReads(buf, t, whole, r);
    case List(l, r) =>
      assert forall k: nat :: EndsAt(l, k) || EndsAt(r, k) ==> EndsAt(c, k);
      TreeReads(buf, t, whole, l);
      TreeReads(buf, t, whole, r);
    case Back(d) =>
      assert forall k: nat :: EndsAt(d, k) ==> EndsAt(c, k);
      TreeReads(buf, t, whole, d);
  }

  lemma {:induction false} WordsFit(t: string, c: Cmd<Span>)
    requires EveryWord(c, Words(t))
    ensures EveryWord(c, Fits(|t| + 1))
  {
    match c
    case Exec(argv) => assert forall i :: 0 <= i < |argv| ==> Words(t)(argv[i]);
    case Redir(d, w, _) => WordsFit(t, d);
    case Pipe(l, r) => WordsFit(t, l); WordsFit(t, r);
    case List(l, r) => WordsFit(t, l); WordsFit(t, r);
    case Back(d) => WordsFit(t, d);
  }

  /** Parses the line in buf and ends its words with NULs: the tree is the grammar's, and every argument
      and file name it points to reads as its token. */
  method Parse(buf: array<char>, text: string) returns (r: Option<Cmd<Span>>)
    requires NoNul(text) && buf[..] == text + [NUL]
    modifies buf
    ensures r == if PCmd(Lex(text, 0)).Done? then Some(PCmd(Lex(text, 0)).cmd) else None
    ensures r.Some? ==> EveryWord(r.value, Reads(buf[..], text))
  {
    hide Lex, Skip, PLine;
    var parser := new Parser(text);
    r := parser.ParseCmd();
    if r.Some? {
      LexWords(text, 0);
      LineSame(Lex(text, 0), Texts(text), Words(text));
      WordsFit(text, r.value);
      assert forall k :: 0 <= k < buf.Length ==> buf[k] == buf[..][k] == (text + [NUL])[k];
      NulTerminate(r.value, buf);
      TreeReads(buf[..], text, r.value, r.value);
    }
  }
}
