/** Parsing inverts writing: the tokens of a script parse to what they were written for. */
module ScriptReading {
  import opened Values
  import opened Syntax
  import opened Codegen
  import opened Pratt
  import opened PrattInverse
  import opened Grammar
  import opened Grouping
  import opened Scripts
  import Statements

  // Expressions on a line

  lemma AtEnd(rest: seq<Token>, line: nat)
    requires Below(rest, line + 1)
    ensures Ends(rest, line)
  {
    if rest[0].kind.Eof? { EofEnds(rest, line); }
  }

  lemma Delimited(k: Kind, line: nat, rest: seq<Token>)
    requires k == Comma || k == ThenWord || k == RParen
    ensures Ends(Tok(k, line) + rest, line) && !Starts(Tok(k, line) + rest, Equal)
  {
    forall x ensures Sign(x) != k { }
  }

  /** Expressions separated by commas, up to the end of the line. */
  lemma {:induction false} ListRead(es: seq<Expr>, line: nat, rest: seq<Token>)
    requires es != [] && AllBracketed(es) && Ends(rest, line) && !Starts(rest, Comma)
    ensures ParseExprs(OnLine(PrintAll(es), line) + rest) == Some(Parsed(es, rest, line))
    decreases |es|
  {
    hide OnLine, ParsePrec, Print, ParseExprs, PrintAll, Bracketed, Ends;
    PrintAllIs(es);
    if |es| == 1 {
      ReadBracketed(es[0], line, rest);
      LastExpr(Toks(es[0], line) + rest, es[0], rest, line);
      assert es == [es[0]];
    } else {
      var more := OnLine(PrintAll(es[1..]), line) + rest;
      var tail := Tok(Comma, line) + more;
      CommaToks(es, line, rest);
      Delimited(Comma, line, more);
      ReadBracketed(es[0], line, tail);
      assert tail[1..] == more;
      ListRead(es[1..], line, rest);
      MoreExprs(Toks(es[0], line) + tail, es[0], tail, es[1..], rest, line);
      assert es == [es[0]] + es[1..];
    }
  }

  lemma InitRead(init: Option<Expr>, line: nat, rest: seq<Token>)
    requires GoodInit(init) && Ends(rest, line) && !Starts(rest, Equal)
    ensures ParseInit(OnLine(Initializer(init), line) + rest, line) == Some(Parsed(Start(init), rest, line))
  {
    hide OnLine, ParsePrec, Print, Bracketed, Ends;
    match init
    case None => OnLineNone(line); assert [] + rest == rest;
    case Some(e) =>
      OnLineAppend([Equal], Print(e), line);
      OnLineFew(Equal, Equal, Equal, line);
      var tail := OnLine(Print(e), line) + rest;
      assert OnLine([Equal] + Print(e), line) + rest == Tok(Equal, line) + tail;
      assert (Tok(Equal, line) + tail)[1..] == tail;
      ReadBracketed(e, line, rest);
  }

  lemma OneItem(ts: seq<Token>, id: Ident, e: Expr, line: nat, tail: seq<Token>, rest: seq<Token>)
    requires ts == Tok(Identifier(id), line) + tail && ParseInit(tail, line) == Some(Parsed(e, rest, line))
    ensures !Starts(rest, Comma) ==> ParseItems(ts) == Some(Parsed([Init(id, e)], rest, line))
    ensures Starts(rest, Comma) ==>
      var more := ParseItems(rest[1..]);
      more.Some? ==> ParseItems(ts) == Some(Parsed([Init(id, e)] + more.value.value, more.value.rest, more.value.line))
  {
    hide ParseInit;
    assert ts[1..] == tail;
  }

  lemma {:induction false} ItemsRead(items: seq<Given>, line: nat, rest: seq<Token>)
    requires items != [] && (forall i :: 0 <= i < |items| ==> GoodInit(items[i].init))
    requires Ends(rest, line) && !Starts(rest, Equal) && !Starts(rest, Comma)
    ensures ParseItems(OnLine(Items(items), line) + rest) == Some(Parsed(StartAll(items), rest, line))
    decreases |items|
  {
    hide OnLine, ParseInit, GoodInit, Ends, Initializer, ParseItems, Start;
    var it := items[0];
    OnLineFew(Identifier(it.name), Comma, Comma, line);
    OnLineFew(Comma, Comma, Comma, line);
    if |items| == 1 {
      OnLineAppend([Identifier(it.name)], Initializer(it.init), line);
      InitRead(it.init, line, rest);
      var tail := OnLine(Initializer(it.init), line) + rest;
      assert OnLine(Items(items), line) + rest == Tok(Identifier(it.name), line) + tail;
      OneItem(OnLine(Items(items), line) + rest, it.name, Start(it.init), line, tail, rest);
      assert StartAll(items[1..]) == [] && [Init(it.name, Start(it.init))] + [] == [Init(it.name, Start(it.init))];
    } else {
      var more := OnLine(Items(items[1..]), line) + rest;
      var sep := Tok(Comma, line) + more;
      OnLineAppend([Identifier(it.name)], Initializer(it.init) + ([Comma] + Items(items[1..])), line);
      OnLineAppend(Initializer(it.init), [Comma] + Items(items[1..]), line);
      OnLineAppend([Comma], Items(items[1..]), line);
      Delimited(Comma, line, more);
      InitRead(it.init, line, sep);
      var tail := OnLine(Initializer(it.init), line) + sep;
      assert OnLine(Items(items), line) + rest == Tok(Identifier(it.name), line) + tail;
      ItemsRead(items[1..], line, rest);
      assert sep[1..] == more;
      OneItem(OnLine(Items(items), line) + rest, it.name, Start(it.init), line, tail, sep);
    }
  }

  lemma OneParam(ts: seq<Token>, id: Ident, line: nat, rest: seq<Token>)
    requires ts == Tok(Identifier(id), line) + rest
    ensures !Starts(rest, Comma) ==> ParseParams(ts) == Some(Parsed([id], rest, line))
    ensures Starts(rest, Comma) ==>
      var more := ParseParams(rest[1..]);
      more.Some? ==> ParseParams(ts) == Some(Parsed([id] + more.value.value, more.value.rest, more.value.line))
  {
    assert ts[1..] == rest;
  }

  lemma {:induction false} ParamsRead(ps: seq<Ident>, line: nat, rest: seq<Token>)
    requires ps != [] && !Starts(rest, Comma)
    ensures ParseParams(OnLine(Params(ps), line) + rest) == Some(Parsed(ps, rest, line))
    decreases |ps|
  {
    hide OnLine, ParseParams;
    OnLineFew(Identifier(ps[0]), Comma, Comma, line);
    if |ps| == 1 {
      OneParam(OnLine(Params(ps), line) + rest, ps[0], line, rest);
      assert ps == [ps[0]];
    } else {
      var more := OnLine(Params(ps[1..]), line) + rest;
      var sep := Tok(Comma, line) + more;
      OnLineAppend([Identifier(ps[0]), Comma], Params(ps[1..]), line);
      assert OnLine(Params(ps), line) + rest == Tok(Identifier(ps[0]), line) + sep && sep[1..] == more;
      OneParam(OnLine(Params(ps), line) + rest, ps[0], line, sep);
      ParamsRead(ps[1..], line, rest);
      assert ps == [ps[0]] + ps[1..];
    }
  }

  lemma ParamListRead(ps: seq<Ident>, line: nat, rest: seq<Token>)
    ensures ParseParamList(OnLine(Params(ps), line) + (Tok(RParen, line) + rest)) == Some(Parsed(ps, rest, line))
  {
    hide OnLine, ParseParams;
    var close := Tok(RParen, line) + rest;
    assert close[1..] == rest;
    if ps == [] {
      OnLineNone(line);
      assert [] + close == close;
    } else {
      ParamsRead(ps, line, close);
      OnLineFew(Identifier(ps[0]), Comma, Comma, line);
      FirstParam(ps, line, close);
    }
  }

  lemma FirstParam(ps: seq<Ident>, line: nat, rest: seq<Token>)
    requires ps != []
    ensures !Starts(OnLine(Params(ps), line) + rest, RParen)
  {
    assert Params(ps)[0] == Identifier(ps[0]);
  }

  // First tokens

  /** What an expression can start with. */
  predicate Starter(k: Kind) {
    k.Number? || k.StringTok? || k.NullWord? || k.TrueWord? || k.FalseWord? || k.Func? || k.Identifier?
    || k.BangSign? || k.NotWordTok? || k.MinusSign? || k.LBracket? || k.LParen?
  }

  lemma {:induction false} FirstOf(e: Expr)
    ensures Starter(Print(e)[0])
    decreases e
  {
    match e
    case Member(o, _) => FirstOf(o);
    case SetMember(o, _, _) => FirstOf(o);
    case Index(o, _) => FirstOf(o);
    case SetIndex(o, _, _) => FirstOf(o);
    case Infix(_, l, _) => FirstOf(l);
    case And(l, _) => FirstOf(l);
    case Or(l, _) => FirstOf(l);
    case Invoke(f, _) => FirstOf(f);
    case _ =>
  }

  /** Where a list of declarations goes on. */
  predicate Begins(k: Kind) {
    !k.RBrace? && !k.ElseWord? && !k.EndIf? && !k.End? && !k.EndFunc? && !k.Eof? && !k.Equal? && !k.Comma?
  }

  lemma FirstToken(s: Source, l: nat, f: nat -> nat)
    requires Well(s) && !s.Loose?
    ensures
      var ts := Tokens(s, l, f);
      ts != [] && ts[0].line == f(l) && Begins(ts[0].kind) && (Keyword(ts[0].kind) <==> Declares(s))
      && (s.Expression? ==> Starter(ts[0].kind) && !ts[0].kind.Func?)
  {
    hide Bracketed, Print, TokensAll, HeightAll, PrintAll, ElseTokens, Params, Items, WellAll;
    match s
    case Expression(e) => FirstOf(e);
    case _ =>
  }

  lemma {:induction false} FirstOfAll(ss: seq<Source>, l: nat, f: nat -> nat, rest: seq<Token>)
    requires WellAll(ss) && ss != []
    ensures
      var ts := TokensAll(ss, l, f) + rest;
      ts != [] && ts[0].line == f(l) && Begins(ts[0].kind) && ts[0].kind == Tokens(ss[0], l, f)[0].kind
      && (Keyword(ts[0].kind) <==> Declares(ss[0]))
  {
    hide Tokens, Well;
    FirstToken(ss[0], l, f);
  }

  // One statement, given what is inside it

  lemma PrintRead(es: seq<Expr>, x: nat, place: Place, line: nat, n: nat, rest: seq<Token>)
    requires es != [] && AllBracketed(es) && Below(rest, x + 1)
    ensures ParseStmt(OnLine([PrintWord] + PrintAll(es), x) + rest, place, line, n) == Some(Parsed(PrintStmt(es), rest, x))
  {
    hide OnLine, ParseExprs, PrintAll, ParseStmt, AllBracketed, Ends;
    AtEnd(rest, x);
    OnLineAppend([PrintWord], PrintAll(es), x);
    OnLineFew(PrintWord, Comma, Comma, x);
    var tail := OnLine(PrintAll(es), x) + rest;
    assert OnLine([PrintWord] + PrintAll(es), x) + rest == Tok(PrintWord, x) + tail && (Tok(PrintWord, x) + tail)[1..] == tail;
    ListRead(es, x, rest);
    Statements.StmtParses(Tok(PrintWord, x) + tail, place, line, n);
  }

  lemma ReturnRead(e: Option<Expr>, x: nat, place: Place, line: nat, n: nat, rest: seq<Token>)
    requires GoodInit(e) && Below(rest, x + 1) && (e.None? ==> rest[0].line > x)
    ensures ParseStmt(OnLine([ReturnWord] + (if e.Some? then Print(e.value) else []), x) + rest, place, line, n)
      == Some(Parsed(if e.Some? then Return(e.value) else ReturnNull, rest, x))
  {
    hide OnLine, ParsePrec, Print, ParseStmt, Bracketed, Ends;
    AtEnd(rest, x);
    OnLineFew(ReturnWord, Comma, Comma, x);
    if e.None? {
      assert [ReturnWord] + [] == [ReturnWord];
      assert (Tok(ReturnWord, x) + rest)[1..] == rest;
      Statements.StmtParses(Tok(ReturnWord, x) + rest, place, line, n);
    } else {
      OnLineAppend([ReturnWord], Print(e.value), x);
      var tail := OnLine(Print(e.value), x) + rest;
      assert OnLine([ReturnWord] + Print(e.value), x) + rest == Tok(ReturnWord, x) + tail && (Tok(ReturnWord, x) + tail)[1..] == tail;
      ReadBracketed(e.value, x, rest);
      FirstOf(e.value);
      assert tail[0] == Token(Print(e.value)[0], x) by { FirstOnLine(Print(e.value), x, rest); }
      Statements.StmtParses(Tok(ReturnWord, x) + tail, place, line, n);
    }
  }

  lemma FirstOnLine(ks: seq<Kind>, x: nat, rest: seq<Token>)
    requires ks != []
    ensures (OnLine(ks, x) + rest)[0] == Token(ks[0], x)
  {
  }

  lemma ExpressionRead(e: Expr, x: nat, line: nat, n: nat, rest: seq<Token>)
    requires Bracketed(e) && Print(e)[0] != Func && Below(rest, x + 1)
    ensures ParseStmt(OnLine(Print(e), x) + rest, Plain, line, n) == Some(Parsed(ExprStmt(e), rest, x))
  {
    hide OnLine, ParsePrec, Print, ParseStmt, Bracketed, Ends;
    AtEnd(rest, x);
    FirstOf(e);
    FirstOnLine(Print(e), x, rest);
    ReadBracketed(e, x, rest);
    Statements.StmtParses(OnLine(Print(e), x) + rest, Plain, line, n);
  }

  lemma VarRead(name: Ident, init: Option<Expr>, x: nat, n: nat, rest: seq<Token>)
    requires GoodInit(init) && Below(rest, x + 1)
    ensures ParseKeyword(OnLine([VarWord, Identifier(name)] + Initializer(init), x) + rest, n) == Some(Parsed(Var(name, Start(init)), rest, x))
  {
    hide OnLine, ParseInit, ParseKeyword, GoodInit, Initializer, Ends, Start;
    AtEnd(rest, x);
    OnLineFew(VarWord, Identifier(name), Comma, x);
    OnLineAppend([VarWord, Identifier(name)], Initializer(init), x);
    var tail := OnLine(Initializer(init), x) + rest;
    var ts := Tok(VarWord, x) + (Tok(Identifier(name), x) + tail);
    assert OnLine([VarWord, Identifier(name)] + Initializer(init), x) + rest == ts;
    InitRead(init, x, rest);
    VarParsed(name, Start(init), tail, x, n, rest);
  }

  lemma VarParsed(name: Ident, e: Expr, tail: seq<Token>, x: nat, n: nat, rest: seq<Token>)
    requires ParseInit(tail, x) == Some(Parsed(e, rest, x))
    ensures ParseKeyword(Tok(VarWord, x) + (Tok(Identifier(name), x) + tail), n) == Some(Parsed(Var(name, e), rest, x))
  {
    hide ParseInit;
    var ts := Tok(VarWord, x) + (Tok(Identifier(name), x) + tail);
    assert ts[1..] == Tok(Identifier(name), x) + tail && ts[1..][1..] == tail;
  }

  lemma GlobalRead(items: seq<Given>, x: nat, n: nat, rest: seq<Token>)
    requires items != [] && (forall i :: 0 <= i < |items| ==> GoodInit(items[i].init)) && Below(rest, x + 1)
    ensures ParseKeyword(OnLine([GlobalWord] + Items(items), x) + rest, n) == Some(Parsed(Globals(StartAll(items)), rest, x))
  {
    hide OnLine, ParseItems, GoodInit, Items, Ends;
    AtEnd(rest, x);
    OnLineFew(GlobalWord, Comma, Comma, x);
    OnLineAppend([GlobalWord], Items(items), x);
    var tail := OnLine(Items(items), x) + rest;
    var ts := Tok(GlobalWord, x) + tail;
    assert OnLine([GlobalWord] + Items(items), x) + rest == ts && ts[1..] == tail;
    ItemsRead(items, x, rest);
  }

  lemma BracesRead(inner: seq<Token>, trees: seq<Stmt>, x: nat, y: nat, z: nat, place: Place, line: nat, n: nat, rest: seq<Token>)
    requires ParseDecls(inner, ByBrace, x, n) == Some(Parsed(trees, Tok(RBrace, z) + rest, y))
    ensures ParseStmt(Tok(LBrace, x) + inner, place, line, n) == Some(Parsed(Block(trees), rest, z))
  {
    hide ParseDecls;
    assert (Tok(LBrace, x) + inner)[1..] == inner && (Tok(RBrace, z) + rest)[1..] == rest;
  }

  lemma FunctionRead(name: Ident, ps: seq<Ident>, inner: seq<Token>, trees: seq<Stmt>, k: Kind, x: nat, y: nat, z: nat, n: nat, rest: seq<Token>)
    requires (k.End? || k.EndFunc?) && ParseDecls(inner, ByEnd, x, n) == Some(Parsed(trees, Tok(k, z) + rest, y))
    ensures ParseKeyword(OnLine([Func, Identifier(name), LParen] + (Params(ps) + [RParen]), x) + inner, n)
      == Some(Parsed(FunDecl(name, n + |FunsOfAll(trees)|, ps, trees), rest, z))
  {
    hide OnLine, ParseParamList, ParseDecls, FunsOfAll, ParseKeyword, Params;
    OnLineFew(Func, Identifier(name), LParen, x);
    OnLineFew(RParen, Comma, Comma, x);
    OnLineAppend([Func, Identifier(name), LParen], Params(ps) + [RParen], x);
    OnLineAppend(Params(ps), [RParen], x);
    var list := OnLine(Params(ps), x) + (Tok(RParen, x) + inner);
    var open := Tok(LParen, x) + list;
    var ts := Tok(Func, x) + (Tok(Identifier(name), x) + open);
    assert OnLine([Func, Identifier(name), LParen] + (Params(ps) + [RParen]), x) + inner == ts;
    ParamListRead(ps, x, inner);
    FunctionParsed(name, ps, list, inner, trees, k, x, y, z, n, rest);
  }

  lemma FunctionParsed(name: Ident, ps: seq<Ident>, list: seq<Token>, inner: seq<Token>, trees: seq<Stmt>, k: Kind, x: nat, y: nat, z: nat, n: nat, rest: seq<Token>)
    requires ParseParamList(list) == Some(Parsed(ps, inner, x))
    requires (k.End? || k.EndFunc?) && ParseDecls(inner, ByEnd, x, n) == Some(Parsed(trees, Tok(k, z) + rest, y))
    ensures ParseKeyword(Tok(Func, x) + (Tok(Identifier(name), x) + (Tok(LParen, x) + list)), n)
      == Some(Parsed(FunDecl(name, n + |FunsOfAll(trees)|, ps, trees), rest, z))
  {
    hide ParseParamList, ParseDecls, FunsOfAll;
    var open := Tok(LParen, x) + list;
    var ts := Tok(Func, x) + (Tok(Identifier(name), x) + open);
    assert ts[1..] == Tok(Identifier(name), x) + open && ts[1..][1..] == open && open[1..] == list;
    assert (Tok(k, z) + rest)[1..] == rest;
  }

  lemma IfRead(c: Expr, t: Stmt, e: Stmt, arm: seq<Token>, other: seq<Token>, close: seq<Token>, x: nat, y: nat, z: nat, place: Place, line: nat, n: nat)
    requires Bracketed(c) && arm != []
    requires ParseStmt(arm, AfterThen, x, n) == Some(Parsed(t, other, y)) && ParseElse(other, y, n + |FunsOf(t)|) == Some(Parsed(e, close, z))
    ensures
      ParseStmt(OnLine([IfWord] + (Print(c) + [ThenWord]), x) + arm, place, line, n)
      == if arm[0].line == x then Some(Parsed(If(c, t, e), close, z)) else ExpectEnd(If(c, t, e), close, EndIf)
  {
    hide OnLine, ParsePrec, Print, ParseStmt, ParseElse, ParseIf, Bracketed, Ends, FunsOf, ExpectEnd;
    OnLineFew(IfWord, Comma, Comma, x);
    OnLineFew(ThenWord, Comma, Comma, x);
    OnLineAppend([IfWord], Print(c) + [ThenWord], x);
    OnLineAppend(Print(c), [ThenWord], x);
    var then_ := Tok(ThenWord, x) + arm;
    var cond := OnLine(Print(c), x) + then_;
    var ts := Tok(IfWord, x) + cond;
    assert OnLine([IfWord] + (Print(c) + [ThenWord]), x) + arm == ts && ts[1..] == cond && then_[1..] == arm;
    Delimited(ThenWord, x, arm);
    ReadBracketed(c, x, then_);
    Statements.StmtParses(ts, place, line, n);
    IfParsed(c, t, e, cond, arm, other, close, x, y, z, n);
  }

  lemma IfParsed(c: Expr, t: Stmt, e: Stmt, cond: seq<Token>, arm: seq<Token>, other: seq<Token>, close: seq<Token>, x: nat, y: nat, z: nat, n: nat)
    requires arm != [] && ParsePrec(cond, ASSIGNMENT) == Some(Parsed(c, Tok(ThenWord, x) + arm, x))
    requires ParseStmt(arm, AfterThen, x, n) == Some(Parsed(t, other, y)) && ParseElse(other, y, n + |FunsOf(t)|) == Some(Parsed(e, close, z))
    ensures ParseIf(cond, n) == if arm[0].line == x then Some(Parsed(If(c, t, e), close, z)) else ExpectEnd(If(c, t, e), close, EndIf)
  {
    hide ParsePrec, ParseStmt, ParseElse, FunsOf, ExpectEnd;
    var then_ := Tok(ThenWord, x) + arm;
    assert then_[1..] == arm;
  }

  // Whole statements

  /** The line the last token of some lines is on, or `line` when there are none. */
  function LastLine(height: nat, l: nat, f: nat -> nat, line: nat): nat {
    if height == 0 then line else f(l + height - 1)
  }

  /** After a statement that an `Else` would belong to there is none, and after a `Return` without a value there is a new line. */
  predicate Parted(s: Source, rest: seq<Token>, line: nat) {
    (Open(s) ==> !Starts(rest, ElseWord)) && (Bare(s) ==> rest != [] && rest[0].line >= line)
  }

  lemma Lower(f: nat -> nat, l: nat, h: nat, rest: seq<Token>)
    requires Rising(f) && h >= 1 && Below(rest, f(l + h))
    ensures Below(rest, f(l + h - 1) + 1)
  {
    assert f(l + h - 1) < f(l + h);
  }

  /** A statement without a keyword of declaration. */
  lemma {:induction false} SingleRead(s: Source, place: Place, l: nat, f: nat -> nat, line: nat, n: nat, rest: seq<Token>)
    requires Well(s) && (Single(s) || (s.Expression? && place.Plain?)) && Rising(f)
    requires Below(rest, f(l + Height(s))) && Parted(s, rest, f(l + Height(s)))
    ensures Height(s) >= 1 && ParseStmt(Tokens(s, l, f) + rest, place, line, n) == Some(Parsed(Tree(s, n), rest, f(l + Height(s) - 1)))
    decreases s, 3
  {
    hide *;
    if s.Conditional? { ConditionalRead(s, place, l, f, line, n, rest); }
    else if s.Braces? { BlockRead(s, place, l, f, line, n, rest); }
    else {
      OnOneLine(s, place);
      LineRead(s, place, l, f, line, n, rest);
    }
  }

  lemma OnOneLine(s: Source, place: Place)
    requires Single(s) || (s.Expression? && place.Plain?)
    ensures s.Conditional? || s.Braces? || s.PrintLine? || s.ReturnLine? || (s.Expression? && place.Plain?)
  {
  }

  lemma Later(f: nat -> nat, l: nat)
    requires Rising(f)
    ensures f(l) < f(l + 1)
  {
  }

  lemma LineRead(s: Source, place: Place, l: nat, f: nat -> nat, line: nat, n: nat, rest: seq<Token>)
    requires Well(s) && (s.PrintLine? || s.ReturnLine? || (s.Expression? && place.Plain?)) && Rising(f)
    requires Below(rest, f(l + Height(s))) && Parted(s, rest, f(l + Height(s)))
    ensures Height(s) >= 1 && ParseStmt(Tokens(s, l, f) + rest, place, line, n) == Some(Parsed(Tree(s, n), rest, f(l + Height(s) - 1)))
  {
    hide ParseStmt, OnLine, Print, PrintAll, Bracketed, AllBracketed, Height, Tokens, Rising, Below;
    assert f(l) < f(l + 1) by { Later(f, l); }
    LineShape(s, l, f);
    Lower(f, l, 1, rest);
    if s.PrintLine? { PrintRead(s.es, f(l), place, line, n, rest); }
    if s.ReturnLine? { ReturnRead(s.result, f(l), place, line, n, rest); }
    if s.Expression? { ExpressionRead(s.e, f(l), line, n, rest); }
  }

  lemma {:induction false} BlockRead(s: Source, place: Place, l: nat, f: nat -> nat, line: nat, n: nat, rest: seq<Token>)
    requires Well(s) && s.Braces? && Rising(f) && Below(rest, f(l + Height(s)))
    ensures Height(s) >= 1 && ParseStmt(Tokens(s, l, f) + rest, place, line, n) == Some(Parsed(Tree(s, n), rest, f(l + Height(s) - 1)))
    decreases s, 2
  {
    hide ParseStmt, ParseDecls, TokensAll, HeightAll, Height, Tokens, WellAll, Well, Rising, Open, LastLine, TreeAll;
    BracesShape(s, l, f);
    var body, h := s.body, HeightAll(s.body);
    var close := Tok(RBrace, f(l + 1 + h)) + rest;
    DeclsRead(body, l + 1, f, ByBrace, f(l), n, close);
    BracesRead(TokensAll(body, l + 1, f) + close, TreeAll(body, n), f(l), LastLine(h, l + 1, f, f(l)), f(l + 1 + h), place, line, n, rest);
  }

  lemma LineShape(s: Source, l: nat, f: nat -> nat)
    requires s.PrintLine? || s.ReturnLine? || s.Expression? || s.VarLine? || s.GlobalLine?
    ensures Height(s) == 1
    ensures s.PrintLine? ==> Tokens(s, l, f) == OnLine([PrintWord] + PrintAll(s.es), f(l))
    ensures s.ReturnLine? ==> Tokens(s, l, f) == OnLine([ReturnWord] + (if s.result.Some? then Print(s.result.value) else []), f(l))
    ensures s.Expression? ==> Tokens(s, l, f) == OnLine(Print(s.e), f(l))
    ensures s.VarLine? ==> Tokens(s, l, f) == OnLine([VarWord, Identifier(s.name)] + Initializer(s.init), f(l))
    ensures s.GlobalLine? ==> Tokens(s, l, f) == OnLine([GlobalWord] + Items(s.items), f(l))
  {
    hide OnLine, Print, PrintAll;
    if s.ReturnLine? && s.result.None? { assert [ReturnWord] + [] == [ReturnWord]; }
  }

  lemma BracesShape(s: Source, l: nat, f: nat -> nat)
    requires s.Braces?
    ensures Height(s) == 2 + HeightAll(s.body)
    ensures Tokens(s, l, f) == Tok(LBrace, f(l)) + (TokensAll(s.body, l + 1, f) + Tok(RBrace, f(l + 1 + HeightAll(s.body))))
    ensures forall rest :: Tokens(s, l, f) + rest == Tok(LBrace, f(l)) + (TokensAll(s.body, l + 1, f) + (Tok(RBrace, f(l + 1 + HeightAll(s.body))) + rest))
    ensures Well(s) ==> WellAll(s.body)
  {
    hide TokensAll, HeightAll;
  }

  lemma FunctionShape(s: Source, l: nat, f: nat -> nat)
    requires s.Function?
    ensures Height(s) == 2 + HeightAll(s.body)
    ensures
      var k := if s.short then End else EndFunc;
      forall rest :: Tokens(s, l, f) + rest ==
        OnLine([Func, Identifier(s.name), LParen] + (Params(s.params) + [RParen]), f(l))
        + (TokensAll(s.body, l + 1, f) + (Tok(k, f(l + 1 + HeightAll(s.body))) + rest))
    ensures Well(s) ==> WellAll(s.body)
  {
    hide TokensAll, HeightAll, OnLine;
  }

  lemma {:induction false} KeywordRead(s: Source, l: nat, f: nat -> nat, n: nat, rest: seq<Token>)
    requires Well(s) && Declares(s) && Rising(f) && Below(rest, f(l + Height(s)))
    ensures Height(s) >= 1 && ParseKeyword(Tokens(s, l, f) + rest, n) == Some(Parsed(Tree(s, n), rest, f(l + Height(s) - 1)))
    decreases s, 3
  {
    hide ParseKeyword, OnLine, Print, TokensAll, HeightAll, Height, Tokens, WellAll, Well, Rising, GoodInit, Initializer, Items, Below;
    if s.Function? { NestedRead(s, l, f, n, rest); }
    else {
      LineShape(s, l, f);
      Lower(f, l, 1, rest);
      GoodLine(s);
      if s.VarLine? { VarRead(s.name, s.init, f(l), n, rest); }
      if s.GlobalLine? { GlobalRead(s.items, f(l), n, rest); }
    }
  }

  lemma GoodLine(s: Source)
    requires Well(s)
    ensures s.VarLine? ==> GoodInit(s.init)
    ensures s.GlobalLine? ==> s.items != [] && forall i :: 0 <= i < |s.items| ==> GoodInit(s.items[i].init)
  {
    hide GoodInit;
  }

  lemma {:induction false} NestedRead(s: Source, l: nat, f: nat -> nat, n: nat, rest: seq<Token>)
    requires Well(s) && s.Function? && Rising(f) && Below(rest, f(l + Height(s)))
    ensures Height(s) >= 1 && ParseKeyword(Tokens(s, l, f) + rest, n) == Some(Parsed(Tree(s, n), rest, f(l + Height(s) - 1)))
    decreases s, 2
  {
    hide ParseKeyword, ParseDecls, OnLine, TokensAll, HeightAll, Height, Tokens, WellAll, Well, Rising, Open, LastLine, FunsOfAll, TreeAll, Params, FunctionsIn;
    FunctionShape(s, l, f);
    var body, h := s.body, HeightAll(s.body);
    var k := if s.short then End else EndFunc;
    var close := Tok(k, f(l + 1 + h)) + rest;
    DeclsRead(body, l + 1, f, ByEnd, f(l), n, close);
    CountedAll(body, n);
    FunctionRead(s.name, s.params, TokensAll(body, l + 1, f) + close, TreeAll(body, n), k, f(l), LastLine(h, l + 1, f, f(l)), f(l + 1 + h), n, rest);
  }

  lemma {:induction false} DeclRead(s: Source, l: nat, f: nat -> nat, line: nat, n: nat, rest: seq<Token>)
    requires Well(s) && !s.Loose? && Rising(f) && Below(rest, f(l + Height(s))) && Parted(s, rest, f(l + Height(s)))
    ensures Height(s) >= 1 && ParseDecl(Tokens(s, l, f) + rest, line, n) == Some(Parsed(Tree(s, n), rest, f(l + Height(s) - 1)))
    decreases s, 4
  {
    hide Well, ParseKeyword, ParseStmt, Tokens, Height, Tree, Rising, Below, Parted;
    FirstToken(s, l, f);
    if Declares(s) { KeywordRead(s, l, f, n, rest); } else { SingleRead(s, Plain, l, f, line, n, rest); }
  }

  /** After a list: what closes it, and no `Else` that would belong to its last statement. */
  ghost predicate Closed(ss: seq<Source>, c: Closer, rest: seq<Token>, line: nat) {
    rest != [] && Closes(c, rest[0].kind) && (ss != [] ==> Parted(ss[|ss| - 1], rest, line))
  }

  lemma UnfoldTokens(ss: seq<Source>, l: nat, f: nat -> nat, n: nat, rest: seq<Token>)
    requires ss != []
    ensures TokensAll(ss, l, f) + rest == Tokens(ss[0], l, f) + (TokensAll(ss[1..], l + Height(ss[0]), f) + rest)
    ensures HeightAll(ss) == Height(ss[0]) + HeightAll(ss[1..])
    ensures TreeAll(ss, n) == [Tree(ss[0], n)] + TreeAll(ss[1..], n + Functions(ss[0]))
    ensures WellAll(ss) ==> Well(ss[0]) && !ss[0].Loose? && WellAll(ss[1..])
  {
    hide Tokens, Height, Tree, Well, Functions;
  }

  /** What comes after the first statement of a list. */
  lemma NextBelow(ss: seq<Source>, l: nat, f: nat -> nat, c: Closer, rest: seq<Token>)
    requires ss != [] && WellAll(ss) && Below(rest, f(l + HeightAll(ss))) && Closed(ss, c, rest, f(l + HeightAll(ss)))
    ensures
      var next := TokensAll(ss[1..], l + Height(ss[0]), f) + rest;
      Below(next, f(l + Height(ss[0]))) && Parted(ss[0], next, f(l + Height(ss[0]))) && Closed(ss[1..], c, rest, f(l + HeightAll(ss)))
  {
    hide Tokens, Height, Well, Open;
    UnfoldTokens(ss, l, f, 0, rest);
    if ss[1..] != [] { FirstOfAll(ss[1..], l + Height(ss[0]), f, rest); }
    else {
      hide TokensAll;
      assert TokensAll(ss[1..], l + Height(ss[0]), f) == [] by { NoTokens(l + Height(ss[0]), f); }
    }
  }

  lemma NoTokens(l: nat, f: nat -> nat)
    ensures TokensAll([], l, f) == [] && HeightAll([]) == 0 && forall n :: TreeAll([], n) == []
  {
  }

  lemma {:induction false} DeclsRead(ss: seq<Source>, l: nat, f: nat -> nat, c: Closer, line: nat, n: nat, rest: seq<Token>)
    requires WellAll(ss) && Rising(f) && Below(rest, f(l + HeightAll(ss))) && Closed(ss, c, rest, f(l + HeightAll(ss)))
    ensures ParseDecls(TokensAll(ss, l, f) + rest, c, line, n) == Some(Parsed(TreeAll(ss, n), rest, LastLine(HeightAll(ss), l, f, line)))
    decreases ss, 5
  {
    hide ParseDecls, ParseDecl, Tokens, TokensAll, Height, HeightAll, Tree, TreeAll, Well, WellAll, Functions, FunsOf, Rising, Parted, Below;
    if ss == [] {
      NoTokens(l, f);
      assert [] + rest == rest;
      DeclsNone(rest, c, line, n);
    } else {
      UnfoldTokens(ss, l, f, n, rest);
      NextBelow(ss, l, f, c, rest);
      var here := l + Height(ss[0]);
      var next := TokensAll(ss[1..], here, f) + rest;
      DeclRead(ss[0], l, f, line, n, next);
      Counted(ss[0], n);
      DeclsRead(ss[1..], here, f, c, f(here - 1), n + Functions(ss[0]), rest);
      FirstOfAll(ss, l, f, rest);
      DeclsMore(TokensAll(ss, l, f) + rest, c, line, n, Tree(ss[0], n), next, f(here - 1), TreeAll(ss[1..], n + Functions(ss[0])), rest,
        LastLine(HeightAll(ss[1..]), here, f, f(here - 1)));
    }
  }

  lemma DeclsNone(rest: seq<Token>, c: Closer, line: nat, n: nat)
    requires rest != [] && Closes(c, rest[0].kind)
    ensures ParseDecls(rest, c, line, n) == Some(Parsed([], rest, line))
  {
  }

  lemma DeclsMore(ts: seq<Token>, c: Closer, line: nat, n: nat, s: Stmt, next: seq<Token>, y: nat, ss: seq<Stmt>, rest: seq<Token>, z: nat)
    requires ts != [] && Begins(ts[0].kind) && ParseDecl(ts, line, n) == Some(Parsed(s, next, y))
    requires ParseDecls(next, c, y, n + |FunsOf(s)|) == Some(Parsed(ss, rest, z))
    ensures ParseDecls(ts, c, line, n) == Some(Parsed([s] + ss, rest, z))
  {
    hide ParseDecl, FunsOf;
  }

  lemma ArmMore(ts: seq<Token>, c: Closer, line: nat, n: nat, s: Stmt, next: seq<Token>, y: nat, ss: seq<Stmt>, rest: seq<Token>, z: nat)
    requires ts != [] && Begins(ts[0].kind) && ParseKeyword(ts, n) == Some(Parsed(s, next, y))
    requires ParseDecls(next, c, y, n + |FunsOf(s)|) == Some(Parsed(ss, rest, z))
    ensures ParseArm(ts, c, line, n) == Some(Parsed([s] + ss, rest, z))
  {
    hide ParseKeyword, ParseDecls, FunsOf;
  }

  lemma ArmNone(rest: seq<Token>, c: Closer, line: nat, n: nat)
    requires rest != [] && Closes(c, rest[0].kind)
    ensures ParseArm(rest, c, line, n) == Some(Parsed([], rest, line))
  {
  }

  /** Declarations without braces. */
  lemma {:induction false} LooseRead(ss: seq<Source>, l: nat, f: nat -> nat, c: Closer, line: nat, n: nat, rest: seq<Token>)
    requires WellAll(ss) && (ss != [] ==> Declares(ss[0])) && Rising(f) && Below(rest, f(l + HeightAll(ss))) && Closed(ss, c, rest, f(l + HeightAll(ss)))
    ensures ParseArm(TokensAll(ss, l, f) + rest, c, line, n) == Some(Parsed(TreeAll(ss, n), rest, LastLine(HeightAll(ss), l, f, line)))
    decreases ss, 5
  {
    hide ParseDecls, ParseArm, ParseKeyword, Tokens, TokensAll, Height, HeightAll, Tree, TreeAll, Well, WellAll, Functions, FunsOf, Rising, Parted, Below;
    if ss == [] {
      NoTokens(l, f);
      assert [] + rest == rest;
      ArmNone(rest, c, line, n);
    } else {
      UnfoldTokens(ss, l, f, n, rest);
      NextBelow(ss, l, f, c, rest);
      var here := l + Height(ss[0]);
      var next := TokensAll(ss[1..], here, f) + rest;
      KeywordRead(ss[0], l, f, n, next);
      Counted(ss[0], n);
      DeclsRead(ss[1..], here, f, c, f(here - 1), n + Functions(ss[0]), rest);
      FirstOfAll(ss, l, f, rest);
      ArmMore(TokensAll(ss, l, f) + rest, c, line, n, Tree(ss[0], n), next, f(here - 1), TreeAll(ss[1..], n + Functions(ss[0])), rest,
        LastLine(HeightAll(ss[1..]), here, f, f(here - 1)));
    }
  }

  // Conditionals

  /** Whether what comes after `Then` starts on its line. */
  predicate Placed(inline: bool, x: nat, y: nat) {
    if inline then y == x else y > x
  }

  lemma LooseShape(t: Source, l: nat, f: nat -> nat, n: nat)
    requires t.Loose?
    ensures Tokens(t, l, f) == TokensAll(t.body, l, f) && Height(t) == HeightAll(t.body) && Tree(t, n) == Block(TreeAll(t.body, n))
    ensures Well(t) ==> WellAll(t.body) && (t.body != [] ==> Declares(t.body[0]))
  {
    hide TokensAll, HeightAll, TreeAll, WellAll;
  }

  lemma OnlyOne(d: Source, l: nat, f: nat -> nat, n: nat, rest: seq<Token>)
    ensures TokensAll([d], l, f) + rest == Tokens(d, l, f) + rest && HeightAll([d]) == Height(d) && TreeAll([d], n) == [Tree(d, n)]
    ensures WellAll([d]) ==> Well(d)
  {
    hide Tokens, Height, Tree, Well;
    UnfoldTokens([d], l, f, n, rest);
    NoTokens(l + Height(d), f);
    assert [d][1..] == [] && [] + rest == rest;
  }

  /** A single declaration on the line of `Then`. */
  lemma InlineParsed(ts: seq<Token>, x: nat, n: nat, s: Stmt, rest: seq<Token>, y: nat)
    requires ts != [] && Keyword(ts[0].kind) && ts[0].line == x && ParseKeyword(ts, n) == Some(Parsed(s, rest, y))
    ensures ParseStmt(ts, AfterThen, x, n) == Some(Parsed(Block([s]), rest, y))
  {
    hide ParseKeyword, ParseStmt;
    Statements.StmtParses(ts, AfterThen, x, n);
  }

  /** Declarations on the lines after `Then`, or after `Else`. */
  lemma LooseParsed(ts: seq<Token>, place: Place, x: nat, n: nat, ss: seq<Stmt>, rest: seq<Token>, y: nat)
    requires !place.Plain? && ts != [] && (Keyword(ts[0].kind) || ts[0].kind.ElseWord? || ts[0].kind.EndIf?) && ts[0].line > x
    requires ParseArm(ts, if place.AfterThen? then ByElse else ByEndIf, x, n) == Some(Parsed(ss, rest, y))
    ensures ParseStmt(ts, place, x, n) == Some(Parsed(Block(ss), rest, y))
  {
    hide ParseArm, ParseStmt;
    Statements.StmtParses(ts, place, x, n);
  }

  lemma LooseClosed(t: Source, c: Closer, rest: seq<Token>, line: nat)
    requires t.Loose? && Parted(t, rest, line) && rest != [] && Closes(c, rest[0].kind)
    ensures Closed(t.body, c, rest, line)
  {
  }

  /** The first token of declarations without braces. */
  lemma LooseFirst(ss: seq<Source>, l: nat, f: nat -> nat, rest: seq<Token>)
    requires WellAll(ss) && (ss != [] ==> Declares(ss[0])) && Below(rest, f(l + HeightAll(ss))) && (ss == [] ==> !rest[0].kind.Eof?)
    ensures
      var ts := TokensAll(ss, l, f) + rest;
      ts != [] && ts[0].line >= f(l) && (Keyword(ts[0].kind) || ts == rest)
  {
    hide Well, Tokens, Height;
    if ss != [] { FirstOfAll(ss, l, f, rest); } else { assert [] + rest == rest; }
  }

  lemma {:induction false} ThenRead(t: Source, inline: bool, m: nat, f: nat -> nat, x: nat, n: nat, rest: seq<Token>)
    requires Well(t) && Rising(f) && Below(rest, f(m + Height(t))) && Parted(t, rest, f(m + Height(t))) && Placed(inline, x, f(m))
    requires Single(t) || (t.Loose? && if inline then |t.body| == 1 else Starts(rest, ElseWord))
    ensures ParseStmt(Tokens(t, m, f) + rest, AfterThen, x, n) == Some(Parsed(Tree(t, n), rest, LastLine(Height(t), m, f, x)))
    ensures inline ==> Height(t) >= 1
    ensures Tokens(t, m, f) + rest != [] && Placed(inline, x, (Tokens(t, m, f) + rest)[0].line)
    decreases t, 4
  {
    hide ParseStmt, Tokens, TokensAll, Height, HeightAll, Tree, TreeAll, Well, WellAll, Rising, Parted, Below, ParseArm, ParseKeyword;
    if Single(t) {
      SingleRead(t, AfterThen, m, f, x, n, rest);
      FirstToken(t, m, f);
    } else {
      LooseShape(t, m, f, n);
      LooseFirst(t.body, m, f, rest);
      var ts := TokensAll(t.body, m, f) + rest;
      if inline {
        var d := t.body[0];
        assert t.body == [d];
        OnlyOne(d, m, f, n, rest);
        KeywordRead(d, m, f, n, rest);
        FirstOfAll(t.body, m, f, rest);
        InlineParsed(ts, x, n, Tree(d, n), rest, f(m + Height(d) - 1));
      } else {
        LooseClosed(t, ByElse, rest, f(m + HeightAll(t.body)));
        LooseRead(t.body, m, f, ByElse, x, n, rest);
        LooseParsed(ts, AfterThen, x, n, TreeAll(t.body, n), rest, LastLine(HeightAll(t.body), m, f, x));
      }
    }
  }

  function ElseTree(e: Option<Source>, n: nat): Stmt {
    match e
    case None => Block([])
    case Some(s) => Tree(s, n)
  }

  function ElseLast(e: Option<Source>, k: nat, f: nat -> nat, y: nat): nat {
    match e
    case None => y
    case Some(s) => LastLine(Height(s), k + 1, f, f(k))
  }

  lemma ElseParsed(s: Source, k: nat, f: nat -> nat, y: nat, n: nat, rest: seq<Token>)
    ensures ElseTokens(Some(s), k, f) + rest == Tok(ElseWord, f(k)) + (Tokens(s, k + 1, f) + rest)
    ensures ParseElse(ElseTokens(Some(s), k, f) + rest, y, n) == ParseStmt(Tokens(s, k + 1, f) + rest, AfterElse, f(k), n)
  {
    hide ParseStmt, Tokens;
    var tail := Tokens(s, k + 1, f) + rest;
    assert (Tok(ElseWord, f(k)) + tail)[1..] == tail;
  }

  lemma NoElseParsed(k: nat, f: nat -> nat, y: nat, n: nat, rest: seq<Token>)
    requires !Starts(rest, ElseWord)
    ensures ElseTokens(None, k, f) + rest == rest && ParseElse(rest, y, n) == Some(Parsed(Block([]), rest, y))
  {
    hide ParseStmt;
    assert [] + rest == rest;
  }

  lemma {:induction false} ElseRead(e: Option<Source>, k: nat, f: nat -> nat, y: nat, n: nat, rest: seq<Token>)
    requires WellElse(e) && Rising(f) && Below(rest, f(k + ElseHeight(e)))
    requires if e.None? then !Starts(rest, ElseWord) else Parted(e.value, rest, f(k + ElseHeight(e))) && (Single(e.value) || (e.value.Loose? && Starts(rest, EndIf)))
    ensures ParseElse(ElseTokens(e, k, f) + rest, y, n) == Some(Parsed(ElseTree(e, n), rest, ElseLast(e, k, f, y)))
    ensures e.Some? && Single(e.value) ==> Height(e.value) >= 1
    decreases e, 0
  {
    hide ParseStmt, ParseElse, ElseTokens, Tokens, TokensAll, Height, HeightAll, Tree, TreeAll, Well, WellAll, Parted, Below, ParseArm;
    if e.None? { NoElseParsed(k, f, y, n, rest); }
    else {
      var s := e.value;
      ElseParsed(s, k, f, y, n, rest);
      assert f(k) < f(k + 1);
      if Single(s) { SingleRead(s, AfterElse, k + 1, f, f(k), n, rest); }
      else {
        LooseShape(s, k + 1, f, n);
        LooseFirst(s.body, k + 1, f, rest);
        LooseClosed(s, ByEndIf, rest, f(k + 1 + HeightAll(s.body)));
        LooseRead(s.body, k + 1, f, ByEndIf, f(k), n, rest);
        LooseParsed(TokensAll(s.body, k + 1, f) + rest, AfterElse, f(k), n, TreeAll(s.body, n), rest, LastLine(HeightAll(s.body), k + 1, f, f(k)));
      }
    }
  }

  /** What closes a conditional, and what follows it. */
  function Closing(s: Source, l: nat, f: nat -> nat, rest: seq<Token>): seq<Token>
    requires s.Conditional?
  {
    if s.inline then rest else Tok(if s.short then End else EndIf, f(l)) + rest
  }

  lemma Regrouped(a: seq<Token>, b: seq<Token>, c: seq<Token>, d: seq<Token>, rest: seq<Token>)
    ensures a + (b + (c + d)) + rest == a + (b + (c + (d + rest)))
  {
  }

  lemma ConditionalTokens(s: Source, l: nat, f: nat -> nat)
    requires s.Conditional?
    ensures
      var m := if s.inline then l else l + 1;
      var k := m + Height(s.thn);
      Tokens(s, l, f) == OnLine([IfWord] + (Print(s.cond) + [ThenWord]), f(l))
        + (Tokens(s.thn, m, f) + (ElseTokens(s.els, k, f) + if s.inline then [] else Tok(if s.short then End else EndIf, f(k + ElseHeight(s.els)))))
  {
    hide OnLine, Print, ElseTokens, ElseHeight;
  }

  lemma ConditionalShape(s: Source, l: nat, f: nat -> nat, rest: seq<Token>)
    requires s.Conditional?
    ensures
      var m := if s.inline then l else l + 1;
      var k := m + Height(s.thn);
      Tokens(s, l, f) + rest
      == OnLine([IfWord] + (Print(s.cond) + [ThenWord]), f(l))
         + (Tokens(s.thn, m, f) + (ElseTokens(s.els, k, f) + Closing(s, k + ElseHeight(s.els), f, rest)))
  {
    hide OnLine, Print, ElseTokens, ElseHeight, Tokens, Height;
    ConditionalTokens(s, l, f);
    var m := if s.inline then l else l + 1;
    var k := m + Height(s.thn);
    var word := if s.inline then [] else Tok(if s.short then End else EndIf, f(k + ElseHeight(s.els)));
    assert word + rest == Closing(s, k + ElseHeight(s.els), f, rest);
    Regrouped(OnLine([IfWord] + (Print(s.cond) + [ThenWord]), f(l)), Tokens(s.thn, m, f), ElseTokens(s.els, k, f), word, rest);
  }

  lemma ConditionalParts(s: Source, n: nat)
    requires s.Conditional?
    ensures Height(s) == Height(s.thn) + ElseHeight(s.els) + if s.inline then 0 else 2
    ensures Tree(s, n) == If(s.cond, Tree(s.thn, n), ElseTree(s.els, n + Functions(s.thn)))
    ensures Well(s) ==> Bracketed(s.cond) && Well(s.thn) && WellElse(s.els) && ArmFits(s.inline, s.thn, s.els, s.short)
  {
    hide ElseHeight, Bracketed, WellElse, ArmFits;
  }

  lemma ElseFirst(e: Option<Source>, k: nat, f: nat -> nat, rest: seq<Token>)
    requires e.None? ==> Below(rest, f(k + ElseHeight(e)))
    ensures Below(ElseTokens(e, k, f) + rest, f(k)) && (e.Some? ==> Starts(ElseTokens(e, k, f) + rest, ElseWord))
    ensures e.None? ==> ElseTokens(e, k, f) + rest == rest && ElseHeight(e) == 0
    ensures e.Some? ==> ElseHeight(e) == 1 + Height(e.value)
  {
    hide Tokens, Height;
    assert [] + rest == rest;
  }

  lemma Parting(s: Source, rest: seq<Token>, line: nat)
    requires s.Conditional? && ArmFits(s.inline, s.thn, s.els, s.short) && Parted(s, rest, line)
    ensures s.els.Some? ==> !Open(s.thn) && (s.inline ==> Parted(s.els.value, rest, line))
    ensures s.els.None? && s.inline ==> !Starts(rest, ElseWord) && (Bare(s.thn) ==> rest != [] && rest[0].line >= line)
  {
  }

  /** What each part of a conditional is followed by. */
  lemma FollowingElse(s: Source, l: nat, f: nat -> nat, rest: seq<Token>)
    requires s.Conditional? && ArmFits(s.inline, s.thn, s.els, s.short) && Below(rest, f(l + if s.inline then 0 else 1))
    requires Parted(s, rest, f(l + if s.inline then 0 else 1))
    ensures
      var close := Closing(s, l, f, rest);
      && Below(close, f(l)) && (if s.els.None? then !Starts(close, ElseWord) else Parted(s.els.value, close, f(l)))
      && (s.els.None? && Bare(s.thn) ==> close[0].line >= f(l))
      && (s.els.Some? && !Single(s.els.value) ==> s.els.value.Loose? && Starts(close, EndIf))
  {
    hide Open, Bare;
    Parting(s, rest, f(l + if s.inline then 0 else 1));
  }

  lemma FollowingThen(s: Source, k: nat, f: nat -> nat, close: seq<Token>)
    requires s.Conditional? && ArmFits(s.inline, s.thn, s.els, s.short)
    requires Below(close, f(k + ElseHeight(s.els))) && (s.els.None? ==> !Starts(close, ElseWord))
    requires s.els.None? && Bare(s.thn) ==> close[0].line >= f(k + ElseHeight(s.els))
    ensures
      var other := ElseTokens(s.els, k, f) + close;
      && Below(other, f(k)) && Parted(s.thn, other, f(k))
      && (Single(s.thn) || (s.thn.Loose? && if s.inline then |s.thn.body| == 1 else Starts(other, ElseWord)))
  {
    hide Tokens, Height, ElseHeight, ElseTokens, Open, Bare;
    ElseFirst(s.els, k, f, close);
  }

  lemma {:induction false} ConditionalRead(s: Source, place: Place, l: nat, f: nat -> nat, line: nat, n: nat, rest: seq<Token>)
    requires s.Conditional? && Well(s) && Rising(f) && Below(rest, f(l + Height(s))) && Parted(s, rest, f(l + Height(s)))
    ensures Height(s) >= 1 && ParseStmt(Tokens(s, l, f) + rest, place, line, n) == Some(Parsed(Tree(s, n), rest, f(l + Height(s) - 1)))
    decreases s, 2
  {
    hide *;
    ConditionalShape(s, l, f, rest);
    ConditionalParts(s, n);
    var m := if s.inline then l else l + 1;
    var k := m + Height(s.thn);
    var close := Closing(s, k + ElseHeight(s.els), f, rest);
    var other := ElseTokens(s.els, k, f) + close;
    FollowingElse(s, k + ElseHeight(s.els), f, rest);
    FollowingThen(s, k, f, close);
    ArmLine(s.inline, l, f);
    ThenRead(s.thn, s.inline, m, f, f(l), n, other);
    Counted(s.thn, n);
    var y := LastLine(Height(s.thn), m, f, f(l));
    ElseRead(s.els, k, f, y, n + Functions(s.thn), close);
    IfRead(s.cond, Tree(s.thn, n), ElseTree(s.els, n + Functions(s.thn)), Tokens(s.thn, m, f) + other, other, close, f(l), y,
      ElseLast(s.els, k, f, y), place, line, n);
    if s.inline { ElseSingle(s); }
    IfLast(s, l, f, Tree(s, n), rest, (Tokens(s.thn, m, f) + other)[0].line);
  }

  lemma ArmLine(inline: bool, l: nat, f: nat -> nat)
    requires Rising(f)
    ensures Placed(inline, f(l), f(if inline then l else l + 1))
  {
    assert f(l) < f(l + 1);
  }

  /** The closing word, or on one line with `Then` no such word. */
  lemma IfLast(s: Source, l: nat, f: nat -> nat, tree: Stmt, rest: seq<Token>, x: nat)
    requires s.Conditional? && Well(s) && (s.inline ==> Height(s.thn) >= 1 && (s.els.Some? ==> Height(s.els.value) >= 1)) && Placed(s.inline, f(l), x)
    ensures
      var k := (if s.inline then l else l + 1) + Height(s.thn);
      var close := Closing(s, k + ElseHeight(s.els), f, rest);
      var z := ElseLast(s.els, k, f, LastLine(Height(s.thn), if s.inline then l else l + 1, f, f(l)));
      Height(s) >= 1 && (x == f(l) <==> s.inline)
      && (if s.inline then Some(Parsed(tree, close, z)) else ExpectEnd(tree, close, EndIf)) == Some(Parsed(tree, rest, f(l + Height(s) - 1)))
  {
    hide Height, ElseHeight, Bracketed, Well;
    ConditionalParts(s, 0);
    if s.inline { ElseSingle(s); }
    else {
      var k := l + 1 + Height(s.thn);
      assert Closing(s, k + ElseHeight(s.els), f, rest)[1..] == rest;
    }
  }

  lemma ElseSingle(s: Source)
    requires s.Conditional? && s.inline && Well(s)
    ensures s.els.None? ==> ElseHeight(s.els) == 0
    ensures s.els.Some? ==> ElseHeight(s.els) == 1 + Height(s.els.value) && Single(s.els.value) && Well(s.els.value)
  {
    hide Bracketed, Height;
  }

  // Scripts

  /** A script and the end of the file, which is on line `eof`. */
  function ScriptTokens(ss: seq<Source>, f: nat -> nat, eof: nat): seq<Token> {
    TokensAll(ss, 0, f) + Tok(Eof, eof)
  }

  /** The end of the file is on the last line of the script, or on a later one; `f` says which lines those are. */
  predicate EofFits(ss: seq<Source>, f: nat -> nat, eof: nat) {
    eof >= f(HeightAll(ss)) || (HeightAll(ss) > 0 && eof <= f(HeightAll(ss) - 1))
  }

  /** The end of the file is on the line of a `Return` without a value, and is taken for one. */
  predicate CutShort(ss: seq<Source>, f: nat -> nat, eof: nat) {
    ss != [] && Bare(ss[|ss| - 1]) && HeightAll(ss) > 0 && eof <= f(HeightAll(ss) - 1)
  }

  /**
   Parsing inverts writing: the tokens of any script parse to the statements it was written
   for, unless the file ends on the line of a `Return` without a value, and then they do not parse.
   */
  lemma ScriptIsRead(ss: seq<Source>, f: nat -> nat, eof: nat)
    requires WellAll(ss) && Rising(f) && EofFits(ss, f, eof)
    ensures ParseScript(ScriptTokens(ss, f, eof)) == if CutShort(ss, f, eof) then None else Some(TreeAll(ss, 0))
  {
    hide ParseDecls, TokensAll, HeightAll, TreeAll, WellAll, Rising, Bare, Open;
    if CutShort(ss, f, eof) { DeclsFail(ss, 0, f, 0, 0, eof); }
    else { DeclsRead(ss, 0, f, ByEof, 0, 0, Tok(Eof, eof)); }
  }

  // A file that ends on the line of a `Return`

  lemma NoValue(y: nat, x: nat)
    requires y <= x
    ensures ParseReturn(Tok(Eof, y), x).None?
  {
    assert ParsePrec(Tok(Eof, y), ASSIGNMENT).None?;
    hide ParsePrec;
  }

  lemma ReturnFails(x: nat, place: Place, line: nat, n: nat, y: nat)
    requires y <= x
    ensures ParseStmt(OnLine([ReturnWord], x) + Tok(Eof, y), place, line, n).None?
  {
    hide ParseStmt, OnLine, ParseReturn;
    OnLineFew(ReturnWord, Comma, Comma, x);
    NoValue(y, x);
    assert (Tok(ReturnWord, x) + Tok(Eof, y))[1..] == Tok(Eof, y);
    Statements.StmtParses(Tok(ReturnWord, x) + Tok(Eof, y), place, line, n);
  }

  lemma IfFails(c: Expr, arm: seq<Token>, x: nat, place: Place, line: nat, n: nat)
    requires Bracketed(c) && arm != []
    requires
      var t := ParseStmt(arm, AfterThen, x, n);
      t.None? || ParseElse(t.value.rest, t.value.line, n + |FunsOf(t.value.value)|).None?
    ensures ParseStmt(OnLine([IfWord] + (Print(c) + [ThenWord]), x) + arm, place, line, n).None?
  {
    hide OnLine, ParsePrec, Print, ParseStmt, ParseElse, ParseIf, Bracketed, Ends, FunsOf;
    OnLineFew(IfWord, Comma, Comma, x);
    OnLineFew(ThenWord, Comma, Comma, x);
    OnLineAppend([IfWord], Print(c) + [ThenWord], x);
    OnLineAppend(Print(c), [ThenWord], x);
    var then_ := Tok(ThenWord, x) + arm;
    var cond := OnLine(Print(c), x) + then_;
    var ts := Tok(IfWord, x) + cond;
    assert OnLine([IfWord] + (Print(c) + [ThenWord]), x) + arm == ts && ts[1..] == cond;
    Delimited(ThenWord, x, arm);
    ReadBracketed(c, x, then_);
    Statements.StmtParses(ts, place, line, n);
    IfNotParsed(c, cond, arm, x, n);
  }

  lemma IfNotParsed(c: Expr, cond: seq<Token>, arm: seq<Token>, x: nat, n: nat)
    requires arm != [] && ParsePrec(cond, ASSIGNMENT) == Some(Parsed(c, Tok(ThenWord, x) + arm, x))
    requires
      var t := ParseStmt(arm, AfterThen, x, n);
      t.None? || ParseElse(t.value.rest, t.value.line, n + |FunsOf(t.value.value)|).None?
    ensures ParseIf(cond, n).None?
  {
    hide ParsePrec, ParseStmt, ParseElse, FunsOf;
    assert (Tok(ThenWord, x) + arm)[1..] == arm;
  }

  lemma BareParts(s: Source)
    requires Well(s) && Bare(s) && !s.Loose?
    ensures (s.ReturnLine? && s.result.None?) || (s.Conditional? && s.inline)
    ensures s.Conditional? ==> (if s.els.None? then Bare(s.thn) && Single(s.thn) else Bare(s.els.value) && Single(s.els.value))
  {
    hide Bracketed;
    if s.Conditional? { DeclarationNotBare(s.thn); }
  }

  lemma DeclarationNotBare(t: Source)
    ensures t.Loose? && |t.body| == 1 && Well(t) ==> !Bare(t)
  {
    hide Bracketed;
  }

  lemma {:induction false} SingleFails(s: Source, place: Place, l: nat, f: nat -> nat, line: nat, n: nat, y: nat)
    requires Well(s) && Bare(s) && !s.Loose? && Rising(f) && Height(s) >= 1 && y <= f(l + Height(s) - 1)
    ensures ParseStmt(Tokens(s, l, f) + Tok(Eof, y), place, line, n).None?
    decreases s, 1
  {
    hide *;
    BareParts(s);
    if s.ReturnLine? { BareReturnFails(s, place, l, f, line, n, y); }
    else {
      ConditionalParts(s, n);
      ConditionalShape(s, l, f, Tok(Eof, y));
      InlineClosing(s, l + Height(s.thn) + ElseHeight(s.els), f, Tok(Eof, y));
      if s.els.None? { NoElseFails(s, l, f, n, y); } else { ElseFails(s, l, f, n, y); }
      IfFails(s.cond, Tokens(s.thn, l, f) + (ElseTokens(s.els, l + Height(s.thn), f) + Tok(Eof, y)), f(l), place, line, n);
    }
  }

  lemma InlineClosing(s: Source, l: nat, f: nat -> nat, rest: seq<Token>)
    requires s.Conditional? && s.inline
    ensures Closing(s, l, f, rest) == rest
  {
  }

  lemma BareReturnFails(s: Source, place: Place, l: nat, f: nat -> nat, line: nat, n: nat, y: nat)
    requires s.ReturnLine? && s.result.None? && Height(s) >= 1 && y <= f(l + Height(s) - 1)
    ensures ParseStmt(Tokens(s, l, f) + Tok(Eof, y), place, line, n).None?
  {
    hide ParseStmt, OnLine, Tokens, Height;
    LineShape(s, l, f);
    assert [ReturnWord] + [] == [ReturnWord];
    ReturnFails(f(l), place, line, n, y);
  }

  lemma {:induction false} NoElseFails(s: Source, l: nat, f: nat -> nat, n: nat, y: nat)
    requires s.Conditional? && s.inline && s.els.None? && Well(s) && Bare(s.thn) && Single(s.thn) && Rising(f)
    requires Height(s) >= 1 && y <= f(l + Height(s) - 1)
    ensures
      var arm := Tokens(s.thn, l, f) + (ElseTokens(s.els, l + Height(s.thn), f) + Tok(Eof, y));
      arm != [] && ParseStmt(arm, AfterThen, f(l), n).None?
    decreases s, 0
  {
    hide ParseStmt, ParseElse, ElseTokens, Tokens, Height, ElseHeight, Tree, Well, WellElse, Bracketed, Open, Bare, Functions, FunsOf, Rising;
    ConditionalParts(s, n);
    ElseSingle(s);
    NoElseParsed(l + Height(s.thn), f, 0, n, Tok(Eof, y));
    FirstToken(s.thn, l, f);
    SingleFails(s.thn, AfterThen, l, f, f(l), n, y);
  }

  lemma {:induction false} ElseFails(s: Source, l: nat, f: nat -> nat, n: nat, y: nat)
    requires s.Conditional? && s.inline && s.els.Some? && Well(s) && Bare(s.els.value) && Single(s.els.value) && Rising(f)
    requires Height(s) >= 1 && y <= f(l + Height(s) - 1)
    ensures
      var arm := Tokens(s.thn, l, f) + (ElseTokens(s.els, l + Height(s.thn), f) + Tok(Eof, y));
      var t := ParseStmt(arm, AfterThen, f(l), n);
      arm != [] && t.Some? && ParseElse(t.value.rest, t.value.line, n + |FunsOf(t.value.value)|).None?
    decreases s, 0
  {
    hide ParseStmt, ParseElse, ElseTokens, Tokens, Height, ElseHeight, Tree, Well, WellElse, Bracketed, Open, Bare, Functions, FunsOf, TokensAll, HeightAll, WellAll, Rising;
    ConditionalParts(s, n);
    ElseSingle(s);
    var k, e, rest := l + Height(s.thn), s.els.value, Tok(Eof, y);
    var other := ElseTokens(s.els, k, f) + rest;
    ElseFirst(s.els, k, f, rest);
    ElseAt(s.els, k, f, rest);
    ThenOpen(s, other, f(k));
    ThenRead(s.thn, true, l, f, f(l), n, other);
    Counted(s.thn, n);
    ElseParsed(e, k, f, LastLine(Height(s.thn), l, f, f(l)), n + Functions(s.thn), rest);
    Tall(e);
    SingleFails(e, AfterElse, k + 1, f, f(k), n + Functions(s.thn), y);
  }

  lemma ElseAt(e: Option<Source>, k: nat, f: nat -> nat, rest: seq<Token>)
    requires e.Some?
    ensures Starts(ElseTokens(e, k, f) + rest, ElseWord) && (ElseTokens(e, k, f) + rest)[0].line == f(k)
  {
    hide Tokens;
  }

  lemma ThenOpen(s: Source, other: seq<Token>, line: nat)
    requires s.Conditional? && s.inline && s.els.Some? && Well(s) && Starts(other, ElseWord) && other[0].line == line
    ensures Well(s.thn) && Parted(s.thn, other, line) && (Single(s.thn) || (s.thn.Loose? && |s.thn.body| == 1))
  {
    hide Bracketed, Bare;
  }

  lemma {:induction false} Tall(s: Source)
    requires Well(s) && !s.Loose?
    ensures Height(s) >= 1
    decreases s
  {
    hide Bracketed;
    if s.Conditional? && s.inline {
      if s.thn.Loose? {
        OnlyOne(s.thn.body[0], 0, i => i, 0, []);
        assert s.thn.body == [s.thn.body[0]];
        Tall(s.thn.body[0]);
      } else { Tall(s.thn); }
    }
  }

  lemma {:induction false} DeclsFail(ss: seq<Source>, l: nat, f: nat -> nat, line: nat, n: nat, y: nat)
    requires WellAll(ss) && ss != [] && Bare(ss[|ss| - 1]) && Rising(f) && HeightAll(ss) >= 1 && y <= f(l + HeightAll(ss) - 1)
    ensures ParseDecls(TokensAll(ss, l, f) + Tok(Eof, y), ByEof, line, n).None?
    decreases ss
  {
    hide ParseDecls, ParseDecl, Tokens, TokensAll, Height, HeightAll, Tree, TreeAll, Well, WellAll, Functions, FunsOf, Rising, Open, Bare;
    var rest := Tok(Eof, y);
    var ts := TokensAll(ss, l, f) + rest;
    UnfoldTokens(ss, l, f, n, rest);
    FirstOfAll(ss, l, f, rest);
    Tall(ss[0]);
    if |ss| == 1 {
      NoTokens(l + Height(ss[0]), f);
      assert ss[1..] == [] && [] + rest == rest;
      BareParts(ss[0]);
      SingleFails(ss[0], Plain, l, f, line, n, y);
      NotDeclared(ts, line, n);
    } else {
      var here := l + Height(ss[0]);
      var next := TokensAll(ss[1..], here, f) + rest;
      FirstOfAll(ss[1..], here, f, rest);
      DeclRead(ss[0], l, f, line, n, next);
      Counted(ss[0], n);
      UnfoldTokens(ss[1..], here, f, n, rest);
      Tall(ss[1]);
      DeclsFail(ss[1..], here, f, f(here - 1), n + Functions(ss[0]), y);
    }
    DeclsNot(ts, line, n);
  }

  lemma NotDeclared(ts: seq<Token>, line: nat, n: nat)
    requires ParseStmt(ts, Plain, line, n).None? && !Keyword(Kind0(ts))
    ensures ParseDecl(ts, line, n).None?
  {
    hide ParseStmt;
  }

  lemma DeclsNot(ts: seq<Token>, line: nat, n: nat)
    requires ts != [] && Begins(ts[0].kind)
    requires
      var s := ParseDecl(ts, line, n);
      s.None? || ParseDecls(s.value.rest, ByEof, s.value.line, n + |FunsOf(s.value.value)|).None?
    ensures ParseDecls(ts, ByEof, line, n).None?
  {
    hide ParseDecl, FunsOf;
  }

  // Missing initializers

  function Filled(init: Option<Expr>): Option<Expr> {
    Some(if init.None? then NullLit else init.value)
  }

  function FilledItems(items: seq<Given>): (r: seq<Given>)
    ensures |r| == |items| && forall i :: 0 <= i < |items| ==> r[i] == Given(items[i].name, Filled(items[i].init))
  {
    seq(|items|, i requires 0 <= i < |items| => Given(items[i].name, Filled(items[i].init)))
  }

  /** The same with `= Null` after every variable that has no initializer. */
  function Explicit(s: Source): Source
    decreases s, 1
  {
    match s
    case VarLine(name, init) => VarLine(name, Filled(init))
    case GlobalLine(items) => GlobalLine(FilledItems(items))
    case Braces(body) => Braces(ExplicitAll(body))
    case Loose(body) => Loose(ExplicitAll(body))
    case Function(name, ps, body, short) => Function(name, ps, ExplicitAll(body), short)
    case Conditional(inline, c, t, None, short) => Conditional(inline, c, Explicit(t), None, short)
    case Conditional(inline, c, t, Some(e), short) => Conditional(inline, c, Explicit(t), Some(Explicit(e)), short)
    case _ => s
  }

  function ExplicitAll(ss: seq<Source>): (r: seq<Source>)
    ensures |r| == |ss|
    decreases ss, 0
  {
    if ss == [] then [] else [Explicit(ss[0])] + ExplicitAll(ss[1..])
  }

  lemma {:induction false} FilledStart(items: seq<Given>)
    ensures StartAll(FilledItems(items)) == StartAll(items)
    decreases |items|
  {
    if items != [] {
      assert FilledItems(items)[1..] == FilledItems(items[1..]);
      FilledStart(items[1..]);
    }
  }

  lemma {:induction false} ExplicitTree(s: Source, n: nat)
    ensures Tree(Explicit(s), n) == Tree(s, n) && Functions(Explicit(s)) == Functions(s)
    decreases s, 1
  {
    hide ExplicitAll, TreeAll, FunctionsIn, FilledItems, StartAll;
    match s
    case GlobalLine(items) => FilledStart(items);
    case Braces(body) => ExplicitTrees(body, n);
    case Loose(body) => ExplicitTrees(body, n);
    case Function(_, _, body, _) => ExplicitTrees(body, n);
    case Conditional(_, _, t, None, _) => ExplicitTree(t, n);
    case Conditional(_, _, t, Some(e), _) => ExplicitTree(t, n); ExplicitTree(e, n + Functions(t));
    case _ =>
  }

  lemma ExplicitCons(ss: seq<Source>)
    requires ss != []
    ensures ExplicitAll(ss) != [] && ExplicitAll(ss)[0] == Explicit(ss[0]) && ExplicitAll(ss)[1..] == ExplicitAll(ss[1..])
  {
    hide Explicit;
  }

  lemma UnfoldTrees(ss: seq<Source>, n: nat)
    requires ss != []
    ensures TreeAll(ss, n) == [Tree(ss[0], n)] + TreeAll(ss[1..], n + Functions(ss[0]))
    ensures FunctionsIn(ss) == Functions(ss[0]) + FunctionsIn(ss[1..])
  {
    hide Tree, Functions;
  }

  lemma {:induction false} ExplicitTrees(ss: seq<Source>, n: nat)
    ensures TreeAll(ExplicitAll(ss), n) == TreeAll(ss, n) && FunctionsIn(ExplicitAll(ss)) == FunctionsIn(ss)
    decreases ss, 0
  {
    hide Explicit, ExplicitAll, Tree, TreeAll, Functions, FunctionsIn;
    if ss != [] {
      ExplicitTree(ss[0], n);
      ExplicitTrees(ss[1..], n + Functions(ss[0]));
      ExplicitCons(ss);
      UnfoldTrees(ss, n);
      UnfoldTrees(ExplicitAll(ss), n);
    } else {
      assert ExplicitAll(ss) == ss by { NoneExplicit(); }
    }
  }

  lemma NoneExplicit()
    ensures ExplicitAll([]) == []
  {
  }

  lemma FilledGood(items: seq<Given>)
    requires forall i :: 0 <= i < |items| ==> GoodInit(items[i].init)
    ensures forall i :: 0 <= i < |items| ==> GoodInit(FilledItems(items)[i].init)
  {
    assert Bracketed(NullLit);
    hide Bracketed;
  }

  lemma {:induction false} ExplicitWell(s: Source)
    requires Well(s)
    ensures Well(Explicit(s)) && Open(Explicit(s)) == Open(s) && Bare(Explicit(s)) == Bare(s)
    decreases s, 1
  {
    hide Bracketed, ArmFits, ExplicitAll, WellAll, FilledItems;
    match s
    case VarLine(_, init) => assert Bracketed(NullLit) by { NullBracketed(); }
    case GlobalLine(items) => FilledGood(items);
    case Braces(body) => ExplicitWells(body);
    case Loose(body) => ExplicitWells(body);
    case Function(_, _, body, _) => ExplicitWells(body);
    case Conditional(inline, _, t, None, short) =>
      ExplicitWell(t);
      ExplicitFits(inline, t, None, short);
    case Conditional(inline, _, t, Some(e), short) =>
      ExplicitWell(t);
      ExplicitWell(e);
      ExplicitFits(inline, t, Some(e), short);
    case _ =>
  }

  lemma NullBracketed()
    ensures Bracketed(NullLit)
  {
  }

  lemma ExplicitFits(inline: bool, t: Source, e: Option<Source>, short: bool)
    requires ArmFits(inline, t, e, short) && Open(Explicit(t)) == Open(t)
    ensures ArmFits(inline, Explicit(t), if e.None? then None else Some(Explicit(e.value)), short)
  {
    hide Open;
  }

  lemma {:induction false} ExplicitWells(ss: seq<Source>)
    requires WellAll(ss)
    ensures WellAll(ExplicitAll(ss)) && (ss != [] ==> Declares(ExplicitAll(ss)[0]) == Declares(ss[0]))
    ensures ss != [] ==> Open(ExplicitAll(ss)[|ss| - 1]) == Open(ss[|ss| - 1]) && Bare(ExplicitAll(ss)[|ss| - 1]) == Bare(ss[|ss| - 1])
    decreases ss, 0
  {
    hide Well, Open, Bare;
    if ss != [] {
      ExplicitWell(ss[0]);
      ExplicitWells(ss[1..]);
      assert ExplicitAll(ss)[1..] == ExplicitAll(ss[1..]);
    }
  }

  /** A variable without an initializer is one initialized with null, wherever in the script it is. */
  lemma NoInitializerIsNull(ss: seq<Source>, f: nat -> nat, eof: nat)
    requires WellAll(ss) && Rising(f) && EofFits(ss, f, eof)
    ensures ParseScript(ScriptTokens(ss, f, eof)) == ParseScript(ScriptTokens(ExplicitAll(ss), f, eof))
  {
    hide ParseScript, ScriptTokens, ExplicitAll, WellAll, Rising, HeightAll, Bare;
    ExplicitWells(ss);
    ExplicitHeights(ss);
    ScriptIsRead(ss, f, eof);
    ScriptIsRead(ExplicitAll(ss), f, eof);
    ExplicitTrees(ss, 0);
  }

  lemma {:induction false} ExplicitHeight(s: Source)
    ensures Height(Explicit(s)) == Height(s)
    decreases s, 1
  {
    match s
    case Braces(body) => ExplicitHeights(body);
    case Loose(body) => ExplicitHeights(body);
    case Function(_, _, body, _) => ExplicitHeights(body);
    case Conditional(_, _, t, None, _) => ExplicitHeight(t);
    case Conditional(_, _, t, Some(e), _) => ExplicitHeight(t); ExplicitHeight(e);
    case _ =>
  }

  lemma {:induction false} ExplicitHeights(ss: seq<Source>)
    ensures HeightAll(ExplicitAll(ss)) == HeightAll(ss)
    decreases ss, 0
  {
    hide Height, Explicit;
    if ss != [] {
      ExplicitHeight(ss[0]);
      ExplicitHeights(ss[1..]);
      ExplicitCons(ss);
    }
  }
}
