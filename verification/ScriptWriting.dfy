/** Nothing else parses: tokens that parse as a script are the tokens of one that can be written. */
module ScriptWriting {
  import opened Values
  import opened Syntax
  import opened Codegen
  import opened Pratt
  import opened PrattInverse
  import opened Grammar
  import opened Grouping
  import opened Scripts
  import ScriptReading
  import Statements

  /** The tokens of a statement, wherever they stand. */
  function Words(s: Source): seq<Kind>
    decreases s, 1
  {
    match s
    case Expression(e) => Print(e)
    case PrintLine(es) => [PrintWord] + PrintAll(es)
    case ReturnLine(None) => [ReturnWord]
    case ReturnLine(Some(e)) => [ReturnWord] + Print(e)
    case VarLine(name, init) => [VarWord, Identifier(name)] + Initializer(init)
    case GlobalLine(items) => [GlobalWord] + Items(items)
    case Braces(body) => [LBrace] + (WordsAll(body) + [RBrace])
    case Function(name, params, body, short) =>
      [Func, Identifier(name), LParen] + (Params(params) + [RParen]) + (WordsAll(body) + [if short then End else EndFunc])
    case Conditional(inline, c, t, e, short) =>
      [IfWord] + (Print(c) + [ThenWord]) + (Words(t) + (ElseWords(e) + if inline then [] else [if short then End else EndIf]))
    case Loose(body) => WordsAll(body)
  }

  function ElseWords(e: Option<Source>): seq<Kind>
    decreases e, 0
  {
    match e
    case None => []
    case Some(s) => [ElseWord] + Words(s)
  }

  function WordsAll(ss: seq<Source>): seq<Kind>
    decreases ss, 0
  {
    if ss == [] then [] else Words(ss[0]) + WordsAll(ss[1..])
  }

  /** Declarations without braces over several lines are closed by `Else` or by `EndIf`; on one line with `Then` there is one at most. */
  predicate ArmStands(inline: bool, t: Source, e: Option<Source>, short: bool) {
    (Single(t) || (t.Loose? && if inline then |t.body| <= 1 else e.Some?))
    && (e.Some? ==> Single(e.value) || (e.value.Loose? && (inline || !short)))
  }

  /** Like `Well`, but for what depends on the lines the tokens are on. */
  ghost predicate Formed(s: Source)
    decreases s, 1
  {
    match s
    case Expression(e) => Bracketed(e) && Print(e)[0] != Func
    case PrintLine(es) => es != [] && AllBracketed(es)
    case ReturnLine(e) => GoodInit(e)
    case VarLine(_, init) => GoodInit(init)
    case GlobalLine(items) => items != [] && forall i :: 0 <= i < |items| ==> GoodInit(items[i].init)
    case Braces(body) => FormedAll(body)
    case Function(_, _, body, _) => FormedAll(body)
    case Conditional(inline, c, t, e, short) => Bracketed(c) && Formed(t) && FormedElse(e) && ArmStands(inline, t, e, short)
    case Loose(body) => FormedAll(body) && (body != [] ==> Declares(body[0]))
  }

  ghost predicate FormedElse(e: Option<Source>)
    decreases e, 0
  {
    e.Some? ==> Formed(e.value)
  }

  ghost predicate FormedAll(ss: seq<Source>)
    decreases ss, 0
  {
    ss == [] || (Formed(ss[0]) && !ss[0].Loose? && FormedAll(ss[1..]))
  }

  /** The tokens `ts` are these, and then those of `rest`. */
  predicate Consumed(ts: seq<Token>, ks: seq<Kind>, rest: seq<Token>) {
    Kinds(ts) == ks + Kinds(rest)
  }

  lemma Chain(ts: seq<Token>, a: seq<Kind>, mid: seq<Token>, b: seq<Kind>, rest: seq<Token>)
    requires Consumed(ts, a, mid) && Consumed(mid, b, rest)
    ensures Consumed(ts, a + b, rest)
  {
    assert a + (b + Kinds(rest)) == a + b + Kinds(rest);
  }

  lemma One(ts: seq<Token>)
    requires ts != []
    ensures Consumed(ts, [ts[0].kind], ts[1..])
  {
    KindsCons(ts);
  }

  lemma Nothing(ts: seq<Token>)
    ensures Consumed(ts, [], ts)
  {
    assert [] + Kinds(ts) == Kinds(ts);
  }

  // Parts of a line

  lemma ExprWritten(ts: seq<Token>)
    requires ParsePrec(ts, ASSIGNMENT).Some?
    ensures var r := ParsePrec(ts, ASSIGNMENT).value; Consumed(ts, Print(r.value), r.rest) && Bracketed(r.value)
    ensures ts != [] && ts[0].kind == Print(ParsePrec(ts, ASSIGNMENT).value.value)[0]
  {
    hide ParsePrec, Print, Bracketed, Grouped, Edge, Apart;
    ParsePrints(ts, ASSIGNMENT);
    var r := ParsePrec(ts, ASSIGNMENT).value;
    BracketedIsGrouped(r.value);
    assert Kinds(ts)[0] == Print(r.value)[0];
  }

  lemma ExprsWritten(ts: seq<Token>)
    requires ParseExprs(ts).Some?
    ensures var r := ParseExprs(ts).value; r.value != [] && Consumed(ts, PrintAll(r.value), r.rest) && AllBracketed(r.value)
  {
    hide ParseExprs, PrintAll, AllGrouped, AllBracketed;
    ExprsPrint(ts);
    AllBracketedIsGrouped(ParseExprs(ts).value.value);
  }

  lemma InitWritten(ts: seq<Token>, line: nat) returns (init: Option<Expr>)
    requires ParseInit(ts, line).Some?
    ensures var r := ParseInit(ts, line).value; Consumed(ts, Initializer(init), r.rest) && Start(init) == r.value && GoodInit(init)
  {
    hide ParsePrec, Print, Bracketed, Kinds;
    if Starts(ts, Equal) {
      var r := ParsePrec(ts[1..], ASSIGNMENT).value;
      ExprWritten(ts[1..]);
      One(ts);
      Chain(ts, [Equal], ts[1..], Print(r.value), r.rest);
      init := Some(r.value);
    } else {
      Nothing(ts);
      init := None;
    }
  }

  lemma {:induction false} ItemsWritten(ts: seq<Token>) returns (items: seq<Given>)
    requires ParseItems(ts).Some?
    ensures
      var r := ParseItems(ts).value;
      items != [] && Consumed(ts, Items(items), r.rest) && StartAll(items) == r.value && forall i :: 0 <= i < |items| ==> GoodInit(items[i].init)
    decreases |ts|
  {
    hide ParseInit, Initializer, GoodInit, Consumed, Start;
    var id := ParseIdent(ts).value;
    var e := ParseInit(id.rest, id.line).value;
    var init := InitWritten(id.rest, id.line);
    One(ts);
    Chain(ts, [Identifier(id.value)], id.rest, Initializer(init), e.rest);
    var it := Given(id.value, init);
    if Starts(e.rest, Comma) {
      var more := ItemsWritten(e.rest[1..]);
      var r := ParseItems(e.rest[1..]).value;
      One(e.rest);
      Chain(e.rest, [Comma], e.rest[1..], Items(more), r.rest);
      Chain(ts, [Identifier(id.value)] + Initializer(init), e.rest, [Comma] + Items(more), r.rest);
      items := [it] + more;
      assert items[1..] == more;
      assert [Identifier(id.value)] + Initializer(init) + ([Comma] + Items(more)) == Items(items);
    } else {
      items := [it];
      assert items[1..] == [] && StartAll([]) == [];
    }
  }

  lemma {:induction false} ParamsWritten(ts: seq<Token>)
    requires ParseParams(ts).Some?
    ensures var r := ParseParams(ts).value; r.value != [] && Consumed(ts, Params(r.value), r.rest)
    decreases |ts|
  {
    hide Consumed;
    var id := ParseIdent(ts).value;
    One(ts);
    if Starts(id.rest, Comma) {
      var r := ParseParams(id.rest[1..]).value;
      ParamsWritten(id.rest[1..]);
      One(id.rest);
      Chain(ts, [Identifier(id.value)], id.rest, [Comma], id.rest[1..]);
      Chain(ts, [Identifier(id.value)] + [Comma], id.rest[1..], Params(r.value), r.rest);
      assert ([id.value] + r.value)[1..] == r.value;
      assert [Identifier(id.value)] + [Comma] == [Identifier(id.value), Comma];
    }
  }

  lemma ParamListWritten(ts: seq<Token>)
    requires ParseParamList(ts).Some?
    ensures var r := ParseParamList(ts).value; Consumed(ts, Params(r.value) + [RParen], r.rest)
  {
    hide Consumed, ParseParams;
    if Starts(ts, RParen) {
      One(ts);
      assert Params([]) + [RParen] == [RParen];
    } else {
      ParamsWritten(ts);
      var r := ParseParams(ts).value;
      One(r.rest);
      Chain(ts, Params(r.value), r.rest, [RParen], r.rest[1..]);
    }
  }

  // Statements, given what is inside them

  lemma PrintWritten(ts: seq<Token>, place: Place, line: nat, n: nat) returns (s: Source)
    requires Starts(ts, PrintWord) && ParseStmt(ts, place, line, n).Some?
    ensures var r := ParseStmt(ts, place, line, n).value; s.PrintLine? && Formed(s) && Consumed(ts, Words(s), r.rest) && Tree(s, n) == r.value
  {
    hide ParseStmt, ParseExprs, Consumed, PrintAll;
    Statements.StmtParses(ts, place, line, n);
    ExprsWritten(ts[1..]);
    var r := ParseExprs(ts[1..]).value;
    One(ts);
    Chain(ts, [PrintWord], ts[1..], PrintAll(r.value), r.rest);
    s := PrintLine(r.value);
  }

  lemma ReturnWritten(ts: seq<Token>, place: Place, line: nat, n: nat) returns (s: Source)
    requires Starts(ts, ReturnWord) && ParseStmt(ts, place, line, n).Some?
    ensures var r := ParseStmt(ts, place, line, n).value; s.ReturnLine? && Formed(s) && Consumed(ts, Words(s), r.rest) && Tree(s, n) == r.value
  {
    hide ParseStmt, ParsePrec, Consumed, Print, Bracketed;
    Statements.StmtParses(ts, place, line, n);
    One(ts);
    var k := Kind0(ts[1..]);
    if k.RBrace? || k.End? || k.EndFunc? || NewLine(ts[1..], ts[0].line) {
      s := ReturnLine(None);
    } else {
      ExprWritten(ts[1..]);
      var r := ParsePrec(ts[1..], ASSIGNMENT).value;
      Chain(ts, [ReturnWord], ts[1..], Print(r.value), r.rest);
      s := ReturnLine(Some(r.value));
    }
  }

  lemma ExpressionWritten(ts: seq<Token>, line: nat, n: nat) returns (s: Source)
    requires ParseOther(ts, Plain, line, n).Some? && !Starts(ts, Func)
    ensures var r := ParseOther(ts, Plain, line, n).value; s.Expression? && Formed(s) && Consumed(ts, Words(s), r.rest) && Tree(s, n) == r.value
  {
    hide ParsePrec, Consumed, Print, Bracketed;
    ExprWritten(ts);
    s := Expression(ParsePrec(ts, ASSIGNMENT).value.value);
  }

  lemma VarWritten(ts: seq<Token>, n: nat) returns (s: Source)
    requires Starts(ts, VarWord) && ParseKeyword(ts, n).Some?
    ensures var r := ParseKeyword(ts, n).value; s.VarLine? && Formed(s) && Consumed(ts, Words(s), r.rest) && Tree(s, n) == r.value
  {
    hide ParseInit, Consumed, Initializer, GoodInit, Start;
    var id := ParseIdent(ts[1..]).value;
    var init := InitWritten(id.rest, id.line);
    One(ts);
    One(ts[1..]);
    Chain(ts, [VarWord], ts[1..], [Identifier(id.value)], id.rest);
    Chain(ts, [VarWord] + [Identifier(id.value)], id.rest, Initializer(init), ParseInit(id.rest, id.line).value.rest);
    assert [VarWord] + [Identifier(id.value)] == [VarWord, Identifier(id.value)];
    s := VarLine(id.value, init);
  }

  lemma GlobalWritten(ts: seq<Token>, n: nat) returns (s: Source)
    requires Starts(ts, GlobalWord) && ParseKeyword(ts, n).Some?
    ensures var r := ParseKeyword(ts, n).value; s.GlobalLine? && Formed(s) && Consumed(ts, Words(s), r.rest) && Tree(s, n) == r.value
  {
    hide ParseItems, Consumed, Items, GoodInit, StartAll;
    var items := ItemsWritten(ts[1..]);
    One(ts);
    Chain(ts, [GlobalWord], ts[1..], Items(items), ParseItems(ts[1..]).value.rest);
    s := GlobalLine(items);
  }

  /** The head of a function declaration, up to its body. */
  lemma HeadWritten(ts: seq<Token>, n: nat) returns (name: Ident, ps: seq<Ident>, inner: seq<Token>, line: nat)
    requires Starts(ts, Func) && ParseKeyword(ts, n).Some?
    ensures |inner| < |ts| && Consumed(ts, [Func, Identifier(name), LParen] + (Params(ps) + [RParen]), inner)
    ensures
      var body := ParseDecls(inner, ByEnd, line, n);
      body.Some? && ParseKeyword(ts, n) == ExpectEnd(FunDecl(name, n + |FunsOfAll(body.value.value)|, ps, body.value.value), body.value.rest, EndFunc)
  {
    hide ParseParamList, ParseDecls, FunsOfAll, Consumed, ExpectEnd;
    var id := ParseIdent(ts[1..]).value;
    var open := id.rest;
    assert Starts(open, LParen);
    var list := ParseParamList(open[1..]).value;
    name, ps, inner, line := id.value, list.value, list.rest, list.line;
    One(ts);
    One(ts[1..]);
    One(open);
    ParamListWritten(open[1..]);
    Chain(ts, [Func], ts[1..], [Identifier(name)], open);
    Chain(ts, [Func] + [Identifier(name)], open, [LParen], open[1..]);
    Chain(ts, [Func] + [Identifier(name)] + [LParen], open[1..], Params(ps) + [RParen], inner);
    assert [Func] + [Identifier(name)] + [LParen] == [Func, Identifier(name), LParen];
  }

  /** The word that closes a construct. */
  lemma ClosedBy<T>(v: T, ts: seq<Token>, k: Kind) returns (short: bool)
    requires ExpectEnd(v, ts, k).Some?
    ensures ts != [] && ExpectEnd(v, ts, k).value.value == v && Consumed(ts, [if short then End else k], ExpectEnd(v, ts, k).value.rest)
    ensures ts[0].kind == if short then End else k
  {
    One(ts);
    short := ts[0].kind.End?;
  }

  lemma NestedWritten(ts: seq<Token>, n: nat, name: Ident, ps: seq<Ident>, inner: seq<Token>, line: nat, body: seq<Source>) returns (s: Source)
    requires ParseKeyword(ts, n).Some? && Consumed(ts, [Func, Identifier(name), LParen] + (Params(ps) + [RParen]), inner)
    requires ParseDecls(inner, ByEnd, line, n).Some? && FormedAll(body)
    requires
      var b := ParseDecls(inner, ByEnd, line, n).value;
      Consumed(inner, WordsAll(body), b.rest) && TreeAll(body, n) == b.value
      && ParseKeyword(ts, n) == ExpectEnd(FunDecl(name, n + |FunsOfAll(b.value)|, ps, b.value), b.rest, EndFunc)
    ensures var r := ParseKeyword(ts, n).value; s.Function? && Formed(s) && Consumed(ts, Words(s), r.rest) && Tree(s, n) == r.value
  {
    hide ParseKeyword, ParseDecls, FunsOfAll, Consumed, ExpectEnd, WordsAll, FormedAll, TreeAll, Params;
    var b := ParseDecls(inner, ByEnd, line, n).value;
    CountedAll(body, n);
    var short := ClosedBy(FunDecl(name, n + |FunsOfAll(b.value)|, ps, b.value), b.rest, EndFunc);
    var r := ParseKeyword(ts, n).value;
    Chain(inner, WordsAll(body), b.rest, [if short then End else EndFunc], r.rest);
    Chain(ts, [Func, Identifier(name), LParen] + (Params(ps) + [RParen]), inner, WordsAll(body) + [if short then End else EndFunc], r.rest);
    s := Function(name, ps, body, short);
  }

  lemma BlockWritten(ts: seq<Token>, place: Place, line: nat, n: nat, body: seq<Source>) returns (s: Source)
    requires Starts(ts, LBrace) && ParseStmt(ts, place, line, n).Some? && FormedAll(body)
    requires ParseDecls(ts[1..], ByBrace, ts[0].line, n).Some?
    requires
      var b := ParseDecls(ts[1..], ByBrace, ts[0].line, n).value;
      Consumed(ts[1..], WordsAll(body), b.rest) && TreeAll(body, n) == b.value
    ensures var r := ParseStmt(ts, place, line, n).value; s.Braces? && Formed(s) && Consumed(ts, Words(s), r.rest) && Tree(s, n) == r.value
  {
    hide ParseDecls, Consumed, WordsAll, FormedAll, TreeAll;
    var b := ParseDecls(ts[1..], ByBrace, ts[0].line, n).value;
    assert Starts(b.rest, RBrace);
    One(ts);
    One(b.rest);
    Chain(ts[1..], WordsAll(body), b.rest, [RBrace], b.rest[1..]);
    Chain(ts, [LBrace], ts[1..], WordsAll(body) + [RBrace], b.rest[1..]);
    s := Braces(body);
  }

  // Conditionals

  /** How an arm made of declarations without braces came to its end. */
  predicate LooseEnds(ts: seq<Token>, place: Place, line: nat, body: seq<Source>, rest: seq<Token>) {
    match place
    case Plain => false
    case AfterThen => if Kind0(ts) != Eof && ts[0].line == line then |body| == 1 else Closes(ByElse, Kind0(rest)) && (Kind0(ts) == Eof ==> body == [])
    case AfterElse => Closes(ByEndIf, Kind0(rest))
  }

  predicate ArmWords(s: Source, ts: seq<Token>, place: Place, line: nat, rest: seq<Token>) {
    Single(s) || (if place.Plain? then s.Expression? else s.Loose? && LooseEnds(ts, place, line, s.body, rest))
  }

  /** The parts of a conditional: the condition, the two arms and what closes it. */
  lemma IfParts(ts: seq<Token>, n: nat) returns (c: Parsed<Expr>, arm: seq<Token>, x: nat, t: Parsed<Stmt>, e: Parsed<Stmt>)
    requires ParseIf(ts, n).Some?
    ensures ParsePrec(ts, ASSIGNMENT) == Some(c) && Starts(c.rest, ThenWord) && arm == c.rest[1..] && x == c.rest[0].line && |arm| < |ts|
    ensures ParseStmt(arm, AfterThen, x, n) == Some(t) && |t.rest| <= |arm| && ParseElse(t.rest, t.line, n + |FunsOf(t.value)|) == Some(e)
    ensures
      var s := If(c.value, t.value, e.value);
      ParseIf(ts, n) == if arm != [] && arm[0].line == x then Some(Parsed(s, e.rest, e.line)) else ExpectEnd(s, e.rest, EndIf)
  {
    hide ParsePrec, ParseStmt, ParseElse, FunsOf, ExpectEnd;
    c := ParsePrec(ts, ASSIGNMENT).value;
    arm, x := c.rest[1..], c.rest[0].line;
    t := ParseStmt(arm, AfterThen, x, n).value;
    e := ParseElse(t.rest, t.line, n + |FunsOf(t.value)|).value;
  }

  /** An arm over several lines cannot end with the file. */
  lemma ArmsStand(inline: bool, arm: seq<Token>, x: nat, t: Source, other: seq<Token>, e: Option<Source>, close: seq<Token>, k: Kind)
    requires inline == (arm != [] && arm[0].line == x)
    requires ArmWords(t, arm, AfterThen, x, other) && Starts(other, ElseWord) == e.Some? && (e.None? ==> close == other)
    requires e.Some? ==> Single(e.value) || (e.value.Loose? && Closes(ByEndIf, Kind0(close)))
    requires !inline ==> Starts(close, k) && (k == End || k == EndIf)
    ensures ArmStands(inline, t, e, k == End)
  {
  }

  lemma IfWords(ts: seq<Token>, c: Expr, then_: seq<Token>, arm: seq<Token>, t: Source, other: seq<Token>, e: Option<Source>, close: seq<Token>, word: seq<Kind>, rest: seq<Token>)
    requires Starts(ts, IfWord) && Consumed(ts[1..], Print(c), then_) && Starts(then_, ThenWord) && arm == then_[1..]
    requires Consumed(arm, Words(t), other) && Consumed(other, ElseWords(e), close) && Consumed(close, word, rest)
    ensures Consumed(ts, [IfWord] + (Print(c) + [ThenWord]) + (Words(t) + (ElseWords(e) + word)), rest)
  {
    hide Consumed, Print, Words, ElseWords;
    One(ts);
    One(then_);
    Chain(ts[1..], Print(c), then_, [ThenWord], arm);
    Chain(ts, [IfWord], ts[1..], Print(c) + [ThenWord], arm);
    Chain(other, ElseWords(e), close, word, rest);
    Chain(arm, Words(t), other, ElseWords(e) + word, rest);
    Chain(ts, [IfWord] + (Print(c) + [ThenWord]), arm, Words(t) + (ElseWords(e) + word), rest);
  }

  /** A conditional from its arms. */
  lemma IfMade(ts: seq<Token>, n: nat, c: Parsed<Expr>, arm: seq<Token>, x: nat, t: Source, t': Parsed<Stmt>, e: Option<Source>, e': Parsed<Stmt>) returns (s: Source)
    requires ts != [] && Starts(ts, IfWord) && ParseIf(ts[1..], n).Some? && ParsePrec(ts[1..], ASSIGNMENT) == Some(c)
    requires Starts(c.rest, ThenWord) && arm == c.rest[1..] && x == c.rest[0].line
    requires Formed(t) && Consumed(arm, Words(t), t'.rest) && Tree(t, n) == t'.value && ArmWords(t, arm, AfterThen, x, t'.rest)
    requires FormedElse(e) && Consumed(t'.rest, ElseWords(e), e'.rest) && e'.value == (if e.None? then Block([]) else Tree(e.value, n + Functions(t)))
    requires Starts(t'.rest, ElseWord) == e.Some? && (e.None? ==> e'.rest == t'.rest)
    requires e.Some? ==> Single(e.value) || (e.value.Loose? && Closes(ByEndIf, Kind0(e'.rest)))
    requires
      var s' := If(c.value, t'.value, e'.value);
      ParseIf(ts[1..], n) == if arm != [] && arm[0].line == x then Some(Parsed(s', e'.rest, e'.line)) else ExpectEnd(s', e'.rest, EndIf)
    ensures var r := ParseIf(ts[1..], n).value; s.Conditional? && Formed(s) && Consumed(ts, Words(s), r.rest) && Tree(s, n) == r.value
  {
    hide *;
    ExprWritten(ts[1..]);
    var inline, short, word := IfCloses(arm, x, t, t'.rest, e, e'.rest, If(c.value, t'.value, e'.value), ParseIf(ts[1..], n).value);
    IfWords(ts, c.value, c.rest, arm, t, t'.rest, e, e'.rest, word, ParseIf(ts[1..], n).value.rest);
    s := Conditional(inline, c.value, t, e, short);
    IfFormed(s, n, word);
  }

  /** What closes it: nothing on one line with `Then`, and otherwise one of two words. */
  lemma IfCloses(arm: seq<Token>, x: nat, t: Source, other: seq<Token>, e: Option<Source>, close: seq<Token>, v: Stmt, r: Parsed<Stmt>)
    returns (inline: bool, short: bool, word: seq<Kind>)
    requires ArmWords(t, arm, AfterThen, x, other) && Starts(other, ElseWord) == e.Some? && (e.None? ==> close == other)
    requires e.Some? ==> Single(e.value) || (e.value.Loose? && Closes(ByEndIf, Kind0(close)))
    requires if arm != [] && arm[0].line == x then r.value == v && r.rest == close else ExpectEnd(v, close, EndIf) == Some(r)
    ensures r.value == v && Consumed(close, word, r.rest) && ArmStands(inline, t, e, short)
    ensures word == if inline then [] else [if short then End else EndIf]
  {
    hide ArmWords, ArmStands, Consumed, Closes, ExpectEnd;
    inline := arm != [] && arm[0].line == x;
    if inline {
      short, word := false, [];
      Nothing(close);
      ArmsStand(inline, arm, x, t, other, e, close, EndIf);
    } else {
      short := ClosedBy(v, close, EndIf);
      word := [if short then End else EndIf];
      ArmsStand(inline, arm, x, t, other, e, close, if short then End else EndIf);
    }
  }

  lemma IfFormed(s: Source, n: nat, word: seq<Kind>)
    requires s.Conditional? && Bracketed(s.cond) && Formed(s.thn) && FormedElse(s.els) && ArmStands(s.inline, s.thn, s.els, s.short)
    requires word == if s.inline then [] else [if s.short then End else EndIf]
    ensures Formed(s)
    ensures Words(s) == [IfWord] + (Print(s.cond) + [ThenWord]) + (Words(s.thn) + (ElseWords(s.els) + word))
    ensures Tree(s, n) == If(s.cond, Tree(s.thn, n), if s.els.None? then Block([]) else Tree(s.els.value, n + Functions(s.thn)))
  {
    hide Print, ElseWords, Bracketed, FormedElse, ArmStands, Functions;
  }

  // Statements

  lemma {:induction false} StmtWritten(ts: seq<Token>, place: Place, line: nat, n: nat) returns (s: Source)
    requires ParseStmt(ts, place, line, n).Some? && (place.Plain? ==> !Keyword(Kind0(ts)))
    ensures
      var r := ParseStmt(ts, place, line, n).value;
      Formed(s) && Consumed(ts, Words(s), r.rest) && Tree(s, n) == r.value && ArmWords(s, ts, place, line, r.rest)
    decreases |ts|, 4
  {
    hide ParseStmt, ParseIf, ParseDecls, ParseOther, Consumed, Words, Formed, FormedAll, Tree, TreeAll, WordsAll, LooseEnds;
    Statements.StmtParses(ts, place, line, n);
    if Starts(ts, PrintWord) { s := PrintWritten(ts, place, line, n); }
    else if Starts(ts, ReturnWord) { s := ReturnWritten(ts, place, line, n); }
    else if Starts(ts, LBrace) {
      BlockParsed(ts, place, line, n);
      var body := DeclsWritten(ts[1..], ByBrace, ts[0].line, n);
      s := BlockWritten(ts, place, line, n, body);
    }
    else if Starts(ts, IfWord) { s := IfWritten(ts, n); }
    else { s := OtherWritten(ts, place, line, n); }
  }

  lemma BlockParsed(ts: seq<Token>, place: Place, line: nat, n: nat)
    requires Starts(ts, LBrace) && ParseStmt(ts, place, line, n).Some?
    ensures ParseDecls(ts[1..], ByBrace, ts[0].line, n).Some?
  {
    hide ParseDecls;
  }

  lemma {:induction false} IfWritten(ts: seq<Token>, n: nat) returns (s: Source)
    requires ts != [] && Starts(ts, IfWord) && ParseIf(ts[1..], n).Some?
    ensures var r := ParseIf(ts[1..], n).value; s.Conditional? && Formed(s) && Consumed(ts, Words(s), r.rest) && Tree(s, n) == r.value
    decreases |ts|, 3
  {
    hide *;
    var c, arm, x, t', e' := IfParts(ts[1..], n);
    var t := StmtWritten(arm, AfterThen, x, n);
    Counted(t, n);
    var e := ElseWritten(t'.rest, t'.line, n + Functions(t));
    s := IfMade(ts, n, c, arm, x, t, t', e, e');
  }

  lemma ElseShape(s: Source)
    ensures ElseWords(Some(s)) == [ElseWord] + Words(s) && ElseWords(None) == []
    ensures FormedElse(Some(s)) == Formed(s) && FormedElse(None)
  {
    hide Words, Formed;
  }

  lemma {:induction false} ElseWritten(ts: seq<Token>, line: nat, n: nat) returns (e: Option<Source>)
    requires ParseElse(ts, line, n).Some?
    ensures
      var r := ParseElse(ts, line, n).value;
      FormedElse(e) && Consumed(ts, ElseWords(e), r.rest) && r.value == (if e.None? then Block([]) else Tree(e.value, n))
      && Starts(ts, ElseWord) == e.Some? && (e.None? ==> r.rest == ts)
      && (e.Some? ==> Single(e.value) || (e.value.Loose? && Closes(ByEndIf, Kind0(r.rest))))
    decreases |ts|, 3
  {
    hide ParseStmt, Consumed, Words, Formed, FormedElse, Tree, ElseWords;
    if Starts(ts, ElseWord) {
      var s := StmtWritten(ts[1..], AfterElse, ts[0].line, n);
      ElseShape(s);
      One(ts);
      Chain(ts, [ElseWord], ts[1..], Words(s), ParseStmt(ts[1..], AfterElse, ts[0].line, n).value.rest);
      e := Some(s);
    } else {
      Nothing(ts);
      ElseShape(Expression(NullLit));
      e := None;
    }
  }

  lemma LooseForm(body: seq<Source>, n: nat)
    ensures Words(Loose(body)) == WordsAll(body) && Tree(Loose(body), n) == Block(TreeAll(body, n))
    ensures Formed(Loose(body)) <==> FormedAll(body) && (body != [] ==> Declares(body[0]))
  {
    hide WordsAll, TreeAll, FormedAll;
  }

  lemma OneForm(d: Source, n: nat)
    requires Formed(d) && !d.Loose?
    ensures WordsAll([d]) == Words(d) && TreeAll([d], n) == [Tree(d, n)] && FormedAll([d])
  {
    hide Words, Tree, Formed;
    assert [d][1..] == [] && WordsAll([]) == [] && FormedAll([]) && forall m :: TreeAll([], m) == [];
    assert Words(d) + [] == Words(d);
  }

  lemma {:induction false} OtherWritten(ts: seq<Token>, place: Place, line: nat, n: nat) returns (s: Source)
    requires ParseOther(ts, place, line, n).Some? && (place.Plain? ==> !Keyword(Kind0(ts)))
    ensures
      var r := ParseOther(ts, place, line, n).value;
      Formed(s) && Consumed(ts, Words(s), r.rest) && Tree(s, n) == r.value && ArmWords(s, ts, place, line, r.rest)
    decreases |ts|, 3
  {
    hide ParseInline, ParseArm, ParsePrec, ParseKeyword, Consumed, Words, Formed, FormedAll, Tree, TreeAll, WordsAll;
    match place {
      case Plain => s := ExpressionWritten(ts, line, n);
      case AfterElse =>
        var body := ArmWritten(ts, ByEndIf, line, n);
        LooseForm(body, n);
        s := Loose(body);
      case AfterThen =>
        InlineParsed(ts, line, n);
        if Kind0(ts) != Eof && ts[0].line == line {
          var d := KeywordWritten(ts, n);
          OneForm(d, n);
          LooseForm([d], n);
          s := Loose([d]);
        } else {
          var body := ArmWritten(ts, ByElse, line, n);
          LooseForm(body, n);
          s := Loose(body);
        }
    }
  }

  lemma InlineParsed(ts: seq<Token>, line: nat, n: nat)
    requires ParseInline(ts, line, n).Some?
    ensures if Kind0(ts) != Eof && ts[0].line == line
      then ParseKeyword(ts, n).Some? && ParseInline(ts, line, n).value.value == [ParseKeyword(ts, n).value.value]
           && ParseInline(ts, line, n).value.rest == ParseKeyword(ts, n).value.rest
      else ParseInline(ts, line, n) == ParseArm(ts, ByElse, line, n)
  {
    hide ParseKeyword, ParseArm;
  }

  lemma {:induction false} KeywordWritten(ts: seq<Token>, n: nat) returns (s: Source)
    requires ParseKeyword(ts, n).Some?
    ensures var r := ParseKeyword(ts, n).value; Declares(s) && Formed(s) && Consumed(ts, Words(s), r.rest) && Tree(s, n) == r.value
    decreases |ts|, 0
  {
    hide ParseKeyword, ParseDecls, Consumed, Words, Formed, FormedAll, Tree, TreeAll, WordsAll;
    ThreeKeywords(ts, n);
    if Starts(ts, VarWord) { s := VarWritten(ts, n); }
    else if Starts(ts, GlobalWord) { s := GlobalWritten(ts, n); }
    else {
      var name, ps, inner, line := HeadWritten(ts, n);
      var body := DeclsWritten(inner, ByEnd, line, n);
      s := NestedWritten(ts, n, name, ps, inner, line, body);
    }
  }

  lemma ThreeKeywords(ts: seq<Token>, n: nat)
    requires ParseKeyword(ts, n).Some?
    ensures Starts(ts, Func) || Starts(ts, VarWord) || Starts(ts, GlobalWord)
  {
  }

  lemma ConsForm(s: Source, ss: seq<Source>, n: nat)
    ensures WordsAll([s] + ss) == Words(s) + WordsAll(ss) && TreeAll([s] + ss, n) == [Tree(s, n)] + TreeAll(ss, n + Functions(s))
    ensures Formed(s) && !s.Loose? && FormedAll(ss) ==> FormedAll([s] + ss)
  {
    hide Words, Tree, Formed, Functions;
    assert ([s] + ss)[1..] == ss;
  }

  lemma NoneForm(n: nat)
    ensures WordsAll([]) == [] && TreeAll([], n) == [] && FormedAll([])
  {
  }

  lemma {:induction false} DeclWritten(ts: seq<Token>, line: nat, n: nat) returns (s: Source)
    requires ParseDecl(ts, line, n).Some?
    ensures var r := ParseDecl(ts, line, n).value; !s.Loose? && Formed(s) && Consumed(ts, Words(s), r.rest) && Tree(s, n) == r.value
    decreases |ts|, 5
  {
    hide ParseKeyword, ParseStmt, Consumed, Words, Formed, Tree;
    if Keyword(Kind0(ts)) { s := KeywordWritten(ts, n); } else { s := StmtWritten(ts, Plain, line, n); }
  }

  lemma {:induction false} DeclsWritten(ts: seq<Token>, c: Closer, line: nat, n: nat) returns (ss: seq<Source>)
    requires ParseDecls(ts, c, line, n).Some?
    ensures var r := ParseDecls(ts, c, line, n).value; FormedAll(ss) && Consumed(ts, WordsAll(ss), r.rest) && TreeAll(ss, n) == r.value
    decreases |ts|, 6
  {
    hide ParseDecls, ParseDecl, Consumed, Words, WordsAll, Formed, FormedAll, Tree, TreeAll, Functions, FunsOf, Closes;
    if Closes(c, Kind0(ts)) {
      DeclsEnd(ts, c, line, n);
      Nothing(ts);
      NoneForm(n);
      ss := [];
    } else {
      var s', more := UnfoldDecls(ts, c, line, n);
      var s := DeclWritten(ts, line, n);
      Counted(s, n);
      var rest := DeclsWritten(s'.rest, c, s'.line, n + Functions(s));
      ConsForm(s, rest, n);
      Chain(ts, Words(s), s'.rest, WordsAll(rest), more.rest);
      ss := [s] + rest;
    }
  }

  lemma DeclsEnd(ts: seq<Token>, c: Closer, line: nat, n: nat)
    requires Closes(c, Kind0(ts))
    ensures ParseDecls(ts, c, line, n) == ParseArm(ts, c, line, n) == Some(Parsed([], ts, line))
  {
    hide Closes;
  }

  lemma {:induction false} ArmWritten(ts: seq<Token>, c: Closer, line: nat, n: nat) returns (ss: seq<Source>)
    requires ParseArm(ts, c, line, n).Some?
    ensures
      var r := ParseArm(ts, c, line, n).value;
      FormedAll(ss) && (ss != [] ==> Declares(ss[0])) && Consumed(ts, WordsAll(ss), r.rest) && TreeAll(ss, n) == r.value
      && Closes(c, Kind0(r.rest)) && (Closes(c, Kind0(ts)) ==> ss == [])
    decreases |ts|, 1
  {
    hide ParseArm, ParseDecls, ParseKeyword, Consumed, Words, WordsAll, Formed, FormedAll, Tree, TreeAll, Functions, FunsOf, Closes;
    if Closes(c, Kind0(ts)) {
      DeclsEnd(ts, c, line, n);
      Nothing(ts);
      NoneForm(n);
      ss := [];
    } else {
      var s', more := UnfoldArm(ts, c, line, n);
      var s := KeywordWritten(ts, n);
      Counted(s, n);
      var rest := DeclsWritten(s'.rest, c, s'.line, n + Functions(s));
      ConsForm(s, rest, n);
      Chain(ts, Words(s), s'.rest, WordsAll(rest), more.rest);
      ss := [s] + rest;
    }
  }

  /** Whatever parses as a script has the tokens of one that can be written, up to the end of the file, and is what that one stands for. */
  lemma ScriptIsWritten(ts: seq<Token>) returns (ss: seq<Source>, rest: seq<Token>)
    requires ParseScript(ts).Some?
    ensures FormedAll(ss) && ParseScript(ts) == Some(TreeAll(ss, 0))
    ensures Kinds(ts) == WordsAll(ss) + Kinds(rest) && (rest == [] || rest[0].kind == Eof)
  {
    hide ParseDecls, WordsAll, FormedAll, TreeAll, Kinds;
    ss := DeclsWritten(ts, ByEof, 0, 0);
    rest := ParseDecls(ts, ByEof, 0, 0).value.rest;
  }

  // The two ways to write a script agree

  lemma KindsAppend(a: seq<Token>, b: seq<Token>)
    ensures Kinds(a + b) == Kinds(a) + Kinds(b)
  {
  }

  lemma KindsOnLine(ks: seq<Kind>, x: nat)
    ensures Kinds(OnLine(ks, x)) == ks && forall k: Kind :: Kinds(Tok(k, x)) == [k]
  {
  }

  /** Leaving out where the tokens stand leaves the words. */
  lemma {:induction false} TokensAreWords(s: Source, l: nat, f: nat -> nat)
    ensures Kinds(Tokens(s, l, f)) == Words(s)
    decreases s, 1
  {
    hide Kinds, OnLine, TokensAll, WordsAll, ElseTokens, ElseWords, Print, PrintAll, Params, Items, Initializer, HeightAll, Height;
    match s
    case Expression(e) => KindsOnLine(Print(e), f(l));
    case PrintLine(es) => KindsOnLine([PrintWord] + PrintAll(es), f(l));
    case ReturnLine(None) => KindsOnLine([ReturnWord], f(l));
    case ReturnLine(Some(e)) => KindsOnLine([ReturnWord] + Print(e), f(l));
    case VarLine(name, init) => KindsOnLine([VarWord, Identifier(name)] + Initializer(init), f(l));
    case GlobalLine(items) => KindsOnLine([GlobalWord] + Items(items), f(l));
    case Loose(body) => AllAreWords(body, l, f);
    case Braces(body) =>
      AllAreWords(body, l + 1, f);
      var y := f(l + 1 + HeightAll(body));
      KindsOnLine([], f(l));
      KindsOnLine([], y);
      KindsAppend(TokensAll(body, l + 1, f), Tok(RBrace, y));
      KindsAppend(Tok(LBrace, f(l)), TokensAll(body, l + 1, f) + Tok(RBrace, y));
    case Function(name, ps, body, short) => NestedAreWords(s, l, f);
    case Conditional(_, _, _, _, _) => ConditionalIsWords(s, l, f);
  }

  lemma {:induction false} NestedAreWords(s: Source, l: nat, f: nat -> nat)
    requires s.Function?
    ensures Kinds(Tokens(s, l, f)) == Words(s)
    decreases s, 0
  {
    hide Kinds, OnLine, TokensAll, WordsAll, Params, HeightAll;
    AllAreWords(s.body, l + 1, f);
    var y, k := f(l + 1 + HeightAll(s.body)), if s.short then End else EndFunc;
    var head := [Func, Identifier(s.name), LParen] + (Params(s.params) + [RParen]);
    KindsOnLine(head, f(l));
    KindsOnLine([], y);
    KindsAppend(TokensAll(s.body, l + 1, f), Tok(k, y));
    KindsAppend(OnLine(head, f(l)), TokensAll(s.body, l + 1, f) + Tok(k, y));
  }

  lemma {:induction false} ConditionalIsWords(s: Source, l: nat, f: nat -> nat)
    requires s.Conditional?
    ensures Kinds(Tokens(s, l, f)) == Words(s)
    decreases s, 0
  {
    hide Kinds, OnLine, ElseTokens, ElseWords, Print, ElseHeight, Tokens, Height, Words;
    ScriptReading.ConditionalTokens(s, l, f);
    var m := if s.inline then l else l + 1;
    var k := m + Height(s.thn);
    var y := f(k + ElseHeight(s.els));
    var close := if s.inline then [] else Tok(if s.short then End else EndIf, y);
    var word := if s.inline then [] else [if s.short then End else EndIf];
    var head := [IfWord] + (Print(s.cond) + [ThenWord]);
    KindsOnLine(head, f(l));
    KindsOnLine([], y);
    assert Kinds(close) == word by { if s.inline { OnLineNone(y); } }
    TokensAreWords(s.thn, m, f);
    if s.els.Some? {
      TokensAreWords(s.els.value, k + 1, f);
      ElseIsWords(s.els.value, k, f);
    } else { NoElseIsWords(k, f); }
    KindsAppend(ElseTokens(s.els, k, f), close);
    KindsAppend(Tokens(s.thn, m, f), ElseTokens(s.els, k, f) + close);
    KindsAppend(OnLine(head, f(l)), Tokens(s.thn, m, f) + (ElseTokens(s.els, k, f) + close));
    ConditionalWords(s, word);
  }

  lemma ConditionalWords(s: Source, word: seq<Kind>)
    requires s.Conditional? && word == if s.inline then [] else [if s.short then End else EndIf]
    ensures Words(s) == [IfWord] + (Print(s.cond) + [ThenWord]) + (Words(s.thn) + (ElseWords(s.els) + word))
  {
    hide Print, ElseWords;
  }

  lemma ElseIsWords(e: Source, k: nat, f: nat -> nat)
    requires Kinds(Tokens(e, k + 1, f)) == Words(e)
    ensures Kinds(ElseTokens(Some(e), k, f)) == ElseWords(Some(e))
  {
    hide Kinds, Tokens, Words;
    KindsOnLine([], f(k));
    KindsAppend(Tok(ElseWord, f(k)), Tokens(e, k + 1, f));
  }

  lemma NoElseIsWords(k: nat, f: nat -> nat)
    ensures Kinds(ElseTokens(None, k, f)) == ElseWords(None)
  {
  }

  lemma {:induction false} AllAreWords(ss: seq<Source>, l: nat, f: nat -> nat)
    ensures Kinds(TokensAll(ss, l, f)) == WordsAll(ss)
    decreases ss, 0
  {
    hide Tokens, Words, Height;
    if ss != [] {
      TokensAreWords(ss[0], l, f);
      AllAreWords(ss[1..], l + Height(ss[0]), f);
      KindsAppend(Tokens(ss[0], l, f), TokensAll(ss[1..], l + Height(ss[0]), f));
    }
  }

  /** What can be written is formed. */
  lemma {:induction false} WellIsFormed(s: Source)
    requires Well(s)
    ensures Formed(s)
    decreases s, 1
  {
    hide Bracketed, AllBracketed, Print, Open;
    match s
    case Braces(body) => WellAreFormed(body);
    case Function(_, _, body, _) => WellAreFormed(body);
    case Loose(body) => WellAreFormed(body);
    case Conditional(_, _, t, None, _) => WellIsFormed(t);
    case Conditional(_, _, t, Some(e), _) => WellIsFormed(t); WellIsFormed(e);
    case _ =>
  }

  lemma {:induction false} WellAreFormed(ss: seq<Source>)
    requires WellAll(ss)
    ensures FormedAll(ss)
    decreases ss, 0
  {
    hide Well, Formed;
    if ss != [] {
      WellIsFormed(ss[0]);
      WellAreFormed(ss[1..]);
    }
  }
}
