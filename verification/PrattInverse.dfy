/**
 Parsing and printing are inverse: printing a properly parenthesised expression and
 parsing the tokens gives it back, and whatever is parsed prints as the tokens consumed.
 */
module PrattInverse {
  import opened Values
  import opened Syntax
  import opened Pratt
  import opened PrattRules

  /** The check `parsePrecedence` makes after its loop. */
  function After(r: Option<Parsed<Expr>>, p: nat): Option<Parsed<Expr>> {
    if r.Some? && p <= ASSIGNMENT && Starts(r.value.rest, Equal) then None else r
  }

  function Toks(e: Expr, line: nat): (ts: seq<Token>)
    ensures |ts| > 0
  {
    OnLine(Print(e), line)
  }

  function Tok(k: Kind, line: nat): seq<Token> {
    [Token(k, line)]
  }

  lemma OnLineAppend(a: seq<Kind>, b: seq<Kind>, line: nat)
    ensures OnLine(a + b, line) == OnLine(a, line) + OnLine(b, line)
  {
  }

  lemma OnLineFew(a: Kind, b: Kind, c: Kind, line: nat)
    ensures OnLine([a], line) == Tok(a, line)
    ensures OnLine([a, b], line) == Tok(a, line) + Tok(b, line)
    ensures OnLine([a, b, c], line) == Tok(a, line) + Tok(b, line) + Tok(c, line)
  {
  }

  lemma OnLineNone(line: nat)
    ensures OnLine([], line) == []
  {
  }

  lemma Stops(e: Expr, ts: seq<Token>, line: nat, p: nat)
    requires p >= ASSIGNMENT && Apart(ts, line, p)
    ensures ParseInfixes(e, ts, line, p) == Some(Parsed(e, ts, line))
  {
  }

  /** One turn of the loop. */
  lemma Turns(e: Expr, ts: seq<Token>, line: nat, p: nat, e': Expr, rest: seq<Token>)
    requires p >= ASSIGNMENT && ts != [] && p <= Prec(ts[0].kind) && ts[0].line == line
    requires ParseInfix(e, ts, p <= ASSIGNMENT) == Some(Parsed(e', rest, line))
    ensures ParseInfixes(e, ts, line, p) == ParseInfixes(e', rest, line, p)
  {
  }

  /** The tokens of `e` followed by tokens that do not continue it parse, in full, as `e`. */
  lemma {:induction false} OperandParses(e: Expr, p: nat, line: nat, rest: seq<Token>)
    requires GroupedAt(e, p) && p >= ASSIGNMENT && Apart(rest, line, Min(p, Edge(e))) && !Starts(rest, Equal)
    ensures ParsePrec(Toks(e, line) + rest, p) == Some(Parsed(e, rest, line))
    decreases e, 3
  {
    PrintParses(e, p, line, rest);
    Stops(e, rest, line, p);
  }

  /**
   Parsing at precedence `p` the tokens of an expression that binds at least that tightly
   reads exactly that expression before looking at what follows.
   */
  lemma {:induction false} PrintParses(e: Expr, p: nat, line: nat, rest: seq<Token>)
    requires GroupedAt(e, p) && p >= ASSIGNMENT && Apart(rest, line, Edge(e)) && !Starts(rest, Equal)
    ensures ParsePrec(Toks(e, line) + rest, p) == After(ParseInfixes(e, rest, line, p), p)
    decreases e, 2
  {
    hide *;
    match e
    case NumLit(_) => ParsesLeaf(e, p, line, rest);
    case StrLit(_) => ParsesLeaf(e, p, line, rest);
    case NullLit => ParsesLeaf(e, p, line, rest);
    case TrueLit => ParsesLeaf(e, p, line, rest);
    case FalseLit => ParsesLeaf(e, p, line, rest);
    case SelfLit => ParsesLeaf(e, p, line, rest);
    case Name(_) => ParsesLeaf(e, p, line, rest);
    case Assign(_, _) => ParsesAssign(e, p, line, rest);
    case Prefix(_, _) => ParsesPrefix(e, p, line, rest);
    case Group(_) => ParsesGroup(e, p, line, rest);
    case MapLit(_) => ParsesMap(e, p, line, rest);
    case Infix(_, _, _) => ParsesInfix(e, p, line, rest);
    case And(_, _) => ParsesConnective(e, p, line, rest);
    case Or(_, _) => ParsesConnective(e, p, line, rest);
    case Member(_, _) => ParsesMember(e, p, line, rest);
    case SetMember(_, _, _) => ParsesSetMember(e, p, line, rest);
    case Index(_, _) => ParsesIndex(e, p, line, rest);
    case SetIndex(_, _, _) => ParsesSetIndex(e, p, line, rest);
    case Invoke(_, _) => ParsesInvoke(e, p, line, rest);
  }

  lemma ParsesLeaf(e: Expr, p: nat, line: nat, rest: seq<Token>)
    requires GroupedAt(e, p) && p >= ASSIGNMENT && Apart(rest, line, Edge(e)) && !Starts(rest, Equal)
    requires e.NumLit? || e.StrLit? || e.NullLit? || e.TrueLit? || e.FalseLit? || e.SelfLit? || e.Name?
    ensures ParsePrec(Toks(e, line) + rest, p) == After(ParseInfixes(e, rest, line, p), p)
  {
    hide ParseInfixes, ParsePrec, Grouped;
    var ts := Toks(e, line) + rest;
    assert |Print(e)| == 1;
    assert ts[0] == Token(Print(e)[0], line) && ts[1..] == rest;
    hide OnLine, Print;
    FromPrefix(e, ts, p, line, rest);
  }

  /** What follows a prefix parse is the loop. */
  lemma FromPrefix(e: Expr, ts: seq<Token>, p: nat, line: nat, rest: seq<Token>)
    requires p >= ASSIGNMENT && ts != []
    requires ParsePrefix(ts, p <= ASSIGNMENT) == Some(Parsed(e, rest, line))
    ensures ParsePrec(ts, p) == After(ParseInfixes(e, rest, line, p), p)
  {
    hide ParseInfixes, ParsePrefix;
  }

  lemma {:induction false} ParsesAssign(e: Expr, p: nat, line: nat, rest: seq<Token>)
    requires GroupedAt(e, p) && p >= ASSIGNMENT && Apart(rest, line, Edge(e)) && !Starts(rest, Equal) && e.Assign?
    ensures ParsePrec(Toks(e, line) + rest, p) == After(ParseInfixes(e, rest, line, p), p)
    decreases e, 1
  {
    hide OnLine, ParseInfixes, ParsePrec;
    var ts, tail := Toks(e, line) + rest, Toks(e.value, line) + rest;
    OnLineFew(Identifier(e.id), Equal, Equal, line);
    OnLineAppend([Identifier(e.id), Equal], Print(e.value), line);
    assert ts[0] == Token(Identifier(e.id), line) && ts[1..] == Tok(Equal, line) + tail && ts[1..][1..] == tail;
    OperandParses(e.value, ASSIGNMENT, line, rest);
    FromPrefix(e, ts, p, line, rest);
  }

  lemma {:induction false} ParsesPrefix(e: Expr, p: nat, line: nat, rest: seq<Token>)
    requires GroupedAt(e, p) && p >= ASSIGNMENT && Apart(rest, line, Edge(e)) && !Starts(rest, Equal) && e.Prefix?
    ensures ParsePrec(Toks(e, line) + rest, p) == After(ParseInfixes(e, rest, line, p), p)
    decreases e, 1
  {
    hide OnLine, ParseInfixes, ParsePrec;
    var ts, tail := Toks(e, line) + rest, Toks(e.operand, line) + rest;
    OnLineFew(PrefixKind(e.pop), Equal, Equal, line);
    OnLineAppend([PrefixKind(e.pop)], Print(e.operand), line);
    assert ts[0] == Token(PrefixKind(e.pop), line) && ts[1..] == tail;
    OperandParses(e.operand, UNARY, line, rest);
    FromPrefix(e, ts, p, line, rest);
  }

  lemma {:induction false} ParsesGroup(e: Expr, p: nat, line: nat, rest: seq<Token>)
    requires GroupedAt(e, p) && p >= ASSIGNMENT && Apart(rest, line, Edge(e)) && !Starts(rest, Equal) && e.Group?
    ensures ParsePrec(Toks(e, line) + rest, p) == After(ParseInfixes(e, rest, line, p), p)
    decreases e, 1
  {
    hide OnLine, ParseInfixes, ParsePrec;
    var close := Tok(RParen, line) + rest;
    var ts, tail := Toks(e, line) + rest, Toks(e.inner, line) + close;
    OnLineFew(LParen, Equal, Equal, line);
    OnLineFew(RParen, Equal, Equal, line);
    OnLineAppend([LParen], Print(e.inner) + [RParen], line);
    OnLineAppend(Print(e.inner), [RParen], line);
    assert ts[0] == Token(LParen, line) && ts[1..] == tail;
    OperandParses(e.inner, ASSIGNMENT, line, close);
    assert close[1..] == rest;
    FromPrefix(e, ts, p, line, rest);
  }

  lemma {:induction false} ParsesMap(e: Expr, p: nat, line: nat, rest: seq<Token>)
    requires GroupedAt(e, p) && p >= ASSIGNMENT && Apart(rest, line, Edge(e)) && !Starts(rest, Equal) && e.MapLit?
    ensures ParsePrec(Toks(e, line) + rest, p) == After(ParseInfixes(e, rest, line, p), p)
    decreases e, 1
  {
    hide OnLine, ParseInfixes, ParsePrec;
    var close := Tok(RBracket, line) + rest;
    var ts, tail := Toks(e, line) + rest, OnLine(PrintAll(e.elems), line) + close;
    OnLineFew(LBracket, Equal, Equal, line);
    OnLineFew(RBracket, Equal, Equal, line);
    OnLineAppend([LBracket], PrintAll(e.elems) + [RBracket], line);
    OnLineAppend(PrintAll(e.elems), [RBracket], line);
    assert ts[0] == Token(LBracket, line) && ts[1..] == tail;
    ListParses(e.elems, line, RBracket, rest);
    FromPrefix(e, ts, p, line, rest);
  }

  lemma {:induction false} ListParses(es: seq<Expr>, line: nat, close: Kind, rest: seq<Token>)
    requires AllGrouped(es) && (close == RParen || close == RBracket)
    ensures ParseList(OnLine(PrintAll(es), line) + (Tok(close, line) + rest), line, close) == Some(Parsed(es, rest, line))
    decreases es, 5
  {
    hide OnLine, ParseExprs, ParsePrec;
    var tail := Tok(close, line) + rest;
    assert tail[1..] == rest;
    if es == [] {
      OnLineNone(line);
      assert OnLine([], line) + tail == tail;
    } else {
      NoListStart(es, line, tail, close);
      ExprsParse(es, line, tail);
    }
  }

  /** No expression starts with a closing bracket. */
  lemma NoListStart(es: seq<Expr>, line: nat, tail: seq<Token>, close: Kind)
    requires es != [] && (close == RParen || close == RBracket)
    ensures !Starts(OnLine(PrintAll(es), line) + tail, close)
  {
    FirstKind(es[0]);
    assert PrintAll(es)[0] == Print(es[0])[0];
  }

  lemma {:induction false} FirstKind(e: Expr)
    ensures Print(e)[0] != RParen && Print(e)[0] != RBracket
    decreases e
  {
    match e
    case Member(o, _) => FirstKind(o);
    case SetMember(o, _, _) => FirstKind(o);
    case Index(o, _) => FirstKind(o);
    case SetIndex(o, _, _) => FirstKind(o);
    case Infix(_, l, _) => FirstKind(l);
    case And(l, _) => FirstKind(l);
    case Or(l, _) => FirstKind(l);
    case Invoke(f, _) => FirstKind(f);
    case _ =>
  }

  lemma {:induction false} ExprsParse(es: seq<Expr>, line: nat, rest: seq<Token>)
    requires AllGrouped(es) && es != [] && rest != [] && (rest[0].kind == RParen || rest[0].kind == RBracket)
    ensures ParseExprs(OnLine(PrintAll(es), line) + rest) == Some(Parsed(es, rest, line))
    decreases es, 4
  {
    hide OnLine, ParsePrec, Print, ParseExprs, PrintAll, Grouped;
    PrintAllIs(es);
    if |es| == 1 {
      OperandParses(es[0], ASSIGNMENT, line, rest);
      LastExpr(Toks(es[0], line) + rest, es[0], rest, line);
      assert es == [es[0]];
    } else {
      var more := OnLine(PrintAll(es[1..]), line) + rest;
      var tail := Tok(Comma, line) + more;
      CommaToks(es, line, rest);
      OperandParses(es[0], ASSIGNMENT, line, tail);
      assert tail[1..] == more;
      ExprsParse(es[1..], line, rest);
      MoreExprs(Toks(es[0], line) + tail, es[0], tail, es[1..], rest, line);
      assert es == [es[0]] + es[1..];
    }
  }

  lemma CommaToks(es: seq<Expr>, line: nat, rest: seq<Token>)
    requires |es| > 1
    ensures OnLine(PrintAll(es), line) + rest == OnLine(Print(es[0]), line) + (Tok(Comma, line) + (OnLine(PrintAll(es[1..]), line) + rest))
  {
    hide OnLine, Print;
    PrintAllIs(es);
    hide PrintAll;
    OnLineFew(Comma, Equal, Equal, line);
    OnLineAppend(Print(es[0]), [Comma] + PrintAll(es[1..]), line);
    OnLineAppend([Comma], PrintAll(es[1..]), line);
    hide *;
    FourParts(OnLine(Print(es[0]), line), Tok(Comma, line), OnLine(PrintAll(es[1..]), line), rest);
  }

  lemma FourParts(a: seq<Token>, b: seq<Token>, c: seq<Token>, d: seq<Token>)
    ensures a + (b + c) + d == a + (b + (c + d))
  {
  }

  lemma PrintAllIs(es: seq<Expr>)
    requires es != []
    ensures |es| == 1 ==> PrintAll(es) == Print(es[0])
    ensures |es| > 1 ==> PrintAll(es) == Print(es[0]) + ([Comma] + PrintAll(es[1..]))
  {
  }

  lemma LastExpr(ts: seq<Token>, e: Expr, rest: seq<Token>, line: nat)
    requires ParsePrec(ts, ASSIGNMENT) == Some(Parsed(e, rest, line)) && !Starts(rest, Comma)
    ensures ParseExprs(ts) == Some(Parsed([e], rest, line))
  {
    hide ParsePrec;
  }

  lemma MoreExprs(ts: seq<Token>, e: Expr, tail: seq<Token>, es: seq<Expr>, rest: seq<Token>, line: nat)
    requires ParsePrec(ts, ASSIGNMENT) == Some(Parsed(e, tail, line)) && Starts(tail, Comma)
    requires ParseExprs(tail[1..]) == Some(Parsed(es, rest, line))
    ensures ParseExprs(ts) == Some(Parsed([e] + es, rest, line))
  {
    hide ParsePrec;
  }

  /** The left operand, the operator's token, and the right operand with what follows. */
  lemma {:induction false} ParsesInfix(e: Expr, p: nat, line: nat, rest: seq<Token>)
    requires GroupedAt(e, p) && p >= ASSIGNMENT && Apart(rest, line, Edge(e)) && !Starts(rest, Equal)
    requires e.Infix?
    ensures ParsePrec(Toks(e, line) + rest, p) == After(ParseInfixes(e, rest, line, p), p)
    decreases e, 1
  {
    hide OnLine, ParseInfixes, ParsePrec, ParseInfix, Print, Grouped, Edge, Toks;
    var l, r, op := e.left, e.right, e.iop;
    var k := InfixKind(op);
    OperatorShape(l, r, op);
    var right := Toks(r, line) + rest;
    var tail := Tok(k, line) + right;
    PrintedOperator(l, r, op);
    OperatorToks(e, l, k, r, line, rest);
    EdgeAbove(l, Prec(k));
    PrintParses(l, p, line, tail);
    OperandParses(r, Prec(k) + 1, line, rest);
    assert tail[1..] == right;
    OperatorParses(l, tail, p <= ASSIGNMENT);
    Turns(l, tail, line, p, e, rest);
  }

  lemma {:induction false} ParsesConnective(e: Expr, p: nat, line: nat, rest: seq<Token>)
    requires GroupedAt(e, p) && p >= ASSIGNMENT && Apart(rest, line, Edge(e)) && !Starts(rest, Equal)
    requires e.And? || e.Or?
    ensures ParsePrec(Toks(e, line) + rest, p) == After(ParseInfixes(e, rest, line, p), p)
    decreases e, 1
  {
    hide OnLine, ParseInfixes, ParsePrec, ParseInfix, Print, Grouped, Edge, Toks;
    var l, r := e.left, e.right;
    var k := if e.And? then AndWord else OrWord;
    OperatorShape(l, r, Plus);
    var right := Toks(r, line) + rest;
    var tail := Tok(k, line) + right;
    PrintedOperator(l, r, Plus);
    OperatorToks(e, l, k, r, line, rest);
    EdgeAbove(l, Prec(k) + 1);
    PrintParses(l, p, line, tail);
    OperandParses(r, Prec(k), line, rest);
    assert tail[1..] == right;
    AndParses(l, tail, p <= ASSIGNMENT);
    Turns(l, tail, line, p, e, rest);
  }

  lemma PrintedOperator(l: Expr, r: Expr, op: InfixOp)
    ensures Print(Infix(op, l, r)) == Print(l) + ([InfixKind(op)] + Print(r))
    ensures Print(And(l, r)) == Print(l) + ([AndWord] + Print(r))
    ensures Print(Or(l, r)) == Print(l) + ([OrWord] + Print(r))
  {
  }

  lemma OperatorToks(e: Expr, l: Expr, k: Kind, r: Expr, line: nat, rest: seq<Token>)
    requires Print(e) == Print(l) + ([k] + Print(r))
    ensures Toks(e, line) + rest == Toks(l, line) + (Tok(k, line) + (Toks(r, line) + rest))
  {
    hide OnLine, Print;
    OnLineFew(k, Equal, Equal, line);
    OnLineAppend(Print(l), [k] + Print(r), line);
    OnLineAppend([k], Print(r), line);
    FourParts(OnLine(Print(l), line), Tok(k, line), OnLine(Print(r), line), rest);
  }

  lemma {:induction false} ParsesMember(e: Expr, p: nat, line: nat, rest: seq<Token>)
    requires GroupedAt(e, p) && p >= ASSIGNMENT && Apart(rest, line, Edge(e)) && !Starts(rest, Equal) && e.Member?
    ensures ParsePrec(Toks(e, line) + rest, p) == After(ParseInfixes(e, rest, line, p), p)
    decreases e, 1
  {
    hide OnLine, ParseInfixes, ParsePrec;
    var tail := OnLine([Dot, Identifier(e.id)], line) + rest;
    OnLineFew(Dot, Identifier(e.id), Equal, line);
    OnLineAppend(Print(e.obj), [Dot, Identifier(e.id)], line);
    assert Toks(e, line) + rest == Toks(e.obj, line) + tail;
    EdgeAbove(e.obj, CALL);
    PrintParses(e.obj, p, line, tail);
    assert tail[1..][1..] == rest;
    Turns(e.obj, tail, line, p, e, rest);
  }

  lemma {:induction false} ParsesSetMember(e: Expr, p: nat, line: nat, rest: seq<Token>)
    requires GroupedAt(e, p) && p >= ASSIGNMENT && Apart(rest, line, Edge(e)) && !Starts(rest, Equal) && e.SetMember?
    ensures ParsePrec(Toks(e, line) + rest, p) == After(ParseInfixes(e, rest, line, p), p)
    decreases e, 1
  {
    hide OnLine, ParseInfixes, ParsePrec;
    var head := [Dot, Identifier(e.id), Equal];
    var tail := OnLine(head, line) + (Toks(e.value, line) + rest);
    OnLineFew(Dot, Identifier(e.id), Equal, line);
    OnLineAppend(Print(e.obj), head + Print(e.value), line);
    OnLineAppend(head, Print(e.value), line);
    assert Toks(e, line) + rest == Toks(e.obj, line) + tail;
    EdgeAbove(e.obj, CALL);
    PrintParses(e.obj, p, line, tail);
    OperandParses(e.value, ASSIGNMENT, line, rest);
    assert tail[1..][2..] == Toks(e.value, line) + rest;
    Turns(e.obj, tail, line, p, e, rest);
  }

  lemma {:induction false} ParsesIndex(e: Expr, p: nat, line: nat, rest: seq<Token>)
    requires GroupedAt(e, p) && p >= ASSIGNMENT && Apart(rest, line, Edge(e)) && !Starts(rest, Equal) && e.Index?
    ensures ParsePrec(Toks(e, line) + rest, p) == After(ParseInfixes(e, rest, line, p), p)
    decreases e, 1
  {
    hide OnLine, ParseInfixes, ParsePrec;
    var close := Tok(RBracket, line) + rest;
    var tail := Tok(LBracket, line) + (Toks(e.key, line) + close);
    OnLineFew(LBracket, Equal, Equal, line);
    OnLineFew(RBracket, Equal, Equal, line);
    OnLineAppend(Print(e.obj), [LBracket] + (Print(e.key) + [RBracket]), line);
    OnLineAppend([LBracket], Print(e.key) + [RBracket], line);
    OnLineAppend(Print(e.key), [RBracket], line);
    assert Toks(e, line) + rest == Toks(e.obj, line) + tail;
    EdgeAbove(e.obj, CALL);
    PrintParses(e.obj, p, line, tail);
    OperandParses(e.key, ASSIGNMENT, line, close);
    assert tail[1..] == Toks(e.key, line) + close && close[1..] == rest;
    Turns(e.obj, tail, line, p, e, rest);
  }

  lemma {:induction false} ParsesSetIndex(e: Expr, p: nat, line: nat, rest: seq<Token>)
    requires GroupedAt(e, p) && p >= ASSIGNMENT && Apart(rest, line, Edge(e)) && !Starts(rest, Equal) && e.SetIndex?
    ensures ParsePrec(Toks(e, line) + rest, p) == After(ParseInfixes(e, rest, line, p), p)
    decreases e, 1
  {
    hide OnLine, ParseInfixes, ParsePrec, ParseInfix, Grouped, Edge;
    var value := Toks(e.value, line) + rest;
    var close := Tok(RBracket, line) + (Tok(Equal, line) + value);
    var tail := Tok(LBracket, line) + (Toks(e.key, line) + close);
    IndexShape(e.obj, e.key, e.value);
    SetIndexToks(e, line, rest);
    EdgeAbove(e.obj, CALL);
    PrintParses(e.obj, p, line, tail);
    OperandParses(e.key, ASSIGNMENT, line, close);
    OperandParses(e.value, ASSIGNMENT, line, rest);
    assert tail[1..] == Toks(e.key, line) + close && close[1..] == Tok(Equal, line) + value && close[1..][1..] == value;
    IndexParses(e.obj, tail, p <= ASSIGNMENT);
    Turns(e.obj, tail, line, p, e, rest);
  }

  lemma SetIndexToks(e: Expr, line: nat, rest: seq<Token>)
    requires e.SetIndex?
    ensures Toks(e, line) + rest
      == Toks(e.obj, line) + (Tok(LBracket, line) + (Toks(e.key, line) + (Tok(RBracket, line) + (Tok(Equal, line) + (Toks(e.value, line) + rest)))))
  {
    hide OnLine;
    OnLineFew(LBracket, Equal, Equal, line);
    OnLineFew(RBracket, Equal, Equal, line);
    OnLineAppend(Print(e.obj), [LBracket] + (Print(e.key) + ([RBracket, Equal] + Print(e.value))), line);
    OnLineAppend([LBracket], Print(e.key) + ([RBracket, Equal] + Print(e.value)), line);
    OnLineAppend(Print(e.key), [RBracket, Equal] + Print(e.value), line);
    OnLineAppend([RBracket, Equal], Print(e.value), line);
  }

  lemma {:induction false} ParsesInvoke(e: Expr, p: nat, line: nat, rest: seq<Token>)
    requires GroupedAt(e, p) && p >= ASSIGNMENT && Apart(rest, line, Edge(e)) && !Starts(rest, Equal) && e.Invoke?
    ensures ParsePrec(Toks(e, line) + rest, p) == After(ParseInfixes(e, rest, line, p), p)
    decreases e, 1
  {
    hide OnLine, ParseInfixes, ParsePrec, ParseList;
    var args := OnLine(PrintAll(e.args), line) + (Tok(RParen, line) + rest);
    var tail := Tok(LParen, line) + args;
    OnLineFew(LParen, Equal, Equal, line);
    OnLineFew(RParen, Equal, Equal, line);
    OnLineAppend(Print(e.callee), [LParen] + (PrintAll(e.args) + [RParen]), line);
    OnLineAppend([LParen], PrintAll(e.args) + [RParen], line);
    OnLineAppend(PrintAll(e.args), [RParen], line);
    assert Toks(e, line) + rest == Toks(e.callee, line) + tail;
    EdgeAbove(e.callee, CALL);
    PrintParses(e.callee, p, line, tail);
    ListParses(e.args, line, RParen, rest);
    assert tail[1..] == args;
    Turns(e.callee, tail, line, p, e, rest);
  }

  lemma KindsCons(ts: seq<Token>)
    requires ts != []
    ensures Kinds(ts) == [ts[0].kind] + Kinds(ts[1..])
  {
  }

  /** What a successful parse of an expression at precedence `p` says about the tokens. */
  predicate Reads(before: seq<Kind>, r: Parsed<Expr>, p: nat) {
    before == Print(r.value) + Kinds(r.rest) && GroupedAt(r.value, p) && Apart(r.rest, r.line, Edge(r.value))
  }

  /**
   The other direction: whatever parses is properly parenthesised and prints as exactly
   the tokens consumed, and the parse stopped because it had to.
   */
  lemma {:induction false} ParsePrints(ts: seq<Token>, p: nat)
    requires ASSIGNMENT <= p <= UNARY && ParsePrec(ts, p).Some?
    ensures
      var r := ParsePrec(ts, p).value;
      Reads(Kinds(ts), r, p) && Apart(r.rest, r.line, p) && (p == ASSIGNMENT ==> !Starts(r.rest, Equal))
    decreases |ts|, 2
  {
    hide ParsePrefix, ParseInfixes, Print, Kinds, Grouped;
    PrefixPrints(ts, p <= ASSIGNMENT);
    var a := ParsePrefix(ts, p <= ASSIGNMENT).value;
    InfixesPrint(a.value, a.rest, a.line, p);
  }

  lemma {:induction false} PrefixPrints(ts: seq<Token>, canAssign: bool)
    requires ts != [] && ParsePrefix(ts, canAssign).Some?
    ensures Reads(Kinds(ts), ParsePrefix(ts, canAssign).value, if canAssign then ASSIGNMENT else UNARY)
    decreases |ts|, 1
  {
    hide ParsePrefix, Reads;
    if LiteralOf(ts[0].kind).Some? || PrefixOf(ts[0].kind).Some? { OperatorPrints(ts, canAssign); }
    else if ts[0].kind.LParen? { GroupPrints(ts, canAssign); }
    else if ts[0].kind.LBracket? { MapPrints(ts, canAssign); }
    else { OnlyNames(ts, canAssign); NamePrints(ts, canAssign); }
  }

  lemma {:induction false} OperatorPrints(ts: seq<Token>, canAssign: bool)
    requires ts != [] && ParsePrefix(ts, canAssign).Some? && (LiteralOf(ts[0].kind).Some? || PrefixOf(ts[0].kind).Some?)
    ensures Reads(Kinds(ts), ParsePrefix(ts, canAssign).value, if canAssign then ASSIGNMENT else UNARY)
    decreases |ts|, 0
  {
    hide ParsePrec, ParsePrefix, Kinds, Reads, Print, Grouped;
    KindsCons(ts);
    var k, p := ts[0].kind, if canAssign then ASSIGNMENT else UNARY;
    if LiteralOf(k).Some? {
      LiteralParses(ts, canAssign);
      LiteralPrints(k);
      Closed(ts[1..], ts[0].line);
      ReadsAs(Kinds(ts), LiteralOf(k).value, ts[1..], ts[0].line, p);
    } else {
      UnaryParses(ts, canAssign);
      ParseOperand(ts[1..], UNARY);
      var x := ParsePrec(ts[1..], UNARY).value;
      PrefixPrinted(k, x.value, Kinds(x.rest));
      ReadsAs(Kinds(ts), Prefix(PrefixOf(k).value, x.value), x.rest, x.line, p);
    }
  }

  lemma LiteralPrints(k: Kind)
    requires LiteralOf(k).Some?
    ensures Print(LiteralOf(k).value) == [k] && Grouped(LiteralOf(k).value)
    ensures Level(LiteralOf(k).value) == PRIMARY && Edge(LiteralOf(k).value) == PRIMARY + 1
  {
  }

  lemma PrefixPrinted(k: Kind, x: Expr, ks: seq<Kind>)
    requires PrefixOf(k).Some?
    ensures Print(Prefix(PrefixOf(k).value, x)) + ks == [k] + (Print(x) + ks)
    ensures Grouped(Prefix(PrefixOf(k).value, x)) == GroupedAt(x, UNARY)
  {
  }

  lemma {:induction false} GroupPrints(ts: seq<Token>, canAssign: bool)
    requires ts != [] && ParsePrefix(ts, canAssign).Some? && ts[0].kind.LParen?
    ensures Reads(Kinds(ts), ParsePrefix(ts, canAssign).value, if canAssign then ASSIGNMENT else UNARY)
    decreases |ts|, 0
  {
    hide ParsePrec, ParsePrefix, Kinds, Reads, Print;
    KindsCons(ts);
    GroupingParses(ts, canAssign);
    ParseOperand(ts[1..], ASSIGNMENT);
    var x := ParsePrec(ts[1..], ASSIGNMENT).value;
    KindsCons(x.rest);
    PrintGroup(x.value, Kinds(x.rest[1..]));
    Closed(x.rest[1..], x.rest[0].line);
    ReadsAs(Kinds(ts), Group(x.value), x.rest[1..], x.rest[0].line, if canAssign then ASSIGNMENT else UNARY);
  }

  lemma PrintGroup(x: Expr, ks: seq<Kind>)
    ensures Print(Group(x)) + ks == [LParen] + (Print(x) + ([RParen] + ks))
  {
  }

  lemma {:induction false} MapPrints(ts: seq<Token>, canAssign: bool)
    requires ts != [] && ParsePrefix(ts, canAssign).Some? && ts[0].kind.LBracket?
    ensures Reads(Kinds(ts), ParsePrefix(ts, canAssign).value, if canAssign then ASSIGNMENT else UNARY)
    decreases |ts|, 0
  {
    hide ParsePrec, Kinds, ParseList, PrintAll, Reads;
    KindsCons(ts);
    ListPrints(ts[1..], ts[0].line, RBracket);
    var es := ParseList(ts[1..], ts[0].line, RBracket).value;
    PrintMap(es.value, Kinds(es.rest));
    Closed(es.rest, es.line);
    ReadsAs(Kinds(ts), MapLit(es.value), es.rest, es.line, if canAssign then ASSIGNMENT else UNARY);
  }

  lemma {:induction false} NamePrints(ts: seq<Token>, canAssign: bool)
    requires ts != [] && ParsePrefix(ts, canAssign).Some? && ts[0].kind.Identifier?
    ensures Reads(Kinds(ts), ParsePrefix(ts, canAssign).value, if canAssign then ASSIGNMENT else UNARY)
    decreases |ts|, 0
  {
    hide ParsePrec, Kinds, ParseList, Reads;
    KindsCons(ts);
    var id, rest := ts[0].kind.id, ts[1..];
    if canAssign && Starts(rest, Equal) {
      KindsCons(rest);
      ParseOperand(rest[1..], ASSIGNMENT);
      var v := ParsePrec(rest[1..], ASSIGNMENT).value;
      ReadsAs(Kinds(ts), Assign(id, v.value), v.rest, v.line, ASSIGNMENT);
    } else {
      Closed(rest, ts[0].line);
      ReadsAs(Kinds(ts), Name(id), rest, ts[0].line, if canAssign then ASSIGNMENT else UNARY);
    }
  }

  lemma ReadsAs(before: seq<Kind>, e: Expr, rest: seq<Token>, line: nat, p: nat)
    requires before == Print(e) + Kinds(rest) && Grouped(e) && Level(e) >= p && Apart(rest, line, Edge(e))
    ensures Reads(before, Parsed(e, rest, line), p)
  {
  }

  /** `ParsePrints`, spelled out. */
  lemma {:induction false} ParseOperand(ts: seq<Token>, p: nat)
    requires ASSIGNMENT <= p <= UNARY && ParsePrec(ts, p).Some?
    ensures
      var r := ParsePrec(ts, p).value;
      Kinds(ts) == Print(r.value) + Kinds(r.rest) && Grouped(r.value) && Level(r.value) >= p
      && Apart(r.rest, r.line, Min(p, Edge(r.value)))
    decreases |ts|, 3
  {
    hide ParsePrec, Print, Grouped, Kinds;
    ParsePrints(ts, p);
  }

  lemma OnlyNames(ts: seq<Token>, canAssign: bool)
    requires ts != [] && ParsePrefix(ts, canAssign).Some?
    requires LiteralOf(ts[0].kind).None? && PrefixOf(ts[0].kind).None? && !ts[0].kind.LParen? && !ts[0].kind.LBracket?
    ensures ts[0].kind.Identifier?
  {
  }

  /** No token continues an expression that ends in a closing token or a name. */
  lemma Closed(ts: seq<Token>, line: nat)
    ensures Apart(ts, line, PRIMARY + 1)
  {
  }

  lemma PrintMap(es: seq<Expr>, ks: seq<Kind>)
    ensures Print(MapLit(es)) + ks == [LBracket] + (PrintAll(es) + ([RBracket] + ks))
  {
    hide PrintAll;
  }

  lemma PrintInvoke(e: Expr, args: seq<Expr>, ks: seq<Kind>)
    ensures Print(Invoke(e, args)) + ks == Print(e) + ([LParen] + (PrintAll(args) + ([RParen] + ks)))
  {
    hide PrintAll;
  }

  lemma {:induction false} InfixesPrint(e: Expr, ts: seq<Token>, line: nat, p: nat)
    requires ASSIGNMENT <= p <= UNARY && ParseInfixes(e, ts, line, p).Some?
    requires GroupedAt(e, p) && Apart(ts, line, Edge(e))
    ensures
      var r := ParseInfixes(e, ts, line, p).value;
      Reads(Print(e) + Kinds(ts), r, p) && Apart(r.rest, r.line, p)
    decreases |ts|, 2
  {
    hide ParseInfix, Print, Kinds, Grouped;
    if Continues(ts, line, p) {
      InfixPrints(e, ts, line, p <= ASSIGNMENT);
      var a := ParseInfix(e, ts, p <= ASSIGNMENT).value;
      InfixesPrint(a.value, a.rest, a.line, p);
    }
  }

  lemma {:induction false} InfixPrints(e: Expr, ts: seq<Token>, line: nat, canAssign: bool)
    requires ts != [] && Prec(ts[0].kind) > NONE && !NewLine(ts, line) && ParseInfix(e, ts, canAssign).Some?
    requires Grouped(e) && Apart(ts, line, Edge(e))
    ensures Reads(Print(e) + Kinds(ts), ParseInfix(e, ts, canAssign).value,
                  if canAssign then ASSIGNMENT else Prec(ts[0].kind))
    decreases |ts|, 1
  {
    hide ParsePrec, Kinds, ParseList, Reads, ParseInfix, Print, Grouped;
    if ts[0].kind.LParen? { CallPrints(e, ts, line, canAssign); }
    else if ts[0].kind.Dot? { DotPrints(e, ts, line, canAssign); }
    else if ts[0].kind.LBracket? { IndexPrints(e, ts, line, canAssign); }
    else if InfixOf(ts[0].kind).Some? { OperatorReads(e, ts, line, canAssign); }
    else {
      OneInfix(ts[0].kind);
      ConnectiveReads(e, ts, line, canAssign);
    }
  }

  lemma {:induction false} OperatorReads(e: Expr, ts: seq<Token>, line: nat, canAssign: bool)
    requires ts != [] && Prec(ts[0].kind) > NONE && !NewLine(ts, line) && ParseInfix(e, ts, canAssign).Some?
    requires Grouped(e) && Apart(ts, line, Edge(e)) && InfixOf(ts[0].kind).Some?
    ensures Reads(Print(e) + Kinds(ts), ParseInfix(e, ts, canAssign).value,
                  if canAssign then ASSIGNMENT else Prec(ts[0].kind))
    decreases |ts|, 0
  {
    hide ParsePrec, ParseInfix, Kinds, ParseList, Reads, Print, Grouped, Edge;
    KindsCons(ts);
    var k, rest := ts[0].kind, ts[1..];
    var q := Prec(k);
    LevelAboveEdge(e, q);
    var before := Print(e) + Kinds(ts);
    var p := if canAssign then ASSIGNMENT else q;
    OperatorParses(e, ts, canAssign);
    var op := InfixOf(k).value;
    assert InfixKind(op) == k;
    ParseOperand(rest, q + 1);
    var r := ParsePrec(rest, q + 1).value;
    PrintOperator(e, r.value, op, Kinds(r.rest));
    OperatorShape(e, r.value, op);
    ReadsAs(before, Infix(op, e, r.value), r.rest, r.line, p);
  }

  lemma {:induction false} ConnectiveReads(e: Expr, ts: seq<Token>, line: nat, canAssign: bool)
    requires ts != [] && Prec(ts[0].kind) > NONE && !NewLine(ts, line) && ParseInfix(e, ts, canAssign).Some?
    requires Grouped(e) && Apart(ts, line, Edge(e)) && (ts[0].kind.AndWord? || ts[0].kind.OrWord?)
    ensures Reads(Print(e) + Kinds(ts), ParseInfix(e, ts, canAssign).value,
                  if canAssign then ASSIGNMENT else Prec(ts[0].kind))
    decreases |ts|, 0
  {
    hide ParsePrec, ParseInfix, Kinds, ParseList, Reads, Print, Grouped, Edge;
    KindsCons(ts);
    var k, rest := ts[0].kind, ts[1..];
    var q := Prec(k);
    LevelAboveEdge(e, q);
    var before := Print(e) + Kinds(ts);
    var p := if canAssign then ASSIGNMENT else q;
    AndParses(e, ts, canAssign);
    ParseOperand(rest, q);
    var r := ParsePrec(rest, q).value;
    PrintOperator(e, r.value, Plus, Kinds(r.rest));
    OperatorShape(e, r.value, Plus);
    if k.AndWord? { ReadsAs(before, And(e, r.value), r.rest, r.line, p); }
    else { ReadsAs(before, Or(e, r.value), r.rest, r.line, p); }
  }

  lemma OperatorShape(l: Expr, r: Expr, op: InfixOp)
    ensures Grouped(Infix(op, l, r)) == (GroupedAt(l, Prec(InfixKind(op))) && GroupedAt(r, Prec(InfixKind(op)) + 1))
    ensures Grouped(And(l, r)) == (GroupedAt(l, AND + 1) && GroupedAt(r, AND))
    ensures Grouped(Or(l, r)) == (GroupedAt(l, OR + 1) && GroupedAt(r, OR))
    ensures Edge(Infix(op, l, r)) == Min(Prec(InfixKind(op)) + 1, Edge(r))
    ensures Edge(And(l, r)) == Min(AND, Edge(r)) && Edge(Or(l, r)) == Min(OR, Edge(r))
  {
    hide GroupedAt;
  }

  lemma IndexShape(e: Expr, k: Expr, v: Expr)
    ensures Grouped(Index(e, k)) == (GroupedAt(e, CALL) && Grouped(k))
    ensures Grouped(SetIndex(e, k, v)) == (GroupedAt(e, CALL) && Grouped(k) && Grouped(v))
    ensures Edge(Index(e, k)) == PRIMARY + 1 && Edge(SetIndex(e, k, v)) == ASSIGNMENT
  {
    hide GroupedAt;
  }

  lemma {:induction false} DotPrints(e: Expr, ts: seq<Token>, line: nat, canAssign: bool)
    requires ts != [] && ts[0].kind.Dot? && !NewLine(ts, line) && ParseInfix(e, ts, canAssign).Some?
    requires Grouped(e) && Apart(ts, line, Edge(e))
    ensures Reads(Print(e) + Kinds(ts), ParseInfix(e, ts, canAssign).value, if canAssign then ASSIGNMENT else CALL)
    decreases |ts|, 0
  {
    hide ParsePrec, ParseInfix, Kinds, Reads, Print;
    KindsCons(ts);
    LevelAboveEdge(e, CALL);
    DotParses(e, ts, canAssign);
    var name, rest := ts[1..][0], ts[1..][1..];
    KindsCons(ts[1..]);
    if canAssign && Starts(rest, Equal) {
      KindsCons(rest);
      ParseOperand(rest[1..], ASSIGNMENT);
      var v := ParsePrec(rest[1..], ASSIGNMENT).value;
      PrintSetMember(e, name.kind.id, v.value, Kinds(v.rest));
      ReadsAs(Print(e) + Kinds(ts), SetMember(e, name.kind.id, v.value), v.rest, v.line, ASSIGNMENT);
    } else {
      Closed(rest, name.line);
      PrintMember(e, name.kind.id, Kinds(rest));
      ReadsAs(Print(e) + Kinds(ts), Member(e, name.kind.id), rest, name.line, if canAssign then ASSIGNMENT else CALL);
    }
  }

  lemma PrintMember(e: Expr, id: Ident, ks: seq<Kind>)
    ensures Print(Member(e, id)) + ks == Print(e) + ([Dot] + ([Identifier(id)] + ks))
  {
  }

  lemma PrintSetMember(e: Expr, id: Ident, v: Expr, ks: seq<Kind>)
    ensures Print(SetMember(e, id, v)) + ks == Print(e) + ([Dot] + ([Identifier(id)] + ([Equal] + (Print(v) + ks))))
  {
  }

  lemma PrintIndex(e: Expr, k: Expr, ks: seq<Kind>)
    ensures Print(Index(e, k)) + ks == Print(e) + ([LBracket] + (Print(k) + ([RBracket] + ks)))
  {
  }

  lemma PrintSetIndex(e: Expr, k: Expr, v: Expr, ks: seq<Kind>)
    ensures Print(SetIndex(e, k, v)) + ks
         == Print(e) + ([LBracket] + (Print(k) + ([RBracket] + ([Equal] + (Print(v) + ks)))))
  {
    assert [RBracket, Equal] == [RBracket] + [Equal];
    SixParts(Print(e), [LBracket], Print(k), [RBracket], [Equal], Print(v), ks);
  }

  lemma SixParts(a: seq<Kind>, b: seq<Kind>, c: seq<Kind>, d: seq<Kind>, e: seq<Kind>, f: seq<Kind>, g: seq<Kind>)
    ensures a + (b + (c + (d + e + f))) + g == a + (b + (c + (d + (e + (f + g)))))
  {
  }

  lemma PrintOperator(l: Expr, r: Expr, op: InfixOp, ks: seq<Kind>)
    ensures Print(Infix(op, l, r)) + ks == Print(l) + ([InfixKind(op)] + (Print(r) + ks))
    ensures Print(And(l, r)) + ks == Print(l) + ([AndWord] + (Print(r) + ks))
    ensures Print(Or(l, r)) + ks == Print(l) + ([OrWord] + (Print(r) + ks))
  {
  }

  lemma {:induction false} IndexPrints(e: Expr, ts: seq<Token>, line: nat, canAssign: bool)
    requires ts != [] && ts[0].kind.LBracket? && !NewLine(ts, line) && ParseInfix(e, ts, canAssign).Some?
    requires Grouped(e) && Apart(ts, line, Edge(e))
    ensures Reads(Print(e) + Kinds(ts), ParseInfix(e, ts, canAssign).value, if canAssign then ASSIGNMENT else CALL)
    decreases |ts|, 0
  {
    hide ParsePrec, ParseInfix, Kinds, Reads, Print, Grouped, Edge;
    KindsCons(ts);
    LevelAboveEdge(e, CALL);
    IndexParses(e, ts, canAssign);
    ParseOperand(ts[1..], ASSIGNMENT);
    var key := ParsePrec(ts[1..], ASSIGNMENT).value;
    KindsCons(key.rest);
    var rest := key.rest[1..];
    if canAssign && Starts(rest, Equal) {
      KindsCons(rest);
      ParseOperand(rest[1..], ASSIGNMENT);
      var v := ParsePrec(rest[1..], ASSIGNMENT).value;
      PrintSetIndex(e, key.value, v.value, Kinds(v.rest));
      IndexShape(e, key.value, v.value);
      ReadsAs(Print(e) + Kinds(ts), SetIndex(e, key.value, v.value), v.rest, v.line, ASSIGNMENT);
    } else {
      Closed(rest, key.rest[0].line);
      PrintIndex(e, key.value, Kinds(rest));
      IndexShape(e, key.value, key.value);
      ReadsAs(Print(e) + Kinds(ts), Index(e, key.value), rest, key.rest[0].line, if canAssign then ASSIGNMENT else CALL);
    }
  }

  lemma {:induction false} CallPrints(e: Expr, ts: seq<Token>, line: nat, canAssign: bool)
    requires ts != [] && ts[0].kind.LParen? && !NewLine(ts, line) && ParseInfix(e, ts, canAssign).Some?
    requires Grouped(e) && Apart(ts, line, Edge(e))
    ensures Reads(Print(e) + Kinds(ts), ParseInfix(e, ts, canAssign).value, if canAssign then ASSIGNMENT else CALL)
    decreases |ts|, 0
  {
    hide ParsePrec, ParseInfix, Kinds, ParseList, PrintAll, Reads, Print;
    KindsCons(ts);
    LevelAboveEdge(e, CALL);
    CallParses(e, ts, canAssign);
    ListPrints(ts[1..], ts[0].line, RParen);
    var args := ParseList(ts[1..], ts[0].line, RParen).value;
    PrintInvoke(e, args.value, Kinds(args.rest));
    Closed(args.rest, args.line);
    ReadsAs(Print(e) + Kinds(ts), Invoke(e, args.value), args.rest, args.line, if canAssign then ASSIGNMENT else CALL);
  }

  lemma {:induction false} ListPrints(ts: seq<Token>, line: nat, close: Kind)
    requires ParseList(ts, line, close).Some?
    ensures
      var r := ParseList(ts, line, close).value;
      Kinds(ts) == PrintAll(r.value) + ([close] + Kinds(r.rest)) && AllGrouped(r.value)
    decreases |ts|, 5
  {
    hide ParseExprs, Kinds;
    if Starts(ts, close) {
      KindsCons(ts);
    } else {
      ExprsPrint(ts);
      KindsCons(ParseExprs(ts).value.rest);
    }
  }

  lemma {:induction false} ExprsPrint(ts: seq<Token>)
    requires ParseExprs(ts).Some?
    ensures
      var r := ParseExprs(ts).value;
      r.value != [] && Kinds(ts) == PrintAll(r.value) + Kinds(r.rest) && AllGrouped(r.value)
    decreases |ts|, 4
  {
    hide ParsePrec, Kinds, Print, Grouped;
    ParsePrints(ts, ASSIGNMENT);
    var e := ParsePrec(ts, ASSIGNMENT).value;
    if Starts(e.rest, Comma) {
      KindsCons(e.rest);
      ExprsPrint(e.rest[1..]);
      var es := ParseExprs(e.rest[1..]).value;
      assert ([e.value] + es.value)[1..] == es.value;
    }
  }

  /**
   Both directions at once: on one line, an expression parses from some tokens, leaving
   `rest`, exactly when it is properly parenthesised and those tokens are its printing
   followed by tokens that do not continue it.
   */
  lemma ParseIffPrinted(ts: seq<Token>, line: nat, e: Expr, rest: seq<Token>)
    requires forall i :: 0 <= i < |ts| - |rest| ==> ts[i].line == line
    ensures ParsePrec(ts, ASSIGNMENT) == Some(Parsed(e, rest, line))
       <==> Grouped(e) && ts == Toks(e, line) + rest
            && Apart(rest, line, ASSIGNMENT) && !Starts(rest, Equal)
  {
    hide ParsePrec, Grouped, Print, OnLine, Kinds;
    if Grouped(e) && ts == Toks(e, line) + rest
       && Apart(rest, line, ASSIGNMENT) && !Starts(rest, Equal) {
      OperandParses(e, ASSIGNMENT, line, rest);
    }
    if ParsePrec(ts, ASSIGNMENT) == Some(Parsed(e, rest, line)) {
      ParsePrints(ts, ASSIGNMENT);
      RestIsSuffix(ts, ASSIGNMENT);
      SameTokens(ts, e, rest, line);
    }
  }

  lemma SameTokens(ts: seq<Token>, e: Expr, rest: seq<Token>, line: nat)
    requires Kinds(ts) == Print(e) + Kinds(rest) && |rest| <= |ts| && ts[|ts| - |rest|..] == rest
    requires forall i :: 0 <= i < |ts| - |rest| ==> ts[i].line == line
    ensures ts == Toks(e, line) + rest
  {
    var n := |ts| - |rest|;
    forall i | 0 <= i < n ensures ts[i] == Toks(e, line)[i] {
      assert Kinds(ts)[i] == Print(e)[i];
    }
    assert ts == ts[..n] + ts[n..];
  }

  predicate Suffix(rest: seq<Token>, ts: seq<Token>) {
    |rest| <= |ts| && ts[|ts| - |rest|..] == rest
  }

  lemma SuffixTrans(a: seq<Token>, b: seq<Token>, c: seq<Token>)
    requires Suffix(a, b) && Suffix(b, c)
    ensures Suffix(a, c)
  {
  }

  /** A parse leaves a suffix of its tokens. */
  lemma {:induction false} RestIsSuffix(ts: seq<Token>, p: nat)
    requires p >= ASSIGNMENT && ParsePrec(ts, p).Some?
    ensures Suffix(ParsePrec(ts, p).value.rest, ts)
    decreases |ts|, 1
  {
    hide ParsePrefix, ParseInfixes, Suffix;
    PrefixSuffix(ts, p <= ASSIGNMENT);
    var a := ParsePrefix(ts, p <= ASSIGNMENT).value;
    InfixesSuffix(a.value, a.rest, a.line, p);
    SuffixTrans(ParsePrec(ts, p).value.rest, a.rest, ts);
  }

  lemma {:induction false} PrefixSuffix(ts: seq<Token>, canAssign: bool)
    requires ts != [] && ParsePrefix(ts, canAssign).Some?
    ensures Suffix(ParsePrefix(ts, canAssign).value.rest, ts)
    decreases |ts|, 0
  {
    hide ParsePrec, ParseList;
    var k, rest := ts[0].kind, ts[1..];
    if PrefixOf(k).Some? { RestIsSuffix(rest, UNARY); }
    else {
      match k
      case LParen => RestIsSuffix(rest, ASSIGNMENT);
      case LBracket => ListSuffix(rest, ts[0].line, RBracket);
      case Identifier(id) => if canAssign && Starts(rest, Equal) { RestIsSuffix(rest[1..], ASSIGNMENT); }
      case _ =>
    }
  }

  lemma {:induction false} InfixesSuffix(e: Expr, ts: seq<Token>, line: nat, p: nat)
    requires p >= ASSIGNMENT && ParseInfixes(e, ts, line, p).Some?
    ensures Suffix(ParseInfixes(e, ts, line, p).value.rest, ts)
    decreases |ts|, 2
  {
    hide ParseInfix;
    if Continues(ts, line, p) {
      InfixSuffix(e, ts, p <= ASSIGNMENT);
      var a := ParseInfix(e, ts, p <= ASSIGNMENT).value;
      InfixesSuffix(a.value, a.rest, a.line, p);
    }
  }

  lemma {:induction false} InfixSuffix(e: Expr, ts: seq<Token>, canAssign: bool)
    requires ts != [] && Prec(ts[0].kind) > NONE && ParseInfix(e, ts, canAssign).Some?
    ensures Suffix(ParseInfix(e, ts, canAssign).value.rest, ts)
    decreases |ts|, 0
  {
    hide ParsePrec, ParseList;
    var k, rest := ts[0].kind, ts[1..];
    if InfixOf(k).Some? { RestIsSuffix(rest, Prec(k) + 1); }
    else {
      match k
      case AndWord => RestIsSuffix(rest, AND);
      case OrWord => RestIsSuffix(rest, OR);
      case LParen => ListSuffix(rest, ts[0].line, RParen);
      case Dot => if canAssign && Starts(rest[1..], Equal) { RestIsSuffix(rest[2..], ASSIGNMENT); }
      case LBracket =>
        RestIsSuffix(rest, ASSIGNMENT);
        var close := ParsePrec(rest, ASSIGNMENT).value.rest;
        if canAssign && Starts(close[1..], Equal) { RestIsSuffix(close[1..][1..], ASSIGNMENT); }
    }
  }

  lemma {:induction false} ListSuffix(ts: seq<Token>, line: nat, close: Kind)
    requires ParseList(ts, line, close).Some?
    ensures Suffix(ParseList(ts, line, close).value.rest, ts)
    decreases |ts|, 3
  {
    hide ParseExprs;
    if !Starts(ts, close) { ExprsSuffix(ts); }
  }

  lemma {:induction false} ExprsSuffix(ts: seq<Token>)
    requires ParseExprs(ts).Some?
    ensures Suffix(ParseExprs(ts).value.rest, ts)
    decreases |ts|, 2
  {
    hide ParsePrec;
    RestIsSuffix(ts, ASSIGNMENT);
    var e := ParsePrec(ts, ASSIGNMENT).value;
    if Starts(e.rest, Comma) { ExprsSuffix(e.rest[1..]); }
  }
}
