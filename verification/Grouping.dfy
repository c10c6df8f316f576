/**
 How expressions without parentheses are read, from a list of the operators alone: the rule
 table and its precedences are not mentioned.
 */
module Grouping {
  import opened Values
  import opened Syntax
  import opened Pratt
  import opened PrattInverse
  import Numbers
  import Reading
  import Lexer
  import Rendering
  import opened Wording

  /** The operators that stand between two operands. */
  datatype Operator = OrElse | AndThen | Op(op: InfixOp)

  /** The classes of operators, loosest first; those of one class bind alike. */
  const CLASSES: seq<seq<Operator>> := [
    [OrElse],
    [AndThen],
    [Op(BangEqual), Op(EqualEqual)],
    [Op(Greater), Op(GreaterEqual), Op(Less), Op(LessEqual)],
    [Op(Minus), Op(Plus)],
    [Op(Slash), Op(Star)]
  ]

  ghost predicate Tighter(x: Operator, y: Operator) {
    exists m, n :: 0 <= n < m < |CLASSES| && x in CLASSES[m] && y in CLASSES[n]
  }

  ghost predicate Alike(x: Operator, y: Operator) {
    exists n :: 0 <= n < |CLASSES| && x in CLASSES[n] && y in CLASSES[n]
  }

  /** The token an operator is written as. */
  function Sign(x: Operator): Kind {
    match x
    case OrElse => OrWord
    case AndThen => AndWord
    case Op(BangEqual) => NotEq
    case Op(EqualEqual) => EqEq
    case Op(Greater) => Gt
    case Op(GreaterEqual) => GtEq
    case Op(Less) => LtSign
    case Op(LessEqual) => LtEq
    case Op(Minus) => MinusSign
    case Op(Plus) => PlusSign
    case Op(Slash) => SlashSign
    case Op(Star) => StarSign
  }

  function Join(x: Operator, l: Expr, r: Expr): Expr {
    match x
    case OrElse => Or(l, r)
    case AndThen => And(l, r)
    case Op(op) => Infix(op, l, r)
  }

  /** The outermost operator of an expression, if it stands between two operands. */
  function Joint(e: Expr): Option<Operator> {
    match e
    case Or(_, _) => Some(OrElse)
    case And(_, _) => Some(AndThen)
    case Infix(op, _, _) => Some(Op(op))
    case _ => None
  }

  /** Assignments extend as far to the right as they can. */
  predicate Assigns(e: Expr) {
    e.Assign? || e.SetMember? || e.SetIndex?
  }

  /** What members, elements and calls can be taken of as it stands. */
  predicate Primary(e: Expr) {
    Joint(e).None? && !Assigns(e) && !e.Prefix?
  }

  /** What can stand left of an operator: what binds tighter, and, but for `And` and `Or`, what binds alike. */
  ghost predicate MayBeLeft(x: Operator, e: Expr) {
    !Assigns(e) && (Joint(e).None? || Tighter(Joint(e).value, x) || (x.Op? && Alike(Joint(e).value, x)))
  }

  /** And right of it: only for `And` and `Or` also what binds alike. */
  ghost predicate MayBeRight(x: Operator, e: Expr) {
    !Assigns(e) && (Joint(e).None? || Tighter(Joint(e).value, x) || (!x.Op? && Alike(Joint(e).value, x)))
  }

  /** Every operand is one that may stand where it does, or is in parentheses. */
  ghost predicate Bracketed(e: Expr)
    decreases e, 1
  {
    match e
    case Or(l, r) => Bracketed(l) && MayBeLeft(OrElse, l) && Bracketed(r) && MayBeRight(OrElse, r)
    case And(l, r) => Bracketed(l) && MayBeLeft(AndThen, l) && Bracketed(r) && MayBeRight(AndThen, r)
    case Infix(op, l, r) => Bracketed(l) && MayBeLeft(Op(op), l) && Bracketed(r) && MayBeRight(Op(op), r)
    case Prefix(_, x) => Bracketed(x) && (Primary(x) || x.Prefix?)
    case Member(o, _) => Bracketed(o) && Primary(o)
    case Index(o, k) => Bracketed(o) && Primary(o) && Bracketed(k)
    case Invoke(f, args) => Bracketed(f) && Primary(f) && AllBracketed(args)
    case Assign(_, v) => Bracketed(v)
    case SetMember(o, _, v) => Bracketed(o) && Primary(o) && Bracketed(v)
    case SetIndex(o, k, v) => Bracketed(o) && Primary(o) && Bracketed(k) && Bracketed(v)
    case MapLit(es) => AllBracketed(es)
    case Group(x) => Bracketed(x)
    case _ => true
  }

  ghost predicate AllBracketed(es: seq<Expr>)
    decreases es, 0
  {
    es == [] || (Bracketed(es[0]) && AllBracketed(es[1..]))
  }

  /** Where an operator is in the list. */
  function ClassOf(x: Operator): (n: nat)
    ensures n < |CLASSES| && x in CLASSES[n]
  {
    match x
    case OrElse => assert CLASSES[0][0] == x; 0
    case AndThen => assert CLASSES[1][0] == x; 1
    case Op(op) =>
      match op
      case BangEqual => assert CLASSES[2][0] == x; 2
      case EqualEqual => assert CLASSES[2][1] == x; 2
      case Greater => assert CLASSES[3][0] == x; 3
      case GreaterEqual => assert CLASSES[3][1] == x; 3
      case Less => assert CLASSES[3][2] == x; 3
      case LessEqual => assert CLASSES[3][3] == x; 3
      case Minus => assert CLASSES[4][0] == x; 4
      case Plus => assert CLASSES[4][1] == x; 4
      case Slash => assert CLASSES[5][0] == x; 5
      case Star => assert CLASSES[5][1] == x; 5
  }

  lemma OneClass(x: Operator, n: nat)
    requires n < |CLASSES| && x in CLASSES[n]
    ensures n == ClassOf(x)
  {
  }

  lemma ByClass(x: Operator, y: Operator)
    ensures Tighter(x, y) <==> ClassOf(x) > ClassOf(y)
    ensures Alike(x, y) <==> ClassOf(x) == ClassOf(y)
  {
    hide ClassOf;
    if Tighter(x, y) {
      var m, n :| 0 <= n < m < |CLASSES| && x in CLASSES[m] && y in CLASSES[n];
      OneClass(x, m);
      OneClass(y, n);
    }
    if Alike(x, y) {
      var n :| 0 <= n < |CLASSES| && x in CLASSES[n] && y in CLASSES[n];
      OneClass(x, n);
      OneClass(y, n);
    }
  }

  /** The rule table has the operators in the order of the list. */
  lemma Table(x: Operator)
    ensures Prec(Sign(x)) == OR + ClassOf(x)
    ensures x.Op? ==> Sign(x) == InfixKind(x.op)
    ensures AND == OR + 1 && FACTOR < UNARY
  {
  }

  lemma LevelOf(e: Expr)
    ensures Joint(e).Some? ==> Level(e) == OR + ClassOf(Joint(e).value) <= FACTOR
    ensures Assigns(e) ==> Level(e) == ASSIGNMENT
    ensures e.Prefix? ==> Level(e) == UNARY
    ensures Primary(e) ==> Level(e) >= CALL
  {
    if Joint(e).Some? { Table(Joint(e).value); }
    hide ClassOf;
  }

  lemma Sides(x: Operator, e: Expr)
    ensures MayBeLeft(x, e) <==> Level(e) >= if x.Op? then Prec(Sign(x)) else Prec(Sign(x)) + 1
    ensures MayBeRight(x, e) <==> Level(e) >= if x.Op? then Prec(Sign(x)) + 1 else Prec(Sign(x))
  {
    hide ClassOf, Tighter, Alike, Prec, Sign, Level;
    Table(x);
    LevelOf(e);
    if Joint(e).Some? { ByClass(Joint(e).value, x); }
  }

  /** The two notions of an expression with the parentheses it needs are one. */
  lemma {:induction false} BracketedIsGrouped(e: Expr)
    ensures Bracketed(e) <==> Grouped(e)
    decreases e, 1
  {
    hide MayBeLeft, MayBeRight, Prec, Sign, Level, ClassOf;
    match e
    case Or(l, r) => BracketedIsGrouped(l); BracketedIsGrouped(r); Sides(OrElse, l); Sides(OrElse, r); Table(OrElse);
    case And(l, r) => BracketedIsGrouped(l); BracketedIsGrouped(r); Sides(AndThen, l); Sides(AndThen, r); Table(AndThen);
    case Infix(op, l, r) => BracketedIsGrouped(l); BracketedIsGrouped(r); Sides(Op(op), l); Sides(Op(op), r); Table(Op(op));
    case Prefix(_, x) => BracketedIsGrouped(x); LevelOf(x);
    case Member(o, _) => BracketedIsGrouped(o); LevelOf(o);
    case Index(o, k) => BracketedIsGrouped(o); LevelOf(o); BracketedIsGrouped(k);
    case Invoke(f, args) => BracketedIsGrouped(f); LevelOf(f); AllBracketedIsGrouped(args);
    case Assign(_, v) => BracketedIsGrouped(v);
    case SetMember(o, _, v) => BracketedIsGrouped(o); LevelOf(o); BracketedIsGrouped(v);
    case SetIndex(o, k, v) => BracketedIsGrouped(o); LevelOf(o); BracketedIsGrouped(k); BracketedIsGrouped(v);
    case MapLit(es) => AllBracketedIsGrouped(es);
    case Group(x) => BracketedIsGrouped(x);
    case _ =>
  }

  lemma {:induction false} AllBracketedIsGrouped(es: seq<Expr>)
    ensures AllBracketed(es) <==> AllGrouped(es)
    decreases es, 0
  {
    if es != [] {
      BracketedIsGrouped(es[0]);
      AllBracketedIsGrouped(es[1..]);
    }
  }

  /** A token that would go on with an expression before it: an operator, or what starts a member, an element or a call. */
  ghost predicate GoesOn(k: Kind) {
    (exists x :: k == Sign(x)) || k in {Dot, LBracket, LParen, Equal}
  }

  /** No token there, one on a later line, or one that does not go on with the expression. */
  ghost predicate Ends(rest: seq<Token>, line: nat) {
    rest == [] || (rest[0].line > line && rest[0].kind != Equal) || !GoesOn(rest[0].kind)
  }

  lemma EndsApart(rest: seq<Token>, line: nat)
    ensures Ends(rest, line) <==> Apart(rest, line, ASSIGNMENT) && !Starts(rest, Equal)
  {
    if rest != [] {
      var k := rest[0].kind;
      forall x | k == Sign(x) ensures Prec(k) > NONE { Table(x); }
      if Prec(k) > NONE && k !in {Dot, LBracket, LParen} { HasSign(k); }
    }
  }

  lemma HasSign(k: Kind)
    requires Prec(k) > NONE && k !in {Dot, LBracket, LParen}
    ensures exists x :: k == Sign(x)
  {
    match k
    case OrWord => assert k == Sign(OrElse);
    case AndWord => assert k == Sign(AndThen);
    case NotEq => assert k == Sign(Op(BangEqual));
    case EqEq => assert k == Sign(Op(EqualEqual));
    case Gt => assert k == Sign(Op(Greater));
    case GtEq => assert k == Sign(Op(GreaterEqual));
    case LtSign => assert k == Sign(Op(Less));
    case LtEq => assert k == Sign(Op(LessEqual));
    case MinusSign => assert k == Sign(Op(Minus));
    case PlusSign => assert k == Sign(Op(Plus));
    case SlashSign => assert k == Sign(Op(Slash));
    case StarSign => assert k == Sign(Op(Star));
    case _ =>
  }

  /** On one line, tokens are read as an expression exactly when they are its tokens and it is bracketed as the list asks. */
  lemma ReadIffBracketed(ts: seq<Token>, line: nat, e: Expr, rest: seq<Token>)
    requires forall i :: 0 <= i < |ts| - |rest| ==> ts[i].line == line
    ensures ParsePrec(ts, ASSIGNMENT) == Some(Parsed(e, rest, line)) <==> Bracketed(e) && ts == Toks(e, line) + rest && Ends(rest, line)
  {
    hide ParsePrec, Toks, Bracketed, Grouped, Ends, Apart;
    ParseIffPrinted(ts, line, e, rest);
    BracketedIsGrouped(e);
    EndsApart(rest, line);
  }

  /** The tokens of `l x r`. */
  lemma JoinPrints(x: Operator, l: Expr, r: Expr)
    ensures Print(Join(x, l, r)) == Print(l) + ([Sign(x)] + Print(r))
  {
    Table(x);
    PrintedOperator(l, r, if x.Op? then x.op else Plus);
  }

  /** An operand that is not itself two operands with an operator between them. */
  ghost predicate Operand(e: Expr) {
    Bracketed(e) && Joint(e).None? && !Assigns(e)
  }

  /** How `a x b y c` is read: to the right if `y` binds tighter, or if both are `And` or both `Or`, and else to the left. */
  ghost function ReadTwo(x: Operator, y: Operator, a: Expr, b: Expr, c: Expr): Expr {
    if Tighter(y, x) || (x == y && !x.Op?) then Join(x, a, Join(y, b, c)) else Join(y, Join(x, a, b), c)
  }

  /** Any two operators between any three operands. */
  lemma TwoOperators(x: Operator, y: Operator, a: Expr, b: Expr, c: Expr, line: nat, rest: seq<Token>)
    requires Operand(a) && Operand(b) && Operand(c) && Ends(rest, line)
    ensures ParsePrec(OnLine(Print(a) + [Sign(x)] + Print(b) + [Sign(y)] + Print(c), line) + rest, ASSIGNMENT)
      == Some(Parsed(ReadTwo(x, y, a, b, c), rest, line))
  {
    hide *;
    TwoBracketed(x, y, a, b, c);
    TwoPrint(x, y, a, b, c);
    ReadBracketed(ReadTwo(x, y, a, b, c), line, rest);
  }

  lemma TwoPrint(x: Operator, y: Operator, a: Expr, b: Expr, c: Expr)
    ensures Print(ReadTwo(x, y, a, b, c)) == Print(a) + [Sign(x)] + Print(b) + [Sign(y)] + Print(c)
  {
    hide Print, Sign, Tighter, Join;
    JoinPrints(x, a, b);
    JoinPrints(y, b, c);
    JoinPrints(x, a, Join(y, b, c));
    JoinPrints(y, Join(x, a, b), c);
  }

  lemma OrBracketed(l: Expr, r: Expr)
    requires Bracketed(l) && MayBeLeft(OrElse, l) && Bracketed(r) && MayBeRight(OrElse, r)
    ensures Bracketed(Or(l, r))
  {
    hide MayBeLeft, MayBeRight;
  }

  lemma AndBracketed(l: Expr, r: Expr)
    requires Bracketed(l) && MayBeLeft(AndThen, l) && Bracketed(r) && MayBeRight(AndThen, r)
    ensures Bracketed(And(l, r))
  {
    hide MayBeLeft, MayBeRight;
  }

  lemma InfixBracketed(op: InfixOp, l: Expr, r: Expr)
    requires Bracketed(l) && MayBeLeft(Op(op), l) && Bracketed(r) && MayBeRight(Op(op), r)
    ensures Bracketed(Infix(op, l, r))
  {
    hide MayBeLeft, MayBeRight;
  }

  lemma JoinBracketed(x: Operator, l: Expr, r: Expr)
    requires Bracketed(l) && MayBeLeft(x, l) && Bracketed(r) && MayBeRight(x, r)
    ensures Bracketed(Join(x, l, r)) && Joint(Join(x, l, r)) == Some(x) && !Assigns(Join(x, l, r))
  {
    hide MayBeLeft, MayBeRight;
    match x {
      case OrElse => OrBracketed(l, r);
      case AndThen => AndBracketed(l, r);
      case Op(op) => InfixBracketed(op, l, r);
    }
    hide Bracketed;
  }

  /** Where the second operator does not take the middle operand, the first does. */
  lemma EitherTakes(x: Operator, y: Operator)
    ensures Tighter(y, x) || (x == y && !x.Op?) || Tighter(x, y) || (y.Op? && Alike(x, y))
    ensures x == y ==> Alike(x, y)
  {
    hide ClassOf, Tighter, Alike;
    ByClass(x, y);
    ByClass(y, x);
    SameConnective(x, y);
  }

  lemma TwoBracketed(x: Operator, y: Operator, a: Expr, b: Expr, c: Expr)
    requires Operand(a) && Operand(b) && Operand(c)
    ensures Bracketed(ReadTwo(x, y, a, b, c))
  {
    hide ClassOf, Tighter, Alike, Bracketed, Join;
    EitherTakes(x, y);
    if Tighter(y, x) || (x == y && !x.Op?) {
      JoinBracketed(y, b, c);
      JoinBracketed(x, a, Join(y, b, c));
    } else {
      JoinBracketed(x, a, b);
      JoinBracketed(y, Join(x, a, b), c);
    }
  }

  /** No class has two connectives, or a connective and another operator. */
  lemma SameConnective(x: Operator, y: Operator)
    ensures !x.Op? || !y.Op? ==> (ClassOf(x) == ClassOf(y) <==> x == y)
  {
  }

  /** Prefix operators take less than any operator between operands: `p a x b`. */
  lemma PrefixFirst(p: PrefixOp, x: Operator, a: Expr, b: Expr, line: nat, rest: seq<Token>)
    requires Operand(a) && Operand(b) && Ends(rest, line)
    ensures ParsePrec(OnLine([PrefixSign(p)] + Print(a) + [Sign(x)] + Print(b), line) + rest, ASSIGNMENT)
      == Some(Parsed(Join(x, Prefix(p, a), b), rest, line))
  {
    hide *;
    var e := Join(x, Prefix(p, a), b);
    PrefixBracketed(p, x, a, b);
    JoinPrints(x, Prefix(p, a), b);
    PrefixPrints(p, a);
    assert Print(e) == [PrefixSign(p)] + Print(a) + [Sign(x)] + Print(b);
    ReadBracketed(e, line, rest);
  }

  lemma PrefixBracketed(p: PrefixOp, x: Operator, a: Expr, b: Expr)
    requires Operand(a) && Operand(b)
    ensures Bracketed(Join(x, Prefix(p, a), b))
  {
    hide Tighter, Alike, Join;
    assert Primary(a) || a.Prefix?;
    assert Bracketed(Prefix(p, a));
    hide Bracketed;
    JoinBracketed(x, Prefix(p, a), b);
  }

  /** And more than members, elements and calls: `p a.id`. */
  lemma PrefixLast(p: PrefixOp, a: Expr, id: Ident, k: Expr, args: seq<Expr>, line: nat, rest: seq<Token>)
    requires Bracketed(a) && Primary(a) && Bracketed(k) && AllBracketed(args) && Ends(rest, line)
    ensures ParsePrec(OnLine([PrefixSign(p)] + Print(a) + [Dot, Identifier(id)], line) + rest, ASSIGNMENT)
      == Some(Parsed(Prefix(p, Member(a, id)), rest, line))
    ensures ParsePrec(OnLine([PrefixSign(p)] + Print(a) + [LBracket] + Print(k) + [RBracket], line) + rest, ASSIGNMENT)
      == Some(Parsed(Prefix(p, Index(a, k)), rest, line))
    ensures ParsePrec(OnLine([PrefixSign(p)] + Print(a) + [LParen] + PrintAll(args) + [RParen], line) + rest, ASSIGNMENT)
      == Some(Parsed(Prefix(p, Invoke(a, args)), rest, line))
  {
    hide *;
    PostfixBracketed(p, a, id, k, args);
    PrefixPrints(p, Member(a, id));
    PrefixPrints(p, Index(a, k));
    PrefixPrints(p, Invoke(a, args));
    PostfixPrints(a, id, k, args);
    assert Print(Prefix(p, Member(a, id))) == [PrefixSign(p)] + Print(a) + [Dot, Identifier(id)];
    assert Print(Prefix(p, Index(a, k))) == [PrefixSign(p)] + Print(a) + [LBracket] + Print(k) + [RBracket];
    assert Print(Prefix(p, Invoke(a, args))) == [PrefixSign(p)] + Print(a) + [LParen] + PrintAll(args) + [RParen];
    ReadBracketed(Prefix(p, Member(a, id)), line, rest);
    ReadBracketed(Prefix(p, Index(a, k)), line, rest);
    ReadBracketed(Prefix(p, Invoke(a, args)), line, rest);
  }

  lemma PostfixBracketed(p: PrefixOp, a: Expr, id: Ident, k: Expr, args: seq<Expr>)
    requires Bracketed(a) && Primary(a) && Bracketed(k) && AllBracketed(args)
    ensures Bracketed(Prefix(p, Member(a, id))) && Bracketed(Prefix(p, Index(a, k))) && Bracketed(Prefix(p, Invoke(a, args)))
  {
    hide MayBeLeft, MayBeRight;
    assert Bracketed(Member(a, id)) && Bracketed(Index(a, k)) && Bracketed(Invoke(a, args));
  }

  /** An assignment takes everything to its right: `id = a x b`. */
  lemma AssignmentLast(id: Ident, x: Operator, a: Expr, b: Expr, line: nat, rest: seq<Token>)
    requires Operand(a) && Operand(b) && Ends(rest, line)
    ensures ParsePrec(OnLine([Identifier(id), Equal] + Print(a) + [Sign(x)] + Print(b), line) + rest, ASSIGNMENT)
      == Some(Parsed(Assign(id, Join(x, a, b)), rest, line))
  {
    hide *;
    var e := Assign(id, Join(x, a, b));
    AssignBracketed(id, x, a, b);
    JoinPrints(x, a, b);
    assert Print(e) == [Identifier(id), Equal] + Print(a) + [Sign(x)] + Print(b);
    ReadBracketed(e, line, rest);
  }

  lemma AssignBracketed(id: Ident, x: Operator, a: Expr, b: Expr)
    requires Operand(a) && Operand(b)
    ensures Bracketed(Assign(id, Join(x, a, b)))
    ensures Print(Assign(id, Join(x, a, b))) == [Identifier(id), Equal] + Print(Join(x, a, b))
  {
    JoinBracketed(x, a, b);
    hide MayBeLeft, MayBeRight, Join;
  }

  function PrefixSign(p: PrefixOp): Kind {
    match p
    case Bang => BangSign
    case NotWord => NotWordTok
    case Dash => MinusSign
  }

  lemma PrefixPrints(p: PrefixOp, a: Expr)
    ensures Print(Prefix(p, a)) == [PrefixSign(p)] + Print(a)
  {
  }

  lemma PostfixPrints(a: Expr, id: Ident, k: Expr, args: seq<Expr>)
    ensures Print(Member(a, id)) == Print(a) + [Dot, Identifier(id)]
    ensures Print(Index(a, k)) == Print(a) + ([LBracket] + (Print(k) + [RBracket]))
    ensures Print(Invoke(a, args)) == Print(a) + ([LParen] + (PrintAll(args) + [RParen]))
  {
  }

  lemma ReadBracketed(e: Expr, line: nat, rest: seq<Token>)
    requires Bracketed(e) && Ends(rest, line)
    ensures ParsePrec(OnLine(Print(e), line) + rest, ASSIGNMENT) == Some(Parsed(e, rest, line))
  {
    hide ParsePrec, OnLine, Print, Bracketed, Grouped, Prec;
    BracketedIsGrouped(e);
    EndsApart(rest, line);
    LevelOf(e);
    OperandParses(e, ASSIGNMENT, line, rest);
  }

  /** The written tokens are of these kinds, on one line. */
  ghost predicate OneLine(ws: seq<Writing>, ks: seq<Kind>) {
    |ws| == |ks| && forall i :: 0 <= i < |ws| ==> ws[i].kind == ks[i] && Feeds(ws[i].text) == 0 && (i > 0 ==> Feeds(ws[i].gap) == 0)
  }

  lemma {:induction false} MeantOnLine(ws: seq<Writing>, last: string, line: nat, ks: seq<Kind>)
    requires OneLine(ws, ks) && (ws != [] ==> Feeds(ws[0].gap) == 0)
    ensures Meant(ws, last, line) == OnLine(ks, line) + [Token(Eof, line + Feeds(last))]
    decreases |ws|
  {
    hide Feeds;
    if ws == [] {
      OnLineNone(line);
    } else {
      MeantOnLine(ws[1..], last, line, ks[1..]);
      MeantCons(ws, last, line);
      assert ks == [ks[0]] + ks[1..];
      OnLineAppend([ks[0]], ks[1..], line);
      OnLineFew(ks[0], ks[0], ks[0], line);
    }
  }

  /** The characters of a bracketed expression, however they are spaced on their line, are read as that expression. */
  lemma TextIsExpression(h: Host, e: Expr, ws: seq<Writing>, last: string)
    requires Numbers.Reads(h) && Legible(h, ws, last) && Bracketed(e) && OneLine(ws, Print(e))
    ensures
      var line := 1 + Feeds(ws[0].gap);
      var toks := Reading.ParserTokens(h, Lexer.TokensOf(Rendering.Render(PiecesOf(ws), last)));
      toks.Some? && ParsePrec(toks.value, ASSIGNMENT) == Some(Parsed(e, [Token(Eof, line + Feeds(last))], line))
  {
    hide Numbers.Reads, Legible, Bracketed, Print, OnLine, ParsePrec, Reading.ParserTokens, Lexer.TokensOf, Rendering.Render, PiecesOf, Feeds, Prec, Meant;
    TextIsRead(h, ws, last);
    var line, ks, eof := 1 + Feeds(ws[0].gap), Print(e), [Token(Eof, 1 + Feeds(ws[0].gap) + Feeds(last))];
    MeantCons(ws, last, 1);
    MeantOnLine(ws[1..], last, line, ks[1..]);
    assert ks == [ks[0]] + ks[1..];
    OnLineAppend([ks[0]], ks[1..], line);
    OnLineFew(ks[0], ks[0], ks[0], line);
    assert Meant(ws, last, 1) == OnLine(ks, line) + eof;
    EofEnds(eof, line);
    ReadBracketed(e, line, eof);
  }

  lemma EofEnds(rest: seq<Token>, line: nat)
    requires rest != [] && rest[0].kind == Eof
    ensures Ends(rest, line)
  {
    forall x ensures Sign(x) != Eof { }
  }
}
