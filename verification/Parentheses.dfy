/** Adding the parentheses an arbitrary expression needs to be printed, and only those. */
module Parentheses {
  import opened Values
  import opened Syntax
  import opened Codegen
  import opened Pratt
  import opened PrattInverse

  /** `e`, in parentheses if it binds less tightly than its position asks for. */
  function Within(e: Expr, p: nat): Expr {
    if Level(e) >= p then e else Group(e)
  }

  function Parenthesise(e: Expr): (r: Expr)
    ensures Level(r) == Level(e)
    decreases e, 1
  {
    match e
    case Assign(id, v) => Assign(id, Parenthesise(v))
    case Member(o, id) => Member(Within(Parenthesise(o), CALL), id)
    case SetMember(o, id, v) => SetMember(Within(Parenthesise(o), CALL), id, Parenthesise(v))
    case Index(o, k) => Index(Within(Parenthesise(o), CALL), Parenthesise(k))
    case SetIndex(o, k, v) => SetIndex(Within(Parenthesise(o), CALL), Parenthesise(k), Parenthesise(v))
    case Prefix(op, x) => Prefix(op, Within(Parenthesise(x), UNARY))
    case Infix(op, l, r) =>
      var q := Prec(InfixKind(op));
      Infix(op, Within(Parenthesise(l), q), Within(Parenthesise(r), q + 1))
    case And(l, r) => And(Within(Parenthesise(l), AND + 1), Within(Parenthesise(r), AND))
    case Or(l, r) => Or(Within(Parenthesise(l), OR + 1), Within(Parenthesise(r), OR))
    case Invoke(f, args) => Invoke(Within(Parenthesise(f), CALL), ParenthesiseAll(args))
    case MapLit(es) => MapLit(ParenthesiseAll(es))
    case Group(x) => Group(Parenthesise(x))
    case _ => e
  }

  function ParenthesiseAll(es: seq<Expr>): (r: seq<Expr>)
    ensures |r| == |es|
    decreases es, 0
  {
    if es == [] then [] else [Parenthesise(es[0])] + ParenthesiseAll(es[1..])
  }

  lemma WithinGroups()
    ensures forall e: Expr, p: nat {:trigger Within(e, p)} :: Grouped(e) && p <= PRIMARY ==> GroupedAt(Within(e, p), p)
  {
  }

  lemma {:induction false} ParenthesiseGroups(e: Expr)
    ensures Grouped(Parenthesise(e))
    decreases e, 1
  {
    WithinGroups();
    hide Within, GroupedAt, Level;
    match e
    case Assign(_, v) => ParenthesiseGroups(v);
    case Member(o, _) => ParenthesiseGroups(o);
    case SetMember(o, _, v) => ParenthesiseGroups(o); ParenthesiseGroups(v);
    case Index(o, k) => ParenthesiseGroups(o); ParenthesiseGroups(k);
    case SetIndex(o, k, v) => ParenthesiseGroups(o); ParenthesiseGroups(k); ParenthesiseGroups(v);
    case Prefix(_, x) => ParenthesiseGroups(x);
    case Infix(_, l, r) => ParenthesiseGroups(l); ParenthesiseGroups(r);
    case And(l, r) => ParenthesiseGroups(l); ParenthesiseGroups(r);
    case Or(l, r) => ParenthesiseGroups(l); ParenthesiseGroups(r);
    case Invoke(f, args) => ParenthesiseGroups(f); ParenthesiseGroupsAll(args);
    case MapLit(es) => ParenthesiseGroupsAll(es);
    case Group(x) => ParenthesiseGroups(x);
    case _ =>
  }

  lemma {:induction false} ParenthesiseGroupsAll(es: seq<Expr>)
    ensures AllGrouped(ParenthesiseAll(es))
    decreases es, 0
  {
    if es != [] {
      ParenthesiseGroups(es[0]);
      ParenthesiseGroupsAll(es[1..]);
    }
  }

  /** Parentheses leave no trace in the code. */
  lemma {:induction false} ParenthesesAreFree(h: Host, e: Expr, locals: Locals, pool: Pool)
    ensures CodeExpr(h, Parenthesise(e), locals, pool) == CodeExpr(h, e, locals, pool)
    decreases e, 1
  {
    WithinIsFree(h, locals);
    hide Within, AddConst, Key, InfixCode, PrefixCode, CodeAnd, CodeOr, Resolve;
    match e
    case Assign(id, v) =>
      ParenthesesAreFree(h, v, locals, pool);
      var c := AddConst(h, pool, Str(Key(h, id)));
      if c.Some? { ParenthesesAreFree(h, v, locals, c.value.pool); }
    case Member(o, _) => ParenthesesAreFree(h, o, locals, pool);
    case SetMember(_, _, _) => StoreFree(h, e, locals, pool);
    case Index(o, k) =>
      ParenthesesAreFree(h, o, locals, pool);
      if CodeExpr(h, o, locals, pool).Some? { ParenthesesAreFree(h, k, locals, CodeExpr(h, o, locals, pool).value.pool); }
    case SetIndex(_, _, _) => StoreFree(h, e, locals, pool);
    case Prefix(_, x) => ParenthesesAreFree(h, x, locals, pool);
    case Infix(_, l, r) =>
      ParenthesesAreFree(h, l, locals, pool);
      if CodeExpr(h, l, locals, pool).Some? { ParenthesesAreFree(h, r, locals, CodeExpr(h, l, locals, pool).value.pool); }
    case And(l, r) =>
      ParenthesesAreFree(h, l, locals, pool);
      if CodeExpr(h, l, locals, pool).Some? { ParenthesesAreFree(h, r, locals, CodeExpr(h, l, locals, pool).value.pool); }
    case Or(l, r) =>
      ParenthesesAreFree(h, l, locals, pool);
      if CodeExpr(h, l, locals, pool).Some? { ParenthesesAreFree(h, r, locals, CodeExpr(h, l, locals, pool).value.pool); }
    case Invoke(f, args) =>
      ParenthesesAreFree(h, f, locals, pool);
      var a := CodeExpr(h, f, locals, pool);
      if a.Some? { AllFree(h, args, locals, a.value.pool); }
    case MapLit(es) => AllFree(h, es, locals, pool);
    case Group(x) => ParenthesesAreFree(h, x, locals, pool);
    case _ =>
  }

  lemma {:induction false} StoreFree(h: Host, e: Expr, locals: Locals, pool: Pool)
    requires e.SetMember? || e.SetIndex?
    ensures CodeExpr(h, Parenthesise(e), locals, pool) == CodeExpr(h, e, locals, pool)
    decreases e, 0
  {
    WithinIsFree(h, locals);
    hide Within, AddConst, Key;
    ParenthesesAreFree(h, e.obj, locals, pool);
    var a := CodeExpr(h, e.obj, locals, pool);
    if a.None? { return; }
    if e.SetMember? {
      var c := AddConst(h, a.value.pool, Str(Key(h, e.id)));
      if c.Some? { ParenthesesAreFree(h, e.value, locals, c.value.pool); }
    } else {
      ParenthesesAreFree(h, e.key, locals, a.value.pool);
      var k := CodeExpr(h, e.key, locals, a.value.pool);
      if k.Some? { ParenthesesAreFree(h, e.value, locals, k.value.pool); }
    }
  }

  lemma WithinIsFree(h: Host, locals: Locals)
    ensures forall e: Expr, p: nat, pool: Pool {:trigger CodeExpr(h, Within(e, p), locals, pool)} ::
      CodeExpr(h, Within(e, p), locals, pool) == CodeExpr(h, e, locals, pool)
  {
  }

  lemma {:induction false} AllFree(h: Host, es: seq<Expr>, locals: Locals, pool: Pool)
    ensures CodeExprs(h, ParenthesiseAll(es), locals, pool) == CodeExprs(h, es, locals, pool)
    decreases es, 0
  {
    if es != [] {
      ParenthesesAreFree(h, es[0], locals, pool);
      var a := CodeExpr(h, es[0], locals, pool);
      if a.Some? { AllFree(h, es[1..], locals, a.value.pool); }
    }
  }

  /**
   Parsing inverts printing up to code: the tokens of any expression, with just the
   parentheses it needs, parse to an expression with the same code.
   */
  lemma PrintedCodeIsCode(h: Host, e: Expr, line: nat, rest: seq<Token>, locals: Locals, pool: Pool)
    requires Apart(rest, line, ASSIGNMENT) && !Starts(rest, Equal)
    ensures
      var r := ParsePrec(Toks(Parenthesise(e), line) + rest, ASSIGNMENT);
      r.Some? && r.value.rest == rest && CodeExpr(h, r.value.value, locals, pool) == CodeExpr(h, e, locals, pool)
  {
    ParenthesiseGroups(e);
    OperandParses(Parenthesise(e), ASSIGNMENT, line, rest);
    ParenthesesAreFree(h, e, locals, pool);
  }
}
