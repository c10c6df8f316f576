/** Code generation fails on a phrase as soon as it fails on a part that is compiled first. */
module Strictness {
  import opened Values
  import opened Syntax
  import opened Codegen
  import opened Pratt
  import opened PrattRules

  /** The operand of `e` that its code starts with. */
  function LeftOf(e: Expr): Option<Expr> {
    match e
    case Member(o, _) => Some(o)
    case SetMember(o, _, _) => Some(o)
    case Index(o, _) => Some(o)
    case SetIndex(o, _, _) => Some(o)
    case Infix(_, l, _) => Some(l)
    case And(l, _) => Some(l)
    case Or(l, _) => Some(l)
    case Invoke(f, _) => Some(f)
    case _ => None
  }

  lemma LeftFails(h: Host, e: Expr, locals: Locals, pool: Pool)
    requires LeftOf(e).Some? && CodeExpr(h, LeftOf(e).value, locals, pool).None?
    ensures CodeExpr(h, e, locals, pool).None?
  {
  }

  lemma InfixKeepsLeft(e: Expr, ts: seq<Token>, canAssign: bool)
    requires ts != [] && Prec(ts[0].kind) > NONE && ParseInfix(e, ts, canAssign).Some?
    ensures LeftOf(ParseInfix(e, ts, canAssign).value.value) == Some(e)
  {
    hide ParsePrec, ParseList;
  }

  /** An infix rule keeps the flags its left operand set; a call sets its own. */
  lemma InfixFlags(e: Expr, ts: seq<Token>, canAssign: bool)
    requires ts != [] && Prec(ts[0].kind) > NONE && ParseInfix(e, ts, canAssign).Some?
    ensures var e' := ParseInfix(e, ts, canAssign).value.value;
      (HadCall(e) ==> HadCall(e')) && (HadAssign(e) ==> HadAssign(e')) && (ts[0].kind.LParen? ==> HadCall(e'))
  {
    InfixKeepsLeft(e, ts, canAssign);
    hide ParsePrec, ParseList;
    var e' := ParseInfix(e, ts, canAssign).value.value;
    if ts[0].kind.LParen? { assert e'.Invoke?; }
    hide ParseInfix;
    LeftFlags(e');
  }

  lemma LeftFlags(e: Expr)
    requires LeftOf(e).Some?
    ensures (HadCall(LeftOf(e).value) ==> HadCall(e)) && (HadAssign(LeftOf(e).value) ==> HadAssign(e))
    ensures e.Invoke? ==> HadCall(e)
  {
  }

  /** An infix rule keeps its left operand's failure. */
  lemma InfixStrict(h: Host, e: Expr, ts: seq<Token>, canAssign: bool, locals: Locals, pool: Pool)
    requires ts != [] && Prec(ts[0].kind) > NONE && ParseInfix(e, ts, canAssign).Some?
    requires CodeExpr(h, e, locals, pool).None?
    ensures CodeExpr(h, ParseInfix(e, ts, canAssign).value.value, locals, pool).None?
  {
    hide ParseInfix, CodeExpr;
    InfixKeepsLeft(e, ts, canAssign);
    LeftFails(h, ParseInfix(e, ts, canAssign).value.value, locals, pool);
  }

  lemma {:induction false} InfixesStrict(h: Host, e: Expr, ts: seq<Token>, line: nat, p: nat, locals: Locals, pool: Pool)
    requires p >= ASSIGNMENT && CodeExpr(h, e, locals, pool).None?
    ensures
      var r := ParseInfixes(e, ts, line, p);
      r.Some? ==> CodeExpr(h, r.value.value, locals, pool).None?
    decreases |ts|
  {
    hide CodeExpr, ParseInfix;
    if Continues(ts, line, p) && ParseInfix(e, ts, p <= ASSIGNMENT).Some? {
      InfixStrict(h, e, ts, p <= ASSIGNMENT, locals, pool);
      var a := ParseInfix(e, ts, p <= ASSIGNMENT).value;
      InfixesStrict(h, a.value, a.rest, a.line, p, locals, pool);
    }
  }

  /** The code of a list is that of its front followed by that of the rest. */
  lemma {:induction false} CodeExprsAppend(h: Host, es: seq<Expr>, more: seq<Expr>, locals: Locals, pool: Pool)
    ensures
      CodeExprs(h, es + more, locals, pool) ==
      var a := CodeExprs(h, es, locals, pool);
      if a.None? then None
      else
        var b := CodeExprs(h, more, locals, a.value.pool);
        if b.None? then None else Some(Piece(a.value.code + b.value.code, b.value.pool))
    decreases es
  {
    hide CodeExpr;
    if es == [] {
      assert es + more == more;
      var b := CodeExprs(h, more, locals, pool);
      if b.Some? { assert [] + b.value.code == b.value.code; }
    } else {
      assert (es + more)[1..] == es[1..] + more;
      var a := CodeExpr(h, es[0], locals, pool);
      if a.Some? {
        CodeExprsAppend(h, es[1..], more, locals, a.value.pool);
        var b := CodeExprs(h, es[1..], locals, a.value.pool);
        if b.Some? {
          var c := CodeExprs(h, more, locals, b.value.pool);
          if c.Some? { assert a.value.code + b.value.code + c.value.code == a.value.code + (b.value.code + c.value.code); }
        }
      }
    }
  }

  lemma CodeOneExpr(h: Host, e: Expr, locals: Locals, pool: Pool)
    ensures CodeExprs(h, [e], locals, pool) == CodeExpr(h, e, locals, pool)
  {
    hide CodeExpr;
    var a := CodeExpr(h, e, locals, pool);
    if a.Some? { assert a.value.code + [] == a.value.code; }
  }

  /** A list being parsed: `done` so far, with `ts` left. */
  function ListTail(done: seq<Expr>, ts: seq<Token>, line: nat): Option<Parsed<seq<Expr>>> {
    if Starts(ts, Comma) then
      var more :- ParseExprs(ts[1..]);
      Some(Parsed(done + more.value, more.rest, more.line))
    else Some(Parsed(done, ts, line))
  }

  /** The same right before one more expression. */
  function ListGo(done: seq<Expr>, ts: seq<Token>): Option<Parsed<seq<Expr>>> {
    var e :- ParsePrec(ts, ASSIGNMENT);
    ListTail(done + [e.value], e.rest, e.line)
  }

  lemma ListGoes(done: seq<Expr>, ts: seq<Token>)
    ensures
      var e := ParsePrec(ts, ASSIGNMENT);
      ListGo(done, ts) == if e.None? then None else ListTail(done + [e.value.value], e.value.rest, e.value.line)
  {
    hide ParsePrec, ListTail;
  }

  lemma ListStart(ts: seq<Token>)
    ensures ParseExprs(ts) == ListGo([], ts)
  {
    hide ParsePrec;
    var e := ParsePrec(ts, ASSIGNMENT);
    if e.Some? { assert [] + [e.value.value] == [e.value.value]; }
  }

  lemma ListNext(done: seq<Expr>, ts: seq<Token>, line: nat)
    ensures ListTail(done, ts, line) == if Starts(ts, Comma) then ListGo(done, ts[1..]) else Some(Parsed(done, ts, line))
  {
    hide ParsePrec, ParseExprs, ListGo;
    if Starts(ts, Comma) {
      ListStart(ts[1..]);
      ListGoes([], ts[1..]);
      ListGoes(done, ts[1..]);
      var e := ParsePrec(ts[1..], ASSIGNMENT);
      if e.Some? { assert done + ([] + [e.value.value]) == done + [e.value.value]; }
      if e.Some? && Starts(e.value.rest, Comma) {
        var more := ParseExprs(e.value.rest[1..]);
        if more.Some? { assert done + ([] + [e.value.value] + more.value.value) == done + [e.value.value] + more.value.value; }
      }
    }
  }

  lemma {:induction false} InnerAllAppend(es: seq<Expr>, e: Expr)
    ensures InnerAll(es + [e]) == InnerAll(es) + 1 + Inner(e)
    ensures HadCallAny(es + [e]) == (HadCallAny(es) || HadCall(e))
    ensures HadAssignAny(es + [e]) == (HadAssignAny(es) || HadAssign(e))
    decreases es
  {
    hide Inner, HadCall, HadAssign;
    if es == [] {
      assert es + [e] == [e];
    } else {
      assert (es + [e])[1..] == es[1..] + [e];
      InnerAllAppend(es[1..], e);
    }
  }

  /** The flags of an expression, from its last operand `x` and the one before it. */
  lemma FlagsOf(e: Expr)
    ensures e.Infix? || e.And? || e.Or? ==>
      Inner(e) == Inner(e.left) + 1 + Inner(e.right)
      && HadCall(e) == (HadCall(e.left) || HadCall(e.right)) && HadAssign(e) == (HadAssign(e.left) || HadAssign(e.right))
    ensures e.Assign? ==> Inner(e) == 1 + Inner(e.value) && HadCall(e) == HadCall(e.value) && HadAssign(e)
    ensures e.Member? ==> Inner(e) == Inner(e.obj) && HadCall(e) == HadCall(e.obj) && HadAssign(e) == HadAssign(e.obj)
    ensures e.SetMember? ==>
      Inner(e) == Inner(e.obj) + 1 + Inner(e.value)
      && HadCall(e) == (HadCall(e.obj) || HadCall(e.value)) && HadAssign(e) == (HadAssign(e.obj) || HadAssign(e.value))
    ensures e.Index? ==>
      Inner(e) == Inner(e.obj) + 1 + Inner(e.key)
      && HadCall(e) == (HadCall(e.obj) || HadCall(e.key)) && HadAssign(e) == (HadAssign(e.obj) || HadAssign(e.key))
  {
  }

  lemma MoreFlagsOf(e: Expr)
    ensures e.SetIndex? ==>
      Inner(e) == Inner(e.obj) + 1 + Inner(e.key) + 1 + Inner(e.value)
      && HadCall(e) == (HadCall(e.obj) || HadCall(e.key) || HadCall(e.value)) && HadAssign(e)
    ensures e.Prefix? ==> Inner(e) == 1 + Inner(e.operand) && HadCall(e) == HadCall(e.operand) && HadAssign(e) == HadAssign(e.operand)
    ensures e.Group? ==> Inner(e) == 1 + Inner(e.inner) && HadCall(e) == HadCall(e.inner) && HadAssign(e) == HadAssign(e.inner)
    ensures e.Invoke? ==> Inner(e) == Inner(e.callee) + InnerAll(e.args) && HadCall(e) && HadAssign(e) == (HadAssign(e.callee) || HadAssignAny(e.args))
    ensures e.MapLit? ==> Inner(e) == InnerAll(e.elems) && HadCall(e) == HadCallAny(e.elems) && HadAssign(e) == HadAssignAny(e.elems)
  {
  }

  lemma IndexFlags(e: Expr, k: Expr, ts: seq<Token>, line: nat, canAssign: bool)
    ensures
      var r := IndexRest(e, k, ts, line, canAssign);
      r.Some? ==>
        (HadCall(e) || HadCall(k) ==> HadCall(r.value.value)) && (HadAssign(e) || HadAssign(k) ==> HadAssign(r.value.value))
  {
    hide ParsePrec, HadCall, HadAssign;
    FlagsOf(Index(e, k));
    if canAssign && Starts(ts, Equal) && ParsePrec(ts[1..], ASSIGNMENT).Some? {
      MoreFlagsOf(SetIndex(e, k, ParsePrec(ts[1..], ASSIGNMENT).value.value));
    }
  }
}
