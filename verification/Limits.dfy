/** What the compiler refuses: how large a script may be, in numbers, and what may stand where. */
module Limits {
  import opened Values
  import opened Syntax
  import opened Codegen
  import opened Evaluator
  import Machine
  import Bytecode

  /** A call passes at most 31 arguments. */
  lemma Arguments(h: Host, f: Expr, args: seq<Expr>, locals: Locals, pool: Pool)
    ensures
      var c := CodeExpr(h, f, locals, pool);
      CodeExpr(h, Invoke(f, args), locals, pool).Some? <==> c.Some? && CodeExprs(h, args, locals, c.value.pool).Some? && |args| <= 31
  {
    hide CodeExprs;
  }

  /** `Print` prints at most 32 values. */
  lemma Printed(h: Host, es: seq<Expr>, sc: Scope, locals: Locals, pool: Pool)
    ensures CodeStmt(h, PrintStmt(es), sc, locals, pool).Some? <==> CodeExprs(h, es, locals, pool).Some? && |es| <= 32
  {
    hide CodeExprs;
  }

  /** A function has at most 32 parameters, and all its variables are at most 255. */
  lemma Parameters(h: Host, d: Decl, locals: Locals, depth: nat, name: string)
    requires !d.script
    ensures CodeFunction(h, d).Some? ==> |d.params| <= 32
    ensures AddLocal(locals, depth, name).Some? <==> |locals| <= 255 && !Taken(locals, depth, name)
  {
    hide CodeBlock, AddParams;
  }

  /** A function has at most 256 constants, counting equal ones once. */
  lemma {:induction false} Constants(h: Host, pool: Pool, v: Value)
    requires Constant(v) && |pool| <= 256
    ensures AddConst(h, pool, v).None? <==> |pool| == 256 && forall i :: 0 <= i < |pool| ==> !ValEqual(h, pool[i], v)
  {
    hide ValEqual;
    NoneFound(h, pool, v, 0);
  }

  lemma {:induction false} NoneFound(h: Host, pool: Pool, v: Value, from: nat)
    requires from <= |pool|
    ensures FindConst(h, pool, v, from) == |pool| <==> forall i :: from <= i < |pool| ==> !ValEqual(h, pool[i], v)
    decreases |pool| - from
  {
    hide ValEqual;
    if from < |pool| { NoneFound(h, pool, v, from + 1); }
  }

  /** A jump skips at most 65535 bytes: the right operand of `And` is at most 65534 bytes long. */
  lemma Operands(l: Piece, r: Piece)
    ensures CodeAnd(l, r).Some? <==> |r.code| <= 65534
    ensures CodeOr(l, r).Some? <==> |r.code| <= 65534
  {
    hide Bytecode.Encode;
  }

  /** Calls go 64 deep, the script's own included, and no deeper. */
  lemma Depth(h: Host, w: World, f: Value, e: Expr, args: seq<Expr>, env: Env, st: Machine.Store, height: nat)
    requires height <= 64 && f.Fun? && f.site < |w| && |w[f.site].params| == |args|
    requires Eval(h, w, e, f, env, st, height) == Ok(f, env, st) && EvalAll(h, w, args, f, env, st, height).Ok?
    ensures height == 64 ==>
      Eval(h, w, Invoke(e, args), f, env, st, height) == Err(Machine.StackOverflow, EvalAll(h, w, args, f, env, st, height).store)
    ensures height < 64 ==>
      var vs := EvalAll(h, w, args, f, env, st, height);
      Eval(h, w, Invoke(e, args), f, env, st, height)
      == ReturnValue(EvalBlock(h, w, w[f.site].body, w[f.site].script, f, Bind(w[f.site].params, vs.value), vs.store, height + 1), vs.env)
  {
    hide EvalAll, EvalBlock;
  }

  /** Any other number of arguments is the error, however deep the call. */
  lemma Arity(h: Host, w: World, f: Value, e: Expr, args: seq<Expr>, env: Env, st: Machine.Store, height: nat)
    requires height <= 64 && f.Fun? && f.site < |w| && |w[f.site].params| != |args|
    requires Eval(h, w, e, f, env, st, height) == Ok(f, env, st) && EvalAll(h, w, args, f, env, st, height).Ok?
    ensures
      Eval(h, w, Invoke(e, args), f, env, st, height)
      == Err(Machine.WrongArgumentCount, EvalAll(h, w, args, f, env, st, height).store)
  {
    hide EvalAll, EvalBlock;
  }

  /** An expression alone is a statement if and only if it is not a primary with members only. */
  lemma Useful(h: Host, e: Expr, sc: Scope, locals: Locals, pool: Pool)
    ensures CodeStmt(h, ExprStmt(e), sc, locals, pool).Some? <==> CodeExpr(h, e, locals, pool).Some? && !MemberChain(e)
  {
    hide CodeExpr, Useless, MemberChain;
    UselessIsMemberChain(e);
  }

  /** `Return` is refused in the script itself, at any depth of blocks, and nowhere else. */
  lemma Returning(h: Host, e: Expr, sc: Scope, locals: Locals, pool: Pool)
    ensures CodeStmt(h, ReturnNull, sc, locals, pool).Some? <==> !sc.script
    ensures CodeStmt(h, Return(e), sc, locals, pool).Some? <==> !sc.script && CodeExpr(h, e, locals, pool).Some?
    ensures CodeFunction(h, Decl(true, [], [Return(e)])).None? && CodeFunction(h, Decl(true, [], [Block([Return(e)])])).None?
  {
    hide CodeExpr;
    assert CodeBlock(h, [Return(e)], Scope(0, true), [SelfLocal], []).None?;
    assert CodeBlock(h, [Return(e)], Scope(1, true), [SelfLocal], []).None?;
    assert CodeStmt(h, Block([Return(e)]), Scope(0, true), [SelfLocal], []).None?;
  }
}
