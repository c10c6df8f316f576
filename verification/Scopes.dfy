/** How scopes and locals behave during code generation. */
module Scopes {
  import opened Values
  import opened Bytecode
  import opened Syntax
  import opened Codegen

  /** Every local is initialised and was declared at most `depth` blocks deep. */
  predicate Settled(locals: seq<Local>, depth: nat) {
    forall i :: 0 <= i < |locals| ==> 0 <= locals[i].depth <= depth
  }

  /** `locals'` adds to `locals` only variables of the block at `depth`, and none at the top level. */
  predicate Grows(locals: seq<Local>, locals': seq<Local>, depth: nat) {
    |locals| <= |locals'| && locals'[..|locals|] == locals
    && (forall i :: |locals| <= i < |locals'| ==> locals'[i].depth == depth)
    && (depth == 0 ==> locals' == locals)
  }

  /** `endScope` drops exactly the variables of the closed block. */
  lemma {:induction false} AboveCounts(locals: Locals, locals': Locals, depth: nat)
    requires Settled(locals, depth) && Grows(locals, locals', depth + 1)
    ensures Above(locals', depth) == |locals'| - |locals|
  {
    if |locals'| > |locals| {
      AboveCounts(locals, locals'[..|locals'| - 1], depth);
    } else {
      assert locals' == locals;
    }
  }

  /** A statement leaves the locals it found, followed by those it declares in its own block. */
  lemma {:induction false} StmtGrows(h: Host, s: Stmt, sc: Scope, locals: Locals, pool: Pool)
    requires Settled(locals, sc.depth) && CodeStmt(h, s, sc, locals, pool).Some?
    ensures Grows(locals, CodeStmt(h, s, sc, locals, pool).value.locals, sc.depth)
    ensures Settled(CodeStmt(h, s, sc, locals, pool).value.locals, sc.depth)
    ensures Arm(s) ==> CodeStmt(h, s, sc, locals, pool).value.locals == locals
    decreases s, 1
  {
    hide CodeExpr, CodeExprs, CodeItems, CodeConst, AddConst, Encode, Pops, Useless, Taken;
    match s
    case If(cond, thn, els) =>
      var c := CodeExpr(h, cond, locals, pool).value;
      StmtGrows(h, thn, sc, locals, c.pool);
      var t := CodeStmt(h, thn, sc, locals, c.pool).value;
      StmtGrows(h, els, sc, locals, t.pool);
    case Block(body) =>
      var inner := sc.(depth := sc.depth + 1);
      BlockGrows(h, body, inner, locals, pool);
      AboveCounts(locals, CodeBlock(h, body, inner, locals, pool).value.locals, sc.depth);
    case _ =>
  }

  lemma {:induction false} BlockGrows(h: Host, ss: seq<Stmt>, sc: Scope, locals: Locals, pool: Pool)
    requires Settled(locals, sc.depth) && CodeBlock(h, ss, sc, locals, pool).Some?
    ensures Grows(locals, CodeBlock(h, ss, sc, locals, pool).value.locals, sc.depth)
    ensures Settled(CodeBlock(h, ss, sc, locals, pool).value.locals, sc.depth)
    decreases ss, 0
  {
    hide CodeStmt;
    if ss != [] {
      StmtGrows(h, ss[0], sc, locals, pool);
      var a := CodeStmt(h, ss[0], sc, locals, pool).value;
      BlockGrows(h, ss[1..], sc, a.locals, a.pool);
    }
  }

  /** The local an initializer must not read. */
  predicate Pending(locals: Locals, locals': Locals) {
    |locals'| == |locals| + 1 && locals'[..|locals|] == locals && locals'[|locals|].depth == -1
  }

  lemma ResolvePending(locals: Locals, locals': Locals, id: Ident)
    requires Pending(locals, locals')
    ensures var i := Resolve(locals', id); i == |locals| || i == Resolve(locals, id)
    ensures Resolve(locals', id) >= 0 && locals'[Resolve(locals', id)].depth != -1 ==> Resolve(locals', id) < |locals|
  {
  }

  /**
   An initializer compiles, beside its own pending variable, to the code it has without
   it: a use of the pending name is an error, not a shadowed outer variable.
   */
  lemma {:induction false} PendingUnused(h: Host, e: Expr, locals: Locals, locals': Locals, pool: Pool)
    requires Pending(locals, locals') && CodeExpr(h, e, locals', pool).Some?
    ensures CodeExpr(h, e, locals, pool) == CodeExpr(h, e, locals', pool)
    decreases e, 1
  {
    hide AddConst, Key, Encode, InfixCode, PrefixCode, CodeAnd, CodeOr, Resolve;
    match e
    case Name(id) => ResolvePending(locals, locals', id);
    case Assign(id, v) =>
      ResolvePending(locals, locals', id);
      if Resolve(locals', id) >= 0 { PendingUnused(h, v, locals, locals', pool); }
      else { PendingUnused(h, v, locals, locals', AddConst(h, pool, Str(Key(h, id))).value.pool); }
    case Member(o, _) => PendingUnused(h, o, locals, locals', pool);
    case SetMember(_, _, _) => PendingStore(h, e, locals, locals', pool);
    case Index(o, k) =>
      PendingUnused(h, o, locals, locals', pool);
      PendingUnused(h, k, locals, locals', CodeExpr(h, o, locals, pool).value.pool);
    case SetIndex(_, _, _) => PendingStore(h, e, locals, locals', pool);
    case Prefix(_, x) => PendingUnused(h, x, locals, locals', pool);
    case Infix(_, l, r) =>
      PendingUnused(h, l, locals, locals', pool);
      PendingUnused(h, r, locals, locals', CodeExpr(h, l, locals, pool).value.pool);
    case And(l, r) =>
      PendingUnused(h, l, locals, locals', pool);
      PendingUnused(h, r, locals, locals', CodeExpr(h, l, locals, pool).value.pool);
    case Or(l, r) =>
      PendingUnused(h, l, locals, locals', pool);
      PendingUnused(h, r, locals, locals', CodeExpr(h, l, locals, pool).value.pool);
    case Invoke(f, args) =>
      PendingUnused(h, f, locals, locals', pool);
      PendingUnusedAll(h, args, locals, locals', CodeExpr(h, f, locals, pool).value.pool);
    case MapLit(es) => PendingUnusedAll(h, es, locals, locals', pool);
    case Group(x) => PendingUnused(h, x, locals, locals', pool);
    case _ =>
  }

  lemma {:induction false} PendingStore(h: Host, e: Expr, locals: Locals, locals': Locals, pool: Pool)
    requires Pending(locals, locals') && CodeExpr(h, e, locals', pool).Some? && (e.SetMember? || e.SetIndex?)
    ensures CodeExpr(h, e, locals, pool) == CodeExpr(h, e, locals', pool)
    decreases e, 0
  {
    hide AddConst, Key, Encode;
    PendingUnused(h, e.obj, locals, locals', pool);
    var pool1 := CodeExpr(h, e.obj, locals, pool).value.pool;
    if e.SetMember? {
      PendingUnused(h, e.value, locals, locals', AddConst(h, pool1, Str(Key(h, e.id))).value.pool);
    } else {
      PendingUnused(h, e.key, locals, locals', pool1);
      PendingUnused(h, e.value, locals, locals', CodeExpr(h, e.key, locals, pool1).value.pool);
    }
  }

  lemma {:induction false} PendingUnusedAll(h: Host, es: seq<Expr>, locals: Locals, locals': Locals, pool: Pool)
    requires Pending(locals, locals') && CodeExprs(h, es, locals', pool).Some?
    ensures CodeExprs(h, es, locals, pool) == CodeExprs(h, es, locals', pool)
    decreases es, 0
  {
    if es != [] {
      PendingUnused(h, es[0], locals, locals', pool);
      PendingUnusedAll(h, es[1..], locals, locals', CodeExpr(h, es[0], locals, pool).value.pool);
    }
  }

  /** Parameters occupy the slots after the function, in order. */
  lemma {:induction false} ParamsGrow(locals: Locals, params: seq<Ident>)
    requires Settled(locals, 1) && AddParams(locals, params).Some?
    ensures
      var ls := AddParams(locals, params).value;
      Settled(ls, 1) && |ls| == |locals| + |params| && ls[..|locals|] == locals
      && forall i :: 0 <= i < |params| ==> ls[|locals| + i].name == params[i]
    decreases |params|
  {
    if params != [] {
      var ls := MarkLast(AddLocal(locals, 1, params[0]).value, 1);
      ParamsGrow(ls, params[1..]);
      var r := AddParams(ls, params[1..]).value;
      assert r[|locals|] == r[..|ls|][|locals|];
      assert r[..|locals|] == r[..|ls|][..|locals|];
      forall i | 0 <= i < |params|
        ensures r[|locals| + i].name == params[i]
      {
        if i > 0 { assert r[|ls| + (i - 1)].name == params[1..][i - 1]; }
      }
    }
  }

  /** A name is free in the current block exactly when no local of that depth has it. */
  lemma {:induction false} TakenIffDeclared(locals: seq<Local>, depth: nat, name: string)
    requires Settled(locals, depth) && Ordered(locals)
    ensures Taken(locals, depth, name) <==> Local(name, depth) in locals
  {
    if locals != [] {
      var last := locals[|locals| - 1];
      if last.depth < depth {
        assert forall i :: 0 <= i < |locals| ==> locals[i].depth <= last.depth;
      } else {
        TakenIffDeclared(locals[..|locals| - 1], depth, name);
        assert locals == locals[..|locals| - 1] + [last];
      }
    }
  }

  predicate Ordered(locals: seq<Local>) {
    forall i, j :: 0 <= i <= j < |locals| ==> locals[i].depth <= locals[j].depth
  }
}
