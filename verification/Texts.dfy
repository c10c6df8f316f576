/** The string constants of compiled code are strings of its source. */
module Texts {
  import opened Values
  import opened Syntax
  import opened Codegen
  import opened Interning
  import Bytecode

  predicate TextsIn(pool: seq<Value>, all: set<string>) {
    forall i :: 0 <= i < |pool| && pool[i].Str? ==> pool[i].s in all
  }

  lemma AddsText(h: Host, all: set<string>)
    ensures forall pool: Pool, v: Value :: Constant(v) && (v.Str? ==> v.s in all) && TextsIn(pool, all) && AddConst(h.Plain(), pool, v).Some? ==>
      TextsIn(AddConst(h.Plain(), pool, v).value.pool, all)
    ensures forall id :: Key(h.Plain(), id) == Canon(id)
  {
  }

  lemma {:induction false} ExprTexts(h: Host, e: Expr, locals: Locals, pool: Pool, all: set<string>)
    requires CodeExpr(h.Plain(), e, locals, pool).Some? && TextsIn(pool, all) && ExprStrings(e) <= all
    ensures TextsIn(CodeExpr(h.Plain(), e, locals, pool).value.pool, all)
    decreases e, 1
  {
    hide Bytecode.Encode, Key, InfixCode, PrefixCode, AddConst, Resolve, TextsIn, Canon;
    AddsText(h, all);
    var g := h.Plain();
    match e
    case Assign(id, v) =>
      if Resolve(locals, id) >= 0 { ExprTexts(h, v, locals, pool, all); }
      else { ExprTexts(h, v, locals, AddConst(g, pool, Str(Canon(id))).value.pool, all); }
    case Member(o, _) => ExprTexts(h, o, locals, pool, all);
    case SetMember(_, _, _) => StoreTexts(h, e, locals, pool, all);
    case Index(o, k) =>
      ExprTexts(h, o, locals, pool, all);
      ExprTexts(h, k, locals, CodeExpr(g, o, locals, pool).value.pool, all);
    case SetIndex(_, _, _) => StoreTexts(h, e, locals, pool, all);
    case Prefix(_, x) => ExprTexts(h, x, locals, pool, all);
    case Infix(_, l, r) =>
      ExprTexts(h, l, locals, pool, all);
      ExprTexts(h, r, locals, CodeExpr(g, l, locals, pool).value.pool, all);
    case And(l, r) =>
      ExprTexts(h, l, locals, pool, all);
      ExprTexts(h, r, locals, CodeExpr(g, l, locals, pool).value.pool, all);
    case Or(l, r) =>
      ExprTexts(h, l, locals, pool, all);
      ExprTexts(h, r, locals, CodeExpr(g, l, locals, pool).value.pool, all);
    case Invoke(f, args) =>
      ExprTexts(h, f, locals, pool, all);
      ExprsTexts(h, args, locals, CodeExpr(g, f, locals, pool).value.pool, all);
    case MapLit(es) => ExprsTexts(h, es, locals, pool, all);
    case Group(x) => ExprTexts(h, x, locals, pool, all);
    case _ =>
  }

  lemma {:induction false} StoreTexts(h: Host, e: Expr, locals: Locals, pool: Pool, all: set<string>)
    requires CodeExpr(h.Plain(), e, locals, pool).Some? && TextsIn(pool, all) && ExprStrings(e) <= all && (e.SetMember? || e.SetIndex?)
    ensures TextsIn(CodeExpr(h.Plain(), e, locals, pool).value.pool, all)
    decreases e, 0
  {
    hide Bytecode.Encode, Key, AddConst, TextsIn, Canon;
    AddsText(h, all);
    var g := h.Plain();
    ExprTexts(h, e.obj, locals, pool, all);
    var o := CodeExpr(g, e.obj, locals, pool).value;
    if e.SetMember? {
      ExprTexts(h, e.value, locals, AddConst(g, o.pool, Str(Canon(e.id))).value.pool, all);
    } else {
      ExprTexts(h, e.key, locals, o.pool, all);
      ExprTexts(h, e.value, locals, CodeExpr(g, e.key, locals, o.pool).value.pool, all);
    }
  }

  lemma {:induction false} ExprsTexts(h: Host, es: seq<Expr>, locals: Locals, pool: Pool, all: set<string>)
    requires CodeExprs(h.Plain(), es, locals, pool).Some? && TextsIn(pool, all) && AllStrings(es) <= all
    ensures TextsIn(CodeExprs(h.Plain(), es, locals, pool).value.pool, all)
    decreases es, 0
  {
    hide TextsIn, CodeExpr, ExprStrings;
    if es != [] {
      ExprTexts(h, es[0], locals, pool, all);
      ExprsTexts(h, es[1..], locals, CodeExpr(h.Plain(), es[0], locals, pool).value.pool, all);
    }
  }

  lemma {:induction false} ItemsTexts(h: Host, items: seq<Init>, locals: Locals, pool: Pool, all: set<string>)
    requires CodeItems(h.Plain(), items, locals, pool).Some? && TextsIn(pool, all) && ItemStrings(items) <= all
    ensures TextsIn(CodeItems(h.Plain(), items, locals, pool).value.pool, all)
    decreases items, 0
  {
    hide TextsIn, CodeExpr, ExprStrings, AddConst, Key, Canon, Bytecode.Encode;
    if items != [] {
      AddsText(h, all);
      var g := h.Plain();
      var c := AddConst(g, pool, Str(Canon(items[0].name))).value;
      ExprTexts(h, items[0].value, locals, c.pool, all);
      ItemsTexts(h, items[1..], locals, CodeExpr(g, items[0].value, locals, c.pool).value.pool, all);
    }
  }

  lemma {:induction false} StmtTexts(h: Host, s: Stmt, sc: Scope, locals: Locals, pool: Pool, all: set<string>)
    requires CodeStmt(h.Plain(), s, sc, locals, pool).Some? && TextsIn(pool, all) && StmtStrings(s) <= all
    ensures TextsIn(CodeStmt(h.Plain(), s, sc, locals, pool).value.pool, all)
    decreases s, 1
  {
    hide Bytecode.Encode, Key, CodeExpr, CodeExprs, CodeItems, Useless, Taken, Pops, Above, AddConst, TextsIn, Canon, ExprStrings, AllStrings, ItemStrings;
    AddsText(h, all);
    var g := h.Plain();
    match s
    case ExprStmt(e) => ExprTexts(h, e, locals, pool, all);
    case PrintStmt(es) => ExprsTexts(h, es, locals, pool, all);
    case If(c, t, e) =>
      ExprTexts(h, c, locals, pool, all);
      var c' := CodeExpr(g, c, locals, pool).value;
      StmtTexts(h, t, sc, locals, c'.pool, all);
      StmtTexts(h, e, sc, locals, CodeStmt(g, t, sc, locals, c'.pool).value.pool, all);
    case Return(e) => ExprTexts(h, e, locals, pool, all);
    case ReturnNull =>
    case Block(body) => BlockTexts(h, body, sc.(depth := sc.depth + 1), locals, pool, all);
    case Var(name, init) =>
      if sc.depth == 0 { ExprTexts(h, init, locals, AddConst(g, pool, Str(Canon(name))).value.pool, all); }
      else { ExprTexts(h, init, AddLocal(locals, sc.depth, name).value, pool, all); }
    case Globals(items) => ItemsTexts(h, items, locals, pool, all);
    case FunDecl(_, _, _, _) =>
  }

  lemma {:induction false} BlockTexts(h: Host, ss: seq<Stmt>, sc: Scope, locals: Locals, pool: Pool, all: set<string>)
    requires CodeBlock(h.Plain(), ss, sc, locals, pool).Some? && TextsIn(pool, all) && BlockStrings(ss) <= all
    ensures TextsIn(CodeBlock(h.Plain(), ss, sc, locals, pool).value.pool, all)
    decreases ss, 0
  {
    hide CodeStmt, StmtStrings, TextsIn;
    if ss != [] {
      StmtTexts(h, ss[0], sc, locals, pool, all);
      var x := CodeStmt(h.Plain(), ss[0], sc, locals, pool).value;
      BlockTexts(h, ss[1..], sc, x.locals, x.pool, all);
    }
  }

  lemma FunctionTexts(h: Host, d: Decl, all: set<string>)
    requires CodeFunction(h.Plain(), d).Some? && BlockStrings(d.body) <= all
    ensures TextsIn(CodeFunction(h.Plain(), d).value.consts, all)
  {
    hide Bytecode.Encode, CodeBlock, BlockStrings;
    if d.script { BlockTexts(h, d.body, Scope(0, true), [SelfLocal], [], all); }
    else { BlockTexts(h, d.body, Scope(1, false), AddParams([SelfLocal], d.params).value, [], all); }
  }

  /** Every string constant of a compiled script is a literal of it, or a name in lower case. */
  lemma ScriptTexts(h: Host, body: seq<Stmt>)
    requires CodeProgram(h.Plain(), body).Some?
    ensures
      var p := CodeProgram(h.Plain(), body).value;
      forall i :: 0 <= i < |p| ==> TextsIn(p[i].consts, BlockStrings(body))
  {
    hide CodeFunction, BlockStrings, TextsIn;
    InnerStrings(body);
    var w := WorldOf(body);
    FunctionsEach(h.Plain(), w);
    forall i | 0 <= i < |w| ensures TextsIn(CodeProgram(h.Plain(), body).value[i].consts, BlockStrings(body)) {
      assert w[i] in w;
      FunctionTexts(h, w[i], BlockStrings(body));
    }
  }
}
