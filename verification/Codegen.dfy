/**
 The code of an expression, a statement and a function: the bytes the single-pass
 compiler leaves behind, defined on the abstract syntax. `None` is a compile error.
 Jump distances are written down directly here; `Compiler` backpatches them.
 */
module Codegen {
  import opened Values
  import opened Bytecode
  import opened Syntax
  import Machine

  /** A local variable; depth -1 while its initializer is being compiled. */
  datatype Local = Local(name: string, depth: int)

  type Locals = s: seq<Local> | |s| <= UINT8_COUNT

  /** Only numbers without a sign, strings and functions become constants. */
  predicate Constant(v: Value) {
    v.Str? || v.Fun? || (v.Num? && v.raw < 0x8000_0000_0000_0000)
  }

  type Pool = s: seq<Value> | forall i :: 0 <= i < |s| ==> Constant(s[i])

  datatype Piece = Piece(code: seq<byte>, pool: Pool)

  datatype Gen = Gen(code: seq<byte>, pool: Pool, locals: Locals)

  datatype Slot = Slot(k: byte, pool: Pool)

  /** Whether code is compiled for the script, and how many blocks are open. */
  datatype Scope = Scope(depth: nat, script: bool)

  /** `resolveLocal`: the innermost local of that name, or -1. */
  function Resolve(locals: seq<Local>, name: string): (i: int)
    ensures -1 <= i < |locals|
    ensures i >= 0 ==> locals[i].name == name
  {
    if locals == [] then -1
    else if locals[|locals| - 1].name == name then |locals| - 1
    else Resolve(locals[..|locals| - 1], name)
  }

  /** The first constant equal to `v`, or the size of the pool. */
  function FindConst(h: Host, pool: Pool, v: Value, from: nat): (i: nat)
    requires from <= |pool|
    ensures from <= i <= |pool|
    ensures i < |pool| ==> ValEqual(h, pool[i], v)
    decreases |pool| - from
  {
    if from == |pool| || ValEqual(h, pool[from], v) then from else FindConst(h, pool, v, from + 1)
  }

  /** `arr_add` without duplicates, then the check of `makeConstant`. */
  function AddConst(h: Host, pool: Pool, v: Value): (r: Option<Slot>)
    requires Constant(v)
    ensures r.Some? ==> pool <= r.value.pool && r.value.k < |r.value.pool|
  {
    var i := FindConst(h, pool, v, 0);
    if i > 255 then None
    else Some(Slot(i, if i < |pool| then pool else pool + [v]))
  }

  function InfixCode(op: InfixOp): seq<byte> {
    match op
    case EqualEqual => Encode(Binary(Eq))
    case BangEqual => Encode(Binary(Eq)) + Encode(Unary(Not))
    case Less => Encode(Binary(Lt))
    case LessEqual => Encode(Binary(Le))
    case Greater => Encode(Binary(Le)) + Encode(Unary(Not))
    case GreaterEqual => Encode(Binary(Lt)) + Encode(Unary(Not))
    case Plus => Encode(Binary(Add))
    case Minus => Encode(Binary(Sub))
    case Star => Encode(Binary(Mul))
    case Slash => Encode(Binary(Div))
  }

  function PrefixCode(op: PrefixOp): seq<byte> {
    Encode(Unary(if op == Dash then Neg else Not))
  }

  /** A forward jump over `n` bytes, unless the distance does not fit. */
  function Over(n: nat): Option<Offset> {
    if n < 0x1_0000 then Some(n) else None
  }

  /** With sound number equality, the constant an instruction names is the one meant. */
  lemma ConstantFound(h: Host, pool: Pool, v: Value)
    requires h.Sound() && Constant(v) && AddConst(h, pool, v).Some?
    ensures var c := AddConst(h, pool, v).value; c.pool[c.k] == v
  {
    var i := FindConst(h, pool, v, 0);
    if i < |pool| && v.Num? {
      var a: Literal, b: Literal := pool[i].raw, v.raw;
      assert h.eq(a, b) ==> a == b;
    }
  }

  /** A constant takes at most one place in the pool. */
  lemma AddsOne(h: Host, pool: Pool, v: Value)
    requires Constant(v) && |pool| < 100
    ensures AddConst(h, pool, v).Some? && |AddConst(h, pool, v).value.pool| <= |pool| + 1
  {
  }

  function CodeConst(h: Host, pool: Pool, v: Value): (r: Option<Piece>)
    requires Constant(v)
    ensures r.Some? ==> pool <= r.value.pool
  {
    var c :- AddConst(h, pool, v);
    Some(Piece(Encode(Const(c.k)), c.pool))
  }

  /** `left`, and then `right` over it unless it is false. */
  function CodeAnd(l: Piece, r: Piece): Option<Piece> {
    var off :- Over(1 + |r.code|);
    Some(Piece(l.code + (Encode(Jmpf(off)) + (Encode(Pop) + r.code)), r.pool))
  }

  function CodeOr(l: Piece, r: Piece): Option<Piece> {
    var off :- Over(1 + |r.code|);
    Some(Piece(l.code + (Encode(Jmpf(3)) + (Encode(Jmp(off)) + (Encode(Pop) + r.code))), r.pool))
  }

  /** `a` followed by the bytes `tail`. */
  function Then(a: Piece, tail: seq<byte>): Piece {
    Piece(a.code + tail, a.pool)
  }

  function CodeExpr(h: Host, e: Expr, locals: Locals, pool: Pool): (r: Option<Piece>)
    ensures r.Some? ==> pool <= r.value.pool
    decreases e, 1
  {
    hide AddConst, Resolve, Encode, Key, CodeAnd, CodeOr, InfixCode, PrefixCode;
    match e
    case NumLit(n) => CodeConst(h, pool, Num(n))
    case StrLit(s) => CodeConst(h, pool, Str(h.intern(s)))
    case NullLit => Some(Piece(Encode(Nil), pool))
    case TrueLit => Some(Piece(Encode(True), pool))
    case FalseLit => Some(Piece(Encode(False), pool))
    case SelfLit => Some(Piece(Encode(Ld(0)), pool))
    case Name(id) =>
      var i := Resolve(locals, id);
      if i >= 0 then
        if locals[i].depth == -1 then None else Some(Piece(Encode(Ld(i)), pool))
      else
        var c :- AddConst(h, pool, Str(Key(h, id)));
        Some(Piece(Encode(Gld(c.k)), c.pool))
    case Assign(id, value) =>
      var i := Resolve(locals, id);
      if i >= 0 then
        var v :- CodeExpr(h, value, locals, pool);
        if locals[i].depth == -1 then None else Some(Then(v, Encode(St(i))))
      else
        var c :- AddConst(h, pool, Str(Key(h, id)));
        var v :- CodeExpr(h, value, locals, c.pool);
        Some(Then(v, Encode(Gst(c.k))))
    case Member(obj, id) =>
      var o :- CodeExpr(h, obj, locals, pool);
      var c :- AddConst(h, o.pool, Str(Key(h, id)));
      Some(Piece(o.code + Encode(Get(c.k)), c.pool))
    case SetMember(obj, id, value) =>
      var o :- CodeExpr(h, obj, locals, pool);
      var c :- AddConst(h, o.pool, Str(Key(h, id)));
      var v :- CodeExpr(h, value, locals, c.pool);
      Some(Piece(o.code + (v.code + Encode(Set(c.k))), v.pool))
    case Index(obj, key) =>
      var o :- CodeExpr(h, obj, locals, pool);
      var k :- CodeExpr(h, key, locals, o.pool);
      Some(Piece(o.code + (k.code + Encode(Geti)), k.pool))
    case SetIndex(obj, key, value) =>
      var o :- CodeExpr(h, obj, locals, pool);
      var k :- CodeExpr(h, key, locals, o.pool);
      var v :- CodeExpr(h, value, locals, k.pool);
      Some(Piece(o.code + (k.code + (v.code + Encode(Seti))), v.pool))
    case Prefix(op, operand) =>
      var x :- CodeExpr(h, operand, locals, pool);
      Some(Then(x, PrefixCode(op)))
    case Infix(op, left, right) =>
      var l :- CodeExpr(h, left, locals, pool);
      var r :- CodeExpr(h, right, locals, l.pool);
      Some(Piece(l.code + (r.code + InfixCode(op)), r.pool))
    case And(left, right) =>
      var l :- CodeExpr(h, left, locals, pool);
      var r :- CodeExpr(h, right, locals, l.pool);
      CodeAnd(l, r)
    case Or(left, right) =>
      var l :- CodeExpr(h, left, locals, pool);
      var r :- CodeExpr(h, right, locals, l.pool);
      CodeOr(l, r)
    case Invoke(callee, args) =>
      var f :- CodeExpr(h, callee, locals, pool);
      var a :- CodeExprs(h, args, locals, f.pool);
      if |args| >= 32 then None else Some(Piece(f.code + (a.code + Encode(Call(|args|))), a.pool))
    case MapLit(elems) =>
      var a :- CodeExprs(h, elems, locals, pool);
      Some(Then(a, Encode(MakeMap(|elems| % 256))))
    case Group(inner) => CodeExpr(h, inner, locals, pool)
  }

  function CodeExprs(h: Host, es: seq<Expr>, locals: Locals, pool: Pool): (r: Option<Piece>)
    ensures r.Some? ==> pool <= r.value.pool
    decreases es, 0
  {
    if es == [] then Some(Piece([], pool))
    else
      var a :- CodeExpr(h, es[0], locals, pool);
      var b :- CodeExprs(h, es[1..], locals, a.pool);
      Some(Piece(a.code + b.code, b.pool))
  }

  /** Whether `declareVariable` finds the name already taken in the current scope. */
  predicate Taken(locals: seq<Local>, depth: nat, name: string) {
    locals != [] &&
    var last := locals[|locals| - 1];
    !(last.depth != -1 && last.depth < depth)
    && (last.name == name || Taken(locals[..|locals| - 1], depth, name))
  }

  /** `declareVariable` inside a block: a new local, not yet initialised. */
  function AddLocal(locals: Locals, depth: nat, name: string): Option<Locals> {
    if Taken(locals, depth, name) || |locals| == UINT8_COUNT then None
    else Some(locals + [Local(name, -1)])
  }

  /** `markInitialized` on the newest local. */
  function MarkLast(locals: Locals, depth: nat): Locals
    requires locals != []
  {
    locals[|locals| - 1 := locals[|locals| - 1].(depth := depth)]
  }

  /** How many locals `endScope` drops. */
  function Above(locals: seq<Local>, depth: nat): (n: nat)
    ensures n <= |locals|
  {
    if locals == [] || locals[|locals| - 1].depth <= depth then 0
    else 1 + Above(locals[..|locals| - 1], depth)
  }

  function Pops(n: nat): seq<byte> {
    if n == 0 then [] else Pops(n - 1) + Encode(Pop)
  }

  /** What may follow `Then` and `Else`; declarations there are wrapped in a block. */
  predicate Arm(s: Stmt) {
    !s.Var? && !s.Globals? && !s.FunDecl?
  }

  function CodeIf(c: Piece, t: Gen, e: Gen): Option<Gen> {
    var skipThen :- Over(1 + |t.code| + 3);
    var skipElse :- Over(1 + |e.code|);
    Some(Gen(
      c.code + (Encode(Jmpf(skipThen)) + (Encode(Pop)
        + (t.code + (Encode(Jmp(skipElse)) + (Encode(Pop) + e.code))))),
      e.pool, e.locals))
  }

  function CodeItems(h: Host, items: seq<Init>, locals: Locals, pool: Pool): (r: Option<Piece>)
    ensures r.Some? ==> pool <= r.value.pool
    decreases items, 0
  {
    if items == [] then Some(Piece([], pool))
    else
      var c :- AddConst(h, pool, Str(Key(h, items[0].name)));
      var v :- CodeExpr(h, items[0].value, locals, c.pool);
      var rest :- CodeItems(h, items[1..], locals, v.pool);
      Some(Piece(v.code + (Encode(Def(c.k)) + rest.code), rest.pool))
  }

  function CodeStmt(h: Host, s: Stmt, sc: Scope, locals: Locals, pool: Pool): (r: Option<Gen>)
    ensures r.Some? ==> pool <= r.value.pool
    decreases s, 1
  {
    match s
    case ExprStmt(e) =>
      var a :- CodeExpr(h, e, locals, pool);
      if Useless(e) then None else Some(Gen(a.code + Encode(Pop), a.pool, locals))
    case PrintStmt(es) =>
      var a :- CodeExprs(h, es, locals, pool);
      if |es| > 32 then None else Some(Gen(a.code + Encode(Print(|es|)), a.pool, locals))
    case If(cond, thn, els) =>
      var c :- CodeExpr(h, cond, locals, pool);
      var t :- CodeStmt(h, thn, sc, locals, c.pool);
      var e :- CodeStmt(h, els, sc, locals, t.pool);
      if Arm(thn) && Arm(els) then CodeIf(c, t, e) else None
    case Return(e) =>
      var a :- CodeExpr(h, e, locals, pool);
      if sc.script then None else Some(Gen(a.code + Encode(Ret), a.pool, locals))
    case ReturnNull =>
      if sc.script then None else Some(Gen(Encode(Nil) + Encode(Ret), pool, locals))
    case Block(body) =>
      var b :- CodeBlock(h, body, sc.(depth := sc.depth + 1), locals, pool);
      var n := Above(b.locals, sc.depth);
      Some(Gen(b.code + Pops(n), b.pool, b.locals[..|b.locals| - n]))
    case Var(name, init) =>
      if sc.depth == 0 then
        var c :- AddConst(h, pool, Str(Key(h, name)));
        var v :- CodeExpr(h, init, locals, c.pool);
        Some(Gen(v.code + Encode(Def(c.k)), v.pool, locals))
      else
        var ls :- AddLocal(locals, sc.depth, name);
        var v :- CodeExpr(h, init, ls, pool);
        Some(Gen(v.code, v.pool, MarkLast(ls, sc.depth)))
    case Globals(items) =>
      if sc.depth > 0 then None
      else
        var a :- CodeItems(h, items, locals, pool);
        Some(Gen(a.code, a.pool, locals))
    case FunDecl(name, site, _, _) =>
      if sc.depth == 0 then
        var c :- AddConst(h, pool, Str(Key(h, name)));
        var f :- CodeConst(h, c.pool, Fun(site));
        Some(Gen(f.code + Encode(Def(c.k)), f.pool, locals))
      else
        var ls :- AddLocal(locals, sc.depth, name);
        var f :- CodeConst(h, pool, Fun(site));
        Some(Gen(f.code, f.pool, MarkLast(ls, sc.depth)))
  }

  function CodeBlock(h: Host, ss: seq<Stmt>, sc: Scope, locals: Locals, pool: Pool): (r: Option<Gen>)
    ensures r.Some? ==> pool <= r.value.pool
    decreases ss, 0
  {
    if ss == [] then Some(Gen([], pool, locals))
    else
      var a :- CodeStmt(h, ss[0], sc, locals, pool);
      var b :- CodeBlock(h, ss[1..], sc, a.locals, a.pool);
      Some(Gen(a.code + b.code, b.pool, b.locals))
  }

  /** Slot 0 holds the running function under a name no identifier has. */
  const SelfLocal: Local := Local("", 0)

  function AddParams(locals: Locals, params: seq<Ident>): Option<Locals>
    decreases |params|
  {
    if params == [] then Some(locals)
    else
      var ls :- AddLocal(locals, 1, params[0]);
      AddParams(MarkLast(ls, 1), params[1..])
  }

  /** `endCompiler`: every function ends by returning null. */
  function CodeFunction(h: Host, d: Decl): Option<Machine.Function> {
    if d.script then
      var b :- CodeBlock(h, d.body, Scope(0, true), [SelfLocal], []);
      if d.params != [] then None
      else Some(Machine.Function(0, b.code + (Encode(Nil) + Encode(Ret)), b.pool))
    else
      var ls :- AddParams([SelfLocal], d.params);
      var b :- CodeBlock(h, d.body, Scope(1, false), ls, []);
      if |d.params| > 32 then None
      else Some(Machine.Function(|d.params|, b.code + (Encode(Nil) + Encode(Ret)), b.pool))
  }

  /** The functions a statement declares, an inner one before the one around it. */
  function FunsOf(s: Stmt): seq<Decl>
    decreases s, 1
  {
    match s
    case If(_, t, e) => FunsOf(t) + FunsOf(e)
    case Block(body) => FunsOfAll(body)
    case FunDecl(_, _, params, body) => FunsOfAll(body) + [Decl(false, params, body)]
    case _ => []
  }

  function FunsOfAll(ss: seq<Stmt>): seq<Decl>
    decreases ss, 0
  {
    if ss == [] then [] else FunsOf(ss[0]) + FunsOfAll(ss[1..])
  }

  function CodeFunctions(h: Host, ds: seq<Decl>): (r: Option<Machine.Program>)
    ensures r.Some? ==> |r.value| == |ds|
  {
    if ds == [] then Some([])
    else
      var f :- CodeFunction(h, ds[0]);
      var fs :- CodeFunctions(h, ds[1..]);
      Some([f] + fs)
  }

  lemma {:induction false} FunctionsAt(h: Host, ds: seq<Decl>, i: nat)
    requires CodeFunctions(h, ds).Some? && i < |ds|
    ensures CodeFunction(h, ds[i]) == Some(CodeFunctions(h, ds).value[i])
    decreases |ds|
  {
    hide CodeFunction;
    if i > 0 { FunctionsAt(h, ds[1..], i - 1); }
  }

  lemma FunctionsEach(h: Host, ds: seq<Decl>)
    requires CodeFunctions(h, ds).Some?
    ensures forall i :: 0 <= i < |ds| ==> CodeFunction(h, ds[i]) == Some(CodeFunctions(h, ds).value[i])
  {
    hide CodeFunction, CodeFunctions;
    forall i | 0 <= i < |ds| ensures CodeFunction(h, ds[i]) == Some(CodeFunctions(h, ds).value[i]) { FunctionsAt(h, ds, i); }
  }

  /** Every function object a script creates, the script itself last. */
  function WorldOf(body: seq<Stmt>): (w: seq<Decl>)
    ensures w != []
  {
    FunsOfAll(body) + [Decl(true, [], body)]
  }

  function CodeProgram(h: Host, body: seq<Stmt>): Option<Machine.Program> {
    CodeFunctions(h, WorldOf(body))
  }
}
