/**
 Compilation preserves meaning: running the code of a phrase has the outcome the
 evaluator gives the phrase, in every store, at every stack height, error or not.
 */
module Simulation {
  import opened Values
  import opened Bytecode
  import opened Syntax
  import opened Codegen
  import opened Evaluator
  import opened Activation
  import opened Scopes
  import Machine

  /** Map literals whose element count fits the operand of OP_MAP. */
  predicate MapsFit(e: Expr)
    decreases e, 0
  {
    match e
    case Assign(_, v) => MapsFit(v)
    case Member(o, _) => MapsFit(o)
    case SetMember(o, _, v) => MapsFit(o) && MapsFit(v)
    case Index(o, k) => MapsFit(o) && MapsFit(k)
    case SetIndex(o, k, v) => MapsFit(o) && MapsFit(k) && MapsFit(v)
    case Prefix(_, x) => MapsFit(x)
    case Infix(_, l, r) => MapsFit(l) && MapsFit(r)
    case And(l, r) => MapsFit(l) && MapsFit(r)
    case Or(l, r) => MapsFit(l) && MapsFit(r)
    case Invoke(f, args) => MapsFit(f) && AllMapsFit(args)
    case MapLit(es) => |es| < 256 && AllMapsFit(es)
    case Group(x) => MapsFit(x)
    case _ => true
  }

  predicate AllMapsFit(es: seq<Expr>)
    decreases es, 0
  {
    es == [] || (MapsFit(es[0]) && AllMapsFit(es[1..]))
  }

  predicate ItemsFit(items: seq<Init>)
    decreases items, 0
  {
    items == [] || (MapsFit(items[0].value) && ItemsFit(items[1..]))
  }

  predicate StmtFits(s: Stmt)
    decreases s, 1
  {
    match s
    case ExprStmt(e) => MapsFit(e)
    case PrintStmt(es) => AllMapsFit(es)
    case If(c, t, e) => MapsFit(c) && StmtFits(t) && StmtFits(e)
    case Return(e) => MapsFit(e)
    case ReturnNull => true
    case Block(body) => BlockFits(body)
    case Var(_, e) => MapsFit(e)
    case Globals(items) => ItemsFit(items)
    case FunDecl(_, _, _, body) => BlockFits(body)
  }

  predicate BlockFits(ss: seq<Stmt>)
    decreases ss, 0
  {
    ss == [] || (StmtFits(ss[0]) && BlockFits(ss[1..]))
  }

  /** `p` is the code of the functions `w`, and no map literal in them is too long. */
  ghost predicate Compiled(h: Host, w: World, p: Machine.Program) {
    h.Sound() && |w| == |p|
    && (forall i :: 0 <= i < |w| ==> CodeFunction(h, w[i]) == Some(p[i]))
    && (forall i :: 0 <= i < |w| ==> BlockFits(w[i].body))
  }

  /** The compiler's locals are the function itself and then the variables in scope. */
  predicate Matches(locals: seq<Local>, env: Env) {
    |locals| == |env| + 1 && locals[0].name == ""
    && forall i :: 0 <= i < |env| ==> locals[i + 1].name == env[i].name
  }

  /** Resolving a name to a slot finds the variable the evaluator finds. */
  lemma {:induction false} ResolveFinds(locals: seq<Local>, env: Env, id: Ident)
    requires Matches(locals, env)
    ensures Resolve(locals, id) == if Find(env, id) >= 0 then Find(env, id) + 1 else -1
  {
    if env == [] {
      assert locals[..|locals| - 1] == [];
    } else {
      ResolveFinds(locals[..|locals| - 1], env[..|env| - 1], id);
    }
  }

  /** The bytes `code` are loaded at `ip` of the running function, whose constants extend `pool`. */
  predicate Part(p: Machine.Program, a: Act, ip: nat, code: seq<byte>, pool: Pool) {
    Fits(p, a) && Holds(p[a.fn].code, ip, code) && pool <= p[a.fn].consts
  }

  lemma Split(p: Machine.Program, a: Act, ip: nat, x: seq<byte>, y: seq<byte>, pool: Pool, pool': Pool)
    requires Part(p, a, ip, x + y, pool) && pool' <= pool
    ensures Part(p, a, ip, x, pool') && Part(p, a, ip + |x|, y, pool)
  {
    AtSplit(p[a.fn].code, ip, x, y);
  }

  /** The constant added for `v` is `v` in every pool that extends the one it was added to. */
  lemma ConstantIs(h: Host, p: Machine.Program, a: Act, pool: Pool, v: Value)
    requires h.Sound() && Constant(v) && AddConst(h, pool, v).Some? && Fits(p, a)
    requires AddConst(h, pool, v).value.pool <= p[a.fn].consts
    ensures var k := AddConst(h, pool, v).value.k; k < |p[a.fn].consts| && p[a.fn].consts[k] == v
  {
    ConstantFound(h, pool, v);
  }

  /** Everything the simulation of an expression at `ip` starts from. */
  ghost predicate Ready(h: Host, w: World, p: Machine.Program, a: Act, ip: nat, e: Expr,
                        locals: Locals, pool: Pool, env: Env)
  {
    Compiled(h, w, p) && MapsFit(e) && Matches(locals, env)
    && CodeExpr(h, e, locals, pool).Some?
    && var c := CodeExpr(h, e, locals, pool).value;
    Part(p, a, ip, c.code, c.pool)
  }

  lemma SimConst(h: Host, w: World, p: Machine.Program, a: Act, ip: nat, e: Expr,
                 locals: Locals, pool: Pool, env: Env, temps: seq<Value>, st: Store)
    requires Ready(h, w, p, a, ip, e, locals, pool, env)
    requires e.NumLit? || e.StrLit?
    ensures Machine.Run(h, p, At(a, ip, env, temps, st))
         == Conclude(h, p, a, ip + |CodeExpr(h, e, locals, pool).value.code|, temps,
                     Eval(h, w, e, a.self, env, st, |a.below| + 1))
  {
    hide Machine.Run, At, AddConst, Matches, Holds;
    var v := if e.NumLit? then Num(e.n) else Str(h.intern(e.s));
    ConstantIs(h, p, a, pool, v);
    RunPush(h, p, a, ip, env, temps, st, Const(AddConst(h, pool, v).value.k), v);
  }

  lemma SimLeaf(h: Host, w: World, p: Machine.Program, a: Act, ip: nat, e: Expr,
                locals: Locals, pool: Pool, env: Env, temps: seq<Value>, st: Store)
    requires Ready(h, w, p, a, ip, e, locals, pool, env)
    requires e.NullLit? || e.TrueLit? || e.FalseLit? || e.SelfLit?
    ensures Machine.Run(h, p, At(a, ip, env, temps, st))
         == Conclude(h, p, a, ip + |CodeExpr(h, e, locals, pool).value.code|, temps,
                     Eval(h, w, e, a.self, env, st, |a.below| + 1))
  {
    hide Machine.Run, At, Matches, Holds, AddConst;
    match e
    case NullLit => RunPush(h, p, a, ip, env, temps, st, Nil, Null);
    case TrueLit => RunPush(h, p, a, ip, env, temps, st, True, Bool(true));
    case FalseLit => RunPush(h, p, a, ip, env, temps, st, False, Bool(false));
    case SelfLit => RunPush(h, p, a, ip, env, temps, st, Ld(0), a.self);
  }

  lemma SimName(h: Host, w: World, p: Machine.Program, a: Act, ip: nat, e: Expr,
                locals: Locals, pool: Pool, env: Env, temps: seq<Value>, st: Store)
    requires Ready(h, w, p, a, ip, e, locals, pool, env)
    requires e.Name?
    ensures Machine.Run(h, p, At(a, ip, env, temps, st))
         == Conclude(h, p, a, ip + |CodeExpr(h, e, locals, pool).value.code|, temps,
                     Eval(h, w, e, a.self, env, st, |a.below| + 1))
  {
    hide Machine.Run, At, CodeExpr, Compiled, Matches, Holds, Encode, Find, Key, Names, Eval;
    UnfoldName(h, w, e, a.self, env, st, |a.below| + 1);
    var k := ReadyName(h, w, p, a, ip, e, locals, pool, env);
    var i := Find(env, e.id);
    if i >= 0 {
      RunPush(h, p, a, ip, env, temps, st, Ld(i + 1), env[i].value);
    } else {
      RunGlobalRead(h, p, a, ip, env, temps, st, k, Key(h, e.id));
    }
  }

  lemma ReadyName(h: Host, w: World, p: Machine.Program, a: Act, ip: nat, e: Expr, locals: Locals, pool: Pool, env: Env)
    returns (k: byte)
    requires Ready(h, w, p, a, ip, e, locals, pool, env) && e.Name?
    ensures |CodeExpr(h, e, locals, pool).value.code| == 2
    ensures var i := Find(env, e.id);
      if i >= 0 then i < 255 && Loaded(p, a, ip, Ld(i + 1)) else Loaded(p, a, ip, Gld(k)) && Names(p, a, k, Key(h, e.id))
  {
    hide Compiled, Holds, Key, AddConst;
    ResolveFinds(locals, env, e.id);
    k := 0;
    if Find(env, e.id) < 0 {
      k := AddConst(h, pool, Str(Key(h, e.id))).value.k;
      NameIs(h, w, p, a, pool, Key(h, e.id));
    }
  }

  lemma UnfoldName(h: Host, w: World, e: Expr, self: Value, env: Env, st: Store, height: nat)
    requires e.Name? && height <= FRAMES_MAX
    ensures Eval(h, w, e, self, env, st, height) == Read(h, e.id, env, st)
  {
  }

  lemma SimExpr(h: Host, w: World, p: Machine.Program, a: Act, ip: nat, e: Expr,
      locals: Locals, pool: Pool, env: Env, temps: seq<Value>, st: Store)
    requires Ready(h, w, p, a, ip, e, locals, pool, env)
    ensures Machine.Run(h, p, At(a, ip, env, temps, st))
         == Conclude(h, p, a, ip + |CodeExpr(h, e, locals, pool).value.code|, temps,
                     Eval(h, w, e, a.self, env, st, |a.below| + 1))
    decreases 2 * (FRAMES_MAX - |a.below|), e, 1
  {
    hide *;
    match e
    case NumLit(_) => SimConst(h, w, p, a, ip, e, locals, pool, env, temps, st);
    case StrLit(_) => SimConst(h, w, p, a, ip, e, locals, pool, env, temps, st);
    case NullLit => SimLeaf(h, w, p, a, ip, e, locals, pool, env, temps, st);
    case TrueLit => SimLeaf(h, w, p, a, ip, e, locals, pool, env, temps, st);
    case FalseLit => SimLeaf(h, w, p, a, ip, e, locals, pool, env, temps, st);
    case SelfLit => SimLeaf(h, w, p, a, ip, e, locals, pool, env, temps, st);
    case Name(_) => SimName(h, w, p, a, ip, e, locals, pool, env, temps, st);
    case Assign(_, _) => SimAssign(h, w, p, a, ip, e, locals, pool, env, temps, st);
    case Member(_, _) => SimMember(h, w, p, a, ip, e, locals, pool, env, temps, st);
    case SetMember(_, _, _) => SimSetMember(h, w, p, a, ip, e, locals, pool, env, temps, st);
    case Index(_, _) => SimIndex(h, w, p, a, ip, e, locals, pool, env, temps, st);
    case SetIndex(_, _, _) => SimSetIndex(h, w, p, a, ip, e, locals, pool, env, temps, st);
    case Prefix(_, _) => SimPrefix(h, w, p, a, ip, e, locals, pool, env, temps, st);
    case Infix(_, _, _) => SimInfix(h, w, p, a, ip, e, locals, pool, env, temps, st);
    case And(_, _) => SimAnd(h, w, p, a, ip, e, locals, pool, env, temps, st);
    case Or(_, _) => SimOr(h, w, p, a, ip, e, locals, pool, env, temps, st);
    case Invoke(_, _) => SimInvoke(h, w, p, a, ip, e, locals, pool, env, temps, st);
    case MapLit(_) => SimMapLit(h, w, p, a, ip, e, locals, pool, env, temps, st);
    case Group(_) => SimGroup(h, w, p, a, ip, e, locals, pool, env, temps, st);
  }

  lemma {:induction false} FindSame(env: Env, env': Env, id: string)
    requires SameNames(env, env')
    ensures Find(env', id) == Find(env, id)
  {
    if env != [] { FindSame(env[..|env| - 1], env'[..|env| - 1], id); }
  }

  lemma MatchesSame(locals: Locals, env: Env, env': Env)
    requires Matches(locals, env) && SameNames(env, env')
    ensures Matches(locals, env')
  {
  }

  lemma UnfoldGroup(h: Host, w: World, e: Expr, self: Value, env: Env, st: Store, height: nat)
    requires e.Group? && height <= FRAMES_MAX
    ensures
      Eval(h, w, e, self, env, st, height) ==
      Eval(h, w, e.inner, self, env, st, height)
  {
  }

  lemma SimGroup(h: Host, w: World, p: Machine.Program, a: Act, ip: nat, e: Expr,
      locals: Locals, pool: Pool, env: Env, temps: seq<Value>, st: Store)
    requires Ready(h, w, p, a, ip, e, locals, pool, env)
    requires e.Group?
    ensures Machine.Run(h, p, At(a, ip, env, temps, st))
         == Conclude(h, p, a, ip + |CodeExpr(h, e, locals, pool).value.code|, temps,
                     Eval(h, w, e, a.self, env, st, |a.below| + 1))
    decreases 2 * (FRAMES_MAX - |a.below|), e, 0
  {
    hide Machine.Run, At, Compiled, Matches, Holds, Encode, Eval;
    UnfoldGroup(h, w, e, a.self, env, st, |a.below| + 1);
    SimExpr(h, w, p, a, ip, e.inner, locals, pool, env, temps, st);
  }

  lemma UnfoldAssign(h: Host, w: World, e: Expr, self: Value, env: Env, st: Store, height: nat)
    requires e.Assign? && height <= FRAMES_MAX
    ensures
      Eval(h, w, e, self, env, st, height) ==
      match Eval(h, w, e.value, self, env, st, height)
      case Ok(x, env1, st1) => Write(h, e.id, x, env1, st1)
      case r => r
  {
  }

  lemma ReadyAssign(h: Host, w: World, p: Machine.Program, a: Act, ip: nat, e: Expr, locals: Locals, pool: Pool, env: Env)
    returns (pool1: Pool, v: Piece, k: byte)
    requires Ready(h, w, p, a, ip, e, locals, pool, env) && e.Assign?
    ensures CodeExpr(h, e.value, locals, pool1) == Some(v) && MapsFit(e.value) && Part(p, a, ip, v.code, v.pool)
    ensures Find(env, e.id) >= 0 ==> k == Find(env, e.id) + 1 && Loaded(p, a, ip + |v.code|, St(k))
    ensures Find(env, e.id) < 0 ==> Loaded(p, a, ip + |v.code|, Gst(k)) && Names(p, a, k, Key(h, e.id))
    ensures |CodeExpr(h, e, locals, pool).value.code| == |v.code| + 2
  {
    hide Compiled, Matches, Holds, Encode, Key, AddConst, Names;
    ResolveMatches(locals, env, e.id);
    var i := Find(env, e.id);
    if i >= 0 {
      pool1, k := pool, i + 1;
    } else {
      var c := AddConst(h, pool, Str(Key(h, e.id))).value;
      pool1, k := c.pool, c.k;
    }
    v := CodeExpr(h, e.value, locals, pool1).value;
    Split(p, a, ip, v.code, if i >= 0 then Encode(St(k)) else Encode(Gst(k)), v.pool, v.pool);
    if i < 0 { NameIs(h, w, p, a, pool, Key(h, e.id)); }
  }

  lemma SimAssign(h: Host, w: World, p: Machine.Program, a: Act, ip: nat, e: Expr,
      locals: Locals, pool: Pool, env: Env, temps: seq<Value>, st: Store)
    requires Ready(h, w, p, a, ip, e, locals, pool, env)
    requires e.Assign?
    ensures Machine.Run(h, p, At(a, ip, env, temps, st))
         == Conclude(h, p, a, ip + |CodeExpr(h, e, locals, pool).value.code|, temps,
                     Eval(h, w, e, a.self, env, st, |a.below| + 1))
    decreases 2 * (FRAMES_MAX - |a.below|), e, 0
  {
    hide Machine.Run, At, Compiled, Matches, Holds, Encode, Eval, AddConst, Key, Names, CodeExpr, MapsFit;
    UnfoldAssign(h, w, e, a.self, env, st, |a.below| + 1);
    var pool1, v, k := ReadyAssign(h, w, p, a, ip, e, locals, pool, env);
    SimExpr(h, w, p, a, ip, e.value, locals, pool1, env, temps, st);
    var r := Eval(h, w, e.value, a.self, env, st, |a.below| + 1);
    if r.Ok? {
      FindSame(env, r.env, e.id);
      if Find(env, e.id) >= 0 {
        RunLocalWrite(h, p, a, ip + |v.code|, r.env, temps, r.store, k, r.value);
      } else {
        RunGlobalWrite(h, p, a, ip + |v.code|, r.env, temps, r.store, k, Key(h, e.id), r.value);
      }
    }
  }

  lemma ResolveMatches(locals: Locals, env: Env, id: Ident)
    requires Matches(locals, env)
    ensures Resolve(locals, id) == if Find(env, id) >= 0 then Find(env, id) + 1 else -1
    ensures |env| < UINT8_COUNT
  {
    ResolveFinds(locals, env, id);
  }

  lemma NameIs(h: Host, w: World, p: Machine.Program, a: Act, pool: Pool, name: string)
    requires Compiled(h, w, p) && AddConst(h, pool, Str(name)).Some? && Fits(p, a)
    requires AddConst(h, pool, Str(name)).value.pool <= p[a.fn].consts
    ensures Names(p, a, AddConst(h, pool, Str(name)).value.k, name)
  {
    ConstantIs(h, p, a, pool, Str(name));
  }

  lemma UnfoldPrefix(h: Host, w: World, e: Expr, self: Value, env: Env, st: Store, height: nat)
    requires e.Prefix? && height <= FRAMES_MAX
    ensures
      Eval(h, w, e, self, env, st, height) ==
      match Eval(h, w, e.operand, self, env, st, height)
      case Ok(x, env1, st1) => Lift(PrefixValue(h, e.pop, x), env1, st1)
      case r => r
  {
  }

  lemma SimPrefix(h: Host, w: World, p: Machine.Program, a: Act, ip: nat, e: Expr,
      locals: Locals, pool: Pool, env: Env, temps: seq<Value>, st: Store)
    requires Ready(h, w, p, a, ip, e, locals, pool, env)
    requires e.Prefix?
    ensures Machine.Run(h, p, At(a, ip, env, temps, st))
         == Conclude(h, p, a, ip + |CodeExpr(h, e, locals, pool).value.code|, temps,
                     Eval(h, w, e, a.self, env, st, |a.below| + 1))
    decreases 2 * (FRAMES_MAX - |a.below|), e, 0
  {
    hide Machine.Run, At, Compiled, Matches, Holds, Encode, Eval;
    UnfoldPrefix(h, w, e, a.self, env, st, |a.below| + 1);
    var x := CodeExpr(h, e.operand, locals, pool).value;
    Split(p, a, ip, x.code, PrefixCode(e.pop), x.pool, x.pool);
    SimExpr(h, w, p, a, ip, e.operand, locals, pool, env, temps, st);
    var r := Eval(h, w, e.operand, a.self, env, st, |a.below| + 1);
    if r.Ok? {
      RunUnary(h, p, a, ip + |x.code|, r.env, temps, r.store, if e.pop == Dash then Neg else Not, r.value);
    }
  }

  lemma UnfoldInfix(h: Host, w: World, e: Expr, self: Value, env: Env, st: Store, height: nat)
    requires e.Infix? && height <= FRAMES_MAX
    ensures
      Eval(h, w, e, self, env, st, height) ==
      match Eval(h, w, e.left, self, env, st, height)
      case Ok(x, env1, st1) => (
        match Eval(h, w, e.right, self, env1, st1, height)
        case Ok(y, env2, st2) => Lift(InfixValue(h, e.iop, x, y), env2, st2)
        case r => r)
      case r => r
  {
  }

  lemma ReadyInfix(h: Host, w: World, p: Machine.Program, a: Act, ip: nat, e: Expr, locals: Locals, pool: Pool, env: Env)
    returns (l: Piece, r: Piece)
    requires Ready(h, w, p, a, ip, e, locals, pool, env) && e.Infix?
    ensures CodeExpr(h, e.left, locals, pool) == Some(l) && MapsFit(e.left) && Part(p, a, ip, l.code, l.pool)
    ensures CodeExpr(h, e.right, locals, l.pool) == Some(r) && MapsFit(e.right) && Part(p, a, ip + |l.code|, r.code, r.pool)
    ensures Part(p, a, ip + |l.code| + |r.code|, InfixCode(e.iop), r.pool)
    ensures |CodeExpr(h, e, locals, pool).value.code| == |l.code| + |r.code| + |InfixCode(e.iop)|
  {
    hide Compiled, Matches, Holds, Encode, InfixCode;
    l := CodeExpr(h, e.left, locals, pool).value;
    r := CodeExpr(h, e.right, locals, l.pool).value;
    var tail := InfixCode(e.iop);
    Split(p, a, ip, l.code, r.code + tail, r.pool, l.pool);
    Split(p, a, ip + |l.code|, r.code, tail, r.pool, r.pool);
  }

  lemma SimInfix(h: Host, w: World, p: Machine.Program, a: Act, ip: nat, e: Expr,
      locals: Locals, pool: Pool, env: Env, temps: seq<Value>, st: Store)
    requires Ready(h, w, p, a, ip, e, locals, pool, env)
    requires e.Infix?
    ensures Machine.Run(h, p, At(a, ip, env, temps, st))
         == Conclude(h, p, a, ip + |CodeExpr(h, e, locals, pool).value.code|, temps,
                     Eval(h, w, e, a.self, env, st, |a.below| + 1))
    decreases 2 * (FRAMES_MAX - |a.below|), e, 0
  {
    hide Machine.Run, At, Compiled, Matches, Holds, Encode, Eval, InfixCode, InfixValue, CodeExpr, CodeExprs, MapsFit, AllMapsFit;
    UnfoldInfix(h, w, e, a.self, env, st, |a.below| + 1);
    var l, r := ReadyInfix(h, w, p, a, ip, e, locals, pool, env);
    SimExpr(h, w, p, a, ip, e.left, locals, pool, env, temps, st);
    var x := Eval(h, w, e.left, a.self, env, st, |a.below| + 1);
    if x.Ok? {
      MatchesSame(locals, env, x.env);
      SimExpr(h, w, p, a, ip + |l.code|, e.right, locals, l.pool, x.env, temps + [x.value], x.store);
      var y := Eval(h, w, e.right, a.self, x.env, x.store, |a.below| + 1);
      if y.Ok? {
        assert temps + [x.value] + [y.value] == temps + [x.value, y.value];
        SimOperator(h, p, a, ip + |l.code| + |r.code|, e.iop, y.env, temps, y.store, x.value, y.value, r.pool);
      }
    }
  }

  /** `!=`, `>` and `>=` are their opposites followed by a negation. */
  lemma SimOperator(h: Host, p: Machine.Program, a: Act, ip: nat, op: InfixOp,
                    env: Env, temps: seq<Value>, st: Store, x: Value, y: Value, pool: Pool)
    requires Part(p, a, ip, InfixCode(op), pool)
    ensures Machine.Run(h, p, At(a, ip, env, temps + [x, y], st))
         == Conclude(h, p, a, ip + |InfixCode(op)|, temps, Lift(InfixValue(h, op, x, y), env, st))
  {
    hide Machine.Run, At;
    var b :=
      match op
      case EqualEqual => Eq
      case BangEqual => Eq
      case Less => Lt
      case LessEqual => Le
      case Greater => Le
      case GreaterEqual => Lt
      case Plus => Add
      case Minus => Sub
      case Star => Mul
      case Slash => Div;
    if op.BangEqual? || op.Greater? || op.GreaterEqual? {
      Split(p, a, ip, Encode(Binary(b)), Encode(Unary(Not)), pool, pool);
      RunBinary(h, p, a, ip, env, temps, st, b, x, y);
      var v := ApplyBinary(h, b, x, y);
      if v.Some? { RunUnary(h, p, a, ip + 1, env, temps, st, Not, v.value); }
    } else {
      RunBinary(h, p, a, ip, env, temps, st, b, x, y);
    }
  }

  lemma UnfoldMember(h: Host, w: World, e: Expr, self: Value, env: Env, st: Store, height: nat)
    requires e.Member? && height <= FRAMES_MAX
    ensures
      Eval(h, w, e, self, env, st, height) ==
      match Eval(h, w, e.obj, self, env, st, height)
      case Ok(m, env1, st1) => MemberOf(st1, m, Key(h, e.id), env1)
      case r => r
  {
  }

  lemma ReadyMember(h: Host, w: World, p: Machine.Program, a: Act, ip: nat, e: Expr, locals: Locals, pool: Pool, env: Env)
    returns (o: Piece, c: Slot)
    requires Ready(h, w, p, a, ip, e, locals, pool, env) && e.Member?
    ensures CodeExpr(h, e.obj, locals, pool) == Some(o) && MapsFit(e.obj) && Part(p, a, ip, o.code, o.pool)
    ensures Loaded(p, a, ip + |o.code|, Get(c.k)) && Names(p, a, c.k, Key(h, e.id))
    ensures |CodeExpr(h, e, locals, pool).value.code| == |o.code| + 2
  {
    hide Compiled, Matches, Holds, AddConst, Key, Names, Fits;
    o := CodeExpr(h, e.obj, locals, pool).value;
    c := AddConst(h, o.pool, Str(Key(h, e.id))).value;
    Split(p, a, ip, o.code, Encode(Get(c.k)), c.pool, o.pool);
    NameIs(h, w, p, a, o.pool, Key(h, e.id));
  }

  lemma SimMember(h: Host, w: World, p: Machine.Program, a: Act, ip: nat, e: Expr,
      locals: Locals, pool: Pool, env: Env, temps: seq<Value>, st: Store)
    requires Ready(h, w, p, a, ip, e, locals, pool, env)
    requires e.Member?
    ensures Machine.Run(h, p, At(a, ip, env, temps, st))
         == Conclude(h, p, a, ip + |CodeExpr(h, e, locals, pool).value.code|, temps,
                     Eval(h, w, e, a.self, env, st, |a.below| + 1))
    decreases 2 * (FRAMES_MAX - |a.below|), e, 0
  {
    hide Machine.Run, At, Compiled, Matches, Holds, Encode, Eval, AddConst, Key, Names, MemberOf, CodeExpr, MapsFit;
    UnfoldMember(h, w, e, a.self, env, st, |a.below| + 1);
    var o, c := ReadyMember(h, w, p, a, ip, e, locals, pool, env);
    SimExpr(h, w, p, a, ip, e.obj, locals, pool, env, temps, st);
    var m := Eval(h, w, e.obj, a.self, env, st, |a.below| + 1);
    if m.Ok? {
      RunGetMember(h, p, a, ip + |o.code|, m.env, temps, m.store, c.k, Key(h, e.id), m.value);
    }
  }

  lemma UnfoldSetMember(h: Host, w: World, e: Expr, self: Value, env: Env, st: Store, height: nat)
    requires e.SetMember? && height <= FRAMES_MAX
    ensures
      Eval(h, w, e, self, env, st, height) ==
      match Eval(h, w, e.obj, self, env, st, height)
      case Ok(m, env1, st1) => (
        match Eval(h, w, e.value, self, env1, st1, height)
        case Ok(v, env2, st2) => StoreMember(st2, m, Key(h, e.id), v, env2)
        case r => r)
      case r => r
  {
  }

  lemma ReadySetMember(h: Host, w: World, p: Machine.Program, a: Act, ip: nat, e: Expr, locals: Locals, pool: Pool, env: Env)
    returns (o: Piece, c: Slot, v: Piece)
    requires Ready(h, w, p, a, ip, e, locals, pool, env) && e.SetMember?
    ensures CodeExpr(h, e.obj, locals, pool) == Some(o) && MapsFit(e.obj) && Part(p, a, ip, o.code, o.pool)
    ensures AddConst(h, o.pool, Str(Key(h, e.id))) == Some(c) && Names(p, a, c.k, Key(h, e.id))
    ensures CodeExpr(h, e.value, locals, c.pool) == Some(v) && MapsFit(e.value) && Part(p, a, ip + |o.code|, v.code, v.pool)
    ensures Loaded(p, a, ip + |o.code| + |v.code|, Set(c.k))
    ensures |CodeExpr(h, e, locals, pool).value.code| == |o.code| + |v.code| + 2
  {
    hide Compiled, Matches, Holds, Encode, Key, AddConst, Names, Fits;
    o := CodeExpr(h, e.obj, locals, pool).value;
    c := AddConst(h, o.pool, Str(Key(h, e.id))).value;
    v := CodeExpr(h, e.value, locals, c.pool).value;
    Split(p, a, ip, o.code, v.code + Encode(Set(c.k)), v.pool, o.pool);
    Split(p, a, ip + |o.code|, v.code, Encode(Set(c.k)), v.pool, v.pool);
    NameIs(h, w, p, a, o.pool, Key(h, e.id));
  }

  lemma SimSetMember(h: Host, w: World, p: Machine.Program, a: Act, ip: nat, e: Expr,
      locals: Locals, pool: Pool, env: Env, temps: seq<Value>, st: Store)
    requires Ready(h, w, p, a, ip, e, locals, pool, env)
    requires e.SetMember?
    ensures Machine.Run(h, p, At(a, ip, env, temps, st))
         == Conclude(h, p, a, ip + |CodeExpr(h, e, locals, pool).value.code|, temps,
                     Eval(h, w, e, a.self, env, st, |a.below| + 1))
    decreases 2 * (FRAMES_MAX - |a.below|), e, 0
  {
    hide Machine.Run, At, Compiled, Matches, Holds, Encode, Eval, AddConst, Key, Names, StoreMember, CodeExpr, CodeExprs, MapsFit, AllMapsFit;
    UnfoldSetMember(h, w, e, a.self, env, st, |a.below| + 1);
    var o, c, v := ReadySetMember(h, w, p, a, ip, e, locals, pool, env);
    SimExpr(h, w, p, a, ip, e.obj, locals, pool, env, temps, st);
    var x := Eval(h, w, e.obj, a.self, env, st, |a.below| + 1);
    if x.Ok? {
      MatchesSame(locals, env, x.env);
      SimExpr(h, w, p, a, ip + |o.code|, e.value, locals, c.pool, x.env, temps + [x.value], x.store);
      var y := Eval(h, w, e.value, a.self, x.env, x.store, |a.below| + 1);
      if y.Ok? {
        assert temps + [x.value] + [y.value] == temps + [x.value, y.value];
        RunSetMember(h, p, a, ip + |o.code| + |v.code|, y.env, temps, y.store, c.k, Key(h, e.id), x.value, y.value);
      }
    }
  }

  lemma UnfoldIndex(h: Host, w: World, e: Expr, self: Value, env: Env, st: Store, height: nat)
    requires e.Index? && height <= FRAMES_MAX
    ensures
      Eval(h, w, e, self, env, st, height) ==
      match Eval(h, w, e.obj, self, env, st, height)
      case Ok(m, env1, st1) => (
        match Eval(h, w, e.key, self, env1, st1, height)
        case Ok(k, env2, st2) => ElementOf(st2, m, k, env2)
        case r => r)
      case r => r
  {
  }

  lemma ReadyIndex(h: Host, w: World, p: Machine.Program, a: Act, ip: nat, e: Expr, locals: Locals, pool: Pool, env: Env)
    returns (o: Piece, k: Piece)
    requires Ready(h, w, p, a, ip, e, locals, pool, env) && e.Index?
    ensures CodeExpr(h, e.obj, locals, pool) == Some(o) && MapsFit(e.obj) && Part(p, a, ip, o.code, o.pool)
    ensures CodeExpr(h, e.key, locals, o.pool) == Some(k) && MapsFit(e.key) && Part(p, a, ip + |o.code|, k.code, k.pool)
    ensures Loaded(p, a, ip + |o.code| + |k.code|, Geti)
    ensures |CodeExpr(h, e, locals, pool).value.code| == |o.code| + |k.code| + 1
  {
    hide Compiled, Matches, Holds, Encode;
    o := CodeExpr(h, e.obj, locals, pool).value;
    k := CodeExpr(h, e.key, locals, o.pool).value;
    Split(p, a, ip, o.code, k.code + Encode(Geti), k.pool, o.pool);
    Split(p, a, ip + |o.code|, k.code, Encode(Geti), k.pool, k.pool);
  }

  lemma SimIndex(h: Host, w: World, p: Machine.Program, a: Act, ip: nat, e: Expr,
      locals: Locals, pool: Pool, env: Env, temps: seq<Value>, st: Store)
    requires Ready(h, w, p, a, ip, e, locals, pool, env)
    requires e.Index?
    ensures Machine.Run(h, p, At(a, ip, env, temps, st))
         == Conclude(h, p, a, ip + |CodeExpr(h, e, locals, pool).value.code|, temps,
                     Eval(h, w, e, a.self, env, st, |a.below| + 1))
    decreases 2 * (FRAMES_MAX - |a.below|), e, 0
  {
    hide Machine.Run, At, Compiled, Matches, Holds, Encode, Eval, ElementOf, CodeExpr, CodeExprs, MapsFit, AllMapsFit;
    UnfoldIndex(h, w, e, a.self, env, st, |a.below| + 1);
    var o, k := ReadyIndex(h, w, p, a, ip, e, locals, pool, env);
    SimExpr(h, w, p, a, ip, e.obj, locals, pool, env, temps, st);
    var x := Eval(h, w, e.obj, a.self, env, st, |a.below| + 1);
    if x.Ok? {
      MatchesSame(locals, env, x.env);
      SimExpr(h, w, p, a, ip + |o.code|, e.key, locals, o.pool, x.env, temps + [x.value], x.store);
      var y := Eval(h, w, e.key, a.self, x.env, x.store, |a.below| + 1);
      if y.Ok? {
        assert temps + [x.value] + [y.value] == temps + [x.value, y.value];
        RunGetIndex(h, p, a, ip + |o.code| + |k.code|, y.env, temps, y.store, x.value, y.value);
      }
    }
  }

  lemma UnfoldSetIndex(h: Host, w: World, e: Expr, self: Value, env: Env, st: Store, height: nat)
    requires e.SetIndex? && height <= FRAMES_MAX
    ensures
      Eval(h, w, e, self, env, st, height) ==
      match Eval(h, w, e.obj, self, env, st, height)
      case Ok(m, env1, st1) => (
        match Eval(h, w, e.key, self, env1, st1, height)
        case Ok(k, env2, st2) => (
          match Eval(h, w, e.value, self, env2, st2, height)
          case Ok(v, env3, st3) => StoreElement(st3, m, k, v, env3)
          case r => r)
        case r => r)
      case r => r
  {
  }

  lemma ReadySetIndex(h: Host, w: World, p: Machine.Program, a: Act, ip: nat, e: Expr, locals: Locals, pool: Pool, env: Env)
    returns (o: Piece, k: Piece, v: Piece)
    requires Ready(h, w, p, a, ip, e, locals, pool, env) && e.SetIndex?
    ensures CodeExpr(h, e.obj, locals, pool) == Some(o) && MapsFit(e.obj) && Part(p, a, ip, o.code, o.pool)
    ensures CodeExpr(h, e.key, locals, o.pool) == Some(k) && MapsFit(e.key) && Part(p, a, ip + |o.code|, k.code, k.pool)
    ensures CodeExpr(h, e.value, locals, k.pool) == Some(v) && MapsFit(e.value) && Part(p, a, ip + |o.code| + |k.code|, v.code, v.pool)
    ensures Loaded(p, a, ip + |o.code| + |k.code| + |v.code|, Seti)
    ensures |CodeExpr(h, e, locals, pool).value.code| == |o.code| + |k.code| + |v.code| + 1
  {
    hide Compiled, Matches, Holds, Encode, Fits, AddConst, Key, Resolve, InfixCode, PrefixCode;
    o := CodeExpr(h, e.obj, locals, pool).value;
    k := CodeExpr(h, e.key, locals, o.pool).value;
    v := CodeExpr(h, e.value, locals, k.pool).value;
    Split(p, a, ip, o.code, k.code + (v.code + Encode(Seti)), v.pool, o.pool);
    Split(p, a, ip + |o.code|, k.code, v.code + Encode(Seti), v.pool, k.pool);
    Split(p, a, ip + |o.code| + |k.code|, v.code, Encode(Seti), v.pool, v.pool);
  }

  lemma SimSetIndex(h: Host, w: World, p: Machine.Program, a: Act, ip: nat, e: Expr,
      locals: Locals, pool: Pool, env: Env, temps: seq<Value>, st: Store)
    requires Ready(h, w, p, a, ip, e, locals, pool, env)
    requires e.SetIndex?
    ensures Machine.Run(h, p, At(a, ip, env, temps, st))
         == Conclude(h, p, a, ip + |CodeExpr(h, e, locals, pool).value.code|, temps,
                     Eval(h, w, e, a.self, env, st, |a.below| + 1))
    decreases 2 * (FRAMES_MAX - |a.below|), e, 0
  {
    hide Machine.Run, At, Compiled, Matches, Holds, Encode, Eval, StoreElement, CodeExpr, CodeExprs, MapsFit, AllMapsFit;
    UnfoldSetIndex(h, w, e, a.self, env, st, |a.below| + 1);
    var o, k, v := ReadySetIndex(h, w, p, a, ip, e, locals, pool, env);
    SimExpr(h, w, p, a, ip, e.obj, locals, pool, env, temps, st);
    var x := Eval(h, w, e.obj, a.self, env, st, |a.below| + 1);
    if x.Ok? {
      MatchesSame(locals, env, x.env);
      SimExpr(h, w, p, a, ip + |o.code|, e.key, locals, o.pool, x.env, temps + [x.value], x.store);
      var y := Eval(h, w, e.key, a.self, x.env, x.store, |a.below| + 1);
      if y.Ok? {
        assert temps + [x.value] + [y.value] == temps + [x.value, y.value];
        MatchesSame(locals, x.env, y.env);
        SimExpr(h, w, p, a, ip + |o.code| + |k.code|, e.value, locals, k.pool, y.env, temps + [x.value, y.value], y.store);
        var z := Eval(h, w, e.value, a.self, y.env, y.store, |a.below| + 1);
        if z.Ok? {
          assert temps + [x.value, y.value] + [z.value] == temps + [x.value, y.value, z.value];
          RunSetIndex(h, p, a, ip + |o.code| + |k.code| + |v.code|, z.env, temps, z.store, x.value, y.value, z.value);
        }
      }
    }
  }

  lemma UnfoldAnd(h: Host, w: World, e: Expr, self: Value, env: Env, st: Store, height: nat)
    requires e.And? && height <= FRAMES_MAX
    ensures
      Eval(h, w, e, self, env, st, height) ==
      match Eval(h, w, e.left, self, env, st, height)
      case Ok(x, env1, st1) => if Falsey(x) then Ok(x, env1, st1) else Eval(h, w, e.right, self, env1, st1, height)
      case r => r
  {
  }

  lemma ReadyAnd(h: Host, w: World, p: Machine.Program, a: Act, ip: nat, e: Expr, locals: Locals, pool: Pool, env: Env)
    returns (l: Piece, r: Piece)
    requires Ready(h, w, p, a, ip, e, locals, pool, env) && e.And?
    ensures CodeExpr(h, e.left, locals, pool) == Some(l) && MapsFit(e.left) && Part(p, a, ip, l.code, l.pool)
    ensures 1 + |r.code| < 0x1_0000 && Loaded(p, a, ip + |l.code|, Jmpf(1 + |r.code|)) && Loaded(p, a, ip + |l.code| + 3, Pop)
    ensures CodeExpr(h, e.right, locals, l.pool) == Some(r) && MapsFit(e.right) && Part(p, a, ip + |l.code| + 4, r.code, r.pool)
    ensures |CodeExpr(h, e, locals, pool).value.code| == |l.code| + 4 + |r.code|
  {
    hide Compiled, Matches, Holds, Encode, Fits, AddConst, Key, Resolve, InfixCode, PrefixCode;
    l := CodeExpr(h, e.left, locals, pool).value;
    r := CodeExpr(h, e.right, locals, l.pool).value;
    var skip := Encode(Jmpf(1 + |r.code|));
    Split(p, a, ip, l.code, skip + (Encode(Pop) + r.code), r.pool, l.pool);
    Split(p, a, ip + |l.code|, skip, Encode(Pop) + r.code, r.pool, r.pool);
    Split(p, a, ip + |l.code| + 3, Encode(Pop), r.code, r.pool, r.pool);
  }

  lemma SimAnd(h: Host, w: World, p: Machine.Program, a: Act, ip: nat, e: Expr,
      locals: Locals, pool: Pool, env: Env, temps: seq<Value>, st: Store)
    requires Ready(h, w, p, a, ip, e, locals, pool, env)
    requires e.And?
    ensures Machine.Run(h, p, At(a, ip, env, temps, st))
         == Conclude(h, p, a, ip + |CodeExpr(h, e, locals, pool).value.code|, temps,
                     Eval(h, w, e, a.self, env, st, |a.below| + 1))
    decreases 2 * (FRAMES_MAX - |a.below|), e, 0
  {
    hide Machine.Run, At, Compiled, Matches, Holds, Encode, Eval, CodeExpr, CodeExprs, MapsFit, AllMapsFit;
    UnfoldAnd(h, w, e, a.self, env, st, |a.below| + 1);
    var l, r := ReadyAnd(h, w, p, a, ip, e, locals, pool, env);
    SimExpr(h, w, p, a, ip, e.left, locals, pool, env, temps, st);
    var x := Eval(h, w, e.left, a.self, env, st, |a.below| + 1);
    if x.Ok? {
      RunJumpIfFalse(h, p, a, ip + |l.code|, x.env, temps, x.store, 1 + |r.code|, x.value);
      if !Falsey(x.value) {
        RunPop(h, p, a, ip + |l.code| + 3, x.env, temps, x.value, x.store);
        MatchesSame(locals, env, x.env);
        SimExpr(h, w, p, a, ip + |l.code| + 4, e.right, locals, l.pool, x.env, temps, x.store);
      }
    }
  }

  lemma UnfoldOr(h: Host, w: World, e: Expr, self: Value, env: Env, st: Store, height: nat)
    requires e.Or? && height <= FRAMES_MAX
    ensures
      Eval(h, w, e, self, env, st, height) ==
      match Eval(h, w, e.left, self, env, st, height)
      case Ok(x, env1, st1) => if Falsey(x) then Eval(h, w, e.right, self, env1, st1, height) else Ok(x, env1, st1)
      case r => r
  {
  }

  lemma ReadyOr(h: Host, w: World, p: Machine.Program, a: Act, ip: nat, e: Expr, locals: Locals, pool: Pool, env: Env)
    returns (l: Piece, r: Piece)
    requires Ready(h, w, p, a, ip, e, locals, pool, env) && e.Or?
    ensures CodeExpr(h, e.left, locals, pool) == Some(l) && MapsFit(e.left) && Part(p, a, ip, l.code, l.pool)
    ensures 1 + |r.code| < 0x1_0000 && Loaded(p, a, ip + |l.code|, Jmpf(3)) && Loaded(p, a, ip + |l.code| + 3, Jmp(1 + |r.code|))
    ensures Loaded(p, a, ip + |l.code| + 6, Pop)
    ensures CodeExpr(h, e.right, locals, l.pool) == Some(r) && MapsFit(e.right) && Part(p, a, ip + |l.code| + 7, r.code, r.pool)
    ensures |CodeExpr(h, e, locals, pool).value.code| == |l.code| + 7 + |r.code|
  {
    hide Compiled, Matches, Holds, Encode, Fits, AddConst, Key, Resolve, InfixCode, PrefixCode;
    l := CodeExpr(h, e.left, locals, pool).value;
    r := CodeExpr(h, e.right, locals, l.pool).value;
    var skip := Encode(Jmp(1 + |r.code|));
    Split(p, a, ip, l.code, Encode(Jmpf(3)) + (skip + (Encode(Pop) + r.code)), r.pool, l.pool);
    Split(p, a, ip + |l.code|, Encode(Jmpf(3)), skip + (Encode(Pop) + r.code), r.pool, r.pool);
    Split(p, a, ip + |l.code| + 3, skip, Encode(Pop) + r.code, r.pool, r.pool);
    Split(p, a, ip + |l.code| + 6, Encode(Pop), r.code, r.pool, r.pool);
  }

  lemma SimOr(h: Host, w: World, p: Machine.Program, a: Act, ip: nat, e: Expr,
      locals: Locals, pool: Pool, env: Env, temps: seq<Value>, st: Store)
    requires Ready(h, w, p, a, ip, e, locals, pool, env)
    requires e.Or?
    ensures Machine.Run(h, p, At(a, ip, env, temps, st))
         == Conclude(h, p, a, ip + |CodeExpr(h, e, locals, pool).value.code|, temps,
                     Eval(h, w, e, a.self, env, st, |a.below| + 1))
    decreases 2 * (FRAMES_MAX - |a.below|), e, 0
  {
    hide Machine.Run, At, Compiled, Matches, Holds, Encode, Eval, CodeExpr, CodeExprs, MapsFit, AllMapsFit;
    UnfoldOr(h, w, e, a.self, env, st, |a.below| + 1);
    var l, r := ReadyOr(h, w, p, a, ip, e, locals, pool, env);
    SimExpr(h, w, p, a, ip, e.left, locals, pool, env, temps, st);
    var x := Eval(h, w, e.left, a.self, env, st, |a.below| + 1);
    if x.Ok? {
      RunJumpIfFalse(h, p, a, ip + |l.code|, x.env, temps, x.store, 3, x.value);
      if Falsey(x.value) {
        RunPop(h, p, a, ip + |l.code| + 6, x.env, temps, x.value, x.store);
        MatchesSame(locals, env, x.env);
        SimExpr(h, w, p, a, ip + |l.code| + 7, e.right, locals, l.pool, x.env, temps, x.store);
      } else {
        RunJump(h, p, a, ip + |l.code| + 3, x.env, temps + [x.value], x.store, 1 + |r.code|);
      }
    }
  }

  ghost predicate ReadyAll(h: Host, w: World, p: Machine.Program, a: Act, ip: nat, es: seq<Expr>,
                           locals: Locals, pool: Pool, env: Env)
  {
    Compiled(h, w, p) && AllMapsFit(es) && Matches(locals, env)
    && CodeExprs(h, es, locals, pool).Some?
    && var c := CodeExprs(h, es, locals, pool).value;
    Part(p, a, ip, c.code, c.pool)
  }

  lemma UnfoldAll(h: Host, w: World, es: seq<Expr>, self: Value, env: Env, st: Store, height: nat)
    requires es != [] && height <= FRAMES_MAX
    ensures
      EvalAll(h, w, es, self, env, st, height) ==
      match Eval(h, w, es[0], self, env, st, height)
      case Ok(v, env1, st1) => (
        match EvalAll(h, w, es[1..], self, env1, st1, height)
        case Ok(vs, env2, st2) => Ok([v] + vs, env2, st2)
        case r => r)
      case Err(x, at) => Err(x, at)
      case Wrong => Wrong
  {
  }

  lemma ReadyCons(h: Host, w: World, p: Machine.Program, a: Act, ip: nat, es: seq<Expr>, locals: Locals, pool: Pool, env: Env)
    returns (x: Piece, y: Piece)
    requires ReadyAll(h, w, p, a, ip, es, locals, pool, env) && es != []
    ensures CodeExpr(h, es[0], locals, pool) == Some(x) && MapsFit(es[0]) && Part(p, a, ip, x.code, x.pool)
    ensures CodeExprs(h, es[1..], locals, x.pool) == Some(y) && AllMapsFit(es[1..]) && Part(p, a, ip + |x.code|, y.code, y.pool)
    ensures |CodeExprs(h, es, locals, pool).value.code| == |x.code| + |y.code|
  {
    hide Compiled, Matches, Holds, CodeExpr, MapsFit;
    x := CodeExpr(h, es[0], locals, pool).value;
    y := CodeExprs(h, es[1..], locals, x.pool).value;
    Split(p, a, ip, x.code, y.code, y.pool, x.pool);
  }

  lemma {:induction false} SimExprs(h: Host, w: World, p: Machine.Program, a: Act, ip: nat, es: seq<Expr>,
      locals: Locals, pool: Pool, env: Env, temps: seq<Value>, st: Store)
    requires ReadyAll(h, w, p, a, ip, es, locals, pool, env)
    ensures Machine.Run(h, p, At(a, ip, env, temps, st))
         == ConcludeAll(h, p, a, ip + |CodeExprs(h, es, locals, pool).value.code|, temps,
                        EvalAll(h, w, es, a.self, env, st, |a.below| + 1))
    decreases 2 * (FRAMES_MAX - |a.below|), es, 1
  {
    hide Machine.Run, At, Compiled, Matches, Holds, Encode, Eval;
    if es == [] {
      assert temps + [] == temps;
    } else {
      SimCons(h, w, p, a, ip, es, locals, pool, env, temps, st);
    }
  }

  lemma {:induction false} SimCons(h: Host, w: World, p: Machine.Program, a: Act, ip: nat, es: seq<Expr>,
      locals: Locals, pool: Pool, env: Env, temps: seq<Value>, st: Store)
    requires ReadyAll(h, w, p, a, ip, es, locals, pool, env) && es != []
    ensures Machine.Run(h, p, At(a, ip, env, temps, st))
         == ConcludeAll(h, p, a, ip + |CodeExprs(h, es, locals, pool).value.code|, temps,
                        EvalAll(h, w, es, a.self, env, st, |a.below| + 1))
    decreases 2 * (FRAMES_MAX - |a.below|), es, 0
  {
    hide Machine.Run, At, Compiled, Matches, Holds, Encode, Eval, EvalAll, CodeExpr, CodeExprs, MapsFit, AllMapsFit;
    UnfoldAll(h, w, es, a.self, env, st, |a.below| + 1);
    var x, y := ReadyCons(h, w, p, a, ip, es, locals, pool, env);
    SimExpr(h, w, p, a, ip, es[0], locals, pool, env, temps, st);
    var v := Eval(h, w, es[0], a.self, env, st, |a.below| + 1);
    if v.Ok? {
      MatchesSame(locals, env, v.env);
      SimExprs(h, w, p, a, ip + |x.code|, es[1..], locals, x.pool, v.env, temps + [v.value], v.store);
      var vs := EvalAll(h, w, es[1..], a.self, v.env, v.store, |a.below| + 1);
      if vs.Ok? { assert temps + [v.value] + vs.value == temps + ([v.value] + vs.value); }
    }
  }

  lemma UnfoldMapLit(h: Host, w: World, e: Expr, self: Value, env: Env, st: Store, height: nat)
    requires e.MapLit? && height <= FRAMES_MAX
    ensures
      Eval(h, w, e, self, env, st, height) ==
      match EvalAll(h, w, e.elems, self, env, st, height)
      case Ok(vs, env1, st1) => Allocate(h, vs, env1, st1)
      case Err(x, at) => Err(x, at)
      case Wrong => Wrong
  {
  }

  lemma SimMapLit(h: Host, w: World, p: Machine.Program, a: Act, ip: nat, e: Expr,
      locals: Locals, pool: Pool, env: Env, temps: seq<Value>, st: Store)
    requires Ready(h, w, p, a, ip, e, locals, pool, env)
    requires e.MapLit?
    ensures Machine.Run(h, p, At(a, ip, env, temps, st))
         == Conclude(h, p, a, ip + |CodeExpr(h, e, locals, pool).value.code|, temps,
                     Eval(h, w, e, a.self, env, st, |a.below| + 1))
    decreases 2 * (FRAMES_MAX - |a.below|), e, 0
  {
    hide Machine.Run, At, Compiled, Matches, Holds, Encode, Eval, EvalAll, Allocate;
    UnfoldMapLit(h, w, e, a.self, env, st, |a.below| + 1);
    var c := CodeExprs(h, e.elems, locals, pool).value;
    Split(p, a, ip, c.code, Encode(MakeMap(|e.elems|)), c.pool, c.pool);
    SimExprs(h, w, p, a, ip, e.elems, locals, pool, env, temps, st);
    var vs := EvalAll(h, w, e.elems, a.self, env, st, |a.below| + 1);
    if vs.Ok? {
      RunMap(h, p, a, ip + |c.code|, vs.env, temps, vs.store, vs.value);
    }
  }

  /** What a call of `f` comes to once callee and arguments are known. */
  function Apply(h: Host, w: World, f: Value, vs: seq<Value>, env: Env, st: Store, height: nat): Result<Value>
    requires height <= FRAMES_MAX
  {
    if f.Fun? && f.site < |w| && |w[f.site].params| == |vs| && height < FRAMES_MAX then
      var d := w[f.site];
      ReturnValue(EvalBlock(h, w, d.body, d.script, f, Bind(d.params, vs), st, height + 1), env)
    else
      CallWithoutBody(h, |w|, f, f.Fun? && f.site < |w| && |w[f.site].params| == |vs|, vs, env, st)
  }

  lemma UnfoldInvoke(h: Host, w: World, e: Expr, self: Value, env: Env, st: Store, height: nat)
    requires e.Invoke? && height <= FRAMES_MAX
    ensures
      Eval(h, w, e, self, env, st, height) ==
      match Eval(h, w, e.callee, self, env, st, height)
      case Ok(f, env1, st1) => (
        match EvalAll(h, w, e.args, self, env1, st1, height)
        case Ok(vs, env2, st2) => Apply(h, w, f, vs, env2, st2, height)
        case Err(x, at) => Err(x, at)
        case Wrong => Wrong)
      case r => r
  {
  }

  lemma ReadyInvoke(h: Host, w: World, p: Machine.Program, a: Act, ip: nat, e: Expr, locals: Locals, pool: Pool, env: Env)
    returns (f: Piece, c: Piece)
    requires Ready(h, w, p, a, ip, e, locals, pool, env) && e.Invoke?
    ensures CodeExpr(h, e.callee, locals, pool) == Some(f) && MapsFit(e.callee) && Part(p, a, ip, f.code, f.pool)
    ensures CodeExprs(h, e.args, locals, f.pool) == Some(c) && AllMapsFit(e.args) && Part(p, a, ip + |f.code|, c.code, c.pool)
    ensures |e.args| < 32 && Loaded(p, a, ip + |f.code| + |c.code|, Call(|e.args|))
    ensures |CodeExpr(h, e, locals, pool).value.code| == |f.code| + |c.code| + 2
  {
    hide Compiled, Matches, Holds, Encode, Fits, AddConst, Key, Resolve, InfixCode, PrefixCode;
    f := CodeExpr(h, e.callee, locals, pool).value;
    c := CodeExprs(h, e.args, locals, f.pool).value;
    var tail := Encode(Call(|e.args|));
    Split(p, a, ip, f.code, c.code + tail, c.pool, f.pool);
    Split(p, a, ip + |f.code|, c.code, tail, c.pool, c.pool);
  }

  lemma SimInvoke(h: Host, w: World, p: Machine.Program, a: Act, ip: nat, e: Expr,
      locals: Locals, pool: Pool, env: Env, temps: seq<Value>, st: Store)
    requires Ready(h, w, p, a, ip, e, locals, pool, env)
    requires e.Invoke?
    ensures Machine.Run(h, p, At(a, ip, env, temps, st))
         == Conclude(h, p, a, ip + |CodeExpr(h, e, locals, pool).value.code|, temps,
                     Eval(h, w, e, a.self, env, st, |a.below| + 1))
    decreases 2 * (FRAMES_MAX - |a.below|), e, 0
  {
    hide Machine.Run, At, Compiled, Matches, Holds, Encode, Eval, EvalAll, Apply, CodeExpr, CodeExprs, MapsFit, AllMapsFit;
    UnfoldInvoke(h, w, e, a.self, env, st, |a.below| + 1);
    var f, c := ReadyInvoke(h, w, p, a, ip, e, locals, pool, env);
    SimExpr(h, w, p, a, ip, e.callee, locals, pool, env, temps, st);
    var x := Eval(h, w, e.callee, a.self, env, st, |a.below| + 1);
    if x.Ok? {
      MatchesSame(locals, env, x.env);
      SimExprs(h, w, p, a, ip + |f.code|, e.args, locals, f.pool, x.env, temps + [x.value], x.store);
      var vs := EvalAll(h, w, e.args, a.self, x.env, x.store, |a.below| + 1);
      if vs.Ok? {
        assert temps + [x.value] + vs.value == temps + ([x.value] + vs.value);
        SimApply(h, w, p, a, ip + |f.code| + |c.code|, x.value, vs.value, vs.env, temps, vs.store);
      }
    }
  }

  /** A call replaces callee and arguments by one result and leaves the caller as it was. */
  lemma SimApply(h: Host, w: World, p: Machine.Program, a: Act, ip: nat, f: Value, vs: seq<Value>,
      env: Env, temps: seq<Value>, st: Store)
    requires Compiled(h, w, p) && |vs| < 256 && Loaded(p, a, ip, Call(|vs|))
    ensures Machine.Run(h, p, At(a, ip, env, temps + ([f] + vs), st))
         == Conclude(h, p, a, ip + 2, temps, Apply(h, w, f, vs, env, st, |a.below| + 1))
    decreases 2 * (FRAMES_MAX - |a.below|) - 1
  {
    hide Machine.Run, Holds, Stack, EvalBlock;
    if f.Fun? && f.site < |w| { ArityKept(h, w[f.site]); }
    if f.Fun? && f.site < |w| && |w[f.site].params| == |vs| && |a.below| + 1 < FRAMES_MAX {
      RunCallFunction(h, p, a, ip, env, temps, st, f.site, w[f.site].params, vs);
      var c := Callee(a, ip + 2, env, temps, f.site);
      SimBody(h, w, p, c, vs, st);
      DropTemps(a, env, temps, []);
      assert temps + [] == temps;
    } else {
      RunCallOther(h, p, a, ip, env, temps, st, f, vs);
    }
  }

  lemma ArityKept(h: Host, d: Decl)
    requires CodeFunction(h, d).Some?
    ensures CodeFunction(h, d).value.arity == |d.params|
  {
  }

  /** The outcome of a run once a function has ended with `r`. */
  function ConcludeBody(h: Host, p: Machine.Program, a: Act, r: Result<Flow>): Machine.Final
    requires Fits(p, a)
  {
    match r
    case Ok(Onward, _, st) => AfterReturn(h, p, a, Null, st)
    case Ok(Returned(v), _, st) => AfterReturn(h, p, a, v, st)
    case Err(e, st) => Machine.Failed(e, st)
    case Wrong => Machine.Crashed
  }

  /** A value on top of the locals becomes the newest local, and the other way round. */
  lemma BindTop(a: Act, ip: nat, env: Env, name: Ident, v: Value, st: Store)
    ensures At(a, ip, env, [v], st) == At(a, ip, env + [Binding(name, v)], [], st)
  {
    assert Vals(env + [Binding(name, v)]) == Vals(env) + [v];
    assert Stack(a, env, [v]) == Stack(a, env + [Binding(name, v)], []);
  }

  lemma {:induction false} RunPops(h: Host, p: Machine.Program, a: Act, ip: nat, env: Env, n: nat, st: Store, pool: Pool)
    requires n <= |env| && Part(p, a, ip, Pops(n), pool)
    ensures Machine.Run(h, p, At(a, ip, env, [], st)) == Machine.Run(h, p, At(a, ip + n, env[..|env| - n], [], st))
    ensures |Pops(n)| == n
  {
    hide Machine.Run, At, Holds;
    if n == 0 {
      assert env[..|env|] == env;
    } else {
      Split(p, a, ip, Pops(n - 1), Encode(Pop), pool, pool);
      RunPops(h, p, a, ip, env, n - 1, st, pool);
      var env1 := env[..|env| - (n - 1)];
      var last := env1[|env1| - 1];
      var env2 := env[..|env| - n];
      assert env1 == env2 + [Binding(last.name, last.value)];
      BindTop(a, ip + n - 1, env2, last.name, last.value, st);
      assert [] + [last.value] == [last.value];
      RunPop(h, p, a, ip + n - 1, env2, [], last.value, st);
    }
  }

  /** Everything the simulation of a statement at `ip` starts from. */
  ghost predicate ReadyStmt(h: Host, w: World, p: Machine.Program, a: Act, ip: nat, s: Stmt, sc: Scope,
                            locals: Locals, pool: Pool, env: Env)
  {
    Compiled(h, w, p) && StmtFits(s) && Matches(locals, env) && Settled(locals, sc.depth)
    && (a.below == [] ==> sc.script)
    && CodeStmt(h, s, sc, locals, pool).Some?
    && var g := CodeStmt(h, s, sc, locals, pool).value;
    Part(p, a, ip, g.code, g.pool)
  }

  ghost predicate ReadyBlock(h: Host, w: World, p: Machine.Program, a: Act, ip: nat, ss: seq<Stmt>, sc: Scope,
                             locals: Locals, pool: Pool, env: Env)
  {
    Compiled(h, w, p) && BlockFits(ss) && Matches(locals, env) && Settled(locals, sc.depth)
    && (a.below == [] ==> sc.script)
    && CodeBlock(h, ss, sc, locals, pool).Some?
    && var g := CodeBlock(h, ss, sc, locals, pool).value;
    Part(p, a, ip, g.code, g.pool)
  }

  /** Where a statement ends normally, the compiler's locals are again the variables in scope. */
  predicate StillMatches(locals: Locals, r: Result<Flow>) {
    r.Ok? && r.value.Onward? ==> Matches(locals, r.env)
  }

  lemma SimStmt(h: Host, w: World, p: Machine.Program, a: Act, ip: nat, s: Stmt, sc: Scope,
      locals: Locals, pool: Pool, env: Env, st: Store)
    requires ReadyStmt(h, w, p, a, ip, s, sc, locals, pool, env)
    ensures
      var g := CodeStmt(h, s, sc, locals, pool).value;
      var r := Evaluate(h, w, s, sc.depth == 0, a.self, env, st, |a.below| + 1);
      Machine.Run(h, p, At(a, ip, env, [], st)) == ConcludeFlow(h, p, a, ip + |g.code|, r)
      && StillMatches(g.locals, r)
    decreases 2 * (FRAMES_MAX - |a.below|), s, 1
  {
    hide *;
    match s
    case ExprStmt(_) => SimExprStmt(h, w, p, a, ip, s, sc, locals, pool, env, st);
    case PrintStmt(_) => SimPrintStmt(h, w, p, a, ip, s, sc, locals, pool, env, st);
    case If(_, _, _) => SimIf(h, w, p, a, ip, s, sc, locals, pool, env, st);
    case Return(_) => SimReturn(h, w, p, a, ip, s, sc, locals, pool, env, st);
    case ReturnNull => SimReturnNull(h, w, p, a, ip, s, sc, locals, pool, env, st);
    case Block(_) => SimBlockStmt(h, w, p, a, ip, s, sc, locals, pool, env, st);
    case Var(_, _) =>
      if sc.depth == 0 { SimGlobalVar(h, w, p, a, ip, s, sc, locals, pool, env, st); }
      else { SimLocalVar(h, w, p, a, ip, s, sc, locals, pool, env, st); }
    case Globals(_) => SimGlobals(h, w, p, a, ip, s, sc, locals, pool, env, st);
    case FunDecl(_, _, _, _) => SimFunDecl(h, w, p, a, ip, s, sc, locals, pool, env, st);
  }

  lemma UnfoldExprStmt(h: Host, w: World, s: Stmt, top: bool, self: Value, env: Env, st: Store, height: nat)
    requires s.ExprStmt? && height <= FRAMES_MAX
    ensures
      var r := Eval(h, w, s.e, self, env, st, height);
      var q := Evaluate(h, w, s, top, self, env, st, height);
      && (r.Ok? ==> q == Ok(Onward, r.env, r.store))
      && (r.Err? ==> q == Err(r.error, r.at))
      && (r.Wrong? ==> q == Wrong)
  {
  }

  lemma ReadyExprStmt(h: Host, w: World, p: Machine.Program, a: Act, ip: nat, s: Stmt, sc: Scope,
      locals: Locals, pool: Pool, env: Env) returns (c: Piece)
    requires ReadyStmt(h, w, p, a, ip, s, sc, locals, pool, env) && s.ExprStmt?
    ensures CodeExpr(h, s.e, locals, pool) == Some(c) && MapsFit(s.e) && Part(p, a, ip, c.code, c.pool)
    ensures Loaded(p, a, ip + |c.code|, Pop)
    ensures var g := CodeStmt(h, s, sc, locals, pool).value; g.locals == locals && |g.code| == |c.code| + 1
  {
    hide Compiled, Matches, Holds, Encode, CodeExpr, MapsFit, Useless;
    c := CodeExpr(h, s.e, locals, pool).value;
    Split(p, a, ip, c.code, Encode(Pop), c.pool, c.pool);
  }

  lemma SimExprStmt(h: Host, w: World, p: Machine.Program, a: Act, ip: nat, s: Stmt, sc: Scope,
      locals: Locals, pool: Pool, env: Env, st: Store)
    requires ReadyStmt(h, w, p, a, ip, s, sc, locals, pool, env)
    requires s.ExprStmt?
    ensures
      var g := CodeStmt(h, s, sc, locals, pool).value;
      var r := Evaluate(h, w, s, sc.depth == 0, a.self, env, st, |a.below| + 1);
      Machine.Run(h, p, At(a, ip, env, [], st)) == ConcludeFlow(h, p, a, ip + |g.code|, r)
      && StillMatches(g.locals, r)
    decreases 2 * (FRAMES_MAX - |a.below|), s, 0
  {
    hide Machine.Run, At, Compiled, Matches, Holds, Encode, Eval, Evaluate, EvalAll, CodeExpr, CodeStmt, MapsFit;
    UnfoldExprStmt(h, w, s, sc.depth == 0, a.self, env, st, |a.below| + 1);
    var c := ReadyExprStmt(h, w, p, a, ip, s, sc, locals, pool, env);
    SimExpr(h, w, p, a, ip, s.e, locals, pool, env, [], st);
    var r := Eval(h, w, s.e, a.self, env, st, |a.below| + 1);
    if r.Ok? {
      RunPop(h, p, a, ip + |c.code|, r.env, [], r.value, r.store);
      MatchesSame(locals, env, r.env);
    }
  }

  lemma UnfoldPrintStmt(h: Host, w: World, s: Stmt, top: bool, self: Value, env: Env, st: Store, height: nat)
    requires s.PrintStmt? && height <= FRAMES_MAX
    ensures
      var r := EvalAll(h, w, s.es, self, env, st, height);
      var q := Evaluate(h, w, s, top, self, env, st, height);
      && (r.Ok? ==> q == Ok(Onward, r.env, r.store.(out := r.store.out + [r.value])))
      && (r.Err? ==> q == Err(r.error, r.at))
      && (r.Wrong? ==> q == Wrong)
  {
  }

  lemma SimPrintStmt(h: Host, w: World, p: Machine.Program, a: Act, ip: nat, s: Stmt, sc: Scope,
      locals: Locals, pool: Pool, env: Env, st: Store)
    requires ReadyStmt(h, w, p, a, ip, s, sc, locals, pool, env)
    requires s.PrintStmt?
    ensures
      var g := CodeStmt(h, s, sc, locals, pool).value;
      var r := Evaluate(h, w, s, sc.depth == 0, a.self, env, st, |a.below| + 1);
      Machine.Run(h, p, At(a, ip, env, [], st)) == ConcludeFlow(h, p, a, ip + |g.code|, r)
      && StillMatches(g.locals, r)
    decreases 2 * (FRAMES_MAX - |a.below|), s, 0
  {
    hide Machine.Run, At, Compiled, Matches, Holds, Encode, Eval, Evaluate, EvalAll, CodeExprs, AllMapsFit;
    UnfoldPrintStmt(h, w, s, sc.depth == 0, a.self, env, st, |a.below| + 1);
    var c := CodeExprs(h, s.es, locals, pool).value;
    Split(p, a, ip, c.code, Encode(Print(|s.es|)), c.pool, c.pool);
    SimExprs(h, w, p, a, ip, s.es, locals, pool, env, [], st);
    var r := EvalAll(h, w, s.es, a.self, env, st, |a.below| + 1);
    if r.Ok? {
      assert [] + r.value == r.value;
      RunPrint(h, p, a, ip + |c.code|, r.env, r.store, r.value);
      MatchesSame(locals, env, r.env);
    }
  }

  lemma UnfoldReturn(h: Host, w: World, s: Stmt, top: bool, self: Value, env: Env, st: Store, height: nat)
    requires s.Return? && height <= FRAMES_MAX
    ensures
      var r := Eval(h, w, s.result, self, env, st, height);
      var q := Evaluate(h, w, s, top, self, env, st, height);
      && (r.Ok? ==> q == Ok(Returned(r.value), r.env, r.store))
      && (r.Err? ==> q == Err(r.error, r.at))
      && (r.Wrong? ==> q == Wrong)
  {
  }

  lemma SimReturn(h: Host, w: World, p: Machine.Program, a: Act, ip: nat, s: Stmt, sc: Scope,
      locals: Locals, pool: Pool, env: Env, st: Store)
    requires ReadyStmt(h, w, p, a, ip, s, sc, locals, pool, env)
    requires s.Return?
    ensures
      var g := CodeStmt(h, s, sc, locals, pool).value;
      var r := Evaluate(h, w, s, sc.depth == 0, a.self, env, st, |a.below| + 1);
      Machine.Run(h, p, At(a, ip, env, [], st)) == ConcludeFlow(h, p, a, ip + |g.code|, r)
      && StillMatches(g.locals, r)
    decreases 2 * (FRAMES_MAX - |a.below|), s, 0
  {
    hide Machine.Run, At, Compiled, Matches, Holds, Encode, Eval, Evaluate, EvalAll;
    UnfoldReturn(h, w, s, sc.depth == 0, a.self, env, st, |a.below| + 1);
    var c := CodeExpr(h, s.result, locals, pool).value;
    Split(p, a, ip, c.code, Encode(Ret), c.pool, c.pool);
    SimExpr(h, w, p, a, ip, s.result, locals, pool, env, [], st);
    var r := Eval(h, w, s.result, a.self, env, st, |a.below| + 1);
    if r.Ok? {
      assert [] + [r.value] == [r.value];
      RunReturn(h, p, a, ip + |c.code|, r.env, r.value, r.store);
    }
  }

  lemma UnfoldReturnNull(h: Host, w: World, s: Stmt, top: bool, self: Value, env: Env, st: Store, height: nat)
    requires s.ReturnNull? && height <= FRAMES_MAX
    ensures
      Evaluate(h, w, s, top, self, env, st, height) ==
      Ok(Returned(Null), env, st)
  {
  }

  lemma SimReturnNull(h: Host, w: World, p: Machine.Program, a: Act, ip: nat, s: Stmt, sc: Scope,
      locals: Locals, pool: Pool, env: Env, st: Store)
    requires ReadyStmt(h, w, p, a, ip, s, sc, locals, pool, env)
    requires s.ReturnNull?
    ensures
      var g := CodeStmt(h, s, sc, locals, pool).value;
      var r := Evaluate(h, w, s, sc.depth == 0, a.self, env, st, |a.below| + 1);
      Machine.Run(h, p, At(a, ip, env, [], st)) == ConcludeFlow(h, p, a, ip + |g.code|, r)
      && StillMatches(g.locals, r)
    decreases 2 * (FRAMES_MAX - |a.below|), s, 0
  {
    hide Machine.Run, At, Compiled, Matches, Holds, Encode, Eval, Evaluate, EvalAll;
    UnfoldReturnNull(h, w, s, sc.depth == 0, a.self, env, st, |a.below| + 1);
    Split(p, a, ip, Encode(Nil), Encode(Ret), pool, pool);
    RunPush(h, p, a, ip, env, [], st, Nil, Null);
    assert [] + [Null] == [Null];
    RunReturn(h, p, a, ip + 1, env, Null, st);
  }

  lemma UnfoldIf(h: Host, w: World, s: Stmt, top: bool, self: Value, env: Env, st: Store, height: nat)
    requires s.If? && height <= FRAMES_MAX
    ensures
      var r := Eval(h, w, s.cond, self, env, st, height);
      var q := Evaluate(h, w, s, top, self, env, st, height);
      && (r.Ok? && Falsey(r.value) ==> q == Evaluate(h, w, s.els, top, self, r.env, r.store, height))
      && (r.Ok? && !Falsey(r.value) ==> q == Evaluate(h, w, s.thn, top, self, r.env, r.store, height))
      && (r.Err? ==> q == Err(r.error, r.at))
      && (r.Wrong? ==> q == Wrong)
  {
  }

  /** What readiness of a conditional means for its parts. */
  lemma ReadyIf(h: Host, w: World, p: Machine.Program, a: Act, ip: nat, s: Stmt, sc: Scope,
                locals: Locals, pool: Pool, env: Env)
    returns (c: Piece, t: Gen, e: Gen)
    requires ReadyStmt(h, w, p, a, ip, s, sc, locals, pool, env) && s.If?
    ensures CodeExpr(h, s.cond, locals, pool) == Some(c)
    ensures CodeStmt(h, s.thn, sc, locals, c.pool) == Some(t) && t.locals == locals
    ensures CodeStmt(h, s.els, sc, locals, t.pool) == Some(e) && e.locals == locals
    ensures CodeIf(c, t, e).Some? && CodeStmt(h, s, sc, locals, pool) == CodeIf(c, t, e)
    ensures Part(p, a, ip, CodeIf(c, t, e).value.code, e.pool)
    ensures MapsFit(s.cond) && StmtFits(s.thn) && StmtFits(s.els)
  {
    hide Compiled, Matches, Holds, Encode, Grows;
    c := CodeExpr(h, s.cond, locals, pool).value;
    t := CodeStmt(h, s.thn, sc, locals, c.pool).value;
    StmtGrows(h, s.thn, sc, locals, c.pool);
    e := CodeStmt(h, s.els, sc, locals, t.pool).value;
    StmtGrows(h, s.els, sc, locals, t.pool);
  }

  lemma IfLength(c: Piece, t: Gen, e: Gen)
    requires CodeIf(c, t, e).Some?
    ensures var g := CodeIf(c, t, e).value; |g.code| == |c.code| + 4 + |t.code| + 4 + |e.code| && g.locals == e.locals
    ensures 1 + |t.code| + 3 < 0x1_0000 && 1 + |e.code| < 0x1_0000
  {
  }

  lemma SimIf(h: Host, w: World, p: Machine.Program, a: Act, ip: nat, s: Stmt, sc: Scope,
      locals: Locals, pool: Pool, env: Env, st: Store)
    requires ReadyStmt(h, w, p, a, ip, s, sc, locals, pool, env)
    requires s.If?
    ensures
      var g := CodeStmt(h, s, sc, locals, pool).value;
      var r := Evaluate(h, w, s, sc.depth == 0, a.self, env, st, |a.below| + 1);
      Machine.Run(h, p, At(a, ip, env, [], st)) == ConcludeFlow(h, p, a, ip + |g.code|, r)
      && StillMatches(g.locals, r)
    decreases 2 * (FRAMES_MAX - |a.below|), s, 0
  {
    hide Machine.Run, At, Compiled, Matches, Holds, Encode, Eval, Evaluate, CodeExpr, CodeStmt, MapsFit, StmtFits, Settled, CodeIf;
    UnfoldIf(h, w, s, sc.depth == 0, a.self, env, st, |a.below| + 1);
    var c, t, e := ReadyIf(h, w, p, a, ip, s, sc, locals, pool, env);
    var atThen := ip + |c.code| + 4;
    var atElse := atThen + |t.code| + 4;
    IfParts(p, a, ip, c, t, e);
    IfLength(c, t, e);
    SimExpr(h, w, p, a, ip, s.cond, locals, pool, env, [], st);
    var r := Eval(h, w, s.cond, a.self, env, st, |a.below| + 1);
    if r.Ok? {
      MatchesSame(locals, env, r.env);
      assert [] + [r.value] == [r.value];
      RunJumpIfFalse(h, p, a, ip + |c.code|, r.env, [], r.store, 1 + |t.code| + 3, r.value);
      if Falsey(r.value) {
        RunPop(h, p, a, atElse - 1, r.env, [], r.value, r.store);
        SimStmt(h, w, p, a, atElse, s.els, sc, locals, t.pool, r.env, r.store);
      } else {
        RunPop(h, p, a, atThen - 1, r.env, [], r.value, r.store);
        SimStmt(h, w, p, a, atThen, s.thn, sc, locals, c.pool, r.env, r.store);
        var q := Evaluate(h, w, s.thn, sc.depth == 0, a.self, r.env, r.store, |a.below| + 1);
        if q.Ok? && q.value.Onward? {
          RunJump(h, p, a, atThen + |t.code|, q.env, [], q.store, 1 + |e.code|);
        }
      }
    }
  }

  /** Where the parts of a conditional stand. */
  lemma IfParts(p: Machine.Program, a: Act, ip: nat, c: Piece, t: Gen, e: Gen)
    requires CodeIf(c, t, e).Some? && c.pool <= t.pool && t.pool <= e.pool
    requires Part(p, a, ip, CodeIf(c, t, e).value.code, e.pool)
    ensures
      var atThen := ip + |c.code| + 4;
      var atElse := atThen + |t.code| + 4;
      Part(p, a, ip, c.code, c.pool)
      && Loaded(p, a, ip + |c.code|, Jmpf(1 + |t.code| + 3)) && Loaded(p, a, atThen - 1, Pop)
      && Part(p, a, atThen, t.code, t.pool)
      && Loaded(p, a, atThen + |t.code|, Jmp(1 + |e.code|)) && Loaded(p, a, atElse - 1, Pop)
      && Part(p, a, atElse, e.code, e.pool)
  {
    hide Holds;
    var skip, over := Encode(Jmpf(1 + |t.code| + 3)), Encode(Jmp(1 + |e.code|));
    var tail := Encode(Pop) + e.code;
    var at := ip + |c.code|;
    Split(p, a, ip, c.code, skip + (Encode(Pop) + (t.code + (over + tail))), e.pool, c.pool);
    Split(p, a, at, skip, Encode(Pop) + (t.code + (over + tail)), e.pool, e.pool);
    Split(p, a, at + 3, Encode(Pop), t.code + (over + tail), e.pool, e.pool);
    Split(p, a, at + 4, t.code, over + tail, e.pool, t.pool);
    Split(p, a, at + 4 + |t.code|, over, tail, e.pool, e.pool);
    Split(p, a, at + 4 + |t.code| + 3, Encode(Pop), e.code, e.pool, e.pool);
  }

  lemma UnfoldBlockStmt(h: Host, w: World, s: Stmt, top: bool, self: Value, env: Env, st: Store, height: nat)
    requires s.Block? && height <= FRAMES_MAX
    ensures
      Evaluate(h, w, s, top, self, env, st, height) ==
      match EvalBlock(h, w, s.body, false, self, env, st, height)
      case Ok(flow, env1, st1) => Ok(flow, env1[..|env|], st1)
      case Err(x, at) => Err(x, at)
      case Wrong => Wrong
  {
  }

  /** A block's code: its body, and then one pop for each of its variables. */
  lemma ClosedBlock(h: Host, s: Stmt, sc: Scope, locals: Locals, pool: Pool) returns (b: Gen)
    requires s.Block? && Settled(locals, sc.depth) && CodeStmt(h, s, sc, locals, pool).Some?
    ensures CodeBlock(h, s.body, sc.(depth := sc.depth + 1), locals, pool) == Some(b)
    ensures |locals| <= |b.locals| && b.locals[..|locals|] == locals
    ensures CodeStmt(h, s, sc, locals, pool) == Some(Gen(b.code + Pops(|b.locals| - |locals|), b.pool, locals))
  {
    hide CodeBlock, Pops, Settled;
    b := CodeBlock(h, s.body, sc.(depth := sc.depth + 1), locals, pool).value;
    assert Settled(locals, sc.depth + 1) by { SettledMore(locals, sc.depth); }
    BlockGrows(h, s.body, sc.(depth := sc.depth + 1), locals, pool);
    AboveCounts(locals, b.locals, sc.depth);
  }

  lemma SettledMore(locals: Locals, depth: nat)
    requires Settled(locals, depth)
    ensures Settled(locals, depth + 1)
  {
  }

  lemma SimBlockStmt(h: Host, w: World, p: Machine.Program, a: Act, ip: nat, s: Stmt, sc: Scope,
      locals: Locals, pool: Pool, env: Env, st: Store)
    requires ReadyStmt(h, w, p, a, ip, s, sc, locals, pool, env)
    requires s.Block?
    ensures
      var g := CodeStmt(h, s, sc, locals, pool).value;
      var r := Evaluate(h, w, s, sc.depth == 0, a.self, env, st, |a.below| + 1);
      Machine.Run(h, p, At(a, ip, env, [], st)) == ConcludeFlow(h, p, a, ip + |g.code|, r)
      && StillMatches(g.locals, r)
    decreases 2 * (FRAMES_MAX - |a.below|), s, 0
  {
    hide Machine.Run, At, Compiled, Matches, Holds, Encode, Eval, Evaluate, EvalAll, EvalBlock, CodeBlock, CodeStmt, Settled;
    UnfoldBlockStmt(h, w, s, sc.depth == 0, a.self, env, st, |a.below| + 1);
    var inner := sc.(depth := sc.depth + 1);
    SettledMore(locals, sc.depth);
    var b := ClosedBlock(h, s, sc, locals, pool);
    var n := |b.locals| - |locals|;
    Split(p, a, ip, b.code, Pops(n), b.pool, b.pool);
    SimBlock(h, w, p, a, ip, s.body, inner, locals, pool, env, st);
    var r := EvalBlock(h, w, s.body, false, a.self, env, st, |a.below| + 1);
    if r.Ok? && r.value.Onward? {
      MatchesPrefix(locals, b.locals, env, r.env);
      RunPops(h, p, a, ip + |b.code|, r.env, n, r.store, b.pool);
    }
  }

  /** Leaving a block, the values that remain are those of the variables outside it. */
  lemma MatchesPrefix(locals: Locals, locals': Locals, env: Env, env': Env)
    requires Matches(locals, env) && Matches(locals', env') && |locals| <= |locals'|
    requires locals'[..|locals|] == locals
    ensures |env| <= |env'| && |env'| - |env| == |locals'| - |locals| && Matches(locals, env'[..|env|])
  {
    forall i | 0 <= i < |env| ensures locals[i + 1].name == env'[i].name {
      assert locals[i + 1] == locals'[..|locals|][i + 1];
    }
  }

  lemma UnfoldVar(h: Host, w: World, s: Stmt, top: bool, self: Value, env: Env, st: Store, height: nat)
    requires s.Var? && height <= FRAMES_MAX
    ensures
      var r := Eval(h, w, s.init, self, env, st, height);
      var q := Evaluate(h, w, s, top, self, env, st, height);
      && (r.Ok? ==> q == Declare(h, top, s.name, r.value, r.env, r.store))
      && (r.Err? ==> q == Err(r.error, r.at))
      && (r.Wrong? ==> q == Wrong)
  {
  }

  lemma ReadyGlobalVar(h: Host, w: World, p: Machine.Program, a: Act, ip: nat, s: Stmt, sc: Scope,
      locals: Locals, pool: Pool, env: Env) returns (c: Slot, v: Piece)
    requires ReadyStmt(h, w, p, a, ip, s, sc, locals, pool, env) && s.Var? && sc.depth == 0
    ensures CodeExpr(h, s.init, locals, c.pool) == Some(v) && MapsFit(s.init) && Part(p, a, ip, v.code, v.pool)
    ensures Loaded(p, a, ip + |v.code|, Def(c.k)) && Names(p, a, c.k, Key(h, s.name))
    ensures var g := CodeStmt(h, s, sc, locals, pool).value; g.locals == locals && |g.code| == |v.code| + 2
  {
    hide Compiled, Matches, Holds, CodeExpr, MapsFit, AddConst, Key, Names;
    c := AddConst(h, pool, Str(Key(h, s.name))).value;
    v := CodeExpr(h, s.init, locals, c.pool).value;
    Split(p, a, ip, v.code, Encode(Def(c.k)), v.pool, v.pool);
    NameIs(h, w, p, a, pool, Key(h, s.name));
  }

  lemma SimGlobalVar(h: Host, w: World, p: Machine.Program, a: Act, ip: nat, s: Stmt, sc: Scope,
      locals: Locals, pool: Pool, env: Env, st: Store)
    requires ReadyStmt(h, w, p, a, ip, s, sc, locals, pool, env)
    requires s.Var? && sc.depth == 0
    ensures
      var g := CodeStmt(h, s, sc, locals, pool).value;
      var r := Evaluate(h, w, s, sc.depth == 0, a.self, env, st, |a.below| + 1);
      Machine.Run(h, p, At(a, ip, env, [], st)) == ConcludeFlow(h, p, a, ip + |g.code|, r)
      && StillMatches(g.locals, r)
    decreases 2 * (FRAMES_MAX - |a.below|), s, 0
  {
    hide Machine.Run, At, Compiled, Matches, Holds, Encode, Eval, Evaluate, EvalAll, AddConst, Key, Names, CodeExpr, CodeStmt, MapsFit;
    UnfoldVar(h, w, s, true, a.self, env, st, |a.below| + 1);
    var c, v := ReadyGlobalVar(h, w, p, a, ip, s, sc, locals, pool, env);
    SimExpr(h, w, p, a, ip, s.init, locals, c.pool, env, [], st);
    var r := Eval(h, w, s.init, a.self, env, st, |a.below| + 1);
    if r.Ok? {
      RunDefine(h, p, a, ip + |v.code|, r.env, [], r.store, c.k, Key(h, s.name), r.value);
      MatchesSame(locals, env, r.env);
    }
  }

  lemma SimLocalVar(h: Host, w: World, p: Machine.Program, a: Act, ip: nat, s: Stmt, sc: Scope,
      locals: Locals, pool: Pool, env: Env, st: Store)
    requires ReadyStmt(h, w, p, a, ip, s, sc, locals, pool, env)
    requires s.Var? && sc.depth > 0
    ensures
      var g := CodeStmt(h, s, sc, locals, pool).value;
      var r := Evaluate(h, w, s, sc.depth == 0, a.self, env, st, |a.below| + 1);
      Machine.Run(h, p, At(a, ip, env, [], st)) == ConcludeFlow(h, p, a, ip + |g.code|, r)
      && StillMatches(g.locals, r)
    decreases 2 * (FRAMES_MAX - |a.below|), s, 0
  {
    hide Machine.Run, At, Compiled, Matches, Holds, Encode, Eval, Evaluate, EvalAll, AddConst, Key, Names, Taken;
    UnfoldVar(h, w, s, false, a.self, env, st, |a.below| + 1);
    var ls := AddLocal(locals, sc.depth, s.name).value;
    PendingUnused(h, s.init, locals, ls, pool);
    var v := CodeExpr(h, s.init, locals, pool).value;
    SimExpr(h, w, p, a, ip, s.init, locals, pool, env, [], st);
    var r := Eval(h, w, s.init, a.self, env, st, |a.below| + 1);
    if r.Ok? {
      assert [] + [r.value] == [r.value];
      BindTop(a, ip + |v.code|, r.env, s.name, r.value, r.store);
      MatchesSame(locals, env, r.env);
      MatchesMore(locals, r.env, s.name, r.value, sc.depth);
    }
  }

  lemma MatchesMore(locals: Locals, env: Env, name: Ident, v: Value, depth: nat)
    requires Matches(locals, env) && |locals| < UINT8_COUNT
    ensures Matches(MarkLast(locals + [Local(name, -1)], depth), env + [Binding(name, v)])
  {
  }

  lemma UnfoldFunDecl(h: Host, w: World, s: Stmt, top: bool, self: Value, env: Env, st: Store, height: nat)
    requires s.FunDecl? && height <= FRAMES_MAX
    ensures
      Evaluate(h, w, s, top, self, env, st, height) ==
      Declare(h, top, s.name, Fun(s.site), env, st)
  {
  }

  lemma SimFunDecl(h: Host, w: World, p: Machine.Program, a: Act, ip: nat, s: Stmt, sc: Scope,
      locals: Locals, pool: Pool, env: Env, st: Store)
    requires ReadyStmt(h, w, p, a, ip, s, sc, locals, pool, env)
    requires s.FunDecl?
    ensures
      var g := CodeStmt(h, s, sc, locals, pool).value;
      var r := Evaluate(h, w, s, sc.depth == 0, a.self, env, st, |a.below| + 1);
      Machine.Run(h, p, At(a, ip, env, [], st)) == ConcludeFlow(h, p, a, ip + |g.code|, r)
      && StillMatches(g.locals, r)
    decreases 2 * (FRAMES_MAX - |a.below|), s, 0
  {
    hide Machine.Run, At, Compiled, Matches, Holds, Encode, Eval, Evaluate, EvalAll, AddConst, Key, Names, Taken;
    UnfoldFunDecl(h, w, s, sc.depth == 0, a.self, env, st, |a.below| + 1);
    var f := Fun(s.site);
    assert [] + [f] == [f];
    if sc.depth == 0 {
      var c := AddConst(h, pool, Str(Key(h, s.name))).value;
      var k := AddConst(h, c.pool, f).value;
      Split(p, a, ip, Encode(Const(k.k)), Encode(Def(c.k)), k.pool, k.pool);
      NameIs(h, w, p, a, pool, Key(h, s.name));
      FunctionIs(h, w, p, a, c.pool, s.site);
      RunPush(h, p, a, ip, env, [], st, Const(k.k), f);
      RunDefine(h, p, a, ip + 2, env, [], st, c.k, Key(h, s.name), f);
    } else {
      var k := AddConst(h, pool, f).value;
      FunctionIs(h, w, p, a, pool, s.site);
      RunPush(h, p, a, ip, env, [], st, Const(k.k), f);
      BindTop(a, ip + 2, env, s.name, f, st);
      MatchesMore(locals, env, s.name, f, sc.depth);
    }
  }

  lemma FunctionIs(h: Host, w: World, p: Machine.Program, a: Act, pool: Pool, site: nat)
    requires Compiled(h, w, p) && AddConst(h, pool, Fun(site)).Some? && Fits(p, a)
    requires AddConst(h, pool, Fun(site)).value.pool <= p[a.fn].consts
    ensures var k := AddConst(h, pool, Fun(site)).value.k; k < |p[a.fn].consts| && p[a.fn].consts[k] == Fun(site)
  {
    ConstantIs(h, p, a, pool, Fun(site));
  }

  lemma UnfoldGlobals(h: Host, w: World, s: Stmt, top: bool, self: Value, env: Env, st: Store, height: nat)
    requires s.Globals? && height <= FRAMES_MAX
    ensures
      Evaluate(h, w, s, top, self, env, st, height) ==
      EvalItems(h, w, s.items, self, env, st, height)
  {
  }

  lemma SimGlobals(h: Host, w: World, p: Machine.Program, a: Act, ip: nat, s: Stmt, sc: Scope,
      locals: Locals, pool: Pool, env: Env, st: Store)
    requires ReadyStmt(h, w, p, a, ip, s, sc, locals, pool, env)
    requires s.Globals?
    ensures
      var g := CodeStmt(h, s, sc, locals, pool).value;
      var r := Evaluate(h, w, s, sc.depth == 0, a.self, env, st, |a.below| + 1);
      Machine.Run(h, p, At(a, ip, env, [], st)) == ConcludeFlow(h, p, a, ip + |g.code|, r)
      && StillMatches(g.locals, r)
    decreases 2 * (FRAMES_MAX - |a.below|), s, 0
  {
    hide Machine.Run, At, Compiled, Matches, Holds, Encode, Eval, Evaluate, EvalAll, EvalItems, CodeItems, ItemsFit, Settled;
    UnfoldGlobals(h, w, s, sc.depth == 0, a.self, env, st, |a.below| + 1);
    SimItems(h, w, p, a, ip, s.items, locals, pool, env, st);
  }

  ghost predicate ReadyItems(h: Host, w: World, p: Machine.Program, a: Act, ip: nat, items: seq<Init>,
                             locals: Locals, pool: Pool, env: Env)
  {
    Compiled(h, w, p) && ItemsFit(items) && Matches(locals, env)
    && CodeItems(h, items, locals, pool).Some?
    && var c := CodeItems(h, items, locals, pool).value;
    Part(p, a, ip, c.code, c.pool)
  }

  lemma UnfoldItems(h: Host, w: World, items: seq<Init>, self: Value, env: Env, st: Store, height: nat)
    requires items != [] && height <= FRAMES_MAX
    ensures
      var r := Eval(h, w, items[0].value, self, env, st, height);
      var q := EvalItems(h, w, items, self, env, st, height);
      && (r.Ok? ==> q == EvalItems(h, w, items[1..], self, r.env, Machine.SetGlobal(r.store, Key(h, items[0].name), r.value), height))
      && (r.Err? ==> q == Err(r.error, r.at))
      && (r.Wrong? ==> q == Wrong)
  {
  }

  lemma SimItems(h: Host, w: World, p: Machine.Program, a: Act, ip: nat, items: seq<Init>,
      locals: Locals, pool: Pool, env: Env, st: Store)
    requires ReadyItems(h, w, p, a, ip, items, locals, pool, env)
    ensures
      var r := EvalItems(h, w, items, a.self, env, st, |a.below| + 1);
      Machine.Run(h, p, At(a, ip, env, [], st))
      == ConcludeFlow(h, p, a, ip + |CodeItems(h, items, locals, pool).value.code|, r)
      && StillMatches(locals, r) && (r.Ok? ==> r.value.Onward?)
    decreases 2 * (FRAMES_MAX - |a.below|), items, 0
  {
    hide Machine.Run, At, Compiled, Matches, Holds, Encode, Eval, AddConst, Key, Names, CodeExpr, MapsFit;
    if items != [] {
      hide EvalItems;
      UnfoldItems(h, w, items, a.self, env, st, |a.below| + 1);
      var name := Key(h, items[0].name);
      var c := AddConst(h, pool, Str(name)).value;
      var v := CodeExpr(h, items[0].value, locals, c.pool).value;
      var rest := CodeItems(h, items[1..], locals, v.pool).value;
      Split(p, a, ip, v.code, Encode(Def(c.k)) + rest.code, rest.pool, v.pool);
      Split(p, a, ip + |v.code|, Encode(Def(c.k)), rest.code, rest.pool, rest.pool);
      SimExpr(h, w, p, a, ip, items[0].value, locals, c.pool, env, [], st);
      NameIs(h, w, p, a, pool, name);
      var r := Eval(h, w, items[0].value, a.self, env, st, |a.below| + 1);
      if r.Ok? {
        assert [] + [r.value] == [r.value];
        RunDefine(h, p, a, ip + |v.code|, r.env, [], r.store, c.k, name, r.value);
        MatchesSame(locals, env, r.env);
        SimItems(h, w, p, a, ip + |v.code| + 2, items[1..], locals, v.pool, r.env, Machine.SetGlobal(r.store, name, r.value));
      }
    }
  }

  lemma UnfoldBlockOf(h: Host, w: World, ss: seq<Stmt>, top: bool, self: Value, env: Env, st: Store, height: nat)
    requires ss != [] && height <= FRAMES_MAX
    ensures
      EvalBlock(h, w, ss, top, self, env, st, height) ==
      match Evaluate(h, w, ss[0], top, self, env, st, height)
      case Ok(Onward, env1, st1) => EvalBlock(h, w, ss[1..], top, self, env1, st1, height)
      case r => r
  {
  }

  lemma SimBlock(h: Host, w: World, p: Machine.Program, a: Act, ip: nat, ss: seq<Stmt>, sc: Scope,
      locals: Locals, pool: Pool, env: Env, st: Store)
    requires ReadyBlock(h, w, p, a, ip, ss, sc, locals, pool, env)
    ensures
      var g := CodeBlock(h, ss, sc, locals, pool).value;
      var r := EvalBlock(h, w, ss, sc.depth == 0, a.self, env, st, |a.below| + 1);
      Machine.Run(h, p, At(a, ip, env, [], st)) == ConcludeFlow(h, p, a, ip + |g.code|, r)
      && StillMatches(g.locals, r)
    decreases 2 * (FRAMES_MAX - |a.below|), ss, 0
  {
    hide Machine.Run, At, Compiled, Matches, Holds, Evaluate, CodeStmt, StmtFits, Settled, Grows;
    if ss != [] {
      hide EvalBlock;
      UnfoldBlockOf(h, w, ss, sc.depth == 0, a.self, env, st, |a.below| + 1);
      var x := CodeStmt(h, ss[0], sc, locals, pool).value;
      var y := CodeBlock(h, ss[1..], sc, x.locals, x.pool).value;
      Split(p, a, ip, x.code, y.code, y.pool, x.pool);
      SimStmt(h, w, p, a, ip, ss[0], sc, locals, pool, env, st);
      StmtGrows(h, ss[0], sc, locals, pool);
      var r := Evaluate(h, w, ss[0], sc.depth == 0, a.self, env, st, |a.below| + 1);
      if r.Ok? && r.value.Onward? {
        SimBlock(h, w, p, a, ip + |x.code|, ss[1..], sc, x.locals, x.pool, r.env, r.store);
      }
    }
  }

  /** A called function starts at its first byte, with its parameters in the slots after its own. */
  lemma ReadyBody(h: Host, w: World, p: Machine.Program, a: Act, vs: seq<Value>)
    returns (sc: Scope, ls: Locals, b: Gen)
    requires Compiled(h, w, p) && Fits(p, a) && |w[a.fn].params| == |vs|
    requires a.below == [] ==> w[a.fn].script
    ensures ReadyBlock(h, w, p, a, 0, w[a.fn].body, sc, ls, [], Bind(w[a.fn].params, vs))
    ensures CodeBlock(h, w[a.fn].body, sc, ls, []) == Some(b)
    ensures Loaded(p, a, |b.code|, Nil) && Loaded(p, a, |b.code| + 1, Ret)
    ensures sc.depth == 0 <==> w[a.fn].script
    ensures w[a.fn].script ==> ls == [SelfLocal]
    ensures Settled(ls, sc.depth)
  {
    hide CodeBlock, Encode, BlockFits;
    var d := w[a.fn];
    assert CodeFunction(h, d) == Some(p[a.fn]);
    sc := if d.script then Scope(0, true) else Scope(1, false);
    ls := if d.script then [SelfLocal] else AddParams([SelfLocal], d.params).value;
    if !d.script { ParamsGrow([SelfLocal], d.params); }
    BindMatches(ls, d.params, vs);
    b := CodeBlock(h, d.body, sc, ls, []).value;
    var tail := Encode(Nil) + Encode(Ret);
    assert p[a.fn].code == b.code + tail && p[a.fn].consts == b.pool;
    assert p[a.fn].code[0..|b.code + tail|] == b.code + tail;
    hide Holds;
    Split(p, a, 0, b.code, tail, b.pool, b.pool);
    Split(p, a, |b.code|, Encode(Nil), Encode(Ret), b.pool, b.pool);
  }

  lemma BindMatches(ls: Locals, params: seq<Ident>, vs: seq<Value>)
    requires |params| == |vs| && |ls| == 1 + |params| && ls[..1] == [SelfLocal]
    requires forall i :: 0 <= i < |params| ==> ls[1 + i].name == params[i]
    ensures Matches(ls, Bind(params, vs))
  {
    assert ls[0] == ls[..1][0];
  }

  lemma SimBody(h: Host, w: World, p: Machine.Program, a: Act, vs: seq<Value>, st: Store)
    requires Compiled(h, w, p) && Fits(p, a) && |w[a.fn].params| == |vs|
    requires a.below == [] ==> w[a.fn].script
    ensures Machine.Run(h, p, At(a, 0, Bind(w[a.fn].params, vs), [], st))
         == ConcludeBody(h, p, a, EvalBlock(h, w, w[a.fn].body, w[a.fn].script, a.self, Bind(w[a.fn].params, vs), st,
                                            |a.below| + 1))
    decreases 2 * (FRAMES_MAX - |a.below|)
  {
    hide Machine.Run, At, EvalBlock, CodeBlock, Matches, Holds, ReadyBlock, Encode, Settled, Grows, Bind, CodeFunction, BlockFits;
    var d := w[a.fn];
    var env := Bind(d.params, vs);
    var sc, ls, b := ReadyBody(h, w, p, a, vs);
    SimBlock(h, w, p, a, 0, d.body, sc, ls, [], env, st);
    var r := EvalBlock(h, w, d.body, d.script, a.self, env, st, |a.below| + 1);
    if r.Ok? && r.value.Onward? {
      assert [] + [Null] == [Null];
      RunPush(h, p, a, |b.code|, r.env, [], r.store, Nil, Null);
      if d.script {
        BlockGrows(h, d.body, sc, ls, []);
        ScriptEndsEmpty(ls, b.locals, r.env);
      }
      RunReturn(h, p, a, |b.code| + 1, r.env, Null, r.store);
    }
  }

  lemma ScriptEndsEmpty(locals: Locals, locals': Locals, env: Env)
    requires Matches(locals', env) && locals == [SelfLocal] && Grows(locals, locals', 0)
    ensures env == []
  {
  }

  /**
   The main theorem. Running a compiled script has exactly the outcome of evaluating it:
   the same output, globals and map heap, the same error if there is one, and on success
   a stack back at what it was before the script was pushed.
   */
  lemma CompilationPreservesMeaning(h: Host, w: World, p: Machine.Program, base: seq<Value>, st: Store)
    requires Compiled(h, w, p) && w != [] && w[|w| - 1].script && w[|w| - 1].params == []
    ensures
      var script := |w| - 1;
      Machine.Run(h, p, Machine.State(base + [Fun(script)], [Machine.Frame(script, 0, |base|)], st)) ==
      match EvalScript(h, w, script, st)
      case Ok(_, _, st') => Machine.Halted(base, st')
      case Err(e, st') => Machine.Failed(e, st')
      case Wrong => Machine.Crashed
  {
    hide Machine.Run, EvalBlock;
    var script := |w| - 1;
    var a := Act([], script, base, Fun(script));
    SimBody(h, w, p, a, [], st);
    assert Bind(w[script].params, []) == [];
    assert At(a, 0, [], [], st) == Machine.State(base + [Fun(script)], [Machine.Frame(script, 0, |base|)], st);
  }
}
