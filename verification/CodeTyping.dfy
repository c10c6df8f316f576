/**
 Compiled code is typed: the code of every phrase has one stack depth per
 instruction boundary, ends at the depth its kind promises and never exceeds the
 depth that can be read off the phrase.
 */
module CodeTyping {
  import opened Values
  import opened Bytecode
  import opened Syntax
  import opened Codegen
  import opened Scopes
  import opened Verifier
  import opened Simulation
  import Machine

  function Max(a: nat, b: nat): nat {
    if a > b then a else b
  }

  /** How far above its starting depth the code of an expression takes the stack. */
  function Peak(e: Expr): (n: nat)
    ensures n >= 1
    decreases e, 1
  {
    match e
    case Assign(_, v) => Peak(v)
    case Member(o, _) => Peak(o)
    case SetMember(o, _, v) => Max(Peak(o), 1 + Peak(v))
    case Index(o, k) => Max(Peak(o), 1 + Peak(k))
    case SetIndex(o, k, v) => Max(Peak(o), 1 + Max(Peak(k), 1 + Peak(v)))
    case Prefix(_, x) => Peak(x)
    case Infix(_, l, r) => Max(Peak(l), 1 + Peak(r))
    case And(l, r) => Max(Peak(l), Peak(r))
    case Or(l, r) => Max(Peak(l), Peak(r))
    case Invoke(f, args) => Max(Peak(f), 1 + PeakAll(args))
    case MapLit(es) => Max(1, PeakAll(es))
    case Group(x) => Peak(x)
    case _ => 1
  }

  function PeakAll(es: seq<Expr>): (n: nat)
    ensures n >= |es|
    decreases es, 0
  {
    if es == [] then 0 else Max(Peak(es[0]), 1 + PeakAll(es[1..]))
  }

  function PeakItems(items: seq<Init>): nat
    decreases items, 0
  {
    if items == [] then 0 else Max(Peak(items[0].value), PeakItems(items[1..]))
  }

  function PeakStmt(s: Stmt): nat
    decreases s, 1
  {
    match s
    case ExprStmt(e) => Peak(e)
    case PrintStmt(es) => PeakAll(es)
    case If(c, t, e) => Max(Peak(c), Max(PeakStmt(t), PeakStmt(e)))
    case Return(e) => Peak(e)
    case ReturnNull => 1
    case Block(body) => PeakBlock(body, false, 0)
    case Var(_, e) => Peak(e)
    case Globals(items) => PeakItems(items)
    case FunDecl(_, _, _, _) => 1
  }

  /** Unless it is global, a declaration leaves its variable on the stack for the rest of the block; after the block come `last` values. */
  function PeakBlock(ss: seq<Stmt>, top: bool, last: nat): nat
    decreases ss, 0
  {
    if ss == [] then last
    else Max(PeakStmt(ss[0]), (if top || Arm(ss[0]) then 0 else 1) + PeakBlock(ss[1..], top, last))
  }

  /** At the top of a script declarations take nothing: it is as deep as its deepest statement. */
  lemma {:induction false} TopIsFlat(ss: seq<Stmt>, last: nat, bound: nat)
    ensures PeakBlock(ss, true, last) <= bound <==> last <= bound && forall i :: 0 <= i < |ss| ==> PeakStmt(ss[i]) <= bound
    decreases |ss|
  {
    hide PeakStmt;
    if ss != [] {
      TopIsFlat(ss[1..], last, bound);
      forall i | 0 < i < |ss| ensures ss[i] == ss[1..][i - 1] {}
    }
  }

  /** The deepest the stack of a call gets, counted from its slot 0. */
  function PeakFunction(d: Decl): nat {
    |d.params| + 1 + PeakBlock(d.body, d.script, 1)
  }

  /** `D` types `code` from depth `entry` to depth `exit` without going above `bound`. */
  predicate Fragment(code: seq<byte>, consts: seq<Value>, D: Depths, entry: nat, exit: int, bound: nat) {
    Typed(code, consts, D, exit) && Lands(D, exit, 0, entry)
    && forall ip :: 0 <= ip < |D| ==> D[ip] <= bound
  }

  lemma DecodePrefix(a: seq<byte>, b: seq<byte>, ip: nat)
    requires Decode(a, ip).Some?
    ensures Decode(a + b, ip) == Decode(a, ip)
    ensures ip + Size(Decode(a, ip).value) <= |a|
  {
  }

  lemma DecodeSuffix(a: seq<byte>, b: seq<byte>, ip: nat)
    ensures Decode(a + b, |a| + ip) == Decode(b, ip)
  {
  }

  /** Code that ends where other code starts may be put before it. */
  lemma Join(c1: seq<byte>, D1: Depths, c2: seq<byte>, D2: Depths, consts: seq<Value>,
             entry: nat, mid: nat, exit: int, bound: nat)
    requires Fragment(c1, consts, D1, entry, mid, bound) && Fragment(c2, consts, D2, mid, exit, bound)
    ensures Fragment(c1 + c2, consts, D1 + D2, entry, exit, bound)
  {
    hide Decode, OperandOk, Machine.Needs, Effect, FallsThrough, Size, JumpsTo;
    var c, D := c1 + c2, D1 + D2;
    forall ip | 0 <= ip < |D| && D[ip] >= 0
      ensures InstrOk(c, consts, D, exit, ip)
    {
      if ip < |D1| {
        assert InstrOk(c1, consts, D1, mid, ip);
        DecodePrefix(c1, c2, ip);
      } else {
        assert InstrOk(c2, consts, D2, exit, ip - |D1|);
        DecodeSuffix(c1, c2, ip - |D1|);
        ShiftJump(Decode(c, ip).value, ip - |D1| + Size(Decode(c, ip).value), |D1|);
      }
    }
  }

  lemma ShiftJump(i: Instr, next: nat, gap: nat)
    ensures JumpsTo(i, next).Some? <==> JumpsTo(i, next + gap).Some?
    ensures JumpsTo(i, next).Some? ==> JumpsTo(i, next + gap).value == JumpsTo(i, next).value + gap
  {
  }

  /** The depths of one instruction in front of code typed by `D`. */
  function Front(i: Instr, d: nat, D: Depths): Depths {
    [d as int] + seq(Size(i) - 1, _ => -1) + D
  }

  lemma FrontAt(i: Instr, d: nat, D: Depths)
    ensures |Front(i, d, D)| == Size(i) + |D| && Front(i, d, D)[0] == d
    ensures forall k :: 0 < k < Size(i) ==> Front(i, d, D)[k] == -1
    ensures forall k :: Size(i) <= k < Size(i) + |D| ==> Front(i, d, D)[k] == D[k - Size(i)]
    ensures forall k :: 0 <= k < |D| ==> Front(i, d, D)[k + Size(i)] == D[k]
  {
  }

  /** An instruction may be put before typed code if its successors land in it. */
  lemma Cons(i: Instr, c: seq<byte>, D: Depths, consts: seq<Value>, d: nat, exit: int, bound: nat)
    requires Typed(c, consts, D, exit) && d <= bound && forall ip :: 0 <= ip < |D| ==> D[ip] <= bound
    requires Machine.Needs(i) < d && OperandOk(i, consts, d)
    requires FallsThrough(i) ==> Lands(D, exit, 0, d + Effect(i))
    requires JumpsTo(i, 0).Some? ==> Lands(D, exit, JumpsTo(i, 0).value, d)
    ensures Fragment(Encode(i) + c, consts, Front(i, d, D), d, exit, bound)
  {
    hide OperandOk, Machine.Needs, Effect, FallsThrough, Decode, JumpsTo, Encode, Operands, Front;
    var code, D' := Encode(i) + c, Front(i, d, D);
    var n := Size(i);
    FrontAt(i, d, D);
    forall ip | 0 <= ip < |D'| && D'[ip] >= 0
      ensures InstrOk(code, consts, D', exit, ip)
    {
      if ip == 0 {
        assert Holds(code, 0, Encode(i));
        DecodeEncode(code, 0, i);
        ShiftJump(i, 0, n);
      } else {
        assert ip >= n && D'[ip] == D[ip - n];
        assert InstrOk(c, consts, D, exit, ip - n);
        DecodeSuffix(Encode(i), c, ip - n);
        ShiftJump(Decode(code, ip).value, ip - n + Size(Decode(code, ip).value), n);
      }
    }
  }

  /** One instruction that goes straight on. */
  lemma Single(i: Instr, consts: seq<Value>, d: nat, bound: nat) returns (D: Depths)
    requires Machine.Needs(i) < d <= bound && OperandOk(i, consts, d) && FallsThrough(i) && !i.Jmpf?
    ensures Fragment(Encode(i), consts, D, d, d + Effect(i), bound)
  {
    D := Front(i, d, []);
    Cons(i, [], [], consts, d, d + Effect(i), bound);
    assert Encode(i) + [] == Encode(i);
  }

  /** `c` followed by one straight instruction. */
  lemma Snoc(c: seq<byte>, D: Depths, i: Instr, consts: seq<Value>, entry: nat, d: nat, bound: nat) returns (D': Depths)
    requires Fragment(c, consts, D, entry, d, bound)
    requires Machine.Needs(i) < d <= bound && OperandOk(i, consts, d) && FallsThrough(i) && !i.Jmpf? && d + Effect(i) >= 0
    ensures Fragment(c + Encode(i), consts, D', entry, d + Effect(i), bound)
  {
    hide Fragment, Encode;
    var D1 := Single(i, consts, d, bound);
    Join(c, D, Encode(i), D1, consts, entry, d, d + Effect(i), bound);
    D' := D + D1;
  }

  lemma Widen(c: seq<byte>, D: Depths, consts: seq<Value>, entry: nat, exit: int, bound: nat, bound': nat)
    requires Fragment(c, consts, D, entry, exit, bound) && bound <= bound'
    ensures Fragment(c, consts, D, entry, exit, bound')
  {
    hide Typed, Lands;
  }

  lemma StrConst(h: Host, pool: Pool, name: string, consts: seq<Value>)
    requires AddConst(h, pool, Str(name)).Some? && AddConst(h, pool, Str(name)).value.pool <= consts
    ensures var k := AddConst(h, pool, Str(name)).value.k; k < |consts| && consts[k].Str?
  {
  }

  /** A variable resolved beside temporaries lies in a slot in use, above slot 0. */
  lemma ResolveInUse(locals: Locals, id: Ident)
    requires locals != [] && locals[0].name == ""
    ensures Resolve(locals, id) >= 0 ==> 1 <= Resolve(locals, id) < |locals|
  {
  }

  /** What typing the code of `e` at depth `d` takes: room for the locals and for the expression. */
  predicate Typable(h: Host, e: Expr, locals: Locals, pool: Pool, consts: seq<Value>, d: nat, bound: nat) {
    CodeExpr(h, e, locals, pool).Some? && CodeExpr(h, e, locals, pool).value.pool <= consts
    && MapsFit(e) && 1 <= |locals| <= d && locals[0].name == "" && d + Peak(e) <= bound
  }

  lemma {:induction false} TypeExpr(h: Host, e: Expr, locals: Locals, pool: Pool, consts: seq<Value>, d: nat, bound: nat)
    returns (D: Depths)
    requires Typable(h, e, locals, pool, consts, d, bound)
    ensures Fragment(CodeExpr(h, e, locals, pool).value.code, consts, D, d, d + 1, bound)
    decreases e, 1
  {
    hide *;
    match e
    case NumLit(_) => D := TypeLeaf(h, e, locals, pool, consts, d, bound);
    case StrLit(_) => D := TypeLeaf(h, e, locals, pool, consts, d, bound);
    case NullLit => D := TypeLeaf(h, e, locals, pool, consts, d, bound);
    case TrueLit => D := TypeLeaf(h, e, locals, pool, consts, d, bound);
    case FalseLit => D := TypeLeaf(h, e, locals, pool, consts, d, bound);
    case SelfLit => D := TypeLeaf(h, e, locals, pool, consts, d, bound);
    case Name(_) => D := TypeLeaf(h, e, locals, pool, consts, d, bound);
    case Assign(_, _) => D := TypeAssign(h, e, locals, pool, consts, d, bound);
    case Member(_, _) => D := TypeMember(h, e, locals, pool, consts, d, bound);
    case SetMember(_, _, _) => D := TypeSetMember(h, e, locals, pool, consts, d, bound);
    case Index(_, _) => D := TypeIndex(h, e, locals, pool, consts, d, bound);
    case SetIndex(_, _, _) => D := TypeSetIndex(h, e, locals, pool, consts, d, bound);
    case Prefix(_, _) => D := TypePrefix(h, e, locals, pool, consts, d, bound);
    case Infix(_, _, _) => D := TypeInfix(h, e, locals, pool, consts, d, bound);
    case And(_, _) => D := TypeAnd(h, e, locals, pool, consts, d, bound);
    case Or(_, _) => D := TypeOr(h, e, locals, pool, consts, d, bound);
    case Invoke(_, _) => D := TypeInvoke(h, e, locals, pool, consts, d, bound);
    case MapLit(_) => D := TypeMapLit(h, e, locals, pool, consts, d, bound);
    case Group(_) => D := TypeGroup(h, e, locals, pool, consts, d, bound);
  }

  lemma {:induction false} TypeGroup(h: Host, e: Expr, locals: Locals, pool: Pool, consts: seq<Value>, d: nat, bound: nat)
    returns (D: Depths)
    requires Typable(h, e, locals, pool, consts, d, bound) && e.Group?
    ensures Fragment(CodeExpr(h, e, locals, pool).value.code, consts, D, d, d + 1, bound)
    decreases e, 0
  {
    hide Fragment, Encode, AddConst, Key;
    D := TypeExpr(h, e.inner, locals, pool, consts, d, bound);
  }

  lemma {:induction false} TypeLeaf(h: Host, e: Expr, locals: Locals, pool: Pool, consts: seq<Value>, d: nat, bound: nat)
    returns (D: Depths)
    requires Typable(h, e, locals, pool, consts, d, bound) && (e.NumLit? || e.StrLit? || e.NullLit? || e.TrueLit? || e.FalseLit? || e.SelfLit? || e.Name?)
    ensures Fragment(CodeExpr(h, e, locals, pool).value.code, consts, D, d, d + 1, bound)
    decreases e, 0
  {
    hide Fragment, Encode, AddConst, Key;
    match e
    case NumLit(n) =>
      ConstInRange(h, pool, Num(n), consts);
      D := Single(Const(AddConst(h, pool, Num(n)).value.k), consts, d, bound);
    case StrLit(s) =>
      ConstInRange(h, pool, Str(h.intern(s)), consts);
      D := Single(Const(AddConst(h, pool, Str(h.intern(s))).value.k), consts, d, bound);
    case NullLit => D := Single(Nil, consts, d, bound);
    case TrueLit => D := Single(True, consts, d, bound);
    case FalseLit => D := Single(False, consts, d, bound);
    case SelfLit => D := Single(Ld(0), consts, d, bound);
    case Name(id) =>
      var i := Resolve(locals, id);
      if i >= 0 {
        D := Single(Ld(i), consts, d, bound);
      } else {
        StrConst(h, pool, Key(h, id), consts);
        D := Single(Gld(AddConst(h, pool, Str(Key(h, id))).value.k), consts, d, bound);
      }
  }

  lemma {:induction false} TypeMember(h: Host, e: Expr, locals: Locals, pool: Pool, consts: seq<Value>, d: nat, bound: nat)
    returns (D: Depths)
    requires Typable(h, e, locals, pool, consts, d, bound) && e.Member?
    ensures Fragment(CodeExpr(h, e, locals, pool).value.code, consts, D, d, d + 1, bound)
    decreases e, 0
  {
    hide Fragment, Encode, AddConst, Key;
    var c := CodeExpr(h, e.obj, locals, pool).value;
    D := TypeExpr(h, e.obj, locals, pool, consts, d, bound);
    StrConst(h, c.pool, Key(h, e.id), consts);
    D := Snoc(c.code, D, Get(AddConst(h, c.pool, Str(Key(h, e.id))).value.k), consts, d, d + 1, bound);
  }

  lemma {:induction false} TypeIndex(h: Host, e: Expr, locals: Locals, pool: Pool, consts: seq<Value>, d: nat, bound: nat)
    returns (D: Depths)
    requires Typable(h, e, locals, pool, consts, d, bound) && e.Index?
    ensures Fragment(CodeExpr(h, e, locals, pool).value.code, consts, D, d, d + 1, bound)
    decreases e, 0
  {
    hide Fragment, Encode, AddConst, Key;
    var c := CodeExpr(h, e.obj, locals, pool).value;
    var k := CodeExpr(h, e.key, locals, c.pool).value;
    var D1 := TypeExpr(h, e.obj, locals, pool, consts, d, bound);
    var D2 := TypeExpr(h, e.key, locals, c.pool, consts, d + 1, bound);
    D2 := Snoc(k.code, D2, Geti, consts, d + 1, d + 2, bound);
    Join(c.code, D1, k.code + Encode(Geti), D2, consts, d, d + 1, d + 1, bound);
    D := D1 + D2;
  }

  lemma {:induction false} TypePrefix(h: Host, e: Expr, locals: Locals, pool: Pool, consts: seq<Value>, d: nat, bound: nat)
    returns (D: Depths)
    requires Typable(h, e, locals, pool, consts, d, bound) && e.Prefix?
    ensures Fragment(CodeExpr(h, e, locals, pool).value.code, consts, D, d, d + 1, bound)
    decreases e, 0
  {
    hide Fragment, Encode, AddConst, Key;
    var c := CodeExpr(h, e.operand, locals, pool).value;
    D := TypeExpr(h, e.operand, locals, pool, consts, d, bound);
    D := Snoc(c.code, D, Unary(if e.pop == Dash then Neg else Not), consts, d, d + 1, bound);
  }

  lemma {:induction false} TypeInfix(h: Host, e: Expr, locals: Locals, pool: Pool, consts: seq<Value>, d: nat, bound: nat)
    returns (D: Depths)
    requires Typable(h, e, locals, pool, consts, d, bound) && e.Infix?
    ensures Fragment(CodeExpr(h, e, locals, pool).value.code, consts, D, d, d + 1, bound)
    decreases e, 0
  {
    hide Fragment, Encode, AddConst, Key, InfixCode;
    var l := CodeExpr(h, e.left, locals, pool).value;
    var r := CodeExpr(h, e.right, locals, l.pool).value;
    var D1 := TypeExpr(h, e.left, locals, pool, consts, d, bound);
    var D2 := TypeExpr(h, e.right, locals, l.pool, consts, d + 1, bound);
    D2 := TypeOperator(r.code, D2, e.iop, consts, d, bound);
    Join(l.code, D1, r.code + InfixCode(e.iop), D2, consts, d, d + 1, d + 1, bound);
    D := D1 + D2;
  }

  lemma {:induction false} TypeInvoke(h: Host, e: Expr, locals: Locals, pool: Pool, consts: seq<Value>, d: nat, bound: nat)
    returns (D: Depths)
    requires Typable(h, e, locals, pool, consts, d, bound) && e.Invoke?
    ensures Fragment(CodeExpr(h, e, locals, pool).value.code, consts, D, d, d + 1, bound)
    decreases e, 0
  {
    hide Fragment, Encode, AddConst, Key;
    var f := CodeExpr(h, e.callee, locals, pool).value;
    var c := CodeExprs(h, e.args, locals, f.pool).value;
    var n := |e.args|;
    var D1 := TypeExpr(h, e.callee, locals, pool, consts, d, bound);
    var D2 := TypeExprs(h, e.args, locals, f.pool, consts, d + 1, bound);
    D2 := Snoc(c.code, D2, Call(n), consts, d + 1, d + 1 + n, bound);
    Join(f.code, D1, c.code + Encode(Call(n)), D2, consts, d, d + 1, d + 1, bound);
    D := D1 + D2;
  }

  lemma {:induction false} TypeMapLit(h: Host, e: Expr, locals: Locals, pool: Pool, consts: seq<Value>, d: nat, bound: nat)
    returns (D: Depths)
    requires Typable(h, e, locals, pool, consts, d, bound) && e.MapLit?
    ensures Fragment(CodeExpr(h, e, locals, pool).value.code, consts, D, d, d + 1, bound)
    decreases e, 0
  {
    hide Fragment, Encode, AddConst, Key;
    var c := CodeExprs(h, e.elems, locals, pool).value;
    D := TypeExprs(h, e.elems, locals, pool, consts, d, bound);
    D := Snoc(c.code, D, MakeMap(|e.elems|), consts, d, d + |e.elems|, bound);
  }

  lemma ConstInRange(h: Host, pool: Pool, v: Value, consts: seq<Value>)
    requires Constant(v) && AddConst(h, pool, v).Some? && AddConst(h, pool, v).value.pool <= consts
    ensures AddConst(h, pool, v).value.k < |consts|
  {
  }

  /**
   The element counter of a map literal is one byte. The code of a literal with `n` elements
   therefore ends `n - n % 256` values too high, so at the depth an expression promises
   exactly when the literal has fewer than 256 elements.
   */
  lemma MapLiteralDepth(h: Host, es: seq<Expr>, locals: Locals, pool: Pool, consts: seq<Value>, d: nat, bound: nat)
    returns (D: Depths, exit: nat)
    requires CodeExpr(h, MapLit(es), locals, pool).Some? && CodeExpr(h, MapLit(es), locals, pool).value.pool <= consts
    requires AllMapsFit(es) && 1 <= |locals| <= d && locals[0].name == "" && d + Max(1, PeakAll(es)) <= bound
    ensures Fragment(CodeExpr(h, MapLit(es), locals, pool).value.code, consts, D, d, exit, bound)
    ensures exit == d + 1 <==> |es| < 256
    ensures exit == d + 1 + |es| / 256 * 256
  {
    hide Fragment, Encode;
    var c := CodeExprs(h, es, locals, pool).value;
    var n := |es| % 256;
    D := TypeExprs(h, es, locals, pool, consts, d, bound);
    D := Snoc(c.code, D, MakeMap(n), consts, d, d + |es|, bound);
    exit := d + |es| + 1 - n;
  }

  lemma TypeOperator(c: seq<byte>, D: Depths, op: InfixOp, consts: seq<Value>, d: nat, bound: nat) returns (D': Depths)
    requires Fragment(c, consts, D, d + 1, d + 2, bound) && 1 <= d && d + 2 <= bound
    ensures Fragment(c + InfixCode(op), consts, D', d + 1, d + 1, bound)
  {
    hide Fragment, Encode;
    var b :=
      match op
      case EqualEqual => Eq
      case BangEqual => Eq
      case Less => Lt
      case LessEqual => Le
      case Greater => Le
      case GreaterEqual => Lt
      case Plus => Add
      case Minus => Sub
      case Star => Mul
      case Slash => Div;
    D' := Snoc(c, D, Binary(b), consts, d + 1, d + 2, bound);
    if op.BangEqual? || op.Greater? || op.GreaterEqual? {
      D' := Snoc(c + Encode(Binary(b)), D', Unary(Not), consts, d + 1, d + 1, bound);
      assert c + Encode(Binary(b)) + Encode(Unary(Not)) == c + InfixCode(op);
    }
  }

  lemma {:induction false} TypeAssign(h: Host, e: Expr, locals: Locals, pool: Pool, consts: seq<Value>, d: nat, bound: nat)
    returns (D: Depths)
    requires Typable(h, e, locals, pool, consts, d, bound) && e.Assign?
    ensures Fragment(CodeExpr(h, e, locals, pool).value.code, consts, D, d, d + 1, bound)
    decreases e, 0
  {
    hide Fragment, Encode, AddConst, Key;
    var i := Resolve(locals, e.id);
    var pool1 := if i >= 0 then pool else AddConst(h, pool, Str(Key(h, e.id))).value.pool;
    var c := CodeExpr(h, e.value, locals, pool1).value;
    var D1 := TypeExpr(h, e.value, locals, pool1, consts, d, bound);
    ResolveInUse(locals, e.id);
    if i < 0 { StrConst(h, pool, Key(h, e.id), consts); }
    D := Snoc(c.code, D1, if i >= 0 then St(i) else Gst(AddConst(h, pool, Str(Key(h, e.id))).value.k), consts, d, d + 1, bound);
  }

  lemma {:induction false} TypeSetMember(h: Host, e: Expr, locals: Locals, pool: Pool, consts: seq<Value>, d: nat, bound: nat)
    returns (D: Depths)
    requires Typable(h, e, locals, pool, consts, d, bound) && e.SetMember?
    ensures Fragment(CodeExpr(h, e, locals, pool).value.code, consts, D, d, d + 1, bound)
    decreases e, 0
  {
    hide Fragment, Encode, AddConst, Key;
    var c := CodeExpr(h, e.obj, locals, pool).value;
    var D1 := TypeExpr(h, e.obj, locals, pool, consts, d, bound);
    var k := AddConst(h, c.pool, Str(Key(h, e.id))).value;
    StrConst(h, c.pool, Key(h, e.id), consts);
    var v := CodeExpr(h, e.value, locals, k.pool).value;
    var D2 := TypeExpr(h, e.value, locals, k.pool, consts, d + 1, bound);
    D2 := Snoc(v.code, D2, Set(k.k), consts, d + 1, d + 2, bound);
    Join(c.code, D1, v.code + Encode(Set(k.k)), D2, consts, d, d + 1, d + 1, bound);
    D := D1 + D2;
  }

  lemma {:induction false} TypeSetIndex(h: Host, e: Expr, locals: Locals, pool: Pool, consts: seq<Value>, d: nat, bound: nat)
    returns (D: Depths)
    requires Typable(h, e, locals, pool, consts, d, bound) && e.SetIndex?
    ensures Fragment(CodeExpr(h, e, locals, pool).value.code, consts, D, d, d + 1, bound)
    decreases e, 0
  {
    hide Fragment, Encode;
    var c := CodeExpr(h, e.obj, locals, pool).value;
    var D1 := TypeExpr(h, e.obj, locals, pool, consts, d, bound);
    var k := CodeExpr(h, e.key, locals, c.pool).value;
    var D2 := TypeExpr(h, e.key, locals, c.pool, consts, d + 1, bound);
    var v := CodeExpr(h, e.value, locals, k.pool).value;
    var D3 := TypeExpr(h, e.value, locals, k.pool, consts, d + 2, bound);
    D3 := Snoc(v.code, D3, Seti, consts, d + 2, d + 3, bound);
    Join(k.code, D2, v.code + Encode(Seti), D3, consts, d + 1, d + 2, d + 1, bound);
    Join(c.code, D1, k.code + (v.code + Encode(Seti)), D2 + D3, consts, d, d + 1, d + 1, bound);
    D := D1 + (D2 + D3);
  }

  /** A false left operand jumps to the end with its value kept; otherwise it is popped first. */
  lemma {:induction false} TypeAnd(h: Host, e: Expr, locals: Locals, pool: Pool, consts: seq<Value>, d: nat, bound: nat)
    returns (D: Depths)
    requires Typable(h, e, locals, pool, consts, d, bound) && e.And?
    ensures Fragment(CodeExpr(h, e, locals, pool).value.code, consts, D, d, d + 1, bound)
    decreases e, 0
  {
    hide Encode;
    var l := CodeExpr(h, e.left, locals, pool).value;
    var D1 := TypeExpr(h, e.left, locals, pool, consts, d, bound);
    var r := CodeExpr(h, e.right, locals, l.pool).value;
    var D2 := TypeExpr(h, e.right, locals, l.pool, consts, d, bound);
    var D3, D4 := TypeSkip(r.code, D2, consts, d, bound);
    hide Fragment;
    Join(l.code, D1, Encode(Jmpf(1 + |r.code|)) + (Encode(Pop) + r.code), D4, consts, d, d + 1, d + 1, bound);
    D := D1 + D4;
  }

  /** Popping the left operand and evaluating the right one, and the conditional jump over both. */
  lemma TypeSkip(r: seq<byte>, D: Depths, consts: seq<Value>, d: nat, bound: nat) returns (D3: Depths, D4: Depths)
    requires Fragment(r, consts, D, d, d + 1, bound) && 1 <= d && d + 1 <= bound && 1 + |r| < 0x1_0000
    ensures Fragment(Encode(Pop) + r, consts, D3, d + 1, d + 1, bound) && |D3| == 1 + |r|
    ensures Fragment(Encode(Jmpf(1 + |r|)) + (Encode(Pop) + r), consts, D4, d + 1, d + 1, bound)
  {
    hide Encode, Typed;
    FragmentLength(r, consts, D, d, d + 1, bound);
    D3 := Front(Pop, d + 1, D);
    Cons(Pop, r, D, consts, d + 1, d + 1, bound);
    FrontAt(Pop, d + 1, D);
    D4 := Front(Jmpf(1 + |r|), d + 1, D3);
    Cons(Jmpf(1 + |r|), Encode(Pop) + r, D3, consts, d + 1, d + 1, bound);
  }

  lemma FragmentLength(c: seq<byte>, consts: seq<Value>, D: Depths, entry: nat, exit: int, bound: nat)
    requires Fragment(c, consts, D, entry, exit, bound)
    ensures |D| == |c|
  {
  }

  lemma {:induction false} TypeOr(h: Host, e: Expr, locals: Locals, pool: Pool, consts: seq<Value>, d: nat, bound: nat)
    returns (D: Depths)
    requires Typable(h, e, locals, pool, consts, d, bound) && e.Or?
    ensures Fragment(CodeExpr(h, e, locals, pool).value.code, consts, D, d, d + 1, bound)
    decreases e, 0
  {
    hide Encode, Typed;
    var l := CodeExpr(h, e.left, locals, pool).value;
    var D1 := TypeExpr(h, e.left, locals, pool, consts, d, bound);
    var r := CodeExpr(h, e.right, locals, l.pool).value;
    var D2 := TypeExpr(h, e.right, locals, l.pool, consts, d, bound);
    var tail := Encode(Pop) + r.code;
    var D3, _ := TypeSkip(r.code, D2, consts, d, bound);
    var over := Jmp(1 + |r.code|);
    var D4 := Front(over, d + 1, D3);
    Cons(over, tail, D3, consts, d + 1, d + 1, bound);
    FrontAt(over, d + 1, D3);
    var D5 := Front(Jmpf(3), d + 1, D4);
    Cons(Jmpf(3), Encode(over) + tail, D4, consts, d + 1, d + 1, bound);
    hide Fragment;
    Join(l.code, D1, Encode(Jmpf(3)) + (Encode(over) + tail), D5, consts, d, d + 1, d + 1, bound);
    D := D1 + D5;
  }

  lemma {:induction false} TypeExprs(h: Host, es: seq<Expr>, locals: Locals, pool: Pool, consts: seq<Value>, d: nat, bound: nat)
    returns (D: Depths)
    requires CodeExprs(h, es, locals, pool).Some? && CodeExprs(h, es, locals, pool).value.pool <= consts
    requires AllMapsFit(es) && 1 <= |locals| <= d && locals[0].name == "" && d + PeakAll(es) <= bound
    ensures Fragment(CodeExprs(h, es, locals, pool).value.code, consts, D, d, d + |es|, bound)
    ensures d + |es| <= bound
    decreases es, 1
  {
    if es == [] {
      D := [];
    } else {
      D := TypeCons(h, es, locals, pool, consts, d, bound);
    }
  }

  lemma {:induction false} TypeCons(h: Host, es: seq<Expr>, locals: Locals, pool: Pool, consts: seq<Value>, d: nat, bound: nat)
    returns (D: Depths)
    requires es != [] && CodeExprs(h, es, locals, pool).Some? && CodeExprs(h, es, locals, pool).value.pool <= consts
    requires AllMapsFit(es) && 1 <= |locals| <= d && locals[0].name == "" && d + PeakAll(es) <= bound
    ensures Fragment(CodeExprs(h, es, locals, pool).value.code, consts, D, d, d + |es|, bound)
    ensures d + |es| <= bound
    decreases es, 0
  {
    hide Fragment, CodeExpr, MapsFit, Peak;
    var c := CodeExpr(h, es[0], locals, pool).value;
    var D1 := TypeExpr(h, es[0], locals, pool, consts, d, bound);
    var c2 := CodeExprs(h, es[1..], locals, c.pool).value;
    var D2 := TypeExprs(h, es[1..], locals, c.pool, consts, d + 1, bound);
    Join(c.code, D1, c2.code, D2, consts, d, d + 1, d + |es|, bound);
    D := D1 + D2;
  }

  lemma {:induction false} TypePops(n: nat, consts: seq<Value>, d: nat, bound: nat) returns (D: Depths)
    requires n < d <= bound
    ensures Fragment(Pops(n), consts, D, d, d - n, bound)
  {
    if n == 0 {
      D := [];
    } else {
      hide Fragment, Encode;
      D := TypePops(n - 1, consts, d, bound);
      D := Snoc(Pops(n - 1), D, Pop, consts, d, d - (n - 1), bound);
    }
  }

  /** `c` followed by a return, after which no depth is promised. */
  lemma TypeRet(c: seq<byte>, D: Depths, consts: seq<Value>, entry: nat, d: nat, exit: int, bound: nat) returns (D': Depths)
    requires Fragment(c, consts, D, entry, d, bound) && 2 <= d <= bound
    ensures Fragment(c + Encode(Ret), consts, D', entry, exit, bound)
  {
    hide Encode;
    var D1 := Front(Ret, d, []);
    Cons(Ret, [], [], consts, d, exit, bound);
    assert Encode(Ret) + [] == Encode(Ret);
    hide Fragment;
    Join(c, D, Encode(Ret), D1, consts, entry, d, exit, bound);
    D' := D + D1;
  }

  predicate TypableStmt(h: Host, s: Stmt, sc: Scope, locals: Locals, pool: Pool, consts: seq<Value>, bound: nat) {
    CodeStmt(h, s, sc, locals, pool).Some? && CodeStmt(h, s, sc, locals, pool).value.pool <= consts
    && StmtFits(s) && Settled(locals, sc.depth) && 1 <= |locals| && locals[0].name == ""
    && |locals| + PeakStmt(s) <= bound
  }

  predicate TypableBlock(h: Host, ss: seq<Stmt>, sc: Scope, locals: Locals, pool: Pool, consts: seq<Value>, last: nat, bound: nat) {
    CodeBlock(h, ss, sc, locals, pool).Some? && CodeBlock(h, ss, sc, locals, pool).value.pool <= consts
    && BlockFits(ss) && Settled(locals, sc.depth) && 1 <= |locals| && locals[0].name == ""
    && |locals| + PeakBlock(ss, sc.depth == 0, last) <= bound
  }

  /** The code of a statement takes the depth from the locals before it to the locals after it. */
  lemma {:induction false} TypeStmt(h: Host, s: Stmt, sc: Scope, locals: Locals, pool: Pool, consts: seq<Value>, bound: nat)
    returns (D: Depths)
    requires TypableStmt(h, s, sc, locals, pool, consts, bound)
    ensures Fragment(CodeStmt(h, s, sc, locals, pool).value.code, consts, D, |locals|,
                     |CodeStmt(h, s, sc, locals, pool).value.locals|, bound)
    decreases s, 1
  {
    hide *;
    match s
    case ExprStmt(_) => D := TypeSimple(h, s, sc, locals, pool, consts, bound);
    case PrintStmt(_) => D := TypeSimple(h, s, sc, locals, pool, consts, bound);
    case If(_, _, _) => D := TypeIf(h, s, sc, locals, pool, consts, bound);
    case Return(_) => D := TypeSimple(h, s, sc, locals, pool, consts, bound);
    case ReturnNull => D := TypeSimple(h, s, sc, locals, pool, consts, bound);
    case Block(_) => D := TypeBlockStmt(h, s, sc, locals, pool, consts, bound);
    case Var(_, _) => D := TypeVar(h, s, sc, locals, pool, consts, bound);
    case Globals(_) => D := TypeSimple(h, s, sc, locals, pool, consts, bound);
    case FunDecl(_, _, _, _) => D := TypeSimple(h, s, sc, locals, pool, consts, bound);
  }

  lemma {:induction false} TypeSimple(h: Host, s: Stmt, sc: Scope, locals: Locals, pool: Pool, consts: seq<Value>, bound: nat)
    returns (D: Depths)
    requires TypableStmt(h, s, sc, locals, pool, consts, bound) && !s.If? && !s.Block? && !s.Var?
    ensures Fragment(CodeStmt(h, s, sc, locals, pool).value.code, consts, D, |locals|,
                     |CodeStmt(h, s, sc, locals, pool).value.locals|, bound)
    decreases s, 0
  {
    hide Fragment, Encode, AddConst, Key, Taken, Useless;
    var d := |locals|;
    match s
    case ExprStmt(e) =>
      D := TypeExpr(h, e, locals, pool, consts, d, bound);
      D := Snoc(CodeExpr(h, e, locals, pool).value.code, D, Pop, consts, d, d + 1, bound);
    case PrintStmt(es) =>
      D := TypeExprs(h, es, locals, pool, consts, d, bound);
      D := Snoc(CodeExprs(h, es, locals, pool).value.code, D, Print(|es|), consts, d, d + |es|, bound);
    case Return(e) =>
      D := TypeExpr(h, e, locals, pool, consts, d, bound);
      D := TypeRet(CodeExpr(h, e, locals, pool).value.code, D, consts, d, d + 1, d, bound);
    case ReturnNull =>
      D := Single(Nil, consts, d, bound);
      D := TypeRet(Encode(Nil), D, consts, d, d + 1, d, bound);
    case Globals(items) => D := TypeItems(h, items, locals, pool, consts, bound);
    case FunDecl(_, _, _, _) => D := TypeFunDecl(h, s, sc, locals, pool, consts, bound);
  }

  lemma TypeFunDecl(h: Host, s: Stmt, sc: Scope, locals: Locals, pool: Pool, consts: seq<Value>, bound: nat)
    returns (D: Depths)
    requires TypableStmt(h, s, sc, locals, pool, consts, bound) && s.FunDecl?
    ensures Fragment(CodeStmt(h, s, sc, locals, pool).value.code, consts, D, |locals|,
                     |CodeStmt(h, s, sc, locals, pool).value.locals|, bound)
  {
    hide Fragment, Encode, AddConst, Key, Taken;
    var d, name, site := |locals|, s.name, s.site;
    if sc.depth == 0 {
      var c := AddConst(h, pool, Str(Key(h, name))).value;
      StrConst(h, pool, Key(h, name), consts);
      ConstInRange(h, c.pool, Fun(site), consts);
      var k := AddConst(h, c.pool, Fun(site)).value.k;
      D := Single(Const(k), consts, d, bound);
      D := Snoc(Encode(Const(k)), D, Def(c.k), consts, d, d + 1, bound);
    } else {
      ConstInRange(h, pool, Fun(site), consts);
      D := Single(Const(AddConst(h, pool, Fun(site)).value.k), consts, d, bound);
    }
  }

  lemma {:induction false} TypeVar(h: Host, s: Stmt, sc: Scope, locals: Locals, pool: Pool, consts: seq<Value>, bound: nat)
    returns (D: Depths)
    requires TypableStmt(h, s, sc, locals, pool, consts, bound) && s.Var?
    ensures Fragment(CodeStmt(h, s, sc, locals, pool).value.code, consts, D, |locals|,
                     |CodeStmt(h, s, sc, locals, pool).value.locals|, bound)
    decreases s, 0
  {
    hide Fragment, Encode, AddConst, Key, Taken, Useless;
    var d := |locals|;
    if sc.depth == 0 {
      var c := AddConst(h, pool, Str(Key(h, s.name))).value;
      StrConst(h, pool, Key(h, s.name), consts);
      D := TypeExpr(h, s.init, locals, c.pool, consts, d, bound);
      D := Snoc(CodeExpr(h, s.init, locals, c.pool).value.code, D, Def(c.k), consts, d, d + 1, bound);
    } else {
      PendingUnused(h, s.init, locals, AddLocal(locals, sc.depth, s.name).value, pool);
      D := TypeExpr(h, s.init, locals, pool, consts, d, bound);
    }
  }

  lemma {:induction false} TypeBlockStmt(h: Host, s: Stmt, sc: Scope, locals: Locals, pool: Pool, consts: seq<Value>, bound: nat)
    returns (D: Depths)
    requires TypableStmt(h, s, sc, locals, pool, consts, bound) && s.Block?
    ensures Fragment(CodeStmt(h, s, sc, locals, pool).value.code, consts, D, |locals|,
                     |CodeStmt(h, s, sc, locals, pool).value.locals|, bound)
    decreases s, 0
  {
    hide Fragment, Encode, Pops, CodeBlock, BlockFits, PeakBlock;
    var d := |locals|;
    var inner := sc.(depth := sc.depth + 1);
    var b := CodeBlock(h, s.body, inner, locals, pool).value;
    BlockGrows(h, s.body, inner, locals, pool);
    BlockCount(h, s.body, inner, locals, pool, 0);
    AboveCounts(locals, b.locals, sc.depth);
    var n := |b.locals| - d;
    D := TypeBlock(h, s.body, inner, locals, pool, consts, 0, bound);
    var D1 := TypePops(n, consts, |b.locals|, bound);
    Join(b.code, D, Pops(n), D1, consts, d, |b.locals|, d, bound);
    D := D + D1;
  }

  lemma IfTypable(h: Host, s: Stmt, sc: Scope, locals: Locals, pool: Pool, consts: seq<Value>, bound: nat)
    returns (c: Piece, t: Gen, e: Gen)
    requires TypableStmt(h, s, sc, locals, pool, consts, bound) && s.If?
    ensures CodeExpr(h, s.cond, locals, pool) == Some(c) && Typable(h, s.cond, locals, pool, consts, |locals|, bound)
    ensures CodeStmt(h, s.thn, sc, locals, c.pool) == Some(t) && TypableStmt(h, s.thn, sc, locals, c.pool, consts, bound)
    ensures CodeStmt(h, s.els, sc, locals, t.pool) == Some(e) && TypableStmt(h, s.els, sc, locals, t.pool, consts, bound)
    ensures t.locals == e.locals == locals && CodeStmt(h, s, sc, locals, pool) == CodeIf(c, t, e)
  {
    hide CodeExpr, Settled, Grows, MapsFit, Peak, CodeIf;
    c := CodeExpr(h, s.cond, locals, pool).value;
    t := CodeStmt(h, s.thn, sc, locals, c.pool).value;
    StmtGrows(h, s.thn, sc, locals, c.pool);
    e := CodeStmt(h, s.els, sc, locals, t.pool).value;
    StmtGrows(h, s.els, sc, locals, t.pool);
    assert CodeIf(c, t, e).value.pool == e.pool by { CodeIfPool(c, t, e); }
  }

  lemma CodeIfPool(c: Piece, t: Gen, e: Gen)
    requires CodeIf(c, t, e).Some?
    ensures CodeIf(c, t, e).value.pool == e.pool
  {
  }

  lemma {:induction false} TypeIf(h: Host, s: Stmt, sc: Scope, locals: Locals, pool: Pool, consts: seq<Value>, bound: nat)
    returns (D: Depths)
    requires TypableStmt(h, s, sc, locals, pool, consts, bound) && s.If?
    ensures Fragment(CodeStmt(h, s, sc, locals, pool).value.code, consts, D, |locals|,
                     |CodeStmt(h, s, sc, locals, pool).value.locals|, bound)
    decreases s, 0
  {
    hide Fragment, Encode, CodeExpr, CodeStmt, Typable, Settled, MapsFit, Peak;
    var d := |locals|;
    var c, t, e := IfTypable(h, s, sc, locals, pool, consts, bound);
    var Dc := TypeExpr(h, s.cond, locals, pool, consts, d, bound);
    var Dt := TypeStmt(h, s.thn, sc, locals, c.pool, consts, bound);
    var De := TypeStmt(h, s.els, sc, locals, t.pool, consts, bound);
    var Da := TypeArms(t.code, Dt, e.code, De, consts, d, bound);
    var arms := Encode(Jmpf(1 + |t.code| + 3)) + (Encode(Pop) + (t.code + (Encode(Jmp(1 + |e.code|)) + (Encode(Pop) + e.code))));
    Join(c.code, Dc, arms, Da, consts, d, d + 1, d, bound);
    D := Dc + Da;
  }

  /** Both arms of a conditional start with the condition's value still to be popped, and end where they meet. */
  lemma TypeArms(t: seq<byte>, Dt: Depths, e: seq<byte>, De: Depths, consts: seq<Value>, d: nat, bound: nat)
    returns (D: Depths)
    requires Fragment(t, consts, Dt, d, d, bound) && Fragment(e, consts, De, d, d, bound) && 1 <= d && d + 1 <= bound
    requires 1 + |t| + 3 < 0x1_0000 && 1 + |e| < 0x1_0000
    ensures Fragment(Encode(Jmpf(1 + |t| + 3)) + (Encode(Pop) + (t + (Encode(Jmp(1 + |e|)) + (Encode(Pop) + e)))),
                     consts, D, d + 1, d, bound)
  {
    hide Encode, Typed;
    FragmentLength(t, consts, Dt, d, d, bound);
    FragmentLength(e, consts, De, d, d, bound);
    var E, DE := Encode(Pop) + e, Front(Pop, d + 1, De);
    Cons(Pop, e, De, consts, d + 1, d, bound);
    FrontAt(Pop, d + 1, De);
    var J, DJ := Encode(Jmp(1 + |e|)) + E, Front(Jmp(1 + |e|), d, DE);
    Cons(Jmp(1 + |e|), E, DE, consts, d, d, bound);
    FrontAt(Jmp(1 + |e|), d, DE);
    var T, DT := t + J, Dt + DJ;
    Join(t, Dt, J, DJ, consts, d, d, d, bound);
    var P, DP := Encode(Pop) + T, Front(Pop, d + 1, DT);
    Cons(Pop, T, DT, consts, d + 1, d, bound);
    FrontAt(Pop, d + 1, DT);
    assert DT[|t| + 3] == DJ[3] == DE[0] == d + 1;
    D := Front(Jmpf(1 + |t| + 3), d + 1, DP);
    Cons(Jmpf(1 + |t| + 3), P, DP, consts, d + 1, d, bound);
  }

  lemma TypeDefine(k: byte, rest: seq<byte>, D: Depths, consts: seq<Value>, d: nat, bound: nat) returns (D': Depths)
    requires Fragment(rest, consts, D, d, d, bound) && 1 <= d && d + 1 <= bound && k < |consts| && consts[k].Str?
    ensures Fragment(Encode(Def(k)) + rest, consts, D', d + 1, d, bound)
  {
    hide Encode, Typed;
    D' := Front(Def(k), d + 1, D);
    Cons(Def(k), rest, D, consts, d + 1, d, bound);
  }

  lemma {:induction false} TypeItems(h: Host, items: seq<Init>, locals: Locals, pool: Pool, consts: seq<Value>, bound: nat)
    returns (D: Depths)
    requires CodeItems(h, items, locals, pool).Some? && CodeItems(h, items, locals, pool).value.pool <= consts
    requires ItemsFit(items) && 1 <= |locals| && locals[0].name == "" && |locals| + PeakItems(items) <= bound
    ensures Fragment(CodeItems(h, items, locals, pool).value.code, consts, D, |locals|, |locals|, bound)
    decreases items, 0
  {
    if items == [] {
      D := [];
    } else {
      hide Fragment, Encode, AddConst, Key, CodeExpr, MapsFit, Peak;
      var d := |locals|;
      var name := Key(h, items[0].name);
      var k := AddConst(h, pool, Str(name)).value;
      var v := CodeExpr(h, items[0].value, locals, k.pool).value;
      var rest := CodeItems(h, items[1..], locals, v.pool).value;
      StrConst(h, pool, name, consts);
      var D1 := TypeExpr(h, items[0].value, locals, k.pool, consts, d, bound);
      var D2 := TypeItems(h, items[1..], locals, v.pool, consts, bound);
      D2 := TypeDefine(k.k, rest.code, D2, consts, d, bound);
      Join(v.code, D1, Encode(Def(k.k)) + rest.code, D2, consts, d, d + 1, d, bound);
      D := D1 + D2;
    }
  }

  lemma {:induction false} TypeBlock(h: Host, ss: seq<Stmt>, sc: Scope, locals: Locals, pool: Pool, consts: seq<Value>, last: nat, bound: nat)
    returns (D: Depths)
    requires TypableBlock(h, ss, sc, locals, pool, consts, last, bound)
    ensures Fragment(CodeBlock(h, ss, sc, locals, pool).value.code, consts, D, |locals|,
                     |CodeBlock(h, ss, sc, locals, pool).value.locals|, bound)
    decreases ss, 0
  {
    if ss == [] {
      D := [];
    } else {
      hide Fragment, CodeStmt, StmtFits, PeakStmt;
      var x := CodeStmt(h, ss[0], sc, locals, pool).value;
      var y := CodeBlock(h, ss[1..], sc, x.locals, x.pool).value;
      StmtGrows(h, ss[0], sc, locals, pool);
      LocalsCount(h, ss[0], sc, locals, pool);
      var D1 := TypeStmt(h, ss[0], sc, locals, pool, consts, bound);
      assert x.locals[0] == x.locals[..|locals|][0];
      var D2 := TypeBlock(h, ss[1..], sc, x.locals, x.pool, consts, last, bound);
      Join(x.code, D1, y.code, D2, consts, |locals|, |x.locals|, |y.locals|, bound);
      D := D1 + D2;
    }
  }

  /** One statement declares at most one local, and only a declaration in a block does. */
  lemma LocalsCount(h: Host, s: Stmt, sc: Scope, locals: Locals, pool: Pool)
    requires Settled(locals, sc.depth) && CodeStmt(h, s, sc, locals, pool).Some?
    ensures |CodeStmt(h, s, sc, locals, pool).value.locals| <= |locals| + if sc.depth == 0 || Arm(s) then 0 else 1
  {
    hide CodeExpr, CodeExprs, CodeItems, CodeConst, AddConst, Encode, Pops, Useless, Taken;
    StmtGrows(h, s, sc, locals, pool);
  }

  /** A function's code, closed by its final return, is typed from its arity. */
  lemma TypeFunction(h: Host, d: Decl, bound: nat) returns (D: Depths)
    requires CodeFunction(h, d).Some? && BlockFits(d.body) && PeakFunction(d) <= bound
    ensures
      var f := CodeFunction(h, d).value;
      Fragment(f.code, f.consts, D, f.arity + 1, NO_EXIT, bound)
  {
    hide Fragment, Encode, CodeBlock;
    var sc := if d.script then Scope(0, true) else Scope(1, false);
    var ls := if d.script then [SelfLocal] else AddParams([SelfLocal], d.params).value;
    if !d.script { ParamsGrow([SelfLocal], d.params); }
    assert ls[0] == ls[..1][0];
    var b := CodeBlock(h, d.body, sc, ls, []).value;
    BlockGrows(h, d.body, sc, ls, []);
    BlockCount(h, d.body, sc, ls, [], 1);
    D := TypeBlock(h, d.body, sc, ls, [], b.pool, 1, bound);
    D := Snoc(b.code, D, Nil, b.pool, |ls|, |b.locals|, bound);
    D := TypeRet(b.code + Encode(Nil), D, b.pool, |ls|, |b.locals| + 1, NO_EXIT, bound);
    assert b.code + Encode(Nil) + Encode(Ret) == b.code + (Encode(Nil) + Encode(Ret));
  }

  lemma {:induction false} BlockCount(h: Host, ss: seq<Stmt>, sc: Scope, locals: Locals, pool: Pool, last: nat)
    requires Settled(locals, sc.depth) && CodeBlock(h, ss, sc, locals, pool).Some?
    ensures |CodeBlock(h, ss, sc, locals, pool).value.locals| + last <= |locals| + PeakBlock(ss, sc.depth == 0, last)
    decreases ss, 0
  {
    if ss != [] {
      hide CodeStmt;
      StmtGrows(h, ss[0], sc, locals, pool);
      LocalsCount(h, ss[0], sc, locals, pool);
      var x := CodeStmt(h, ss[0], sc, locals, pool).value;
      BlockCount(h, ss[1..], sc, x.locals, x.pool, last);
    }
  }
}
