/**
 What interning does to a program. The string table tells strings apart by length and hash
 only, so two different strings that share both are one object: one global, one map key, one
 text. Without such a pair among the strings a run interns, interning changes nothing.
 */
module Interning {
  import opened Values
  import opened Bytecode
  import opened Syntax
  import opened Codegen
  import opened Strings
  import opened Machine
  import opened Evaluator
  import opened Verifier
  import opened Programs

  /** Two strings the string table takes for one. */
  predicate Clash(s: string, t: string) {
    s != t && |s| == |t| && Hash32(s) == Hash32(t)
  }

  /** `tab_findstr` on a table of one string per length and hash: what stands for `s` depends on nothing else. */
  ghost predicate Interns(h: Host) {
    (forall s :: |h.intern(s)| == |s| && Hash32(h.intern(s)) == Hash32(s))
    && forall s, t :: |s| == |t| && Hash32(s) == Hash32(t) ==> h.intern(s) == h.intern(t)
  }

  /** The strings that stand for those of `all` are among them: the first one interned stands for the others. */
  ghost predicate Within(h: Host, all: set<string>) {
    forall s :: s in all ==> h.intern(s) in all
  }

  predicate NoClash(all: set<string>) {
    forall s, t :: s in all && t in all ==> !Clash(s, t)
  }

  ghost predicate Faithful(h: Host, all: set<string>) {
    forall s :: s in all ==> h.intern(s) == s
  }

  /** Interning leaves a set of strings alone exactly when no two of them clash. */
  lemma FaithfulIffNoClash(h: Host, all: set<string>)
    requires Interns(h) && Within(h, all)
    ensures Faithful(h, all) <==> NoClash(all)
  {
    hide Hash32;
    if NoClash(all) {
      forall s | s in all ensures h.intern(s) == s { assert !Clash(s, h.intern(s)); }
    }
    if Faithful(h, all) {
      forall s, t | s in all && t in all ensures !Clash(s, t) { assert Clash(s, t) ==> h.intern(s) == h.intern(t); }
    }
  }

  /** The strings the compiler interns for an expression: literals, and names in lower case. */
  function ExprStrings(e: Expr): set<string>
    decreases e, 0
  {
    match e
    case StrLit(s) => {s}
    case Name(id) => {Canon(id)}
    case Assign(id, v) => {Canon(id)} + ExprStrings(v)
    case Member(o, id) => ExprStrings(o) + {Canon(id)}
    case SetMember(o, id, v) => ExprStrings(o) + {Canon(id)} + ExprStrings(v)
    case Index(o, k) => ExprStrings(o) + ExprStrings(k)
    case SetIndex(o, k, v) => ExprStrings(o) + ExprStrings(k) + ExprStrings(v)
    case Prefix(_, x) => ExprStrings(x)
    case Infix(_, l, r) => ExprStrings(l) + ExprStrings(r)
    case And(l, r) => ExprStrings(l) + ExprStrings(r)
    case Or(l, r) => ExprStrings(l) + ExprStrings(r)
    case Invoke(f, args) => ExprStrings(f) + AllStrings(args)
    case MapLit(es) => AllStrings(es)
    case Group(x) => ExprStrings(x)
    case _ => {}
  }

  function AllStrings(es: seq<Expr>): set<string>
    decreases es, 0
  {
    if es == [] then {} else ExprStrings(es[0]) + AllStrings(es[1..])
  }

  function ItemStrings(items: seq<Init>): set<string>
    decreases items, 0
  {
    if items == [] then {} else {Canon(items[0].name)} + ExprStrings(items[0].value) + ItemStrings(items[1..])
  }

  function StmtStrings(s: Stmt): set<string>
    decreases s, 1
  {
    match s
    case ExprStmt(e) => ExprStrings(e)
    case PrintStmt(es) => AllStrings(es)
    case If(c, t, e) => ExprStrings(c) + StmtStrings(t) + StmtStrings(e)
    case Return(e) => ExprStrings(e)
    case ReturnNull => {}
    case Block(body) => BlockStrings(body)
    case Var(name, e) => {Canon(name)} + ExprStrings(e)
    case Globals(items) => ItemStrings(items)
    case FunDecl(name, _, _, body) => {Canon(name)} + BlockStrings(body)
  }

  function BlockStrings(ss: seq<Stmt>): set<string>
    decreases ss, 0
  {
    if ss == [] then {} else StmtStrings(ss[0]) + BlockStrings(ss[1..])
  }

  lemma {:induction false} SameFind(h: Host, pool: Pool, v: Value, from: nat)
    requires from <= |pool|
    ensures FindConst(h, pool, v, from) == FindConst(h.Plain(), pool, v, from)
    decreases |pool| - from
  {
    if from < |pool| { SameFind(h, pool, v, from + 1); }
  }

  lemma SameConst(h: Host, pool: Pool, v: Value)
    requires Constant(v)
    ensures AddConst(h, pool, v) == AddConst(h.Plain(), pool, v)
  {
    SameFind(h, pool, v, 0);
  }

  /** Code is the same when interning leaves the strings of the source alone. */
  lemma {:induction false} SameExpr(h: Host, e: Expr, locals: Locals, pool: Pool)
    requires Faithful(h, ExprStrings(e))
    ensures CodeExpr(h, e, locals, pool) == CodeExpr(h.Plain(), e, locals, pool)
    decreases e, 1
  {
    hide Encode, Canon, AddConst, InfixCode, PrefixCode, CodeAnd, CodeOr, Resolve, CodeExprs, AllStrings;
    match e
    case NumLit(n) => SameConst(h, pool, Num(n));
    case StrLit(s) => SameConst(h, pool, Str(s));
    case Name(id) => SameConst(h, pool, Str(Canon(id)));
    case Assign(id, v) => SameNamed(h, id, v, locals, pool);
    case Member(o, id) =>
      SameExpr(h, o, locals, pool);
      var a := CodeExpr(h, o, locals, pool);
      if a.Some? { SameConst(h, a.value.pool, Str(Canon(id))); }
    case SetMember(_, _, _) => SameSetMember(h, e, locals, pool);
    case Index(o, k) => SameTwo(h, o, k, locals, pool);
    case SetIndex(_, _, _) => SameSetIndex(h, e, locals, pool);
    case Prefix(_, x) => SameExpr(h, x, locals, pool);
    case Infix(_, l, r) => SameTwo(h, l, r, locals, pool);
    case And(l, r) => SameTwo(h, l, r, locals, pool);
    case Or(l, r) => SameTwo(h, l, r, locals, pool);
    case Invoke(f, args) =>
      SameExpr(h, f, locals, pool);
      var a := CodeExpr(h, f, locals, pool);
      if a.Some? { SameExprs(h, args, locals, a.value.pool); }
    case MapLit(es) => SameExprs(h, es, locals, pool);
    case Group(x) => SameExpr(h, x, locals, pool);
    case _ =>
  }

  lemma {:induction false} SameSetMember(h: Host, e: Expr, locals: Locals, pool: Pool)
    requires e.SetMember? && Faithful(h, ExprStrings(e))
    ensures CodeExpr(h, e, locals, pool) == CodeExpr(h.Plain(), e, locals, pool)
    decreases e, 0
  {
    hide Encode, Canon, AddConst;
    SameExpr(h, e.obj, locals, pool);
    var a := CodeExpr(h, e.obj, locals, pool);
    if a.Some? { SameNamed(h, e.id, e.value, locals, a.value.pool); }
  }

  lemma {:induction false} SameSetIndex(h: Host, e: Expr, locals: Locals, pool: Pool)
    requires e.SetIndex? && Faithful(h, ExprStrings(e))
    ensures CodeExpr(h, e, locals, pool) == CodeExpr(h.Plain(), e, locals, pool)
    decreases e, 0
  {
    hide Encode, Canon, AddConst;
    SameTwo(h, e.obj, e.key, locals, pool);
    var a := CodeExpr(h, e.obj, locals, pool);
    if a.Some? {
      var b := CodeExpr(h, e.key, locals, a.value.pool);
      if b.Some? { SameExpr(h, e.value, locals, b.value.pool); }
    }
  }

  /** The constant for a name and, after it, an expression. */
  lemma {:induction false} SameNamed(h: Host, id: Ident, v: Expr, locals: Locals, pool: Pool)
    requires Faithful(h, ExprStrings(v)) && h.intern(Canon(id)) == Canon(id)
    ensures AddConst(h, pool, Str(Canon(id))) == AddConst(h.Plain(), pool, Str(Canon(id)))
    ensures CodeExpr(h, v, locals, pool) == CodeExpr(h.Plain(), v, locals, pool)
    ensures AddConst(h, pool, Str(Canon(id))).Some? ==>
      var pool1 := AddConst(h, pool, Str(Canon(id))).value.pool;
      CodeExpr(h, v, locals, pool1) == CodeExpr(h.Plain(), v, locals, pool1)
    decreases v, 2
  {
    hide AddConst, CodeExpr;
    SameConst(h, pool, Str(Canon(id)));
    SameExpr(h, v, locals, pool);
    var c := AddConst(h, pool, Str(Canon(id)));
    if c.Some? { SameExpr(h, v, locals, c.value.pool); }
  }

  lemma {:induction false} SameTwo(h: Host, l: Expr, r: Expr, locals: Locals, pool: Pool)
    requires Faithful(h, ExprStrings(l)) && Faithful(h, ExprStrings(r))
    ensures CodeExpr(h, l, locals, pool) == CodeExpr(h.Plain(), l, locals, pool)
    ensures CodeExpr(h, l, locals, pool).Some? ==>
      var pool1 := CodeExpr(h, l, locals, pool).value.pool;
      CodeExpr(h, r, locals, pool1) == CodeExpr(h.Plain(), r, locals, pool1)
    decreases if l < r then r else l, 2
  {
    SameExpr(h, l, locals, pool);
    var a := CodeExpr(h, l, locals, pool);
    if a.Some? { SameExpr(h, r, locals, a.value.pool); }
  }

  lemma {:induction false} SameExprs(h: Host, es: seq<Expr>, locals: Locals, pool: Pool)
    requires Faithful(h, AllStrings(es))
    ensures CodeExprs(h, es, locals, pool) == CodeExprs(h.Plain(), es, locals, pool)
    decreases es, 0
  {
    if es != [] {
      SameExpr(h, es[0], locals, pool);
      var a := CodeExpr(h, es[0], locals, pool);
      if a.Some? { SameExprs(h, es[1..], locals, a.value.pool); }
    }
  }

  lemma {:induction false} SameItems(h: Host, items: seq<Init>, locals: Locals, pool: Pool)
    requires Faithful(h, ItemStrings(items))
    ensures CodeItems(h, items, locals, pool) == CodeItems(h.Plain(), items, locals, pool)
    decreases items, 0
  {
    hide CodeExpr, AddConst, Canon, Encode;
    if items != [] {
      SameConst(h, pool, Str(Canon(items[0].name)));
      var c := AddConst(h, pool, Str(Canon(items[0].name)));
      if c.Some? {
        SameExpr(h, items[0].value, locals, c.value.pool);
        var v := CodeExpr(h, items[0].value, locals, c.value.pool);
        if v.Some? { SameItems(h, items[1..], locals, v.value.pool); }
      }
    }
  }

  lemma {:induction false} SameStmt(h: Host, s: Stmt, sc: Scope, locals: Locals, pool: Pool)
    requires Faithful(h, StmtStrings(s))
    ensures CodeStmt(h, s, sc, locals, pool) == CodeStmt(h.Plain(), s, sc, locals, pool)
    decreases s, 1
  {
    hide CodeExpr, CodeExprs, CodeItems, CodeBlock, AddConst, Canon, Encode, CodeIf, AddLocal, Pops, Above, Useless;
    hide ExprStrings, AllStrings, ItemStrings, BlockStrings;
    match s
    case ExprStmt(e) => SameExpr(h, e, locals, pool);
    case PrintStmt(es) => SameExprs(h, es, locals, pool);
    case If(c, t, e) =>
      SameExpr(h, c, locals, pool);
      var a := CodeExpr(h, c, locals, pool);
      if a.Some? {
        SameStmt(h, t, sc, locals, a.value.pool);
        var b := CodeStmt(h, t, sc, locals, a.value.pool);
        if b.Some? { SameStmt(h, e, sc, locals, b.value.pool); }
      }
    case Return(e) => SameExpr(h, e, locals, pool);
    case ReturnNull =>
    case Block(body) => SameBlock(h, body, sc.(depth := sc.depth + 1), locals, pool);
    case Var(name, e) =>
      SameConst(h, pool, Str(Canon(name)));
      var c := AddConst(h, pool, Str(Canon(name)));
      if c.Some? { SameExpr(h, e, locals, c.value.pool); }
      var ls := AddLocal(locals, sc.depth, name);
      if ls.Some? { SameExpr(h, e, ls.value, pool); }
    case Globals(items) => SameItems(h, items, locals, pool);
    case FunDecl(name, site, _, _) =>
      SameConst(h, pool, Str(Canon(name)));
      var c := AddConst(h, pool, Str(Canon(name)));
      if c.Some? { SameConst(h, c.value.pool, Fun(site)); }
      SameConst(h, pool, Fun(site));
  }

  lemma {:induction false} SameBlock(h: Host, ss: seq<Stmt>, sc: Scope, locals: Locals, pool: Pool)
    requires Faithful(h, BlockStrings(ss))
    ensures CodeBlock(h, ss, sc, locals, pool) == CodeBlock(h.Plain(), ss, sc, locals, pool)
    decreases ss, 0
  {
    hide CodeStmt;
    if ss != [] {
      SameStmt(h, ss[0], sc, locals, pool);
      var a := CodeStmt(h, ss[0], sc, locals, pool);
      if a.Some? { SameBlock(h, ss[1..], sc, a.value.locals, a.value.pool); }
    }
  }

  /** The functions of a block have no strings of their own. */
  lemma {:induction false} InnerStrings(ss: seq<Stmt>)
    ensures forall d :: d in FunsOfAll(ss) ==> !d.script && BlockStrings(d.body) <= BlockStrings(ss)
    decreases ss, 0
  {
    hide StmtStrings, FunsOf;
    if ss != [] {
      StmtInner(ss[0]);
      InnerStrings(ss[1..]);
    }
  }

  lemma {:induction false} StmtInner(s: Stmt)
    ensures forall d :: d in FunsOf(s) ==> !d.script && BlockStrings(d.body) <= StmtStrings(s)
    decreases s, 1
  {
    hide Canon, ExprStrings;
    match s
    case If(_, t, e) => StmtInner(t); StmtInner(e);
    case Block(body) => InnerStrings(body);
    case FunDecl(_, _, _, body) => InnerStrings(body);
    case _ =>
  }

  lemma {:induction false} SameFunctions(h: Host, ds: seq<Decl>)
    requires forall d :: d in ds ==> Faithful(h, BlockStrings(d.body))
    ensures CodeFunctions(h, ds) == CodeFunctions(h.Plain(), ds)
    decreases |ds|
  {
    if ds != [] {
      assert ds[0] in ds;
      SameFunction(h, ds[0]);
      hide CodeFunction;
      SameFunctions(h, ds[1..]);
    }
  }

  lemma SameFunction(h: Host, d: Decl)
    requires Faithful(h, BlockStrings(d.body))
    ensures CodeFunction(h, d) == CodeFunction(h.Plain(), d)
  {
    hide CodeBlock, Encode, AddParams;
    SameBlock(h, d.body, Scope(0, true), [SelfLocal], []);
    var ls := AddParams([SelfLocal], d.params);
    if ls.Some? { SameBlock(h, d.body, Scope(1, false), ls.value, []); }
  }

  /** The compiler produces the same functions whether it interns or not. */
  lemma SameProgram(h: Host, body: seq<Stmt>)
    requires Faithful(h, BlockStrings(body))
    ensures CodeProgram(h, body) == CodeProgram(h.Plain(), body)
  {
    hide BlockStrings;
    InnerStrings(body);
    SameFunctions(h, WorldOf(body));
  }

  /** The string the machine interns in a step: what OP_ADD makes of two strings. */
  function Concatenated(p: Program, s: State): set<string> {
    if |s.frames| == 0 then {}
    else
      var n := |s.stack|;
      match Decode(Code(p, Top(s)), Top(s).ip)
      case Some(Binary(Add)) => if n >= 2 && s.stack[n - 2].Str? && s.stack[n - 1].Str? then {s.stack[n - 2].s + s.stack[n - 1].s} else {}
      case _ => {}
  }

  /** The strings the machine interns in a whole run. */
  function Made(h: Host, p: Program, s: State): set<string>
    requires |s.frames| <= FRAMES_MAX
    decreases Measure(p, s.frames, FRAMES_MAX)
  {
    Concatenated(p, s) +
    match Step(h, p, s)
    case Next(s') =>
      StepDecreases(h, p, s);
      Made(h, p, s')
    case _ => {}
  }

  lemma {:induction false} SameFill(h: Host, m: map<Raw, Value>, vs: seq<Value>)
    ensures FillHash(h, m, vs) == FillHash(h.Plain(), m, vs)
    decreases |vs|
  {
    if vs != [] { SameFill(h, HashPut(m, h.ofInt(|vs| - 1), vs[0]), vs[1..]); }
  }

  lemma SameAdd(h: Host, op: BinaryOp, x: Value, y: Value)
    requires op == Add && x.Str? && y.Str? ==> h.intern(x.s + y.s) == x.s + y.s
    ensures ApplyBinary(h, op, x, y) == ApplyBinary(h.Plain(), op, x, y)
  {
  }

  lemma SameExecute(h: Host, p: Program, s: State, f: Frame, i: Instr)
    requires |s.frames| > 0
    requires
      var n := |s.stack|;
      i == Binary(Add) && n >= 2 && s.stack[n - 2].Str? && s.stack[n - 1].Str? ==>
        h.intern(s.stack[n - 2].s + s.stack[n - 1].s) == s.stack[n - 2].s + s.stack[n - 1].s
    ensures Execute(h, p, s, f, i) == Execute(h.Plain(), p, s, f, i)
  {
    hide ApplyBinary, FillHash, HashPut;
    var n := |s.stack|;
    match i
    case Binary(op) => if n >= 2 { SameAdd(h, op, s.stack[n - 2], s.stack[n - 1]); }
    case MakeMap(k) => if k <= n { SameFill(h, map[], s.stack[n - k..]); }
    case _ =>
  }

  lemma SameStep(h: Host, p: Program, s: State)
    requires Faithful(h, Concatenated(p, s))
    ensures Step(h, p, s) == Step(h.Plain(), p, s)
  {
    hide Execute, Decode;
    if 0 < |s.frames| <= FRAMES_MAX {
      var f := Top(s);
      var i := Decode(Code(p, f), f.ip);
      if i.Some? {
        var f' := f.(ip := f.ip + Size(i.value));
        SameExecute(h, p, s.(frames := s.frames[..|s.frames| - 1] + [f']), f', i.value);
      }
    }
  }

  /** A run is the same whether the machine interns or not. */
  lemma {:induction false} SameRun(h: Host, p: Program, s: State)
    requires |s.frames| <= FRAMES_MAX && Faithful(h, Made(h.Plain(), p, s))
    ensures Run(h, p, s) == Run(h.Plain(), p, s)
    decreases Measure(p, s.frames, FRAMES_MAX)
  {
    hide Step, Concatenated, Measure;
    SameStep(h, p, s);
    if Step(h, p, s).Next? {
      StepDecreases(h, p, s);
      SameRun(h, p, Step(h, p, s).state);
    }
  }

  /** The strings a script interns: those of its text, and those it makes when it runs. */
  function StringsOf(h: Host, body: seq<Stmt>, base: seq<Value>, st: Store): set<string> {
    BlockStrings(body)
    + (var p := CodeProgram(h.Plain(), body);
       if p.None? || p.value == [] then {} else Made(h.Plain(), p.value, Initial(base, |p.value| - 1, st)))
  }

  /**
   The main theorem. As long as no two different strings of a run share length and hash, a
   compiled script, all its strings interned, runs to the outcome of its source, in which
   strings are nothing but their characters. `table` may hold any other strings as well.
   */
  lemma CompiledScriptMeansItsSource(h: Host, body: seq<Stmt>, base: seq<Value>, st: Store, table: set<string>)
    requires h.Sound() && Interns(h) && Within(h, table) && NoClash(table) && StringsOf(h, body, base, st) <= table
    requires Proper(body) && AllOk(base, |WorldOf(body)|, |st.heap|) && StoreOk(st, |WorldOf(body)|)
    ensures CodeProgram(h, body) == CodeProgram(h.Plain(), body)
    ensures CodeProgram(h, body).Some? ==>
      var w := WorldOf(body);
      var r := EvalScript(h.Plain(), w, |w| - 1, st);
      !r.Wrong? && Run(h, CodeProgram(h, body).value, Initial(base, |w| - 1, st)) == Expected(r, base)
  {
    hide Clash, CodeProgram, BlockStrings, Made, Proper, AllOk, StoreOk, WorldOf, EvalScript, Run, Interns, Within, NoClash;
    FaithfulIffNoClash(h, table);
    SameProgram(h, body);
    var p := CodeProgram(h.Plain(), body);
    if p.Some? {
      ProgramLength(h.Plain(), body);
      SameRun(h, p.value, Initial(base, |p.value| - 1, st));
      CompiledScriptRunsAsEvaluated(h.Plain(), body, base, st);
    }
  }

  lemma ProgramLength(h: Host, body: seq<Stmt>)
    requires CodeProgram(h, body).Some?
    ensures |CodeProgram(h, body).value| == |WorldOf(body)| > 0
  {
  }

  /** Two globals that are set to different numbers, and the first one printed. */
  function TwoGlobals(a: Ident, b: Ident, m: Literal, n: Literal): seq<Stmt> {
    [Var(a, NumLit(m)), Var(b, NumLit(n)), PrintStmt([Name(a)])]
  }

  /** What has been printed when a script ends. */
  function Output(r: Result<Value>): seq<seq<Value>> {
    match r
    case Ok(_, _, st) => st.out
    case Err(_, st) => st.out
    case Wrong => []
  }

  const NOTHING: Store := Store(map[], [], [])

  lemma TwoGlobalsWorld(a: Ident, b: Ident, m: Literal, n: Literal)
    ensures var body := TwoGlobals(a, b, m, n); WorldOf(body) == [Decl(true, [], body)]
  {
    var body := TwoGlobals(a, b, m, n);
    var three, two := body[1..][1..], body[1..];
    assert three[1..] == [] && FunsOfAll([]) == [];
    assert FunsOf(three[0]) == [] && FunsOfAll(three) == [];
    assert FunsOf(two[0]) == [] && FunsOfAll(two) == [];
    assert FunsOf(body[0]) == [] && FunsOfAll(body) == [];
  }

  lemma OneGlobal(h: Host, w: World, a: Ident, m: Literal, st: Store)
    ensures Evaluate(h, w, Var(a, NumLit(m)), true, Fun(0), [], st, 1) == Ok(Onward, [], SetGlobal(st, Key(h, a), Num(m)))
  {
    hide Key;
  }

  lemma PrintGlobal(h: Host, w: World, a: Ident, st: Store)
    requires Key(h, a) in st.globals
    ensures Evaluate(h, w, PrintStmt([Name(a)]), true, Fun(0), [], st, 1)
      == Ok(Onward, [], st.(out := st.out + [[st.globals[Key(h, a)]]]))
  {
    hide Key;
    var es := [Name(a)];
    var v := st.globals[Key(h, a)];
    assert es[1..] == [] && es[0] == Name(a);
    assert EvalAll(h, w, [], Fun(0), [], st, 1) == Ok([], [], st);
    assert Eval(h, w, es[0], Fun(0), [], st, 1) == Ok(v, [], st);
    assert [v] + [] == [v];
    assert EvalAll(h, w, es, Fun(0), [], st, 1) == Ok([v], [], st);
  }

  /** What the script prints: the second number exactly if its two names are one. */
  lemma TwoGlobalsPrint(h: Host, a: Ident, b: Ident, m: Literal, n: Literal)
    ensures
      var w := WorldOf(TwoGlobals(a, b, m, n));
      var r := EvalScript(h, w, 0, NOTHING);
      w == [Decl(true, [], TwoGlobals(a, b, m, n))]
      && r.Ok? && Output(r) == [[Num(if Key(h, a) == Key(h, b) then n else m)]]
  {
    hide Key, Evaluate, WorldOf;
    TwoGlobalsWorld(a, b, m, n);
    var body := TwoGlobals(a, b, m, n);
    var w := WorldOf(body);
    var st1 := SetGlobal(NOTHING, Key(h, a), Num(m));
    var st2 := SetGlobal(st1, Key(h, b), Num(n));
    OneGlobal(h, w, a, m, NOTHING);
    OneGlobal(h, w, b, n, st1);
    PrintGlobal(h, w, a, st2);
    var st3 := st2.(out := st2.out + [[st2.globals[Key(h, a)]]]);
    assert body[1..][1..][1..] == [];
    assert EvalBlock(h, w, [], true, Fun(0), [], st3, 1) == Ok(Onward, [], st3);
    assert EvalBlock(h, w, body[1..][1..], true, Fun(0), [], st2, 1) == Ok(Onward, [], st3);
    assert EvalBlock(h, w, body[1..], true, Fun(0), [], st1, 1) == Ok(Onward, [], st3);
    assert EvalBlock(h, w, body, true, Fun(0), [], NOTHING, 1) == Ok(Onward, [], st3);
  }

  lemma NoHash()
    ensures Fnv("") == 0x811c9dc5
  {
  }

  lemma NextHash(s: string, c: char, before: bv32, after: bv32, t: string)
    requires Fnv(s) == before && (before ^ Widen(c)) * 16777619 == after && t == s + [c]
    ensures Fnv(t) == after
  {
    hide Widen;
    assert t[..|t| - 1] == s && t[|t| - 1] == c;
  }

  lemma HashOfDe()
    ensures Fnv("de") == 0x5c1ccea2
  {
    hide Fnv, Mix;
    NoHash();
    NextHash("", 'd', 0x811c9dc5, 0xe10c2473, "d");
    NextHash("d", 'e', 0xe10c2473, 0x5c1ccea2, "de");
  }

  lemma HashOfDecl()
    ensures Fnv("decl") == 0xb1daa7ad
  {
    hide Fnv, Mix;
    HashOfDe();
    NextHash("de", 'c', 0x5c1ccea2, 0xc25979d3, "dec");
    NextHash("dec", 'l', 0xc25979d3, 0xb1daa7ad, "decl");
  }

  lemma HashOfDeclin()
    ensures Fnv("declin") == 0xe42abec6
  {
    hide Fnv, Mix;
    HashOfDecl();
    NextHash("decl", 'i', 0xb1daa7ad, 0xbf36198c, "decli");
    NextHash("decli", 'n', 0xbf36198c, 0xe42abec6, "declin");
  }

  lemma HashOfDeclinate()
    ensures Fnv("declinate") == 0xe20e47d2
  {
    hide Fnv, Mix;
    HashOfDeclin();
    NextHash("declin", 'a', 0xe42abec6, 0xd64a20e5, "declina");
    NextHash("declina", 't', 0xd64a20e5, 0xe7b14443, "declinat");
    NextHash("declinat", 'e', 0xe7b14443, 0xe20e47d2, "declinate");
  }

  lemma HashOfMa()
    ensures Fnv("ma") == 0x642e245b
  {
    hide Fnv, Mix;
    NoHash();
    NextHash("", 'm', 0x811c9dc5, 0xe80c2f78, "m");
    NextHash("m", 'a', 0xe80c2f78, 0x642e245b, "ma");
  }

  lemma HashOfMaca()
    ensures Fnv("maca") == 0xcd9fbeeb
  {
    hide Fnv, Mix;
    HashOfMa();
    NextHash("ma", 'c', 0x642e245b, 0xeca30428, "mac");
    NextHash("mac", 'a', 0xeca30428, 0xcd9fbeeb, "maca");
  }

  lemma HashOfMacall()
    ensures Fnv("macall") == 0x626018cb
  {
    hide Fnv, Mix;
    HashOfMaca();
    NextHash("maca", 'l', 0xcd9fbeeb, 0x3978ee85, "macal");
    NextHash("macal", 'l', 0x3978ee85, 0x626018cb, "macall");
  }

  lemma HashOfMacallums()
    ensures Fnv("macallums") == 0xe20e47d2
  {
    hide Fnv, Mix;
    HashOfMacall();
    NextHash("macall", 'u', 0x626018cb, 0x9b46f31a, "macallu");
    NextHash("macallu", 'm', 0x9b46f31a, 0xe7b14455, "macallum");
    NextHash("macallum", 's', 0xe7b14455, 0xe20e47d2, "macallums");
  }

  /** Two words of the language the string table takes for one. */
  lemma WordsThatClash()
    ensures Clash("declinate", "macallums") && Canon("declinate") == "declinate" && Canon("macallums") == "macallums"
  {
    hide Fnv;
    HashOfDeclinate();
    HashOfMacallums();
    assert "declinate"[0] != "macallums"[0];
  }

  /** For every pair of names, the two-globals script means its source if and only if the names do not clash. */
  lemma MeaningIffNoClash(h: Host, a: Ident, b: Ident, m: Literal, n: Literal)
    requires Interns(h) && Within(h, {a, b}) && Canon(a) == a && Canon(b) == b && a != b && m != n
    ensures
      var w := WorldOf(TwoGlobals(a, b, m, n));
      Output(EvalScript(h, w, 0, NOTHING)) == Output(EvalScript(h.Plain(), w, 0, NOTHING)) <==> !Clash(a, b)
  {
    hide EvalScript, Hash32, Canon, WorldOf, TwoGlobals;
    TwoGlobalsPrint(h, a, b, m, n);
    TwoGlobalsPrint(h.Plain(), a, b, m, n);
    FaithfulIffNoClash(h, {a, b});
    hide Interns, Within;
    PairClashes(a, b);
  }

  lemma PairClashes(a: string, b: string)
    requires a != b
    ensures NoClash({a, b}) <==> !Clash(a, b)
  {
    hide Hash32;
  }

  /** Some string of that length and hash. */
  ghost function Chosen(n: nat, hash: nat): string
    requires exists t: string :: |t| == n && Hash32(t) == hash
    ensures |Chosen(n, hash)| == n && Hash32(Chosen(n, hash)) == hash
  {
    var t: string :| |t| == n && Hash32(t) == hash;
    t
  }

  /** What stands for `s` when `a` was interned first of all. */
  ghost function StandIn(a: string, s: string): string {
    if |s| == |a| && Hash32(s) == Hash32(a) then a else Chosen(|s|, Hash32(s))
  }

  ghost function Starting(h: Host, a: string): Host {
    h.(intern := s => StandIn(a, s))
  }

  lemma StartingInterns(h: Host, a: string, b: string)
    requires Clash(a, b)
    ensures Interns(Starting(h, a)) && Within(Starting(h, a), {a, b})
  {
    hide Hash32;
  }

  /** `Var declinate = m`, `Var macallums = n`, `Print declinate` prints `n` on a machine that interned `declinate` first. */
  lemma DeclinateIsMacallums(h: Host, m: Literal, n: Literal)
    ensures
      var w := WorldOf(TwoGlobals("declinate", "macallums", m, n));
      var h1 := Starting(h, "declinate");
      Interns(h1) && Within(h1, {"declinate", "macallums"})
      && Output(EvalScript(h1, w, 0, NOTHING)) == [[Num(n)]] && Output(EvalScript(h1.Plain(), w, 0, NOTHING)) == [[Num(m)]]
  {
    hide EvalScript, Canon, WorldOf, TwoGlobals, Hash32;
    WordsThatClash();
    var h1 := Starting(h, "declinate");
    StartingInterns(h, "declinate", "macallums");
    TwoGlobalsPrint(h1, "declinate", "macallums", m, n);
    TwoGlobalsPrint(h1.Plain(), "declinate", "macallums", m, n);
  }
}
