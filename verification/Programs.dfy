/** Whole programs: what compiling a script guarantees about every run of it. */
module Programs {
  import opened Values
  import opened Bytecode
  import opened Syntax
  import opened Codegen
  import opened Evaluator
  import opened Simulation
  import opened Verifier
  import opened CodeTyping
  import Machine
  import opened Pratt
  import opened Grammar

  /** Function declarations are numbered in the order their bodies end, from `n`. */
  predicate Sited(s: Stmt, n: nat)
    decreases s, 1
  {
    match s
    case If(_, t, e) => Sited(t, n) && Sited(e, n + |FunsOf(t)|)
    case Block(body) => SitedAll(body, n)
    case FunDecl(_, site, _, body) => SitedAll(body, n) && site == n + |FunsOfAll(body)|
    case _ => true
  }

  predicate SitedAll(ss: seq<Stmt>, n: nat)
    decreases ss, 0
  {
    ss == [] || (Sited(ss[0], n) && SitedAll(ss[1..], n + |FunsOf(ss[0])|))
  }

  /** The number of every declared function leads back to its declaration. */
  predicate Linked(s: Stmt, w: World)
    decreases s, 1
  {
    match s
    case If(_, t, e) => Linked(t, w) && Linked(e, w)
    case Block(body) => LinkedAll(body, w)
    case FunDecl(_, site, params, body) =>
      site < |w| && w[site] == Decl(false, params, body) && LinkedAll(body, w)
    case _ => true
  }

  predicate LinkedAll(ss: seq<Stmt>, w: World)
    decreases ss, 0
  {
    ss == [] || (Linked(ss[0], w) && LinkedAll(ss[1..], w))
  }

  /** `w` lists `ds` from position `n` on. */
  predicate Lists(w: World, n: nat, ds: seq<Decl>) {
    n + |ds| <= |w| && w[n..n + |ds|] == ds
  }

  lemma ListsSplit(w: World, n: nat, a: seq<Decl>, b: seq<Decl>)
    requires Lists(w, n, a + b)
    ensures Lists(w, n, a) && Lists(w, n + |a|, b)
  {
    assert w[n..n + |a|] == (a + b)[..|a|] == a;
    assert w[n + |a|..n + |a| + |b|] == (a + b)[|a|..] == b;
  }

  lemma {:induction false} SitedLinks(s: Stmt, n: nat, w: World)
    requires Sited(s, n) && Lists(w, n, FunsOf(s))
    ensures Linked(s, w)
    decreases s, 1
  {
    match s
    case If(_, t, e) =>
      ListsSplit(w, n, FunsOf(t), FunsOf(e));
      SitedLinks(t, n, w);
      SitedLinks(e, n + |FunsOf(t)|, w);
    case Block(body) => SitedAllLinks(body, n, w);
    case FunDecl(_, site, params, body) =>
      var d := Decl(false, params, body);
      ListsSplit(w, n, FunsOfAll(body), [d]);
      SitedAllLinks(body, n, w);
      assert w[site] == w[site..site + 1][0] == d;
    case _ =>
  }

  lemma {:induction false} SitedAllLinks(ss: seq<Stmt>, n: nat, w: World)
    requires SitedAll(ss, n) && Lists(w, n, FunsOfAll(ss))
    ensures LinkedAll(ss, w)
    decreases ss, 0
  {
    if ss != [] {
      ListsSplit(w, n, FunsOf(ss[0]), FunsOfAll(ss[1..]));
      SitedLinks(ss[0], n, w);
      SitedAllLinks(ss[1..], n + |FunsOf(ss[0])|, w);
    }
  }

  /** The bodies of the functions a phrase declares are linked and their map literals fit, if the phrase's are. */
  lemma {:induction false} FunsInherit(s: Stmt, w: World)
    requires Linked(s, w) && StmtFits(s)
    ensures forall i :: 0 <= i < |FunsOf(s)| ==> LinkedAll(FunsOf(s)[i].body, w) && BlockFits(FunsOf(s)[i].body)
    decreases s, 1
  {
    match s
    case If(_, t, e) => FunsInherit(t, w); FunsInherit(e, w);
    case Block(body) => FunsInheritAll(body, w);
    case FunDecl(_, _, _, body) => FunsInheritAll(body, w);
    case _ =>
  }

  lemma {:induction false} FunsInheritAll(ss: seq<Stmt>, w: World)
    requires LinkedAll(ss, w) && BlockFits(ss)
    ensures forall i :: 0 <= i < |FunsOfAll(ss)| ==> LinkedAll(FunsOfAll(ss)[i].body, w) && BlockFits(FunsOfAll(ss)[i].body)
    decreases ss, 0
  {
    if ss != [] {
      FunsInherit(ss[0], w);
      FunsInheritAll(ss[1..], w);
    }
  }

  /** A script whose functions are numbered in order and whose map literals fit their operand. */
  predicate Proper(body: seq<Stmt>) {
    SitedAll(body, 0) && BlockFits(body)
  }

  lemma WorldInherits(body: seq<Stmt>)
    requires Proper(body)
    ensures forall i :: 0 <= i < |WorldOf(body)| ==>
      LinkedAll(WorldOf(body)[i].body, WorldOf(body)) && BlockFits(WorldOf(body)[i].body)
  {
    var w := WorldOf(body);
    assert w[0..|FunsOfAll(body)|] == FunsOfAll(body);
    SitedAllLinks(body, 0, w);
    FunsInheritAll(body, w);
  }

  lemma ProgramCompiled(h: Host, body: seq<Stmt>)
    requires h.Sound() && Proper(body) && CodeProgram(h, body).Some?
    ensures Compiled(h, WorldOf(body), CodeProgram(h, body).value)
  {
    WorldInherits(body);
    FunctionsEach(h, WorldOf(body));
  }

  lemma ConstPools(h: Host, functions: nat)
    ensures forall pool: Pool, v: Value :: Constant(v) && !v.Fun? && AllOk(pool, functions, 0) && AddConst(h, pool, v).Some? ==>
      AllOk(AddConst(h, pool, v).value.pool, functions, 0)
  {
  }

  /** Expressions add no function to the pool of constants. */
  lemma {:induction false} ExprPool(h: Host, e: Expr, locals: Locals, pool: Pool, functions: nat)
    requires CodeExpr(h, e, locals, pool).Some? && AllOk(pool, functions, 0)
    ensures AllOk(CodeExpr(h, e, locals, pool).value.pool, functions, 0)
    decreases e, 1
  {
    hide Encode, Key, InfixCode, PrefixCode, AddConst;
    ConstPools(h, functions);
    match e
    case Assign(id, v) =>
      if Resolve(locals, id) >= 0 { ExprPool(h, v, locals, pool, functions); }
      else { ExprPool(h, v, locals, AddConst(h, pool, Str(Key(h, id))).value.pool, functions); }
    case Member(o, _) => ExprPool(h, o, locals, pool, functions);
    case SetMember(o, id, v) =>
      ExprPool(h, o, locals, pool, functions);
      ExprPool(h, v, locals, AddConst(h, CodeExpr(h, o, locals, pool).value.pool, Str(Key(h, id))).value.pool, functions);
    case Index(o, k) =>
      ExprPool(h, o, locals, pool, functions);
      ExprPool(h, k, locals, CodeExpr(h, o, locals, pool).value.pool, functions);
    case SetIndex(o, k, v) =>
      ExprPool(h, o, locals, pool, functions);
      ExprPool(h, k, locals, CodeExpr(h, o, locals, pool).value.pool, functions);
      var o' := CodeExpr(h, o, locals, pool).value;
      ExprPool(h, v, locals, CodeExpr(h, k, locals, o'.pool).value.pool, functions);
    case Prefix(_, x) => ExprPool(h, x, locals, pool, functions);
    case Infix(_, l, r) =>
      ExprPool(h, l, locals, pool, functions);
      ExprPool(h, r, locals, CodeExpr(h, l, locals, pool).value.pool, functions);
    case And(l, r) =>
      ExprPool(h, l, locals, pool, functions);
      ExprPool(h, r, locals, CodeExpr(h, l, locals, pool).value.pool, functions);
    case Or(l, r) =>
      ExprPool(h, l, locals, pool, functions);
      ExprPool(h, r, locals, CodeExpr(h, l, locals, pool).value.pool, functions);
    case Invoke(f, args) =>
      ExprPool(h, f, locals, pool, functions);
      ExprsPool(h, args, locals, CodeExpr(h, f, locals, pool).value.pool, functions);
    case MapLit(es) => ExprsPool(h, es, locals, pool, functions);
    case Group(x) => ExprPool(h, x, locals, pool, functions);
    case _ =>
  }

  lemma {:induction false} ExprsPool(h: Host, es: seq<Expr>, locals: Locals, pool: Pool, functions: nat)
    requires CodeExprs(h, es, locals, pool).Some? && AllOk(pool, functions, 0)
    ensures AllOk(CodeExprs(h, es, locals, pool).value.pool, functions, 0)
    decreases es, 0
  {
    if es != [] {
      ExprPool(h, es[0], locals, pool, functions);
      ExprsPool(h, es[1..], locals, CodeExpr(h, es[0], locals, pool).value.pool, functions);
    }
  }

  lemma {:induction false} ItemsPool(h: Host, items: seq<Init>, locals: Locals, pool: Pool, functions: nat)
    requires CodeItems(h, items, locals, pool).Some? && AllOk(pool, functions, 0)
    ensures AllOk(CodeItems(h, items, locals, pool).value.pool, functions, 0)
    decreases items, 0
  {
    if items != [] {
      var c := AddConst(h, pool, Str(Key(h, items[0].name))).value;
      ExprPool(h, items[0].value, locals, c.pool, functions);
      ItemsPool(h, items[1..], locals, CodeExpr(h, items[0].value, locals, c.pool).value.pool, functions);
    }
  }

  /** A statement adds only functions of the program to the pool. */
  lemma {:induction false} StmtPool(h: Host, s: Stmt, sc: Scope, locals: Locals, pool: Pool, w: World)
    requires CodeStmt(h, s, sc, locals, pool).Some? && AllOk(pool, |w|, 0) && Linked(s, w)
    ensures AllOk(CodeStmt(h, s, sc, locals, pool).value.pool, |w|, 0)
    decreases s, 1
  {
    hide Encode, Key, CodeExpr, CodeExprs, CodeItems, Useless, Taken, Pops, Above, LinkedAll, FindConst;
    match s
    case ExprStmt(e) => ExprPool(h, e, locals, pool, |w|);
    case PrintStmt(es) => ExprsPool(h, es, locals, pool, |w|);
    case If(c, t, e) =>
      ExprPool(h, c, locals, pool, |w|);
      var c' := CodeExpr(h, c, locals, pool).value;
      StmtPool(h, t, sc, locals, c'.pool, w);
      StmtPool(h, e, sc, locals, CodeStmt(h, t, sc, locals, c'.pool).value.pool, w);
    case Return(e) => ExprPool(h, e, locals, pool, |w|);
    case ReturnNull =>
    case Block(body) => BlockPool(h, body, sc.(depth := sc.depth + 1), locals, pool, w);
    case Var(name, init) =>
      if sc.depth == 0 { ExprPool(h, init, locals, AddConst(h, pool, Str(Key(h, name))).value.pool, |w|); }
      else { ExprPool(h, init, AddLocal(locals, sc.depth, name).value, pool, |w|); }
    case Globals(items) => ItemsPool(h, items, locals, pool, |w|);
    case FunDecl(_, _, _, _) =>
  }

  lemma {:induction false} BlockPool(h: Host, ss: seq<Stmt>, sc: Scope, locals: Locals, pool: Pool, w: World)
    requires CodeBlock(h, ss, sc, locals, pool).Some? && AllOk(pool, |w|, 0) && LinkedAll(ss, w)
    ensures AllOk(CodeBlock(h, ss, sc, locals, pool).value.pool, |w|, 0)
    decreases ss, 0
  {
    if ss != [] {
      hide CodeStmt, Linked;
      StmtPool(h, ss[0], sc, locals, pool, w);
      var x := CodeStmt(h, ss[0], sc, locals, pool).value;
      BlockPool(h, ss[1..], sc, x.locals, x.pool, w);
    }
  }

  lemma FunctionPool(h: Host, d: Decl, w: World)
    requires CodeFunction(h, d).Some? && LinkedAll(d.body, w)
    ensures AllOk(CodeFunction(h, d).value.consts, |w|, 0)
  {
    hide Encode, CodeBlock, LinkedAll;
    if d.script { BlockPool(h, d.body, Scope(0, true), [SelfLocal], [], w); }
    else { BlockPool(h, d.body, Scope(1, false), AddParams([SelfLocal], d.params).value, [], w); }
  }

  /** The depth no function of the script exceeds. */
  predicate Shallow(body: seq<Stmt>, bound: nat) {
    forall i :: 0 <= i < |WorldOf(body)| ==> PeakFunction(WorldOf(body)[i]) <= bound
  }

  lemma {:induction false} PeakOfAll(w: seq<Decl>) returns (bound: nat)
    ensures forall i :: 0 <= i < |w| ==> PeakFunction(w[i]) <= bound
  {
    if w == [] { bound := 0; }
    else {
      bound := PeakOfAll(w[1..]);
      bound := Max(bound, PeakFunction(w[0]));
      forall i | 0 <= i < |w| ensures PeakFunction(w[i]) <= bound { if i > 0 { assert w[i] == w[1..][i - 1]; } }
    }
  }

  /** Compiled functions are typed one by one. */
  lemma {:induction false} TypeFunctions(h: Host, w: World, p: Machine.Program, whole: World, bound: nat) returns (Ds: seq<Depths>)
    requires |w| == |p| && forall i :: 0 <= i < |w| ==> CodeFunction(h, w[i]) == Some(p[i])
    requires forall i :: 0 <= i < |w| ==> LinkedAll(w[i].body, whole) && BlockFits(w[i].body) && PeakFunction(w[i]) <= bound
    ensures |Ds| == |p| && (forall i :: 0 <= i < |p| ==> FunctionOk(p[i], Ds[i], |whole|)) && Bounded(Ds, bound)
  {
    hide CodeFunction, LinkedAll, BlockFits, PeakFunction, Typed;
    if w == [] {
      Ds := [];
    } else {
      var D := TypeFunction(h, w[0], bound);
      FunctionPool(h, w[0], whole);
      var rest := TypeFunctions(h, w[1..], p[1..], whole, bound);
      Ds := [D] + rest;
    }
  }

  /** Every compiled program is well typed, and no deeper than its source says. */
  lemma ProgramTyped(h: Host, body: seq<Stmt>, bound: nat) returns (Ds: seq<Depths>)
    requires Proper(body) && CodeProgram(h, body).Some? && Shallow(body, bound)
    ensures WellTyped(CodeProgram(h, body).value, Ds) && Bounded(Ds, bound)
  {
    hide CodeFunction, LinkedAll, BlockFits, PeakFunction, Typed;
    WorldInherits(body);
    var w := WorldOf(body);
    FunctionsEach(h, w);
    Ds := TypeFunctions(h, w, CodeProgram(h, body).value, w, bound);
  }

  /** `n` steps of a run. */
  function Steps(h: Host, p: Machine.Program, s: Machine.State, n: nat): Machine.Outcome
    decreases n
  {
    if n == 0 then Machine.Next(s)
    else
      match Machine.Step(h, p, s)
      case Next(s') => Steps(h, p, s', n - 1)
      case o => o
  }

  lemma {:induction false} StepsKeep(h: Host, p: Machine.Program, Ds: seq<Depths>, s: Machine.State, n: nat)
    requires WellTyped(p, Ds) && Inv(p, Ds, s)
    ensures Steps(h, p, s, n) != Machine.Crash
    ensures Steps(h, p, s, n).Next? ==> Inv(p, Ds, Steps(h, p, s, n).state)
    ensures Steps(h, p, s, n).Next? ==> Steps(h, p, s, n).state.frames[0].slots == s.frames[0].slots
    decreases n
  {
    hide WellTyped, Inv, Machine.Execute;
    if n > 0 {
      StepKeeps(h, p, Ds, s);
      if Machine.Step(h, p, s).Next? {
        var s' := Machine.Step(h, p, s).state;
        BottomStays(h, p, Ds, s);
        StepsKeep(h, p, Ds, s', n - 1);
      }
    }
  }

  /** The script's frame stays where it was pushed. */
  lemma BottomStays(h: Host, p: Machine.Program, Ds: seq<Depths>, s: Machine.State)
    requires WellTyped(p, Ds) && Inv(p, Ds, s) && Machine.Step(h, p, s).Next?
    ensures |s.frames| > 0 && |Machine.Step(h, p, s).state.frames| > 0
    ensures Machine.Step(h, p, s).state.frames[0].slots == s.frames[0].slots
  {
    StepKeeps(h, p, Ds, s);
    Machine.StepFrames(h, p, s);
    hide Machine.Step, WellTyped, StoreOk, AllOk;
    var s' := Machine.Step(h, p, s).state;
    var low := s.frames[..|s.frames| - 1];
    if |s.frames| > 1 { assert s'.frames[0] == low[0]; }
  }

  /**
   Safety over whole runs. However many instructions of a compiled script have run, the next
   state is defined, so there was no underflow, no operand out of range and no bad opcode;
   and if no function of the source is deeper than 256, the stack array was never overrun.
   */
  lemma CompiledScriptIsSafe(h: Host, body: seq<Stmt>, st: Store, n: nat)
    requires Proper(body) && CodeProgram(h, body).Some? && StoreOk(st, |WorldOf(body)|)
    ensures
      var p := CodeProgram(h, body).value;
      var o := Steps(h, p, Initial([], |p| - 1, st), n);
      o != Machine.Crash
      && (o.Next? && Shallow(body, UINT8_COUNT) ==> |o.state.stack| <= STACK_MAX)
  {
    hide CodeFunction, LinkedAll, BlockFits, PeakFunction, Typed, WellTyped, Inv, StoreOk, Proper, Shallow, Bounded;
    var p := CodeProgram(h, body).value;
    var Ds := ScriptStarts(h, body, st);
    StepsKeep(h, p, Ds, Initial([], |p| - 1, st), n);
    var o := Steps(h, p, Initial([], |p| - 1, st), n);
    if o.Next? && Shallow(body, UINT8_COUNT) { StackBound(p, Ds, o.state); }
  }

  /** A compiled script is typed, and starts in an invariant state. */
  lemma ScriptStarts(h: Host, body: seq<Stmt>, st: Store) returns (Ds: seq<Depths>)
    requires Proper(body) && CodeProgram(h, body).Some? && StoreOk(st, |WorldOf(body)|)
    ensures
      var p := CodeProgram(h, body).value;
      |Ds| == |p| && WellTyped(p, Ds) && Inv(p, Ds, Initial([], |p| - 1, st)) && (Shallow(body, UINT8_COUNT) ==> Bounded(Ds, UINT8_COUNT))
  {
    hide CodeFunction, LinkedAll, BlockFits, PeakFunction, Typed, WellTyped, Inv, StoreOk;
    var p := CodeProgram(h, body).value;
    var bound := PeakOfAll(WorldOf(body));
    Ds := ProgramTyped(h, body, if Shallow(body, UINT8_COUNT) then UINT8_COUNT else bound);
    FunctionsEach(h, WorldOf(body));
    assert CodeFunction(h, WorldOf(body)[|p| - 1]) == Some(p[|p| - 1]);
    ArityKept(h, WorldOf(body)[|p| - 1]);
    assert |Ds| == |p| by { TypedLength(p, Ds); }
    InitialInv(p, Ds, [], |p| - 1, st);
  }

  lemma TypedLength(p: Machine.Program, Ds: seq<Depths>)
    requires WellTyped(p, Ds)
    ensures |Ds| == |p|
  {
  }

  /** The outcome of a run that agrees with the evaluator's result. */
  function Expected(r: Result<Value>, base: seq<Value>): Machine.Final {
    match r
    case Ok(_, _, st) => Machine.Halted(base, st)
    case Err(e, st) => Machine.Failed(e, st)
    case Wrong => Machine.Crashed
  }

  /**
   The whole compiler. A script that compiles runs to the outcome of evaluating it with the
   same string table, errors included; the outcome is never a fault of the machine, and on
   success the stack is back at `base`.
   */
  lemma CompiledScriptRunsAsEvaluated(h: Host, body: seq<Stmt>, base: seq<Value>, st: Store)
    requires h.Sound() && Proper(body) && CodeProgram(h, body).Some?
    requires AllOk(base, |WorldOf(body)|, |st.heap|) && StoreOk(st, |WorldOf(body)|)
    ensures
      var w := WorldOf(body);
      var r := EvalScript(h, w, |w| - 1, st);
      !r.Wrong? && Machine.Run(h, CodeProgram(h, body).value, Initial(base, |w| - 1, st)) == Expected(r, base)
  {
    hide CodeFunction, LinkedAll, BlockFits, PeakFunction, Typed, WellTyped, Inv, StoreOk, Machine.Run, EvalScript, h.Sound;
    var p, w := CodeProgram(h, body).value, WorldOf(body);
    ProgramCompiled(h, body);
    FunctionsEach(h, w);
    CompilationPreservesMeaning(h, w, p, base, st);
    var bound := PeakOfAll(w);
    var Ds := ProgramTyped(h, body, bound);
    ArityKept(h, w[|w| - 1]);
    InitialInv(p, Ds, base, |p| - 1, st);
    RunsSafely(h, p, Ds, Initial(base, |p| - 1, st));
  }

  /** The parser numbers functions as they end. */
  lemma {:induction false} KeywordSited(ts: seq<Token>, n: nat)
    requires ParseKeyword(ts, n).Some?
    ensures Sited(ParseKeyword(ts, n).value.value, n)
    decreases |ts|, 0
  {
    if ts[0].kind.Func? {
      var ps := ParseParamList(ParseIdent(ts[1..]).value.rest[1..]).value;
      DeclsSited(ps.rest, ByEnd, ps.line, n);
    }
  }

  lemma SitedCons(s: Stmt, ss: seq<Stmt>, n: nat)
    requires Sited(s, n) && SitedAll(ss, n + |FunsOf(s)|)
    ensures SitedAll([s] + ss, n)
  {
    assert ([s] + ss)[1..] == ss;
  }

  lemma {:induction false} DeclsSited(ts: seq<Token>, c: Closer, line: nat, n: nat)
    requires ParseDecls(ts, c, line, n).Some?
    ensures SitedAll(ParseDecls(ts, c, line, n).value.value, n)
    decreases |ts|, 6
  {
    if Closes(c, Kind0(ts)) {
      hide ParseDecl, Sited;
    } else {
      hide ParseDecls, Sited, SitedAll, FunsOf, Closes, ParseDecl, ParseKeyword, ParseStmt;
      var s, more := UnfoldDecls(ts, c, line, n);
      DeclSited(ts, line, n);
      DeclsSited(s.rest, c, s.line, n + |FunsOf(s.value)|);
      SitedCons(s.value, more.value, n);
    }
  }

  lemma {:induction false} DeclSited(ts: seq<Token>, line: nat, n: nat)
    requires ParseDecl(ts, line, n).Some?
    ensures Sited(ParseDecl(ts, line, n).value.value, n)
    decreases |ts|, 5
  {
    hide Sited, ParseKeyword, ParseStmt;
    if Keyword(Kind0(ts)) { KeywordSited(ts, n); } else { StmtSited(ts, Plain, line, n); }
  }

  lemma {:induction false} ArmSited(ts: seq<Token>, c: Closer, line: nat, n: nat)
    requires ParseArm(ts, c, line, n).Some?
    ensures SitedAll(ParseArm(ts, c, line, n).value.value, n)
    decreases |ts|, 1
  {
    if Closes(c, Kind0(ts)) {
      hide ParseKeyword, Sited;
    } else {
      hide ParseDecls, ParseArm, Sited, SitedAll, FunsOf, Closes, ParseKeyword;
      var s, more := UnfoldArm(ts, c, line, n);
      KeywordSited(ts, n);
      DeclsSited(s.rest, c, s.line, n + |FunsOf(s.value)|);
      SitedCons(s.value, more.value, n);
    }
  }

  lemma {:induction false} StmtSited(ts: seq<Token>, place: Place, line: nat, n: nat)
    requires ParseStmt(ts, place, line, n).Some?
    ensures Sited(ParseStmt(ts, place, line, n).value.value, n)
    decreases |ts|, 4
  {
    hide ParseExprs, ParsePrec;
    match Kind0(ts)
    case PrintWord =>
    case IfWord => IfSited(ts[1..], n);
    case ReturnWord =>
    case LBrace => DeclsSited(ts[1..], ByBrace, ts[0].line, n);
    case _ =>
      if place.AfterElse? { ArmSited(ts, ByEndIf, line, n); }
      if place.AfterThen? { InlineSited(ts, line, n); }
  }

  lemma {:induction false} InlineSited(ts: seq<Token>, line: nat, n: nat)
    requires ParseInline(ts, line, n).Some?
    ensures SitedAll(ParseInline(ts, line, n).value.value, n)
    decreases |ts|, 2
  {
    hide Sited, ParseKeyword, ParseArm;
    if Kind0(ts) != Eof && ts[0].line == line {
      KeywordSited(ts, n);
      var s := ParseKeyword(ts, n).value.value;
      SitedCons(s, [], n);
      assert [s] + [] == [s];
    } else {
      ArmSited(ts, ByElse, line, n);
    }
  }

  lemma {:induction false} IfSited(ts: seq<Token>, n: nat)
    requires ParseIf(ts, n).Some?
    ensures Sited(ParseIf(ts, n).value.value, n)
    decreases |ts|, 5
  {
    hide ParsePrec, ParseStmt;
    var c := ParsePrec(ts, ASSIGNMENT).value;
    var rest, line := c.rest[1..], c.rest[0].line;
    StmtSited(rest, AfterThen, line, n);
    var t := ParseStmt(rest, AfterThen, line, n).value;
    var n' := n + |FunsOf(t.value)|;
    if Starts(t.rest, ElseWord) { StmtSited(t.rest[1..], AfterElse, t.rest[0].line, n'); }
    assert Sited(ParseElse(t.rest, t.line, n').value.value, n');
  }

  /** What is parsed from a file is a proper script as soon as its map literals are short enough. */
  lemma ParsedIsProper(ts: seq<Token>)
    requires ParseScript(ts).Some? && BlockFits(ParseScript(ts).value)
    ensures Proper(ParseScript(ts).value)
  {
    DeclsSited(ts, ByEof, 0, 0);
  }
}
