/** What the growing code, the locals and the list of functions look like after each statement. */
module Statements {
  import opened Values
  import opened Bytecode
  import opened Syntax
  import opened Codegen
  import opened Pratt
  import opened Grammar
  import opened Scopes
  import opened Emission
  import Machine

  /** What the compiler of one function has produced so far, and every function finished before. */
  datatype Snap = Snap(code: seq<byte>, pool: Pool, locals: Locals, funs: Machine.Program)

  predicate Compiles(h: Host, s: Stmt, sc: Scope, a: Snap) {
    CodeStmt(h, s, sc, a.locals, a.pool).Some? && CodeFunctions(h, FunsOf(s)).Some?
  }

  /** Compiling `s` leads from `a` to `b`. */
  predicate StmtLeaves(h: Host, s: Stmt, sc: Scope, a: Snap, b: Snap) {
    Compiles(h, s, sc, a)
    && var g, fs := CodeStmt(h, s, sc, a.locals, a.pool).value, CodeFunctions(h, FunsOf(s)).value;
    b == Snap(a.code + g.code, g.pool, g.locals, a.funs + fs)
  }

  predicate AllCompile(h: Host, ss: seq<Stmt>, sc: Scope, a: Snap) {
    CodeBlock(h, ss, sc, a.locals, a.pool).Some? && CodeFunctions(h, FunsOfAll(ss)).Some?
  }

  predicate BlockLeaves(h: Host, ss: seq<Stmt>, sc: Scope, a: Snap, b: Snap) {
    AllCompile(h, ss, sc, a)
    && var g, fs := CodeBlock(h, ss, sc, a.locals, a.pool).value, CodeFunctions(h, FunsOfAll(ss)).value;
    b == Snap(a.code + g.code, g.pool, g.locals, a.funs + fs)
  }

  lemma UnfoldFunctions(h: Host, ds: seq<Decl>)
    requires ds != []
    ensures
      var f, fs := CodeFunction(h, ds[0]), CodeFunctions(h, ds[1..]);
      CodeFunctions(h, ds) == if f.None? || fs.None? then None else Some([f.value] + fs.value)
  {
    hide CodeFunction;
  }

  lemma {:induction false} FunctionsAppend(h: Host, ds: seq<Decl>, es: seq<Decl>)
    ensures CodeFunctions(h, ds + es).Some? == (CodeFunctions(h, ds).Some? && CodeFunctions(h, es).Some?)
    ensures CodeFunctions(h, ds + es).Some? ==>
      CodeFunctions(h, ds + es).value == CodeFunctions(h, ds).value + CodeFunctions(h, es).value
    decreases |ds|
  {
    hide CodeFunction;
    if ds == [] {
      assert ds + es == es;
    } else {
      var all := ds + es;
      assert all[0] == ds[0] && all[1..] == ds[1..] + es;
      FunctionsAppend(h, ds[1..], es);
      UnfoldFunctions(h, all);
      UnfoldFunctions(h, ds);
      hide CodeFunctions;
      var f := CodeFunction(h, ds[0]);
      var a, b := CodeFunctions(h, ds[1..]), CodeFunctions(h, es);
      if f.Some? && a.Some? && b.Some? { assert [f.value] + (a.value + b.value) == [f.value] + a.value + b.value; }
    }
  }

  lemma {:induction false} FunsAppend(ss: seq<Stmt>, more: seq<Stmt>)
    ensures FunsOfAll(ss + more) == FunsOfAll(ss) + FunsOfAll(more)
  {
    hide FunsOf;
    if ss == [] {
      assert ss + more == more;
    } else {
      assert (ss + more)[1..] == ss[1..] + more;
      FunsAppend(ss[1..], more);
    }
  }

  lemma {:induction false} BlockAppend(h: Host, ss: seq<Stmt>, more: seq<Stmt>, sc: Scope, locals: Locals, pool: Pool)
    ensures CodeBlock(h, ss, sc, locals, pool).None? ==> CodeBlock(h, ss + more, sc, locals, pool).None?
    ensures CodeBlock(h, ss, sc, locals, pool).Some? ==>
      var a := CodeBlock(h, ss, sc, locals, pool).value;
      var b := CodeBlock(h, more, sc, a.locals, a.pool);
      CodeBlock(h, ss + more, sc, locals, pool) == if b.None? then None else Some(Gen(a.code + b.value.code, b.value.pool, b.value.locals))
    decreases |ss|
  {
    hide CodeStmt;
    if ss == [] {
      assert ss + more == more;
      var b := CodeBlock(h, more, sc, locals, pool);
      if b.Some? { assert [] + b.value.code == b.value.code; }
    } else {
      assert (ss + more)[1..] == ss[1..] + more;
      var s := CodeStmt(h, ss[0], sc, locals, pool);
      if s.Some? {
        BlockAppend(h, ss[1..], more, sc, s.value.locals, s.value.pool);
        var a := CodeBlock(h, ss[1..], sc, s.value.locals, s.value.pool);
        if a.Some? {
          var b := CodeBlock(h, more, sc, a.value.locals, a.value.pool);
          if b.Some? { assert s.value.code + a.value.code + b.value.code == s.value.code + (a.value.code + b.value.code); }
        }
      }
    }
  }

  lemma OneStmt(h: Host, s: Stmt, sc: Scope, locals: Locals, pool: Pool)
    ensures CodeBlock(h, [s], sc, locals, pool) == CodeStmt(h, s, sc, locals, pool)
    ensures FunsOfAll([s]) == FunsOf(s)
  {
    hide CodeStmt, FunsOf;
    var a := CodeStmt(h, s, sc, locals, pool);
    if a.Some? { assert a.value.code + [] == a.value.code; }
    assert FunsOf(s) + [] == FunsOf(s);
  }

  lemma EmptyBlock(h: Host, sc: Scope, a: Snap)
    ensures BlockLeaves(h, [], sc, a, a)
  {
    assert a.code + [] == a.code && a.funs + [] == a.funs;
  }

  lemma NextStmt(h: Host, ss: seq<Stmt>, s: Stmt, sc: Scope, a: Snap, b: Snap, c: Snap)
    requires BlockLeaves(h, ss, sc, a, b)
    ensures AllCompile(h, ss + [s], sc, a) == Compiles(h, s, sc, b)
    ensures StmtLeaves(h, s, sc, b, c) ==> BlockLeaves(h, ss + [s], sc, a, c)
  {
    hide CodeBlock, CodeStmt, FunsOf, FunsOfAll, CodeFunctions;
    BlockAppend(h, ss, [s], sc, a.locals, a.pool);
    OneStmt(h, s, sc, b.locals, b.pool);
    FunsAppend(ss, [s]);
    FunctionsAppend(h, FunsOfAll(ss), FunsOf(s));
    if StmtLeaves(h, s, sc, b, c) {
      var g, r := CodeBlock(h, ss, sc, a.locals, a.pool).value, CodeStmt(h, s, sc, b.locals, b.pool).value;
      var fs, gs := CodeFunctions(h, FunsOfAll(ss)).value, CodeFunctions(h, FunsOf(s)).value;
      assert a.code + g.code + r.code == a.code + (g.code + r.code);
      assert a.funs + fs + gs == a.funs + (fs + gs);
    }
  }

  /** A list of declarations being parsed: `done` so far, with `ts` left; in an arm the first must be a keyword declaration. */
  function DeclsGo(done: seq<Stmt>, place: Place, ts: seq<Token>, c: Closer, line: nat, n: nat): Option<Parsed<seq<Stmt>>> {
    var ss :- if place.Plain? then ParseDecls(ts, c, line, n) else ParseArm(ts, c, line, n);
    Some(Parsed(done + ss.value, ss.rest, ss.line))
  }

  lemma DeclsStart(place: Place, ts: seq<Token>, c: Closer, line: nat, n: nat)
    ensures DeclsGo([], place, ts, c, line, n) == if place.Plain? then ParseDecls(ts, c, line, n) else ParseArm(ts, c, line, n)
  {
    hide ParseDecls, ParseArm;
    var r := if place.Plain? then ParseDecls(ts, c, line, n) else ParseArm(ts, c, line, n);
    if r.Some? { assert [] + r.value.value == r.value.value; }
  }

  lemma DeclsStop(done: seq<Stmt>, place: Place, ts: seq<Token>, c: Closer, line: nat, n: nat)
    requires Closes(c, Kind0(ts))
    ensures DeclsGo(done, place, ts, c, line, n) == Some(Parsed(done, ts, line))
  {
    hide Closes;
    assert done + [] == done;
  }

  lemma DeclsStep(done: seq<Stmt>, place: Place, ts: seq<Token>, c: Closer, line: nat, n: nat)
    requires !Closes(c, Kind0(ts)) && (place.Plain? || Keyword(Kind0(ts)))
    ensures
      var s := ParseDecl(ts, line, n);
      if s.None? then DeclsGo(done, place, ts, c, line, n).None?
      else
        DeclsGo(done, place, ts, c, line, n)
        == DeclsGo(done + [s.value.value], Plain, s.value.rest, c, s.value.line, n + |FunsOf(s.value.value)|)
  {
    hide ParseKeyword, ParseStmt, Closes, FunsOf;
    var s := ParseDecl(ts, line, n);
    if s.Some? {
      var more := ParseDecls(s.value.rest, c, s.value.line, n + |FunsOf(s.value.value)|);
      if more.Some? { assert done + ([s.value.value] + more.value.value) == done + [s.value.value] + more.value.value; }
    }
  }

  /** Where the original's statement would call itself, or return without having consumed a token. */
  lemma DeclsStuck(done: seq<Stmt>, place: Place, ts: seq<Token>, c: Closer, line: nat, n: nat)
    requires !Closes(c, Kind0(ts)) && !Keyword(Kind0(ts))
    requires place.Plain? ==> Kind0(ts).ElseWord? || Kind0(ts).EndIf?
    ensures DeclsGo(done, place, ts, c, line, n).None?
  {
    hide ParseStmt, ParsePrec;
    if place.Plain? {
      NotAStatement(ts, line, n);
      assert ParseDecl(ts, line, n).None?;
      hide ParseDecl, Closes;
      assert ParseDecls(ts, c, line, n).None?;
    } else {
      assert ParseKeyword(ts, n).None?;
      hide ParseKeyword, Closes;
      assert ParseArm(ts, c, line, n).None?;
    }
  }

  lemma NotAStatement(ts: seq<Token>, line: nat, n: nat)
    requires Kind0(ts).ElseWord? || Kind0(ts).EndIf?
    ensures ParseStmt(ts, Plain, line, n).None?
  {
    assert ParsePrec(ts, ASSIGNMENT).None?;
    hide ParsePrec;
    assert ParseOther(ts, Plain, line, n).None?;
  }

  /** What follows a list that does not compile cannot make it compile. */
  lemma BlockFails(h: Host, ss: seq<Stmt>, place: Place, ts: seq<Token>, c: Closer, line: nat, n: nat, sc: Scope, a: Snap)
    requires !AllCompile(h, ss, sc, a)
    ensures var r := DeclsGo(ss, place, ts, c, line, n); r.Some? ==> !AllCompile(h, r.value.value, sc, a)
  {
    hide CodeBlock, FunsOfAll, CodeFunctions, ParseDecls, ParseArm;
    var more := if place.Plain? then ParseDecls(ts, c, line, n) else ParseArm(ts, c, line, n);
    if more.Some? {
      BlockAppend(h, ss, more.value.value, sc, a.locals, a.pool);
      FunsAppend(ss, more.value.value);
      FunctionsAppend(h, FunsOfAll(ss), FunsOfAll(more.value.value));
    }
  }

  /** A statement that declares no function only adds its own code. */
  lemma PlainLeaves(h: Host, s: Stmt, sc: Scope, a: Snap)
    requires FunsOf(s) == []
    ensures Compiles(h, s, sc, a) == CodeStmt(h, s, sc, a.locals, a.pool).Some?
    ensures CodeStmt(h, s, sc, a.locals, a.pool).Some? ==>
      var g := CodeStmt(h, s, sc, a.locals, a.pool).value;
      StmtLeaves(h, s, sc, a, Snap(a.code + g.code, g.pool, g.locals, a.funs))
  {
    hide CodeStmt;
    assert a.funs + [] == a.funs;
  }

  lemma ExprStmtLeaves(h: Host, e: Expr, sc: Scope, a: Snap, code1: seq<byte>, pool1: Pool)
    ensures Compiles(h, ExprStmt(e), sc, a) == (CodeExpr(h, e, a.locals, a.pool).Some? && !Useless(e))
    ensures Leaves(h, e, a.locals, a.code, a.pool, code1, pool1) && !Useless(e) ==>
      StmtLeaves(h, ExprStmt(e), sc, a, Snap(code1 + Encode(Pop), pool1, a.locals, a.funs))
  {
    hide Encode, CodeExpr, Useless;
    PlainLeaves(h, ExprStmt(e), sc, a);
    var x := CodeExpr(h, e, a.locals, a.pool);
    if x.Some? { assert a.code + x.value.code + Encode(Pop) == a.code + (x.value.code + Encode(Pop)); }
  }

  lemma PrintLeaves(h: Host, es: seq<Expr>, sc: Scope, a: Snap, code1: seq<byte>, pool1: Pool)
    ensures Compiles(h, PrintStmt(es), sc, a) == (CodeExprs(h, es, a.locals, a.pool).Some? && |es| <= 32)
    ensures LeavesAll(h, es, a.locals, a.code, a.pool, code1, pool1) && |es| <= 32 ==>
      StmtLeaves(h, PrintStmt(es), sc, a, Snap(code1 + Encode(Print(|es|)), pool1, a.locals, a.funs))
  {
    hide Encode, CodeExprs;
    PlainLeaves(h, PrintStmt(es), sc, a);
    var x := CodeExprs(h, es, a.locals, a.pool);
    if x.Some? && |es| <= 32 {
      var print_ := Encode(Print(|es|));
      assert a.code + x.value.code + print_ == a.code + (x.value.code + print_);
    }
  }

  lemma ReturnLeaves(h: Host, e: Expr, sc: Scope, a: Snap, code1: seq<byte>, pool1: Pool)
    ensures Compiles(h, Return(e), sc, a) == (CodeExpr(h, e, a.locals, a.pool).Some? && !sc.script)
    ensures Leaves(h, e, a.locals, a.code, a.pool, code1, pool1) && !sc.script ==>
      StmtLeaves(h, Return(e), sc, a, Snap(code1 + Encode(Ret), pool1, a.locals, a.funs))
  {
    hide Encode, CodeExpr;
    PlainLeaves(h, Return(e), sc, a);
    var x := CodeExpr(h, e, a.locals, a.pool);
    if x.Some? { assert a.code + x.value.code + Encode(Ret) == a.code + (x.value.code + Encode(Ret)); }
  }

  lemma ReturnNullLeaves(h: Host, sc: Scope, a: Snap)
    ensures Compiles(h, ReturnNull, sc, a) == !sc.script
    ensures !sc.script ==>
      StmtLeaves(h, ReturnNull, sc, a, Snap(a.code + Encode(Nil) + Encode(Ret), a.pool, a.locals, a.funs))
  {
    hide Encode;
    PlainLeaves(h, ReturnNull, sc, a);
    assert a.code + Encode(Nil) + Encode(Ret) == a.code + (Encode(Nil) + Encode(Ret));
  }

  /** A global variable: its name is a constant before the initializer, its definition comes after. */
  lemma VarLeaves(h: Host, name: Ident, e: Expr, sc: Scope, a: Snap, c: Slot, code1: seq<byte>, pool1: Pool)
    requires sc.depth == 0 && AddConst(h, a.pool, Str(Key(h, name))) == Some(c)
    ensures Compiles(h, Var(name, e), sc, a) == CodeExpr(h, e, a.locals, c.pool).Some?
    ensures Leaves(h, e, a.locals, a.code, c.pool, code1, pool1) ==>
      StmtLeaves(h, Var(name, e), sc, a, Snap(code1 + Encode(Def(c.k)), pool1, a.locals, a.funs))
  {
    hide Encode, CodeExpr, AddConst, Key;
    PlainLeaves(h, Var(name, e), sc, a);
    var x := CodeExpr(h, e, a.locals, c.pool);
    if x.Some? { assert a.code + x.value.code + Encode(Def(c.k)) == a.code + (x.value.code + Encode(Def(c.k))); }
  }

  lemma LocalLeaves(h: Host, name: Ident, e: Expr, sc: Scope, a: Snap, ls: Locals, code1: seq<byte>, pool1: Pool)
    requires sc.depth > 0 && AddLocal(a.locals, sc.depth, name) == Some(ls)
    ensures Compiles(h, Var(name, e), sc, a) == CodeExpr(h, e, ls, a.pool).Some?
    ensures Leaves(h, e, ls, a.code, a.pool, code1, pool1) ==>
      StmtLeaves(h, Var(name, e), sc, a, Snap(code1, pool1, MarkLast(ls, sc.depth), a.funs))
  {
    hide CodeExpr;
    PlainLeaves(h, Var(name, e), sc, a);
  }

  /** A name that cannot be declared, or has no room in the pool. */
  lemma NameRefused(h: Host, s: Stmt, sc: Scope, a: Snap)
    requires s.Var? || s.FunDecl?
    requires if sc.depth == 0 then AddConst(h, a.pool, Str(Key(h, s.name))).None? else AddLocal(a.locals, sc.depth, s.name).None?
    ensures !Compiles(h, s, sc, a)
  {
    hide AddConst, AddLocal, Key, CodeFunctions;
  }

  lemma BlockCloses(h: Host, ss: seq<Stmt>, sc: Scope, a: Snap, b: Snap)
    ensures Compiles(h, Block(ss), sc, a) == AllCompile(h, ss, sc.(depth := sc.depth + 1), a)
    ensures BlockLeaves(h, ss, sc.(depth := sc.depth + 1), a, b) ==>
      var n := Above(b.locals, sc.depth);
      StmtLeaves(h, Block(ss), sc, a, Snap(b.code + Pops(n), b.pool, b.locals[..|b.locals| - n], b.funs))
  {
    hide CodeBlock, Pops, FunsOfAll, CodeFunctions;
    var x := CodeBlock(h, ss, sc.(depth := sc.depth + 1), a.locals, a.pool);
    if x.Some? {
      var n := Above(x.value.locals, sc.depth);
      assert a.code + x.value.code + Pops(n) == a.code + (x.value.code + Pops(n));
    }
  }

  /** The missing `Else`: an empty block, which adds nothing. */
  lemma NoElse(h: Host, sc: Scope, a: Snap)
    requires Settled(a.locals, sc.depth)
    ensures StmtLeaves(h, Block([]), sc, a, a)
  {
    EmptyBlock(h, sc.(depth := sc.depth + 1), a);
    BlockCloses(h, [], sc, a, a);
    assert Above(a.locals, sc.depth) == 0;
    assert a.code + Pops(0) == a.code && a.locals[..|a.locals| - 0] == a.locals;
  }

  /** The code of `If` once its first jump is patched and the second arm begins. */
  lemma FirstArm(code1: seq<byte>, t: seq<byte>, off: Offset)
    requires off == 4 + |t|
    ensures
      Patched(code1 + [21, 0, 0] + Encode(Pop) + t + [20, 0, 0], |code1| + 1, off)
      == code1 + Encode(Jmpf(off)) + Encode(Pop) + t + [20, 0, 0]
  {
    hide Encode, Patched;
    var tail := Encode(Pop) + t + [20, 0, 0];
    JumpBytes(off);
    assert code1 + [21, 0, 0] + Encode(Pop) + t + [20, 0, 0] == code1 + [21, 0, 0] + tail;
    PatchedJump(code1, 21, tail, off);
    assert code1 + (Encode(Jmpf(off)) + tail) == code1 + Encode(Jmpf(off)) + Encode(Pop) + t + [20, 0, 0];
  }

  /** Both jumps patched. */
  lemma BothArms(code0: seq<byte>, c: seq<byte>, jump: seq<byte>, t: seq<byte>, e: seq<byte>, off: Offset)
    requires off == 1 + |e|
    ensures
      var base := code0 + c + jump + Encode(Pop) + t;
      Patched(base + [20, 0, 0] + Encode(Pop) + e, |base| + 1, off)
      == code0 + (c + (jump + (Encode(Pop) + (t + (Encode(Jmp(off)) + (Encode(Pop) + e))))))
  {
    hide Encode, Patched;
    var base, tail := code0 + c + jump + Encode(Pop) + t, Encode(Pop) + e;
    JumpBytes(off);
    assert base + [20, 0, 0] + Encode(Pop) + e == base + [20, 0, 0] + tail;
    PatchedJump(base, 20, tail, off);
    Reassociated(code0, c, jump, Encode(Pop), t, Encode(Jmp(off)) + tail);
  }

  lemma Reassociated(a: seq<byte>, b: seq<byte>, c: seq<byte>, d: seq<byte>, e: seq<byte>, f: seq<byte>)
    ensures a + b + c + d + e + f == a + (b + (c + (d + (e + f))))
  {
  }

  /** The state in which the first arm, and in which the second one, is compiled. */
  function ThenStarts(code1: seq<byte>, pool1: Pool, a: Snap): Snap {
    Snap(code1 + [21, 0, 0] + Encode(Pop), pool1, a.locals, a.funs)
  }

  function ElseStarts(code1: seq<byte>, b: Snap, off: Offset): Snap
    requires |code1| + 3 <= |b.code|
  {
    Snap(Patched(b.code + [20, 0, 0], |code1| + 1, off) + Encode(Pop), b.pool, b.locals, b.funs)
  }

  /** A conditional whose parts are compiled: all that may still fail is the second jump. */
  lemma IfLeaves(h: Host, s: Stmt, sc: Scope, a: Snap, code1: seq<byte>, pool1: Pool, b: Snap, off: Offset, d: Snap)
    requires s.If? && Arm(s.thn) && Arm(s.els)
    requires Leaves(h, s.cond, a.locals, a.code, a.pool, code1, pool1)
    requires StmtLeaves(h, s.thn, sc, ThenStarts(code1, pool1, a), b) && |code1| + 3 <= |b.code| && off == |b.code| - |code1|
    requires b.locals == a.locals && StmtLeaves(h, s.els, sc, ElseStarts(code1, b, off), d)
    ensures
      var n := |d.code| - |b.code| - 3;
      n >= 0 && Compiles(h, s, sc, a) == (n < 0x1_0000)
      && (n < 0x1_0000 ==> StmtLeaves(h, s, sc, a, Snap(Patched(d.code, |b.code| + 1, n), d.pool, d.locals, d.funs)))
  {
    hide CodeStmt, CodeExpr, CodeFunctions, FunsOf, Encode, Patched, CodeIf;
    var c := CodeExpr(h, s.cond, a.locals, a.pool).value;
    var t := CodeStmt(h, s.thn, sc, a.locals, pool1).value;
    var e := CodeStmt(h, s.els, sc, b.locals, b.pool).value;
    FirstArm(code1, t.code, off);
    UnfoldIf(h, s, sc, a, c, t, e);
    IfFunctions(h, s);
    assert a.funs + CodeFunctions(h, FunsOf(s.thn)).value + CodeFunctions(h, FunsOf(s.els)).value
      == a.funs + (CodeFunctions(h, FunsOf(s.thn)).value + CodeFunctions(h, FunsOf(s.els)).value);
    var n := 1 + |e.code|;
    IfCode(c, t, e);
    if n < 0x1_0000 { BothArms(a.code, c.code, Encode(Jmpf(off)), t.code, e.code, n); }
  }

  lemma IfCode(c: Piece, t: Gen, e: Gen)
    ensures CodeIf(c, t, e).Some? == (4 + |t.code| < 0x1_0000 && 1 + |e.code| < 0x1_0000)
    ensures CodeIf(c, t, e).Some? ==> CodeIf(c, t, e).value == Gen(
      c.code + (Encode(Jmpf(4 + |t.code|)) + (Encode(Pop) + (t.code + (Encode(Jmp(1 + |e.code|)) + (Encode(Pop) + e.code))))),
      e.pool, e.locals)
  {
    hide Encode;
  }

  lemma IfFunctions(h: Host, s: Stmt)
    requires s.If?
    ensures CodeFunctions(h, FunsOf(s)).Some? == (CodeFunctions(h, FunsOf(s.thn)).Some? && CodeFunctions(h, FunsOf(s.els)).Some?)
    ensures CodeFunctions(h, FunsOf(s)).Some? ==>
      CodeFunctions(h, FunsOf(s)).value == CodeFunctions(h, FunsOf(s.thn)).value + CodeFunctions(h, FunsOf(s.els)).value
  {
    hide CodeFunctions;
    FunctionsAppend(h, FunsOf(s.thn), FunsOf(s.els));
  }

  lemma UnfoldIf(h: Host, s: Stmt, sc: Scope, a: Snap, c: Piece, t: Gen, e: Gen)
    requires s.If? && Arm(s.thn) && Arm(s.els)
    requires CodeExpr(h, s.cond, a.locals, a.pool) == Some(c) && CodeStmt(h, s.thn, sc, a.locals, c.pool) == Some(t)
    requires t.locals == a.locals && CodeStmt(h, s.els, sc, a.locals, t.pool) == Some(e)
    ensures CodeStmt(h, s, sc, a.locals, a.pool) == CodeIf(c, t, e)
  {
    hide CodeIf, CodeExpr;
  }

  /** A conditional fails with its condition, with either arm, and when the first jump is too long. */
  lemma CondFails(h: Host, s: Stmt, sc: Scope, a: Snap)
    requires s.If? && CodeExpr(h, s.cond, a.locals, a.pool).None?
    ensures !Compiles(h, s, sc, a)
  {
    hide CodeExpr, CodeFunctions, FunsOf;
  }

  lemma ThenFails(h: Host, s: Stmt, sc: Scope, a: Snap, code1: seq<byte>, pool1: Pool)
    requires s.If? && Leaves(h, s.cond, a.locals, a.code, a.pool, code1, pool1)
    requires !Compiles(h, s.thn, sc, ThenStarts(code1, pool1, a))
    ensures !Compiles(h, s, sc, a)
  {
    IfFunctions(h, s);
    hide CodeExpr, CodeFunctions, FunsOf, Encode;
  }

  lemma ThenTooLong(h: Host, s: Stmt, sc: Scope, a: Snap, code1: seq<byte>, pool1: Pool, b: Snap)
    requires s.If? && Leaves(h, s.cond, a.locals, a.code, a.pool, code1, pool1)
    requires StmtLeaves(h, s.thn, sc, ThenStarts(code1, pool1, a), b) && |b.code| - |code1| >= 0x1_0000
    ensures !Compiles(h, s, sc, a)
  {
    hide CodeExpr, CodeFunctions, FunsOf;
    var t := CodeStmt(h, s.thn, sc, a.locals, pool1).value;
    assert |b.code| == |code1| + 4 + |t.code|;
    hide StmtLeaves;
    var c := CodeExpr(h, s.cond, a.locals, a.pool).value;
    var e := CodeStmt(h, s.els, sc, a.locals, t.pool);
    if e.Some? { IfCode(c, t, e.value); }
    hide CodeIf;
  }

  lemma ElseFails(h: Host, s: Stmt, sc: Scope, a: Snap, code1: seq<byte>, pool1: Pool, b: Snap, off: Offset)
    requires s.If? && Leaves(h, s.cond, a.locals, a.code, a.pool, code1, pool1)
    requires StmtLeaves(h, s.thn, sc, ThenStarts(code1, pool1, a), b) && |code1| + 3 <= |b.code| && b.locals == a.locals
    requires !Compiles(h, s.els, sc, ElseStarts(code1, b, off))
    ensures !Compiles(h, s, sc, a)
  {
    IfFunctions(h, s);
    hide CodeExpr, CodeFunctions, FunsOf, Encode, Patched;
  }

  /** What follows the name of a function: parameters, body and the closing word. */
  function ParseFunction(ts: seq<Token>, n: nat): (r: Option<Parsed<Decl>>)
    ensures r.Some? ==> !r.value.value.script
  {
    var open :- Expect((), ts, LParen);
    var ps :- ParseParamList(open.rest);
    var body :- ParseDecls(ps.rest, ByEnd, ps.line, n);
    ExpectEnd(Decl(false, ps.value, body.value), body.rest, EndFunc)
  }

  lemma FuncParses(ts: seq<Token>, n: nat)
    requires Starts(ts, Func)
    ensures
      var id := ParseIdent(ts[1..]);
      if id.None? then ParseKeyword(ts, n).None?
      else
        var d := ParseFunction(id.value.rest, n);
        ParseKeyword(ts, n) ==
        if d.None? then None
        else Some(Parsed(FunDecl(id.value.value, n + |FunsOfAll(d.value.value.body)|, d.value.value.params, d.value.value.body),
          d.value.rest, d.value.line))
  {
    hide ParseDecls, ParseParamList, FunsOfAll;
  }

  lemma VarParses(ts: seq<Token>, n: nat)
    requires Starts(ts, VarWord)
    ensures
      var id := ParseIdent(ts[1..]);
      if id.None? then ParseKeyword(ts, n).None?
      else
        var e := ParseInit(id.value.rest, id.value.line);
        ParseKeyword(ts, n) ==
        if e.None? then None else Some(Parsed(Var(id.value.value, e.value.value), e.value.rest, e.value.line))
  {
    hide ParseInit;
  }

  lemma GlobalParses(ts: seq<Token>, n: nat)
    requires Starts(ts, GlobalWord)
    ensures
      var items := ParseItems(ts[1..]);
      ParseKeyword(ts, n) ==
      if items.None? then None else Some(Parsed(Globals(items.value.value), items.value.rest, items.value.line))
  {
    hide ParseItems;
  }

  /** A function object: the functions inside it come first, then itself. */
  predicate FunctionCompiles(h: Host, d: Decl) {
    CodeFunctions(h, FunsOfAll(d.body)).Some? && CodeFunction(h, d).Some?
  }

  function Finished(h: Host, d: Decl): Machine.Program
    requires FunctionCompiles(h, d)
  {
    CodeFunctions(h, FunsOfAll(d.body)).value + [CodeFunction(h, d).value]
  }

  lemma FunFunctions(h: Host, s: Stmt)
    requires s.FunDecl?
    ensures
      var d := Decl(false, s.params, s.body);
      CodeFunctions(h, FunsOf(s)).Some? == FunctionCompiles(h, d)
      && (FunctionCompiles(h, d) ==> CodeFunctions(h, FunsOf(s)).value == Finished(h, d))
  {
    hide CodeFunction, FunsOfAll, CodeFunctions;
    var d := Decl(false, s.params, s.body);
    FunctionsAppend(h, FunsOfAll(s.body), [d]);
    LastFunction(h, d);
  }

  lemma NoFunctions(h: Host)
    ensures CodeFunctions(h, []) == Some([])
  {
  }

  lemma LastFunction(h: Host, d: Decl)
    ensures CodeFunctions(h, [d]).Some? == CodeFunction(h, d).Some?
    ensures CodeFunction(h, d).Some? ==> CodeFunctions(h, [d]).value == [CodeFunction(h, d).value]
  {
    hide CodeFunction;
    UnfoldFunctions(h, [d]);
    assert [d][1..] == [];
    NoFunctions(h);
  }

  /** A nested function: what is inside it, itself, and the constant that denotes it. */
  predicate NestedCompiles(h: Host, d: Decl, a: Snap) {
    FunctionCompiles(h, d) && AddConst(h, a.pool, Fun(|a.funs| + |FunsOfAll(d.body)|)).Some?
  }

  function AfterNested(h: Host, d: Decl, a: Snap): (b: Snap)
    requires NestedCompiles(h, d, a)
    ensures b.locals == a.locals
  {
    var c := AddConst(h, a.pool, Fun(|a.funs| + |FunsOfAll(d.body)|)).value;
    Snap(a.code + Encode(Const(c.k)), c.pool, a.locals, a.funs + Finished(h, d))
  }

  lemma FunGlobalLeaves(h: Host, s: Stmt, sc: Scope, a: Snap, c: Slot)
    requires s.FunDecl? && sc.depth == 0 && s.site == |a.funs| + |FunsOfAll(s.body)|
    requires AddConst(h, a.pool, Str(Key(h, s.name))) == Some(c)
    ensures
      var d := Decl(false, s.params, s.body);
      var b := Snap(a.code, c.pool, a.locals, a.funs);
      Compiles(h, s, sc, a) == NestedCompiles(h, d, b)
      && (NestedCompiles(h, d, b) ==>
        var e := AfterNested(h, d, b);
        StmtLeaves(h, s, sc, a, Snap(e.code + Encode(Def(c.k)), e.pool, e.locals, e.funs)))
  {
    hide AddConst, Key, Encode, FunctionCompiles, Finished, CodeFunctions, FunsOf;
    FunFunctions(h, s);
    var k := AddConst(h, c.pool, Fun(s.site));
    if k.Some? {
      assert a.code + Encode(Const(k.value.k)) + Encode(Def(c.k)) == a.code + (Encode(Const(k.value.k)) + Encode(Def(c.k)));
    }
  }

  lemma FunLocalLeaves(h: Host, s: Stmt, sc: Scope, a: Snap, ls: Locals)
    requires s.FunDecl? && sc.depth > 0 && s.site == |a.funs| + |FunsOfAll(s.body)|
    requires AddLocal(a.locals, sc.depth, s.name) == Some(ls)
    ensures
      var d := Decl(false, s.params, s.body);
      var b := Snap(a.code, a.pool, MarkLast(ls, sc.depth), a.funs);
      Compiles(h, s, sc, a) == NestedCompiles(h, d, b) && (NestedCompiles(h, d, b) ==> StmtLeaves(h, s, sc, a, AfterNested(h, d, b)))
  {
    hide AddConst, Encode, FunctionCompiles, Finished, CodeFunctions, FunsOf;
    FunFunctions(h, s);
  }

  lemma NoKeyword(ts: seq<Token>, n: nat)
    requires !Keyword(Kind0(ts))
    ensures ParseKeyword(ts, n).None?
  {
  }

  /** Items of a `Global` declaration being parsed: `done` so far, with one more to come. */
  function ItemsGo(done: seq<Init>, ts: seq<Token>): Option<Parsed<seq<Init>>> {
    var more :- ParseItems(ts);
    Some(Parsed(done + more.value, more.rest, more.line))
  }

  lemma ItemsStart(ts: seq<Token>)
    ensures ItemsGo([], ts) == ParseItems(ts)
  {
    hide ParseItems;
    var r := ParseItems(ts);
    if r.Some? { assert [] + r.value.value == r.value.value; }
  }

  lemma ItemsStep(done: seq<Init>, ts: seq<Token>)
    ensures
      var id := ParseIdent(ts);
      var e := if id.None? then None else ParseInit(id.value.rest, id.value.line);
      if e.None? then ItemsGo(done, ts).None?
      else
        var items := done + [Init(id.value.value, e.value.value)];
        ItemsGo(done, ts) == if Starts(e.value.rest, Comma) then ItemsGo(items, e.value.rest[1..]) else Some(Parsed(items, e.value.rest, e.value.line))
  {
    hide ParseInit;
    var id := ParseIdent(ts);
    if id.Some? && ParseInit(id.value.rest, id.value.line).Some? {
      var e := ParseInit(id.value.rest, id.value.line).value;
      var it := Init(id.value.value, e.value);
      if Starts(e.rest, Comma) && ParseItems(e.rest[1..]).Some? {
        var more := ParseItems(e.rest[1..]).value.value;
        assert done + ([it] + more) == done + [it] + more;
      }
    }
  }

  predicate ItemsLeave(h: Host, items: seq<Init>, locals: Locals, code0: seq<byte>, pool0: Pool, code: seq<byte>, pool: Pool) {
    var r := CodeItems(h, items, locals, pool0);
    r.Some? && code == code0 + r.value.code && pool == r.value.pool
  }

  lemma {:induction false} ItemsAppend(h: Host, items: seq<Init>, more: seq<Init>, locals: Locals, pool: Pool)
    ensures CodeItems(h, items, locals, pool).None? ==> CodeItems(h, items + more, locals, pool).None?
    ensures CodeItems(h, items, locals, pool).Some? ==>
      var a := CodeItems(h, items, locals, pool).value;
      var b := CodeItems(h, more, locals, a.pool);
      CodeItems(h, items + more, locals, pool) == if b.None? then None else Some(Piece(a.code + b.value.code, b.value.pool))
    decreases |items|
  {
    hide CodeExpr, AddConst, Key, Encode;
    if items == [] {
      assert items + more == more;
      var b := CodeItems(h, more, locals, pool);
      if b.Some? { assert [] + b.value.code == b.value.code; }
    } else {
      var all := items + more;
      assert all[0] == items[0] && all[1..] == items[1..] + more;
      var c := AddConst(h, pool, Str(Key(h, items[0].name)));
      if c.Some? && CodeExpr(h, items[0].value, locals, c.value.pool).Some? {
        var v := CodeExpr(h, items[0].value, locals, c.value.pool).value;
        ItemsAppend(h, items[1..], more, locals, v.pool);
        var a := CodeItems(h, items[1..], locals, v.pool);
        if a.Some? {
          var b := CodeItems(h, more, locals, a.value.pool);
          var def := Encode(Def(c.value.k));
          if b.Some? { assert v.code + (def + a.value.code) + b.value.code == v.code + (def + (a.value.code + b.value.code)); }
        }
      }
    }
  }

  lemma OneItem(h: Host, it: Init, locals: Locals, pool: Pool)
    ensures
      var c := AddConst(h, pool, Str(Key(h, it.name)));
      var v := if c.None? then None else CodeExpr(h, it.value, locals, c.value.pool);
      CodeItems(h, [it], locals, pool) == if v.None? then None else Some(Piece(v.value.code + Encode(Def(c.value.k)), v.value.pool))
  {
    hide CodeExpr, AddConst, Key, Encode;
    assert [it][1..] == [];
    var c := AddConst(h, pool, Str(Key(h, it.name)));
    if c.Some? { assert Encode(Def(c.value.k)) + [] == Encode(Def(c.value.k)); }
  }

  lemma NextItem(h: Host, items: seq<Init>, it: Init, locals: Locals,
      code0: seq<byte>, pool0: Pool, code1: seq<byte>, pool1: Pool, code2: seq<byte>, pool2: Pool)
    requires ItemsLeave(h, items, locals, code0, pool0, code1, pool1)
    ensures
      var c := AddConst(h, pool1, Str(Key(h, it.name)));
      CodeItems(h, items + [it], locals, pool0).Some? == (c.Some? && CodeExpr(h, it.value, locals, c.value.pool).Some?)
      && (c.Some? && Leaves(h, it.value, locals, code1, c.value.pool, code2, pool2) ==>
        ItemsLeave(h, items + [it], locals, code0, pool0, code2 + Encode(Def(c.value.k)), pool2))
  {
    hide CodeExpr, AddConst, Key, Encode, CodeItems;
    ItemsAppend(h, items, [it], locals, pool0);
    OneItem(h, it, locals, pool1);
    var c := AddConst(h, pool1, Str(Key(h, it.name)));
    if c.Some? && CodeExpr(h, it.value, locals, c.value.pool).Some? {
      var v := CodeExpr(h, it.value, locals, c.value.pool).value;
      var l, def := CodeItems(h, items, locals, pool0).value, Encode(Def(c.value.k));
      assert code0 + l.code + v.code + def == code0 + (l.code + (v.code + def));
    }
  }

  lemma NoItems(h: Host, locals: Locals, code: seq<byte>, pool: Pool)
    ensures ItemsLeave(h, [], locals, code, pool, code, pool)
  {
  }

  lemma ItemsFail(h: Host, items: seq<Init>, ts: seq<Token>, locals: Locals, pool: Pool)
    requires CodeItems(h, items, locals, pool).None?
    ensures ItemsGo(items, ts).Some? ==> CodeItems(h, ItemsGo(items, ts).value.value, locals, pool).None?
  {
    hide CodeItems, ParseItems;
    if ParseItems(ts).Some? { ItemsAppend(h, items, ParseItems(ts).value.value, locals, pool); }
  }

  lemma GlobalLeaves(h: Host, items: seq<Init>, sc: Scope, a: Snap, code1: seq<byte>, pool1: Pool)
    ensures Compiles(h, Globals(items), sc, a) == (CodeItems(h, items, a.locals, a.pool).Some? && sc.depth == 0)
    ensures ItemsLeave(h, items, a.locals, a.code, a.pool, code1, pool1) && sc.depth == 0 ==>
      StmtLeaves(h, Globals(items), sc, a, Snap(code1, pool1, a.locals, a.funs))
  {
    hide CodeItems;
    PlainLeaves(h, Globals(items), sc, a);
  }

  /** Parameters being parsed. */
  function ParamsGo(done: seq<Ident>, ts: seq<Token>): Option<Parsed<seq<Ident>>> {
    var more :- ParseParams(ts);
    Some(Parsed(done + more.value, more.rest, more.line))
  }

  lemma ParamsStart(ts: seq<Token>)
    ensures ParamsGo([], ts) == ParseParams(ts)
  {
    hide ParseParams;
    var r := ParseParams(ts);
    if r.Some? { assert [] + r.value.value == r.value.value; }
  }

  lemma ParamsStep(done: seq<Ident>, ts: seq<Token>)
    ensures
      var id := ParseIdent(ts);
      if id.None? then ParamsGo(done, ts).None?
      else
        var ps := done + [id.value.value];
        ParamsGo(done, ts) == if Starts(id.value.rest, Comma) then ParamsGo(ps, id.value.rest[1..]) else Some(Parsed(ps, id.value.rest, id.value.line))
  {
    var id := ParseIdent(ts);
    if id.Some? && Starts(id.value.rest, Comma) && ParseParams(id.value.rest[1..]).Some? {
      var more := ParseParams(id.value.rest[1..]).value.value;
      assert done + ([id.value.value] + more) == done + [id.value.value] + more;
    }
  }

  lemma {:induction false} ParamsAppend(locals: Locals, ps: seq<Ident>, more: seq<Ident>)
    ensures
      var a := AddParams(locals, ps);
      AddParams(locals, ps + more) == if a.None? then None else AddParams(a.value, more)
    decreases |ps|
  {
    hide Taken;
    if ps == [] {
      assert ps + more == more;
    } else {
      var all := ps + more;
      assert all[0] == ps[0] && all[1..] == ps[1..] + more;
      var ls := AddLocal(locals, 1, ps[0]);
      if ls.Some? { ParamsAppend(MarkLast(ls.value, 1), ps[1..], more); }
    }
  }

  lemma NextParam(locals: Locals, ps: seq<Ident>, p: Ident)
    requires AddParams(locals, ps).Some?
    ensures
      var ls := AddLocal(AddParams(locals, ps).value, 1, p);
      AddParams(locals, ps + [p]) == if ls.None? then None else Some(MarkLast(ls.value, 1))
  {
    ParamsAppend(locals, ps, [p]);
    hide AddLocal;
    assert [p][1..] == [];
  }

  lemma ParamsFail(locals: Locals, ps: seq<Ident>, ts: seq<Token>)
    requires AddParams(locals, ps).None?
    ensures ParamsGo(ps, ts).Some? ==> AddParams(locals, ParamsGo(ps, ts).value.value).None?
  {
    hide ParseParams, AddParams;
    if ParseParams(ts).Some? { ParamsAppend(locals, ps, ParseParams(ts).value.value); }
  }

  lemma LeavesSettled(h: Host, s: Stmt, sc: Scope, a: Snap, b: Snap)
    requires Settled(a.locals, sc.depth) && StmtLeaves(h, s, sc, a, b)
    ensures Settled(b.locals, sc.depth) && (Arm(s) ==> b.locals == a.locals)
  {
    hide CodeStmt, FunsOf, CodeFunctions;
    StmtGrows(h, s, sc, a.locals, a.pool);
  }

  lemma ItemsDone(h: Host, items: seq<Init>, locals: Locals, code0: seq<byte>, pool0: Pool, code1: seq<byte>, pool1: Pool)
    requires ItemsLeave(h, items, locals, code0, pool0, code1, pool1)
    ensures CodeItems(h, items, locals, pool0).Some?
  {
    hide CodeItems;
  }

  /** An item that does not compile, whatever follows it. */
  lemma ItemFails(h: Host, items: seq<Init>, it: Init, ts: seq<Token>, locals: Locals, pool: Pool)
    requires CodeItems(h, items + [it], locals, pool).None?
    ensures
      var r := if Starts(ts, Comma) then ItemsGo(items + [it], ts[1..]) else None;
      r.Some? ==> CodeItems(h, r.value.value, locals, pool).None?
  {
    hide CodeItems, ItemsGo;
    if Starts(ts, Comma) { ItemsFail(h, items + [it], ts[1..], locals, pool); }
  }

  lemma ItemRefused(h: Host, items: seq<Init>, ts: seq<Token>, locals: Locals,
      code0: seq<byte>, pool0: Pool, code1: seq<byte>, pool1: Pool)
    requires ItemsLeave(h, items, locals, code0, pool0, code1, pool1)
    requires ParseIdent(ts).None? || AddConst(h, pool1, Str(Key(h, ParseIdent(ts).value.value))).None?
    ensures ItemsGo(items, ts).Some? ==> CodeItems(h, ItemsGo(items, ts).value.value, locals, pool0).None?
  {
    hide CodeItems, ItemsGo, ItemsLeave, ParseIdent, ParseInit, AddConst, CodeExpr;
    ItemsStep(items, ts);
    var id := ParseIdent(ts);
    if id.Some? && ParseInit(id.value.rest, id.value.line).Some? {
      var e := ParseInit(id.value.rest, id.value.line).value;
      NextItem(h, items, Init(id.value.value, e.value), locals, code0, pool0, code1, pool1, code1, pool1);
      ItemFails(h, items, Init(id.value.value, e.value), e.rest, locals, pool0);
    }
  }

  lemma FunsCount(h: Host, s: Stmt, sc: Scope, a: Snap, b: Snap)
    requires StmtLeaves(h, s, sc, a, b)
    ensures |b.funs| == |a.funs| + |FunsOf(s)|
  {
    hide CodeStmt, FunsOf;
  }

  lemma BlockDone(h: Host, ss: seq<Stmt>, sc: Scope, a: Snap, b: Snap)
    requires BlockLeaves(h, ss, sc, a, b)
    ensures AllCompile(h, ss, sc, a)
  {
    hide CodeBlock, CodeFunctions, FunsOfAll;
  }

  lemma SettledDeeper(locals: Locals, depth: nat)
    requires Settled(locals, depth)
    ensures Settled(locals, depth + 1)
  {
  }

  /** `statement` by its first token. */
  lemma StmtParses(ts: seq<Token>, place: Place, line: nat, n: nat)
    ensures Starts(ts, PrintWord) ==>
      var x := ParseExprs(ts[1..]);
      ParseStmt(ts, place, line, n) == if x.None? then None else Some(Parsed(PrintStmt(x.value.value), x.value.rest, x.value.line))
    ensures Starts(ts, IfWord) ==> ParseStmt(ts, place, line, n) == ParseIf(ts[1..], n)
    ensures Starts(ts, ReturnWord) ==> ParseStmt(ts, place, line, n) == ParseReturn(ts[1..], ts[0].line)
    ensures !Kind0(ts).PrintWord? && !Kind0(ts).IfWord? && !Kind0(ts).ReturnWord? && !Kind0(ts).LBrace? ==>
      ParseStmt(ts, place, line, n) == ParseOther(ts, place, line, n)
  {
    hide ParseExprs, ParseIf, ParseReturn, ParseDecls, ParseOther;
  }

  /** A function from its parts: the parameters as locals, then the body, then the implicit return of null. */
  lemma FunctionBuilt(h: Host, d: Decl, ls: Locals, funs: Machine.Program, b: Snap)
    requires !d.script && |d.params| <= 32 && AddParams([SelfLocal], d.params) == Some(ls)
    ensures FunctionCompiles(h, d) == AllCompile(h, d.body, Scope(1, false), Snap([], [], ls, funs))
    ensures BlockLeaves(h, d.body, Scope(1, false), Snap([], [], ls, funs), b) ==>
      FunctionCompiles(h, d) && b.funs == funs + CodeFunctions(h, FunsOfAll(d.body)).value
      && |b.funs| == |funs| + |FunsOfAll(d.body)|
      && CodeFunction(h, d) == Some(Machine.Function(|d.params|, b.code + Encode(Nil) + Encode(Ret), b.pool))
  {
    hide CodeBlock, CodeFunctions, FunsOfAll, Encode, AddParams;
    var x := CodeBlock(h, d.body, Scope(1, false), ls, []);
    if x.Some? { assert [] + x.value.code + Encode(Nil) + Encode(Ret) == x.value.code + (Encode(Nil) + Encode(Ret)); }
  }

  lemma ScriptBuilt(h: Host, ss: seq<Stmt>, b: Snap)
    ensures CodeProgram(h, ss).Some? == AllCompile(h, ss, Scope(0, true), Snap([], [], [SelfLocal], []))
    ensures BlockLeaves(h, ss, Scope(0, true), Snap([], [], [SelfLocal], []), b) ==>
      CodeProgram(h, ss) == Some(b.funs + [Machine.Function(0, b.code + Encode(Nil) + Encode(Ret), b.pool)])
  {
    hide CodeBlock, CodeFunctions, FunsOfAll, Encode;
    var d := Decl(true, [], ss);
    FunctionsAppend(h, FunsOfAll(ss), [d]);
    LastFunction(h, d);
    if CodeFunctions(h, FunsOfAll(ss)).Some? { assert [] + CodeFunctions(h, FunsOfAll(ss)).value == CodeFunctions(h, FunsOfAll(ss)).value; }
    var x := CodeBlock(h, ss, Scope(0, true), [SelfLocal], []);
    if x.Some? { assert [] + x.value.code + Encode(Nil) + Encode(Ret) == x.value.code + (Encode(Nil) + Encode(Ret)); }
  }

  lemma ParamsRefused(h: Host, d: Decl)
    requires !d.script && (AddParams([SelfLocal], d.params).None? || |d.params| > 32)
    ensures !FunctionCompiles(h, d)
  {
    hide AddParams, CodeBlock, CodeFunctions;
  }

  lemma FunctionParts(ts: seq<Token>, n: nat)
    ensures !Starts(ts, LParen) ==> ParseFunction(ts, n).None?
    ensures Starts(ts, LParen) ==>
      var ps := ParseParamList(ts[1..]);
      (ps.None? ==> ParseFunction(ts, n).None?)
      && (ps.Some? ==>
        ParseFunction(ts, n) ==
        var body := ParseDecls(ps.value.rest, ByEnd, ps.value.line, n);
        if body.None? then None else ExpectEnd(Decl(false, ps.value.value, body.value.value), body.value.rest, EndFunc))
    ensures ParseFunction(ts, n).Some? ==>
      Starts(ts, LParen) && !ParseFunction(ts, n).value.value.script
      && ParseParamList(ts[1..]).Some? && ParseFunction(ts, n).value.value.params == ParseParamList(ts[1..]).value.value
  {
    hide ParseParamList, ParseDecls;
  }

  lemma ParamsLonger(ps: seq<Ident>, ts: seq<Token>)
    ensures ParamsGo(ps, ts).Some? ==> |ParamsGo(ps, ts).value.value| >= |ps|
  {
    hide ParseParams;
  }

  /** `ifStatement` after `Then`. */
  function IfAfterThen(c: Expr, ts: seq<Token>, line: nat, n: nat): Option<Parsed<Stmt>> {
    var t :- ParseStmt(ts, AfterThen, line, n);
    IfRest(c, t.value, ts != [] && ts[0].line == line, t.rest, t.line, n + |FunsOf(t.value)|)
  }

  lemma AfterThenIs(c: Expr, ts: seq<Token>, line: nat, n: nat)
    ensures
      var t := ParseStmt(ts, AfterThen, line, n);
      IfAfterThen(c, ts, line, n) ==
      if t.None? then None
      else IfRest(c, t.value.value, ts != [] && ts[0].line == line, t.value.rest, t.value.line, n + |FunsOf(t.value.value)|)
  {
    hide ParseStmt, IfRest, FunsOf;
  }

  lemma IfParses(ts: seq<Token>, n: nat)
    ensures
      var c := ParsePrec(ts, ASSIGNMENT);
      ParseIf(ts, n) ==
      if c.None? || !Starts(c.value.rest, ThenWord) then None
      else IfAfterThen(c.value.value, c.value.rest[1..], c.value.rest[0].line, n)
  {
    hide ParsePrec, ParseStmt, ParseElse, FunsOf;
  }

  /** `ifStatement` after its first arm. */
  function IfRest(c: Expr, t: Stmt, inline: bool, ts: seq<Token>, line: nat, n: nat): Option<Parsed<Stmt>> {
    var e :- ParseElse(ts, line, n);
    if inline then Some(Parsed(If(c, t, e.value), e.rest, e.line))
    else ExpectEnd(If(c, t, e.value), e.rest, EndIf)
  }

  lemma IfRestParts(c: Expr, t: Stmt, inline: bool, ts: seq<Token>, line: nat, n: nat)
    requires IfRest(c, t, inline, ts, line, n).Some?
    ensures
      var s := IfRest(c, t, inline, ts, line, n).value.value;
      s.If? && s.cond == c && s.thn == t && ParseElse(ts, line, n).Some? && s.els == ParseElse(ts, line, n).value.value
  {
    hide ParseElse;
  }

  lemma IfParts(c: Expr, ts: seq<Token>, line: nat, n: nat)
    requires IfAfterThen(c, ts, line, n).Some?
    ensures
      var s := IfAfterThen(c, ts, line, n).value.value;
      var t := ParseStmt(ts, AfterThen, line, n);
      s.If? && s.cond == c && t.Some? && s.thn == t.value.value
  {
    hide ParseStmt, ParseElse, FunsOf, IfRest;
    var t := ParseStmt(ts, AfterThen, line, n).value;
    IfRestParts(c, t.value, ts != [] && ts[0].line == line, t.rest, t.line, n + |FunsOf(t.value)|);
  }

  lemma FirstArmFails(h: Host, c: Expr, ts: seq<Token>, line: nat, n: nat, sc: Scope, a: Snap, code1: seq<byte>, pool1: Pool)
    requires Leaves(h, c, a.locals, a.code, a.pool, code1, pool1)
    requires
      var t := ParseStmt(ts, AfterThen, line, n);
      t.Some? ==> !Compiles(h, t.value.value, sc, ThenStarts(code1, pool1, a))
    ensures var r := IfAfterThen(c, ts, line, n); r.Some? ==> !Compiles(h, r.value.value, sc, a)
  {
    hide ParseStmt, IfAfterThen, Leaves, Compiles, ThenStarts;
    var r := IfAfterThen(c, ts, line, n);
    if r.Some? {
      IfParts(c, ts, line, n);
      ThenFails(h, r.value.value, sc, a, code1, pool1);
    }
  }

  lemma NestedLeaves(h: Host, d: Decl, a: Snap, f: Machine.Function, c: Slot)
    requires FunctionCompiles(h, d) && CodeFunction(h, d) == Some(f)
    requires AddConst(h, a.pool, Fun(|a.funs| + |FunsOfAll(d.body)|)) == Some(c)
    ensures NestedCompiles(h, d, a)
    ensures AfterNested(h, d, a)
      == Snap(a.code + Encode(Const(c.k)), c.pool, a.locals, a.funs + CodeFunctions(h, FunsOfAll(d.body)).value + [f])
  {
    hide CodeFunction, CodeFunctions, FunsOfAll, AddConst, Encode;
    assert a.funs + CodeFunctions(h, FunsOfAll(d.body)).value + [f] == a.funs + (CodeFunctions(h, FunsOfAll(d.body)).value + [f]);
  }

  lemma LeavesCompile(h: Host, s: Stmt, sc: Scope, a: Snap, b: Snap)
    requires StmtLeaves(h, s, sc, a, b)
    ensures Compiles(h, s, sc, a)
  {
    hide CodeStmt, CodeFunctions, FunsOf;
  }

  lemma ThenGrew(h: Host, t: Stmt, sc: Scope, code1: seq<byte>, pool1: Pool, a: Snap, b: Snap)
    requires StmtLeaves(h, t, sc, ThenStarts(code1, pool1, a), b)
    ensures |b.code| >= |code1| + 4
  {
    hide CodeStmt, CodeFunctions, FunsOf;
  }

  lemma ScriptSettled(depth: nat)
    ensures Settled([SelfLocal], depth)
  {
  }

  lemma NoParams(locals: Locals)
    ensures AddParams(locals, []) == Some(locals)
  {
  }

  lemma ParamsSettled(ps: seq<Ident>)
    requires AddParams([SelfLocal], ps).Some?
    ensures Settled(AddParams([SelfLocal], ps).value, 1)
  {
    ParamsGrow([SelfLocal], ps);
  }

  /** A parameter that cannot be declared, or is one too many, whatever follows it. */
  lemma ParamFails(ps: seq<Ident>, p: Ident, ts: seq<Token>)
    requires AddParams([SelfLocal], ps).Some?
    ensures
      var r := if Starts(ts, Comma) then ParamsGo(ps + [p], ts[1..]) else Some(Parsed(ps + [p], ts, 0));
      r.Some? ==>
        |r.value.value| > |ps|
        && (AddParams([SelfLocal], ps + [p]).None? ==> AddParams([SelfLocal], r.value.value).None?)
  {
    hide ParamsGo, AddParams;
    if Starts(ts, Comma) {
      ParamsLonger(ps + [p], ts[1..]);
      if AddParams([SelfLocal], ps + [p]).None? { ParamsFail([SelfLocal], ps + [p], ts[1..]); }
    }
  }
}
