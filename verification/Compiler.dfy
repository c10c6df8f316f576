/**
 The single-pass compiler: one object whose methods consume tokens, append bytes and
 patch jump operands in place. Each method is proved to have the effect of parsing the
 tokens and then generating code for what was parsed.
 */
module Compiler {
  import opened Values
  import opened Bytecode
  import opened Syntax
  import opened Codegen
  import opened Pratt
  import opened PrattInverse
  import opened Grammar
  import opened PrattRules
  import opened Strictness
  import opened Emission
  import opened Scopes
  import opened Statements
  import Machine

  class Parser {
    const h: Host
    const toks: seq<Token>
    var pos: nat
    var code: seq<byte>
    var pool: Pool
    var locals: Locals
    var depth: nat
    var script: bool
    var funs: seq<Machine.Function>
    var subExprs: nat
    var hadCall: bool
    var hadAssign: bool

    predicate Valid()
      reads this`pos
    {
      pos <= |toks|
    }

    /** The tokens from the current one on. */
    function Rest(): (ts: seq<Token>)
      requires Valid()
      reads this`pos
      ensures |ts| == |toks| - pos
    {
      toks[pos..]
    }

    /** The line of the previous token. */
    function Line(): nat
      requires Valid()
      reads this`pos
    {
      if pos == 0 then 0 else toks[pos - 1].line
    }

    /** The kind of the current token. */
    function Next(): (k: Kind)
      requires Valid()
      reads this`pos
      ensures k == Kind0(Rest())
      ensures pos == |toks| ==> k.Eof?
    {
      if pos == |toks| then Eof else toks[pos].kind
    }

    /** The kind of the previous token. */
    function Prev(): Kind
      requires Valid()
      reads this`pos
    {
      if pos == 0 then Eof else toks[pos - 1].kind
    }

    /** `initCompiler` for a script. */
    constructor (h: Host, toks: seq<Token>)
      ensures Valid() && this.h == h && this.toks == toks
      ensures Rest() == toks && Line() == 0
      ensures code == [] && pool == [] && funs == [] && locals == [SelfLocal] && depth == 0 && script
    {
      this.h, this.toks := h, toks;
      pos, code, pool, locals, depth, script := 0, [], [], [SelfLocal], 0, true;
      funs, subExprs, hadCall, hadAssign := [], 0, false, false;
    }

    method Advance()
      requires Valid() && Rest() != []
      modifies `pos
      ensures Valid() && pos == old(pos) + 1
      ensures Rest() == old(Rest())[1..] && Line() == old(Rest())[0].line && Prev() == old(Next())
    {
      pos := pos + 1;
    }

    method Match(k: Kind) returns (found: bool)
      requires Valid()
      modifies `pos
      ensures Valid() && found == Starts(old(Rest()), k)
      ensures found ==> pos == old(pos) + 1 && Rest() == old(Rest())[1..] && Line() == old(Rest())[0].line && Prev() == k
      ensures !found ==> pos == old(pos)
    {
      found := pos < |toks| && toks[pos].kind == k;
      if found { Advance(); }
    }

    method Emit(i: Instr)
      modifies `code
      ensures code == old(code) + Encode(i)
    {
      code := code + Encode(i);
    }

    /** `emitJump`: the opcode and two bytes to be patched, whose position is returned. */
    method EmitJump(op: byte) returns (at: nat)
      modifies `code
      ensures code == old(code) + [op, 0, 0] && at == |old(code)| + 1
    {
      code := code + [op];
      code := code + [0, 0];
      at := |code| - 2;
    }

    /** `patchJump`: only the two placeholder bytes change, to the distance to the end of the code. */
    method PatchJump(at: nat) returns (ok: bool)
      requires at + 2 <= |code|
      modifies `code
      ensures ok == (|code| - at - 2 < 0x1_0000)
      ensures |code| == |old(code)|
      ensures ok ==> code == Patched(old(code), at, |code| - at - 2) && at + 2 + Short(code[at], code[at + 1]) == |code|
    {
      var jump := |code| - at - 2;
      if jump > 0xFFFF { return false; }
      code := code[at := jump / 256];
      code := code[at + 1 := jump % 256];
      ShortOfBytes(jump);
      ok := true;
    }

    /** `makeConstant` over `arr_add`: an equal constant is reused, a new one appended. */
    method MakeConstant(v: Value) returns (ok: bool, k: byte)
      requires Constant(v)
      modifies `pool
      ensures ok == AddConst(h, old(pool), v).Some?
      ensures ok ==> AddConst(h, old(pool), v) == Some(Slot(k, pool))
    {
      var i := 0;
      while i < |pool| && !ValEqual(h, pool[i], v)
        invariant i <= |pool|
        invariant FindConst(h, pool, v, 0) == FindConst(h, pool, v, i)
      {
        i := i + 1;
      }
      if i == |pool| { pool := pool + [v]; }
      if i > 255 { return false, 0; }
      return true, i;
    }

    /** `resolveLocal`: the innermost local of that name, or -1. */
    method ResolveLocal(name: string) returns (i: int)
      ensures i == Resolve(locals, name)
    {
      i := |locals| - 1;
      assert locals[..i + 1] == locals;
      while i >= 0 && locals[i].name != name
        invariant -1 <= i < |locals|
        invariant Resolve(locals, name) == Resolve(locals[..i + 1], name)
      {
        assert locals[..i + 1][..i] == locals[..i];
        i := i - 1;
      }
      if i >= 0 { assert locals[..i + 1][i] == locals[i]; }
    }

    /** Since `code0` and `pool0`, exactly the code and the constants of `e` were added. */
    predicate Coded(e: Expr, code0: seq<byte>, pool0: Pool)
      reads `code, `pool, `locals
    {
      Leaves(h, e, locals, code0, pool0, code, pool)
    }

    /** The parser stands where the parse `r` ends. */
    predicate Stands<T>(r: Parsed<T>)
      reads this`pos
    {
      Valid() && Rest() == r.rest && Line() == r.line
    }

    /** The flags `expressionStatement` looks at afterwards. */
    twostate predicate Flagged(count: int, call: bool, assign: bool)
      reads this
    {
      subExprs == old(subExprs) + count
      && hadCall == (old(hadCall) || call) && hadAssign == (old(hadAssign) || assign)
    }

    /** Whether `r` parses and the expression it stands for compiles. */
    predicate Good(r: Option<Parsed<Expr>>, pool0: Pool)
      reads `locals
    {
      r.Some? && CodeExpr(h, r.value.value, locals, pool0).Some?
    }

    /** What a method that should parse `r` does, when `count` expressions have been counted already. */
    twostate predicate Done(ok: bool, r: Option<Parsed<Expr>>, code0: seq<byte>, pool0: Pool, count: int)
      reads this
    {
      Valid() && ok == Good(r, pool0)
      && (ok ==>
        Coded(r.value.value, code0, pool0) && Stands(r.value) && PlaceOf(Prev()).Plain?
        && Flagged(Inner(r.value.value) - count, HadCall(r.value.value), HadAssign(r.value.value)))
    }

    /** `parsePrecedence`: parses, and leaves the code of, one expression. */
    method ParsePrecedence(p: nat) returns (ok: bool)
      requires Valid() && p >= ASSIGNMENT
      modifies `pos, `code, `pool, `subExprs, `hadCall, `hadAssign
      ensures Valid()
      ensures Done(ok, ParsePrec(old(Rest()), p), old(code), old(pool), -1)
      decreases |toks| - pos, 3, 0
    {
      hide CodeExpr, ParsePrec, ParsePrefix, ParseInfixes, ParseInfix, Inner, HadCall, HadAssign, Coded, Good, After;
      if pos == |toks| { NothingLeft(p, pool); return false; }
      ghost var ts, code0, pool0 := Rest(), code, pool;
      ok := PrefixRule(p <= ASSIGNMENT);
      if !ok { PrefixFails(ts, p, pool0); return; }
      subExprs := subExprs + 1;
      Prefixed(ts, p, pool0);
      ghost var e := ParsePrefix(ts, p <= ASSIGNMENT).value.value;
      ghost var e';
      ok, e' := InfixLoop(p, e, code0, pool0);
      if !ok { return; }
      Finished(ts, e', p, code0, pool0);
      if p <= ASSIGNMENT {
        var bad := Match(Equal);
        if bad { return false; }
      }
    }

    /** The loop of `parsePrecedence`: as long as the current token binds tightly enough and is on this line. */
    method InfixLoop(p: nat, ghost e0: Expr, ghost code0: seq<byte>, ghost pool0: Pool) returns (ok: bool, ghost e: Expr)
      requires Valid() && p >= ASSIGNMENT && Coded(e0, code0, pool0)
      requires (HadCall(e0) ==> hadCall) && (HadAssign(e0) ==> hadAssign) && PlaceOf(Prev()).Plain?
      modifies `pos, `code, `pool, `subExprs, `hadCall, `hadAssign
      ensures Valid() && (ok ==> pos >= old(pos))
      ensures !ok ==> !Good(After(ParseInfixes(e0, old(Rest()), old(Line()), p), p), pool0)
      ensures ok ==> ParseInfixes(e0, old(Rest()), old(Line()), p) == Some(Parsed(e, Rest(), Line()))
      ensures ok ==> Coded(e, code0, pool0) && PlaceOf(Prev()).Plain?
      ensures ok ==> Flagged(Inner(e) - Inner(e0), HadCall(e), HadAssign(e))
      ensures ok ==> (HadCall(e0) ==> HadCall(e)) && (HadAssign(e0) ==> HadAssign(e))
      decreases |toks| - pos, 2, 0
    {
      hide CodeExpr, ParsePrec, ParseInfixes, ParseInfix, Inner, HadCall, HadAssign, Coded, Good, After, PlaceOf;
      e := e0;
      while pos < |toks| && p <= Prec(toks[pos].kind) && toks[pos].line <= Line()
        invariant Valid() && pos >= old(pos)
        invariant ParseInfixes(e0, old(Rest()), old(Line()), p) == ParseInfixes(e, Rest(), Line(), p)
        invariant Coded(e, code0, pool0) && PlaceOf(Prev()).Plain?
        invariant Flagged(Inner(e) - Inner(e0), HadCall(e), HadAssign(e))
        invariant (HadCall(e0) ==> HadCall(e)) && (HadAssign(e0) ==> HadAssign(e))
        decreases |toks| - pos
      {
        ok, e := InfixTurn(p, e, code0, pool0);
        if !ok { return; }
      }
      LoopEnds(e, Rest(), Line(), p);
      return true, e;
    }

    /** One turn of the loop. */
    method InfixTurn(p: nat, ghost e: Expr, ghost code0: seq<byte>, ghost pool0: Pool) returns (ok: bool, ghost e': Expr)
      requires Valid() && p >= ASSIGNMENT && Continues(Rest(), Line(), p) && Coded(e, code0, pool0) && Noted(e)
      modifies `pos, `code, `pool, `subExprs, `hadCall, `hadAssign
      ensures Valid() && (ok ==> pos > old(pos))
      ensures !ok ==> !Good(After(ParseInfixes(e, old(Rest()), old(Line()), p), p), pool0)
      ensures ok ==> ParseInfixes(e, old(Rest()), old(Line()), p) == ParseInfixes(e', Rest(), Line(), p)
      ensures ok ==> Coded(e', code0, pool0) && PlaceOf(Prev()).Plain?
      ensures ok ==> Flagged(Inner(e') - Inner(e), HadCall(e'), HadAssign(e'))
      ensures ok ==> (HadCall(e) ==> HadCall(e')) && (HadAssign(e) ==> HadAssign(e'))
      decreases |toks| - pos, 1, 1
    {
      hide CodeExpr, ParsePrec, ParseInfixes, ParseInfix, Inner, HadCall, HadAssign, Coded, Good, After, PlaceOf;
      if toks[pos].kind.LParen? { hadCall := true; }
      ghost var before, line := Rest(), Line();
      ok := InfixRule(p <= ASSIGNMENT, e, code0, pool0);
      if !ok { InfixFails(e, before, line, p, pool0); return false, e; }
      e' := InfixTurns(e, before, line, p, pool0);
    }

    lemma NothingLeft(p: nat, pool0: Pool)
      requires p >= ASSIGNMENT
      ensures !Good(ParsePrec([], p), pool0)
    {
    }

    lemma Prefixed(ts: seq<Token>, p: nat, pool0: Pool)
      requires ts != [] && p >= ASSIGNMENT && Good(ParsePrefix(ts, p <= ASSIGNMENT), pool0)
      ensures ParsePrefix(ts, p <= ASSIGNMENT).Some?
      ensures
        var r := ParsePrefix(ts, p <= ASSIGNMENT).value;
        ParsePrec(ts, p) == After(ParseInfixes(r.value, r.rest, r.line, p), p)
    {
      hide ParsePrefix, ParseInfixes, CodeExpr;
      var r := ParsePrefix(ts, p <= ASSIGNMENT).value;
      FromPrefix(r.value, ts, p, r.line, r.rest);
    }

    /** When the loop is over, the parse succeeds unless an assignment to `e` follows. */
    lemma Finished(ts: seq<Token>, e: Expr, p: nat, code0: seq<byte>, pool0: Pool)
      requires Valid() && p >= ASSIGNMENT && Coded(e, code0, pool0)
      requires ParsePrec(ts, p) == After(Some(Parsed(e, Rest(), Line())), p)
      ensures Good(ParsePrec(ts, p), pool0) == !(p <= ASSIGNMENT && Starts(Rest(), Equal))
      ensures Good(ParsePrec(ts, p), pool0) ==> ParsePrec(ts, p) == Some(Parsed(e, Rest(), Line()))
    {
      hide ParsePrec, CodeExpr;
    }

    /** A prefix that fails makes the whole expression fail. */
    lemma PrefixFails(ts: seq<Token>, p: nat, pool0: Pool)
      requires ts != [] && p >= ASSIGNMENT && !Good(ParsePrefix(ts, p <= ASSIGNMENT), pool0)
      ensures !Good(ParsePrec(ts, p), pool0)
    {
      hide ParsePrefix, ParseInfixes, CodeExpr;
      var r := ParsePrefix(ts, p <= ASSIGNMENT);
      if r.Some? { InfixesStrict(h, r.value.value, r.value.rest, r.value.line, p, locals, pool0); }
    }

    /** An infix rule that fails makes the rest of the loop fail. */
    lemma InfixFails(e: Expr, ts: seq<Token>, line: nat, p: nat, pool0: Pool)
      requires p >= ASSIGNMENT && Continues(ts, line, p) && !Good(ParseInfix(e, ts, p <= ASSIGNMENT), pool0)
      ensures !Good(After(ParseInfixes(e, ts, line, p), p), pool0)
    {
      hide ParseInfix, CodeExpr;
      var r := ParseInfix(e, ts, p <= ASSIGNMENT);
      if r.Some? { InfixesStrict(h, r.value.value, r.value.rest, r.value.line, p, locals, pool0); }
    }

    lemma InfixTurns(e: Expr, ts: seq<Token>, line: nat, p: nat, pool0: Pool) returns (e': Expr)
      requires p >= ASSIGNMENT && Continues(ts, line, p) && Good(ParseInfix(e, ts, p <= ASSIGNMENT), pool0)
      ensures ParseInfix(e, ts, p <= ASSIGNMENT).Some? && e' == ParseInfix(e, ts, p <= ASSIGNMENT).value.value
      ensures
        var a := ParseInfix(e, ts, p <= ASSIGNMENT).value;
        ParseInfixes(e, ts, line, p) == ParseInfixes(a.value, a.rest, a.line, p)
      ensures (HadCall(e) ==> HadCall(e')) && (HadAssign(e) ==> HadAssign(e')) && (ts[0].kind.LParen? ==> HadCall(e'))
    {
      hide ParseInfix, CodeExpr;
      InfixFlags(e, ts, p <= ASSIGNMENT);
      e' := ParseInfix(e, ts, p <= ASSIGNMENT).value.value;
    }

    lemma LoopEnds(e: Expr, ts: seq<Token>, line: nat, p: nat)
      requires p >= ASSIGNMENT && !Continues(ts, line, p)
      ensures ParseInfixes(e, ts, line, p) == Some(Parsed(e, ts, line))
    {
      hide ParseInfix;
    }

    method Expression() returns (ok: bool)
      requires Valid()
      modifies `pos, `code, `pool, `subExprs, `hadCall, `hadAssign
      ensures Valid()
      ensures Done(ok, ParsePrec(old(Rest()), ASSIGNMENT), old(code), old(pool), -1)
      decreases |toks| - pos, 4, 0
    {
      ok := ParsePrecedence(ASSIGNMENT);
    }

    /** What a method that should parse the list `r` does. */
    twostate predicate DoneAll(ok: bool, n: nat, r: Option<Parsed<seq<Expr>>>, code0: seq<byte>, pool0: Pool)
      reads this
    {
      Valid() && ok == (r.Some? && CodeExprs(h, r.value.value, locals, pool0).Some?)
      && (ok ==>
        LeavesAll(h, r.value.value, locals, code0, pool0, code, pool) && Stands(r.value) && PlaceOf(Prev()).Plain? && n == |r.value.value|
        && Flagged(InnerAll(r.value.value), HadCallAny(r.value.value), HadAssignAny(r.value.value)))
    }

    /** A possibly empty list and its closing token; returns how many expressions there are. */
    method List(close: Kind) returns (ok: bool, n: nat)
      requires Valid() && PlaceOf(close).Plain?
      modifies `pos, `code, `pool, `subExprs, `hadCall, `hadAssign
      ensures DoneAll(ok, n, ParseList(old(Rest()), old(Line()), close), old(code), old(pool))
      decreases |toks| - pos, 6, 0
    {
      hide Rest, Line, Prev, ParseExprs, CodeExpr, CodeExprs, LeavesAll, Leaves, InnerAll, HadCallAny, HadAssignAny;
      var empty := Match(close);
      NothingLeaves(h, locals, code, pool);
      if empty {
        ListLeaves(h, [], locals, code, pool, code, pool);
        return true, 0;
      }
      ok, n := Expressions();
      if ok { ok := Match(close); }
    }

    /** Expressions separated by commas. */
    method Expressions() returns (ok: bool, n: nat)
      requires Valid()
      modifies `pos, `code, `pool, `subExprs, `hadCall, `hadAssign
      ensures DoneAll(ok, n, ParseExprs(old(Rest())), old(code), old(pool))
      decreases |toks| - pos, 5, 0
    {
      hide Rest, Line, Prev, ParseExprs, ParsePrec, CodeExpr, CodeExprs, Leaves, LeavesAll, Inner, InnerAll, HadCall, HadAssign, HadCallAny, HadAssignAny, ListTail, ListGo;
      ghost var ts, code0, pool0 := Rest(), code, pool;
      ghost var es: seq<Expr> := [];
      ListStart(ts);
      NothingLeaves(h, locals, code0, pool0);
      n := 0;
      var more := true;
      while more
        invariant Valid() && pos >= old(pos) && (!more ==> pos > old(pos))
        invariant ParseExprs(ts) == if more then ListGo(es, Rest()) else Some(Parsed(es, Rest(), Line()))
        invariant n == |es| && (!more ==> PlaceOf(Prev()).Plain?)
        invariant LeavesAll(h, es, locals, code0, pool0, code, pool)
        invariant Flagged(InnerAll(es), HadCallAny(es), HadAssignAny(es))
        decreases more, |toks| - pos
      {
        ghost var code1, pool1 := code, pool;
        ghost var x := ParsePrec(Rest(), ASSIGNMENT);
        ListGoes(es, Rest());
        ok := Expression();
        if x.Some? { NextLeaves(h, es, x.value.value, locals, code0, pool0, code1, pool1, code, pool); }
        if !ok {
          if x.Some? { ListFails(h, es + [x.value.value], x.value.rest, x.value.line, locals, pool0); }
          return false, 0;
        }
        InnerAllAppend(es, x.value.value);
        es := es + [x.value.value];
        ListNext(es, Rest(), Line());
        n := n + 1;
        more := Match(Comma);
      }
      ListLeaves(h, es, locals, code0, pool0, code, pool);
      ok := true;
    }

    /** The prefix column of `rules`. */
    method PrefixRule(canAssign: bool) returns (ok: bool)
      requires Valid() && Rest() != []
      modifies `pos, `code, `pool, `subExprs, `hadCall, `hadAssign
      ensures Done(ok, ParsePrefix(old(Rest()), canAssign), old(code), old(pool), 0)
      decreases |toks| - pos, 1, 0
    {
      hide Rest, Line, Prev, ParsePrefix, ParsePrec, CodeExpr, Leaves, Inner, HadCall, HadAssign, Stands, Coded, Flagged, LiteralOf, PrefixOf;
      var k := Next();
      if LiteralOf(k).Some? { ok := LiteralRule(canAssign); }
      else if PrefixOf(k).Some? { ok := UnaryRule(canAssign); }
      else if k.LParen? { ok := GroupingRule(canAssign); }
      else if k.LBracket? { ok := MapRule(canAssign); }
      else if k.Identifier? { ok := VariableRule(canAssign); }
      else {
        NoPrefix(Rest(), canAssign);
        ok := false;
      }
    }

    /** The infix column of `rules`. */
    method InfixRule(canAssign: bool, ghost e: Expr, ghost code0: seq<byte>, ghost pool0: Pool) returns (ok: bool)
      requires Valid() && Rest() != [] && Prec(Next()) > NONE && (Next().LParen? ==> hadCall)
      requires Coded(e, code0, pool0) && Noted(e)
      modifies `pos, `code, `pool, `subExprs, `hadCall, `hadAssign
      ensures Done(ok, ParseInfix(e, old(Rest()), canAssign), code0, pool0, Inner(e))
      decreases |toks| - pos, 1, 0
    {
      hide Rest, Line, Prev, ParseInfix, ParsePrec, CodeExpr, Leaves, Inner, HadCall, HadAssign, Done, InfixOf, Coded;
      var k := Next();
      if InfixOf(k).Some? { ok := BinaryRule(canAssign, e, code0, pool0); }
      else if k.AndWord? { ok := AndRule(canAssign, e, code0, pool0); }
      else if k.OrWord? { ok := OrRule(canAssign, e, code0, pool0); }
      else if k.LParen? { ok := CallRule(canAssign, e, code0, pool0); }
      else if k.Dot? { ok := DotRule(canAssign, e, code0, pool0); }
      else {
        OneInfix(k);
        ok := IndexRule(canAssign, e, code0, pool0);
      }
    }

    /** `literal`, `number` and `string`. */
    method LiteralRule(ghost canAssign: bool) returns (ok: bool)
      requires Valid() && Rest() != [] && LiteralOf(Next()).Some?
      modifies `pos, `code, `pool
      ensures Done(ok, ParsePrefix(old(Rest()), canAssign), old(code), old(pool), 0)
    {
      hide Rest, Line, Prev, ParsePrefix, Encode, AddConst;
      LiteralParses(Rest(), canAssign);
      var k := Next();
      Advance();
      match k
      case Number(n) => ok := EmitConstant(Num(n));
      case StringTok(s) => ok := EmitConstant(Str(h.intern(s)));
      case NullWord => Emit(Nil); ok := true;
      case TrueWord => Emit(True); ok := true;
      case FalseWord => Emit(False); ok := true;
      case Func => Emit(Ld(0)); ok := true;
      case _ => ok := false;
    }

    method EmitConstant(v: Value) returns (ok: bool)
      requires Constant(v)
      modifies `code, `pool
      ensures ok == CodeConst(h, old(pool), v).Some?
      ensures ok ==> CodeConst(h, old(pool), v).value.pool == pool && code == old(code) + CodeConst(h, old(pool), v).value.code
    {
      hide Encode, AddConst;
      var k;
      ok, k := MakeConstant(v);
      if ok { Emit(Const(k)); }
    }

    /** `unary`. */
    method UnaryRule(ghost canAssign: bool) returns (ok: bool)
      requires Valid() && Rest() != [] && PrefixOf(Next()).Some?
      modifies `pos, `code, `pool, `subExprs, `hadCall, `hadAssign
      ensures Done(ok, ParsePrefix(old(Rest()), canAssign), old(code), old(pool), 0)
      decreases |toks| - pos, 0, 0
    {
      hide Rest, Line, Prev, ParsePrefix, ParsePrec, CodeExpr, Leaves, Inner, HadCall, HadAssign, Encode, PrefixOf;
      UnaryParses(Rest(), canAssign);
      var op := PrefixOf(Next()).value;
      Advance();
      ghost var code0, pool0 := code, pool;
      ghost var x := ParsePrec(Rest(), UNARY);
      ok := ParsePrecedence(UNARY);
      if x.Some? {
        PrefixEnds(h, op, x.value.value, locals, code0, pool0, code, pool);
        MoreFlagsOf(Prefix(op, x.value.value));
      }
      if ok { Emit(Unary(if op == Dash then Neg else Not)); }
    }

    /** `grouping`. */
    method GroupingRule(ghost canAssign: bool) returns (ok: bool)
      requires Valid() && Next().LParen?
      modifies `pos, `code, `pool, `subExprs, `hadCall, `hadAssign
      ensures Done(ok, ParsePrefix(old(Rest()), canAssign), old(code), old(pool), 0)
      decreases |toks| - pos, 0, 0
    {
      hide Rest, Line, Prev, ParsePrefix, ParsePrec, CodeExpr, Leaves, Inner, HadCall, HadAssign;
      GroupingParses(Rest(), canAssign);
      Advance();
      ghost var code0, pool0 := code, pool;
      ghost var x := ParsePrec(Rest(), ASSIGNMENT);
      ok := Expression();
      if x.Some? {
        GroupLeaves(h, x.value.value, locals, code0, pool0, code, pool);
        MoreFlagsOf(Group(x.value.value));
      }
      if ok { ok := Match(RParen); }
    }

    /** `map`; the operand is the number of elements modulo 256. */
    method MapRule(ghost canAssign: bool) returns (ok: bool)
      requires Valid() && Next().LBracket?
      modifies `pos, `code, `pool, `subExprs, `hadCall, `hadAssign
      ensures Done(ok, ParsePrefix(old(Rest()), canAssign), old(code), old(pool), 0)
      decreases |toks| - pos, 0, 0
    {
      hide Rest, Line, Prev, ParsePrefix, ParseList, CodeExpr, CodeExprs, Leaves, LeavesAll, Inner, InnerAll, HadCall, HadAssign, Encode;
      MapParses(Rest(), canAssign);
      Advance();
      ghost var code0, pool0 := code, pool;
      ghost var es := ParseList(Rest(), Line(), RBracket);
      var n;
      ok, n := List(RBracket);
      if es.Some? {
        MapLeaves(h, es.value.value, locals, code0, pool0, code, pool);
        MoreFlagsOf(MapLit(es.value.value));
      }
      if ok { Emit(MakeMap(n % 256)); }
    }

    /** `namedVariable`. */
    method VariableRule(canAssign: bool) returns (ok: bool)
      requires Valid() && Next().Identifier?
      modifies `pos, `code, `pool, `subExprs, `hadCall, `hadAssign
      ensures Done(ok, ParsePrefix(old(Rest()), canAssign), old(code), old(pool), 0)
      decreases |toks| - pos, 0, 0
    {
      hide Rest, Line, Prev, ParsePrefix, ParsePrec, CodeExpr, Leaves, Inner, HadCall, HadAssign, Encode, AddConst, Key;
      VariableParses(Rest(), canAssign);
      var id := Next().id;
      Advance();
      ghost var code0, pool0 := code, pool;
      NameLeaves(h, id, locals, code0, pool0);
      var i := ResolveLocal(id);
      var k: byte := 0;
      ok := i < 0 || locals[i].depth != -1;
      if i < 0 { ok, k := MakeConstant(Str(Key(h, id))); }
      var assigning := canAssign && Next().Equal?;
      if !ok {
        if assigning && ParsePrec(Rest()[1..], ASSIGNMENT).Some? {
          VariableFails(h, id, ParsePrec(Rest()[1..], ASSIGNMENT).value.value, locals, pool0);
        }
        return;
      }
      if assigning {
        ok := AssignVariable(i, k, id, code0, pool0);
      } else {
        Emit(if i >= 0 then Ld(i) else Gld(k));
      }
    }

    method AssignVariable(i: int, k: byte, id: Ident, ghost code0: seq<byte>, ghost pool0: Pool) returns (ok: bool)
      requires Valid() && Next().Equal? && i == Resolve(locals, id) && code == code0
      requires i >= 0 ==> locals[i].depth != -1 && pool == pool0
      requires i < 0 ==> AddConst(h, pool0, Str(Key(h, id))) == Some(Slot(k, pool))
      modifies `pos, `code, `pool, `subExprs, `hadCall, `hadAssign
      ensures
        var x := ParsePrec(old(Rest())[1..], ASSIGNMENT);
        Done(ok, if x.None? then None else Some(Parsed(Assign(id, x.value.value), x.value.rest, x.value.line)), code0, pool0, 0)
      decreases |toks| - pos, 0, 0
    {
      hide Rest, Line, Prev, ParsePrec, CodeExpr, Leaves, Inner, HadCall, HadAssign, Encode, AddConst, Key, Resolve;
      Advance();
      ghost var pool1 := pool;
      ghost var x := ParsePrec(Rest(), ASSIGNMENT);
      ok := Expression();
      if x.Some? {
        if i >= 0 { AssignLocalEnds(h, id, i, x.value.value, locals, code0, pool0, code, pool); }
        else { AssignGlobalEnds(h, id, Slot(k, pool1), x.value.value, locals, code0, pool0, code, pool); }
        FlagsOf(Assign(id, x.value.value));
      }
      if !ok { return; }
      Emit(if i >= 0 then St(i) else Gst(k));
      hadAssign := true;
    }

    /** `binary`. */
    method BinaryRule(ghost canAssign: bool, ghost e: Expr, ghost code0: seq<byte>, ghost pool0: Pool) returns (ok: bool)
      requires Valid() && Rest() != [] && InfixOf(Next()).Some?
      requires Coded(e, code0, pool0) && Noted(e)
      modifies `pos, `code, `pool, `subExprs, `hadCall, `hadAssign
      ensures Done(ok, ParseInfix(e, old(Rest()), canAssign), code0, pool0, Inner(e))
      decreases |toks| - pos, 0, 0
    {
      hide Rest, Line, Prev, ParseInfix, ParsePrec, CodeExpr, Leaves, Inner, HadCall, HadAssign, Encode, Patched, Prec;
      hide InfixOf;
      var k := Next();
      OperatorParses(e, Rest(), canAssign);
      Advance();
      ghost var code1, pool1 := code, pool;
      ghost var x := ParsePrec(Rest(), Prec(k) + 1);
      ok := ParsePrecedence(Prec(k) + 1);
      if x.Some? { InfixEnds(h, InfixOf(k).value, e, x.value.value, locals, code0, pool0, code1, pool1, code, pool); }
      if ok { EmitInfix(InfixOf(k).value); }
    }

    /** `and_`. */
    method AndRule(ghost canAssign: bool, ghost e: Expr, ghost code0: seq<byte>, ghost pool0: Pool) returns (ok: bool)
      requires Valid() && Prec(Next()) > NONE && Next().AndWord?
      requires Coded(e, code0, pool0) && Noted(e)
      modifies `pos, `code, `pool, `subExprs, `hadCall, `hadAssign
      ensures Done(ok, ParseInfix(e, old(Rest()), canAssign), code0, pool0, Inner(e))
      decreases |toks| - pos, 0, 0
    {
      hide Rest, Line, Prev, ParseInfix, ParsePrec, CodeExpr, Leaves, Inner, HadCall, HadAssign, Encode, Patched, Prec;
      AndParses(e, Rest(), canAssign);
      Advance();
      ghost var code1, pool1 := code, pool;
      var endJump := EmitJump(21);
      Emit(Pop);
      ghost var x := ParsePrec(Rest(), AND);
      ok := ParsePrecedence(AND);
      if !ok {
        if x.Some? { AndFails(h, e, x.value.value, locals, code0, pool0, code1, pool1); }
        return;
      }
      AndLeaves(h, e, x.value.value, locals, code0, pool0, code1, pool1, code, pool);
      FlagsOf(And(e, x.value.value));
      ok := PatchJump(endJump);
    }

    /** `or_`. */
    method OrRule(ghost canAssign: bool, ghost e: Expr, ghost code0: seq<byte>, ghost pool0: Pool) returns (ok: bool)
      requires Valid() && Prec(Next()) > NONE && Next().OrWord?
      requires Coded(e, code0, pool0) && Noted(e)
      modifies `pos, `code, `pool, `subExprs, `hadCall, `hadAssign
      ensures Done(ok, ParseInfix(e, old(Rest()), canAssign), code0, pool0, Inner(e))
      decreases |toks| - pos, 0, 0
    {
      hide Rest, Line, Prev, ParseInfix, ParsePrec, CodeExpr, Leaves, Inner, HadCall, HadAssign, Encode, Patched, Prec;
      AndParses(e, Rest(), canAssign);
      Advance();
      ghost var code1, pool1 := code, pool;
      var elseJump := EmitJump(21);
      var endJump := EmitJump(20);
      FirstJump(code1);
      ok := PatchJump(elseJump);
      Emit(Pop);
      ghost var x := ParsePrec(Rest(), OR);
      ok := ParsePrecedence(OR);
      if !ok {
        if x.Some? { AndFails(h, e, x.value.value, locals, code0, pool0, code1, pool1); }
        return;
      }
      OrLeaves(h, e, x.value.value, locals, code0, pool0, code1, pool1, code, pool);
      FlagsOf(Or(e, x.value.value));
      ok := PatchJump(endJump);
    }

    /** `call` and `argumentList`. */
    method CallRule(ghost canAssign: bool, ghost e: Expr, ghost code0: seq<byte>, ghost pool0: Pool) returns (ok: bool)
      requires Valid() && Prec(Next()) > NONE && Next().LParen? && hadCall
      requires Coded(e, code0, pool0) && Noted(e)
      modifies `pos, `code, `pool, `subExprs, `hadCall, `hadAssign
      ensures Done(ok, ParseInfix(e, old(Rest()), canAssign), code0, pool0, Inner(e))
      decreases |toks| - pos, 0, 0
    {
      hide Rest, Line, Prev, ParseInfix, ParsePrec, CodeExpr, Leaves, Inner, HadCall, HadAssign, Encode, Patched, Prec;
      hide ParseList, CodeExprs, LeavesAll, InnerAll, HadCallAny, HadAssignAny;
      CallParses(e, Rest(), canAssign);
      Advance();
      ghost var es := ParseList(Rest(), Line(), RParen);
      ghost var code1, pool1 := code, pool;
      var n;
      ok, n := List(RParen);
      if es.Some? {
        InvokeLeaves(h, e, es.value.value, locals, code0, pool0, code1, pool1, code, pool);
        MoreFlagsOf(Invoke(e, es.value.value));
      }
      if !ok || n >= 32 { return false; }
      Emit(Call(n));
    }

    /** `dot`. */
    method DotRule(canAssign: bool, ghost e: Expr, ghost code0: seq<byte>, ghost pool0: Pool) returns (ok: bool)
      requires Valid() && Prec(Next()) > NONE && Next().Dot?
      requires Coded(e, code0, pool0) && Noted(e)
      modifies `pos, `code, `pool, `subExprs, `hadCall, `hadAssign
      ensures Done(ok, ParseInfix(e, old(Rest()), canAssign), code0, pool0, Inner(e))
      decreases |toks| - pos, 0, 0
    {
      hide Rest, Line, Prev, ParseInfix, ParsePrec, CodeExpr, Leaves, Inner, HadCall, HadAssign, Encode, Patched, Prec, DotRest;
      hide AddConst, Key;
      DotParses(e, Rest(), canAssign);
      ghost var ts := Rest();
      Advance();
      if !Next().Identifier? { return false; }
      var id := Next().id;
      Advance();
      ghost var code1, pool1 := code, pool;
      var k;
      ok, k := MakeConstant(Str(Key(h, id)));
      if !ok {
        DotFails(h, e, ts, canAssign, locals, code0, pool0, code1, pool1);
        return;
      }
      ok := DotTail(canAssign, k, id, e, code0, pool0, code1, pool1);
    }

    /** After the name of a member, whose constant is `k`. */
    method DotTail(canAssign: bool, k: byte, id: Ident, ghost e: Expr, ghost code0: seq<byte>, ghost pool0: Pool, ghost code1: seq<byte>, ghost pool1: Pool)
      returns (ok: bool)
      requires Valid() && AddConst(h, pool1, Str(Key(h, id))) == Some(Slot(k, pool)) && code == code1
      requires Leaves(h, e, locals, code0, pool0, code1, pool1) && Noted(e) && PlaceOf(Prev()).Plain?
      modifies `pos, `code, `pool, `subExprs, `hadCall, `hadAssign
      ensures Done(ok, DotRest(e, id, old(Rest()), old(Line()), canAssign), code0, pool0, Inner(e))
      decreases |toks| - pos, 1
    {
      hide Rest, Line, Prev, ParsePrec, CodeExpr, Leaves, Inner, HadCall, HadAssign, Encode, Done, Coded, AddConst, Key;
      if canAssign && Next().Equal? { ok := AssignMember(k, id, e, code0, pool0, code1, pool1); }
      else {
        ReadMember(k, id, e, code0, pool0, code1, pool1);
        ok := true;
      }
    }

    method ReadMember(k: byte, id: Ident, ghost e: Expr, ghost code0: seq<byte>, ghost pool0: Pool, ghost code1: seq<byte>, ghost pool1: Pool)
      requires Valid() && AddConst(h, pool1, Str(Key(h, id))) == Some(Slot(k, pool)) && code == code1
      requires Leaves(h, e, locals, code0, pool0, code1, pool1) && Noted(e) && PlaceOf(Prev()).Plain?
      modifies `code
      ensures Done(true, Some(Parsed(Member(e, id), old(Rest()), old(Line()))), code0, pool0, Inner(e))
    {
      hide Rest, Line, Prev, CodeExpr, Leaves, Inner, HadCall, HadAssign, Encode, AddConst, Key;
      MemberLeaves(h, e, id, locals, code0, pool0, code1, pool1);
      FlagsOf(Member(e, id));
      Emit(Get(k));
    }

    method AssignMember(k: byte, id: Ident, ghost e: Expr, ghost code0: seq<byte>, ghost pool0: Pool, ghost code1: seq<byte>, ghost pool1: Pool)
      returns (ok: bool)
      requires Valid() && Next().Equal? && AddConst(h, pool1, Str(Key(h, id))) == Some(Slot(k, pool)) && code == code1
      requires Leaves(h, e, locals, code0, pool0, code1, pool1) && Noted(e)
      modifies `pos, `code, `pool, `subExprs, `hadCall, `hadAssign
      ensures
        var x := ParsePrec(old(Rest())[1..], ASSIGNMENT);
        Done(ok, if x.None? then None else Some(Parsed(SetMember(e, id, x.value.value), x.value.rest, x.value.line)), code0, pool0, Inner(e))
      decreases |toks| - pos, 0, 0
    {
      hide Rest, Line, Prev, ParsePrec, CodeExpr, Leaves, Inner, HadCall, HadAssign, Encode, AddConst, Key;
      Advance();
      ghost var pool2 := pool;
      ghost var x := ParsePrec(Rest(), ASSIGNMENT);
      ok := Expression();
      if x.Some? {
        SetMemberEnds(h, e, id, Slot(k, pool2), x.value.value, locals, code0, pool0, code1, pool1, code, pool);
        FlagsOf(SetMember(e, id, x.value.value));
      }
      if ok { Emit(Set(k)); }
    }

    /** `index_`. */
    method IndexRule(canAssign: bool, ghost e: Expr, ghost code0: seq<byte>, ghost pool0: Pool) returns (ok: bool)
      requires Valid() && Prec(Next()) > NONE && Next().LBracket?
      requires Coded(e, code0, pool0) && Noted(e)
      modifies `pos, `code, `pool, `subExprs, `hadCall, `hadAssign
      ensures Done(ok, ParseInfix(e, old(Rest()), canAssign), code0, pool0, Inner(e))
      decreases |toks| - pos, 0, 0
    {
      hide Rest, Line, Prev, ParseInfix, ParsePrec, CodeExpr, Leaves, Inner, HadCall, HadAssign, Encode, Patched, Prec, IndexRest;
      IndexParses(e, Rest(), canAssign);
      ghost var ts := Rest();
      Advance();
      ghost var code1, pool1 := code, pool;
      ghost var k := ParsePrec(Rest(), ASSIGNMENT);
      ok := Expression();
      if !ok {
        if k.Some? { IndexFails(h, e, ts, canAssign, locals, code0, pool0, code1, pool1); }
        return;
      }
      ok := Match(RBracket);
      if !ok { return; }
      IndexFlags(e, k.value.value, Rest(), Line(), canAssign);
      ok := IndexTail(canAssign, e, k.value.value, code0, pool0, code1, pool1);
    }

    /** An operand: what its flags say has been recorded. */
    predicate Noted(e: Expr)
      reads `hadCall, `hadAssign
    {
      (HadCall(e) ==> hadCall) && (HadAssign(e) ==> hadAssign)
    }

    /** After the closing bracket: an assignment if one follows. */
    method IndexTail(canAssign: bool, ghost e: Expr, ghost k: Expr, ghost code0: seq<byte>, ghost pool0: Pool, ghost code1: seq<byte>, ghost pool1: Pool)
      returns (ok: bool)
      requires Valid() && Leaves(h, e, locals, code0, pool0, code1, pool1) && Leaves(h, k, locals, code1, pool1, code, pool)
      requires Noted(e) && Noted(k) && PlaceOf(Prev()).Plain?
      modifies `pos, `code, `pool, `subExprs, `hadCall, `hadAssign
      ensures Done(ok, IndexRest(e, k, old(Rest()), old(Line()), canAssign), code0, pool0, Inner(e) + 1 + Inner(k))
      decreases |toks| - pos, 1
    {
      hide Rest, Line, Prev, ParsePrec, CodeExpr, Leaves, Inner, HadCall, HadAssign, Encode, Coded, Done;
      if canAssign && Next().Equal? { ok := AssignIndex(e, k, code0, pool0, code1, pool1); }
      else {
        ReadIndex(e, k, code0, pool0, code1, pool1);
        ok := true;
      }
    }

    method ReadIndex(ghost e: Expr, ghost k: Expr, ghost code0: seq<byte>, ghost pool0: Pool, ghost code1: seq<byte>, ghost pool1: Pool)
      requires Valid() && Leaves(h, e, locals, code0, pool0, code1, pool1) && Leaves(h, k, locals, code1, pool1, code, pool)
      requires Noted(e) && Noted(k) && PlaceOf(Prev()).Plain?
      modifies `code
      ensures Done(true, Some(Parsed(Index(e, k), old(Rest()), old(Line()))), code0, pool0, Inner(e) + 1 + Inner(k))
    {
      hide Rest, Line, Prev, CodeExpr, Leaves, Inner, HadCall, HadAssign, Encode;
      IndexEnds(h, e, k, locals, code0, pool0, code1, pool1, code, pool);
      FlagsOf(Index(e, k));
      Emit(Geti);
    }

    method AssignIndex(ghost e: Expr, ghost k: Expr, ghost code0: seq<byte>, ghost pool0: Pool, ghost code1: seq<byte>, ghost pool1: Pool)
      returns (ok: bool)
      requires Valid() && Next().Equal? && Leaves(h, e, locals, code0, pool0, code1, pool1) && Leaves(h, k, locals, code1, pool1, code, pool)
      requires Noted(e) && Noted(k)
      modifies `pos, `code, `pool, `subExprs, `hadCall, `hadAssign
      ensures
        var x := ParsePrec(old(Rest())[1..], ASSIGNMENT);
        Done(ok, if x.None? then None else Some(Parsed(SetIndex(e, k, x.value.value), x.value.rest, x.value.line)), code0, pool0, Inner(e) + 1 + Inner(k))
      decreases |toks| - pos, 0, 0
    {
      hide Rest, Line, Prev, ParsePrec, CodeExpr, Leaves, Inner, HadCall, HadAssign, Encode;
      ghost var code2, pool2 := code, pool;
      Advance();
      ghost var x := ParsePrec(Rest(), ASSIGNMENT);
      ok := Expression();
      if x.Some? {
        SetIndexEnds(h, e, k, x.value.value, locals, code0, pool0, code1, pool1, code2, pool2, code, pool);
        MoreFlagsOf(SetIndex(e, k, x.value.value));
      }
      if !ok { return; }
      Emit(Seti);
      hadAssign := true;
    }

    method EmitInfix(op: InfixOp)
      modifies `code
      ensures code == old(code) + InfixCode(op)
    {
      hide Encode;
      match op
      case EqualEqual => Emit(Binary(Eq));
      case BangEqual => Emit(Binary(Eq)); Emit(Unary(Not));
      case Less => Emit(Binary(Lt));
      case LessEqual => Emit(Binary(Le));
      case Greater => Emit(Binary(Le)); Emit(Unary(Not));
      case GreaterEqual => Emit(Binary(Lt)); Emit(Unary(Not));
      case Plus => Emit(Binary(Add));
      case Minus => Emit(Binary(Sub));
      case Star => Emit(Binary(Mul));
      case Slash => Emit(Binary(Div));
    }

    /** What has been produced so far. */
    function Now(): Snap
      reads `code, `pool, `locals, `funs
    {
      Snap(code, pool, locals, funs)
    }

    function Here(): Scope
      reads `depth, `script
    {
      Scope(depth, script)
    }

    /**
     Between two statements the previous token is neither `Then` nor `Else`, except right after
     an arm without any token; the original's next statement then depends on that token.
     */
    predicate Poised()
      requires Valid()
      reads this`pos
    {
      PlaceOf(Prev()).Plain? || Next().Eof? || Next().ElseWord? || Next().EndIf?
    }

    /** What a method that should parse the statement `r` does. */
    twostate predicate DoneStmt(ok: bool, new r: Option<Parsed<Stmt>>)
      reads this
    {
      Valid() && ok == (r.Some? && Compiles(h, r.value.value, old(Here()), old(Now())))
      && (ok ==>
        StmtLeaves(h, r.value.value, old(Here()), old(Now()), Now()) && Here() == old(Here())
        && Stands(r.value) && Poised() && Settled(locals, depth))
    }

    /** What a method that should parse the declarations `r` does. */
    twostate predicate DoneBlock(ok: bool, new r: Option<Parsed<seq<Stmt>>>)
      reads this
    {
      Valid() && ok == (r.Some? && AllCompile(h, r.value.value, old(Here()), old(Now())))
      && (ok ==>
        BlockLeaves(h, r.value.value, old(Here()), old(Now()), Now()) && Here() == old(Here())
        && Stands(r.value) && Poised() && Settled(locals, depth))
    }

    /** `expressionStatement`. */
    method ExpressionStatement() returns (ok: bool)
      requires Valid() && Settled(locals, depth)
      modifies this
      ensures
        var x := ParsePrec(old(Rest()), ASSIGNMENT);
        DoneStmt(ok, if x.None? then None else Some(Parsed(ExprStmt(x.value.value), x.value.rest, x.value.line)))
      decreases |toks| - pos, 7, 0
    {
      hide Rest, Line, Prev, ParsePrec, CodeExpr, Leaves, Inner, HadCall, HadAssign, Encode, Settled, StmtLeaves, Compiles;
      hadCall, hadAssign, subExprs := false, false, 0;
      ghost var a := Now();
      ghost var x := ParsePrec(Rest(), ASSIGNMENT);
      ok := Expression();
      if x.Some? { ExprStmtLeaves(h, x.value.value, Here(), a, code, pool); }
      if !ok { return; }
      Emit(Pop);
      if subExprs <= 1 && !hadCall && !hadAssign { return false; }
    }

    /** `printStatement`. */
    method PrintStatement() returns (ok: bool)
      requires Valid() && Settled(locals, depth)
      modifies this
      ensures
        var x := ParseExprs(old(Rest()));
        DoneStmt(ok, if x.None? then None else Some(Parsed(PrintStmt(x.value.value), x.value.rest, x.value.line)))
      decreases |toks| - pos, 7, 0
    {
      hide Rest, Line, Prev, ParseExprs, CodeExprs, LeavesAll, InnerAll, HadCallAny, HadAssignAny, Encode, Settled, StmtLeaves, Compiles;
      ghost var a := Now();
      ghost var x := ParseExprs(Rest());
      var n;
      ok, n := Expressions();
      if x.Some? { PrintLeaves(h, x.value.value, Here(), a, code, pool); }
      if !ok || n > 32 { return false; }
      Emit(Print(n));
    }

    /** `returnStatement`. */
    method ReturnStatement() returns (ok: bool)
      requires Valid() && Settled(locals, depth) && PlaceOf(Prev()).Plain?
      modifies this
      ensures DoneStmt(ok, ParseReturn(old(Rest()), old(Line())))
      decreases |toks| - pos, 7, 0
    {
      hide Rest, Line, Prev, ParsePrec, CodeExpr, Leaves, Inner, HadCall, HadAssign, Encode, Settled, StmtLeaves, Compiles;
      ghost var a := Now();
      if script {
        ReturnNullLeaves(h, Here(), a);
        ghost var x := ParsePrec(Rest(), ASSIGNMENT);
        if x.Some? { ReturnLeaves(h, x.value.value, Here(), a, code, pool); }
        return false;
      }
      var k, below := Next(), BelowLine();
      if k.RBrace? || k.End? || k.EndFunc? || below {
        ReturnNullLeaves(h, Here(), a);
        Emit(Nil);
        Emit(Ret);
        ok := true;
      } else {
        ghost var x := ParsePrec(Rest(), ASSIGNMENT);
        ok := Expression();
        if x.Some? { ReturnLeaves(h, x.value.value, Here(), a, code, pool); }
        if ok { Emit(Ret); }
      }
    }

    /** `parser->current.line > parser->previous.line`. */
    function BelowLine(): (b: bool)
      requires Valid()
      reads this`pos
      ensures b == NewLine(Rest(), Line())
    {
      pos < |toks| && toks[pos].line > (if pos == 0 then 0 else toks[pos - 1].line)
    }

    /** `declareVariable` inside a block. */
    method DeclareVariable(name: string) returns (ok: bool)
      modifies `locals
      ensures ok == AddLocal(old(locals), depth, name).Some?
      ensures ok ==> AddLocal(old(locals), depth, name) == Some(locals) && locals != []
    {
      var i := |locals|;
      assert locals[..i] == locals;
      while i > 0 && !(locals[i - 1].depth != -1 && locals[i - 1].depth < depth)
        invariant 0 <= i <= |locals|
        invariant Taken(locals, depth, name) == Taken(locals[..i], depth, name)
      {
        assert locals[..i][..i - 1] == locals[..i - 1];
        if locals[i - 1].name == name { return false; }
        i := i - 1;
      }
      if |locals| == UINT8_COUNT { return false; }
      locals := locals + [Local(name, -1)];
      ok := true;
    }

    /** `parseVariable`: a new local inside a block, a constant for the name outside. */
    method ParseVariable() returns (ok: bool, k: byte, name: Ident)
      requires Valid()
      modifies `pos, `locals, `pool
      ensures Valid()
      ensures ok ==> ParseIdent(old(Rest())) == Some(Parsed(name, Rest(), Line())) && PlaceOf(Prev()).Plain?
      ensures !ok ==>
        ParseIdent(old(Rest())).None?
        || var id := ParseIdent(old(Rest())).value.value;
           if depth == 0 then AddConst(h, old(pool), Str(Key(h, id))).None? else AddLocal(old(locals), depth, id).None?
      ensures ok && depth == 0 ==> locals == old(locals) && AddConst(h, old(pool), Str(Key(h, name))) == Some(Slot(k, pool))
      ensures ok && depth > 0 ==> pool == old(pool) && AddLocal(old(locals), depth, name) == Some(locals) && locals != []
    {
      hide Rest, Line, Prev, AddConst, Key;
      k, name := 0, "x";
      if !Next().Identifier? { return false, k, name; }
      name := Next().id;
      Advance();
      if depth > 0 { ok := DeclareVariable(name); }
      else { ok, k := MakeConstant(Str(Key(h, name))); }
    }

    /** An initializer, or null without one. */
    method Initializer() returns (ok: bool)
      requires Valid() && PlaceOf(Prev()).Plain?
      modifies `pos, `code, `pool, `subExprs, `hadCall, `hadAssign
      ensures Valid() && ok == Good(ParseInit(old(Rest()), old(Line())), old(pool))
      ensures ok ==>
        var r := ParseInit(old(Rest()), old(Line())).value;
        Coded(r.value, old(code), old(pool)) && Stands(r) && PlaceOf(Prev()).Plain?
      decreases |toks| - pos, 5, 0
    {
      hide Rest, Line, Prev, ParsePrec, Inner, HadCall, HadAssign, Encode;
      ok := Match(Equal);
      if ok { ok := Expression(); }
      else {
        Emit(Nil);
        ok := true;
      }
    }

    /** `varDeclaration`. */
    method VarDeclaration() returns (ok: bool)
      requires Valid() && Settled(locals, depth) && Next().VarWord?
      modifies this
      ensures DoneStmt(ok, ParseKeyword(old(Rest()), |old(funs)|))
      decreases |toks| - pos, 7, 0
    {
      hide Rest, Line, Prev, ParseKeyword, ParseInit, ParseIdent, CodeExpr, Leaves, Encode, StmtLeaves, Compiles, AddConst, AddLocal, Key, Settled;
      ghost var ts, a, n := Rest(), Now(), |funs|;
      VarParses(ts, n);
      Advance();
      var k, name;
      ok, k, name := ParseVariable();
      if !ok {
        ghost var r := ParseKeyword(ts, n);
        if r.Some? { NameRefused(h, r.value.value, Here(), a); }
        return;
      }
      ghost var ls, pool1, e := locals, pool, ParseInit(Rest(), Line());
      ok := Initializer();
      if e.Some? {
        if depth == 0 { VarLeaves(h, name, e.value.value, Here(), a, Slot(k, pool1), code, pool); }
        else { LocalLeaves(h, name, e.value.value, Here(), a, ls, code, pool); }
      }
      if !ok { return; }
      DefineVariable(k);
      ghost var s := Var(name, e.value.value);
      assert StmtLeaves(h, s, Here(), a, Now());
      LeavesSettled(h, s, Here(), a, Now());
    }

    /** `defineVariable`. */
    method DefineVariable(k: byte)
      requires depth > 0 ==> locals != []
      modifies `code, `locals
      ensures depth == 0 ==> locals == old(locals) && code == old(code) + Encode(Def(k))
      ensures depth > 0 ==> locals == MarkLast(old(locals), depth) && code == old(code)
    {
      if depth > 0 { locals := locals[|locals| - 1 := locals[|locals| - 1].(depth := depth)]; }
      else { Emit(Def(k)); }
    }

    /** `globalDeclaration`. Inside a block the original declares a local it never initialises; that is refused here. */
    method GlobalDeclaration() returns (ok: bool)
      requires Valid() && Settled(locals, depth) && Next().GlobalWord?
      modifies this
      ensures DoneStmt(ok, ParseKeyword(old(Rest()), |old(funs)|))
      decreases |toks| - pos, 7, 0
    {
      hide Rest, Line, Prev, ParseKeyword, ParseItems, ItemsGo, ParseInit, ParseIdent, CodeItems, ItemsLeave, CodeExpr, Leaves, Encode, StmtLeaves, Compiles, AddConst, AddLocal, Key, Settled;
      ghost var ts, a, n := Rest(), Now(), |funs|;
      GlobalParses(ts, n);
      Advance();
      ItemsStart(Rest());
      ghost var r := ParseItems(Rest());
      if depth > 0 {
        if r.Some? { GlobalLeaves(h, r.value.value, Here(), a, code, pool); }
        return false;
      }
      ok := Items();
      if r.Some? { GlobalLeaves(h, r.value.value, Here(), a, code, pool); }
    }

    /** The items of a `Global` declaration. */
    method Items() returns (ok: bool)
      requires Valid() && depth == 0
      modifies `pos, `code, `pool, `subExprs, `hadCall, `hadAssign, `locals
      ensures Valid()
      ensures ok ==
        var r := ParseItems(old(Rest()));
        r.Some? && CodeItems(h, r.value.value, old(locals), old(pool)).Some?
      ensures ok ==>
        var r := ParseItems(old(Rest())).value;
        ItemsLeave(h, r.value, locals, old(code), old(pool), code, pool) && Stands(r) && locals == old(locals) && PlaceOf(Prev()).Plain?
      decreases |toks| - pos, 6, 0
    {
      hide Rest, Line, Prev, ParseItems, ItemsGo, ParseInit, ParseIdent, CodeItems, ItemsLeave, CodeExpr, Leaves, Encode, AddConst, AddLocal, Key;
      ghost var ts, code0, pool0 := Rest(), code, pool;
      ghost var items: seq<Init> := [];
      ItemsStart(ts);
      NoItems(h, locals, code, pool);
      var more := true;
      while more
        invariant Valid() && pos >= old(pos) && (!more ==> PlaceOf(Prev()).Plain?)
        invariant ParseItems(ts) == if more then ItemsGo(items, Rest()) else Some(Parsed(items, Rest(), Line()))
        invariant locals == old(locals) && ItemsLeave(h, items, locals, code0, pool0, code, pool)
        decreases more, |toks| - pos
      {
        ItemsStep(items, Rest());
        ghost var ts1, code1, pool1 := Rest(), code, pool;
        var k, name;
        ok, k, name := ParseVariable();
        if !ok { ItemRefused(h, items, ts1, old(locals), code0, pool0, code1, pool1); return; }
        ghost var pool2 := pool;
        ghost var e := ParseInit(Rest(), Line());
        ok := Initializer();
        if e.Some? { NextItem(h, items, Init(name, e.value.value), locals, code0, pool0, code1, pool1, code, pool); }
        if !ok {
          if e.Some? { ItemFails(h, items, Init(name, e.value.value), e.value.rest, locals, pool0); }
          return;
        }
        DefineVariable(k);
        items := items + [Init(name, e.value.value)];
        more := Match(Comma);
      }
      ItemsDone(h, items, locals, code0, pool0, code, pool);
      ok := true;
    }

    /** `beginScope`. */
    method BeginScope()
      modifies `depth
      ensures depth == old(depth) + 1
    {
      depth := depth + 1;
    }

    static lemma PopMore(n: nat, ls: Locals, depth: nat)
      ensures Pops(0) == [] && Pops(n + 1) == Pops(n) + Encode(Pop)
      ensures Above(ls, depth) == if ls != [] && ls[|ls| - 1].depth > depth then 1 + Above(ls[..|ls| - 1], depth) else 0
    {
    }

    /** `endScope`: every local of the closed block is popped. */
    method EndScope()
      requires depth > 0
      modifies `depth, `code, `locals
      ensures depth == old(depth) - 1
      ensures
        var n := Above(old(locals), depth);
        code == old(code) + Pops(n) && locals == old(locals)[..|old(locals)| - n]
    {
      hide Encode, Pops, Above;
      depth := depth - 1;
      ghost var before, emitted, n := locals, code, 0;
      PopMore(0, before, depth);
      while |locals| > 0 && locals[|locals| - 1].depth > depth
        invariant depth == old(depth) - 1
        invariant n + |locals| == |before| && locals == before[..|before| - n]
        invariant Above(before, depth) == n + Above(locals, depth)
        invariant code == emitted + Pops(n)
        decreases |locals|
      {
        PopMore(n, locals, depth);
        Emit(Pop);
        assert code == emitted + Pops(n + 1);
        assert locals[..|locals| - 1] == before[..|before| - (n + 1)];
        locals := locals[..|locals| - 1];
        n := n + 1;
      }
      PopMore(n, locals, depth);
    }

    /**
     The loop around `declaration`, up to one of the tokens of `c`. Where the original's
     `statement` would call itself for ever, or return without consuming a token and be
     called again for ever, there is no result.
     */
    method Declarations(c: Closer, ghost place: Place) returns (ok: bool)
      requires Valid() && Settled(locals, depth)
      requires place == PlaceOf(Prev()) || (place.Plain? && Poised())
      requires place.Plain? || c.ByElse? || c.ByEndIf?
      modifies this
      ensures DoneBlock(ok, DeclsGo([], place, old(Rest()), c, old(Line()), |old(funs)|))
      decreases |toks| - pos, 10, 0
    {
      hide Rest, Line, Prev, DeclsGo, ParseDecl, CodeBlock, CodeStmt, CodeFunctions, FunsOf, FunsOfAll, StmtLeaves, BlockLeaves, Compiles, AllCompile, Settled;
      ghost var ts, line, a, sc, n := Rest(), Line(), Now(), Here(), |funs|;
      ghost var ss: seq<Stmt>, at := [], place;
      EmptyBlock(h, sc, a);
      while !Closes(c, Next())
        invariant Valid() && pos >= old(pos) && Here() == sc && Settled(locals, depth)
        invariant at == PlaceOf(Prev()) || (at.Plain? && Poised())
        invariant at.Plain? || at == place
        invariant DeclsGo([], place, ts, c, line, n) == DeclsGo(ss, at, Rest(), c, Line(), |funs|)
        invariant BlockLeaves(h, ss, sc, a, Now())
        decreases |toks| - pos
      {
        if !Keyword(Next()) && !PlaceOf(Prev()).Plain? {
          DeclsStuck(ss, at, Rest(), c, Line(), |funs|);
          return false;
        }
        ghost var rest, line1, b := Rest(), Line(), Now();
        DeclsStep(ss, at, rest, c, line1, |funs|);
        ghost var s := ParseDecl(rest, line1, |funs|);
        ok := Declaration();
        if s.Some? {
          NextStmt(h, ss, s.value.value, sc, a, b, Now());
          if !ok { BlockFails(h, ss + [s.value.value], Plain, s.value.rest, c, s.value.line, |b.funs| + |FunsOf(s.value.value)|, sc, a); }
        }
        if !ok { return; }
        FunsCount(h, s.value.value, sc, b, Now());
        ss, at := ss + [s.value.value], Plain;
      }
      DeclsStop(ss, at, Rest(), c, Line(), |funs|);
      BlockDone(h, ss, sc, a, Now());
      ok := true;
    }

    /** `declaration`. */
    method Declaration() returns (ok: bool)
      requires Valid() && Settled(locals, depth) && (Keyword(Next()) || PlaceOf(Prev()).Plain?) && !Next().Eof?
      modifies this
      ensures DoneStmt(ok, ParseDecl(old(Rest()), old(Line()), |old(funs)|))
      ensures ok ==> pos > old(pos)
      decreases |toks| - pos, 9, 0
    {
      hide Rest, Line, Prev, ParseKeyword, ParseStmt, StmtLeaves, Compiles, Settled;
      if Next().Func? { ok := FunDeclaration(); }
      else if Next().VarWord? { ok := VarDeclaration(); }
      else if Next().GlobalWord? { ok := GlobalDeclaration(); }
      else { ok := Statement(); }
    }

    /** `statement`. */
    method Statement() returns (ok: bool)
      requires Valid() && Settled(locals, depth)
      modifies this
      ensures DoneStmt(ok, ParseStmt(old(Rest()), PlaceOf(old(Prev())), old(Line()), |old(funs)|))
      decreases |toks| - pos, if PlaceOf(Prev()).Plain? then 8 else 11, 0
    {
      hide Rest, Line, Prev, ParseStmt, ParseExprs, ParseIf, ParseReturn, ParseOther, StmtLeaves, Compiles, Settled;
      StmtParses(Rest(), PlaceOf(Prev()), Line(), |funs|);
      var found := Match(PrintWord);
      if found { ok := PrintStatement(); return; }
      found := Match(IfWord);
      if found { ok := IfStatement(); return; }
      found := Match(ReturnWord);
      if found { ok := ReturnStatement(); return; }
      if Next().LBrace? { ok := BlockStatement(); return; }
      ok := OtherStatement();
    }

    /** A statement between braces. */
    method BlockStatement() returns (ok: bool)
      requires Valid() && Settled(locals, depth) && Next().LBrace?
      modifies this
      ensures DoneStmt(ok, ParseStmt(old(Rest()), PlaceOf(old(Prev())), old(Line()), |old(funs)|))
      decreases |toks| - pos, 7, 0
    {
      hide Rest, Line, Prev, ParseDecls, CodeBlock, BlockLeaves, AllCompile, StmtLeaves, Compiles, Settled, Above, Pops;
      ghost var a, sc, n := Now(), Here(), |funs|;
      Advance();
      BeginScope();
      SettledDeeper(locals, sc.depth);
      ghost var ss := ParseDecls(Rest(), ByBrace, Line(), n);
      DeclsStart(Plain, Rest(), ByBrace, Line(), n);
      ok := Declarations(ByBrace, Plain);
      if ss.Some? { BlockCloses(h, ss.value.value, sc, a, Now()); }
      if !ok { return; }
      ok := Match(RBrace);
      if !ok { return; }
      EndScope();
      LeavesSettled(h, Block(ss.value.value), sc, a, Now());
    }

    /** A statement no keyword starts: an arm right after `Then` or `Else`, an expression anywhere else. */
    method OtherStatement() returns (ok: bool)
      requires Valid() && Settled(locals, depth)
      modifies this
      ensures DoneStmt(ok, ParseOther(old(Rest()), PlaceOf(old(Prev())), old(Line()), |old(funs)|))
      decreases |toks| - pos, if PlaceOf(Prev()).Plain? then 7 else 10, 2
    {
      hide Rest, Line, ParseDecls, ParseInline, ParseArm, ParsePrec, CodeBlock, BlockLeaves, AllCompile, StmtLeaves, Compiles, Settled, Above, Pops;
      if PlaceOf(Prev()).Plain? { ok := ExpressionStatement(); return; }
      ghost var a, sc, n := Now(), Here(), |funs|;
      ghost var ss;
      BeginScope();
      SettledDeeper(locals, sc.depth);
      if Prev().ThenWord? {
        ss := ParseInline(Rest(), Line(), n);
        ok := InlineBlock();
      } else {
        ss := ParseArm(Rest(), ByEndIf, Line(), n);
        DeclsStart(AfterElse, Rest(), ByEndIf, Line(), n);
        ok := Declarations(ByEndIf, AfterElse);
      }
      if ss.Some? { BlockCloses(h, ss.value.value, sc, a, Now()); }
      if !ok { return; }
      EndScope();
      LeavesSettled(h, Block(ss.value.value), sc, a, Now());
    }

    /** `inlineBlock`. A lone declaration that no keyword starts would call `statement` for ever. */
    method InlineBlock() returns (ok: bool)
      requires Valid() && Settled(locals, depth) && Prev().ThenWord?
      modifies this
      ensures DoneBlock(ok, ParseInline(old(Rest()), old(Line()), |old(funs)|))
      decreases |toks| - pos, 10, 1
    {
      hide Rest, Line, ParseKeyword, ParseArm, CodeBlock, CodeStmt, CodeFunctions, FunsOf, FunsOfAll, StmtLeaves, BlockLeaves, Compiles, AllCompile, Settled;
      if !Next().Eof? && OnPreviousLine() {
        ghost var a, sc, s := Now(), Here(), ParseKeyword(Rest(), |funs|);
        if !Keyword(Next()) {
          NoKeyword(Rest(), |funs|);
          return false;
        }
        ok := Declaration();
        EmptyBlock(h, sc, a);
        if s.Some? {
          NextStmt(h, [], s.value.value, sc, a, a, Now());
          assert [] + [s.value.value] == [s.value.value];
        }
      } else {
        DeclsStart(AfterThen, Rest(), ByElse, Line(), |funs|);
        ok := Declarations(ByElse, AfterThen);
      }
    }

    /** `parser->current.line == parser->previous.line`. */
    function OnPreviousLine(): (b: bool)
      requires Valid() && Rest() != []
      reads this`pos
      ensures b == (Rest()[0].line == Line())
    {
      toks[pos].line == if pos == 0 then 0 else toks[pos - 1].line
    }

    /** `funDeclaration`. */
    method FunDeclaration() returns (ok: bool)
      requires Valid() && Settled(locals, depth) && Next().Func?
      modifies this
      ensures DoneStmt(ok, ParseKeyword(old(Rest()), |old(funs)|))
      decreases |toks| - pos, 7, 0
    {
      hide Rest, Line, Prev, ParseKeyword, ParseFunction, ParseIdent, FunsOf, FunsOfAll, NestedCompiles, AfterNested, Encode, StmtLeaves, Compiles, AddConst, AddLocal, Key, Settled;
      ghost var ts, a, sc, n := Rest(), Now(), Here(), |funs|;
      ghost var r := ParseKeyword(ts, n);
      FuncParses(ts, n);
      Advance();
      var k, name;
      ok, k, name := ParseVariable();
      if !ok {
        if r.Some? { NameRefused(h, r.value.value, sc, a); }
        return;
      }
      ghost var ls, pool1 := locals, pool;
      MarkInitialized();
      ok := Function();
      if r.Some? {
        if sc.depth == 0 { FunGlobalLeaves(h, r.value.value, sc, a, Slot(k, pool1)); }
        else { FunLocalLeaves(h, r.value.value, sc, a, ls); }
      }
      if !ok { return; }
      DefineVariable(k);
      LeavesSettled(h, r.value.value, sc, a, Now());
    }

    /** `markInitialized`. */
    method MarkInitialized()
      requires depth > 0 ==> locals != []
      modifies `locals
      ensures depth == 0 ==> locals == old(locals)
      ensures depth > 0 ==> locals == MarkLast(old(locals), depth) && MarkLast(locals, depth) == locals
    {
      if depth > 0 { locals := locals[|locals| - 1 := locals[|locals| - 1].(depth := depth)]; }
    }

    /**
     `function`: compiles with a fresh chunk, pool and list of locals, and puts those of the
     enclosing function back; the finished function becomes a constant there.
     */
    method Function() returns (ok: bool)
      requires Valid()
      modifies this
      ensures DoneFunction(ok, ParseFunction(old(Rest()), |old(funs)|))
      decreases |toks| - pos, 12, 0
    {
      hide Rest, Line, Prev, ParseFunction, CodeFunction, CodeFunctions, FunctionCompiles, FunsOfAll, AfterNested, Encode, AddConst;
      ghost var a, r := Now(), ParseFunction(Rest(), |funs|);
      var code0, pool0, locals0, depth0, script0 := code, pool, locals, depth, script;
      code, pool, locals, depth, script := [], [], [SelfLocal], 1, false;
      var arity;
      ok, arity := FunctionBody();
      if !ok { return; }
      var f := Machine.Function(arity, code, pool);
      funs := funs + [f];
      code, pool, locals, depth, script := code0, pool0, locals0, depth0, script0;
      var k;
      ok, k := MakeConstant(Fun(|funs| - 1));
      if !ok { return; }
      NestedLeaves(h, r.value.value, a, f, Slot(k, pool));
      Emit(Const(k));
    }

    /** Parameters, body and closing word of a function, into a chunk of its own. */
    method FunctionBody() returns (ok: bool, arity: nat)
      requires Valid() && code == [] && pool == [] && locals == [SelfLocal] && Here() == Scope(1, false)
      modifies this
      ensures Valid()
      ensures
        var r := ParseFunction(old(Rest()), |old(funs)|);
        ok == (r.Some? && FunctionCompiles(h, r.value.value))
      ensures ok ==>
        var r := ParseFunction(old(Rest()), |old(funs)|).value;
        CodeFunction(h, r.value) == Some(Machine.Function(arity, code, pool))
        && |funs| == |old(funs)| + |FunsOfAll(r.value.body)|
        && funs == old(funs) + CodeFunctions(h, FunsOfAll(r.value.body)).value && Stands(r) && PlaceOf(Prev()).Plain?
      decreases |toks| - pos, 11, 0
    {
      hide Rest, Line, Prev, ParseFunction, ParseParamList, ParseDecls, AddParams, CodeFunction, CodeFunctions, FunsOfAll, FunctionCompiles, CodeBlock, BlockLeaves, AllCompile, Encode, Settled;
      arity := 0;
      ghost var n, funs0, r := |funs|, funs, ParseFunction(Rest(), |funs|);
      FunctionParts(Rest(), n);
      ok := Match(LParen);
      if !ok { return; }
      ghost var ps := ParseParamList(Rest());
      ok, arity := Parameters();
      if !ok {
        if r.Some? { ParamsRefused(h, r.value.value); }
        return;
      }
      ok := Body(r, n, ps.value.value);
    }

    /** The body of a function and its closing word; then every function returns null. */
    method Body(ghost r: Option<Parsed<Decl>>, ghost n: nat, ghost ps: seq<Ident>) returns (ok: bool)
      requires Valid() && code == [] && pool == [] && Here() == Scope(1, false) && n == |funs| && Settled(locals, 1) && PlaceOf(Prev()).Plain?
      requires
        var body := ParseDecls(Rest(), ByEnd, Line(), n);
        if body.None? then r.None? else r == ExpectEnd(Decl(false, ps, body.value.value), body.value.rest, EndFunc)
      requires |ps| <= 32 && AddParams([SelfLocal], ps) == Some(locals)
      modifies this
      ensures Valid() && ok == (r.Some? && FunctionCompiles(h, r.value.value))
      ensures ok ==>
        CodeFunction(h, r.value.value) == Some(Machine.Function(|ps|, code, pool))
        && |funs| == |old(funs)| + |FunsOfAll(r.value.value.body)|
        && funs == old(funs) + CodeFunctions(h, FunsOfAll(r.value.value.body)).value && Stands(r.value) && PlaceOf(Prev()).Plain?
      decreases |toks| - pos, 11, 0
    {
      hide Rest, Line, Prev, ParseDecls, AddParams, CodeFunction, CodeFunctions, FunsOfAll, FunctionCompiles, CodeBlock, BlockLeaves, AllCompile, Encode, Settled;
      ghost var ls, funs0 := locals, funs;
      DeclsStart(Plain, Rest(), ByEnd, Line(), n);
      ok := Declarations(ByEnd, Plain);
      if r.Some? { FunctionBuilt(h, r.value.value, ls, funs0, Now()); }
      if !ok { return; }
      ok := Consumes(EndFunc);
      if !ok { return; }
      Emit(Nil);
      Emit(Ret);
    }

    /** `consumes`: `End` or the longer word. */
    method Consumes(k: Kind) returns (ok: bool)
      requires Valid() && PlaceOf(k).Plain?
      modifies `pos
      ensures Valid() && ok == (Starts(old(Rest()), End) || Starts(old(Rest()), k))
      ensures ok ==> Rest() == old(Rest())[1..] && Line() == old(Rest())[0].line && PlaceOf(Prev()).Plain?
    {
      hide Rest, Line, Prev;
      ok := Match(End);
      if !ok { ok := Match(k); }
    }

    /** The parameter list; every parameter becomes an initialised local. */
    method Parameters() returns (ok: bool, n: nat)
      requires Valid() && locals == [SelfLocal] && depth == 1
      modifies `pos, `locals, `pool, `code
      ensures Valid() && (ok ==> pool == old(pool) && code == old(code))
      ensures
        var r := ParseParamList(old(Rest()));
        ok == (r.Some? && AddParams([SelfLocal], r.value.value).Some? && |r.value.value| <= 32)
      ensures ok ==>
        var r := ParseParamList(old(Rest())).value;
        AddParams([SelfLocal], r.value) == Some(locals) && n == |r.value| && Stands(r) && Settled(locals, 1) && PlaceOf(Prev()).Plain?
    {
      hide Rest, Line, Prev, ParseParams, ParamsGo, ParseIdent, AddParams, AddLocal, AddConst, Key, Settled, MarkLast, Encode;
      n := 0;
      ghost var ts, ps: seq<Ident> := Rest(), [];
      ok := Match(RParen);
      if ok {
        ScriptSettled(1);
        NoParams([SelfLocal]);
        return;
      }
      ParamsStart(ts);
      NoParams([SelfLocal]);
      var more := true;
      while more
        invariant Valid() && pos >= old(pos) && (!more ==> PlaceOf(Prev()).Plain?)
        invariant ParseParams(ts) == if more then ParamsGo(ps, Rest()) else Some(Parsed(ps, Rest(), Line()))
        invariant AddParams([SelfLocal], ps) == Some(locals) && n == |ps| <= 32 && pool == old(pool) && code == old(code) && depth == 1
        decreases more, |toks| - pos
      {
        n := n + 1;
        ok, more, ps := Parameter(n, ps);
        if !ok { return; }
      }
      ParamsSettled(ps);
      ok := Match(RParen);
    }

    /** The `n`-th parameter; whether a comma follows it. */
    method Parameter(n: nat, ghost ps: seq<Ident>) returns (ok: bool, more: bool, ghost ps': seq<Ident>)
      requires Valid() && depth == 1 && AddParams([SelfLocal], ps) == Some(locals) && n == |ps| + 1
      modifies `pos, `locals, `pool, `code
      ensures Valid()
      ensures !ok ==>
        var r := ParamsGo(ps, old(Rest()));
        r.Some? ==> AddParams([SelfLocal], r.value.value).None? || |r.value.value| > 32
      ensures ok ==> pos > old(pos) && (!more ==> PlaceOf(Prev()).Plain?) && pool == old(pool) && code == old(code)
      ensures ok ==> ParamsGo(ps, old(Rest())) == if more then ParamsGo(ps', Rest()) else Some(Parsed(ps', Rest(), Line()))
      ensures ok ==> AddParams([SelfLocal], ps') == Some(locals) && n == |ps'| <= 32
    {
      hide Rest, Line, Prev, ParseParams, ParamsGo, ParseIdent, AddParams, AddLocal, AddConst, Key, MarkLast, Encode;
      ParamsStep(ps, Rest());
      more, ps' := false, ps;
      ghost var id := ParseIdent(Rest());
      if id.Some? { ParamFails(ps, id.value.value, id.value.rest); }
      if n > 32 { return false, more, ps'; }
      if id.Some? { NextParam([SelfLocal], ps, id.value.value); }
      var k, name;
      ok, k, name := ParseVariable();
      if !ok { return; }
      DefineVariable(k);
      ps' := ps + [name];
      more := Match(Comma);
    }

    twostate predicate DoneFunction(ok: bool, new r: Option<Parsed<Decl>>)
      reads this
    {
      Valid() && ok == (r.Some? && NestedCompiles(h, r.value.value, old(Now())))
      && (ok ==>
        Now() == AfterNested(h, r.value.value, old(Now())) && Here() == old(Here()) && Stands(r.value) && PlaceOf(Prev()).Plain?)
    }

    /** `ifStatement`. */
    method IfStatement() returns (ok: bool)
      requires Valid() && Settled(locals, depth) && PlaceOf(Prev()).Plain?
      modifies this
      ensures DoneStmt(ok, ParseIf(old(Rest()), |old(funs)|))
      decreases |toks| - pos, 12, 0
    {
      hide Rest, Line, ParseIf, ParsePrec, IfAfterThen, CodeExpr, Inner, HadCall, HadAssign, Leaves, StmtLeaves, Compiles, Settled;
      ghost var a, sc, n, r := Now(), Here(), |funs|, ParseIf(Rest(), |funs|);
      IfParses(Rest(), n);
      ghost var c := ParsePrec(Rest(), ASSIGNMENT);
      ok := Expression();
      if !ok {
        if r.Some? {
          IfParts(c.value.value, c.value.rest[1..], c.value.rest[0].line, n);
          CondFails(h, r.value.value, sc, a);
        }
        return;
      }
      ok := Match(ThenWord);
      if ok { ok := IfArms(c.value.value, a); }
    }

    /** After `Then`: the first arm, with a placeholder for the jump over it. */
    method IfArms(ghost c: Expr, ghost a: Snap) returns (ok: bool)
      requires Valid() && Settled(locals, depth) && Prev().ThenWord?
      requires Leaves(h, c, a.locals, a.code, a.pool, code, pool) && locals == a.locals && funs == a.funs
      modifies this
      ensures IfDone(ok, IfAfterThen(c, old(Rest()), old(Line()), |old(funs)|), a)
      decreases |toks| - pos, 12, 0
    {
      hide Rest, Line, ParseStmt, IfAfterThen, IfRest, FunsOf, CodeExpr, Leaves, StmtLeaves, Compiles, Encode, Settled, Operands;
      ghost var sc, ts, line, n := Here(), Rest(), Line(), |funs|;
      ghost var code1, pool1 := code, pool;
      var inline := pos < |toks| && OnPreviousLine();
      var thenJump := EmitJump(21);
      Emit(Pop);
      ghost var t := ParseStmt(ts, AfterThen, line, n);
      AfterThenIs(c, ts, line, n);
      ok := Statement();
      if !ok {
        FirstArmFails(h, c, ts, line, n, sc, a, code1, pool1);
        return;
      }
      FunsCount(h, t.value.value, sc, ThenStarts(code1, pool1, a), Now());
      LeavesSettled(h, t.value.value, sc, ThenStarts(code1, pool1, a), Now());
      ok := IfTail(inline, thenJump, c, t.value.value, a, code1, pool1);
    }

    /** The second arm; the jump over the first one is patched before it. */
    method IfTail(inline: bool, thenJump: nat, ghost c: Expr, ghost t: Stmt, ghost a: Snap, ghost code1: seq<byte>, ghost pool1: Pool) returns (ok: bool)
      requires Valid() && Settled(locals, depth) && Poised()
      requires Leaves(h, c, a.locals, a.code, a.pool, code1, pool1) && Arm(t) && thenJump == |code1| + 1
      requires StmtLeaves(h, t, Here(), ThenStarts(code1, pool1, a), Now()) && locals == a.locals
      modifies this
      ensures IfDone(ok, IfRest(c, t, inline, old(Rest()), old(Line()), |old(funs)|), a)
      decreases |toks| - pos, 11, 0
    {
      hide Rest, Line, Prev, ParseElse, CodeExpr, Leaves, StmtLeaves, Compiles, Encode, Patched, Settled;
      ghost var sc, b, n := Here(), Now(), |funs|;
      ThenGrew(h, t, sc, code1, pool1, a, b);
      ghost var e := ParseElse(Rest(), Line(), n);
      ghost var s := if e.Some? then If(c, t, e.value.value) else ReturnNull;
      var elseJump := EmitJump(20);
      ok := PatchJump(thenJump);
      if !ok {
        if e.Some? { ThenTooLong(h, s, sc, a, code1, pool1, b); }
        return;
      }
      Emit(Pop);
      ghost var off := |b.code| - |code1|;
      assert Now() == ElseStarts(code1, b, off);
      ok := Else();
      if !ok {
        if e.Some? { ElseFails(h, s, sc, a, code1, pool1, b, off); }
        return;
      }
      ok := IfEnd(inline, elseJump, s, a, code1, pool1, b, off);
    }

    /** Both arms are compiled: the jump over the second one is patched. */
    method IfEnd(inline: bool, elseJump: nat, ghost s: Stmt, ghost a: Snap, ghost code1: seq<byte>, ghost pool1: Pool, ghost b: Snap, ghost off: Offset)
      returns (ok: bool)
      requires Valid() && Settled(a.locals, depth) && Poised() && s.If? && Arm(s.thn) && Arm(s.els) && elseJump == |b.code| + 1
      requires Leaves(h, s.cond, a.locals, a.code, a.pool, code1, pool1)
      requires StmtLeaves(h, s.thn, Here(), ThenStarts(code1, pool1, a), b) && |code1| + 3 <= |b.code| && off == |b.code| - |code1|
      requires b.locals == a.locals && StmtLeaves(h, s.els, Here(), ElseStarts(code1, b, off), Now())
      modifies `pos, `code
      ensures IfDone(ok, if inline then Some(Parsed(s, old(Rest()), old(Line()))) else ExpectEnd(s, old(Rest()), EndIf), a)
    {
      hide Rest, Line, Prev, CodeExpr, Leaves, StmtLeaves, Compiles, Encode, Patched, Settled;
      IfLeaves(h, s, Here(), a, code1, pool1, b, off, Now());
      ok := PatchJump(elseJump);
      if !ok { return; }
      LeavesSettled(h, s, Here(), a, Now());
      if !inline { ok := Consumes(EndIf); }
    }

    /** Like `DoneStmt`, for a conditional that began at `a`. */
    twostate predicate IfDone(ok: bool, new r: Option<Parsed<Stmt>>, a: Snap)
      reads this
    {
      Valid() && ok == (r.Some? && Compiles(h, r.value.value, old(Here()), a))
      && (ok ==>
        StmtLeaves(h, r.value.value, old(Here()), a, Now()) && Here() == old(Here())
        && Stands(r.value) && Poised() && Settled(locals, depth))
    }

    /** The arm after `Else`, if there is one. */
    method Else() returns (ok: bool)
      requires Valid() && Settled(locals, depth) && Poised()
      modifies this
      ensures DoneStmt(ok, ParseElse(old(Rest()), old(Line()), |old(funs)|))
      decreases |toks| - pos, 10, 0
    {
      hide Rest, Line, Prev, ParseStmt, StmtLeaves, Settled;
      var found := Match(ElseWord);
      if found { ok := Statement(); }
      else {
        NoElse(h, Here(), Now());
        LeavesCompile(h, Block([]), Here(), Now(), Now());
        ok := true;
      }
    }

    /** `compile`, for a parser at the start of a file. */
    method Script() returns (ok: bool)
      requires Valid() && pos == 0 && Now() == Snap([], [], [SelfLocal], []) && Here() == Scope(0, true)
      modifies this
      ensures
        var body := ParseScript(toks);
        ok == (body.Some? && CodeProgram(h, body.value).Some?) && (ok ==> CodeProgram(h, body.value) == Some(funs))
    {
      hide ParseDecls, CodeProgram, BlockLeaves, AllCompile, Encode, Settled;
      assert toks[0..] == toks;
      DeclsStart(Plain, toks, ByEof, 0, 0);
      ScriptSettled(0);
      ok := Declarations(ByEof, Plain);
      ghost var body := ParseDecls(toks, ByEof, 0, 0);
      if body.Some? { ScriptBuilt(h, body.value.value, Now()); }
      if !ok { return; }
      Emit(Nil);
      Emit(Ret);
      funs := funs + [Machine.Function(0, code, pool)];
    }
  }

  /**
   The single pass over the tokens, with its backpatching, fails exactly when parsing or
   generating code for what was parsed fails, and produces the same functions.
   */
  method Compile(h: Host, toks: seq<Token>) returns (p: Option<Machine.Program>)
    ensures p == if ParseScript(toks).None? then None else CodeProgram(h, ParseScript(toks).value)
  {
    hide ParseScript, CodeProgram;
    var parser := new Parser(h, toks);
    var ok := parser.Script();
    if ok { p := Some(parser.funs); } else { p := None; }
  }
}
