/** A script in which `strtod` reads past a number: what is printed is not the number written. */
module Exponents {
  import opened Values
  import opened Syntax
  import opened Codegen
  import opened Grammar
  import opened Evaluator
  import opened Interpreter
  import opened Numbers
  import Interning
  import Bytecode
  import Machine
  import Reading
  import L = Lexer
  import P = Pratt

  const SCRIPT := "Print 1e5 = 3"

  /** The two statements it consists of: a number is printed, and then `e5` is assigned to, which does not exist. */
  function Statements(x: Literal, y: Literal): seq<Stmt> {
    [PrintStmt([NumLit(x)]), ExprStmt(Assign("e5", NumLit(y)))]
  }

  function Scanned(): seq<L.Token> {
    [L.Token(L.Print, "Print", SCRIPT, 1, 1), L.Token(L.Number, "1", "1e5 = 3", 1, 7), L.Token(L.Identifier, "e5", "e5 = 3", 1, 8),
     L.Token(L.Equal, "=", "= 3", 1, 11), L.Token(L.Number, "3", "3", 1, 13), L.Token(L.Eof, "", "", 1, 14)]
  }

  lemma {:induction false} OneLine(i: nat)
    requires i <= |SCRIPT|
    ensures L.LineOf(SCRIPT, i) == 1 && L.ColumnOf(SCRIPT, i) == i + 1
  {
    if i > 0 {
      OneLine(i - 1);
      NoFeed(i - 1);
    }
  }

  lemma NoFeed(i: nat)
    requires i < |SCRIPT|
    ensures SCRIPT[i] != '\n' && SCRIPT[i] != '\0'
  {
  }

  lemma Word0()
    ensures L.Munch(SCRIPT, 0) == L.Munched(L.Print, 5)
  {
    hide L.IdentifierType;
    assert L.WordEnd(SCRIPT, 5) == 5;
    assert L.WordEnd(SCRIPT, 4) == 5;
    assert L.WordEnd(SCRIPT, 3) == 5;
    assert L.WordEnd(SCRIPT, 2) == 5;
    assert SCRIPT[0..5] == "Print";
    assert L.IdentifierType("Print") == L.Print by { L.Recognised("Print", L.Print); }
  }

  lemma Word7()
    ensures L.Munch(SCRIPT, 7) == L.Munched(L.Identifier, 9)
  {
    assert L.WordEnd(SCRIPT, 9) == 9;
    assert L.WordEnd(SCRIPT, 8) == 9;
    assert SCRIPT[7..9] == "e5";
    assert L.IdentifierType("e5") == L.Identifier;
  }

  lemma Others()
    ensures L.Munch(SCRIPT, 6) == L.Munched(L.Number, 7) && L.Munch(SCRIPT, 10) == L.Munched(L.Equal, 11)
    ensures L.Munch(SCRIPT, 12) == L.Munched(L.Number, 13)
  {
    hide L.IdentifierType;
  }

  lemma Gaps()
    ensures L.Skip(SCRIPT, 0, 0) == 0 && L.Skip(SCRIPT, 0, 5) == 6 && L.Skip(SCRIPT, 6, 7) == 7
    ensures L.Skip(SCRIPT, 7, 9) == 10 && L.Skip(SCRIPT, 10, 11) == 12 && L.Skip(SCRIPT, 12, 13) == 13
  {
    assert forall i :: 0 <= i < |SCRIPT| ==> SCRIPT[i] != '#';
  }

  lemma NextScanned(q: nat, i: nat, j: nat, m: L.Munched, t: L.Token)
    requires q <= i <= j < m.end <= |SCRIPT| && L.Skip(SCRIPT, q, i) == j && L.Munch(SCRIPT, j) == m
    requires m.kind != L.Error && t == L.Token(m.kind, SCRIPT[j..m.end], SCRIPT[j..], 1, j + 1)
    ensures L.Tokens(SCRIPT, q, i) == [t] + L.Tokens(SCRIPT, j, m.end)
  {
    hide L.Skip, L.Munch, L.LineOf, L.ColumnOf;
    OneLine(m.end);
  }

  lemma Texts()
    ensures SCRIPT[0..5] == "Print" && SCRIPT[6..7] == "1" && SCRIPT[7..9] == "e5" && SCRIPT[10..11] == "=" && SCRIPT[12..13] == "3"
    ensures SCRIPT[0..] == SCRIPT && SCRIPT[6..] == "1e5 = 3" && SCRIPT[7..] == "e5 = 3" && SCRIPT[10..] == "= 3" && SCRIPT[12..] == "3"
  {
  }

  lemma LastScanned()
    ensures L.Tokens(SCRIPT, 12, 13) == [L.Token(L.Eof, "", "", 1, 14)]
  {
    hide L.LineOf, L.ColumnOf, L.Skip, L.Munch;
    Gaps();
    OneLine(13);
    assert SCRIPT[13..13] == "" && SCRIPT[13..] == "";
  }

  lemma TokensAre()
    ensures L.TokensOf(SCRIPT) == Scanned()
  {
    hide L.Skip, L.Munch, L.LineOf, L.ColumnOf, L.Tokens;
    Gaps();
    Word0();
    Word7();
    Others();
    Texts();
    hide SCRIPT;
    LastScanned();
    NextScanned(10, 11, 12, L.Munched(L.Number, 13), L.Token(L.Number, "3", "3", 1, 13));
    NextScanned(7, 9, 10, L.Munched(L.Equal, 11), L.Token(L.Equal, "=", "= 3", 1, 11));
    NextScanned(6, 7, 7, L.Munched(L.Identifier, 9), L.Token(L.Identifier, "e5", "e5 = 3", 1, 8));
    NextScanned(0, 5, 6, L.Munched(L.Number, 7), L.Token(L.Number, "1", "1e5 = 3", 1, 7));
    NextScanned(0, 0, 0, L.Munched(L.Print, 5), L.Token(L.Print, "Print", SCRIPT, 1, 1));
    NoNul();
  }

  lemma NoNul()
    ensures L.CString(SCRIPT) == SCRIPT
  {
    forall i | 0 <= i < |SCRIPT| ensures SCRIPT[i] != '\0' { NoFeed(i); }
  }

  /** The parser's tokens, when the two numbers have these values. */
  function Read(x: Literal, y: Literal): seq<P.Token> {
    [P.Token(P.PrintWord, 1), P.Token(P.Number(x), 1), P.Token(P.Identifier("e5"), 1), P.Token(P.Equal, 1), P.Token(P.Number(y), 1),
     P.Token(P.Eof, 1)]
  }

  lemma {:induction false} SomeTokens(h: Host, ts: seq<L.Token>)
    requires forall i :: 0 <= i < |ts| ==> !ts[i].kind.Error?
    ensures Reading.ParserTokens(h, ts).Some?
    decreases |ts|
  {
    if ts != [] { SomeTokens(h, ts[1..]); }
  }

  lemma KindsOf(h: Host, t: L.Token)
    ensures t.kind.Print? ==> Reading.KindOf(h, t) == P.PrintWord
    ensures t.kind.Number? ==> Reading.KindOf(h, t) == P.Number(h.number(t.rest))
    ensures t.kind.Identifier? && t.text == "e5" ==> Reading.KindOf(h, t) == P.Identifier("e5")
    ensures t.kind.Equal? ==> Reading.KindOf(h, t) == P.Equal
    ensures t.kind.Eof? ==> Reading.KindOf(h, t) == P.Eof
  {
  }

  lemma ReadAs(h: Host, ts: seq<L.Token>)
    requires ts == Scanned() || ts == Cut(Scanned())
    ensures Reading.ParserTokens(h, ts) == Some(Read(h.number(ts[1].rest), h.number(ts[4].rest)))
  {
    hide Reading.KindOf, Reading.ParserTokens;
    SomeTokens(h, ts);
    forall i | 0 <= i < 6 ensures Reading.KindOf(h, ts[i]) == Read(h.number(ts[1].rest), h.number(ts[4].rest))[i].kind { KindsOf(h, ts[i]); }
    assert Reading.ParserTokens(h, ts).value == Read(h.number(ts[1].rest), h.number(ts[4].rest));
  }

  lemma NumberParses(x: Literal, next: P.Token, rest: seq<P.Token>)
    requires P.Prec(next.kind) < P.ASSIGNMENT && next.kind != P.Equal
    ensures P.ParsePrec([P.Token(P.Number(x), 1), next] + rest, P.ASSIGNMENT) == Some(P.Parsed(NumLit(x), [next] + rest, 1))
  {
    assert ([P.Token(P.Number(x), 1), next] + rest)[1..] == [next] + rest;
  }

  lemma PrintParses(x: Literal, next: P.Token, rest: seq<P.Token>, n: nat)
    requires next.kind.Identifier?
    ensures ParseDecl([P.Token(P.PrintWord, 1), P.Token(P.Number(x), 1), next] + rest, 0, n)
      == Some(P.Parsed(PrintStmt([NumLit(x)]), [next] + rest, 1))
  {
    hide P.ParsePrec;
    NumberParses(x, next, rest);
    var ts := [P.Token(P.PrintWord, 1), P.Token(P.Number(x), 1), next] + rest;
    assert ts[1..] == [P.Token(P.Number(x), 1), next] + rest;
    assert P.ParseExprs(ts[1..]) == Some(P.Parsed([NumLit(x)], [next] + rest, 1));
  }

  lemma AssignParses(y: Literal, n: nat)
    ensures
      var eof := P.Token(P.Eof, 1);
      ParseDecl([P.Token(P.Identifier("e5"), 1), P.Token(P.Equal, 1), P.Token(P.Number(y), 1), eof], 1, n)
      == Some(P.Parsed(ExprStmt(Assign("e5", NumLit(y))), [eof], 1))
  {
    var eof := P.Token(P.Eof, 1);
    var ts := [P.Token(P.Identifier("e5"), 1), P.Token(P.Equal, 1), P.Token(P.Number(y), 1), eof];
    NumberParses(y, eof, []);
    assert ts[1..][1..] == [P.Token(P.Number(y), 1), eof] + [];
    assert P.ParsePrefix(ts, true) == Some(P.Parsed(Assign("e5", NumLit(y)), [eof], 1));
    assert P.ParsePrec(ts, P.ASSIGNMENT) == Some(P.Parsed(Assign("e5", NumLit(y)), [eof], 1));
    hide P.ParsePrec, P.ParsePrefix;
    assert ParseOther(ts, Plain, 1, n) == Some(P.Parsed(ExprStmt(Assign("e5", NumLit(y))), [eof], 1));
    assert ParseStmt(ts, Plain, 1, n) == Some(P.Parsed(ExprStmt(Assign("e5", NumLit(y))), [eof], 1));
  }

  lemma ParsedAs(x: Literal, y: Literal)
    ensures ParseScript(Read(x, y)) == Some(Statements(x, y))
  {
    hide ParseDecl;
    var eof, id := P.Token(P.Eof, 1), P.Token(P.Identifier("e5"), 1);
    var rest := [P.Token(P.Equal, 1), P.Token(P.Number(y), 1), eof];
    PrintParses(x, id, rest, 0);
    assert [P.Token(P.PrintWord, 1), P.Token(P.Number(x), 1), id] + rest == Read(x, y);
    AssignParses(y, 0);
    assert [id] + rest == [id, P.Token(P.Equal, 1), P.Token(P.Number(y), 1), eof];
    var p, e := PrintStmt([NumLit(x)]), ExprStmt(Assign("e5", NumLit(y)));
    assert FunsOf(p) == [] && FunsOf(e) == [];
    assert [e] + [] == [e] && [p] + [e] == Statements(x, y);
    assert ParseDecls([eof], ByEof, 1, 0) == Some(P.Parsed([], [eof], 1));
    assert ParseDecls([id] + rest, ByEof, 1, 0) == Some(P.Parsed([e], [eof], 1));
    assert ParseDecls(Read(x, y), ByEof, 0, 0) == Some(P.Parsed(Statements(x, y), [eof], 1));
  }

  lemma WorldIs(x: Literal, y: Literal)
    ensures WorldOf(Statements(x, y)) == [Decl(true, [], Statements(x, y))]
  {
    var body := Statements(x, y);
    assert body[1..][1..] == [] && FunsOfAll([]) == [];
    assert FunsOf(body[1]) == [] && FunsOfAll(body[1..]) == [];
    assert FunsOf(body[0]) == [] && FunsOfAll(body) == [];
  }

  lemma PrintCompiles(h: Host, x: Literal)
    ensures
      var g := CodeStmt(h, PrintStmt([NumLit(x)]), Scope(0, true), [SelfLocal], []);
      g.Some? && g.value.locals == [SelfLocal] && |g.value.pool| <= 1
  {
    hide Bytecode.Encode, AddConst;
    AddsOne(h, [], Num(x));
    assert [NumLit(x)][1..] == [];
    assert CodeExprs(h, [], [SelfLocal], CodeExpr(h, NumLit(x), [SelfLocal], []).value.pool).Some?;
  }

  lemma AssignCompiles(h: Host, y: Literal, pool: Pool)
    requires |pool| <= 1
    ensures
      var g := CodeStmt(h, ExprStmt(Assign("e5", NumLit(y))), Scope(0, true), [SelfLocal], pool);
      g.Some? && g.value.locals == [SelfLocal]
  {
    hide Bytecode.Encode, AddConst, Key;
    var name := Str(Key(h, "e5"));
    AddsOne(h, pool, name);
    var pool1 := AddConst(h, pool, name).value.pool;
    AddsOne(h, pool1, Num(y));
    assert Resolve([SelfLocal], "e5") == -1 by { assert [SelfLocal][..0] == []; }
    assert CodeExpr(h, NumLit(y), [SelfLocal], pool1).Some?;
    var e := Assign("e5", NumLit(y));
    assert CodeExpr(h, e, [SelfLocal], pool).Some?;
    assert HadAssign(e);
  }

  lemma Compiles(h: Host, x: Literal, y: Literal)
    ensures CodeProgram(h, Statements(x, y)).Some?
  {
    hide CodeStmt, Bytecode.Encode;
    var body := Statements(x, y);
    var sc := Scope(0, true);
    PrintCompiles(h, x);
    var pool := CodeStmt(h, body[0], sc, [SelfLocal], []).value.pool;
    AssignCompiles(h, y, pool);
    var g := CodeStmt(h, body[1], sc, [SelfLocal], pool).value;
    assert CodeBlock(h, [], sc, [SelfLocal], g.pool).Some?;
    assert body[1..] == [body[1]] && body[1..][1..] == [];
    assert CodeBlock(h, body[1..], sc, [SelfLocal], pool).Some?;
    assert CodeBlock(h, body, sc, [SelfLocal], []).Some?;
    WorldIs(x, y);
    hide CodeBlock;
    var w := WorldOf(body);
    assert CodeFunction(h, w[0]).Some?;
    assert w[1..] == [] && CodeFunctions(h, w[1..]).Some?;
  }

  /** The number is printed, and then the script fails. */
  lemma Prints(h: Host, x: Literal, y: Literal)
    ensures Meaning(h, Read(x, y), Interning.NOTHING)
      == Some(RuntimeError(Machine.Undefined(Key(h, "e5")), Interning.NOTHING.(out := [[Num(x)]])))
  {
    hide ParseScript, CodeProgram, Key;
    ParsedAs(x, y);
    Compiles(h, x, y);
    WorldIs(x, y);
    Evaluates(h, WorldOf(Statements(x, y)), x, y);
    hide WorldOf, EvalBlock;
  }

  lemma Evaluates(h: Host, w: World, x: Literal, y: Literal)
    ensures EvalBlock(h, w, Statements(x, y), true, Fun(0), [], Interning.NOTHING, 1)
      == Err(Machine.Undefined(Key(h, "e5")), Interning.NOTHING.(out := [[Num(x)]]))
  {
    hide Key;
    var st := Interning.NOTHING;
    var st1 := st.(out := [[Num(x)]]);
    var es, body := [NumLit(x)], Statements(x, y);
    assert es[1..] == [] && es[0] == NumLit(x);
    assert EvalAll(h, w, [], Fun(0), [], st, 1) == Ok([], [], st);
    assert Eval(h, w, es[0], Fun(0), [], st, 1) == Ok(Num(x), [], st);
    assert [Num(x)] + [] == [Num(x)];
    assert EvalAll(h, w, es, Fun(0), [], st, 1) == Ok([Num(x)], [], st);
    assert Evaluate(h, w, body[0], true, Fun(0), [], st, 1) == Ok(Onward, [], st1);
    assert Eval(h, w, Assign("e5", NumLit(y)), Fun(0), [], st1, 1) == Err(Machine.Undefined(Key(h, "e5")), st1);
    assert Evaluate(h, w, body[1], true, Fun(0), [], st1, 1) == Err(Machine.Undefined(Key(h, "e5")), st1);
    assert EvalBlock(h, w, body[1..], true, Fun(0), [], st1, 1) == Err(Machine.Undefined(Key(h, "e5")), st1);
  }

  /** `strtod` reads `1e5` where `1` is written. */
  lemma ReadsExponent()
    ensures Significant("1e5 = 3") == "1e5" && GoesOn("1e5 = 3", 1)
  {
  }

  /** And `0x10` where `0` is written. */
  lemma ReadsHexadecimal()
    ensures Significant("0x10 = 3") == "0x10" && GoesOn("0x10 = 3", 1)
  {
  }

  /**
   The script prints 100000 where 1 is written, on every host whose `strtod` goes by what it
   reads: the code and the text agree on it only if those two numbers are one.
   */
  lemma ExponentIsRead(h: Host)
    requires Reads(h)
    ensures SourceMeaning(h, SCRIPT, Interning.NOTHING)
      == Some(RuntimeError(Machine.Undefined(Key(h, "e5")), Interning.NOTHING.(out := [[Num(h.number("1e5"))]])))
    ensures WrittenMeaning(h, SCRIPT, Interning.NOTHING)
      == Some(RuntimeError(Machine.Undefined(Key(h, "e5")), Interning.NOTHING.(out := [[Num(h.number("1"))]])))
    ensures !NumbersEnd(L.TokensOf(SCRIPT))
  {
    hide L.TokensOf, Meaning, Reading.ParserTokens, Significant, Read, GoesOn;
    TokensAre();
    ReadAs(h, Scanned());
    ReadAs(h, Cut(Scanned()));
    ReadsExponent();
    assert h.number("1e5 = 3") == h.number("1e5") by { assert L.DigitAt("1e5 = 3", 0); }
    Prints(h, h.number("1e5"), h.number("3"));
    Prints(h, h.number("1"), h.number("3"));
    assert Scanned()[1].kind.Number?;
  }
}
