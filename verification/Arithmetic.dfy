/**
 What the operators compute, said without the machine's own tables: on numbers and booleans the
 operation of the processor on their amounts, on integers the integer result, and for other
 pairs of values which operators take them at all.
 */
module Arithmetic {
  import opened Values
  import opened Syntax
  import opened Evaluator
  import opened Codegen
  import Comparisons
  import opened Simulation
  import opened Programs
  import Interning
  import opened Verifier
  import Bytecode
  import Machine

  const NEGATIVE_ZERO: Raw := 0x8000_0000_0000_0000

  /** An integer every double arithmetic represents. */
  predicate Whole(i: int) {
    -0x20_0000_0000_0000 <= i <= 0x20_0000_0000_0000
  }

  /** The double of an integer that came out of an operation, which is negative zero for a zero with a sign. */
  function Double(h: Host, i: int, negative: bool): Raw {
    if i == 0 && negative then NEGATIVE_ZERO else h.ofInt(i)
  }

  /** What IEEE 754 makes of two integers, where the result is an integer a double represents. */
  predicate ExactOn(h: Host, i: int, j: int) {
    var a, b := h.ofInt(i), h.ofInt(j);
    (Whole(i + j) ==> h.add(a, b) == h.ofInt(i + j))
    && (Whole(i - j) ==> h.sub(a, b) == h.ofInt(i - j))
    && (Whole(i * j) ==> h.mul(a, b) == Double(h, i * j, i < 0 || j < 0))
    && (Whole(i * j) && j != 0 ==> h.div(h.ofInt(i * j), b) == Double(h, i, j < 0))
    && h.neg(a) == Double(h, -i, true)
    && (h.lt(a, b) <==> i < j) && (h.le(a, b) <==> i <= j) && (h.eq(a, b) <==> i == j)
  }

  /** The arithmetic of IEEE 754 on integers. */
  ghost predicate Exact(h: Host) {
    forall i, j :: Whole(i) && Whole(j) ==> ExactOn(h, i, j)
  }

  /** A number has its own amount, and a boolean that of one or zero. */
  predicate Amounts(h: Host, v: Value, a: Raw) {
    v == Num(a) || (v == Bool(true) && a == h.ofInt(1)) || (v == Bool(false) && a == h.ofInt(0))
  }

  /** On numbers and booleans, in any mixture, an operator is that of the processor on the two amounts, the left one first. */
  lemma OnAmounts(h: Host, x: Value, y: Value, a: Raw, b: Raw)
    requires Exact(h) && Amounts(h, x, a) && Amounts(h, y, b)
    ensures InfixValue(h, Plus, x, y) == Some(Num(h.add(a, b))) && InfixValue(h, Minus, x, y) == Some(Num(h.sub(a, b)))
    ensures InfixValue(h, Star, x, y) == Some(Num(h.mul(a, b))) && InfixValue(h, Slash, x, y) == Some(Num(h.div(a, b)))
    ensures InfixValue(h, Less, x, y) == Some(Bool(h.lt(a, b))) && InfixValue(h, LessEqual, x, y) == Some(Bool(h.le(a, b)))
    ensures InfixValue(h, Greater, x, y) == Some(Bool(!h.le(a, b))) && InfixValue(h, GreaterEqual, x, y) == Some(Bool(!h.lt(a, b)))
    ensures InfixValue(h, EqualEqual, x, y) == Some(Bool(h.eq(a, b))) && InfixValue(h, BangEqual, x, y) == Some(Bool(!h.eq(a, b)))
  {
    hide Exact;
    if x.Bool? && y.Bool? { OnBits(h, x.b, y.b); }
  }

  /** Two booleans: the machine's integer arithmetic is that of the doubles. */
  lemma OnBits(h: Host, x: bool, y: bool)
    requires Exact(h)
    ensures
      var i, j := BoolToInt(x), BoolToInt(y);
      var a, b := h.ofInt(i), h.ofInt(j);
      h.ofInt(i + j) == h.add(a, b) && h.ofInt(i - j) == h.sub(a, b) && h.ofInt(i * j) == h.mul(a, b)
      && h.lt(a, b) == (i < j) && h.le(a, b) == (i <= j) && h.eq(a, b) == (x == y)
  {
    assert ExactOn(h, BoolToInt(x), BoolToInt(y));
    hide Exact;
  }

  /** What an operator says of two integers, as a number or as a truth value. */
  ghost predicate Says(h: Host, op: InfixOp, i: int, j: int, v: Value) {
    match op
    case Plus => Whole(i + j) ==> v == Num(h.ofInt(i + j))
    case Minus => Whole(i - j) ==> v == Num(h.ofInt(i - j))
    case Star => Whole(i * j) && (i * j != 0 || (i >= 0 && j >= 0)) ==> v == Num(h.ofInt(i * j))
    case Slash => j != 0 && i % j == 0 && (i != 0 || j > 0) ==> v == Num(h.ofInt(i / j))
    case Less => v == Bool(i < j)
    case LessEqual => v == Bool(i <= j)
    case Greater => v == Bool(i > j)
    case GreaterEqual => v == Bool(i >= j)
    case EqualEqual => v == Bool(i == j)
    case BangEqual => v == Bool(i != j)
  }

  /** On two integers each operator gives the integer result. */
  lemma OnIntegers(h: Host, op: InfixOp, i: int, j: int)
    requires Exact(h) && Whole(i) && Whole(j)
    ensures InfixValue(h, op, Num(h.ofInt(i)), Num(h.ofInt(j))).Some?
    ensures Says(h, op, i, j, InfixValue(h, op, Num(h.ofInt(i)), Num(h.ofInt(j))).value)
  {
    hide InfixValue;
    OnAmounts(h, Num(h.ofInt(i)), Num(h.ofInt(j)), h.ofInt(i), h.ofInt(j));
    assert ExactOn(h, i, j);
    hide Exact;
    if op.Slash? && j != 0 && i % j == 0 && (i != 0 || j > 0) { Quotient(h, i, j); }
  }

  lemma Quotient(h: Host, i: int, j: int)
    requires Exact(h) && Whole(i) && Whole(j) && j != 0 && i % j == 0 && (i != 0 || j > 0)
    ensures h.div(h.ofInt(i), h.ofInt(j)) == h.ofInt(i / j)
  {
    var k := i / j;
    assert i == k * j;
    assert Whole(k) by { Smaller(i, j, k); }
    assert ExactOn(h, k, j);
  }

  function Abs(i: int): nat {
    if i < 0 then -i else i
  }

  lemma AbsProduct(j: int, k: int)
    ensures Abs(j * k) == Abs(j) * Abs(k)
  {
    if j < 0 && k < 0 { assert -j * -k == j * k; }
    else if j < 0 { assert -j * k == -(j * k); }
    else if k < 0 { assert j * -k == -(j * k); }
  }

  lemma Smaller(i: int, j: int, k: int)
    requires j != 0 && i == k * j && Whole(i)
    ensures Whole(k) && (k == 0 ==> i == 0)
  {
    AbsProduct(j, k);
    Machine.ProductAtLeast(Abs(j), Abs(k));
    assert i == j * k && Abs(i) >= Abs(k);
  }

  function AsInt(b: bool): int {
    if b then 1 else 0
  }

  /** A boolean gives what its number gives: the two can be exchanged wherever an operator takes either. */
  lemma BooleansAreNumbers(h: Host, op: InfixOp, b: bool, y: Value)
    requires Exact(h) && (y.Num? || y.Bool?)
    ensures InfixValue(h, op, Bool(b), y) == InfixValue(h, op, Num(h.ofInt(AsInt(b))), y)
    ensures InfixValue(h, op, y, Bool(b)) == InfixValue(h, op, y, Num(h.ofInt(AsInt(b))))
  {
    hide InfixValue, Exact;
    var a, c := h.ofInt(AsInt(b)), if y.Num? then y.raw else h.ofInt(AsInt(y.b));
    OnAmounts(h, Bool(b), y, a, c);
    OnAmounts(h, Num(a), y, a, c);
    OnAmounts(h, y, Bool(b), c, a);
    OnAmounts(h, y, Num(a), c, a);
  }

  predicate Amount(v: Value) {
    v.Num? || v.Bool?
  }

  /** On every other pair: strings can be joined, the two values compared for being the same, and the rest is an error. */
  lemma OnOthers(h: Host, x: Value, y: Value)
    requires !(Amount(x) && Amount(y))
    ensures InfixValue(h, Plus, x, y) == if x.Str? && y.Str? then Some(Str(h.intern(x.s + y.s))) else None
    ensures forall op :: op in {Minus, Star, Slash, Less, LessEqual, Greater, GreaterEqual} ==> InfixValue(h, op, x, y) == None
    ensures InfixValue(h, EqualEqual, x, y) == Some(Bool(x == y)) && InfixValue(h, BangEqual, x, y) == Some(Bool(x != y))
  {
  }

  /** The values that count as false, all of them. */
  predicate CountsAsFalse(v: Value) {
    v in {Null, Bool(false), Num(0)}
  }

  /** `Not` and `!` tell exactly these apart from all others: strings, maps, functions, other numbers and `True`. */
  lemma OnNot(h: Host, v: Value)
    ensures PrefixValue(h, NotWord, v) == PrefixValue(h, Bang, v) == Some(Bool(CountsAsFalse(v)))
  {
  }

  /** A minus changes the sign of a number; of a boolean it makes zero or minus one; anything else is an error. */
  lemma OnMinus(h: Host, v: Value, i: int)
    requires Exact(h) && Whole(i)
    ensures v.Num? ==> PrefixValue(h, Dash, v) == Some(Num(h.neg(v.raw)))
    ensures v == Num(h.ofInt(i)) && i != 0 ==> PrefixValue(h, Dash, v) == Some(Num(h.ofInt(-i)))
    ensures v.Bool? ==> PrefixValue(h, Dash, v) == Some(Num(if v.b then h.ofInt(-1) else h.ofInt(0)))
    ensures !v.Num? && !v.Bool? ==> PrefixValue(h, Dash, v) == None
  {
    assert ExactOn(h, i, i);
    hide Exact;
  }

  /** A condition that is one of these takes the arm of `Else`, and any other the arm of `Then`. */
  lemma ArmTaken(h: Host, w: World, c: Expr, t: Stmt, e: Stmt, top: bool, self: Value, env: Env, st: Machine.Store, height: nat)
    requires height <= FRAMES_MAX && Eval(h, w, c, self, env, st, height).Ok?
    ensures
      var r := Eval(h, w, c, self, env, st, height);
      Evaluate(h, w, If(c, t, e), top, self, env, st, height)
      == Evaluate(h, w, if CountsAsFalse(r.value) then e else t, top, self, r.env, r.store, height)
  {
    hide Eval;
  }

  /** `And` stops at one of these, `Or` at any other, with that value; otherwise the value is that of the right operand. */
  lemma OperandTaken(h: Host, w: World, l: Expr, r: Expr, self: Value, env: Env, st: Machine.Store, height: nat)
    requires height <= FRAMES_MAX && Eval(h, w, l, self, env, st, height).Ok?
    ensures
      var a := Eval(h, w, l, self, env, st, height);
      var b := Eval(h, w, r, self, a.env, a.store, height);
      Eval(h, w, And(l, r), self, env, st, height) == (if CountsAsFalse(a.value) then a else b)
      && Eval(h, w, Or(l, r), self, env, st, height) == if CountsAsFalse(a.value) then b else a
  {
    UnfoldAnd(h, w, And(l, r), self, env, st, height);
    UnfoldOr(h, w, Or(l, r), self, env, st, height);
    hide Eval;
  }

  /** `Print x op y`. */
  function Calculation(op: InfixOp, x: Literal, y: Literal): seq<Stmt> {
    [PrintStmt([Infix(op, NumLit(x), NumLit(y))])]
  }

  lemma CalculationEvaluates(h: Host, w: World, op: InfixOp, x: Literal, y: Literal, v: Value, st: Machine.Store)
    requires InfixValue(h, op, Num(x), Num(y)) == Some(v)
    ensures EvalBlock(h, w, Calculation(op, x, y), true, Fun(0), [], st, 1) == Ok(Onward, [], st.(out := st.out + [[v]]))
  {
    hide InfixValue;
    var e := Infix(op, NumLit(x), NumLit(y));
    var es, body := [e], Calculation(op, x, y);
    UnfoldInfix(h, w, e, Fun(0), [], st, 1);
    assert es[1..] == [] && es[0] == e && body[1..] == [];
    assert EvalAll(h, w, [], Fun(0), [], st, 1) == Ok([], [], st);
    assert Eval(h, w, es[0], Fun(0), [], st, 1) == Ok(v, [], st);
    assert [v] + [] == [v];
    assert EvalAll(h, w, es, Fun(0), [], st, 1) == Ok([v], [], st);
    assert Evaluate(h, w, body[0], true, Fun(0), [], st, 1) == Ok(Onward, [], st.(out := st.out + [[v]]));
    assert EvalBlock(h, w, [], true, Fun(0), [], st.(out := st.out + [[v]]), 1) == Ok(Onward, [], st.(out := st.out + [[v]]));
  }

  lemma CalculationCompiles(h: Host, op: InfixOp, x: Literal, y: Literal)
    ensures CodeProgram(h, Calculation(op, x, y)).Some? && WorldOf(Calculation(op, x, y)) == [Decl(true, [], Calculation(op, x, y))]
  {
    hide Bytecode.Encode, AddConst, InfixCode;
    var e, body, sc := Infix(op, NumLit(x), NumLit(y)), Calculation(op, x, y), Scope(0, true);
    AddsOne(h, [], Num(x));
    var pool := AddConst(h, [], Num(x)).value.pool;
    AddsOne(h, pool, Num(y));
    assert CodeExpr(h, e.left, [SelfLocal], []).Some?;
    assert CodeExpr(h, e.right, [SelfLocal], pool).Some?;
    var g := CodeExpr(h, e, [SelfLocal], []);
    assert [e][1..] == [] && CodeExprs(h, [], [SelfLocal], g.value.pool).Some?;
    assert CodeExprs(h, [e], [SelfLocal], []).Some?;
    var s := CodeStmt(h, body[0], sc, [SelfLocal], []);
    assert body[1..] == [] && CodeBlock(h, [], sc, [SelfLocal], s.value.pool).Some?;
    assert FunsOf(body[0]) == [] && FunsOfAll([]) == [] && FunsOfAll(body) == [];
    var w := WorldOf(body);
    assert CodeFunction(h, w[0]).Some?;
    assert w[1..] == [] && CodeFunctions(h, w[1..]).Some?;
  }

  lemma OneStatement(op: InfixOp, x: Literal, y: Literal)
    ensures Proper(Calculation(op, x, y))
  {
    var body := Calculation(op, x, y);
    var e := Infix(op, NumLit(x), NumLit(y));
    assert body[1..] == [] && [e][1..] == [];
    assert MapsFit(e.left) && MapsFit(e.right) && MapsFit(e);
    assert [e][0] == e && AllMapsFit([]) && AllMapsFit([e]);
    assert BlockFits(body[1..]) && SitedAll(body[1..], 0);
  }

  /** `Print i op j`, compiled and run, prints what the operator says of the two integers. */
  lemma CalculationPrints(h: Host, op: InfixOp, x: Literal, y: Literal, i: nat, j: nat) returns (v: Value)
    requires Exact(h) && h.Sound() && Whole(i) && Whole(j) && x == h.ofInt(i) && y == h.ofInt(j)
    ensures Says(h, op, i, j, v) && CodeProgram(h, Calculation(op, x, y)).Some?
    ensures
      var p := CodeProgram(h, Calculation(op, x, y)).value;
      Machine.Run(h, p, Initial([], 0, Interning.NOTHING)) == Machine.Halted([], Interning.NOTHING.(out := [[v]]))
  {
    hide InfixValue, CodeProgram, Machine.Run, Says, Exact, h.Sound, WorldOf, EvalBlock;
    OnIntegers(h, op, i, j);
    v := InfixValue(h, op, Num(x), Num(y)).value;
    CalculationCompiles(h, op, x, y);
    var body := Calculation(op, x, y);
    CalculationEvaluates(h, WorldOf(body), op, x, y, v, Interning.NOTHING);
    OneStatement(op, x, y);
    CompiledScriptRunsAsEvaluated(h, body, [], Interning.NOTHING);
  }

  /** Sign and magnitude, for integers that fit. */
  function Pattern(i: int): Raw {
    if 0 <= i < Comparisons.INFINITY then i
    else if i < 0 && -i < Comparisons.INFINITY then Comparisons.SIGN - i
    else Comparisons.INFINITY
  }

  function Signed(i: int, negative: bool): Raw {
    if i == 0 && negative then NEGATIVE_ZERO else Pattern(i)
  }

  function Flipped(a: Raw): Raw {
    if a < Comparisons.SIGN then a + Comparisons.SIGN else a - Comparisons.SIGN
  }

  function Product(a: Raw, b: Raw): Raw {
    Signed(Comparisons.Rank(a) * Comparisons.Rank(b), a >= Comparisons.SIGN || b >= Comparisons.SIGN)
  }

  function Ratio(a: Raw, b: Raw): Raw {
    if Comparisons.Rank(b) == 0 then 0 else Signed(Comparisons.Rank(a) / Comparisons.Rank(b), b >= Comparisons.SIGN)
  }

  /** A host that computes on integers. */
  function Counting(h: Host): Host {
    Comparisons.Ieee(h).(
      ofInt := i => Pattern(i),
      add := (a: Raw, b: Raw) => Pattern(Comparisons.Rank(a) + Comparisons.Rank(b)),
      sub := (a: Raw, b: Raw) => Pattern(Comparisons.Rank(a) - Comparisons.Rank(b)),
      mul := (a: Raw, b: Raw) => Product(a, b),
      div := (a: Raw, b: Raw) => Ratio(a, b),
      neg := (a: Raw) => Flipped(a))
  }

  lemma PatternRank(i: int)
    requires Whole(i)
    ensures Comparisons.Rank(Pattern(i)) == i && (Pattern(i) >= Comparisons.SIGN <==> i < 0)
    ensures !Comparisons.Nan(Pattern(i))
  {
  }

  /** A multiple divided by its factor. */
  lemma Divides(i: int, j: int)
    requires j != 0
    ensures i * j / j == i
  {
    var q, r := i * j / j, i * j % j;
    var d := i - q;
    assert j * d == r;
    AbsProduct(j, d);
    if d != 0 {
      Machine.ProductAtLeast(Abs(d), Abs(j));
      assert false;
    }
  }

  /** What is asked of the arithmetic can be had, together with the comparisons of IEEE 754. */
  lemma CountingIsExact(h: Host)
    ensures Exact(Counting(h)) && Comparisons.Compares(Counting(h)) && Counting(h).Sound()
  {
    forall i, j | Whole(i) && Whole(j) ensures ExactOn(Counting(h), i, j) { CountingOn(h, i, j); }
    hide Exact;
    Comparisons.IeeeCompares(h);
  }

  lemma CountingOn(h: Host, i: int, j: int)
    requires Whole(i) && Whole(j)
    ensures ExactOn(Counting(h), i, j)
  {
    hide Pattern, Comparisons.Rank, Comparisons.Nan;
    PatternRank(i);
    PatternRank(j);
    var a, b, g := Pattern(i), Pattern(j), Counting(h);
    assert g.ofInt(i) == a && g.ofInt(j) == b;
    FlippedPattern(i);
    if Whole(i * j) && j != 0 {
      PatternRank(i * j);
      Divides(i, j);
      RatioOf(i, j);
    }
  }

  lemma FlippedPattern(i: int)
    requires Whole(i)
    ensures Flipped(Pattern(i)) == Signed(-i, true)
  {
  }

  lemma RatioOf(i: int, j: int)
    requires Whole(i) && Whole(j) && Whole(i * j) && j != 0 && i * j / j == i
    ensures Ratio(Pattern(i * j), Pattern(j)) == Signed(i, j < 0)
  {
    hide Pattern, Comparisons.Rank, Comparisons.Nan;
    PatternRank(i * j);
    PatternRank(j);
  }
}
