/**
 Scripts as they are written, and that parsing gives back what was written. Every statement
 starts on a line of its own; the statements in a block, a function or an arm are on the lines below.
 */
module Scripts {
  import opened Values
  import opened Syntax
  import opened Codegen
  import opened Pratt
  import opened PrattInverse
  import opened Grammar
  import opened Grouping

  datatype Given = Given(name: Ident, init: Option<Expr>)

  /**
   A statement as it is written. `inline` says that the arm of `Then` starts on its line and no
   closing word follows, `short` that the closing word is `End`. `Loose` is an arm made of
   declarations without braces.
   */
  datatype Source =
    | Expression(e: Expr)
    | PrintLine(es: seq<Expr>)
    | ReturnLine(result: Option<Expr>)
    | Braces(body: seq<Source>)
    | VarLine(name: Ident, init: Option<Expr>)
    | GlobalLine(items: seq<Given>)
    | Function(name: Ident, params: seq<Ident>, body: seq<Source>, short: bool)
    | Conditional(inline: bool, cond: Expr, thn: Source, els: Option<Source>, short: bool)
    | Loose(body: seq<Source>)

  // What is written

  function Initializer(init: Option<Expr>): seq<Kind> {
    match init
    case None => []
    case Some(e) => [Equal] + Print(e)
  }

  function Items(items: seq<Given>): seq<Kind> {
    if items == [] then []
    else if |items| == 1 then [Identifier(items[0].name)] + Initializer(items[0].init)
    else [Identifier(items[0].name)] + (Initializer(items[0].init) + ([Comma] + Items(items[1..])))
  }

  function Params(ps: seq<Ident>): seq<Kind> {
    if ps == [] then []
    else if |ps| == 1 then [Identifier(ps[0])]
    else [Identifier(ps[0]), Comma] + Params(ps[1..])
  }

  /** How many lines a statement takes. */
  function Height(s: Source): nat
    decreases s, 1
  {
    match s
    case Braces(body) => 2 + HeightAll(body)
    case Function(_, _, body, _) => 2 + HeightAll(body)
    case Conditional(inline, _, t, e, _) => Height(t) + ElseHeight(e) + if inline then 0 else 2
    case Loose(body) => HeightAll(body)
    case _ => 1
  }

  function ElseHeight(e: Option<Source>): nat
    decreases e, 0
  {
    match e
    case None => 0
    case Some(s) => 1 + Height(s)
  }

  function HeightAll(ss: seq<Source>): nat
    decreases ss, 0
  {
    if ss == [] then 0 else Height(ss[0]) + HeightAll(ss[1..])
  }

  /** The tokens of a statement on the lines of the script from number `l` on; line number `i` is line `f(i)` of the file. */
  function Tokens(s: Source, l: nat, f: nat -> nat): seq<Token>
    decreases s, 1
  {
    match s
    case Expression(e) => OnLine(Print(e), f(l))
    case PrintLine(es) => OnLine([PrintWord] + PrintAll(es), f(l))
    case ReturnLine(None) => OnLine([ReturnWord], f(l))
    case ReturnLine(Some(e)) => OnLine([ReturnWord] + Print(e), f(l))
    case VarLine(name, init) => OnLine([VarWord, Identifier(name)] + Initializer(init), f(l))
    case GlobalLine(items) => OnLine([GlobalWord] + Items(items), f(l))
    case Braces(body) =>
      Tok(LBrace, f(l)) + (TokensAll(body, l + 1, f) + Tok(RBrace, f(l + 1 + HeightAll(body))))
    case Function(name, params, body, short) =>
      OnLine([Func, Identifier(name), LParen] + (Params(params) + [RParen]), f(l))
      + (TokensAll(body, l + 1, f) + Tok(if short then End else EndFunc, f(l + 1 + HeightAll(body))))
    case Conditional(inline, c, t, e, short) =>
      var m := if inline then l else l + 1;
      var k := m + Height(t);
      OnLine([IfWord] + (Print(c) + [ThenWord]), f(l))
      + (Tokens(t, m, f) + (ElseTokens(e, k, f) + if inline then [] else Tok(if short then End else EndIf, f(k + ElseHeight(e)))))
    case Loose(body) => TokensAll(body, l, f)
  }

  function ElseTokens(e: Option<Source>, l: nat, f: nat -> nat): seq<Token>
    decreases e, 0
  {
    match e
    case None => []
    case Some(s) => Tok(ElseWord, f(l)) + Tokens(s, l + 1, f)
  }

  function TokensAll(ss: seq<Source>, l: nat, f: nat -> nat): seq<Token>
    decreases ss, 0
  {
    if ss == [] then [] else Tokens(ss[0], l, f) + TokensAll(ss[1..], l + Height(ss[0]), f)
  }

  // What it stands for

  /** A variable without an initializer starts as null. */
  function Start(init: Option<Expr>): Expr {
    match init
    case None => NullLit
    case Some(e) => e
  }

  function StartAll(items: seq<Given>): seq<Init> {
    if items == [] then [] else [Init(items[0].name, Start(items[0].init))] + StartAll(items[1..])
  }

  function Functions(s: Source): nat
    decreases s, 1
  {
    match s
    case Braces(body) => FunctionsIn(body)
    case Loose(body) => FunctionsIn(body)
    case Function(_, _, body, _) => FunctionsIn(body) + 1
    case Conditional(_, _, t, Some(e), _) => Functions(t) + Functions(e)
    case Conditional(_, _, t, None, _) => Functions(t)
    case _ => 0
  }

  function FunctionsIn(ss: seq<Source>): nat
    decreases ss, 0
  {
    if ss == [] then 0 else Functions(ss[0]) + FunctionsIn(ss[1..])
  }

  /** The statement it is, when `n` functions end before it; a function is numbered when it ends. */
  function Tree(s: Source, n: nat): Stmt
    decreases s, 1
  {
    match s
    case Expression(e) => ExprStmt(e)
    case PrintLine(es) => PrintStmt(es)
    case ReturnLine(None) => ReturnNull
    case ReturnLine(Some(e)) => Return(e)
    case VarLine(name, init) => Var(name, Start(init))
    case GlobalLine(items) => Globals(StartAll(items))
    case Braces(body) => Block(TreeAll(body, n))
    case Loose(body) => Block(TreeAll(body, n))
    case Function(name, params, body, _) => FunDecl(name, n + FunctionsIn(body), params, TreeAll(body, n))
    case Conditional(_, c, t, None, _) => If(c, Tree(t, n), Block([]))
    case Conditional(_, c, t, Some(e), _) => If(c, Tree(t, n), Tree(e, n + Functions(t)))
  }

  function TreeAll(ss: seq<Source>, n: nat): seq<Stmt>
    decreases ss, 0
  {
    if ss == [] then [] else [Tree(ss[0], n)] + TreeAll(ss[1..], n + Functions(ss[0]))
  }

  // What can be written so

  predicate Declares(s: Source) {
    s.VarLine? || s.GlobalLine? || s.Function?
  }

  /** What can be an arm by itself. */
  predicate Single(s: Source) {
    s.PrintLine? || s.ReturnLine? || s.Braces? || s.Conditional?
  }

  /** An `Else` that came next would belong to it. */
  predicate Open(s: Source) {
    match s
    case Conditional(inline, _, _, None, _) => inline
    case Conditional(inline, _, _, Some(e), _) => inline && Open(e)
    case Loose(body) => body != [] && Open(body[|body| - 1])
    case _ => false
  }

  /** Its last word is a `Return` without a value, which takes whatever is on its line for one. */
  predicate Bare(s: Source) {
    match s
    case ReturnLine(None) => true
    case Conditional(inline, _, t, None, _) => inline && Bare(t)
    case Conditional(inline, _, _, Some(e), _) => inline && Bare(e)
    case Loose(body) => body != [] && Bare(body[|body| - 1])
    case _ => false
  }

  ghost predicate GoodInit(init: Option<Expr>) {
    init.Some? ==> Bracketed(init.value)
  }

  /** Declarations without braces are closed by the `Else`, or the `EndIf`, of a conditional over several lines. */
  predicate ArmFits(inline: bool, t: Source, e: Option<Source>, short: bool) {
    (Single(t) || (t.Loose? && if inline then |t.body| == 1 else e.Some?))
    && (e.Some? ==> !Open(t) && (Single(e.value) || (e.value.Loose? && !inline && !short)))
  }

  ghost predicate Well(s: Source)
    decreases s, 1
  {
    match s
    case Expression(e) => Bracketed(e) && Print(e)[0] != Func
    case PrintLine(es) => es != [] && AllBracketed(es)
    case ReturnLine(e) => GoodInit(e)
    case VarLine(_, init) => GoodInit(init)
    case GlobalLine(items) => items != [] && forall i :: 0 <= i < |items| ==> GoodInit(items[i].init)
    case Braces(body) => WellAll(body)
    case Function(_, _, body, _) => WellAll(body)
    case Conditional(inline, c, t, e, short) => Bracketed(c) && Well(t) && WellElse(e) && ArmFits(inline, t, e, short)
    case Loose(body) => WellAll(body) && (body != [] ==> Declares(body[0]))
  }

  ghost predicate WellElse(e: Option<Source>)
    decreases e, 0
  {
    e.Some? ==> Well(e.value)
  }

  ghost predicate WellAll(ss: seq<Source>)
    decreases ss, 0
  {
    ss == [] || (Well(ss[0]) && !ss[0].Loose? && WellAll(ss[1..]))
  }

  /** Later lines of the script are later lines of the file. */
  ghost predicate Rising(f: nat -> nat) {
    forall i: nat, j: nat :: i < j ==> f(i) < f(j)
  }

  /** What follows is on line `line` or later, unless it is the end of the file, and can follow a statement. */
  predicate Below(rest: seq<Token>, line: nat) {
    rest != [] && (rest[0].line >= line || rest[0].kind.Eof?) && !rest[0].kind.Equal? && !rest[0].kind.Comma?
  }

  // Counting functions

  lemma {:induction false} Counted(s: Source, n: nat)
    ensures |FunsOf(Tree(s, n))| == Functions(s)
    decreases s, 1
  {
    match s
    case Braces(body) => CountedAll(body, n);
    case Loose(body) => CountedAll(body, n);
    case Function(_, _, body, _) => CountedAll(body, n);
    case Conditional(_, _, t, None, _) =>
      Counted(t, n);
      assert FunsOf(Block([])) == [] by { NoneIn(); }
    case Conditional(_, _, t, Some(e), _) => Counted(t, n); Counted(e, n + Functions(t));
    case _ =>
  }

  lemma NoneIn()
    ensures FunsOfAll([]) == [] && FunsOf(Block([])) == []
  {
  }

  lemma {:induction false} CountedAll(ss: seq<Source>, n: nat)
    ensures |FunsOfAll(TreeAll(ss, n))| == FunctionsIn(ss)
    decreases ss, 0
  {
    if ss != [] {
      Counted(ss[0], n);
      CountedAll(ss[1..], n + Functions(ss[0]));
      assert TreeAll(ss, n)[1..] == TreeAll(ss[1..], n + Functions(ss[0]));
    }
  }
}
