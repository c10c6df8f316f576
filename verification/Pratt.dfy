/**
 The expression grammar: precedence climbing over tokens, and the printing it inverts.
 `None` is a syntax error.
 */
module Pratt {
  import opened Values
  import opened Syntax

  /** The token kinds that matter to the compiler; the rest have no rule and start nothing. */
  datatype Kind =
    | LParen | RParen | LBracket | RBracket | LBrace | RBrace
    | Comma | Dot | MinusSign | PlusSign | SlashSign | StarSign
    | BangSign | NotEq | Equal | EqEq | Gt | GtEq | LtSign | LtEq
    | Identifier(id: Ident) | StringTok(s: string) | Number(n: Literal)
    | AndWord | OrWord | NotWordTok | TrueWord | FalseWord | NullWord
    | Func | VarWord | GlobalWord | PrintWord | IfWord | ThenWord | ElseWord
    | ReturnWord | End | EndIf | EndFunc
    | Other | Eof

  datatype Token = Token(kind: Kind, line: nat)

  /** What a parse yields: its value, the tokens left and the line of the last token consumed. */
  datatype Parsed<+T> = Parsed(value: T, rest: seq<Token>, line: nat)

  const NONE: nat := 0
  const ASSIGNMENT: nat := 1
  const OR: nat := 2
  const AND: nat := 3
  const EQUALITY: nat := 4
  const COMPARISON: nat := 5
  const TERM: nat := 6
  const FACTOR: nat := 7
  const UNARY: nat := 8
  const CALL: nat := 9
  const PRIMARY: nat := 10

  /** The `precedence` column of the rule table. */
  function Prec(k: Kind): (n: nat)
    ensures n <= CALL
  {
    match k
    case LParen => CALL
    case LBracket => CALL
    case Dot => CALL
    case MinusSign => TERM
    case PlusSign => TERM
    case SlashSign => FACTOR
    case StarSign => FACTOR
    case NotEq => EQUALITY
    case EqEq => EQUALITY
    case Gt => COMPARISON
    case GtEq => COMPARISON
    case LtSign => COMPARISON
    case LtEq => COMPARISON
    case AndWord => AND
    case OrWord => OR
    case _ => NONE
  }

  /** The operators `binary` handles. */
  function InfixOf(k: Kind): Option<InfixOp> {
    match k
    case MinusSign => Some(Minus)
    case PlusSign => Some(Plus)
    case SlashSign => Some(Slash)
    case StarSign => Some(Star)
    case NotEq => Some(BangEqual)
    case EqEq => Some(EqualEqual)
    case Gt => Some(Greater)
    case GtEq => Some(GreaterEqual)
    case LtSign => Some(Less)
    case LtEq => Some(LessEqual)
    case _ => None
  }

  function PrefixOf(k: Kind): Option<PrefixOp> {
    match k
    case BangSign => Some(Bang)
    case NotWordTok => Some(NotWord)
    case MinusSign => Some(Dash)
    case _ => None
  }

  /** Tokens that are an expression by themselves. */
  function LiteralOf(k: Kind): Option<Expr> {
    match k
    case Number(n) => Some(NumLit(n))
    case StringTok(s) => Some(StrLit(s))
    case NullWord => Some(NullLit)
    case TrueWord => Some(TrueLit)
    case FalseWord => Some(FalseLit)
    case Func => Some(SelfLit)
    case _ => None
  }

  /** The kind of the current token; past the end the scanner keeps returning the end of file. */
  function Kind0(ts: seq<Token>): Kind {
    if ts == [] then Eof else ts[0].kind
  }

  predicate Starts(ts: seq<Token>, k: Kind) {
    ts != [] && ts[0].kind == k
  }

  /** `parser->current.line > parser->previous.line`. */
  predicate NewLine(ts: seq<Token>, line: nat) {
    ts != [] && ts[0].line > line
  }

  /** `consume` of a fixed token. */
  function Expect<T>(v: T, ts: seq<Token>, k: Kind): (r: Option<Parsed<T>>)
    ensures r.Some? ==> ts != [] && r.value == Parsed(v, ts[1..], ts[0].line)
  {
    if Starts(ts, k) then Some(Parsed(v, ts[1..], ts[0].line)) else None
  }

  /** `parsePrecedence`. */
  function ParsePrec(ts: seq<Token>, p: nat): (r: Option<Parsed<Expr>>)
    requires p >= ASSIGNMENT
    ensures r.Some? ==> |r.value.rest| < |ts|
    decreases |ts|, 1
  {
    if ts == [] then None
    else
      var a :- ParsePrefix(ts, p <= ASSIGNMENT);
      var b :- ParseInfixes(a.value, a.rest, a.line, p);
      if p <= ASSIGNMENT && Starts(b.rest, Equal) then None else Some(b)
  }

  /** The prefix rule of the first token. */
  function ParsePrefix(ts: seq<Token>, canAssign: bool): (r: Option<Parsed<Expr>>)
    requires ts != []
    ensures r.Some? ==> |r.value.rest| < |ts|
    decreases |ts|, 0
  {
    var k, rest, line := ts[0].kind, ts[1..], ts[0].line;
    if LiteralOf(k).Some? then Some(Parsed(LiteralOf(k).value, rest, line))
    else if PrefixOf(k).Some? then
      var x :- ParsePrec(rest, UNARY);
      Some(Parsed(Prefix(PrefixOf(k).value, x.value), x.rest, x.line))
    else
      match k
      case LParen =>
        var x :- ParsePrec(rest, ASSIGNMENT);
        Expect(Group(x.value), x.rest, RParen)
      case LBracket =>
        var es :- ParseList(rest, line, RBracket);
        Some(Parsed(MapLit(es.value), es.rest, es.line))
      case Identifier(id) =>
        if canAssign && Starts(rest, Equal) then
          var v :- ParsePrec(rest[1..], ASSIGNMENT);
          Some(Parsed(Assign(id, v.value), v.rest, v.line))
        else Some(Parsed(Name(id), rest, line))
      case _ => None
  }

  /** Whether the loop of `parsePrecedence` takes the current token. */
  predicate Continues(ts: seq<Token>, line: nat, p: nat) {
    ts != [] && p <= Prec(ts[0].kind) && !NewLine(ts, line)
  }

  function ParseInfixes(e: Expr, ts: seq<Token>, line: nat, p: nat): (r: Option<Parsed<Expr>>)
    requires p >= ASSIGNMENT
    ensures r.Some? ==> |r.value.rest| <= |ts|
    decreases |ts|, 2
  {
    if Continues(ts, line, p) then
      var a :- ParseInfix(e, ts, p <= ASSIGNMENT);
      ParseInfixes(a.value, a.rest, a.line, p)
    else Some(Parsed(e, ts, line))
  }

  /** The infix rule of the current token, whose left operand is `e`. */
  function ParseInfix(e: Expr, ts: seq<Token>, canAssign: bool): (r: Option<Parsed<Expr>>)
    requires ts != [] && Prec(ts[0].kind) > NONE
    ensures r.Some? ==> |r.value.rest| < |ts|
    decreases |ts|, 0
  {
    var k, rest, line := ts[0].kind, ts[1..], ts[0].line;
    if InfixOf(k).Some? then
      var r :- ParsePrec(rest, Prec(k) + 1);
      Some(Parsed(Infix(InfixOf(k).value, e, r.value), r.rest, r.line))
    else
      match k
      case AndWord =>
        var r :- ParsePrec(rest, AND);
        Some(Parsed(And(e, r.value), r.rest, r.line))
      case OrWord =>
        var r :- ParsePrec(rest, OR);
        Some(Parsed(Or(e, r.value), r.rest, r.line))
      case LParen =>
        var args :- ParseList(rest, line, RParen);
        Some(Parsed(Invoke(e, args.value), args.rest, args.line))
      case Dot =>
        if rest == [] || !rest[0].kind.Identifier? then None
        else
          var id := rest[0].kind.id;
          if canAssign && Starts(rest[1..], Equal) then
            var v :- ParsePrec(rest[2..], ASSIGNMENT);
            Some(Parsed(SetMember(e, id, v.value), v.rest, v.line))
          else Some(Parsed(Member(e, id), rest[1..], rest[0].line))
      case LBracket =>
        var key :- ParsePrec(rest, ASSIGNMENT);
        var close :- Expect(key.value, key.rest, RBracket);
        if canAssign && Starts(close.rest, Equal) then
          var v :- ParsePrec(close.rest[1..], ASSIGNMENT);
          Some(Parsed(SetIndex(e, key.value, v.value), v.rest, v.line))
        else Some(Parsed(Index(e, key.value), close.rest, close.line))
      case _ => None
  }

  /** A possibly empty list of expressions up to `close`. */
  function ParseList(ts: seq<Token>, line: nat, close: Kind): (r: Option<Parsed<seq<Expr>>>)
    ensures r.Some? ==> |r.value.rest| < |ts|
    decreases |ts|, 3
  {
    if Starts(ts, close) then Some(Parsed([], ts[1..], ts[0].line))
    else
      var es :- ParseExprs(ts);
      Expect(es.value, es.rest, close)
  }

  /** Expressions separated by commas. */
  function ParseExprs(ts: seq<Token>): (r: Option<Parsed<seq<Expr>>>)
    ensures r.Some? ==> |r.value.rest| < |ts| && |r.value.value| > 0
    decreases |ts|, 2
  {
    var e :- ParsePrec(ts, ASSIGNMENT);
    if Starts(e.rest, Comma) then
      var es :- ParseExprs(e.rest[1..]);
      Some(Parsed([e.value] + es.value, es.rest, es.line))
    else Some(Parsed([e.value], e.rest, e.line))
  }

  function InfixKind(op: InfixOp): (k: Kind)
    ensures InfixOf(k) == Some(op)
  {
    match op
    case EqualEqual => EqEq
    case BangEqual => NotEq
    case Less => LtSign
    case LessEqual => LtEq
    case Greater => Gt
    case GreaterEqual => GtEq
    case Plus => PlusSign
    case Minus => MinusSign
    case Star => StarSign
    case Slash => SlashSign
  }

  function PrefixKind(op: PrefixOp): (k: Kind)
    ensures PrefixOf(k) == Some(op)
  {
    match op
    case Bang => BangSign
    case NotWord => NotWordTok
    case Dash => MinusSign
  }

  /** The tokens of an expression; parentheses are those of its `Group` nodes. */
  function Print(e: Expr): (ks: seq<Kind>)
    ensures |ks| > 0
    decreases e, 1
  {
    match e
    case NumLit(n) => [Number(n)]
    case StrLit(s) => [StringTok(s)]
    case NullLit => [NullWord]
    case TrueLit => [TrueWord]
    case FalseLit => [FalseWord]
    case SelfLit => [Func]
    case Name(id) => [Identifier(id)]
    case Assign(id, v) => [Identifier(id), Equal] + Print(v)
    case Member(o, id) => Print(o) + [Dot, Identifier(id)]
    case SetMember(o, id, v) => Print(o) + ([Dot, Identifier(id), Equal] + Print(v))
    case Index(o, k) => Print(o) + ([LBracket] + (Print(k) + [RBracket]))
    case SetIndex(o, k, v) => Print(o) + ([LBracket] + (Print(k) + ([RBracket, Equal] + Print(v))))
    case Prefix(op, x) => [PrefixKind(op)] + Print(x)
    case Infix(op, l, r) => Print(l) + ([InfixKind(op)] + Print(r))
    case And(l, r) => Print(l) + ([AndWord] + Print(r))
    case Or(l, r) => Print(l) + ([OrWord] + Print(r))
    case Invoke(f, args) => Print(f) + ([LParen] + (PrintAll(args) + [RParen]))
    case MapLit(es) => [LBracket] + (PrintAll(es) + [RBracket])
    case Group(x) => [LParen] + (Print(x) + [RParen])
  }

  function PrintAll(es: seq<Expr>): seq<Kind>
    decreases es, 0
  {
    if es == [] then []
    else if |es| == 1 then Print(es[0])
    else Print(es[0]) + ([Comma] + PrintAll(es[1..]))
  }

  /** The precedence an expression binds with. */
  function Level(e: Expr): nat {
    match e
    case Assign(_, _) => ASSIGNMENT
    case SetMember(_, _, _) => ASSIGNMENT
    case SetIndex(_, _, _) => ASSIGNMENT
    case Or(_, _) => OR
    case And(_, _) => AND
    case Infix(op, _, _) => Prec(InfixKind(op))
    case Prefix(_, _) => UNARY
    case Member(_, _) => CALL
    case Index(_, _) => CALL
    case Invoke(_, _) => CALL
    case _ => PRIMARY
  }

  /** Parenthesised as the grammar needs: binary operators associate to the left, `And` and `Or` to the right. */
  predicate Grouped(e: Expr)
    decreases e, 1
  {
    match e
    case Assign(_, v) => Grouped(v)
    case Member(o, _) => GroupedAt(o, CALL)
    case SetMember(o, _, v) => GroupedAt(o, CALL) && Grouped(v)
    case Index(o, k) => GroupedAt(o, CALL) && Grouped(k)
    case SetIndex(o, k, v) => GroupedAt(o, CALL) && Grouped(k) && Grouped(v)
    case Prefix(_, x) => GroupedAt(x, UNARY)
    case Infix(op, l, r) => GroupedAt(l, Prec(InfixKind(op))) && GroupedAt(r, Prec(InfixKind(op)) + 1)
    case And(l, r) => GroupedAt(l, AND + 1) && GroupedAt(r, AND)
    case Or(l, r) => GroupedAt(l, OR + 1) && GroupedAt(r, OR)
    case Invoke(f, args) => GroupedAt(f, CALL) && AllGrouped(args)
    case MapLit(es) => AllGrouped(es)
    case Group(x) => Grouped(x)
    case _ => true
  }

  predicate GroupedAt(e: Expr, p: nat)
    decreases e, 2
  {
    Grouped(e) && Level(e) >= p
  }

  predicate AllGrouped(es: seq<Expr>)
    decreases es, 0
  {
    es == [] || (Grouped(es[0]) && AllGrouped(es[1..]))
  }

  function Min(a: nat, b: nat): nat {
    if a < b then a else b
  }

  /** The least precedence a following token needs to be taken into the last operand of `e`. */
  function Edge(e: Expr): (n: nat)
    ensures n >= ASSIGNMENT
  {
    match e
    case Assign(_, _) => ASSIGNMENT
    case SetMember(_, _, _) => ASSIGNMENT
    case SetIndex(_, _, _) => ASSIGNMENT
    case Prefix(_, x) => Min(UNARY, Edge(x))
    case Infix(op, _, r) => Min(Prec(InfixKind(op)) + 1, Edge(r))
    case And(_, r) => Min(AND, Edge(r))
    case Or(_, r) => Min(OR, Edge(r))
    case _ => PRIMARY + 1
  }

  /** The token after `e` does not continue it. */
  predicate Apart(ts: seq<Token>, line: nat, edge: nat) {
    ts == [] || NewLine(ts, line) || Prec(ts[0].kind) < edge
  }

  /** An operand good enough for a position binds tightly enough for what may follow it there. */
  lemma {:induction false} EdgeAbove(e: Expr, p: nat)
    requires GroupedAt(e, p) && p >= OR
    ensures p <= AND ==> Edge(e) >= p
    ensures EQUALITY <= p <= FACTOR ==> Edge(e) > p
    ensures p == UNARY ==> Edge(e) >= UNARY
    ensures p >= CALL ==> Edge(e) > PRIMARY
  {
    match e
    case Prefix(_, x) => EdgeAbove(x, UNARY);
    case Infix(op, _, r) => EdgeAbove(r, Prec(InfixKind(op)) + 1);
    case And(_, r) => EdgeAbove(r, AND);
    case Or(_, r) => EdgeAbove(r, OR);
    case _ =>
  }

  /** Where the next token stays outside `e`, `e` binds at least as tightly as that token. */
  lemma {:induction false} LevelAboveEdge(e: Expr, q: nat)
    requires q < Edge(e) && q <= CALL
    ensures q >= ASSIGNMENT ==> Level(e) >= q
    ensures q == AND ==> Level(e) > AND
    ensures q == OR ==> Level(e) > OR
  {
  }

  /** Tokens of the given kinds on one line. */
  function OnLine(ks: seq<Kind>, line: nat): (ts: seq<Token>)
    ensures |ts| == |ks|
  {
    seq(|ks|, i requires 0 <= i < |ks| => Token(ks[i], line))
  }

  function Kinds(ts: seq<Token>): (ks: seq<Kind>)
    ensures |ks| == |ts|
  {
    seq(|ts|, i requires 0 <= i < |ts| => ts[i].kind)
  }
}
