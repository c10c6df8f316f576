/** The abstract syntax of expressions, statements and function declarations. */
module Syntax {
  import opened Values

  /** The lexeme of an identifier token, which is never empty. */
  type Ident = s: string | |s| > 0 witness "x"

  datatype PrefixOp = Bang | NotWord | Dash

  datatype InfixOp =
    | EqualEqual
    | BangEqual
    | Less
    | LessEqual
    | Greater
    | GreaterEqual
    | Plus
    | Minus
    | Star
    | Slash

  datatype Expr =
    | NumLit(n: Literal)
    | StrLit(s: string)
    | NullLit
    | TrueLit
    | FalseLit
    | SelfLit
    | Name(id: Ident)
    | Assign(id: Ident, value: Expr)
    | Member(obj: Expr, id: Ident)
    | SetMember(obj: Expr, id: Ident, value: Expr)
    | Index(obj: Expr, key: Expr)
    | SetIndex(obj: Expr, key: Expr, value: Expr)
    | Prefix(pop: PrefixOp, operand: Expr)
    | Infix(iop: InfixOp, left: Expr, right: Expr)
    | And(left: Expr, right: Expr)
    | Or(left: Expr, right: Expr)
    | Invoke(callee: Expr, args: seq<Expr>)
    | MapLit(elems: seq<Expr>)
    | Group(inner: Expr)

  datatype Init = Init(name: Ident, value: Expr)

  /** A function declaration carries the number of the function object it creates. */
  datatype Stmt =
    | ExprStmt(e: Expr)
    | PrintStmt(es: seq<Expr>)
    | If(cond: Expr, thn: Stmt, els: Stmt)
    | Return(result: Expr)
    | ReturnNull
    | Block(body: seq<Stmt>)
    | Var(name: Ident, init: Expr)
    | Globals(items: seq<Init>)
    | FunDecl(name: Ident, site: nat, params: seq<Ident>, body: seq<Stmt>)

  /** What a function object was compiled from. */
  datatype Decl = Decl(script: bool, params: seq<Ident>, body: seq<Stmt>)

  /** `tolower` in the C locale. */
  function Lower(c: char): char {
    if 'A' <= c <= 'Z' then (c as int - 'A' as int + 'a' as int) as char else c
  }

  /** Global and member names are interned in lower case; names of locals are not. */
  function Canon(s: string): string {
    seq(|s|, i requires 0 <= i < |s| => Lower(s[i]))
  }

  /** The name an identifier is looked up under: the interned string of its lower-case form. */
  function Key(h: Host, id: string): string {
    h.intern(Canon(id))
  }

  /** `subExprs`: how many times `parsePrecedence` runs for an expression. */
  function SubExprs(e: Expr): nat {
    1 + Inner(e)
  }

  /** The nested runs, not counting the one for `e` itself. */
  function Inner(e: Expr): nat
    decreases e, 0
  {
    match e
    case Assign(_, v) => 1 + Inner(v)
    case Member(o, _) => Inner(o)
    case SetMember(o, _, v) => Inner(o) + 1 + Inner(v)
    case Index(o, k) => Inner(o) + 1 + Inner(k)
    case SetIndex(o, k, v) => Inner(o) + 1 + Inner(k) + 1 + Inner(v)
    case Prefix(_, x) => 1 + Inner(x)
    case Infix(_, l, r) => Inner(l) + 1 + Inner(r)
    case And(l, r) => Inner(l) + 1 + Inner(r)
    case Or(l, r) => Inner(l) + 1 + Inner(r)
    case Invoke(f, args) => Inner(f) + InnerAll(args)
    case MapLit(es) => InnerAll(es)
    case Group(x) => 1 + Inner(x)
    case _ => 0
  }

  function InnerAll(es: seq<Expr>): nat
    decreases es, 0
  {
    if es == [] then 0 else 1 + Inner(es[0]) + InnerAll(es[1..])
  }

  /** `hadCall`. */
  predicate HadCall(e: Expr)
    decreases e, 0
  {
    match e
    case Assign(_, v) => HadCall(v)
    case Member(o, _) => HadCall(o)
    case SetMember(o, _, v) => HadCall(o) || HadCall(v)
    case Index(o, k) => HadCall(o) || HadCall(k)
    case SetIndex(o, k, v) => HadCall(o) || HadCall(k) || HadCall(v)
    case Prefix(_, x) => HadCall(x)
    case Infix(_, l, r) => HadCall(l) || HadCall(r)
    case And(l, r) => HadCall(l) || HadCall(r)
    case Or(l, r) => HadCall(l) || HadCall(r)
    case Invoke(_, _) => true
    case MapLit(es) => HadCallAny(es)
    case Group(x) => HadCall(x)
    case _ => false
  }

  predicate HadCallAny(es: seq<Expr>)
    decreases es, 0
  {
    es != [] && (HadCall(es[0]) || HadCallAny(es[1..]))
  }

  /** `hadAssign`: assignments to members do not set it. */
  predicate HadAssign(e: Expr)
    decreases e, 0
  {
    match e
    case Assign(_, _) => true
    case Member(o, _) => HadAssign(o)
    case SetMember(o, _, v) => HadAssign(o) || HadAssign(v)
    case Index(o, k) => HadAssign(o) || HadAssign(k)
    case SetIndex(_, _, _) => true
    case Prefix(_, x) => HadAssign(x)
    case Infix(_, l, r) => HadAssign(l) || HadAssign(r)
    case And(l, r) => HadAssign(l) || HadAssign(r)
    case Or(l, r) => HadAssign(l) || HadAssign(r)
    case Invoke(f, args) => HadAssign(f) || HadAssignAny(args)
    case MapLit(es) => HadAssignAny(es)
    case Group(x) => HadAssign(x)
    case _ => false
  }

  predicate HadAssignAny(es: seq<Expr>)
    decreases es, 0
  {
    es != [] && (HadAssign(es[0]) || HadAssignAny(es[1..]))
  }

  /** The test `expressionStatement` makes once the expression is compiled. */
  predicate Useless(e: Expr) {
    SubExprs(e) <= 1 && !HadCall(e) && !HadAssign(e)
  }

  /** A primary followed by member names only. */
  predicate MemberChain(e: Expr) {
    match e
    case Member(o, _) => MemberChain(o)
    case MapLit(es) => es == []
    case NumLit(_) => true
    case StrLit(_) => true
    case NullLit => true
    case TrueLit => true
    case FalseLit => true
    case SelfLit => true
    case Name(_) => true
    case _ => false
  }

  /** What the three flags together reject: exactly an unparenthesised primary with members. */
  lemma {:induction false} UselessIsMemberChain(e: Expr)
    ensures Useless(e) <==> MemberChain(e)
  {
    match e
    case Member(o, _) => UselessIsMemberChain(o);
    case MapLit(es) =>
      assert es != [] ==> InnerAll(es) > 0;
      assert es == [] ==> InnerAll(es) == 0 && !HadCallAny(es) && !HadAssignAny(es);
    case _ =>
  }
}
