/** The rule tables one row at a time: what each prefix and infix rule makes of its tokens. */
module PrattRules {
  import opened Values
  import opened Syntax
  import opened Pratt

  lemma OperatorParses(e: Expr, ts: seq<Token>, canAssign: bool)
    requires ts != [] && InfixOf(ts[0].kind).Some?
    ensures Prec(ts[0].kind) > NONE
    ensures
      var x := ParsePrec(ts[1..], Prec(ts[0].kind) + 1);
      ParseInfix(e, ts, canAssign) ==
      if x.None? then None else Some(Parsed(Infix(InfixOf(ts[0].kind).value, e, x.value.value), x.value.rest, x.value.line))
  {
    hide ParsePrec;
  }

  lemma UnaryParses(ts: seq<Token>, canAssign: bool)
    requires ts != [] && PrefixOf(ts[0].kind).Some?
    ensures
      var x := ParsePrec(ts[1..], UNARY);
      ParsePrefix(ts, canAssign) ==
      if x.None? then None else Some(Parsed(Prefix(PrefixOf(ts[0].kind).value, x.value.value), x.value.rest, x.value.line))
  {
    hide ParsePrec;
  }

  lemma GroupingParses(ts: seq<Token>, canAssign: bool)
    requires ts != [] && ts[0].kind.LParen?
    ensures
      var x := ParsePrec(ts[1..], ASSIGNMENT);
      ParsePrefix(ts, canAssign) == if x.None? then None else Expect(Group(x.value.value), x.value.rest, RParen)
  {
    hide ParsePrec;
  }

  lemma MapParses(ts: seq<Token>, canAssign: bool)
    requires ts != [] && ts[0].kind.LBracket?
    ensures
      var es := ParseList(ts[1..], ts[0].line, RBracket);
      ParsePrefix(ts, canAssign) == if es.None? then None else Some(Parsed(MapLit(es.value.value), es.value.rest, es.value.line))
  {
    hide ParseList;
  }

  lemma VariableParses(ts: seq<Token>, canAssign: bool)
    requires ts != [] && ts[0].kind.Identifier?
    ensures !(canAssign && Starts(ts[1..], Equal)) ==>
      ParsePrefix(ts, canAssign) == Some(Parsed(Name(ts[0].kind.id), ts[1..], ts[0].line))
    ensures canAssign && Starts(ts[1..], Equal) ==>
      var x := ParsePrec(ts[1..][1..], ASSIGNMENT);
      ParsePrefix(ts, canAssign) ==
      if x.None? then None else Some(Parsed(Assign(ts[0].kind.id, x.value.value), x.value.rest, x.value.line))
  {
    hide ParsePrec;
  }

  lemma AndParses(e: Expr, ts: seq<Token>, canAssign: bool)
    requires ts != [] && (ts[0].kind.AndWord? || ts[0].kind.OrWord?)
    ensures ts[0].kind.AndWord? ==>
      var x := ParsePrec(ts[1..], AND);
      ParseInfix(e, ts, canAssign) == if x.None? then None else Some(Parsed(And(e, x.value.value), x.value.rest, x.value.line))
    ensures ts[0].kind.OrWord? ==>
      var x := ParsePrec(ts[1..], OR);
      ParseInfix(e, ts, canAssign) == if x.None? then None else Some(Parsed(Or(e, x.value.value), x.value.rest, x.value.line))
  {
    hide ParsePrec;
  }

  lemma CallParses(e: Expr, ts: seq<Token>, canAssign: bool)
    requires ts != [] && ts[0].kind.LParen?
    ensures
      var es := ParseList(ts[1..], ts[0].line, RParen);
      ParseInfix(e, ts, canAssign) == if es.None? then None else Some(Parsed(Invoke(e, es.value.value), es.value.rest, es.value.line))
  {
    hide ParseList;
  }

  /** What `dot` does after the name. */
  function DotRest(e: Expr, id: Ident, ts: seq<Token>, line: nat, canAssign: bool): Option<Parsed<Expr>> {
    if canAssign && Starts(ts, Equal) then
      var x :- ParsePrec(ts[1..], ASSIGNMENT);
      Some(Parsed(SetMember(e, id, x.value), x.rest, x.line))
    else Some(Parsed(Member(e, id), ts, line))
  }

  lemma DotParses(e: Expr, ts: seq<Token>, canAssign: bool)
    requires ts != [] && ts[0].kind.Dot?
    ensures
      ParseInfix(e, ts, canAssign) ==
      if ts[1..] == [] || !ts[1].kind.Identifier? then None
      else DotRest(e, ts[1].kind.id, ts[1..][1..], ts[1].line, canAssign)
  {
    hide ParsePrec;
    if ts[1..] != [] && Starts(ts[1..][1..], Equal) { assert ts[1..][2..] == ts[1..][1..][1..]; }
  }

  /** What `index_` does after the closing bracket. */
  function IndexRest(e: Expr, k: Expr, ts: seq<Token>, line: nat, canAssign: bool): Option<Parsed<Expr>> {
    if canAssign && Starts(ts, Equal) then
      var x :- ParsePrec(ts[1..], ASSIGNMENT);
      Some(Parsed(SetIndex(e, k, x.value), x.rest, x.line))
    else Some(Parsed(Index(e, k), ts, line))
  }

  lemma IndexParses(e: Expr, ts: seq<Token>, canAssign: bool)
    requires ts != [] && ts[0].kind.LBracket?
    ensures
      var k := ParsePrec(ts[1..], ASSIGNMENT);
      ParseInfix(e, ts, canAssign) ==
      if k.None? || !Starts(k.value.rest, RBracket) then None
      else IndexRest(e, k.value.value, k.value.rest[1..], k.value.rest[0].line, canAssign)
  {
    hide ParsePrec;
  }

  lemma LiteralParses(ts: seq<Token>, canAssign: bool)
    requires ts != [] && LiteralOf(ts[0].kind).Some?
    ensures ParsePrefix(ts, canAssign) == Some(Parsed(LiteralOf(ts[0].kind).value, ts[1..], ts[0].line))
  {
    hide ParsePrec;
  }

  /** The kinds without a prefix rule. */
  lemma NoPrefix(ts: seq<Token>, canAssign: bool)
    requires ts != [] && LiteralOf(ts[0].kind).None? && PrefixOf(ts[0].kind).None?
    requires !ts[0].kind.LParen? && !ts[0].kind.LBracket? && !ts[0].kind.Identifier?
    ensures ParsePrefix(ts, canAssign).None?
  {
    hide ParsePrec;
  }

  /** The kinds with a precedence all have an infix rule. */
  lemma OneInfix(k: Kind)
    requires Prec(k) > NONE && InfixOf(k).None?
    ensures k.AndWord? || k.OrWord? || k.LParen? || k.Dot? || k.LBracket?
  {
  }
}
