/**
 The statement grammar. `None` means that no function comes out: a syntax error, or the
 endless recursion of `statement` when an arm of `If` starts with none of the keywords.
 */
module Grammar {
  import opened Values
  import opened Syntax
  import opened Codegen
  import opened Pratt

  /** Where a statement stands: only right after `Then` or `Else` is it an arm. */
  datatype Place = Plain | AfterThen | AfterElse

  /** The test `checkPrev` makes on the token before a statement. */
  function PlaceOf(previous: Kind): Place {
    if previous.ThenWord? then AfterThen else if previous.ElseWord? then AfterElse else Plain
  }

  /** What ends a list of declarations, besides the end of the file. */
  datatype Closer = ByBrace | ByElse | ByEndIf | ByEnd | ByEof

  predicate Closes(c: Closer, k: Kind) {
    k.Eof?
    || (match c
        case ByBrace => k.RBrace?
        case ByElse => k.ElseWord?
        case ByEndIf => k.EndIf?
        case ByEnd => k.End? || k.EndFunc?
        case ByEof => false)
  }

  predicate Keyword(k: Kind) {
    k.Func? || k.VarWord? || k.GlobalWord?
  }

  function ParseIdent(ts: seq<Token>): (r: Option<Parsed<Ident>>)
    ensures r.Some? ==> ts != [] && ts[0].kind == Identifier(r.value.value) && r.value == Parsed(ts[0].kind.id, ts[1..], ts[0].line)
  {
    if ts != [] && ts[0].kind.Identifier? then Some(Parsed(ts[0].kind.id, ts[1..], ts[0].line)) else None
  }

  /** `= expression`, or null without it. */
  function ParseInit(ts: seq<Token>, line: nat): (r: Option<Parsed<Expr>>)
    ensures r.Some? ==> |r.value.rest| <= |ts|
  {
    if Starts(ts, Equal) then ParsePrec(ts[1..], ASSIGNMENT) else Some(Parsed(NullLit, ts, line))
  }

  function ParseItems(ts: seq<Token>): (r: Option<Parsed<seq<Init>>>)
    ensures r.Some? ==> |r.value.rest| < |ts|
    decreases |ts|
  {
    var id :- ParseIdent(ts);
    var e :- ParseInit(id.rest, id.line);
    if Starts(e.rest, Comma) then
      var more :- ParseItems(e.rest[1..]);
      Some(Parsed([Init(id.value, e.value)] + more.value, more.rest, more.line))
    else Some(Parsed([Init(id.value, e.value)], e.rest, e.line))
  }

  function ParseParams(ts: seq<Token>): (r: Option<Parsed<seq<Ident>>>)
    ensures r.Some? ==> |r.value.rest| < |ts|
    decreases |ts|
  {
    var id :- ParseIdent(ts);
    if Starts(id.rest, Comma) then
      var more :- ParseParams(id.rest[1..]);
      Some(Parsed([id.value] + more.value, more.rest, more.line))
    else Some(Parsed([id.value], id.rest, id.line))
  }

  /** Parameters up to the closing parenthesis. */
  function ParseParamList(ts: seq<Token>): (r: Option<Parsed<seq<Ident>>>)
    ensures r.Some? ==> |r.value.rest| < |ts|
  {
    if Starts(ts, RParen) then Some(Parsed([], ts[1..], ts[0].line))
    else
      var ps :- ParseParams(ts);
      Expect(ps.value, ps.rest, RParen)
  }

  /** `End` or the longer word that closes the construct. */
  function ExpectEnd<T>(v: T, ts: seq<Token>, k: Kind): (r: Option<Parsed<T>>)
    ensures r.Some? ==> ts != [] && r.value == Parsed(v, ts[1..], ts[0].line)
  {
    if Starts(ts, End) || Starts(ts, k) then Some(Parsed(v, ts[1..], ts[0].line)) else None
  }

  /** The keyword declarations; `n` function objects exist already. */
  function ParseKeyword(ts: seq<Token>, n: nat): (r: Option<Parsed<Stmt>>)
    ensures r.Some? ==> |r.value.rest| < |ts|
    decreases |ts|, 0
  {
    if ts == [] then None
    else
      match ts[0].kind
      case Func =>
        var id :- ParseIdent(ts[1..]);
        var open :- Expect((), id.rest, LParen);
        var ps :- ParseParamList(open.rest);
        var body :- ParseDecls(ps.rest, ByEnd, ps.line, n);
        ExpectEnd(FunDecl(id.value, n + |FunsOfAll(body.value)|, ps.value, body.value), body.rest, EndFunc)
      case VarWord =>
        var id :- ParseIdent(ts[1..]);
        var e :- ParseInit(id.rest, id.line);
        Some(Parsed(Var(id.value, e.value), e.rest, e.line))
      case GlobalWord =>
        var items :- ParseItems(ts[1..]);
        Some(Parsed(Globals(items.value), items.rest, items.line))
      case _ => None
  }

  /** `declaration`. */
  function ParseDecl(ts: seq<Token>, line: nat, n: nat): (r: Option<Parsed<Stmt>>)
    ensures r.Some? ==> |r.value.rest| < |ts|
    decreases |ts|, 5
  {
    if Keyword(Kind0(ts)) then ParseKeyword(ts, n) else ParseStmt(ts, Plain, line, n)
  }

  function ParseDecls(ts: seq<Token>, c: Closer, line: nat, n: nat): (r: Option<Parsed<seq<Stmt>>>)
    ensures r.Some? ==> |r.value.rest| <= |ts| && Closes(c, Kind0(r.value.rest))
    decreases |ts|, 6
  {
    if Closes(c, Kind0(ts)) then Some(Parsed([], ts, line))
    else
      var s :- ParseDecl(ts, line, n);
      var ss :- ParseDecls(s.rest, c, s.line, n + |FunsOf(s.value)|);
      Some(Parsed([s.value] + ss.value, ss.rest, ss.line))
  }

  lemma UnfoldDecls(ts: seq<Token>, c: Closer, line: nat, n: nat) returns (s: Parsed<Stmt>, more: Parsed<seq<Stmt>>)
    requires !Closes(c, Kind0(ts)) && ParseDecls(ts, c, line, n).Some?
    ensures ParseDecl(ts, line, n) == Some(s)
    ensures ParseDecls(s.rest, c, s.line, n + |FunsOf(s.value)|) == Some(more)
    ensures ParseDecls(ts, c, line, n) == Some(Parsed([s.value] + more.value, more.rest, more.line))
  {
    hide ParseDecl, FunsOf, Closes;
    s := ParseDecl(ts, line, n).value;
    more := ParseDecls(s.rest, c, s.line, n + |FunsOf(s.value)|).value;
  }

  lemma UnfoldArm(ts: seq<Token>, c: Closer, line: nat, n: nat) returns (s: Parsed<Stmt>, more: Parsed<seq<Stmt>>)
    requires !Closes(c, Kind0(ts)) && ParseArm(ts, c, line, n).Some?
    ensures ParseKeyword(ts, n) == Some(s)
    ensures ParseDecls(s.rest, c, s.line, n + |FunsOf(s.value)|) == Some(more)
    ensures ParseArm(ts, c, line, n) == Some(Parsed([s.value] + more.value, more.rest, more.line))
  {
    hide ParseKeyword, ParseDecls, FunsOf, Closes;
    s := ParseKeyword(ts, n).value;
    more := ParseDecls(s.rest, c, s.line, n + |FunsOf(s.value)|).value;
  }

  /** The declarations of an arm without braces; the first must be a keyword declaration. */
  function ParseArm(ts: seq<Token>, c: Closer, line: nat, n: nat): (r: Option<Parsed<seq<Stmt>>>)
    ensures r.Some? ==> |r.value.rest| <= |ts|
    decreases |ts|, 1
  {
    if Closes(c, Kind0(ts)) then Some(Parsed([], ts, line))
    else
      var s :- ParseKeyword(ts, n);
      var ss :- ParseDecls(s.rest, c, s.line, n + |FunsOf(s.value)|);
      Some(Parsed([s.value] + ss.value, ss.rest, ss.line))
  }

  /** `inlineBlock`: one declaration on the line of `Then`, or declarations up to `Else`. */
  function ParseInline(ts: seq<Token>, line: nat, n: nat): (r: Option<Parsed<seq<Stmt>>>)
    ensures r.Some? ==> |r.value.rest| <= |ts|
    decreases |ts|, 2
  {
    if Kind0(ts) != Eof && ts[0].line == line then
      var s :- ParseKeyword(ts, n);
      Some(Parsed([s.value], s.rest, s.line))
    else ParseArm(ts, ByElse, line, n)
  }

  /** `statement`. */
  function ParseStmt(ts: seq<Token>, place: Place, line: nat, n: nat): (r: Option<Parsed<Stmt>>)
    ensures r.Some? ==> |r.value.rest| <= |ts| && (place.Plain? ==> |r.value.rest| < |ts|)
    ensures r.Some? && !place.Plain? ==> Arm(r.value.value)
    decreases |ts|, 4
  {
    match Kind0(ts)
    case PrintWord =>
      var es :- ParseExprs(ts[1..]);
      Some(Parsed(PrintStmt(es.value), es.rest, es.line))
    case IfWord => ParseIf(ts[1..], n)
    case ReturnWord => ParseReturn(ts[1..], ts[0].line)
    case LBrace =>
      var ss :- ParseDecls(ts[1..], ByBrace, ts[0].line, n);
      Expect(Block(ss.value), ss.rest, RBrace)
    case _ => ParseOther(ts, place, line, n)
  }

  /** A statement that no keyword starts. */
  function ParseOther(ts: seq<Token>, place: Place, line: nat, n: nat): (r: Option<Parsed<Stmt>>)
    ensures r.Some? ==> |r.value.rest| <= |ts| && (place.Plain? ==> |r.value.rest| < |ts|)
    ensures r.Some? && !place.Plain? ==> Arm(r.value.value)
    decreases |ts|, 3
  {
    match place
    case AfterThen =>
      var ss :- ParseInline(ts, line, n);
      Some(Parsed(Block(ss.value), ss.rest, ss.line))
    case AfterElse =>
      var ss :- ParseArm(ts, ByEndIf, line, n);
      Some(Parsed(Block(ss.value), ss.rest, ss.line))
    case Plain =>
      var e :- ParsePrec(ts, ASSIGNMENT);
      Some(Parsed(ExprStmt(e.value), e.rest, e.line))
  }

  function ParseReturn(ts: seq<Token>, line: nat): (r: Option<Parsed<Stmt>>)
    ensures r.Some? ==> |r.value.rest| <= |ts| && Arm(r.value.value)
  {
    var k := Kind0(ts);
    if k.RBrace? || k.End? || k.EndFunc? || NewLine(ts, line) then Some(Parsed(ReturnNull, ts, line))
    else
      var e :- ParsePrec(ts, ASSIGNMENT);
      Some(Parsed(Return(e.value), e.rest, e.line))
  }

  /** `ifStatement`; without an `Else` the other arm is an empty block. */
  function ParseIf(ts: seq<Token>, n: nat): (r: Option<Parsed<Stmt>>)
    ensures r.Some? ==> |r.value.rest| <= |ts| && Arm(r.value.value)
    decreases |ts|, 5
  {
    var c :- ParsePrec(ts, ASSIGNMENT);
    var then_ :- Expect((), c.rest, ThenWord);
    var inline := then_.rest != [] && then_.rest[0].line == then_.line;
    var t :- ParseStmt(then_.rest, AfterThen, then_.line, n);
    var e :- ParseElse(t.rest, t.line, n + |FunsOf(t.value)|);
    if inline then Some(Parsed(If(c.value, t.value, e.value), e.rest, e.line))
    else ExpectEnd(If(c.value, t.value, e.value), e.rest, EndIf)
  }

  function ParseElse(ts: seq<Token>, line: nat, n: nat): (r: Option<Parsed<Stmt>>)
    ensures r.Some? ==> |r.value.rest| <= |ts| && Arm(r.value.value)
    decreases |ts|, 5
  {
    if Starts(ts, ElseWord) then ParseStmt(ts[1..], AfterElse, ts[0].line, n)
    else Some(Parsed(Block([]), ts, line))
  }

  /** The declarations of a whole file. */
  function ParseScript(ts: seq<Token>): Option<seq<Stmt>> {
    var ss :- ParseDecls(ts, ByEof, 0, 0);
    Some(ss.value)
  }
}
