/** From the scanner's tokens to the parser's. */
module Reading {
  import opened Values
  import L = Lexer
  import P = Pratt

  /** The value of a number is what `strtod` makes of the source from the token on, not of the token. */
  function KindOf(h: Host, t: L.Token): P.Kind {
    if t.kind.Number? then P.Number(h.number(t.rest)) else PlainKind(t.kind, t.text)
  }

  /** The kind the parser sees; reserved words it has no rule for are all alike. */
  function PlainKind(k: L.Kind, text: string): P.Kind {
    match k
    case LParen => P.LParen
    case RParen => P.RParen
    case LBracket => P.LBracket
    case RBracket => P.RBracket
    case LBrace => P.LBrace
    case RBrace => P.RBrace
    case Comma => P.Comma
    case Dot => P.Dot
    case Minus => P.MinusSign
    case Plus => P.PlusSign
    case Slash => P.SlashSign
    case Star => P.StarSign
    case Bang => P.BangSign
    case BangEqual => P.NotEq
    case Equal => P.Equal
    case EqualEqual => P.EqEq
    case Less => P.LtSign
    case LessEqual => P.LtEq
    case Greater => P.Gt
    case GreaterEqual => P.GtEq
    case Identifier => if text == [] then P.Other else P.Identifier(text)
    case Text => if |text| < 2 then P.Other else P.StringTok(text[1..|text| - 1])
    case And => P.AndWord
    case Or => P.OrWord
    case Not => P.NotWordTok
    case True => P.TrueWord
    case False => P.FalseWord
    case Null => P.NullWord
    case Func => P.Func
    case Var => P.VarWord
    case Global => P.GlobalWord
    case Print => P.PrintWord
    case If => P.IfWord
    case Then => P.ThenWord
    case Else => P.ElseWord
    case Return => P.ReturnWord
    case End => P.End
    case EndIf => P.EndIf
    case EndFunc => P.EndFunc
    case Eof => P.Eof
    case _ => P.Other
  }

  /** The tokens as the parser gets them, unless one is an error: then nothing is compiled. */
  function ParserTokens(h: Host, ts: seq<L.Token>): (r: Option<seq<P.Token>>)
    ensures r.Some? ==> |r.value| == |ts|
    ensures r.Some? ==> forall i :: 0 <= i < |ts| ==> r.value[i] == P.Token(KindOf(h, ts[i]), ts[i].line)
    decreases |ts|
  {
    if ts == [] then Some([])
    else if ts[0].kind.Error? then None
    else
      var rest :- ParserTokens(h, ts[1..]);
      Some([P.Token(KindOf(h, ts[0]), ts[0].line)] + rest)
  }

  /** What the parser reads ends in an end of file, on the line where the source ends. */
  lemma {:induction false} EndsInEof(h: Host, s: string, q: nat, i: nat)
    requires q <= i <= |s| && ParserTokens(h, L.Tokens(s, q, i)).Some?
    ensures
      var ts := ParserTokens(h, L.Tokens(s, q, i)).value;
      ts != [] && ts[|ts| - 1] == P.Token(P.Eof, L.LineOf(s, |s|))
    decreases |s| - i
  {
    hide L.Munch, L.LineOf, L.ColumnOf, KindOf, L.Skip;
    L.NextToken(s, q, i);
    var j := L.Skip(s, q, i);
    if j < |s| { EndsInEof(h, s, j, L.Munch(s, j).end); }
    else { assert KindOf(h, L.Tokens(s, q, i)[0]) == P.Eof by { EofKind(h, L.Tokens(s, q, i)[0]); } }
  }

  lemma EofKind(h: Host, t: L.Token)
    requires t.kind.Eof?
    ensures KindOf(h, t) == P.Eof
  {
  }
}
