/**
 From characters to the parser's tokens. What each token of the language is written as is listed
 here on its own; written so, with blanks or comments in between, a text is read as those tokens.
 */
module Wording {
  import opened Values
  import opened Alphabet
  import opened Rendering
  import opened Numbers
  import opened Reading
  import L = Lexer
  import P = Pratt
  import Syntax

  /** How operators and brackets are written. */
  function Symbol(k: P.Kind): string {
    match k
    case LParen => "(" case RParen => ")" case LBracket => "[" case RBracket => "]" case LBrace => "{" case RBrace => "}"
    case Comma => "," case Dot => "." case MinusSign => "-" case PlusSign => "+" case SlashSign => "/" case StarSign => "*"
    case BangSign => "!" case NotEq => "!=" case Equal => "=" case EqEq => "=="
    case Gt => ">" case GtEq => ">=" case LtSign => "<" case LtEq => "<="
    case _ => ""
  }

  /** How the words of the grammar are written, in any case. */
  function ReservedWord(k: P.Kind): string {
    match k
    case AndWord => "and" case OrWord => "or" case NotWordTok => "not"
    case TrueWord => "true" case FalseWord => "false" case NullWord => "null"
    case Func => "func" case VarWord => "var" case GlobalWord => "global" case PrintWord => "print"
    case IfWord => "if" case ThenWord => "then" case ElseWord => "else" case ReturnWord => "return"
    case End => "end" case EndIf => "endif" case EndFunc => "endfunc"
    case _ => ""
  }

  /** Words that are reserved though no rule takes them. */
  const UNUSED: seq<string> := [
    "case", "class", "const", "default", "dim", "do", "endselect", "endswitch", "endwith", "for", "local", "next",
    "redim", "select", "static", "step", "super", "switch", "this", "volatile", "wend", "while", "with"
  ]

  predicate WordOnly(t: string) {
    t != [] && Letter(t[0]) && AllInWord(t)
  }

  /** A name is none of the reserved words, in any case. */
  ghost predicate IsName(t: string) {
    WordOnly(t)
    && (forall k: P.Kind :: ReservedWord(k) != "" ==> !SameName(t, ReservedWord(k)))
    && forall n :: 0 <= n < |UNUSED| ==> !SameName(t, UNUSED[n])
  }

  /** Digits, perhaps with a point and more digits. */
  ghost predicate IsNumber(t: string) {
    AllDigits(t) || exists n :: 0 < n < |t| && t[n] == '.' && AllDigits(t[..n]) && AllDigits(t[n + 1..])
  }

  /** Between two quotes of one kind there are none of that kind. */
  predicate IsQuoted(t: string, s: string) {
    (t == ['"'] + (s + ['"']) && '"' !in s) || (t == ['\''] + (s + ['\'']) && '\'' !in s)
  }

  /** The characters `t` are a token of this kind. */
  ghost predicate Denotes(h: Host, t: string, k: P.Kind) {
    match k
    case Identifier(id) => t == id && IsName(t)
    case StringTok(s) => IsQuoted(t, s)
    case Number(n) => IsNumber(t) && n == h.number(t)
    case Other => exists n :: 0 <= n < |UNUSED| && SameName(t, UNUSED[n])
    case Eof => false
    case _ => if Symbol(k) != "" then t == Symbol(k) else SameName(t, ReservedWord(k))
  }

  /** A token to be written: what separates it from the one before, its characters, and what it is. */
  datatype Writing = Writing(gap: string, text: string, kind: P.Kind)

  function PiecesOf(ws: seq<Writing>): (ps: seq<Piece>)
    ensures |ps| == |ws|
  {
    seq(|ws|, i requires 0 <= i < |ws| => Piece(ws[i].gap, ws[i].text))
  }

  /** Blanks and comments before every token, and nothing else after the last. A C string has no NUL. */
  ghost predicate Legible(h: Host, ws: seq<Writing>, last: string) {
    L.Blanks(last, 0) == |last| && '\0' !in last
    && forall i :: 0 <= i < |ws| ==>
      Gap(ws[i].gap) && Denotes(h, ws[i].text, ws[i].kind) && (i > 0 ==> ws[i].gap != [])
      && '\0' !in ws[i].gap && '\0' !in ws[i].text
  }

  function Feeds(s: string): nat {
    multiset(s)['\n']
  }

  /** The tokens meant, each with the line it ends on. */
  function Meant(ws: seq<Writing>, last: string, line: nat): seq<P.Token> {
    if ws == [] then [P.Token(P.Eof, line + Feeds(last))]
    else
      var here := line + Feeds(ws[0].gap) + Feeds(ws[0].text);
      [P.Token(ws[0].kind, here)] + Meant(ws[1..], last, here)
  }

  // Words

  lemma SpellsIsSame(t: string, w: string)
    requires L.LowerCase(w)
    ensures L.Spells(t, w) <==> SameName(t, w)
  {
    hide SameLetter, Syntax.Lower;
    if |t| == |w| {
      forall i | 0 <= i < |w| ensures SameLetter(t[i], w[i]) <==> Syntax.Lower(t[i]) == w[i] { SameLetterLower(t[i], w[i]); }
    }
  }

  /** The scanner's kind for each kind that is a word or a symbol. */
  function ScannedAs(k: P.Kind): L.Kind {
    match k
    case LParen => L.LParen case RParen => L.RParen case LBracket => L.LBracket case RBracket => L.RBracket
    case LBrace => L.LBrace case RBrace => L.RBrace case Comma => L.Comma case Dot => L.Dot
    case MinusSign => L.Minus case PlusSign => L.Plus case SlashSign => L.Slash case StarSign => L.Star
    case BangSign => L.Bang case NotEq => L.BangEqual case Equal => L.Equal case EqEq => L.EqualEqual
    case Gt => L.Greater case GtEq => L.GreaterEqual case LtSign => L.Less case LtEq => L.LessEqual
    case AndWord => L.And case OrWord => L.Or case NotWordTok => L.Not
    case TrueWord => L.True case FalseWord => L.False case NullWord => L.Null
    case Func => L.Func case VarWord => L.Var case GlobalWord => L.Global case PrintWord => L.Print
    case IfWord => L.If case ThenWord => L.Then case ElseWord => L.Else case ReturnWord => L.Return
    case End => L.End case EndIf => L.EndIf case EndFunc => L.EndFunc
    case _ => L.Error
  }

  lemma SymbolScanned(k: P.Kind)
    requires Symbol(k) != ""
    ensures OperatorText(ScannedAs(k)) == Symbol(k) && !ScannedAs(k).Number?
    ensures PlainKind(ScannedAs(k), Symbol(k)) == k
  {
  }

  lemma WordScanned(k: P.Kind, t: string)
    requires ReservedWord(k) != ""
    ensures L.Spelling(ScannedAs(k)) == ReservedWord(k) && !L.Broken(ScannedAs(k)) && !ScannedAs(k).Number?
    ensures PlainKind(ScannedAs(k), t) == k
  {
  }

  /** Small letters only. */
  predicate Small(w: string) {
    w != [] && forall i :: 0 <= i < |w| ==> 97 <= w[i] as int < 123
  }

  lemma ReservedSmall(k: P.Kind)
    requires ReservedWord(k) != ""
    ensures Small(ReservedWord(k))
  {
    assert 'a' as int == 97;
  }

  lemma UnusedSmall(n: nat)
    requires n < |UNUSED|
    ensures Small(UNUSED[n])
  {
    assert 'a' as int == 97;
  }

  /** A word of small letters, in any case. */
  lemma AnyCase(t: string, w: string)
    requires Small(w)
    ensures L.LowerCase(w) && (SameName(t, w) ==> WordOnly(t))
  {
    assert 'a' as int == 97 && 'z' as int == 122 && 'A' as int == 65 && 'Z' as int == 90;
    if SameName(t, w) {
      forall i | 0 <= i < |t| ensures Letter(t[i]) {
        assert SameLetter(t[i], w[i]);
        SameLetterLower(t[i], w[i]);
        Ranges(t[i]);
      }
    }
  }

  function UnusedKind(n: nat): L.Kind {
    match n
    case 0 => L.Case case 1 => L.Class case 2 => L.Const case 3 => L.Default case 4 => L.Dim case 5 => L.Do
    case 6 => L.EndSelect case 7 => L.EndSwitch case 8 => L.EndWith case 9 => L.For case 10 => L.Local case 11 => L.Next
    case 12 => L.Redim case 13 => L.Select case 14 => L.Static case 15 => L.Step case 16 => L.Super case 17 => L.Switch
    case 18 => L.This case 19 => L.Volatile case 20 => L.Wend case 21 => L.While case _ => L.With
  }

  lemma UnusedScanned(n: nat, t: string)
    requires n < |UNUSED|
    ensures L.Spelling(UnusedKind(n)) == UNUSED[n] && !L.Broken(UnusedKind(n)) && !UnusedKind(n).Number?
    ensures PlainKind(UnusedKind(n), t) == P.Other
  {
    UnusedOther(n, t);
    if n < 12 { UnusedFirst(n); } else { UnusedSecond(n); }
  }

  lemma UnusedOther(n: nat, t: string)
    ensures PlainKind(UnusedKind(n), t) == P.Other && !L.Broken(UnusedKind(n)) && !UnusedKind(n).Number?
  {
  }

  lemma UnusedFirst(n: nat)
    requires n < 12
    ensures L.Spelling(UnusedKind(n)) == UNUSED[n]
  {
  }

  lemma UnusedSecond(n: nat)
    requires 12 <= n < 23
    ensures |UNUSED| == 23 && L.Spelling(UnusedKind(n)) == UNUSED[n]
  {
  }

  /** A word on its own is scanned whole, as the word it is. */
  lemma WordMunch(t: string)
    requires WordOnly(t)
    ensures Lexeme(t) && L.Munch(t, 0).kind == L.IdentifierType(t)
  {
    hide L.IdentifierType, L.WordEnd, Letter, Digit;
    ScannersLetters(t[0]);
    ScannersWord(t);
    WordWhole(t, 1);
    WordStarts(t);
    assert t[0..|t|] == t;
  }

  /** Every word that is recognised is in one of the two lists. */
  lemma Listed(k: L.Kind)
    requires L.Spelling(k) != "" && !L.Broken(k)
    ensures (exists p: P.Kind :: ReservedWord(p) == L.Spelling(k)) || (exists n :: 0 <= n < |UNUSED| && UNUSED[n] == L.Spelling(k))
  {
    hide L.Spelling, ReservedWord, GrammarWord;
    if GrammarWord(k).Some? { GrammarBack(k); }
    else {
      UnusedBack(k);
      UnusedScanned(UnusedPlace(k), "");
    }
  }

  lemma GrammarBack(k: L.Kind)
    requires GrammarWord(k).Some?
    ensures ReservedWord(GrammarWord(k).value) == L.Spelling(k)
  {
    hide L.Spelling, ReservedWord;
    Reserved(GrammarWord(k).value);
    WordScanned(GrammarWord(k).value, "");
  }

  lemma Reserved(k: P.Kind)
    requires GrammarWord(ScannedAs(k)).Some?
    ensures ReservedWord(k) != ""
  {
  }

  function GrammarWord(k: L.Kind): (r: Option<P.Kind>)
    ensures r.Some? ==> ScannedAs(r.value) == k
  {
    match k
    case And => Some(P.AndWord) case Or => Some(P.OrWord) case Not => Some(P.NotWordTok)
    case True => Some(P.TrueWord) case False => Some(P.FalseWord) case Null => Some(P.NullWord)
    case Func => Some(P.Func) case Var => Some(P.VarWord) case Global => Some(P.GlobalWord) case Print => Some(P.PrintWord)
    case If => Some(P.IfWord) case Then => Some(P.ThenWord) case Else => Some(P.ElseWord) case Return => Some(P.ReturnWord)
    case End => Some(P.End) case EndIf => Some(P.EndIf) case EndFunc => Some(P.EndFunc)
    case _ => None
  }

  function UnusedPlace(k: L.Kind): nat {
    match k
    case Case => 0 case Class => 1 case Const => 2 case Default => 3 case Dim => 4 case Do => 5
    case EndSelect => 6 case EndSwitch => 7 case EndWith => 8 case For => 9 case Local => 10 case Next => 11
    case Redim => 12 case Select => 13 case Static => 14 case Step => 15 case Super => 16 case Switch => 17
    case This => 18 case Volatile => 19 case Wend => 20 case While => 21
    case _ => 22
  }

  lemma UnusedBack(k: L.Kind)
    requires L.Spelling(k) != "" && !L.Broken(k) && GrammarWord(k).None?
    ensures UnusedPlace(k) < |UNUSED| && UnusedKind(UnusedPlace(k)) == k
  {
  }

  lemma WordRead(t: string, w: string, k: L.Kind)
    requires Small(w) && SameName(t, w) && L.Spelling(k) == w && !L.Broken(k)
    ensures Lexeme(t) && L.Munch(t, 0).kind == k
  {
    hide L.Munch, L.IdentifierType, L.Spelling, Lexeme, SameName;
    AnyCase(t, w);
    WordMunch(t);
    SpellsIsSame(t, w);
    L.Recognised(t, k);
  }

  lemma NameRead(t: string)
    requires IsName(t)
    ensures Lexeme(t) && L.Munch(t, 0).kind == L.Identifier
  {
    hide L.Munch, L.IdentifierType, L.Spelling, Lexeme, SameName, ReservedWord;
    WordMunch(t);
    L.OnlyWords(t);
    var k := L.IdentifierType(t);
    if k != L.Identifier {
      SpelledOut(t, k);
      Listed(k);
      var w := L.Spelling(k);
      if n :| 0 <= n < |UNUSED| && UNUSED[n] == w { UnusedSmall(n); }
      else {
        var p: P.Kind :| ReservedWord(p) == w;
        ReservedSmall(p);
      }
      AnyCase(t, w);
      SpellsIsSame(t, w);
      assert false;
    }
  }

  lemma QuotedRead(t: string, s: string)
    requires IsQuoted(t, s)
    ensures Lexeme(t) && L.Munch(t, 0).kind == L.Text && PlainKind(L.Text, t) == P.StringTok(s)
  {
    hide *;
    QuotedShape(t, s);
    LexScans(Quoted(t[0], s));
    QuotedMeans(t, s);
  }

  lemma QuotedShape(t: string, s: string)
    requires IsQuoted(t, s)
    ensures |t| >= 2 && t == TextOf(Quoted(t[0], s)) && t[1..|t| - 1] == s && WellFormed(Quoted(t[0], s))
  {
    forall i | 0 <= i < |s| ensures Syntax.Lower(s[i]) != t[0] { assert s[i] in s; }
  }

  lemma QuotedMeans(t: string, s: string)
    requires |t| >= 2 && t[1..|t| - 1] == s
    ensures PlainKind(L.Text, t) == P.StringTok(s) && forall k :: Means(Quoted(t[0], s), k) ==> k == L.Text
  {
  }

  lemma NumberLexeme(t: string)
    requires IsNumber(t)
    ensures Lexeme(t) && L.Munch(t, 0).kind == L.Number
  {
    hide L.Munch, Lexeme, AllDigits, Means;
    var l := Digits(t);
    if !AllDigits(t) {
      var n :| 0 < n < |t| && t[n] == '.' && AllDigits(t[..n]) && AllDigits(t[n + 1..]);
      l := Decimal(t[..n], t[n + 1..]);
      assert t == t[..n] + (['.'] + t[n + 1..]);
    }
    assert TextOf(l) == t && WellFormed(l);
    hide TextOf, WellFormed;
    LexScans(l);
    NumberMeans(l);
  }

  lemma NumberMeans(l: Lex)
    ensures l.Digits? || l.Decimal? ==> forall k :: Means(l, k) ==> k == L.Number
  {
  }

  /** A number followed by a separator is what `strtod` reads. */
  lemma NumberRead(h: Host, s: string, j: nat, t: string)
    requires Reads(h) && Lexeme(t) && L.Munch(t, 0).kind == L.Number && Stands(s, j, t)
    ensures h.number(s[j..]) == h.number(t)
  {
    hide L.Munch, Lexeme, Reads, Significant, Taken, L.IsDigit;
    MunchShift(s, j, t);
    NumberCut(s, j);
    var r := s[j..];
    assert L.DigitAt(r, 0) && Taken(r) == |t| && r[..|t|] == t by { assert s[j..j + |t|] == r[..|t|]; }
    NoneFollows(s, j, t);
    TokenIffEnds(r);
    SameValue(h, r);
  }

  lemma NoneFollows(s: string, j: nat, t: string)
    requires Stands(s, j, t)
    ensures !GoesOn(s[j..], |t|)
  {
    var r, n := s[j..], |t|;
    if n < |r| { assert r[n] == s[j + n]; }
  }

  /** What `t` is scanned as, and the parser's kind that comes to where it stands. */
  ghost predicate ReadAs(h: Host, t: string, k: P.Kind, s: string, j: nat) {
    Lexeme(t)
    && (Stands(s, j, t) ==>
        if L.Munch(t, 0).kind.Number? then P.Number(h.number(s[j..])) == k else PlainKind(L.Munch(t, 0).kind, t) == k)
  }

  lemma NameReadAs(h: Host, t: string, k: P.Kind, s: string, j: nat)
    requires k.Identifier? && t == k.id && IsName(t)
    ensures ReadAs(h, t, k, s, j)
  {
    hide L.Munch, Lexeme, IsName, PlainKind, Stands;
    NameRead(t);
    NamePlain(t);
  }

  lemma QuotedReadAs(h: Host, t: string, k: P.Kind, s: string, j: nat)
    requires k.StringTok? && IsQuoted(t, k.s)
    ensures ReadAs(h, t, k, s, j)
  {
    hide L.Munch, Lexeme, IsQuoted, PlainKind, Stands;
    QuotedRead(t, k.s);
  }

  lemma NumberReadAs(h: Host, t: string, k: P.Kind, s: string, j: nat)
    requires Reads(h) && k.Number? && IsNumber(t) && k.n == h.number(t)
    ensures ReadAs(h, t, k, s, j)
  {
    hide L.Munch, Lexeme, IsNumber, PlainKind, Stands, Reads;
    NumberLexeme(t);
    if Stands(s, j, t) { NumberRead(h, s, j, t); }
  }

  lemma UnusedReadAs(h: Host, t: string, n: nat, s: string, j: nat)
    requires n < |UNUSED| && SameName(t, UNUSED[n])
    ensures ReadAs(h, t, P.Other, s, j)
  {
    hide L.Munch, Lexeme, PlainKind, Stands, SameName, L.Spelling;
    UnusedSmall(n);
    UnusedScanned(n, t);
    WordRead(t, UNUSED[n], UnusedKind(n));
  }

  lemma SymbolReadAs(h: Host, t: string, k: P.Kind, s: string, j: nat)
    requires Symbol(k) != "" && t == Symbol(k)
    ensures ReadAs(h, t, k, s, j)
  {
    hide L.Munch, Lexeme, PlainKind, Stands, Symbol, OperatorText;
    SymbolScanned(k);
    OperatorScans(ScannedAs(k));
  }

  lemma WordReadAs(h: Host, t: string, k: P.Kind, s: string, j: nat)
    requires ReservedWord(k) != "" && SameName(t, ReservedWord(k))
    ensures ReadAs(h, t, k, s, j)
  {
    hide L.Munch, Lexeme, PlainKind, Stands, ReservedWord, SameName, L.Spelling;
    WordScanned(k, t);
    ReservedSmall(k);
    WordRead(t, ReservedWord(k), ScannedAs(k));
  }

  /** A token where it stands is read as what it denotes. */
  lemma TokenRead(h: Host, t: string, k: P.Kind, s: string, j: nat)
    requires Reads(h) && Denotes(h, t, k)
    ensures ReadAs(h, t, k, s, j)
  {
    hide Reads, IsNumber, IsName, IsQuoted, ReservedWord, Symbol, SameName, ReadAs;
    match k {
      case Identifier(id) => NameReadAs(h, t, k, s, j);
      case StringTok(b) => QuotedReadAs(h, t, k, s, j);
      case Number(n) => NumberReadAs(h, t, k, s, j);
      case Other =>
        var n :| 0 <= n < |UNUSED| && SameName(t, UNUSED[n]);
        UnusedReadAs(h, t, n, s, j);
      case _ =>
        if Symbol(k) != "" { SymbolReadAs(h, t, k, s, j); }
        else {
          NoOther(k);
          WordReadAs(h, t, k, s, j);
        }
    }
  }

  lemma LexemeKind(t: string)
    requires Lexeme(t)
    ensures !L.Munch(t, 0).kind.Error?
  {
  }

  lemma NamePlain(t: string)
    requires t != []
    ensures PlainKind(L.Identifier, t) == P.Identifier(t)
  {
  }

  lemma NoOther(k: P.Kind)
    requires Symbol(k) == "" && !k.Identifier? && !k.StringTok? && !k.Number? && !k.Other? && !k.Eof?
    ensures ReservedWord(k) != ""
  {
  }

  // Texts

  lemma FeedsAppend(s: string, t: string)
    ensures Feeds(s + t) == Feeds(s) + Feeds(t)
  {
  }

  /** Lines are counted by line feeds. */
  lemma {:induction false} LinesBetween(s: string, i: nat, j: nat)
    requires i <= j <= |s|
    ensures L.LineOf(s, j) == L.LineOf(s, i) + Feeds(s[i..j])
    decreases j
  {
    if i < j {
      LinesBetween(s, i, j - 1);
      assert s[i..j] == s[i..j - 1] + [s[j - 1]];
      FeedsAppend(s[i..j - 1], [s[j - 1]]);
    } else {
      assert s[i..j] == "";
    }
  }

  lemma LegibleTail(h: Host, ws: seq<Writing>, last: string)
    requires Legible(h, ws, last) && ws != []
    ensures Legible(h, ws[1..], last) && Denotes(h, ws[0].text, ws[0].kind) && Gap(ws[0].gap)
    ensures ws[1..] != [] ==> ws[1].gap != []
    ensures PiecesOf(ws)[1..] == PiecesOf(ws[1..]) && PiecesOf(ws)[0] == Piece(ws[0].gap, ws[0].text)
  {
    hide Denotes, Gap, L.Blanks;
    assert PiecesOf(ws)[1..] == PiecesOf(ws[1..]);
  }

  lemma {:induction false} LegibleSpaced(h: Host, ws: seq<Writing>, last: string)
    requires Reads(h) && Legible(h, ws, last)
    ensures Spaced(PiecesOf(ws), last)
    decreases |ws|
  {
    hide Gap, Lexeme, Denotes, Legible, L.Blanks, Reads;
    if ws != [] {
      LegibleTail(h, ws, last);
      TokenRead(h, ws[0].text, ws[0].kind, "", 0);
      LegibleSpaced(h, ws[1..], last);
      SpacedMore(PiecesOf(ws), last);
    } else {
      SpacedNone(h, last);
    }
  }

  lemma SpacedNone(h: Host, last: string)
    requires Legible(h, [], last)
    ensures Spaced([], last)
  {
    hide Denotes, Gap;
  }

  lemma SpacedMore(ps: seq<Piece>, last: string)
    requires ps != [] && Gap(ps[0].gap) && Lexeme(ps[0].text) && Spaced(ps[1..], last) && (ps[1..] != [] ==> ps[1].gap != [])
    ensures Spaced(ps, last)
  {
    hide Gap, Lexeme;
  }

  lemma MoreTokens(h: Host, t: L.Token, ts: seq<L.Token>)
    requires !t.kind.Error? && ParserTokens(h, ts).Some?
    ensures ParserTokens(h, [t] + ts) == Some([P.Token(KindOf(h, t), t.line)] + ParserTokens(h, ts).value)
  {
    hide KindOf;
    assert ([t] + ts)[1..] == ts;
  }

  lemma MeantCons(ws: seq<Writing>, last: string, line: nat)
    requires ws != []
    ensures
      var here := line + Feeds(ws[0].gap) + Feeds(ws[0].text);
      Meant(ws, last, line) == [P.Token(ws[0].kind, here)] + Meant(ws[1..], last, here)
  {
    hide Feeds;
  }

  /** The first token, and where the rest starts. */
  lemma ReadOne(h: Host, s: string, i: nat, ws: seq<Writing>, last: string) returns (t: L.Token, end: nat)
    requires Reads(h) && Legible(h, ws, last) && ws != []
    requires i <= |s| && s[i..] == Render(PiecesOf(ws), last) && Spaced(PiecesOf(ws), last)
    ensures Legible(h, ws[1..], last) && end <= |s| && s[end..] == Render(PiecesOf(ws[1..]), last) && Spaced(PiecesOf(ws[1..]), last)
    ensures Written(s, i, PiecesOf(ws), last) == [t] + Written(s, end, PiecesOf(ws[1..]), last)
    ensures !t.kind.Error? && KindOf(h, t) == ws[0].kind && t.line == L.LineOf(s, end)
    ensures L.LineOf(s, end) == L.LineOf(s, i) + Feeds(ws[0].gap) + Feeds(ws[0].text)
  {
    hide Reads, Legible, Render, Spaced, Written, L.Munch, Lexeme, Gap, Denotes, L.LineOf, L.ColumnOf, Feeds, KindOf, PiecesOf, Separated, ReadAs, L.TokenOf;
    var ps := PiecesOf(ws);
    LegibleTail(h, ws, last);
    Parts(s, i, ps, last);
    WrittenCons(s, i, ps, last);
    var j := i + |ps[0].gap|;
    end := j + |ps[0].text|;
    AfterToken(s, end, h, ws, last);
    TokenRead(h, ws[0].text, ws[0].kind, s, j);
    t := L.TokenOf(s, j, L.Munched(L.Munch(ws[0].text, 0).kind, end));
    TokenIs(h, ws[0].text, ws[0].kind, s, j);
    LinesBetween(s, i, j);
    LinesBetween(s, j, end);
  }

  /** From any place in the text on. */
  lemma {:induction false} ReadFrom(h: Host, s: string, i: nat, ws: seq<Writing>, last: string)
    requires Reads(h) && Legible(h, ws, last) && i <= |s| && s[i..] == Render(PiecesOf(ws), last) && Spaced(PiecesOf(ws), last)
    ensures ParserTokens(h, Written(s, i, PiecesOf(ws), last)) == Some(Meant(ws, last, L.LineOf(s, i)))
    decreases |ws|
  {
    hide Reads, Legible, Render, Spaced, Written, L.LineOf, ParserTokens, Feeds, KindOf, PiecesOf, Meant;
    if ws == [] {
      assert PiecesOf(ws) == [];
      ReadEnd(h, s, i, last);
      MeantNone(last, L.LineOf(s, i));
    } else {
      var t, end := ReadOne(h, s, i, ws, last);
      ReadFrom(h, s, end, ws[1..], last);
      MoreTokens(h, t, Written(s, end, PiecesOf(ws[1..]), last));
      MeantCons(ws, last, L.LineOf(s, i));
    }
  }

  lemma MeantNone(last: string, line: nat)
    ensures Meant([], last, line) == [P.Token(P.Eof, line + Feeds(last))]
  {
    hide Feeds;
  }

  lemma AfterToken(s: string, end: nat, h: Host, ws: seq<Writing>, last: string)
    requires ws != [] && Legible(h, ws, last) && Spaced(PiecesOf(ws), last)
    requires end <= |s| && s[end..] == Render(PiecesOf(ws[1..]), last)
    ensures Separated(s, end) && Spaced(PiecesOf(ws[1..]), last)
  {
    hide Gap, Lexeme, Denotes, Legible, L.Blanks, L.Munch, Render, Spaced;
    LegibleTail(h, ws, last);
    SpacedCons(PiecesOf(ws), last);
    NextSeparated(s, end, PiecesOf(ws[1..]), last);
  }

  lemma TokenIs(h: Host, t: string, k: P.Kind, s: string, j: nat)
    requires ReadAs(h, t, k, s, j) && Stands(s, j, t)
    ensures
      var token := L.TokenOf(s, j, L.Munched(L.Munch(t, 0).kind, j + |t|));
      !token.kind.Error? && KindOf(h, token) == k && token.line == L.LineOf(s, j + |t|)
  {
    hide L.Munch, L.LineOf, L.ColumnOf, PlainKind;
    LexemeKind(t);
  }

  lemma ReadEnd(h: Host, s: string, i: nat, last: string)
    requires i <= |s| && s[i..] == Render([], last) && Spaced([], last)
    ensures ParserTokens(h, Written(s, i, [], last)) == Some([P.Token(P.Eof, L.LineOf(s, i) + Feeds(last))])
  {
    hide *;
    WrittenNone(s, i, last);
    LinesBetween(s, i, |s|);
    RenderNone(last);
    assert s[i..|s|] == last;
    OnlyEof(h, s);
  }

  lemma RenderNone(last: string)
    ensures Render([], last) == last
  {
  }

  lemma OnlyEof(h: Host, s: string)
    ensures ParserTokens(h, [L.TokenOf(s, |s|, L.Munched(L.Eof, |s|))]) == Some([P.Token(P.Eof, L.LineOf(s, |s|))])
  {
    hide L.LineOf, L.ColumnOf, KindOf;
    var t := L.TokenOf(s, |s|, L.Munched(L.Eof, |s|));
    EofKind(h, t);
    assert ParserTokens(h, []) == Some([]) && [t] + [] == [t];
    var last := [P.Token(P.Eof, L.LineOf(s, |s|))];
    assert last + [] == last;
    MoreTokens(h, t, []);
  }

  /**
   A text made of the characters of some tokens, with blanks and comments between them, is read
   as exactly those tokens, each on its line, and the end of the file.
   */
  lemma TextIsRead(h: Host, ws: seq<Writing>, last: string)
    requires Reads(h) && Legible(h, ws, last)
    ensures ParserTokens(h, L.TokensOf(Render(PiecesOf(ws), last))) == Some(Meant(ws, last, 1))
  {
    hide Reads, Render, Spaced, Written, Gap, Denotes, L.LineOf, ParserTokens, L.Tokens, L.Blanks;
    var ps := PiecesOf(ws);
    var src := Render(ps, last);
    assert src[0..] == src;
    LegibleSpaced(h, ws, last);
    NoNul(ps, last);
    ScanWritten(src, 0, 0, ps, last);
    assert L.LineOf(src, 0) == 1 by { FirstLine(src); }
    ReadFrom(h, src, 0, ws, last);
  }

  lemma FirstLine(s: string)
    ensures L.LineOf(s, 0) == 1
  {
  }
}
