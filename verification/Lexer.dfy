/** The scanner of `lexer.c`: blanks, comments, and the longest token from there. */
module Lexer {
  import Syntax

  datatype Kind =
    | LParen | RParen | LBracket | RBracket | LBrace | RBrace
    | Comma | Dot | Minus | Plus | Slash | Star
    | Bang | BangEqual | Equal | EqualEqual | Less | LessEqual | Greater | GreaterEqual
    | Identifier | Text | Number | Macro | Preprocessor
    | And | Case | Class | Const | Default | Dim | Do
    | Else | End | EndFunc | EndIf | EndSelect | EndSwitch | EndWith | Enum
    | False | For | Func | Global | If | Local | Next | Not | Null | Or | Print
    | Redim | Return | Select | Static | Step | Super | Switch
    | Then | This | To | True | Var | Volatile | Wend | While | With
    | Eof | Error

  /** A token; `rest` is what its pointer reads, the source from its start on; `line` and `column` count from 1. */
  datatype Token = Token(kind: Kind, text: string, rest: string, line: nat, column: int)

  predicate IsAlpha(c: char) {
    'a' <= c <= 'z' || 'A' <= c <= 'Z' || c == '_' || c == '$'
  }

  predicate IsDigit(c: char) {
    '0' <= c <= '9'
  }

  predicate InWord(c: char) {
    IsAlpha(Syntax.Lower(c)) || IsDigit(Syntax.Lower(c))
  }

  /** `equal_str` on `len` characters; `rest` ends in a NUL, which no source character equals. */
  predicate EqualStr(t: string, start: nat, rest: string, len: nat)
    requires start + len <= |t|
  {
    forall i :: 0 <= i < len ==> i < |rest| && Syntax.Lower(t[start + i]) == Syntax.Lower(rest[i])
  }

  function CheckKeyword(t: string, start: nat, len: nat, rest: string, k: Kind): Kind {
    if |t| == start + len && EqualStr(t, start, rest, len) then k else Identifier
  }

  /** The lower-case character at `i`, or a blank past the end. */
  function At(t: string, i: nat): char {
    if i < |t| then Syntax.Lower(t[i]) else ' '
  }

  /** `identifierType`: a switch on the first letter. */
  function IdentifierType(t: string): (k: Kind)
    requires |t| > 0
    ensures !k.Eof? && !k.Error?
  {
    match At(t, 0)
    case 'a' => CheckKeyword(t, 1, 2, "nd", And)
    case 'c' => WithC(t)
    case 'd' => WithD(t)
    case 'e' => WithE(t)
    case 'f' => WithF(t)
    case 'g' => CheckKeyword(t, 1, 5, "lobal", Global)
    case 'i' => CheckKeyword(t, 1, 1, "f", If)
    case 'l' => CheckKeyword(t, 1, 4, "ocal", Local)
    case 'n' => WithN(t)
    case 'o' => CheckKeyword(t, 1, 1, "r", Or)
    case 'p' => CheckKeyword(t, 1, 4, "rint", Print)
    case 'r' => WithR(t)
    case 's' => WithS(t)
    case 't' => WithT(t)
    case 'v' => WithV(t)
    case 'w' => WithW(t)
    case _ => Identifier
  }

  function WithC(t: string): (k: Kind)
    ensures !k.Eof? && !k.Error?
  {
    if At(t, 1) == 'a' then CheckKeyword(t, 2, 2, "se", Case)
    else if At(t, 1) == 'l' then CheckKeyword(t, 2, 3, "ass", Class)
    else if At(t, 1) == 'o' then CheckKeyword(t, 2, 3, "nst", Const)
    else Identifier
  }

  function WithD(t: string): (k: Kind)
    ensures !k.Eof? && !k.Error?
  {
    if At(t, 1) == 'e' then CheckKeyword(t, 2, 5, "fault", Default)
    else if At(t, 1) == 'i' then CheckKeyword(t, 2, 1, "m", Dim)
    else if At(t, 1) == 'o' then CheckKeyword(t, 2, 0, "", Do)
    else Identifier
  }

  function WithF(t: string): (k: Kind)
    ensures !k.Eof? && !k.Error?
  {
    if At(t, 1) == 'a' then CheckKeyword(t, 2, 3, "lse", False)
    else if At(t, 1) == 'o' then CheckKeyword(t, 2, 1, "r", For)
    else if At(t, 1) == 'u' then CheckKeyword(t, 2, 2, "nc", Func)
    else Identifier
  }

  function WithN(t: string): (k: Kind)
    ensures !k.Eof? && !k.Error?
  {
    if At(t, 1) == 'e' then CheckKeyword(t, 2, 2, "xt", Next)
    else if At(t, 1) == 'o' then CheckKeyword(t, 2, 1, "t", Not)
    else if At(t, 1) == 'u' then CheckKeyword(t, 2, 2, "ll", Null)
    else Identifier
  }

  function WithR(t: string): (k: Kind)
    ensures !k.Eof? && !k.Error?
  {
    if At(t, 1) == 'e' && At(t, 2) == 't' then CheckKeyword(t, 3, 3, "urn", Return)
    else if At(t, 1) == 'e' && At(t, 2) == 'd' then CheckKeyword(t, 3, 2, "im", Redim)
    else Identifier
  }

  function WithS(t: string): (k: Kind)
    ensures !k.Eof? && !k.Error?
  {
    if At(t, 1) == 'e' then CheckKeyword(t, 2, 4, "lect", Select)
    else if At(t, 1) == 't' && At(t, 2) == 'a' then CheckKeyword(t, 3, 3, "tic", Static)
    else if At(t, 1) == 't' && At(t, 2) == 'e' then CheckKeyword(t, 3, 1, "p", Step)
    else if At(t, 1) == 'u' then CheckKeyword(t, 2, 3, "per", Super)
    else if At(t, 1) == 'w' then CheckKeyword(t, 2, 4, "itch", Switch)
    else Identifier
  }

  function WithT(t: string): (k: Kind)
    ensures !k.Eof? && !k.Error?
  {
    if At(t, 1) == 'h' && At(t, 2) == 'e' then CheckKeyword(t, 3, 1, "n", Then)
    else if At(t, 1) == 'h' && At(t, 2) == 'i' then CheckKeyword(t, 3, 1, "s", This)
    else if At(t, 1) == 'r' then CheckKeyword(t, 2, 2, "ue", True)
    else if At(t, 1) == 'o' then CheckKeyword(t, 2, 2, "", To)
    else Identifier
  }

  function WithV(t: string): (k: Kind)
    ensures !k.Eof? && !k.Error?
  {
    if At(t, 1) == 'a' then CheckKeyword(t, 2, 1, "r", Var)
    else if At(t, 1) == 'o' then CheckKeyword(t, 2, 6, "latile", Volatile)
    else Identifier
  }

  function WithW(t: string): (k: Kind)
    ensures !k.Eof? && !k.Error?
  {
    if At(t, 1) == 'e' then CheckKeyword(t, 2, 2, "nd", Wend)
    else if At(t, 1) == 'h' then CheckKeyword(t, 2, 3, "ile", While)
    else if At(t, 1) == 'i' then CheckKeyword(t, 2, 2, "th", With)
    else Identifier
  }

  function WithE(t: string): (k: Kind)
    requires |t| > 0
    ensures !k.Eof? && !k.Error?
  {
    if |t| == 3 then CheckKeyword(t, 1, 2, "nd", End)
    else if |t| == 4 then
      if Syntax.Lower(t[1]) == 'l' then CheckKeyword(t, 1, 3, "lse", Else)
      else if Syntax.Lower(t[3]) == 'n' then CheckKeyword(t, 1, 3, "num", Enum)
      else Identifier
    else if |t| == 5 then CheckKeyword(t, 1, 4, "ndif", EndIf)
    else if |t| == 7 then
      if Syntax.Lower(t[3]) == 'f' then CheckKeyword(t, 1, 6, "ndfunc", EndFunc)
      else if Syntax.Lower(t[3]) == 'w' then CheckKeyword(t, 1, 6, "ndwith", EndWith)
      else Identifier
    else if |t| == 9 then
      if Syntax.Lower(t[4]) == 'e' then CheckKeyword(t, 1, 8, "ndselect", EndSelect)
      else if Syntax.Lower(t[4]) == 'w' then CheckKeyword(t, 1, 8, "ndswitch", EndSwitch)
      else Identifier
    else Identifier
  }

  /** The reserved words as they are meant to be spelled. */
  function Spelling(k: Kind): string {
    match k
    case And => "and" case Case => "case" case Class => "class" case Const => "const"
    case Default => "default" case Dim => "dim" case Do => "do"
    case Else => "else" case End => "end" case EndFunc => "endfunc" case EndIf => "endif"
    case EndSelect => "endselect" case EndSwitch => "endswitch" case EndWith => "endwith" case Enum => "enum"
    case False => "false" case For => "for" case Func => "func" case Global => "global"
    case If => "if" case Local => "local" case Next => "next" case Not => "not" case Null => "null"
    case Or => "or" case Print => "print" case Redim => "redim" case Return => "return"
    case Select => "select" case Static => "static" case Step => "step" case Super => "super" case Switch => "switch"
    case Then => "then" case This => "this" case To => "to" case True => "true"
    case Var => "var" case Volatile => "volatile" case Wend => "wend" case While => "while" case With => "with"
    case _ => ""
  }

  /** What the two reserved words with a wrong recogniser have in common: they are never recognised. */
  predicate Broken(k: Kind) {
    k.To? || k.Enum?
  }

  predicate LowerCase(s: string) {
    forall i :: 0 <= i < |s| ==> Syntax.Lower(s[i]) == s[i]
  }

  /** `t` is the word `w`, in any case. */
  predicate Spells(t: string, w: string) {
    |t| == |w| && forall i :: 0 <= i < |w| ==> Syntax.Lower(t[i]) == w[i]
  }

  /** A word passes the comparison with its own end. */
  lemma Spelled(t: string, w: string, start: nat, rest: string, k: Kind)
    requires Spells(t, w) && start + |rest| == |w| && LowerCase(rest)
    requires forall i :: 0 <= i < |rest| ==> rest[i] == w[start + i]
    ensures CheckKeyword(t, start, |rest|, rest, k) == k
  {
    forall i | 0 <= i < |rest| ensures Syntax.Lower(t[start + i]) == Syntax.Lower(rest[i]) { assert w[start + i] == rest[i]; }
  }

  /** Every reserved word but the broken ones is recognised, in any case. */
  lemma Recognised(t: string, k: Kind)
    requires Spelling(k) != "" && !Broken(k) && Spells(t, Spelling(k))
    ensures |t| > 0 && IdentifierType(t) == k
  {
    hide CheckKeyword, WithC, WithD, WithE, WithF, WithN, WithR, WithS, WithT, WithV, WithW;
    match k
    case And => RecognisedOne(t, k);
    case Global => RecognisedOne(t, k);
    case If => RecognisedOne(t, k);
    case Local => RecognisedOne(t, k);
    case Or => RecognisedOne(t, k);
    case Print => RecognisedOne(t, k);
    case Case => RecognisedC(t, k);
    case Class => RecognisedC(t, k);
    case Const => RecognisedC(t, k);
    case Default => RecognisedD(t, k);
    case Dim => RecognisedD(t, k);
    case Do => RecognisedD(t, k);
    case False => RecognisedF(t, k);
    case For => RecognisedF(t, k);
    case Func => RecognisedF(t, k);
    case Next => RecognisedN(t, k);
    case Not => RecognisedN(t, k);
    case Null => RecognisedN(t, k);
    case Return => RecognisedR(t, k);
    case Redim => RecognisedR(t, k);
    case Select => RecognisedS(t, k);
    case Static => RecognisedS(t, k);
    case Step => RecognisedS(t, k);
    case Super => RecognisedS(t, k);
    case Switch => RecognisedS(t, k);
    case Then => RecognisedT(t, k);
    case This => RecognisedT(t, k);
    case True => RecognisedT(t, k);
    case Var => RecognisedV(t, k);
    case Volatile => RecognisedV(t, k);
    case Wend => RecognisedW(t, k);
    case While => RecognisedW(t, k);
    case With => RecognisedW(t, k);
    case _ => RecognisedE(t, k);
  }

  lemma RecognisedOne(t: string, k: Kind)
    requires (k.And? || k.Global? || k.If? || k.Local? || k.Or? || k.Print?) && Spells(t, Spelling(k))
    ensures |t| > 0 && IdentifierType(t) == k
  {
    hide CheckKeyword;
    match k
    case And => Spelled(t, "and", 1, "nd", And);
    case Global => Spelled(t, "global", 1, "lobal", Global);
    case If => Spelled(t, "if", 1, "f", If);
    case Local => Spelled(t, "local", 1, "ocal", Local);
    case Or => Spelled(t, "or", 1, "r", Or);
    case Print => Spelled(t, "print", 1, "rint", Print);
  }

  lemma RecognisedC(t: string, k: Kind)
    requires (k.Case? || k.Class? || k.Const?) && Spells(t, Spelling(k))
    ensures |t| > 0 && WithC(t) == k
  {
    hide CheckKeyword;
    match k
    case Case => Spelled(t, "case", 2, "se", Case);
    case Class => Spelled(t, "class", 2, "ass", Class);
    case Const => Spelled(t, "const", 2, "nst", Const);
  }

  lemma RecognisedD(t: string, k: Kind)
    requires (k.Default? || k.Dim? || k.Do?) && Spells(t, Spelling(k))
    ensures |t| > 0 && WithD(t) == k
  {
    hide CheckKeyword;
    match k
    case Default => Spelled(t, "default", 2, "fault", Default);
    case Dim => Spelled(t, "dim", 2, "m", Dim);
    case Do => Spelled(t, "do", 2, "", Do);
  }

  lemma RecognisedF(t: string, k: Kind)
    requires (k.False? || k.For? || k.Func?) && Spells(t, Spelling(k))
    ensures |t| > 0 && WithF(t) == k
  {
    hide CheckKeyword;
    match k
    case False => Spelled(t, "false", 2, "lse", False);
    case For => Spelled(t, "for", 2, "r", For);
    case Func => Spelled(t, "func", 2, "nc", Func);
  }

  lemma RecognisedN(t: string, k: Kind)
    requires (k.Next? || k.Not? || k.Null?) && Spells(t, Spelling(k))
    ensures |t| > 0 && WithN(t) == k
  {
    hide CheckKeyword;
    match k
    case Next => Spelled(t, "next", 2, "xt", Next);
    case Not => Spelled(t, "not", 2, "t", Not);
    case Null => Spelled(t, "null", 2, "ll", Null);
  }

  lemma RecognisedR(t: string, k: Kind)
    requires (k.Return? || k.Redim?) && Spells(t, Spelling(k))
    ensures |t| > 0 && WithR(t) == k
  {
    hide CheckKeyword;
    match k
    case Return => Spelled(t, "return", 3, "urn", Return);
    case Redim => Spelled(t, "redim", 3, "im", Redim);
  }

  lemma RecognisedS(t: string, k: Kind)
    requires (k.Select? || k.Static? || k.Step? || k.Super? || k.Switch?) && Spells(t, Spelling(k))
    ensures |t| > 0 && WithS(t) == k
  {
    hide CheckKeyword;
    match k
    case Select => Spelled(t, "select", 2, "lect", Select);
    case Static => Spelled(t, "static", 3, "tic", Static);
    case Step => Spelled(t, "step", 3, "p", Step);
    case Super => Spelled(t, "super", 2, "per", Super);
    case Switch => Spelled(t, "switch", 2, "itch", Switch);
  }

  lemma RecognisedT(t: string, k: Kind)
    requires (k.Then? || k.This? || k.True?) && Spells(t, Spelling(k))
    ensures |t| > 0 && WithT(t) == k
  {
    hide CheckKeyword;
    match k
    case Then => Spelled(t, "then", 3, "n", Then);
    case This => Spelled(t, "this", 3, "s", This);
    case True => Spelled(t, "true", 2, "ue", True);
  }

  lemma RecognisedV(t: string, k: Kind)
    requires (k.Var? || k.Volatile?) && Spells(t, Spelling(k))
    ensures |t| > 0 && WithV(t) == k
  {
    hide CheckKeyword;
    match k
    case Var => Spelled(t, "var", 2, "r", Var);
    case Volatile => Spelled(t, "volatile", 2, "latile", Volatile);
  }

  lemma RecognisedW(t: string, k: Kind)
    requires (k.Wend? || k.While? || k.With?) && Spells(t, Spelling(k))
    ensures |t| > 0 && WithW(t) == k
  {
    hide CheckKeyword;
    match k
    case Wend => Spelled(t, "wend", 2, "nd", Wend);
    case While => Spelled(t, "while", 2, "ile", While);
    case With => Spelled(t, "with", 2, "th", With);
  }

  lemma RecognisedE(t: string, k: Kind)
    requires Spelling(k) != "" && !Broken(k) && Spells(t, Spelling(k)) && Spelling(k)[0] == 'e'
    ensures |t| > 0 && WithE(t) == k
  {
    hide CheckKeyword, WithE;
    match k
    case Else => RecognisedShortE(t, k);
    case End => RecognisedShortE(t, k);
    case EndIf => RecognisedShortE(t, k);
    case _ => RecognisedLongE(t, k);
  }

  lemma RecognisedShortE(t: string, k: Kind)
    requires (k.Else? || k.End? || k.EndIf?) && Spells(t, Spelling(k))
    ensures |t| > 0 && WithE(t) == k
  {
    hide CheckKeyword;
    match k
    case Else => Spelled(t, "else", 1, "lse", Else);
    case End => Spelled(t, "end", 1, "nd", End);
    case EndIf => Spelled(t, "endif", 1, "ndif", EndIf);
  }

  lemma RecognisedLongE(t: string, k: Kind)
    requires (k.EndFunc? || k.EndSelect? || k.EndSwitch? || k.EndWith?) && Spells(t, Spelling(k))
    ensures |t| > 0 && WithE(t) == k
  {
    hide CheckKeyword;
    match k
    case EndFunc => Spelled(t, "endfunc", 1, "ndfunc", EndFunc);
    case EndWith => Spelled(t, "endwith", 1, "ndwith", EndWith);
    case _ => RecognisedLongest(t, k);
  }

  lemma RecognisedLongest(t: string, k: Kind)
    requires (k.EndSelect? || k.EndSwitch?) && Spells(t, Spelling(k))
    ensures |t| > 0 && WithE(t) == k
  {
    hide CheckKeyword;
    match k
    case EndSelect => Spelled(t, "endselect", 1, "ndselect", EndSelect);
    case EndSwitch => Spelled(t, "endswitch", 1, "ndswitch", EndSwitch);
  }

  lemma EqualAt(t: string, start: nat, rest: string, len: nat, i: nat)
    requires start + len <= |t| && EqualStr(t, start, rest, len) && i < len
    ensures i < |rest| && Syntax.Lower(t[start + i]) == Syntax.Lower(rest[i])
  {
  }

  /** `k` says what the word `t` is: a reserved word spelled so, or no reserved word. */
  predicate Named(t: string, k: Kind) {
    k == Identifier || (!Broken(k) && Spells(t, Spelling(k)))
  }

  /** A comparison that succeeds has found its word. */
  lemma Found(t: string, w: string, start: nat, rest: string, k: Kind)
    requires start + |rest| == |w| && LowerCase(rest) && Spelling(k) == w && !Broken(k)
    requires forall i :: 0 <= i < |rest| ==> rest[i] == w[start + i]
    requires forall i :: 0 <= i < start ==> i < |t| && Syntax.Lower(t[i]) == w[i]
    ensures Named(t, CheckKeyword(t, start, |rest|, rest, k))
  {
    hide Spelling;
    if |t| == |w| && EqualStr(t, start, rest, |rest|) {
      forall i | 0 <= i < |w| ensures Syntax.Lower(t[i]) == w[i] {
        if i >= start { EqualAt(t, start, rest, |rest|, i - start); }
      }
    }
  }

  /** Nothing but a reserved word is taken for one. */
  lemma OnlyWords(t: string)
    requires |t| > 0
    ensures Named(t, IdentifierType(t))
  {
    hide CheckKeyword, Spells, Spelling, Named, WithC, WithD, WithE, WithF, WithN, WithR, WithS, WithT, WithV, WithW;
    match At(t, 0)
    case 'a' => OnlyAGI(t);
    case 'c' => OnlyC(t);
    case 'd' => OnlyD(t);
    case 'e' => OnlyE(t);
    case 'f' => OnlyF(t);
    case 'g' => OnlyAGI(t);
    case 'i' => OnlyAGI(t);
    case 'l' => OnlyLOP(t);
    case 'n' => OnlyN(t);
    case 'o' => OnlyLOP(t);
    case 'p' => OnlyLOP(t);
    case 'r' => OnlyR(t);
    case 's' => OnlyS(t);
    case 't' => OnlyT(t);
    case 'v' => OnlyV(t);
    case 'w' => OnlyW(t);
    case _ => NoName(t);
  }

  lemma NoName(t: string)
    ensures Named(t, Identifier)
  {
  }

  lemma OnlyAGI(t: string)
    requires |t| > 0 && At(t, 0) in "agi"
    ensures Named(t, IdentifierType(t))
  {
    hide CheckKeyword, Named, Spells;
    match At(t, 0)
    case 'a' => Found(t, "and", 1, "nd", And);
    case 'g' => Found(t, "global", 1, "lobal", Global);
    case 'i' => Found(t, "if", 1, "f", If);
  }

  lemma OnlyLOP(t: string)
    requires |t| > 0 && At(t, 0) in "lop"
    ensures Named(t, IdentifierType(t))
  {
    hide CheckKeyword, Named, Spells;
    match At(t, 0)
    case 'l' => Found(t, "local", 1, "ocal", Local);
    case 'o' => Found(t, "or", 1, "r", Or);
    case 'p' => Found(t, "print", 1, "rint", Print);
  }

  lemma OnlyC(t: string)
    requires |t| > 0 && At(t, 0) == 'c'
    ensures Named(t, WithC(t))
  {
    hide CheckKeyword, Named, Spells;
    NoName(t);
    if At(t, 1) == 'a' { Found(t, "case", 2, "se", Case); }
    else if At(t, 1) == 'l' { Found(t, "class", 2, "ass", Class); }
    else if At(t, 1) == 'o' { Found(t, "const", 2, "nst", Const); }
  }

  lemma OnlyD(t: string)
    requires |t| > 0 && At(t, 0) == 'd'
    ensures Named(t, WithD(t))
  {
    hide CheckKeyword, Named, Spells;
    NoName(t);
    if At(t, 1) == 'e' { Found(t, "default", 2, "fault", Default); }
    else if At(t, 1) == 'i' { Found(t, "dim", 2, "m", Dim); }
    else if At(t, 1) == 'o' { Found(t, "do", 2, "", Do); }
  }

  lemma OnlyF(t: string)
    requires |t| > 0 && At(t, 0) == 'f'
    ensures Named(t, WithF(t))
  {
    hide CheckKeyword, Named, Spells;
    NoName(t);
    if At(t, 1) == 'a' { Found(t, "false", 2, "lse", False); }
    else if At(t, 1) == 'o' { Found(t, "for", 2, "r", For); }
    else if At(t, 1) == 'u' { Found(t, "func", 2, "nc", Func); }
  }

  lemma OnlyN(t: string)
    requires |t| > 0 && At(t, 0) == 'n'
    ensures Named(t, WithN(t))
  {
    hide CheckKeyword, Named, Spells;
    NoName(t);
    if At(t, 1) == 'e' { Found(t, "next", 2, "xt", Next); }
    else if At(t, 1) == 'o' { Found(t, "not", 2, "t", Not); }
    else if At(t, 1) == 'u' { Found(t, "null", 2, "ll", Null); }
  }

  lemma OnlyR(t: string)
    requires |t| > 0 && At(t, 0) == 'r'
    ensures Named(t, WithR(t))
  {
    hide CheckKeyword, Named, Spells;
    NoName(t);
    if At(t, 1) == 'e' && At(t, 2) == 't' { Found(t, "return", 3, "urn", Return); }
    else if At(t, 1) == 'e' && At(t, 2) == 'd' { Found(t, "redim", 3, "im", Redim); }
  }

  lemma OnlyS(t: string)
    requires |t| > 0 && At(t, 0) == 's'
    ensures Named(t, WithS(t))
  {
    hide CheckKeyword, Named, Spells, Spelling;
    NoName(t);
    if At(t, 1) == 't' { OnlySt(t); } else { OnlyOtherS(t); }
  }

  lemma OnlySt(t: string)
    requires |t| > 0 && At(t, 0) == 's' && At(t, 1) == 't'
    ensures Named(t, WithS(t))
  {
    hide CheckKeyword, Named, Spells;
    NoName(t);
    if At(t, 2) == 'a' { Found(t, "static", 3, "tic", Static); }
    else if At(t, 2) == 'e' { Found(t, "step", 3, "p", Step); }
  }

  lemma OnlyOtherS(t: string)
    requires |t| > 0 && At(t, 0) == 's' && At(t, 1) != 't'
    ensures Named(t, WithS(t))
  {
    hide CheckKeyword, Named, Spells;
    NoName(t);
    if At(t, 1) == 'e' { Found(t, "select", 2, "lect", Select); }
    else if At(t, 1) == 'u' { Found(t, "super", 2, "per", Super); }
    else if At(t, 1) == 'w' { Found(t, "switch", 2, "itch", Switch); }
  }

  lemma OnlyT(t: string)
    requires |t| > 0 && At(t, 0) == 't'
    ensures Named(t, WithT(t))
  {
    if |t| == 4 && EqualStr(t, 2, "", 2) { EqualAt(t, 2, "", 2, 0); }
    assert CheckKeyword(t, 2, 2, "", To) == Identifier;
    hide CheckKeyword, Named, Spells;
    NoName(t);
    if At(t, 1) == 'h' && At(t, 2) == 'e' { Found(t, "then", 3, "n", Then); }
    else if At(t, 1) == 'h' && At(t, 2) == 'i' { Found(t, "this", 3, "s", This); }
    else if At(t, 1) == 'r' { Found(t, "true", 2, "ue", True); }
  }

  lemma OnlyV(t: string)
    requires |t| > 0 && At(t, 0) == 'v'
    ensures Named(t, WithV(t))
  {
    hide CheckKeyword, Named, Spells;
    NoName(t);
    if At(t, 1) == 'a' { Found(t, "var", 2, "r", Var); }
    else if At(t, 1) == 'o' { Found(t, "volatile", 2, "latile", Volatile); }
  }

  lemma OnlyW(t: string)
    requires |t| > 0 && At(t, 0) == 'w'
    ensures Named(t, WithW(t))
  {
    hide CheckKeyword, Named, Spells;
    NoName(t);
    if At(t, 1) == 'e' { Found(t, "wend", 2, "nd", Wend); }
    else if At(t, 1) == 'h' { Found(t, "while", 2, "ile", While); }
    else if At(t, 1) == 'i' { Found(t, "with", 2, "th", With); }
  }

  lemma OnlyE(t: string)
    requires |t| > 0 && At(t, 0) == 'e'
    ensures Named(t, WithE(t))
  {
    hide CheckKeyword, Named, Spells, Spelling;
    NoName(t);
    if |t| <= 5 { OnlyShortE(t); } else { OnlyLongE(t); }
  }

  lemma OnlyShortE(t: string)
    requires 0 < |t| <= 5 && At(t, 0) == 'e'
    ensures Named(t, WithE(t))
  {
    if |t| == 4 && EqualStr(t, 1, "num", 3) { EqualAt(t, 1, "num", 3, 2); }
    assert |t| == 4 && Syntax.Lower(t[3]) == 'n' ==> CheckKeyword(t, 1, 3, "num", Enum) == Identifier;
    hide CheckKeyword, Named, Spells;
    NoName(t);
    if |t| == 3 { Found(t, "end", 1, "nd", End); }
    else if |t| == 4 && Syntax.Lower(t[1]) == 'l' { Found(t, "else", 1, "lse", Else); }
    else if |t| == 5 { Found(t, "endif", 1, "ndif", EndIf); }
  }

  lemma OnlyLongE(t: string)
    requires |t| > 5 && At(t, 0) == 'e'
    ensures Named(t, WithE(t))
  {
    hide CheckKeyword, Named, Spells, Spelling;
    NoName(t);
    if |t| == 7 { OnlyEndSeven(t); } else if |t| == 9 { OnlyEndNine(t); }
  }

  lemma OnlyEndSeven(t: string)
    requires |t| == 7 && At(t, 0) == 'e'
    ensures Named(t, WithE(t))
  {
    hide CheckKeyword, Named, Spells;
    NoName(t);
    if Syntax.Lower(t[3]) == 'f' { Found(t, "endfunc", 1, "ndfunc", EndFunc); }
    else if Syntax.Lower(t[3]) == 'w' { Found(t, "endwith", 1, "ndwith", EndWith); }
  }

  lemma OnlyEndNine(t: string)
    requires |t| == 9 && At(t, 0) == 'e'
    ensures Named(t, WithE(t))
  {
    hide CheckKeyword, Named, Spells;
    NoName(t);
    if Syntax.Lower(t[4]) == 'e' { Found(t, "endselect", 1, "ndselect", EndSelect); }
    else if Syntax.Lower(t[4]) == 'w' { Found(t, "endswitch", 1, "ndswitch", EndSwitch); }
  }

  predicate DigitAt(s: string, i: nat) {
    i < |s| && IsDigit(Syntax.Lower(s[i]))
  }

  /** The end of the word that goes on at `i`. */
  function WordEnd(s: string, i: nat): (j: nat)
    requires i <= |s|
    ensures i <= j <= |s|
    decreases |s| - i
  {
    if i < |s| && InWord(s[i]) then WordEnd(s, i + 1) else i
  }

  function DigitEnd(s: string, i: nat): (j: nat)
    requires i <= |s|
    ensures i <= j <= |s|
    decreases |s| - i
  {
    if DigitAt(s, i) then DigitEnd(s, i + 1) else i
  }

  /** The end of the number that goes on at `i`; a point counts only before a digit. */
  function NumberEnd(s: string, i: nat): (j: nat)
    requires i <= |s|
    ensures i <= j <= |s|
  {
    var j := DigitEnd(s, i);
    if j < |s| && s[j] == '.' && DigitAt(s, j + 1) then DigitEnd(s, j + 1) else j
  }

  /** Where the next quote `q` is, or the end. */
  function QuoteAt(s: string, i: nat, q: char): (j: nat)
    requires i <= |s|
    ensures i <= j <= |s|
    decreases |s| - i
  {
    if i < |s| && Syntax.Lower(s[i]) != q then QuoteAt(s, i + 1, q) else i
  }

  /** The end of the line, where a comment ends. */
  function LineEnd(s: string, i: nat): (j: nat)
    requires i <= |s|
    ensures i <= j <= |s|
    decreases |s| - i
  {
    if i < |s| && s[i] != '\n' then LineEnd(s, i + 1) else i
  }

  /** The first position that is neither blank nor in a comment to the end of a line. */
  function Blanks(s: string, i: nat): (j: nat)
    requires i <= |s|
    ensures i <= j <= |s|
    decreases |s| - i
  {
    if i == |s| then i
    else if s[i] == ' ' || s[i] == '\r' || s[i] == '\t' || s[i] == '\n' then Blanks(s, i + 1)
    else if s[i] == ';' then Blanks(s, LineEnd(s, i + 1))
    else i
  }

  /** The test for `#cs` and `#comments-start` at a `#`: it looks at what was scanned since `q`, the start of the last token. */
  predicate Opens(s: string, q: nat, i: nat)
    requires q <= i <= |s|
  {
    CheckKeyword(s[q..i], 1, 2, "cs", Preprocessor) != Identifier
    || CheckKeyword(s[q..i], 1, 14, "comments-start", Preprocessor) != Identifier
  }

  /** The test for `#ce` and `#comments-end`. */
  predicate Closes(s: string, q: nat, i: nat)
    requires q <= i <= |s|
  {
    CheckKeyword(s[q..i], 1, 2, "ce", Preprocessor) != Identifier
    || CheckKeyword(s[q..i], 1, 12, "comments-end", Preprocessor) != Identifier
  }

  /** Where a comment over several lines that goes on at `i` ends. */
  function BlockEnd(s: string, q: nat, i: nat): (j: nat)
    requires q <= i <= |s|
    ensures i <= j <= |s|
    decreases |s| - i
  {
    if i == |s| || (s[i] == '#' && Closes(s, q, i)) then i else BlockEnd(s, q, i + 1)
  }

  /** `skipWhitespace`: the first position that is neither blank nor in a comment. */
  function Skip(s: string, q: nat, i: nat): (j: nat)
    requires q <= i <= |s|
    ensures i <= j <= |s|
    decreases |s| - i
  {
    var j := Blanks(s, i);
    if j < |s| && s[j] == '#' && Opens(s, q, j) then Skip(s, q, BlockEnd(s, q, j + 1)) else j
  }

  datatype Munched = Munched(kind: Kind, end: nat)

  /** An operator that may be followed by `=`. */
  function WithEqual(s: string, i: nat, plain: Kind, equal: Kind): Munched {
    if i < |s| && s[i] == '=' then Munched(equal, i + 1) else Munched(plain, i)
  }

  /** The token that starts at `i`. */
  function Munch(s: string, i: nat): (m: Munched)
    requires i < |s|
    ensures i < m.end <= |s| && !m.kind.Eof?
  {
    var c := Syntax.Lower(s[i]);
    if IsAlpha(c) then Munched(IdentifierType(s[i..WordEnd(s, i + 1)]), WordEnd(s, i + 1))
    else if IsDigit(c) then Munched(Number, NumberEnd(s, i + 1))
    else
      match c
      case '(' => Munched(LParen, i + 1)
      case ')' => Munched(RParen, i + 1)
      case '[' => Munched(LBracket, i + 1)
      case ']' => Munched(RBracket, i + 1)
      case '{' => Munched(LBrace, i + 1)
      case '}' => Munched(RBrace, i + 1)
      case ',' => Munched(Comma, i + 1)
      case '.' => Munched(Dot, i + 1)
      case '-' => Munched(Minus, i + 1)
      case '+' => Munched(Plus, i + 1)
      case '/' => Munched(Slash, i + 1)
      case '*' => Munched(Star, i + 1)
      case '!' => WithEqual(s, i + 1, Bang, BangEqual)
      case '=' => WithEqual(s, i + 1, Equal, EqualEqual)
      case '<' => WithEqual(s, i + 1, Less, LessEqual)
      case '>' => WithEqual(s, i + 1, Greater, GreaterEqual)
      case '@' => Munched(Macro, WordEnd(s, i + 1))
      case '#' => Munched(Preprocessor, WordEnd(s, i + 1))
      case _ =>
        if c == '\'' || c == '"' then
          var j := QuoteAt(s, i + 1, c);
          if j == |s| then Munched(Error, j) else Munched(Text, j + 1)
        else Munched(Error, i + 1)
  }

  /** The line and the column of position `i`, counting from 1. */
  function LineOf(s: string, i: nat): (n: nat)
    requires i <= |s|
    ensures n >= 1
  {
    if i == 0 then 1 else LineOf(s, i - 1) + if s[i - 1] == '\n' then 1 else 0
  }

  function ColumnOf(s: string, i: nat): (n: nat)
    requires i <= |s|
    ensures n >= 1
  {
    if i == 0 || s[i - 1] == '\n' then 1 else ColumnOf(s, i - 1) + 1
  }

  /** `makeToken`: the column is counted back from the end of the lexeme. */
  function TokenOf(s: string, i: nat, m: Munched): Token
    requires i <= m.end <= |s|
  {
    if m.kind == Error then Token(Error, "", "", LineOf(s, m.end), ColumnOf(s, m.end) - 1)
    else Token(m.kind, s[i..m.end], s[i..], LineOf(s, m.end), ColumnOf(s, m.end) - (m.end - i))
  }

  /** One step of skipping. */
  lemma SkipStep(s: string, q: nat, i: nat)
    requires q <= i <= |s|
    ensures
      if i == |s| then Skip(s, q, i) == i
      else if s[i] == ' ' || s[i] == '\r' || s[i] == '\t' || s[i] == '\n' then Skip(s, q, i) == Skip(s, q, i + 1)
      else if s[i] == ';' then Skip(s, q, i) == Skip(s, q, LineEnd(s, i + 1))
      else if s[i] == '#' && Opens(s, q, i) then Skip(s, q, i) == Skip(s, q, BlockEnd(s, q, i + 1))
      else Skip(s, q, i) == Blanks(s, i) == i
  {
    hide Opens, BlockEnd, LineEnd;
  }

  /** The tokens from position `i` on, up to the end of the file; the last one started at `q`. */
  function Tokens(s: string, q: nat, i: nat): seq<Token>
    requires q <= i <= |s|
    decreases |s| - i
  {
    var j := Skip(s, q, i);
    if j == |s| then [TokenOf(s, j, Munched(Eof, j))]
    else
      var m := Munch(s, j);
      [TokenOf(s, j, m)] + Tokens(s, j, m.end)
  }

  /** A C string ends at its first NUL. */
  function CString(s: string): (r: string)
    ensures r <= s && '\0' !in r && (|r| < |s| ==> s[|r|] == '\0')
  {
    if s == [] || s[0] == '\0' then [] else [s[0]] + CString(s[1..])
  }

  /** Nothing from the first NUL on is read. */
  lemma {:induction false} UpToNul(a: string, b: string)
    requires '\0' !in a
    ensures CString(a + ['\0'] + b) == a
    decreases |a|
  {
    var s := a + ['\0'] + b;
    if a == [] { assert s[0] == '\0'; }
    else {
      assert s[1..] == a[1..] + ['\0'] + b;
      UpToNul(a[1..], b);
    }
  }

  /** The tokens of the text of a file. */
  function TokensOf(source: string): seq<Token> {
    Tokens(CString(source), 0, 0)
  }

  /** The scanner's state. */
  class Scanner {
    const src: string
    var start: nat
    var current: nat
    var line: nat
    var position: int

    predicate Valid()
      reads this
    {
      start <= current <= |src| && line == LineOf(src, current) && position == ColumnOf(src, current)
    }

    /** `lexer_init`. */
    constructor (source: string)
      ensures Valid() && src == CString(source) && start == current == 0
    {
      src, start, current, line, position := CString(source), 0, 0, 1, 1;
    }

    /** `advance`. */
    method Advance()
      requires Valid() && current < |src| && src[current] != '\n'
      modifies `current, `position
      ensures Valid() && current == old(current) + 1
    {
      current := current + 1;
      position := position + 1;
    }

    /** `newLine`, and then `advance` over the line feed. */
    method AdvanceLine()
      requires Valid() && current < |src| && src[current] == '\n'
      modifies `current, `line, `position
      ensures Valid() && current == old(current) + 1
    {
      line := line + 1;
      position := 0;
      current := current + 1;
      position := position + 1;
    }

    /** `match`. */
    method Match(expected: char) returns (found: bool)
      requires Valid() && expected != '\n'
      modifies `current, `position
      ensures Valid() && found == (old(current) < |src| && src[old(current)] == expected)
      ensures current == if found then old(current) + 1 else old(current)
    {
      found := current < |src| && src[current] == expected;
      if found { Advance(); }
    }

    /** `skipWhitespace`. */
    method SkipWhitespace()
      requires Valid()
      modifies `current, `line, `position
      ensures Valid() && current == Skip(src, start, old(current))
      ensures current < |src| ==> Blanks(src, current) == current
    {
      hide Skip, Blanks, BlockEnd, LineEnd, LineOf, ColumnOf, Opens;
      while true
        invariant Valid() && Skip(src, start, old(current)) == Skip(src, start, current)
        decreases |src| - current
      {
        SkipStep(src, start, current);
        if current == |src| { return; }
        match src[current] {
          case ' ' => Advance();
          case '\r' => Advance();
          case '\t' => Advance();
          case '\n' => AdvanceLine();
          case ';' =>
            Advance();
            SkipComment();
          case '#' =>
            if !Opens(src, start, current) { return; }
            Advance();
            SkipBlock();
          case _ => return;
        }
      }
    }

    /** The rest of a comment over several lines. */
    method SkipBlock()
      requires Valid()
      modifies `current, `line, `position
      ensures Valid() && current == BlockEnd(src, start, old(current))
    {
      hide Closes, LineOf, ColumnOf;
      while current < |src| && !(src[current] == '#' && Closes(src, start, current))
        invariant Valid() && BlockEnd(src, start, old(current)) == BlockEnd(src, start, current)
        decreases |src| - current
      {
        if src[current] == '\n' { AdvanceLine(); } else { Advance(); }
      }
    }

    /** The rest of a comment. */
    method SkipComment()
      requires Valid()
      modifies `current, `position
      ensures Valid() && current == LineEnd(src, old(current))
    {
      while current < |src| && src[current] != '\n'
        invariant Valid() && LineEnd(src, old(current)) == LineEnd(src, current)
        decreases |src| - current
      {
        Advance();
      }
    }

    /** The loop of `identifier`, `macro` and `preprocessor`. */
    method Word()
      requires Valid()
      modifies `current, `position
      ensures Valid() && current == WordEnd(src, old(current))
    {
      while current < |src| && InWord(src[current])
        invariant Valid() && WordEnd(src, old(current)) == WordEnd(src, current)
        decreases |src| - current
      {
        Advance();
      }
    }

    method Digits()
      requires Valid()
      modifies `current, `position
      ensures Valid() && current == DigitEnd(src, old(current))
    {
      while DigitAt(src, current)
        invariant Valid() && DigitEnd(src, old(current)) == DigitEnd(src, current)
        decreases |src| - current
      {
        Advance();
      }
    }

    /** `number`. */
    method NumberRest()
      requires Valid()
      modifies `current, `position
      ensures Valid() && current == NumberEnd(src, old(current))
    {
      Digits();
      if current < |src| && src[current] == '.' && DigitAt(src, current + 1) {
        Advance();
        Digits();
      }
    }

    /** `string`: line feeds inside are counted. */
    method StringRest(q: char) returns (closed: bool)
      requires Valid() && q != '\n'
      modifies `current, `line, `position
      ensures Valid() && closed == (QuoteAt(src, old(current), q) < |src|)
      ensures current == QuoteAt(src, old(current), q) + if closed then 1 else 0
    {
      while current < |src| && Syntax.Lower(src[current]) != q
        invariant Valid() && QuoteAt(src, old(current), q) == QuoteAt(src, current, q)
        decreases |src| - current
      {
        if src[current] == '\n' { AdvanceLine(); } else { Advance(); }
      }
      if current == |src| { return false; }
      Advance();
      closed := true;
    }

    /** `lexer_scan`: the next token; it consumes something unless the file is at its end. */
    method Scan() returns (token: Token)
      requires Valid()
      modifies this
      ensures Valid()
      ensures
        var i := Skip(src, old(start), old(current));
        var m := if i == |src| then Munched(Eof, i) else Munch(src, i);
        token == TokenOf(src, i, m) && start == i && current == m.end
    {
      SkipWhitespace();
      start := current;
      var kind := Eof;
      if current < |src| { kind := Lexeme(); }
      token := if kind == Error then Token(Error, "", "", line, position - 1)
               else Token(kind, src[start..current], src[start..], line, position - (current - start));
    }

    /** The token whose first character is the current one. */
    method Lexeme() returns (kind: Kind)
      requires Valid() && start == current < |src| && Blanks(src, current) == current
      modifies `current, `line, `position
      ensures Valid() && Munched(kind, current) == Munch(src, start)
    {
      hide IdentifierType, WordEnd, NumberEnd, QuoteAt, LineOf, ColumnOf;
      var c := Syntax.Lower(src[current]);
      Advance();
      if IsAlpha(c) {
        Word();
        return IdentifierType(src[start..current]);
      }
      if IsDigit(c) {
        NumberRest();
        return Number;
      }
      var equal := false;
      if c in "!=<>" { equal := Match('='); }
      match c {
        case '(' => kind := LParen;
        case ')' => kind := RParen;
        case '[' => kind := LBracket;
        case ']' => kind := RBracket;
        case '{' => kind := LBrace;
        case '}' => kind := RBrace;
        case ',' => kind := Comma;
        case '.' => kind := Dot;
        case '-' => kind := Minus;
        case '+' => kind := Plus;
        case '/' => kind := Slash;
        case '*' => kind := Star;
        case '!' => kind := if equal then BangEqual else Bang;
        case '=' => kind := if equal then EqualEqual else Equal;
        case '<' => kind := if equal then LessEqual else Less;
        case '>' => kind := if equal then GreaterEqual else Greater;
        case '@' => Word(); kind := Macro;
        case '#' => Word(); kind := Preprocessor;
        case _ =>
          kind := Error;
          if c == '\'' || c == '"' {
            var closed := StringRest(c);
            if closed { kind := Text; }
          }
      }
    }
  }

  lemma NextToken(s: string, q: nat, i: nat)
    requires q <= i <= |s|
    ensures
      var j := Skip(s, q, i);
      var m := if j == |s| then Munched(Eof, j) else Munch(s, j);
      var t := TokenOf(s, j, m);
      (t.kind == Eof <==> j == |s|) && (j < |s| ==> m.end > i)
      && Tokens(s, q, i) == if t.kind == Eof then [t] else [t] + Tokens(s, j, m.end)
  {
    hide Munch;
  }

  /** Scanning a whole file, as the compiler does one token at a time. */
  method ScanAll(source: string) returns (tokens: seq<Token>)
    ensures tokens == TokensOf(source)
  {
    var scanner := new Scanner(source);
    ghost var src := scanner.src;
    tokens := [];
    var more := true;
    while more
      invariant scanner.Valid() && scanner.src == src
      invariant Tokens(src, 0, 0) == if more then tokens + Tokens(src, scanner.start, scanner.current) else tokens
      decreases more, |src| - scanner.current
    {
      hide *;
      NextToken(src, scanner.start, scanner.current);
      ghost var before := tokens;
      var token := scanner.Scan();
      tokens := tokens + [token];
      more := token.kind != Eof;
      if more { Regroup(before, token, Tokens(src, scanner.start, scanner.current)); }
    }
  }

  lemma Regroup(a: seq<Token>, t: Token, b: seq<Token>)
    ensures a + ([t] + b) == a + [t] + b
  {
  }

  lemma WordSince(s: string, q: nat, i: nat, w: string, n: nat, k: nat)
    requires q <= i <= |s| && n == |w| && k < n
    requires CheckKeyword(s[q..i], 1, n, w, Preprocessor) != Identifier
    ensures i == q + 1 + n && Syntax.Lower(s[q + 1 + k]) == Syntax.Lower(w[k])
  {
    assert s[q..i][1 + k] == s[q + 1 + k];
  }

  /** `cs` right before the `#`, or else a longer word with a hyphen in it. */
  lemma OpensMeans(s: string, q: nat, i: nat)
    requires q <= i <= |s| && Opens(s, q, i)
    ensures i == q + 3 || (i == q + 15 && Syntax.Lower(s[q + 9]) == '-')
    ensures Syntax.Lower(s[q + 1]) == 'c' && Syntax.Lower(s[q + 2]) == if i == q + 3 then 's' else 'o'
  {
    hide CheckKeyword;
    if CheckKeyword(s[q..i], 1, 2, "cs", Preprocessor) != Identifier {
      WordSince(s, q, i, "cs", 2, 0);
      WordSince(s, q, i, "cs", 2, 1);
    } else {
      WordSince(s, q, i, "comments-start", 14, 0);
      WordSince(s, q, i, "comments-start", 14, 1);
      WordSince(s, q, i, "comments-start", 14, 8);
    }
  }

  lemma ClosesMeans(s: string, q: nat, i: nat)
    requires q <= i <= |s| && Closes(s, q, i)
    ensures i == q + 3 || (i == q + 13 && Syntax.Lower(s[q + 2]) == 'o')
  {
    hide CheckKeyword;
    if CheckKeyword(s[q..i], 1, 2, "ce", Preprocessor) != Identifier {
      WordSince(s, q, i, "ce", 2, 0);
    } else {
      WordSince(s, q, i, "comments-end", 12, 1);
    }
  }

  /** A comment that opens never closes. */
  lemma {:induction false} BlockNeverCloses(s: string, q: nat, j: nat, i: nat)
    requires q <= j < i <= |s| && Opens(s, q, j)
    ensures BlockEnd(s, q, i) == |s|
    decreases |s| - i
  {
    hide Opens, Closes;
    OpensMeans(s, q, j);
    if i < |s| {
      if Closes(s, q, i) { ClosesMeans(s, q, i); }
      BlockNeverCloses(s, q, j, i + 1);
    }
  }

  /** So everything after it is skipped, up to the end of the file. */
  lemma BlockSwallowsTheRest(s: string, q: nat, i: nat)
    requires q <= i <= |s| && Blanks(s, i) < |s| && s[Blanks(s, i)] == '#' && Opens(s, q, Blanks(s, i))
    ensures Skip(s, q, i) == |s|
  {
    hide Opens;
    BlockNeverCloses(s, q, Blanks(s, i), Blanks(s, i) + 1);
  }

  /** What a token's end says about the characters in it. */
  lemma OnlyQuotesHoldHyphens(s: string, q: nat, k: nat)
    requires q < |s| && q < k < Munch(s, q).end && Syntax.Lower(s[k]) == '-'
    ensures var c := Syntax.Lower(s[q]); (c == '\'' || c == '"') && (Munch(s, q).end == |s| || Munch(s, q).end == QuoteAt(s, q + 1, c) + 1)
  {
    hide IdentifierType, QuoteAt;
    var c := Syntax.Lower(s[q]);
    if IsAlpha(c) || c == '@' || c == '#' { InsideWord(s, q + 1, k); }
    else if IsDigit(c) { InsideNumber(s, q + 1, k); }
  }

  lemma {:induction false} InsideWord(s: string, i: nat, k: nat)
    requires i <= |s| && i <= k < WordEnd(s, i)
    ensures InWord(s[k])
    decreases k - i
  {
    if i < k { InsideWord(s, i + 1, k); }
  }

  lemma {:induction false} InsideDigits(s: string, i: nat, k: nat)
    requires i <= |s| && i <= k < DigitEnd(s, i)
    ensures IsDigit(Syntax.Lower(s[k]))
    decreases k - i
  {
    if i < k { InsideDigits(s, i + 1, k); }
  }

  lemma InsideNumber(s: string, i: nat, k: nat)
    requires i <= |s| && i <= k < NumberEnd(s, i)
    ensures IsDigit(Syntax.Lower(s[k])) || s[k] == '.'
  {
    var j := DigitEnd(s, i);
    if k < j { InsideDigits(s, i, k); }
    else if k > j { InsideDigits(s, j + 1, k); }
  }

  lemma {:induction false} QuoteThere(s: string, i: nat, q: char)
    requires i <= |s| && QuoteAt(s, i, q) < |s|
    ensures Syntax.Lower(s[QuoteAt(s, i, q)]) == q
    decreases |s| - i
  {
    if i < |s| && Syntax.Lower(s[i]) != q { QuoteThere(s, i + 1, q); }
  }

  /** Skipping starts at a blank or at a comment, if anywhere. */
  lemma BlankFirst(s: string, i: nat)
    requires i < |s|
    ensures Blanks(s, i) > i <==> s[i] == ' ' || s[i] == '\r' || s[i] == '\t' || s[i] == '\n' || s[i] == ';'
  {
  }

  lemma NoBlankIn(w: string, k: nat)
    requires w == "comments-start" && k < |w|
    ensures 'a' <= w[k] <= 'z' || w[k] == '-'
  {
  }

  lemma LongWordNeverOpens(s: string, q: nat)
    requires q < |s| && q + 15 < |s| && Munch(s, q).end <= q + 15
    requires Munch(s, q).end < q + 15 ==> Blanks(s, Munch(s, q).end) > Munch(s, q).end
    ensures CheckKeyword(s[q..q + 15], 1, 14, "comments-start", Preprocessor) == Identifier
  {
    hide Munch, CheckKeyword, Blanks, QuoteAt;
    var end := Munch(s, q).end;
    if CheckKeyword(s[q..q + 15], 1, 14, "comments-start", Preprocessor) != Identifier {
      if end < q + 15 {
        BlankFirst(s, end);
        WordSince(s, q, q + 15, "comments-start", 14, end - q - 1);
        NoBlankIn("comments-start", end - q - 1);
      } else {
        WordSince(s, q, q + 15, "comments-start", 14, 8);
        WordSince(s, q, q + 15, "comments-start", 14, 13);
        OnlyQuotesHoldHyphens(s, q, q + 9);
        QuoteThere(s, q + 1, Syntax.Lower(s[q]));
      }
    }
  }

  lemma ShortIsShort(s: string, q: nat)
    requires q + 15 <= |s| && Opens(s, q, q + 15)
    ensures CheckKeyword(s[q..q + 15], 1, 14, "comments-start", Preprocessor) != Identifier
  {
  }

  lemma ShortWordOpens(s: string, q: nat)
    requires q + 3 <= |s| && Syntax.Lower(s[q + 1]) == 'c' && Syntax.Lower(s[q + 2]) == 's'
    ensures Opens(s, q, q + 3)
  {
  }

  /**
   What the test for comments over several lines finds: after the token at `q`, one opens
   exactly if the token has three characters, the last two spell `cs`, and a `#` touches it.
   */
  lemma BlockOpensIff(s: string, q: nat)
    requires q < |s|
    ensures
      var end := Munch(s, q).end;
      var j := Blanks(s, end);
      (j < |s| && s[j] == '#' && Opens(s, q, j))
      <==> (end == q + 3 < |s| && s[end] == '#' && Syntax.Lower(s[q + 1]) == 'c' && Syntax.Lower(s[q + 2]) == 's')
  {
    hide Munch, Opens, Blanks;
    var end := Munch(s, q).end;
    var j := Blanks(s, end);
    if j < |s| && s[j] == '#' && Opens(s, q, j) {
      OpensMeans(s, q, j);
      if end < j { BlankFirst(s, end); }
      if j == q + 15 {
        LongWordNeverOpens(s, q);
        ShortIsShort(s, q);
      }
    }
    if end == q + 3 < |s| && s[end] == '#' && Syntax.Lower(s[q + 1]) == 'c' && Syntax.Lower(s[q + 2]) == 's' {
      BlankFirst(s, end);
      ShortWordOpens(s, q);
    }
  }
}
