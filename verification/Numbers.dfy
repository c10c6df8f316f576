/**
 Where a number ends. The scanner ends it after its digits and at most one fraction; `strtod`,
 which the compiler calls on the source from there on, also reads an exponent or hexadecimal
 digits. The two agree exactly when neither follows.
 */
module Numbers {
  import opened Values
  import opened Lexer
  import opened Reading
  import Syntax

  predicate HexDigitAt(s: string, i: nat) {
    i < |s| && (IsDigit(s[i]) || 'a' <= Syntax.Lower(s[i]) <= 'f')
  }

  function HexEnd(s: string, i: nat): (j: nat)
    requires i <= |s|
    ensures i <= j <= |s|
    decreases |s| - i
  {
    if HexDigitAt(s, i) then HexEnd(s, i + 1) else i
  }

  predicate PointAt(s: string, i: nat) {
    i < |s| && s[i] == '.'
  }

  /** An exponent part: the letter, perhaps a sign, and digits. */
  predicate ExponentAt(s: string, i: nat, letter: char) {
    i < |s| && Syntax.Lower(s[i]) == letter
    && (DigitAt(s, i + 1) || (i + 1 < |s| && (s[i + 1] == '+' || s[i + 1] == '-') && DigitAt(s, i + 2)))
  }

  function ExponentEnd(s: string, i: nat, letter: char): (j: nat)
    requires i <= |s|
    ensures i <= j <= |s| && (j > i <==> ExponentAt(s, i, letter))
  {
    if !ExponentAt(s, i, letter) then i else DigitEnd(s, if DigitAt(s, i + 1) then i + 2 else i + 3)
  }

  /** `0x` and a hexadecimal digit, perhaps after a point. */
  predicate HexAt(s: string) {
    |s| > 2 && s[0] == '0' && Syntax.Lower(s[1]) == 'x' && (HexDigitAt(s, 2) || (s[2] == '.' && HexDigitAt(s, 3)))
  }

  /** How much of a string that starts with a digit `strtod` reads: section 7.22.1.3 of ISO/IEC 9899:2011. */
  function Subject(s: string): (n: nat)
    requires DigitAt(s, 0)
    ensures 0 < n <= |s|
  {
    if HexAt(s) then
      var whole := HexEnd(s, 2);
      ExponentEnd(s, if PointAt(s, whole) then HexEnd(s, whole + 1) else whole, 'p')
    else
      var whole := DigitEnd(s, 0);
      ExponentEnd(s, if PointAt(s, whole) then DigitEnd(s, whole + 1) else whole, 'e')
  }

  /** The part of it that tells the value: a point at the end adds nothing. */
  function Significant(s: string): string
    requires DigitAt(s, 0)
  {
    var n := Subject(s);
    if s[n - 1] == '.' then s[..n - 1] else s[..n]
  }

  /** The host's `strtod` goes by what it reads. */
  ghost predicate Reads(h: Host) {
    forall s: string :: DigitAt(s, 0) ==> h.number(s) == h.number(Significant(s))
  }

  /** After the `n` characters of a token an exponent follows, or hexadecimal digits. */
  predicate GoesOn(s: string, n: nat) {
    ExponentAt(s, n, 'e') || (PointAt(s, n) && '.' !in s[..n] && ExponentAt(s, n + 1, 'e')) || (n == 1 && HexAt(s))
  }

  /** What the scanner takes of a string that starts with a digit. */
  function Taken(s: string): (n: nat)
    requires DigitAt(s, 0)
    ensures 0 < n <= |s|
  {
    NumberEnd(s, 1)
  }

  lemma {:induction false} LastDigit(s: string, i: nat)
    requires i <= |s|
    ensures !DigitAt(s, DigitEnd(s, i)) && (i < DigitEnd(s, i) ==> DigitAt(s, DigitEnd(s, i) - 1))
    ensures forall k :: i <= k < DigitEnd(s, i) ==> IsDigit(Syntax.Lower(s[k]))
    decreases |s| - i
  {
    if DigitAt(s, i) { LastDigit(s, i + 1); }
  }

  /** `strtod` reads the token and nothing of what follows if and only if no exponent and no hexadecimal digits follow. */
  lemma TokenIffEnds(s: string)
    requires DigitAt(s, 0)
    ensures Significant(s) == s[..Taken(s)] <==> !GoesOn(s, Taken(s))
  {
    hide DigitEnd, HexEnd;
    LastDigit(s, 1);
    assert DigitEnd(s, 0) == DigitEnd(s, 1) by { FirstDigit(s); }
    if HexAt(s) { HexIsLonger(s); } else { DecimalIffEnds(s); }
  }

  lemma FirstDigit(s: string)
    requires DigitAt(s, 0)
    ensures DigitEnd(s, 0) == DigitEnd(s, 1)
  {
  }

  lemma HexIsLonger(s: string)
    requires DigitAt(s, 0) && HexAt(s)
    ensures Taken(s) == 1 && |Significant(s)| > 1
  {
    hide ExponentAt;
    assert DigitEnd(s, 1) == 1;
    assert HexEnd(s, 2) == if HexDigitAt(s, 2) then HexEnd(s, 3) else 2;
    if !HexDigitAt(s, 2) { assert HexEnd(s, 3) >= 4; }
  }

  lemma ExponentDigit(s: string, f: nat)
    requires f < |s| && ExponentAt(s, f, 'e')
    ensures ExponentEnd(s, f, 'e') > f + 1 && DigitAt(s, ExponentEnd(s, f, 'e') - 1)
  {
    LastDigit(s, if DigitAt(s, f + 1) then f + 2 else f + 3);
  }

  /** Up to `f` there are digits, and perhaps a point. */
  lemma EndsAt(s: string, f: nat)
    requires DigitAt(s, 0) && !HexAt(s) && 0 < f <= |s| && Subject(s) == ExponentEnd(s, f, 'e')
    ensures
      if f < |s| && ExponentAt(s, f, 'e') then |Significant(s)| > f
      else Significant(s) == if s[f - 1] == '.' then s[..f - 1] else s[..f]
  {
    hide ExponentAt, Subject;
    if f < |s| && ExponentAt(s, f, 'e') { ExponentDigit(s, f); }
  }

  lemma DecimalIffEnds(s: string)
    requires DigitAt(s, 0) && !HexAt(s)
    ensures Significant(s) == s[..Taken(s)] <==> !GoesOn(s, Taken(s))
  {
    hide DigitEnd, HexAt, ExponentEnd, Significant;
    FirstDigit(s);
    LastDigit(s, 0);
    var whole := DigitEnd(s, 0);
    if PointAt(s, whole) {
      LastDigit(s, whole + 1);
      if DigitAt(s, whole + 1) { SomeDigits(s, whole + 1); } else { NoDigits(s, whole + 1); }
      EndsAt(s, DigitEnd(s, whole + 1));
    } else {
      EndsAt(s, whole);
    }
  }

  lemma SomeDigits(s: string, i: nat)
    requires DigitAt(s, i)
    ensures DigitEnd(s, i) > i
  {
  }

  lemma NoDigits(s: string, i: nat)
    requires i <= |s| && !DigitAt(s, i)
    ensures DigitEnd(s, i) == i
  {
  }

  lemma {:induction false} DigitsFrom(s: string, i: nat, k: nat)
    requires i <= |s| && k <= |s| - i
    ensures DigitEnd(s, i + k) == i + DigitEnd(s[i..], k)
    decreases |s| - i - k
  {
    if i + k < |s| {
      assert s[i..][k] == s[i + k];
      if DigitAt(s, i + k) { DigitsFrom(s, i, k + 1); }
    }
  }

  lemma NumberFrom(s: string, i: nat)
    requires i < |s|
    ensures NumberEnd(s, i + 1) == i + NumberEnd(s[i..], 1)
  {
    hide DigitEnd;
    DigitsFrom(s, i, 1);
    var j := DigitEnd(s[i..], 1);
    if i + j < |s| {
      assert s[i..][j] == s[i + j];
      if i + j + 1 < |s| {
        assert s[i..][j + 1] == s[i + j + 1];
        DigitsFrom(s, i, j + 1);
      }
    }
  }

  /** A number token is what the scanner takes of the rest of the source, which starts with a digit. */
  predicate WellCut(t: Token) {
    t.kind.Number? ==> DigitAt(t.rest, 0) && t.text == t.rest[..Taken(t.rest)]
  }

  lemma NumberCut(s: string, i: nat)
    requires i < |s|
    ensures WellCut(TokenOf(s, i, Munch(s, i)))
  {
    hide IdentifierType, WordEnd, QuoteAt, NumberEnd, LineOf, ColumnOf;
    var m := Munch(s, i);
    if m.kind.Number? {
      if IsAlpha(Syntax.Lower(s[i])) { NeverNumber(s[i..WordEnd(s, i + 1)]); }
      NumberFrom(s, i);
      assert s[i..][0] == s[i] && s[i..m.end] == s[i..][..m.end - i];
    }
  }

  lemma NeverNumber(t: string)
    requires |t| > 0
    ensures !IdentifierType(t).Number?
  {
    hide IdentifierType;
    OnlyWords(t);
    hide Spelling;
    assert Spelling(Number) == "" by { NoSpelling(); }
  }

  lemma NoSpelling()
    ensures Spelling(Number) == ""
  {
  }

  lemma {:induction false} NumbersCut(s: string, q: nat, i: nat)
    requires q <= i <= |s|
    ensures forall n :: 0 <= n < |Tokens(s, q, i)| ==> WellCut(Tokens(s, q, i)[n])
    decreases |s| - i
  {
    hide Munch, Skip, TokenOf, WellCut, Tokens;
    NextToken(s, q, i);
    var j := Skip(s, q, i);
    if j < |s| {
      NumberCut(s, j);
      NumbersCut(s, j, Munch(s, j).end);
    } else {
      EofCut(s, j);
    }
  }

  lemma EofCut(s: string, j: nat)
    requires j <= |s|
    ensures WellCut(TokenOf(s, j, Munched(Eof, j)))
  {
  }

  /** No number of the text is followed by an exponent or hexadecimal digits. */
  predicate NumbersEnd(ts: seq<Token>) {
    forall n :: 0 <= n < |ts| && ts[n].kind.Number? ==> !GoesOn(ts[n].rest, |ts[n].text|)
  }

  /** The tokens as if each one's pointer read its own characters only. */
  function Cut(ts: seq<Token>): (r: seq<Token>)
    ensures |r| == |ts| && forall n :: 0 <= n < |ts| ==> r[n] == ts[n].(rest := ts[n].text)
  {
    seq(|ts|, n requires 0 <= n < |ts| => ts[n].(rest := ts[n].text))
  }

  /** If no number goes on, the parser gets the tokens it would get with every number read by itself. */
  lemma NumbersAsWritten(h: Host, source: string)
    requires Reads(h) && NumbersEnd(TokensOf(source))
    ensures ParserTokens(h, TokensOf(source)) == ParserTokens(h, Cut(TokensOf(source)))
  {
    NumbersCut(CString(source), 0, 0);
    SameNumbers(h, TokensOf(source));
  }

  lemma {:induction false} SameNumbers(h: Host, ts: seq<Token>)
    requires Reads(h) && NumbersEnd(ts) && forall n :: 0 <= n < |ts| ==> WellCut(ts[n])
    ensures ParserTokens(h, ts) == ParserTokens(h, Cut(ts))
    decreases |ts|
  {
    hide KindOf, Reads, GoesOn, WellCut;
    if ts != [] {
      SameNumber(h, ts[0]);
      assert Cut(ts)[1..] == Cut(ts[1..]);
      SameNumbers(h, ts[1..]);
    }
  }

  lemma SameNumber(h: Host, t: Token)
    requires Reads(h) && WellCut(t) && (t.kind.Number? ==> !GoesOn(t.rest, |t.text|))
    ensures KindOf(h, t) == KindOf(h, t.(rest := t.text))
  {
    hide Significant, GoesOn, Taken, Reads, PlainKind;
    if t.kind.Number? {
      TokenIffEnds(t.rest);
      SameValue(h, t.rest);
    }
  }

  lemma SameValue(h: Host, s: string)
    requires Reads(h) && DigitAt(s, 0) && Significant(s) == s[..Taken(s)]
    ensures h.number(s) == h.number(s[..Taken(s)])
  {
  }
}
