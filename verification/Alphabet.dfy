/** The characters of words and numbers, written out. */
module Alphabet {
  import opened Syntax

  const SMALL: string := "abcdefghijklmnopqrstuvwxyz"
  const CAPITAL: string := "ABCDEFGHIJKLMNOPQRSTUVWXYZ"
  const DIGITS: string := "0123456789"

  /** What a name or a reserved word can start with. */
  predicate Letter(c: char) {
    c in SMALL || c in CAPITAL || c == '_' || c == '$'
  }

  predicate Digit(c: char) {
    c in DIGITS
  }

  /** The letter of the alphabet a character is, small or capital. */
  predicate IsLetter(c: char, n: nat) {
    n < 26 && (c == SMALL[n] || c == CAPITAL[n])
  }

  lemma InOrder(n: nat)
    ensures n < 26 ==> SMALL[n] as int == 97 + n && CAPITAL[n] as int == 65 + n
    ensures n < 10 ==> DIGITS[n] as int == 48 + n
    ensures |SMALL| == |CAPITAL| == 26 && |DIGITS| == 10
  {
    assert 'a' as int == 97 && 'A' as int == 65 && '0' as int == 48;
  }

  lemma LetterIs(c: char, n: nat)
    ensures IsLetter(c, n) <==> n < 26 && (c as int == 97 + n || c as int == 65 + n)
  {
    InOrder(n);
  }

  /** The lists are the ranges of their characters. */
  lemma Ranges(c: char)
    ensures c in SMALL <==> 97 <= c as int < 123
    ensures c in CAPITAL <==> 65 <= c as int < 91
    ensures c in DIGITS <==> 48 <= c as int < 58
  {
    var s, t, d := SMALL, CAPITAL, DIGITS;
    if c in s { var n :| 0 <= n < |s| && s[n] == c; InOrder(n); }
    if c in t { var n :| 0 <= n < |t| && t[n] == c; InOrder(n); }
    if c in d { var n :| 0 <= n < |d| && d[n] == c; InOrder(n); }
    var n := c as int;
    if 97 <= n < 123 { InOrder(n - 97); }
    if 65 <= n < 91 { InOrder(n - 65); }
    if 48 <= n < 58 { InOrder(n - 48); }
  }

  /** The same character, or the same letter. */
  ghost predicate SameLetter(c: char, d: char) {
    c == d || exists n :: IsLetter(c, n) && IsLetter(d, n)
  }

  ghost predicate SameName(a: string, b: string) {
    |a| == |b| && forall i :: 0 <= i < |a| ==> SameLetter(a[i], b[i])
  }

  lemma SameLetterLower(c: char, d: char)
    ensures SameLetter(c, d) <==> Lower(c) == Lower(d)
  {
    hide IsLetter;
    forall n: nat ensures IsLetter(c, n) <==> n < 26 && (c as int == 97 + n || c as int == 65 + n) { LetterIs(c, n); }
    forall n: nat ensures IsLetter(d, n) <==> n < 26 && (d as int == 97 + n || d as int == 65 + n) { LetterIs(d, n); }
    if Lower(c) == Lower(d) && c != d {
      var n := Lower(c) as int - 97;
      assert 0 <= n;
      assert IsLetter(c, n) && IsLetter(d, n);
    }
  }
}
