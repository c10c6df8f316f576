/** Scanning inverts rendering: tokens written out with blanks and comments between them are read back. */
module Rendering {
  import Syntax
  import Alphabet
  import opened Lexer

  /** A token as it is written: what separates it from the one before, and its characters. */
  datatype Piece = Piece(gap: string, text: string)

  predicate IsBlank(c: char) {
    c == ' ' || c == '\r' || c == '\t' || c == '\n'
  }

  /** Blanks, and comments that end with their line. */
  predicate Gap(g: string)
    decreases |g|
  {
    g == [] || (IsBlank(g[0]) && Gap(g[1..])) || (g[0] == ';' && LineEnd(g, 1) < |g| && Gap(g[LineEnd(g, 1)..]))
  }

  /** Exactly one token. */
  predicate Lexeme(t: string) {
    t != [] && !IsBlank(t[0]) && t[0] != ';' && !Munch(t, 0).kind.Error? && Munch(t, 0).end == |t|
  }

  /** The characters from `i` on are those of `t`, and then there is a separator or the end. */
  predicate Stands(s: string, i: nat, t: string) {
    i + |t| <= |s| && s[i..i + |t|] == t && Separated(s, i + |t|)
  }

  predicate Separated(s: string, i: nat)
    requires i <= |s|
  {
    i == |s| || IsBlank(s[i]) || s[i] == ';'
  }

  lemma CharAt(s: string, i: nat, t: string, k: nat)
    requires Stands(s, i, t) && k < |t|
    ensures s[i + k] == t[k]
  {
    assert s[i..i + |t|][k] == s[i + k];
  }

  lemma NoWord(c: char)
    requires IsBlank(c) || c == ';'
    ensures !InWord(c) && !IsDigit(Syntax.Lower(c)) && c != '.' && c != '='
  {
  }

  lemma {:induction false} WordShift(s: string, i: nat, t: string, k: nat)
    requires Stands(s, i, t) && k <= |t| && WordEnd(t, k) == |t|
    ensures WordEnd(s, i + k) == i + |t|
    decreases |t| - k
  {
    if k < |t| {
      CharAt(s, i, t, k);
      WordShift(s, i, t, k + 1);
    } else if i + k < |s| {
      NoWord(s[i + k]);
    }
  }

  lemma {:induction false} DigitShift(s: string, i: nat, t: string, k: nat)
    requires Stands(s, i, t) && k <= |t|
    ensures DigitEnd(s, i + k) == i + DigitEnd(t, k)
    decreases |t| - k
  {
    if k < |t| {
      CharAt(s, i, t, k);
      if DigitAt(t, k) { DigitShift(s, i, t, k + 1); }
    } else if i + k < |s| {
      NoWord(s[i + k]);
    }
  }

  lemma NumberShift(s: string, i: nat, t: string, k: nat)
    requires Stands(s, i, t) && k <= |t|
    ensures NumberEnd(s, i + k) == i + NumberEnd(t, k)
  {
    DigitShift(s, i, t, k);
    var j := DigitEnd(t, k);
    if j < |t| {
      CharAt(s, i, t, j);
      if j + 1 < |t| { CharAt(s, i, t, j + 1); }
      else if i + j + 1 < |s| { NoWord(s[i + j + 1]); }
      DigitShift(s, i, t, j + 1);
    } else if i + j < |s| {
      NoWord(s[i + j]);
    }
  }

  lemma {:induction false} QuoteShift(s: string, i: nat, t: string, k: nat, q: char)
    requires Stands(s, i, t) && k <= |t| && QuoteAt(t, k, q) < |t|
    ensures QuoteAt(s, i + k, q) == i + QuoteAt(t, k, q)
    decreases |t| - k
  {
    if k < |t| {
      CharAt(s, i, t, k);
      if Syntax.Lower(t[k]) != q { QuoteShift(s, i, t, k + 1, q); }
    }
  }

  /** A token is read the same wherever it stands. */
  lemma MunchShift(s: string, i: nat, t: string)
    requires Lexeme(t) && Stands(s, i, t)
    ensures i < |s| && Munch(s, i) == Munched(Munch(t, 0).kind, i + |t|)
  {
    hide IdentifierType, Spelling, Gap, WordEnd, DigitEnd, QuoteAt, Broken;
    CharAt(s, i, t, 0);
    var c := Syntax.Lower(t[0]);
    if IsAlpha(c) {
      WordShift(s, i, t, 1);
      assert t[0..|t|] == t;
    } else if IsDigit(c) {
      NumberShift(s, i, t, 1);
    } else if c == '\'' || c == '"' {
      QuoteShift(s, i, t, 1, c);
    } else if c == '@' || c == '#' {
      WordShift(s, i, t, 1);
    } else {
      SymbolShift(s, i, t);
    }
  }

  lemma SymbolShift(s: string, i: nat, t: string)
    requires Lexeme(t) && Stands(s, i, t)
    requires var c := Syntax.Lower(t[0]); !IsAlpha(c) && !IsDigit(c) && c != '\'' && c != '"' && c != '@' && c != '#'
    ensures i < |s| && Munch(s, i) == Munched(Munch(t, 0).kind, i + |t|)
  {
    hide IdentifierType, Spelling, Gap, WordEnd, DigitEnd, QuoteAt, Broken;
    CharAt(s, i, t, 0);
    if i + 1 < |s| {
      if |t| > 1 { CharAt(s, i, t, 1); } else { NoWord(s[i + 1]); }
    }
  }

  lemma {:induction false} LineShift(s: string, i: nat, g: string, k: nat)
    requires i + |g| <= |s| && s[i..i + |g|] == g && k <= |g| && LineEnd(g, k) < |g|
    ensures LineEnd(s, i + k) == i + LineEnd(g, k)
    decreases |g| - k
  {
    if k < |g| {
      assert s[i..i + |g|][k] == s[i + k];
      if g[k] != '\n' { LineShift(s, i, g, k + 1); }
    }
  }

  lemma Tail(s: string, i: nat, g: string, n: nat)
    requires i + |g| <= |s| && s[i..i + |g|] == g && n <= |g|
    ensures i + n + |g[n..]| == i + |g| && s[i + n..i + n + |g[n..]|] == g[n..]
  {
  }

  /** What separates two tokens is skipped, whatever follows. */
  lemma {:induction false} SkipGap(s: string, i: nat, g: string)
    requires Gap(g) && i + |g| <= |s| && s[i..i + |g|] == g
    ensures Blanks(s, i) == Blanks(s, i + |g|)
    decreases |g|
  {
    hide LineEnd;
    if g != [] {
      assert s[i..i + |g|][0] == s[i];
      if IsBlank(g[0]) {
        Tail(s, i, g, 1);
        SkipGap(s, i + 1, g[1..]);
      } else {
        LineShift(s, i, g, 1);
        Tail(s, i, g, LineEnd(g, 1));
        SkipGap(s, i + LineEnd(g, 1), g[LineEnd(g, 1)..]);
      }
    }
  }

  function Render(ps: seq<Piece>, last: string): string {
    if ps == [] then last else ps[0].gap + ps[0].text + Render(ps[1..], last)
  }

  /** Every token but the first is separated from the one before it. */
  predicate Spaced(ps: seq<Piece>, last: string)
    decreases |ps|
  {
    if ps == [] then Blanks(last, 0) == |last|
    else
      Gap(ps[0].gap) && Lexeme(ps[0].text) && Spaced(ps[1..], last)
      && (ps[1..] != [] ==> ps[1].gap != [])
  }

  /** The tokens written, with the position each one has in the text `s` from `i` on. */
  function Written(s: string, i: nat, ps: seq<Piece>, last: string): (ts: seq<Token>)
    requires i <= |s| && s[i..] == Render(ps, last) && Spaced(ps, last)
    decreases |ps|
  {
    if ps == [] then [TokenOf(s, |s|, Munched(Eof, |s|))]
    else
      var j := i + |ps[0].gap|;
      var end := j + |ps[0].text|;
      Parts(s, i, ps, last);
      [TokenOf(s, j, Munched(Munch(ps[0].text, 0).kind, end))] + Written(s, end, ps[1..], last)
  }

  lemma Parts(s: string, i: nat, ps: seq<Piece>, last: string)
    requires i <= |s| && ps != [] && s[i..] == Render(ps, last)
    ensures
      var j := i + |ps[0].gap|;
      var end := j + |ps[0].text|;
      end <= |s| && s[i..j] == ps[0].gap && s[j..end] == ps[0].text && s[end..] == Render(ps[1..], last)
  {
    var g, t, r := ps[0].gap, ps[0].text, Render(ps[1..], last);
    var all := g + t + r;
    assert all[..|g|] == g && all[|g|..|g| + |t|] == t && all[|g| + |t|..] == r;
    assert s[i..][..|g|] == s[i..i + |g|] && s[i..][|g|..|g| + |t|] == s[i + |g|..i + |g| + |t|] && s[i..][|g| + |t|..] == s[i + |g| + |t|..];
  }

  /** After a token comes a separator or the end. */
  lemma NextSeparated(s: string, i: nat, ps: seq<Piece>, last: string)
    requires i <= |s| && s[i..] == Render(ps, last) && Spaced(ps, last) && (ps != [] ==> ps[0].gap != [])
    ensures Separated(s, i)
  {
    if i < |s| {
      assert s[i] == s[i..][0];
      if ps != [] { assert Render(ps, last)[0] == ps[0].gap[0]; }
    }
  }

  /** The scanner reads back exactly the tokens written, each at its place. */
  lemma {:induction false} ScanWritten(s: string, q: nat, i: nat, ps: seq<Piece>, last: string)
    requires q <= i <= |s| && s[i..] == Render(ps, last) && Spaced(ps, last) && (q == i || Separated(s, i))
    ensures Tokens(s, q, i) == Written(s, i, ps, last)
    decreases |ps|
  {
    hide Munch, TokenOf, Gap, Tokens, Skip, Blanks, Render, Separated, Written, Lexeme;
    if ps == [] {
      LastOnly(s, q, i, last);
      WrittenNone(s, i, last);
    } else {
      Parts(s, i, ps, last);
      WrittenCons(s, i, ps, last);
      var j := i + |ps[0].gap|;
      var end := j + |ps[0].text|;
      NextSeparated(s, end, ps[1..], last);
      SkipGap(s, i, ps[0].gap);
      MunchShift(s, j, ps[0].text);
      StopsAt(s, j, ps[0].text);
      NoBlock(s, q, i);
      TokensAt(s, q, i, j);
      ScanWritten(s, j, end, ps[1..], last);
    }
  }

  lemma LastOnly(s: string, q: nat, i: nat, last: string)
    requires q <= i <= |s| && s[i..] == Render([], last) && Spaced([], last)
    ensures Tokens(s, q, i) == [TokenOf(s, |s|, Munched(Eof, |s|))]
  {
    SkipLast(s, i, 0);
  }

  lemma TokensAt(s: string, q: nat, i: nat, j: nat)
    requires q <= i <= |s| && Skip(s, q, i) == j < |s|
    ensures Tokens(s, q, i) == [TokenOf(s, j, Munch(s, j))] + Tokens(s, j, Munch(s, j).end)
  {
    hide Munch, TokenOf, Skip;
  }

  /** At the start, and where a token is followed by a separator, no comment over several lines opens. */
  lemma NoBlock(s: string, q: nat, i: nat)
    requires q <= i <= |s| && (q == i || Separated(s, i))
    ensures Skip(s, q, i) == Blanks(s, i)
  {
    hide Opens, Blanks, BlockEnd;
    var j := Blanks(s, i);
    if j < |s| && s[j] == '#' && Opens(s, q, j) {
      BlankFirst(s, i);
      if i == q { NothingBefore(s, q); } else { SeparatedBefore(s, q, i); }
      assert false;
    }
  }

  /** Between the last token's start and a `#` that opens a comment there is only a word. */
  lemma SeparatedBefore(s: string, q: nat, i: nat)
    requires q < i < |s| && Separated(s, i)
    ensures Blanks(s, i) < |s| && s[Blanks(s, i)] == '#' ==> !Opens(s, q, Blanks(s, i))
  {
    hide Blanks, CheckKeyword;
    var j := Blanks(s, i);
    if j < |s| && s[j] == '#' && Opens(s, q, j) {
      if i < j { WordBefore(s, q, j, i); }
    }
  }

  lemma WordBefore(s: string, q: nat, j: nat, i: nat)
    requires q < i < j <= |s| && Opens(s, q, j)
    ensures !Separated(s, i)
  {
    hide CheckKeyword;
    if CheckKeyword(s[q..j], 1, 2, "cs", Preprocessor) != Identifier {
      WordSince(s, q, j, "cs", 2, 0);
      WordSince(s, q, j, "cs", 2, i - q - 1);
      assert "cs"[0] == 'c' && "cs"[1] == 's';
    } else {
      WordSince(s, q, j, "comments-start", 14, 0);
      WordSince(s, q, j, "comments-start", 14, i - q - 1);
      NoBlankIn("comments-start", i - q - 1);
    }
  }

  lemma {:induction false} LineEndAfter(s: string, i: nat, j: nat)
    requires i <= j < |s| && forall k :: i <= k <= j ==> s[k] != '\n'
    ensures LineEnd(s, i) > j
    decreases j - i
  {
    if i < j { LineEndAfter(s, i + 1, j); }
  }

  /** Nor does one open before the first token. */
  lemma NothingBefore(s: string, q: nat)
    requires q < |s|
    ensures Blanks(s, q) < |s| && s[Blanks(s, q)] == '#' ==> !Opens(s, q, Blanks(s, q))
  {
    hide Opens;
    var j := Blanks(s, q);
    if j < |s| && s[j] == '#' && Opens(s, q, j) {
      OpensMeans(s, q, j);
      WordBefore(s, q, j, q + 1);
      if s[q] == ';' {
        forall k | q < k <= j ensures s[k] != '\n' { if k < j { WordBefore(s, q, j, k); } }
        LineEndAfter(s, q + 1, j);
      }
    }
  }

  lemma StopsAt(s: string, j: nat, t: string)
    requires Lexeme(t) && Stands(s, j, t)
    ensures Blanks(s, j) == j < |s|
  {
    CharAt(s, j, t, 0);
  }

  /** The end of a file is skipped as it would be on its own. */
  lemma {:induction false} SkipLast(s: string, i: nat, k: nat)
    requires i <= |s| && k <= |s| - i
    ensures Blanks(s, i + k) == i + Blanks(s[i..], k)
    decreases |s| - i - k
  {
    if i + k < |s| {
      assert s[i..][k] == s[i + k];
      if IsBlank(s[i + k]) { SkipLast(s, i, k + 1); }
      else if s[i + k] == ';' {
        LineEndFrom(s, i, k + 1);
        SkipLast(s, i, LineEnd(s[i..], k + 1));
      }
    }
  }

  lemma {:induction false} LineEndFrom(s: string, i: nat, k: nat)
    requires i <= |s| && k <= |s| - i
    ensures LineEnd(s, i + k) == i + LineEnd(s[i..], k)
    decreases |s| - i - k
  {
    if i + k < |s| {
      assert s[i..][k] == s[i + k];
      if s[i + k] != '\n' { LineEndFrom(s, i, k + 1); }
    }
  }

  /** A token without a line feed carries the line and the column of its first character. */
  lemma {:induction false} PositionOf(s: string, i: nat, m: Munched)
    requires i <= m.end <= |s| && !m.kind.Error? && forall j :: i <= j < m.end ==> s[j] != '\n'
    ensures TokenOf(s, i, m).line == LineOf(s, i) && TokenOf(s, i, m).column == ColumnOf(s, i)
    decreases m.end
  {
    hide LineOf, ColumnOf;
    if i < m.end {
      PositionOf(s, i, m.(end := m.end - 1));
      OneOn(s, m.end - 1);
    }
  }

  lemma OneOn(s: string, i: nat)
    requires i < |s| && s[i] != '\n'
    ensures LineOf(s, i + 1) == LineOf(s, i) && ColumnOf(s, i + 1) == ColumnOf(s, i) + 1
  {
  }

  /** The column counts the characters since the last line feed. */
  lemma {:induction false} ColumnCounts(s: string, start: nat, i: nat)
    requires start <= i <= |s| && (start == 0 || s[start - 1] == '\n') && forall k :: start <= k < i ==> s[k] != '\n'
    ensures ColumnOf(s, i) == i - start + 1
    decreases i
  {
    if start < i { ColumnCounts(s, start, i - 1); }
  }

  /** A semicolon, anything else on its line, and the line feed separate two tokens. */
  lemma CommentIsGap(body: string)
    requires '\n' !in body
    ensures Gap([';'] + body + ['\n'])
  {
    var g := [';'] + body + ['\n'];
    forall k | 1 <= k <= |body| ensures g[k] != '\n' { assert g[k] == body[k - 1]; }
    FirstFeed(g, 1, |body| + 1);
    assert g[|body| + 1..] == ['\n'] && ['\n'][1..] == [];
    assert Gap(['\n']);
  }

  lemma {:induction false} FirstFeed(g: string, i: nat, j: nat)
    requires i <= j < |g| && g[j] == '\n' && forall k :: i <= k < j ==> g[k] != '\n'
    ensures LineEnd(g, i) == j
    decreases j - i
  {
    if i < j { FirstFeed(g, i + 1, j); }
  }

  /** A token described without the scanner. */
  datatype Lex =
    | Word(w: string)
    | Digits(whole: string)
    | Decimal(whole: string, fraction: string)
    | Quoted(q: char, body: string)
    | Operator(k: Kind)
    | Special(c: char, w: string)

  /** The spelling of an operator, or nothing for other kinds. */
  function OperatorText(k: Kind): string {
    match k
    case LParen => "(" case RParen => ")" case LBracket => "[" case RBracket => "]" case LBrace => "{" case RBrace => "}"
    case Comma => "," case Dot => "." case Minus => "-" case Plus => "+" case Slash => "/" case Star => "*"
    case Bang => "!" case BangEqual => "!=" case Equal => "=" case EqualEqual => "=="
    case Less => "<" case LessEqual => "<=" case Greater => ">" case GreaterEqual => ">="
    case _ => ""
  }

  function TextOf(l: Lex): string {
    match l
    case Word(w) => w
    case Digits(whole) => whole
    case Decimal(whole, fraction) => whole + (['.'] + fraction)
    case Quoted(q, body) => [q] + (body + [q])
    case Operator(k) => OperatorText(k)
    case Special(c, w) => [c] + w
  }

  predicate AllInWord(w: string) {
    forall i :: 0 <= i < |w| ==> Alphabet.Letter(w[i]) || Alphabet.Digit(w[i])
  }

  predicate AllDigits(w: string) {
    w != [] && forall i :: 0 <= i < |w| ==> Alphabet.Digit(w[i])
  }

  /** The scanner's tests are these lists. */
  lemma ScannersLetters(c: char)
    ensures Alphabet.Letter(c) <==> IsAlpha(Syntax.Lower(c))
    ensures Alphabet.Digit(c) <==> IsDigit(Syntax.Lower(c))
    ensures Alphabet.Letter(c) || Alphabet.Digit(c) <==> InWord(c)
  {
    Alphabet.Ranges(c);
    assert '_' as int == 95 && '$' as int == 36 && 'a' as int == 97 && 'z' as int == 122 && 'A' as int == 65 && 'Z' as int == 90;
    assert '0' as int == 48 && '9' as int == 57;
  }

  lemma ScannersWord(w: string)
    requires AllInWord(w)
    ensures forall i :: 0 <= i < |w| ==> InWord(w[i])
  {
    hide InWord, Alphabet.Letter, Alphabet.Digit;
    forall i | 0 <= i < |w| ensures InWord(w[i]) { ScannersLetters(w[i]); }
  }

  lemma ScannersDigits(w: string)
    requires AllDigits(w)
    ensures w != [] && forall i :: 0 <= i < |w| ==> IsDigit(Syntax.Lower(w[i]))
  {
    hide IsDigit, Alphabet.Digit, Syntax.Lower;
    forall i | 0 <= i < |w| ensures IsDigit(Syntax.Lower(w[i])) { ScannersLetters(w[i]); }
  }

  predicate WellFormed(l: Lex) {
    match l
    case Word(w) => w != [] && Alphabet.Letter(w[0]) && AllInWord(w)
    case Digits(whole) => AllDigits(whole)
    case Decimal(whole, fraction) => AllDigits(whole) && AllDigits(fraction)
    case Quoted(q, body) => (q == '"' || q == '\'') && forall i :: 0 <= i < |body| ==> Syntax.Lower(body[i]) != q
    case Operator(k) => OperatorText(k) != ""
    case Special(c, w) => (c == '@' || c == '#') && AllInWord(w)
  }

  /** The kind a token has: for a word, the reserved word it spells in any case, and a name only if it spells none. */
  ghost predicate Means(l: Lex, k: Kind) {
    match l
    case Word(w) =>
      if k == Identifier then forall r: Kind :: Spelling(r) != "" && !Broken(r) ==> !Spells(w, Spelling(r))
      else Spelling(k) != "" && !Broken(k) && Spells(w, Spelling(k))
    case Digits(_) => k == Number
    case Decimal(_, _) => k == Number
    case Quoted(_, _) => k == Text
    case Operator(o) => k == o
    case Special(c, _) => k == if c == '@' then Macro else Preprocessor
  }

  lemma WordMeans(w: string)
    requires w != []
    ensures Means(Word(w), IdentifierType(w))
  {
    hide IdentifierType, Spelling;
    OnlyWords(w);
    var k := IdentifierType(w);
    if k == Identifier {
      forall r: Kind | Spelling(r) != "" && !Broken(r) ensures !Spells(w, Spelling(r)) {
        if Spells(w, Spelling(r)) {
          Recognised(w, r);
          NoSpelling();
        }
      }
    } else {
      SpelledOut(w, k);
    }
  }

  lemma NoSpelling()
    ensures Spelling(Identifier) == ""
  {
  }

  lemma SpelledOut(w: string, k: Kind)
    requires w != [] && Spells(w, Spelling(k))
    ensures Spelling(k) != ""
  {
    hide Spelling;
  }

  lemma {:induction false} WordWhole(w: string, i: nat)
    requires i <= |w| && forall j :: i <= j < |w| ==> InWord(w[j])
    ensures WordEnd(w, i) == |w|
    decreases |w| - i
  {
    if i < |w| { WordWhole(w, i + 1); }
  }

  /** Digits that go on up to `end`, where something else stands. */
  lemma {:induction false} DigitsUpTo(w: string, i: nat, end: nat)
    requires i <= end <= |w| && !DigitAt(w, end) && forall j :: i <= j < end ==> IsDigit(Syntax.Lower(w[j]))
    ensures DigitEnd(w, i) == end
    decreases end - i
  {
    if i < end { DigitsUpTo(w, i + 1, end); }
  }

  lemma {:induction false} QuoteUpTo(w: string, i: nat, end: nat, q: char)
    requires i <= end < |w| && Syntax.Lower(w[end]) == q && forall j :: i <= j < end ==> Syntax.Lower(w[j]) != q
    ensures QuoteAt(w, i, q) == end
    decreases end - i
  {
    if i < end { QuoteUpTo(w, i + 1, end, q); }
  }

  /** A token on its own is scanned as what it means. */
  lemma LexScans(l: Lex)
    requires WellFormed(l)
    ensures Lexeme(TextOf(l)) && Means(l, Munch(TextOf(l), 0).kind)
  {
    hide IdentifierType, Spelling, Broken, Spells, WordEnd, DigitEnd, QuoteAt, OperatorText, Alphabet.Letter, Alphabet.Digit;
    var t := TextOf(l);
    match l
    case Word(w) =>
      ScannersLetters(w[0]);
      ScannersWord(w);
      WordWhole(w, 1);
      assert w[0..|w|] == w;
      WordMeans(w);
      WordStarts(w);
    case Digits(whole) =>
      ScannersDigits(whole);
      DigitsUpTo(whole, 1, |whole|);
    case Decimal(whole, fraction) => DecimalScans(whole, fraction);
    case Quoted(q, body) =>
      assert forall j :: 1 <= j < |t| - 1 ==> t[j] == body[j - 1];
      QuoteUpTo(t, 1, |t| - 1, q);
    case Operator(k) => OperatorScans(k);
    case Special(_, w) =>
      ScannersWord(w);
      assert forall j :: 1 <= j < |t| ==> t[j] == w[j - 1];
      WordWhole(t, 1);
  }

  lemma OperatorScans(k: Kind)
    requires OperatorText(k) != ""
    ensures Lexeme(OperatorText(k)) && Munch(OperatorText(k), 0).kind == k
  {
    if k.Bang? || k.BangEqual? || k.Equal? || k.EqualEqual? || k.Less? || k.LessEqual? || k.Greater? || k.GreaterEqual? {
      ComparisonScans(k);
    } else {
      SymbolScans(k);
    }
    hide Munch, Lexeme, OperatorText;
  }

  lemma ComparisonScans(k: Kind)
    requires k.Bang? || k.BangEqual? || k.Equal? || k.EqualEqual? || k.Less? || k.LessEqual? || k.Greater? || k.GreaterEqual?
    ensures Lexeme(OperatorText(k)) && Munch(OperatorText(k), 0).kind == k
  {
    hide IdentifierType, WordEnd, DigitEnd, QuoteAt;
  }

  lemma SymbolScans(k: Kind)
    requires OperatorText(k) != "" && |OperatorText(k)| == 1
    requires !k.Bang? && !k.BangEqual? && !k.Equal? && !k.EqualEqual? && !k.Less? && !k.LessEqual? && !k.Greater? && !k.GreaterEqual?
    ensures Lexeme(OperatorText(k)) && Munch(OperatorText(k), 0).kind == k
  {
    hide IdentifierType, WordEnd, DigitEnd, QuoteAt;
  }

  lemma WordStarts(w: string)
    requires w != [] && IsAlpha(Syntax.Lower(w[0]))
    ensures !IsBlank(w[0]) && w[0] != ';'
  {
  }

  lemma DecimalScans(whole: string, fraction: string)
    requires AllDigits(whole) && AllDigits(fraction)
    ensures
      var t := whole + (['.'] + fraction);
      Lexeme(t) && Munch(t, 0).kind == Number
  {
    hide IdentifierType, DigitEnd;
    var t := whole + (['.'] + fraction);
    var n := |whole|;
    ScannersDigits(whole);
    ScannersDigits(fraction);
    assert forall j :: 0 <= j < n ==> t[j] == whole[j];
    assert t[n] == '.' && forall j :: n < j < |t| ==> t[j] == fraction[j - n - 1];
    DigitsUpTo(t, 1, n);
    DigitsUpTo(t, n + 1, |t|);
  }

  /** A token to be written, after what separates it from the one before. */
  datatype Item = Item(gap: string, lex: Lex)

  function Pieces(items: seq<Item>): (ps: seq<Piece>)
    ensures |ps| == |items|
  {
    seq(|items|, i requires 0 <= i < |items| => Piece(items[i].gap, TextOf(items[i].lex)))
  }

  /** Tokens well formed and, but for the first, separated; `last` is what follows them. A C string has no NUL. */
  predicate Tidy(items: seq<Item>, last: string) {
    Blanks(last, 0) == |last| && '\0' !in last
    && forall i :: 0 <= i < |items| ==>
      Gap(items[i].gap) && WellFormed(items[i].lex) && (i > 0 ==> items[i].gap != [])
      && '\0' !in items[i].gap && '\0' !in TextOf(items[i].lex)
  }

  lemma NoNul(ps: seq<Piece>, last: string)
    requires '\0' !in last && forall i :: 0 <= i < |ps| ==> '\0' !in ps[i].gap && '\0' !in ps[i].text
    ensures CString(Render(ps, last)) == Render(ps, last)
    decreases |ps|
  {
    NoNulIn(ps, last);
  }

  lemma {:induction false} NoNulIn(ps: seq<Piece>, last: string)
    requires '\0' !in last && forall i :: 0 <= i < |ps| ==> '\0' !in ps[i].gap && '\0' !in ps[i].text
    ensures '\0' !in Render(ps, last)
    decreases |ps|
  {
    if ps != [] { NoNulIn(ps[1..], last); }
  }

  /** Where token `n` starts. */
  function Start(ps: seq<Piece>, n: nat): nat
    requires n < |ps|
  {
    if n == 0 then |ps[0].gap| else |ps[0].gap| + |ps[0].text| + Start(ps[1..], n - 1)
  }

  lemma {:induction false} TidySpaced(items: seq<Item>, last: string)
    requires Tidy(items, last)
    ensures Spaced(Pieces(items), last)
    decreases |items|
  {
    hide Gap, Lexeme, WellFormed, TextOf, Munch;
    if items != [] {
      LexScans(items[0].lex);
      assert Pieces(items)[1..] == Pieces(items[1..]);
      TidySpaced(items[1..], last);
    }
  }

  lemma {:induction false} WrittenAt(s: string, i: nat, ps: seq<Piece>, last: string, n: nat)
    requires i <= |s| && s[i..] == Render(ps, last) && Spaced(ps, last) && n <= |ps|
    ensures |Written(s, i, ps, last)| == |ps| + 1
    ensures n == |ps| ==> Written(s, i, ps, last)[n] == TokenOf(s, |s|, Munched(Eof, |s|))
    ensures n < |ps| ==>
      var j := i + Start(ps, n);
      var t := ps[n].text;
      Lexeme(t) && j + |t| <= |s| && s[j..j + |t|] == t
      && Written(s, i, ps, last)[n] == TokenOf(s, j, Munched(Munch(t, 0).kind, j + |t|))
    decreases |ps|
  {
    hide Munch, TokenOf, Gap, Render, Lexeme, Blanks, Written;
    if ps == [] {
      WrittenNone(s, i, last);
    } else {
      Parts(s, i, ps, last);
      WrittenCons(s, i, ps, last);
      SpacedCons(ps, last);
      var end := i + |ps[0].gap| + |ps[0].text|;
      WrittenAt(s, end, ps[1..], last, if n == 0 then 0 else n - 1);
    }
  }

  lemma WrittenNone(s: string, i: nat, last: string)
    requires i <= |s| && s[i..] == Render([], last) && Spaced([], last)
    ensures Written(s, i, [], last) == [TokenOf(s, |s|, Munched(Eof, |s|))]
  {
  }

  lemma SpacedCons(ps: seq<Piece>, last: string)
    requires ps != [] && Spaced(ps, last)
    ensures Lexeme(ps[0].text) && Spaced(ps[1..], last)
  {
    hide Lexeme, Gap;
  }

  lemma WrittenCons(s: string, i: nat, ps: seq<Piece>, last: string)
    requires i <= |s| && ps != [] && s[i..] == Render(ps, last) && Spaced(ps, last)
    ensures
      var j := i + |ps[0].gap|;
      var end := j + |ps[0].text|;
      end <= |s| && s[end..] == Render(ps[1..], last) && Lexeme(ps[0].text) && Spaced(ps[1..], last)
      && Written(s, i, ps, last) == [TokenOf(s, j, Munched(Munch(ps[0].text, 0).kind, end))] + Written(s, end, ps[1..], last)
  {
    hide Munch, TokenOf, Gap, Render, Lexeme, Blanks;
    Parts(s, i, ps, last);
    SpacedCons(ps, last);
  }

  /**
   Scanning inverts rendering: the tokens written, of whatever kind, are the tokens read, each
   with its kind and its characters, at its line and its column if no line feed is inside it.
   */
  lemma ScanInvertsRendering(items: seq<Item>, last: string, n: nat)
    requires Tidy(items, last) && n < |items|
    ensures
      var src := Render(Pieces(items), last);
      var ts, t := TokensOf(src), TextOf(items[n].lex);
      var at := Start(Pieces(items), n);
      at <= |src| && |ts| == |items| + 1 && ts[|items|].kind == Eof
      && ts[n].text == t && Means(items[n].lex, ts[n].kind)
      && ('\n' !in t ==> ts[n].line == LineOf(src, at) && ts[n].column == ColumnOf(src, at))
  {
    hide Munch, Means, TextOf, Render, Tokens, Written, LineOf, ColumnOf, Spaced, Lexeme, Gap, WellFormed;
    var ps := Pieces(items);
    var src := Render(ps, last);
    assert src[0..] == src;
    TidySpaced(items, last);
    NoNul(ps, last);
    ScanWritten(src, 0, 0, ps, last);
    WrittenAt(src, 0, ps, last, n);
    WrittenAt(src, 0, ps, last, |items|);
    LexScans(items[n].lex);
    assert ps[n].text == TextOf(items[n].lex);
    AtItsPlace(src, Start(ps, n), ps[n].text);
  }

  lemma AtItsPlace(s: string, j: nat, t: string)
    requires Lexeme(t) && j + |t| <= |s| && s[j..j + |t|] == t
    ensures
      var token := TokenOf(s, j, Munched(Munch(t, 0).kind, j + |t|));
      token.text == t && token.kind == Munch(t, 0).kind
      && ('\n' !in t ==> token.line == LineOf(s, j) && token.column == ColumnOf(s, j))
  {
    hide Munch;
    if '\n' !in t {
      forall k | j <= k < j + |t| ensures s[k] != '\n' { assert s[j..j + |t|][k - j] == s[k]; }
      PositionOf(s, j, Munched(Munch(t, 0).kind, j + |t|));
    }
  }
}
