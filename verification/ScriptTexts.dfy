/** From the characters of a script to its meaning. */
module ScriptTexts {
  import opened Values
  import opened Syntax
  import opened Codegen
  import opened Grammar
  import opened Scripts
  import opened ScriptReading
  import opened Wording
  import opened Interpreter
  import Numbers
  import Reading
  import Rendering
  import Lexer
  import Machine

  /**
   A text with the characters of a script's tokens, each on its line: it is read as those
   tokens, they parse to the statements written, and its meaning is theirs.
   */
  lemma TextIsScript(h: Host, ss: seq<Source>, f: nat -> nat, eof: nat, ws: seq<Writing>, last: string, st: Machine.Store)
    requires Numbers.Reads(h) && WellAll(ss) && Rising(f) && EofFits(ss, f, eof) && Legible(h, ws, last) && Meant(ws, last, 1) == ScriptTokens(ss, f, eof)
    ensures
      var src := Rendering.Render(PiecesOf(ws), last);
      Reading.ParserTokens(h, Lexer.TokensOf(src)) == Some(ScriptTokens(ss, f, eof))
      && ParseScript(ScriptTokens(ss, f, eof)) == (if CutShort(ss, f, eof) then None else Some(TreeAll(ss, 0)))
      && SourceMeaning(h, src, st) == Meaning(h, ScriptTokens(ss, f, eof), st)
  {
    hide *;
    TextIsRead(h, ws, last);
    ScriptIsRead(ss, f, eof);
    MeaningOfTokens(h, Rendering.Render(PiecesOf(ws), last), ScriptTokens(ss, f, eof), st);
  }

  lemma MeaningOfTokens(h: Host, src: string, toks: seq<P.Token>, st: Machine.Store)
    requires Reading.ParserTokens(h, Lexer.TokensOf(src)) == Some(toks)
    ensures SourceMeaning(h, src, st) == Meaning(h, toks, st)
  {
    hide Lexer.TokensOf, Reading.ParserTokens, Meaning;
  }

  /** With or without `= Null`, a variable without an initializer has one meaning and one code. */
  lemma NoInitializerMeansNull(h: Host, ss: seq<Source>, f: nat -> nat, eof: nat, st: Machine.Store)
    requires WellAll(ss) && Rising(f) && EofFits(ss, f, eof)
    ensures Meaning(h, ScriptTokens(ss, f, eof), st) == Meaning(h, ScriptTokens(ExplicitAll(ss), f, eof), st)
    ensures
      var a, b := ParseScript(ScriptTokens(ss, f, eof)), ParseScript(ScriptTokens(ExplicitAll(ss), f, eof));
      a.Some? == b.Some? && (a.Some? ==> CodeProgram(h, a.value) == CodeProgram(h, b.value))
  {
    hide *;
    NoInitializerIsNull(ss, f, eof);
    SameScript(h, ScriptTokens(ss, f, eof), ScriptTokens(ExplicitAll(ss), f, eof), st);
  }

  lemma SameScript(h: Host, ts: seq<P.Token>, us: seq<P.Token>, st: Machine.Store)
    requires ParseScript(ts) == ParseScript(us)
    ensures Meaning(h, ts, st) == Meaning(h, us, st)
  {
    hide ParseScript, CodeProgram, WorldOf;
  }
}
