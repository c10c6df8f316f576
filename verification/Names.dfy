/** When two names are one: letter by letter, whatever the case of the 26 letters. */
module Names {
  import opened Values
  import opened Syntax
  import opened Alphabet
  import opened Evaluator
  import opened Codegen
  import Interning
  import Machine

  /** Two names are interned in lower case as one text if and only if they are one name. */
  lemma CanonIsName(a: string, b: string)
    ensures Canon(a) == Canon(b) <==> SameName(a, b)
  {
    hide SameLetter, Lower;
    if |a| == |b| {
      forall i | 0 <= i < |a| ensures SameLetter(a[i], b[i]) <==> Canon(a)[i] == Canon(b)[i] { SameLetterLower(a[i], b[i]); }
    }
  }

  /** On characters, two declarations of globals declare one if and only if their names are the same but for case. */
  lemma OneGlobalIffSameName(h: Host, a: Ident, b: Ident, m: Literal, n: Literal)
    requires m != n
    ensures
      Interning.Output(EvalScript(h.Plain(), WorldOf(Interning.TwoGlobals(a, b, m, n)), 0, Interning.NOTHING)) == [[Num(n)]]
      <==> SameName(a, b)
  {
    hide EvalScript, Canon, WorldOf, SameName;
    Interning.TwoGlobalsPrint(h.Plain(), a, b, m, n);
    CanonIsName(a, b);
  }

  /** A name stands for the variable declared last of those of that name, whose names agree in case as well. */
  lemma {:induction false} InnermostFound(env: Env, name: string)
    ensures
      var i := Find(env, name);
      if i < 0 then forall j :: 0 <= j < |env| ==> env[j].name != name
      else env[i].name == name && forall j :: i < j < |env| ==> env[j].name != name
  {
    if env != [] { InnermostFound(env[..|env| - 1], name); }
  }
}
