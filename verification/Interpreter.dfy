/** The whole pipeline, from a source text to the effects of a run. */
module Interpreter {
  import opened Values
  import opened Syntax
  import opened Pratt
  import opened Grammar
  import opened Codegen
  import opened Evaluator
  import opened Simulation
  import opened Verifier
  import opened Programs
  import opened Interning
  import opened VirtualMachine
  import opened Reading
  import opened Numbers
  import Compiler
  import Lexer
  import Machine

  datatype Report =
    | CompileError
    | Ran(store: Machine.Store)
    | RuntimeError(error: Machine.Error, at: Machine.Store)

  /** What a list of tokens means, without any machine: parse it and evaluate it. */
  function Meaning(h: Host, toks: seq<Token>, st: Machine.Store): Option<Report> {
    var body := ParseScript(toks);
    if body.None? || CodeProgram(h, body.value).None? then Some(CompileError)
    else
      var w := WorldOf(body.value);
      match EvalScript(h, w, |w| - 1, st)
      case Ok(_, _, st) => Some(Ran(st))
      case Err(e, st) => Some(RuntimeError(e, st))
      case Wrong => None
  }

  /** What the scanner's tokens mean. */
  function TokensMeaning(h: Host, tokens: seq<Lexer.Token>, st: Machine.Store): Option<Report> {
    var toks := ParserTokens(h, tokens);
    if toks.None? then Some(CompileError) else Meaning(h, toks.value, st)
  }

  /** What a source text means to the code, which reads numbers with `strtod` from where they start. */
  function SourceMeaning(h: Host, src: string, st: Machine.Store): Option<Report> {
    TokensMeaning(h, Lexer.TokensOf(src), st)
  }

  /** What it means as it is written, every number being its own characters. */
  function WrittenMeaning(h: Host, src: string, st: Machine.Store): Option<Report> {
    TokensMeaning(h, Cut(Lexer.TokensOf(src)), st)
  }

  /** The two agree on every text in which no number is followed by an exponent or hexadecimal digits. */
  lemma MeaningAsWritten(h: Host, src: string, st: Machine.Store)
    requires Reads(h) && NumbersEnd(Lexer.TokensOf(src))
    ensures SourceMeaning(h, src, st) == WrittenMeaning(h, src, st)
  {
    hide Meaning, Lexer.TokensOf, Reads, NumbersEnd;
    NumbersAsWritten(h, src);
  }

  /**
   A script the machine is fit to run: no map literal overflows its operand, no function needs
   more than 256 stack slots, and no two strings of the run clash with each other or with
   those of `table`.
   */
  ghost predicate Fit(h: Host, toks: seq<Token>, st: Machine.Store, table: set<string>) {
    Within(h, table) && NoClash(table)
    && (ParseScript(toks).Some? ==>
      var body := ParseScript(toks).value;
      BlockFits(body) && Shallow(body, UINT8_COUNT) && StringsOf(h, body, [], st) <= table)
  }

  /** `vm_dofile`: compiling in one pass and running on the unchecked machine gives exactly the file's meaning. */
  method DoFile(h: Host, toks: seq<Token>, st: Machine.Store, ghost table: set<string>) returns (r: Report)
    requires h.Sound() && Interns(h) && Fit(h, toks, st, table) && StoreOk(st, 0)
    ensures Meaning(h.Plain(), toks, st) == Some(r)
  {
    hide ParseScript, CodeProgram, BlockFits, Shallow, EvalScript, WellTyped, Inv, Bounded, StoreOk, WorldOf, StringsOf, Interns, Within, NoClash;
    hide Machine.Run;
    var p := Compiler.Compile(h, toks);
    if ParseScript(toks).None? { return CompileError; }
    ghost var body := ParseScript(toks).value;
    ParsedIsProper(toks);
    MoreFunctions(st, |WorldOf(body)|);
    CompiledScriptMeansItsSource(h, body, [], st, table);
    if p.None? { return CompileError; }
    Interning.ProgramLength(h, body);
    var script := |p.value| - 1;
    ghost var Ds := ProgramTyped(h, body, UINT8_COUNT);
    ScriptReady(h, body, Ds, st);
    var vm := new Vm(h, p.value, st);
    vm.Push(Fun(script));
    var sig := vm.CallValue(Fun(script), 0);
    assert vm.Now() == Initial([], script, st);
    sig := vm.Loop(Ds);
    r := if sig.Finished? then Ran(Machine.Store(vm.globals, vm.heap, vm.out))
         else RuntimeError(sig.error, Machine.Store(vm.globals, vm.heap, vm.out));
  }

  /** The same from the source text on, and with the numbers as they are written if none goes on. */
  method DoSource(h: Host, src: string, st: Machine.Store, ghost table: set<string>) returns (r: Report)
    requires h.Sound() && Interns(h) && StoreOk(st, 0)
    requires
      var toks := ParserTokens(h, Lexer.TokensOf(src));
      toks.Some? ==> Fit(h, toks.value, st, table)
    ensures SourceMeaning(h.Plain(), src, st) == Some(r)
    ensures Reads(h) && NumbersEnd(Lexer.TokensOf(src)) ==> WrittenMeaning(h.Plain(), src, st) == Some(r)
  {
    hide Fit, Meaning, Lexer.TokensOf, StoreOk, Interns, NumbersEnd, WrittenMeaning;
    if Reads(h) && NumbersEnd(Lexer.TokensOf(src)) { MeaningAsWritten(h.Plain(), src, st); }
    var tokens := Lexer.ScanAll(src);
    var toks := ParserTokens(h, tokens);
    TokensPlain(h, tokens);
    if toks.None? { return CompileError; }
    r := DoFile(h, toks.value, st, table);
  }

  lemma {:induction false} TokensPlain(h: Host, ts: seq<Lexer.Token>)
    ensures ParserTokens(h, ts) == ParserTokens(h.Plain(), ts)
    decreases |ts|
  {
    if ts != [] { TokensPlain(h, ts[1..]); }
  }

  /** A store without functions is one for any program. */
  lemma MoreFunctions(st: Machine.Store, functions: nat)
    requires StoreOk(st, 0)
    ensures StoreOk(st, functions) && AllOk([], functions, |st.heap|)
  {
    forall r | 0 <= r < |st.heap| ensures MapOk(st.heap[r], functions, |st.heap|) { assert MapOk(st.heap[r], 0, |st.heap|); }
  }

  lemma ScriptReady(h: Host, body: seq<Stmt>, Ds: seq<Depths>, st: Machine.Store)
    requires CodeProgram(h, body).Some? && WellTyped(CodeProgram(h, body).value, Ds)
    requires StoreOk(st, |WorldOf(body)|)
    ensures
      var p := CodeProgram(h, body).value;
      |p| == |WorldOf(body)| > 0 && p[|p| - 1].arity == 0 && |Ds| == |p| && Inv(p, Ds, Initial([], |p| - 1, st))
  {
    hide CodeFunction, WellTyped, Inv, StoreOk;
    var p, w := CodeProgram(h, body).value, WorldOf(body);
    Interning.ProgramLength(h, body);
    FunctionsEach(h, w);
    ArityKept(h, w[|w| - 1]);
    TypedLength(p, Ds);
    InitialInv(p, Ds, [], |p| - 1, st);
  }
}
