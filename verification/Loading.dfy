/** A program is put into an empty heap and run there, from its first instruction to its last. */
module Loading {
  import opened Values
  import opened Syntax
  import opened Machine
  import opened Collector
  import opened Layouts
  import opened HeapRuns
  import opened Strings
  import Codegen
  import Evaluator
  import Interning
  import Programs
  import Texts
  import Verifier

  /** `sizeof(fun_t)` on a 64-bit machine. */
  const FUN_SIZE: nat := 96

  /** Some objects kept reachable while others are made. */
  predicate Rooted(heap: Heap, os: seq<Obj>)
    reads heap`roots
  {
    heap.roots == Roots(seq(|os|, i requires 0 <= i < |os| => Some(os[i])), [], [], [], [])
  }

  lemma RootedSet(heap: Heap, os: seq<Obj>)
    requires Rooted(heap, os)
    ensures RootSet(heap.roots) == Members(os)
  {
    var temps := heap.roots.temps;
    forall o | o in Members(os) ensures o in Present(temps) {
      var i :| 0 <= i < |os| && os[i] == o;
      PresentIn(temps, i);
    }
  }

  /** One more object is kept reachable. */
  method Keep(heap: Heap, os: seq<Obj>, o: Obj)
    requires heap.Valid() && Members(os) <= heap.all && o in heap.all
    modifies heap`roots
    ensures heap.Valid() && Rooted(heap, os + [o])
  {
    hide heap.Valid;
    var more := os + [o];
    var roots := Roots(seq(|more|, i requires 0 <= i < |more| => Some(more[i])), [], [], [], []);
    assert RootSet(roots) <= heap.all by { TempsInside(roots, more, heap.all); }
    heap.SetRoots(roots);
  }

  lemma TempsInside(r: Roots, os: seq<Obj>, all: set<Obj>)
    requires r == Roots(seq(|os|, i requires 0 <= i < |os| => Some(os[i])), [], [], [], []) && Members(os) <= all
    ensures RootSet(r) <= all
  {
    forall c | c in r.temps && c.Some? ensures c.value in Members(os) {}
  }

  /** The function objects of a program, still without constants. */
  method Functions(heap: Heap, p: Program) returns (fs: seq<Obj>)
    requires heap.Valid() && Rooted(heap, [])
    modifies heap, heap.all`next, heap.all`isMarked, heap.strings.entries
    ensures heap.Valid() && Rooted(heap, fs) && |fs| == |p| && Distinct(fs) && Members(fs) <= heap.all
    ensures fresh(heap.all - old(heap.all)) && forall i :: 0 <= i < |p| ==> fresh(fs[i]) && fs[i].sort == FunSort && Empty(fs[i].body, p[i])
    ensures heap.strings.entries == old(heap.strings.entries) && heap.strings.Contents().Keys <= old(heap.strings.Contents().Keys)
  {
    hide heap.Valid, heap.Live, heap.strings.Contents, Rooted, Collector.Kept;
    fs := [];
    for i := 0 to |p|
      invariant heap.Valid() && Rooted(heap, fs) && |fs| == i && Distinct(fs) && Members(fs) <= heap.all
      invariant fresh(heap.all - old(heap.all)) && forall j :: 0 <= j < i ==> fresh(fs[j]) && fs[j].sort == FunSort && Empty(fs[j].body, p[j])
      invariant heap.strings.entries == old(heap.strings.entries) && heap.strings.Contents().Keys <= old(heap.strings.Contents().Keys)
    {
      heap.RootsLive();
      RootedSet(heap, fs);
      NoCode(p[i]);
      var o := heap.New(FUN_SIZE, Code(p[i].arity, p[i].code, None, [], []));
      Keep(heap, fs, o);
      fs := fs + [o];
    }
  }

  /** A function's body without its constants. */
  predicate Empty(b: Body, f: Function) {
    b == Code(f.arity, f.code, None, [], [])
  }

  lemma NoCode(f: Function)
    ensures Kids(Code(f.arity, f.code, None, [], [])) == {}
  {
  }

  /** Constants that a heap can hold: no maps, functions of the program, strings of `table`. */
  predicate Loadable(p: Program, table: set<string>) {
    forall f :: 0 <= f < |p| ==> ConstsOk(p[f].consts, |p|, table)
  }

  predicate ConstsOk(consts: seq<Value>, functions: nat, table: set<string>) {
    forall k :: 0 <= k < |consts| ==> ConstOk(consts[k], functions, table)
  }

  predicate ConstOk(v: Value, functions: nat, table: set<string>) {
    !v.Map? && (v.Fun? ==> v.site < functions) && (v.Str? ==> v.s in table)
  }

  /** The constants of one function: its strings are interned, and kept reachable while others are. */
  method Constants(heap: Heap, consts: seq<Value>, lay: Layout, os: seq<Obj>, ghost table: set<string>) returns (xs: seq<Val>, os': seq<Obj>)
    requires heap.Valid() && Rooted(heap, os) && Members(os) <= heap.all && lay.maps == [] && Sorted(lay.functions) && Members(lay.functions) <= Members(os)
    requires ConstsOk(consts, |lay.functions|, table) && Listed(heap, table) && Interning.NoClash(table)
    modifies heap, heap.all`next, heap.all`isMarked, heap.strings, heap.strings.entries
    ensures heap.Valid() && Rooted(heap, os') && os <= os' && Members(os') <= heap.all && Listed(heap, table)
    ensures fresh(heap.all - old(heap.all)) && (heap.strings.entries == old(heap.strings.entries) || fresh(heap.strings.entries))
    ensures AllStand(consts, xs, lay) && Refs(xs) <= Members(os')
  {
    hide heap.Valid, heap.Live, heap.strings.Contents, Rooted, Collector.Kept, Stands, Interning.NoClash, NoCollision, Hash32, Refs;
    xs, os' := [], os;
    RefsNone();
    for k := 0 to |consts|
      invariant heap.Valid() && Rooted(heap, os') && os <= os' && Members(os') <= heap.all && Listed(heap, table)
      invariant fresh(heap.all - old(heap.all)) && (heap.strings.entries == old(heap.strings.entries) || fresh(heap.strings.entries))
      invariant AllStand(consts[..k], xs, lay) && Refs(xs) <= Members(os')
    {
      assert ConstOk(consts[k], |lay.functions|, table);
      ghost var before := os';
      var x;
      x, os' := OneConstant(heap, consts[k], lay, os', table);
      assert Members(before) <= Members(os');
      PushStands(consts[..k], xs, consts[k], x, lay, Members(os'));
      xs := xs + [x];
      assert consts[..k + 1] == consts[..k] + [consts[k]];
    }
    assert consts[..|consts|] == consts;
  }

  method OneConstant(heap: Heap, v: Value, lay: Layout, os: seq<Obj>, ghost table: set<string>) returns (x: Val, os': seq<Obj>)
    requires heap.Valid() && Rooted(heap, os) && Members(os) <= heap.all && Sorted(lay.functions) && Members(lay.functions) <= Members(os)
    requires ConstOk(v, |lay.functions|, table) && Listed(heap, table) && Interning.NoClash(table)
    modifies heap, heap.all`next, heap.all`isMarked, heap.strings, heap.strings.entries
    ensures heap.Valid() && Rooted(heap, os') && os <= os' && Members(os') <= heap.all && Listed(heap, table)
    ensures fresh(heap.all - old(heap.all)) && (heap.strings.entries == old(heap.strings.entries) || fresh(heap.strings.entries))
    ensures Stands(v, x, lay) && (x.Ref? ==> x.o in os')
  {
    hide heap.Valid, heap.Live, heap.strings.Contents, Rooted, Collector.Kept, Interning.NoClash, NoCollision, Hash32;
    x, os' := Plain(v), os;
    if v.Fun? {
      x := Ref(lay.functions[v.site]);
      assert lay.functions[v.site] in Members(lay.functions);
    }
    if v.Str? {
      heap.RootsLive();
      RootedSet(heap, os);
      NoneCollides(heap, v.s, table);
      var o := heap.StrTake(v.s);
      heap.Sorted();
      Keep(heap, os, o);
      x, os' := Ref(o), os + [o];
    }
  }

  lemma CodeOnly(f: Function, xs: seq<Val>, os: set<Obj>)
    requires Refs(xs) <= os
    ensures Kids(Code(f.arity, f.code, None, xs, [])) <= os
  {
    hide Refs;
  }

  /** All of them function objects. */
  predicate Sorted(fs: seq<Obj>) {
    forall i :: 0 <= i < |fs| ==> fs[i].sort == FunSort
  }

  /** The functions before `n` have their constants. */
  ghost predicate Filled(p: Program, lay: Layout, n: nat)
    reads lay.functions
  {
    |lay.functions| == |p| && n <= |p| && Sorted(lay.functions)
    && forall j :: 0 <= j < n ==> FunctionStands(p[j], lay.functions[j].body, lay)
  }

  /** A heap with nothing but a program, and a machine about to run its script. */
  method Load(p: Program, ghost table: set<string>) returns (heap: Heap, m: Mach, lay: Layout)
    requires p != [] && Loadable(p, table) && Interning.NoClash(table)
    ensures fresh(heap) && fresh(heap.all) && fresh(heap.strings) && fresh(heap.strings.entries)
    ensures heap.Valid() && Listed(heap, table) && Represents(heap, m, Verifier.Initial([], |p| - 1, Interning.NOTHING), p, lay)
  {
    hide Heap.Valid, Heap.Live, FunctionStands, AllStand, Interning.NoClash, Refs, RootSet;
    heap := new Heap();
    assert Rooted(heap, []);
    var fs := Functions(heap, p);
    var os := fs;
    lay := Layout([], fs);
    for f := 0 to |p|
      invariant heap.Valid() && Rooted(heap, os) && fs <= os && Members(os) <= heap.all && Listed(heap, table)
      invariant fresh(heap.all) && fresh(heap.strings.entries) && Filled(p, lay, f)
    {
      os := Fill(heap, p, f, lay, os, table);
    }
    assert fs[|p| - 1] in Members(fs) && Members(fs) <= Members(os);
    m := Start(heap, p, lay);
  }

  /** The constants of function `f`. */
  method Fill(heap: Heap, p: Program, f: nat, lay: Layout, os: seq<Obj>, ghost table: set<string>) returns (os': seq<Obj>)
    requires heap.Valid() && Rooted(heap, os) && lay.functions <= os && Members(os) <= heap.all && Listed(heap, table)
    requires f < |p| && Loadable(p, table) && Interning.NoClash(table)
    requires lay.maps == [] && Distinct(lay.functions) && Filled(p, lay, f)
    modifies heap, heap.all`next, heap.all`isMarked, heap.all`body, heap.strings, heap.strings.entries
    ensures heap.Valid() && Rooted(heap, os') && os <= os' && Members(os') <= heap.all && Listed(heap, table)
    ensures fresh(heap.all - old(heap.all)) && (heap.strings.entries == old(heap.strings.entries) || fresh(heap.strings.entries))
    ensures Filled(p, lay, f + 1)
  {
    hide heap.Valid, FunctionStands, AllStand, Interning.NoClash, Refs, RootSet, heap.strings.Contents, Rooted;
    var fs := lay.functions;
    assert Members(fs) <= Members(os);
    var xs;
    xs, os' := Constants(heap, p[f].consts, lay, os, table);
    assert fs[f] in Members(fs) && Members(fs) <= Members(os');
    CodeOnly(p[f], xs, heap.all);
    Stood(p[f], xs, lay);
    heap.Sorted();
    heap.SetBody(fs[f], Code(p[f].arity, p[f].code, None, xs, []));
  }

  lemma Stood(f: Function, xs: seq<Val>, lay: Layout)
    requires AllStand(f.consts, xs, lay)
    ensures FunctionStands(f, Code(f.arity, f.code, None, xs, []), lay)
  {
  }

  /** The script is pushed and called. */
  method Start(heap: Heap, p: Program, lay: Layout) returns (m: Mach)
    requires heap.Valid() && p != [] && Filled(p, lay, |p|) && Distinct(lay.functions) && lay.maps == [] && lay.functions[|p| - 1] in heap.all
    modifies heap`roots
    ensures heap.Valid() && Represents(heap, m, Verifier.Initial([], |p| - 1, Interning.NOTHING), p, lay)
  {
    hide heap.Valid, FunctionStands;
    var script := lay.functions[|p| - 1];
    m := Mach([Ref(script)], [Spot(script, 0, 0)], [], []);
    assert RootSet(RootsOf(m)) <= heap.all;
    heap.SetRoots(RootsOf(m));
  }

  lemma CompiledLoadable(h: Host, body: seq<Stmt>, table: set<string>)
    requires Programs.Proper(body) && Codegen.CodeProgram(h.Plain(), body).Some? && Interning.BlockStrings(body) <= table
    ensures var p := Codegen.CodeProgram(h.Plain(), body).value; p != [] && Loadable(p, table)
  {
    hide Interning.BlockStrings, Verifier.Typed, Programs.Proper;
    var p := Codegen.CodeProgram(h.Plain(), body).value;
    Interning.ProgramLength(h.Plain(), body);
    Texts.ScriptTexts(h, body);
    EmptyStoreOk(|Codegen.WorldOf(body)|);
    var Ds := Programs.ScriptStarts(h.Plain(), body, Interning.NOTHING);
    forall f | 0 <= f < |p| ensures ConstsOk(p[f].consts, |p|, table) {
      assert Verifier.FunctionOk(p[f], Ds[f], |p|);
      forall k | 0 <= k < |p[f].consts| ensures ConstOk(p[f].consts[k], |p|, table) {
        assert Verifier.ValueOk(p[f].consts[k], |p|, 0);
      }
    }
  }

  lemma EmptyStoreOk(functions: nat)
    ensures Verifier.StoreOk(Interning.NOTHING, functions) && Verifier.AllOk([], functions, 0)
  {
  }

  lemma EndStore(h: Host, p: Program, last: State, f: Final, reply: Reply)
    requires Ends(h, p, last, f) && Reports(reply, f)
    ensures !f.Crashed? && f.store == last.store
  {
    hide Step;
  }

  /** What has become of a script: what the machine says, what it holds, and the heap. */
  datatype Outcome = Outcome(reply: Reply, m: Mach, heap: Heap, lay: Layout)

  /**
   A compiled script is laid out in a heap of its own and run there, its strings interned and
   collections as the allocations ask for them. If no two of its strings clash, the machine
   reports what evaluating the source on characters comes to, and what it printed, its
   globals and the maps in its heap stand for those of the evaluation.
   */
  method RunScript(h: Host, body: seq<Stmt>, ghost table: set<string>) returns (r: Option<Outcome>, ghost last: State)
    requires h.Sound() && Programs.Proper(body) && Interning.NoClash(table)
    requires Interning.StringsOf(h, body, [], Interning.NOTHING) <= table
    ensures r.Some? == Codegen.CodeProgram(h.Plain(), body).Some?
    ensures r.Some? ==>
      var w, p := Codegen.WorldOf(body), Codegen.CodeProgram(h.Plain(), body).value;
      var f := Programs.Expected(Evaluator.EvalScript(h.Plain(), w, |w| - 1, Interning.NOTHING), []);
      Reports(r.value.reply, f) && Ends(h.Plain(), p, last, f)
      && r.value.heap.Valid() && Represents(r.value.heap, r.value.m, last, p, r.value.lay)
    ensures r.Some? ==>
      var w := Codegen.WorldOf(body);
      var f := Programs.Expected(Evaluator.EvalScript(h.Plain(), w, |w| - 1, Interning.NOTHING), []);
      !f.Crashed? && Lines(r.value.m.out, r.value.lay) == f.store.out
  {
    hide Codegen.CodeProgram, Programs.Proper, Evaluator.EvalScript, Interning.NoClash, Interning.Made, Run, Codegen.WorldOf, Loadable,
      Interning.BlockStrings, Heap.Valid, Represents, Listed, Ends, Reports, Verifier.WellTyped, Verifier.Inv;
    var p := Codegen.CodeProgram(h.Plain(), body);
    last := State([], [], Interning.NOTHING);
    if p.None? { return None, last; }
    CompiledLoadable(h, body, table);
    EmptyStoreOk(|Codegen.WorldOf(body)|);
    Interning.ProgramLength(h.Plain(), body);
    Programs.CompiledScriptRunsAsEvaluated(h.Plain(), body, [], Interning.NOTHING);
    ghost var Ds := Programs.ScriptStarts(h.Plain(), body, Interning.NOTHING);
    var heap, m, lay := Load(p.value, table);
    var reply;
    reply, m, lay, last := RunOnHeap(heap, h, m, lay, p.value, Verifier.Initial([], |p.value| - 1, Interning.NOTHING), Ds, table);
    LinesAre(heap, m, last, p.value, lay);
    EndStore(h.Plain(), p.value, last, Run(h.Plain(), p.value, Verifier.Initial([], |p.value| - 1, Interning.NOTHING)), reply);
    r := Some(Outcome(reply, m, heap, lay));
  }
}
