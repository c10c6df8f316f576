/**
 Collections during a run: a run is unaffected by what a collector does to maps that nothing
 in use mentions, at whatever steps it runs.
 */
module Collections {
  import opened Values
  import opened Bytecode
  import opened Machine
  import Syntax
  import Codegen
  import Verifier
  import Programs

  /** A map among `keep`, or no map. */
  predicate Known(v: Value, keep: set<nat>) {
    v.Map? ==> v.ref in keep
  }

  predicate AllKnown(vs: seq<Value>, keep: set<nat>) {
    forall i :: 0 <= i < |vs| ==> Known(vs[i], keep)
  }

  predicate TableKnown<K>(m: map<K, Value>, keep: set<nat>) {
    forall k :: k in m ==> Known(m[k], keep)
  }

  predicate MapKnown(m: MapObj, keep: set<nat>) {
    TableKnown(m.table, keep) && TableKnown(m.hash, keep)
  }

  /** `keep` has every map that the globals or a map of `keep` mentions. */
  predicate StoreKept(st: Store, keep: set<nat>) {
    TableKnown(st.globals, keep)
    && (forall r :: r in keep ==> r < |st.heap|)
    && forall r :: r in keep && 0 <= r < |st.heap| ==> MapKnown(st.heap[r], keep)
  }

  /** `keep` has every map in use. */
  predicate Enough(s: State, keep: set<nat>) {
    AllKnown(s.stack, keep) && StoreKept(s.store, keep)
  }

  /** The store after the maps outside `keep` are gone. */
  function Swept(st: Store, keep: set<nat>): (r: Store)
    ensures |r.heap| == |st.heap| && r.globals == st.globals && r.out == st.out
    ensures forall i :: 0 <= i < |st.heap| ==> r.heap[i] == if i in keep then st.heap[i] else MapObj(map[], map[])
  {
    st.(heap := seq(|st.heap|, i requires 0 <= i < |st.heap| => if i in keep then st.heap[i] else MapObj(map[], map[])))
  }

  function Collected(s: State, keep: set<nat>): State {
    s.(store := Swept(s.store, keep))
  }

  /** No function has a map among its constants; compiled functions never do. */
  predicate NoMaps(p: Program) {
    forall i :: 0 <= i < |p| ==> forall k :: 0 <= k < |p[i].consts| ==> !p[i].consts[k].Map?
  }

  /** What is in use after a step, if `keep` was before it: a new map joins. */
  function After(s: State, keep: set<nat>, t: State): set<nat> {
    if |t.store.heap| > |s.store.heap| then keep + {|s.store.heap|} else keep
  }

  /** The outcome `o` of a step from `s`, as it is when the maps outside `keep` are gone. */
  predicate Follows(s: State, keep: set<nat>, o: Outcome, o': Outcome) {
    match o
    case Next(t) => Enough(t, After(s, keep, t)) && o' == Next(Collected(t, After(s, keep, t)))
    case Halt(stack, st) => AllKnown(stack, keep) && StoreKept(st, keep) && o' == Halt(stack, Swept(st, keep))
    case Fail(e, st) => StoreKept(st, keep) && o' == Fail(e, Swept(st, keep))
    case Crash => o' == Crash
  }

  lemma PutKept(st: Store, keep: set<nat>, ref: nat, m: MapObj)
    requires StoreKept(st, keep) && ref in keep && MapKnown(m, keep)
    ensures StoreKept(WithMap(st, ref, m), keep) && WithMap(Swept(st, keep), ref, m) == Swept(WithMap(st, ref, m), keep)
  {
    assert WithMap(Swept(st, keep), ref, m).heap == Swept(WithMap(st, ref, m), keep).heap;
  }

  lemma NewKept(st: Store, keep: set<nat>, m: MapObj)
    requires StoreKept(st, keep) && MapKnown(m, keep)
    ensures
      var st', keep' := st.(heap := st.heap + [m]), keep + {|st.heap|};
      StoreKept(st', keep') && Swept(st', keep') == Swept(st, keep).(heap := Swept(st, keep).heap + [m])
  {
    var st', keep' := st.(heap := st.heap + [m]), keep + {|st.heap|};
    assert Swept(st', keep').heap == Swept(st, keep).heap + [m];
    forall r | r in keep' ensures MapKnown(st'.heap[r], keep') {
      if r in keep { assert MapKnown(st.heap[r], keep); }
    }
  }

  lemma {:induction false} FillKnown(h: Host, m: map<Raw, Value>, vs: seq<Value>, keep: set<nat>)
    requires TableKnown(m, keep) && AllKnown(vs, keep)
    ensures TableKnown(FillHash(h, m, vs), keep)
    decreases |vs|
  {
    if vs != [] { FillKnown(h, HashPut(m, h.ofInt(|vs| - 1), vs[0]), vs[1..], keep); }
  }

  lemma MapFollows(h: Host, p: Program, s: State, keep: set<nat>, f: Frame, i: Instr)
    requires |s.frames| > 0 && Enough(s, keep) && i.MakeMap?
    ensures Follows(s, keep, Execute(h, p, s, f, i), Execute(h, p, Collected(s, keep), f, i))
  {
    hide StoreKept, FillHash, Swept;
    if f.slots + Needs(i) >= |s.stack| { return; }
    var vs := s.stack[|s.stack| - i.n..];
    FillKnown(h, map[], vs, keep);
    NewKept(s.store, keep, MapObj(map[], FillHash(h, map[], vs)));
  }

  lemma WriteFollows(h: Host, p: Program, s: State, keep: set<nat>, f: Frame, i: Instr)
    requires |s.frames| > 0 && Enough(s, keep) && (i.Set? || i.Seti?)
    ensures Follows(s, keep, Execute(h, p, s, f, i), Execute(h, p, Collected(s, keep), f, i))
  {
    hide Swept, ConstName;
    if f.slots + Needs(i) >= |s.stack| { return; }
    var m, v := Peek(s.stack, Needs(i) - 1), Peek(s.stack, 0);
    if !m.Map? || m.ref >= |s.store.heap| { return; }
    var was, now := s.store.heap[m.ref], Swept(s.store, keep).heap[m.ref];
    assert m.ref in keep && now == was && MapKnown(was, keep);
    forall key ensures
      var w := was.(table := was.table[key := v]);
      PutString(Swept(s.store, keep), m.ref, key, v) == Swept(PutString(s.store, m.ref, key, v), keep)
      && StoreKept(PutString(s.store, m.ref, key, v), keep)
    {
      PutKept(s.store, keep, m.ref, was.(table := was.table[key := v]));
    }
    forall key ensures
      PutNumber(Swept(s.store, keep), m.ref, key, v) == Swept(PutNumber(s.store, m.ref, key, v), keep)
      && StoreKept(PutNumber(s.store, m.ref, key, v), keep)
    {
      PutKept(s.store, keep, m.ref, was.(hash := HashPut(was.hash, key, v)));
    }
  }

  lemma ReadFollows(h: Host, p: Program, s: State, keep: set<nat>, f: Frame, i: Instr)
    requires |s.frames| > 0 && Enough(s, keep) && (i.Get? || i.Geti?)
    ensures Follows(s, keep, Execute(h, p, s, f, i), Execute(h, p, Collected(s, keep), f, i))
  {
    hide Swept, ConstName;
    if f.slots + Needs(i) >= |s.stack| { return; }
    var m := Peek(s.stack, Needs(i) - 1);
    if m.Map? && m.ref < |s.store.heap| {
      assert m.ref in keep && Swept(s.store, keep).heap[m.ref] == s.store.heap[m.ref] && MapKnown(s.store.heap[m.ref], keep);
    }
  }

  lemma GlobalFollows(h: Host, p: Program, s: State, keep: set<nat>, f: Frame, i: Instr)
    requires |s.frames| > 0 && Enough(s, keep) && (i.Def? || i.Gld? || i.Gst? || i.Print?)
    ensures Follows(s, keep, Execute(h, p, s, f, i), Execute(h, p, Collected(s, keep), f, i))
  {
    hide ConstName;
  }

  lemma OperatorFollows(h: Host, p: Program, s: State, keep: set<nat>, f: Frame, i: Instr)
    requires |s.frames| > 0 && Enough(s, keep) && (i.Unary? || i.Binary?)
    ensures Follows(s, keep, Execute(h, p, s, f, i), Execute(h, p, Collected(s, keep), f, i))
  {
    Verifier.OperatorsOk(h, 0, 0);
    hide StoreKept, Swept, ApplyUnary, ApplyBinary;
  }

  lemma ControlFollows(h: Host, p: Program, s: State, keep: set<nat>, f: Frame, i: Instr)
    requires |s.frames| > 0 && Enough(s, keep) && (i.Call? || i.Ret? || i.Jmp? || i.Jmpf?)
    ensures Follows(s, keep, Execute(h, p, s, f, i), Execute(h, p, Collected(s, keep), f, i))
  {
    hide StoreKept, Swept;
  }

  lemma RestFollows(h: Host, p: Program, s: State, keep: set<nat>, f: Frame, i: Instr)
    requires |s.frames| > 0 && Enough(s, keep) && NoMaps(p)
    requires i.Nil? || i.True? || i.False? || i.Const? || i.Ld? || i.St? || i.Pop?
    ensures Follows(s, keep, Execute(h, p, s, f, i), Execute(h, p, Collected(s, keep), f, i))
  {
    hide StoreKept, Swept;
  }

  lemma ExecuteFollows(h: Host, p: Program, s: State, keep: set<nat>, f: Frame, i: Instr)
    requires |s.frames| > 0 && Enough(s, keep) && NoMaps(p)
    ensures Follows(s, keep, Execute(h, p, s, f, i), Execute(h, p, Collected(s, keep), f, i))
  {
    hide *;
    match i
    case MakeMap(_) => MapFollows(h, p, s, keep, f, i);
    case Set(_) => WriteFollows(h, p, s, keep, f, i);
    case Seti => WriteFollows(h, p, s, keep, f, i);
    case Get(_) => ReadFollows(h, p, s, keep, f, i);
    case Geti => ReadFollows(h, p, s, keep, f, i);
    case Def(_) => GlobalFollows(h, p, s, keep, f, i);
    case Gld(_) => GlobalFollows(h, p, s, keep, f, i);
    case Gst(_) => GlobalFollows(h, p, s, keep, f, i);
    case Print(_) => GlobalFollows(h, p, s, keep, f, i);
    case Unary(_) => OperatorFollows(h, p, s, keep, f, i);
    case Binary(_) => OperatorFollows(h, p, s, keep, f, i);
    case Call(_) => ControlFollows(h, p, s, keep, f, i);
    case Ret => ControlFollows(h, p, s, keep, f, i);
    case Jmp(_) => ControlFollows(h, p, s, keep, f, i);
    case Jmpf(_) => ControlFollows(h, p, s, keep, f, i);
    case _ => RestFollows(h, p, s, keep, f, i);
  }

  /** One step neither needs nor changes a map that is not in use, nor begins to use one but a new one. */
  lemma StepFollows(h: Host, p: Program, s: State, keep: set<nat>)
    requires Enough(s, keep) && NoMaps(p)
    ensures Follows(s, keep, Step(h, p, s), Step(h, p, Collected(s, keep)))
  {
    hide Execute, Decode, Swept, StoreKept;
    if |s.frames| == 0 || |s.frames| > FRAMES_MAX { return; }
    var f := Top(s);
    var d := Decode(Code(p, f), f.ip);
    if d.None? { return; }
    var f' := f.(ip := f.ip + Size(d.value));
    var s1 := s.(frames := s.frames[..|s.frames| - 1] + [f']);
    assert Collected(s, keep).(frames := s1.frames) == Collected(s1, keep);
    ExecuteFollows(h, p, s1, keep, f', d.value);
  }

  /** When to collect, and what to keep. */
  type Schedule = State -> Option<set<nat>>

  function Tidied(s: State, gc: Schedule): (t: State)
    ensures t.frames == s.frames
  {
    match gc(s)
    case Some(keep) => Collected(s, keep)
    case None => s
  }

  /** `Run` with a collection before any step at which `gc` asks for one. */
  function RunCollecting(h: Host, p: Program, s: State, gc: Schedule): Final
    requires |s.frames| <= FRAMES_MAX
    decreases Measure(p, s.frames, FRAMES_MAX)
  {
    match Step(h, p, Tidied(s, gc))
    case Next(s') =>
      StepDecreases(h, p, Tidied(s, gc));
      RunCollecting(h, p, s', gc)
    case Halt(stack, store) => Halted(stack, store)
    case Fail(e, store) => Failed(e, store)
    case Crash => Crashed
  }

  /** The same result, the maps outside `keep` being gone. */
  predicate SameBut(a: Final, b: Final, keep: set<nat>) {
    match a
    case Halted(stack, st) => AllKnown(stack, keep) && StoreKept(st, keep) && b == Halted(stack, Swept(st, keep))
    case Failed(e, st) => StoreKept(st, keep) && b == Failed(e, Swept(st, keep))
    case Crashed => b == Crashed
  }

  /** A collector keeps what is in use. */
  ghost predicate Careful(gc: Schedule) {
    forall s :: gc(s).Some? ==> Enough(s, gc(s).value)
  }

  /** Two collections in a row are one that keeps what both keep. */
  lemma CollectTwice(s: State, k1: set<nat>, k2: set<nat>)
    requires Enough(s, k1) && Enough(Collected(s, k1), k2)
    ensures Enough(s, k1 * k2) && Collected(Collected(s, k1), k2) == Collected(s, k1 * k2)
  {
    assert Collected(Collected(s, k1), k2).store.heap == Collected(s, k1 * k2).store.heap;
    forall r | r in k1 * k2 ensures MapKnown(s.store.heap[r], k1 * k2) {
      assert MapKnown(s.store.heap[r], k1) && MapKnown(Swept(s.store, k1).heap[r], k2);
    }
  }

  /**
   A run with collections at any steps, each keeping at least what is in use, has the result of
   the run without: the same error or the same stack, the same globals and output, and the
   same contents of every map they lead to.
   */
  lemma {:induction false} CollectingChangesNothing(h: Host, p: Program, s: State, keep: set<nat>, gc: Schedule) returns (last: set<nat>)
    requires |s.frames| <= FRAMES_MAX && NoMaps(p) && Enough(s, keep) && Careful(gc)
    ensures SameBut(Run(h, p, s), RunCollecting(h, p, Collected(s, keep), gc), last)
    decreases Measure(p, s.frames, FRAMES_MAX)
  {
    hide Step, Enough, Swept, NoMaps, StoreKept, AllKnown;
    var s1 := Collected(s, keep);
    var now := keep;
    if gc(s1).Some? {
      CollectTwice(s, keep, gc(s1).value);
      now := keep * gc(s1).value;
    }
    assert Tidied(s1, gc) == Collected(s, now);
    StepFollows(h, p, s, now);
    if Step(h, p, s).Next? {
      var t := Step(h, p, s).state;
      StepDecreases(h, p, s);
      last := CollectingChangesNothing(h, p, t, After(s, now, t), gc);
    } else {
      last := now;
    }
  }

  function Below(n: nat): (refs: set<nat>)
    ensures forall r :: r in refs <==> 0 <= r < n
  {
    if n == 0 then {} else Below(n - 1) + {n - 1}
  }

  /** A typed program in an invariant state mentions no map outside its heap. */
  lemma InvKept(p: Program, Ds: seq<Verifier.Depths>, s: State)
    requires Verifier.WellTyped(p, Ds) && Verifier.Inv(p, Ds, s)
    ensures NoMaps(p) && Enough(s, Below(|s.store.heap|))
  {
    hide Verifier.Typed;
    var all := Below(|s.store.heap|);
    forall i | 0 <= i < |p| ensures forall k :: 0 <= k < |p[i].consts| ==> !p[i].consts[k].Map? {
      assert Verifier.FunctionOk(p[i], Ds[i], |p|);
    }
    Verifier.InvParts(p, Ds, s);
    forall i | 0 <= i < |s.stack| ensures Known(s.stack[i], all) { assert Verifier.ValueOk(s.stack[i], |p|, |s.store.heap|); }
    forall r | r in all ensures MapKnown(s.store.heap[r], all) { assert Verifier.MapOk(s.store.heap[r], |p|, |s.store.heap|); }
  }

  /** A compiled script may be collected at any steps: with a careful collector it has the result it has without. */
  lemma CompiledScriptMayBeCollected(h: Host, body: seq<Syntax.Stmt>, st: Store, gc: Schedule) returns (last: set<nat>)
    requires Programs.Proper(body) && Codegen.CodeProgram(h, body).Some? && Verifier.StoreOk(st, |Codegen.WorldOf(body)|)
    requires Careful(gc)
    ensures
      var p := Codegen.CodeProgram(h, body).value;
      var s := Verifier.Initial([], |p| - 1, st);
      SameBut(Run(h, p, s), RunCollecting(h, p, s, gc), last)
  {
    hide Verifier.WellTyped, Verifier.Inv, Verifier.StoreOk, Programs.Proper, SameBut, Enough, NoMaps, Run, RunCollecting;
    var p := Codegen.CodeProgram(h, body).value;
    var Ds := Programs.ScriptStarts(h, body, st);
    var s := Verifier.Initial([], |p| - 1, st);
    InvKept(p, Ds, s);
    assert Collected(s, Below(|st.heap|)) == s by { NothingSwept(st); }
    last := CollectingChangesNothing(h, p, s, Below(|st.heap|), gc);
  }

  lemma NothingSwept(st: Store)
    ensures Swept(st, Below(|st.heap|)) == st
  {
    assert Swept(st, Below(|st.heap|)).heap == st.heap;
  }
}
