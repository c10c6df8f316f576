/**
 A static discipline for bytecode, and what it guarantees at run time.

 A chunk is typed by one stack depth per instruction boundary, counted from the
 frame's slot 0. Typed programs keep an invariant at every step: they never pop
 below slot 0, never read an operand out of range, never meet a bad opcode, and
 their stack stays within the bound their depths give.
 */
module Verifier {
  import opened Values
  import opened Bytecode
  import opened Machine

  /** The depth at each byte that starts an instruction; -1 inside instructions. */
  type Depths = seq<int>

  /** `exit` when code falls off its end is not allowed. */
  const NO_EXIT: int := -1

  /** Values an instruction leaves on the stack less those it takes. */
  function Effect(i: Instr): int {
    match i
    case Print(n) => 0 - n
    case Pop => -1
    case Call(n) => 0 - n
    case Nil => 1
    case True => 1
    case False => 1
    case Const(_) => 1
    case Binary(_) => -1
    case Def(_) => -1
    case Gld(_) => 1
    case Ld(_) => 1
    case MakeMap(n) => 1 - n
    case Set(_) => -1
    case Geti => -1
    case Seti => -2
    case _ => 0
  }

  function JumpsTo(i: Instr, next: nat): Option<nat> {
    match i
    case Jmp(off) => Some(next + off)
    case Jmpf(off) => Some(next + off)
    case _ => None
  }

  predicate FallsThrough(i: Instr) {
    !i.Jmp? && !i.Ret?
  }

  /** Operands name a constant of the right kind or a slot in use; slot 0 is never assigned. */
  predicate OperandOk(i: Instr, consts: seq<Value>, depth: int) {
    match i
    case Const(k) => k < |consts|
    case Def(k) => k < |consts| && consts[k].Str?
    case Gld(k) => k < |consts| && consts[k].Str?
    case Gst(k) => k < |consts| && consts[k].Str?
    case Get(k) => k < |consts| && consts[k].Str?
    case Set(k) => k < |consts| && consts[k].Str?
    case Ld(k) => k < depth
    case St(k) => 1 <= k < depth
    case _ => true
  }

  /** Control may reach byte `t` at depth `d`: it is a boundary of that depth, or the end at the exit depth. */
  predicate Lands(D: Depths, exit: int, t: int, d: int) {
    (0 <= t < |D| && D[t] == d) || (t == |D| && d == exit)
  }

  predicate InstrOk(code: seq<byte>, consts: seq<Value>, D: Depths, exit: int, ip: nat)
    requires ip < |D|
  {
    match Decode(code, ip)
    case None => false
    case Some(i) =>
      var next := ip + Size(i);
      Needs(i) < D[ip] && OperandOk(i, consts, D[ip])
      && (FallsThrough(i) ==> Lands(D, exit, next, D[ip] + Effect(i)))
      && (JumpsTo(i, next).Some? ==> Lands(D, exit, JumpsTo(i, next).value, D[ip]))
  }

  predicate Typed(code: seq<byte>, consts: seq<Value>, D: Depths, exit: int) {
    |D| == |code| && forall ip :: 0 <= ip < |D| && D[ip] >= 0 ==> InstrOk(code, consts, D, exit, ip)
  }

  predicate FunctionOk(f: Function, D: Depths, functions: nat) {
    Typed(f.code, f.consts, D, NO_EXIT) && Lands(D, NO_EXIT, 0, f.arity + 1)
    && forall k :: 0 <= k < |f.consts| ==> ValueOk(f.consts[k], functions, 0)
  }

  /** `Ds[i]` types the function `p[i]`, for every function. */
  predicate WellTyped(p: Program, Ds: seq<Depths>) {
    |Ds| == |p| && forall i :: 0 <= i < |p| ==> FunctionOk(p[i], Ds[i], |p|)
  }

  /** References point at something. */
  predicate ValueOk(v: Value, functions: nat, maps: nat) {
    (v.Fun? ==> v.site < functions) && (v.Map? ==> v.ref < maps)
  }

  predicate AllOk(vs: seq<Value>, functions: nat, maps: nat) {
    forall i :: 0 <= i < |vs| ==> ValueOk(vs[i], functions, maps)
  }

  predicate TableOk<K>(m: map<K, Value>, functions: nat, maps: nat) {
    forall k :: k in m ==> ValueOk(m[k], functions, maps)
  }

  predicate MapOk(m: MapObj, functions: nat, maps: nat) {
    TableOk(m.table, functions, maps) && TableOk(m.hash, functions, maps)
  }

  predicate StoreOk(st: Store, functions: nat) {
    TableOk(st.globals, functions, |st.heap|)
    && forall r :: 0 <= r < |st.heap| ==> MapOk(st.heap[r], functions, |st.heap|)
  }

  /** The stack height frame `i` will find when it runs next. */
  function HeightAt(s: State, i: nat): nat
    requires i < |s.frames|
  {
    if i == |s.frames| - 1 then |s.stack| else s.frames[i + 1].slots + 1
  }

  /** A frame stands on a typed boundary, at that boundary's depth, with its own function in slot 0. */
  predicate FrameOk(p: Program, Ds: seq<Depths>, f: Frame, stack: seq<Value>, height: nat)
    requires |Ds| == |p|
  {
    f.fn < |p| && f.ip < |Ds[f.fn]| && f.slots < height && f.slots < |stack|
    && Ds[f.fn][f.ip] == height - f.slots && stack[f.slots] == Fun(f.fn)
  }

  /** Each frame starts above slot 0 of the one below. */
  predicate Rising(frames: seq<Frame>) {
    forall i, j :: 0 <= i < j < |frames| ==> frames[i].slots < frames[j].slots
  }

  predicate Inv(p: Program, Ds: seq<Depths>, s: State)
    requires |Ds| == |p|
  {
    0 < |s.frames| <= FRAMES_MAX
    && (forall i :: 0 <= i < |s.frames| ==> FrameOk(p, Ds, s.frames[i], s.stack, HeightAt(s, i)))
    && Rising(s.frames)
    && AllOk(s.stack, |p|, |s.store.heap|) && StoreOk(s.store, |p|)
  }

  /** A step that works above slot 0 of the running frame keeps the invariant. */
  lemma InvTop(p: Program, Ds: seq<Depths>, s: State, s': State, ip: nat)
    requires |Ds| == |p| && Inv(p, Ds, s)
    requires s'.frames == s.frames[..|s.frames| - 1] + [Top(s).(ip := ip)]
    requires var f := Top(s);
      f.slots < |s'.stack| && s'.stack[..f.slots + 1] == s.stack[..f.slots + 1]
      && ip < |Ds[f.fn]| && Ds[f.fn][ip] == |s'.stack| - f.slots
    requires AllOk(s'.stack, |p|, |s'.store.heap|) && StoreOk(s'.store, |p|)
    ensures Inv(p, Ds, s')
  {
    var n := |s.frames|;
    forall i | 0 <= i < n
      ensures FrameOk(p, Ds, s'.frames[i], s'.stack, HeightAt(s', i))
    {
      assert FrameOk(p, Ds, s.frames[i], s.stack, HeightAt(s, i));
      assert s'.stack[s.frames[i].slots] == s'.stack[..Top(s).slots + 1][s.frames[i].slots];
      assert s.stack[s.frames[i].slots] == s.stack[..Top(s).slots + 1][s.frames[i].slots];
    }
  }

  lemma EntryDepth(p: Program, Ds: seq<Depths>, site: nat)
    requires WellTyped(p, Ds) && site < |p|
    ensures |Ds[site]| > 0 && Ds[site][0] == p[site].arity + 1
  {
    hide Typed;
    assert FunctionOk(p[site], Ds[site], |p|);
  }

  /** A frame is as good as before when the stack still holds its function. */
  lemma FrameKept(p: Program, Ds: seq<Depths>, f: Frame, f': Frame, stack: seq<Value>, height: nat, height': nat)
    requires |Ds| == |p| && FrameOk(p, Ds, f, stack, height)
    requires f'.fn == f.fn && f'.slots == f.slots && f'.slots < height'
    requires f'.ip < |Ds[f.fn]| && Ds[f.fn][f'.ip] == height' - f.slots
    ensures FrameOk(p, Ds, f', stack, height')
  {
  }

  lemma FrameStarts(p: Program, Ds: seq<Depths>, g: Frame, stack: seq<Value>)
    requires |Ds| == |p| && g.fn < |p| && g.ip < |Ds[g.fn]| && g.slots < |stack|
    requires Ds[g.fn][g.ip] == |stack| - g.slots && stack[g.slots] == Fun(g.fn)
    ensures FrameOk(p, Ds, g, stack, |stack|)
  {
  }

  /** A call puts a frame on its function's first instruction. */
  lemma InvCall(p: Program, Ds: seq<Depths>, s: State, ip: nat, argc: nat, site: nat)
    requires |Ds| == |p| && Inv(p, Ds, s) && |s.frames| < FRAMES_MAX
    requires var f := Top(s);
      f.slots + argc + 1 < |s.stack| && ip < |Ds[f.fn]| && Ds[f.fn][ip] == |s.stack| - argc - f.slots
    requires Peek(s.stack, argc) == Fun(site) && site < |p| && |Ds[site]| > 0 && Ds[site][0] == argc + 1
    ensures Inv(p, Ds, State(s.stack, s.frames[..|s.frames| - 1] + [Top(s).(ip := ip)] + [Frame(site, 0, |s.stack| - argc - 1)],
                             s.store))
  {
    hide StoreOk, AllOk, FrameOk;
    var n := |s.frames|;
    var f, g := Top(s), Frame(site, 0, |s.stack| - argc - 1);
    var s' := State(s.stack, s.frames[..n - 1] + [f.(ip := ip)] + [g], s.store);
    assert FrameOk(p, Ds, f, s.stack, HeightAt(s, n - 1));
    FrameKept(p, Ds, f, f.(ip := ip), s.stack, |s.stack|, g.slots + 1);
    FrameStarts(p, Ds, g, s.stack);
    forall i | 0 <= i < n + 1
      ensures FrameOk(p, Ds, s'.frames[i], s'.stack, HeightAt(s', i))
    {
      if i < n - 1 {
        assert FrameOk(p, Ds, s.frames[i], s.stack, HeightAt(s, i));
        assert s'.frames[i] == s.frames[i] && HeightAt(s', i) == HeightAt(s, i);
      }
    }
  }

  /** A return hands the result to the frame below, which finds the stack it left plus that value. */
  lemma InvReturn(p: Program, Ds: seq<Depths>, s: State)
    requires |Ds| == |p| && Inv(p, Ds, s) && |s.frames| > 1
    ensures Inv(p, Ds, State(s.stack[..Top(s).slots] + [Peek(s.stack, 0)], s.frames[..|s.frames| - 1], s.store))
  {
    var n := |s.frames|;
    var s' := State(s.stack[..Top(s).slots] + [Peek(s.stack, 0)], s.frames[..n - 1], s.store);
    forall i | 0 <= i < n - 1
      ensures FrameOk(p, Ds, s'.frames[i], s'.stack, HeightAt(s', i))
    {
      assert FrameOk(p, Ds, s.frames[i], s.stack, HeightAt(s, i));
    }
    forall i | 0 <= i < |s'.stack| ensures ValueOk(s'.stack[i], |p|, |s.store.heap|) {
      if i < Top(s).slots { assert s'.stack[i] == s.stack[i]; }
    }
  }

  /** The running frame is about to execute `i` at depth `d`, and typing admits it. */
  predicate Typing(p: Program, Ds: seq<Depths>, s: State, i: Instr, d: int)
    requires |Ds| == |p|
  {
    0 < |s.frames| <= FRAMES_MAX &&
    var f := Top(s);
    var next := f.ip + Size(i);
    f.fn < |p| && d == |s.stack| - f.slots && Needs(i) < d && OperandOk(i, p[f.fn].consts, d)
    && (FallsThrough(i) ==> next < |Ds[f.fn]| && Ds[f.fn][next] == d + Effect(i))
    && (JumpsTo(i, next).Some? ==> JumpsTo(i, next).value < |Ds[f.fn]| && Ds[f.fn][JumpsTo(i, next).value] == d)
    && AllOk(p[f.fn].consts, |p|, 0)
  }

  lemma NextInstr(p: Program, Ds: seq<Depths>, s: State) returns (i: Instr, d: int)
    requires WellTyped(p, Ds) && Inv(p, Ds, s)
    ensures Decode(Code(p, Top(s)), Top(s).ip) == Some(i) && Typing(p, Ds, s, i, d)
  {
    hide Decode, StoreOk, OperandOk, Effect, Needs, JumpsTo, FallsThrough, Size;
    var f := Top(s);
    assert FrameOk(p, Ds, f, s.stack, HeightAt(s, |s.frames| - 1));
    assert FunctionOk(p[f.fn], Ds[f.fn], |p|);
    assert InstrOk(p[f.fn].code, p[f.fn].consts, Ds[f.fn], NO_EXIT, f.ip);
    i := Decode(Code(p, f), f.ip).value;
    d := |s.stack| - f.slots;
    EffectBound(i);
  }

  lemma EffectBound(i: Instr)
    ensures FallsThrough(i) ==> 0 - Needs(i) as int <= Effect(i)
  {
  }

  /** The state after the running frame replaced its `n` topmost values by `vs` and moved on to `ip`. */
  function Replaced(s: State, ip: nat, n: nat, vs: seq<Value>, st: Store): State
    requires |s.frames| > 0 && n <= |s.stack|
  {
    State(DropTop(s.stack, n) + vs, s.frames[..|s.frames| - 1] + [Top(s).(ip := ip)], st)
  }

  lemma InvReplace(p: Program, Ds: seq<Depths>, s: State, ip: nat, n: nat, vs: seq<Value>, st: Store)
    requires |Ds| == |p| && Inv(p, Ds, s)
    requires Top(s).fn < |p| && Top(s).slots + n < |s.stack| && ip < |Ds[Top(s).fn]|
    requires Ds[Top(s).fn][ip] == |s.stack| - Top(s).slots - n + |vs|
    requires AllOk(vs, |p|, |st.heap|) && StoreOk(st, |p|) && |st.heap| >= |s.store.heap|
    ensures Inv(p, Ds, Replaced(s, ip, n, vs, st))
  {
    hide StoreOk;
    var s' := Replaced(s, ip, n, vs, st);
    assert s'.stack[..Top(s).slots + 1] == s.stack[..Top(s).slots + 1];
    InvTop(p, Ds, s, s', ip);
  }

  /** As `InvReplace`, for a single result. */
  lemma InvResult(p: Program, Ds: seq<Depths>, s: State, ip: nat, n: nat, v: Value, st: Store)
    requires |Ds| == |p| && Inv(p, Ds, s)
    requires Top(s).fn < |p| && Top(s).slots + n < |s.stack| && ip < |Ds[Top(s).fn]|
    requires Ds[Top(s).fn][ip] == |s.stack| - Top(s).slots - n + 1
    requires ValueOk(v, |p|, |st.heap|) && StoreOk(st, |p|) && |st.heap| >= |s.store.heap|
    ensures Inv(p, Ds, Replaced(s, ip, n, [v], st))
    ensures n == 0 ==> Replaced(s, ip, n, [v], st).stack == s.stack + [v]
  {
    hide Inv, StoreOk;
    InvReplace(p, Ds, s, ip, n, [v], st);
  }

  /** As `InvReplace`, for no result. */
  lemma InvDrop(p: Program, Ds: seq<Depths>, s: State, ip: nat, n: nat, st: Store)
    requires |Ds| == |p| && Inv(p, Ds, s)
    requires Top(s).fn < |p| && Top(s).slots + n < |s.stack| && ip < |Ds[Top(s).fn]|
    requires Ds[Top(s).fn][ip] == |s.stack| - Top(s).slots - n
    requires StoreOk(st, |p|) && |st.heap| >= |s.store.heap|
    ensures Inv(p, Ds, s.(stack := DropTop(s.stack, n), frames := s.frames[..|s.frames| - 1] + [Top(s).(ip := ip)], store := st))
    ensures DropTop(s.stack, 0) == s.stack
  {
    hide Inv, StoreOk;
    InvReplace(p, Ds, s, ip, n, [], st);
    assert DropTop(s.stack, n) + [] == DropTop(s.stack, n);
  }

  /** Assigning to a slot above slot 0. */
  lemma InvStore(p: Program, Ds: seq<Depths>, s: State, ip: nat, k: nat, v: Value)
    requires |Ds| == |p| && Inv(p, Ds, s) && ValueOk(v, |p|, |s.store.heap|)
    requires Top(s).fn < |p| && 1 <= k && Top(s).slots + k < |s.stack| && ip < |Ds[Top(s).fn]|
    requires Ds[Top(s).fn][ip] == |s.stack| - Top(s).slots
    ensures Inv(p, Ds, State(s.stack[Top(s).slots + k := v], s.frames[..|s.frames| - 1] + [Top(s).(ip := ip)], s.store))
  {
    hide StoreOk;
    var s' := State(s.stack[Top(s).slots + k := v], s.frames[..|s.frames| - 1] + [Top(s).(ip := ip)], s.store);
    assert s'.stack[..Top(s).slots + 1] == s.stack[..Top(s).slots + 1];
    InvTop(p, Ds, s, s', ip);
  }

  lemma SetGlobalOk(st: Store, functions: nat, name: string, v: Value)
    requires StoreOk(st, functions) && ValueOk(v, functions, |st.heap|)
    ensures StoreOk(SetGlobal(st, name, v), functions)
  {
  }

  lemma OutputOk(st: Store, functions: nat, line: seq<Value>)
    requires StoreOk(st, functions)
    ensures StoreOk(st.(out := st.out + [line]), functions)
  {
  }

  lemma PutOk(st: Store, functions: nat, ref: nat, v: Value)
    requires StoreOk(st, functions) && ref < |st.heap| && ValueOk(v, functions, |st.heap|)
    ensures forall key :: StoreOk(PutString(st, ref, key, v), functions)
    ensures forall key :: StoreOk(PutNumber(st, ref, key, v), functions)
  {
  }

  lemma {:induction false} FillOk(h: Host, m: map<Raw, Value>, vs: seq<Value>, functions: nat, maps: nat)
    requires AllOk(vs, functions, maps) && TableOk(m, functions, maps)
    ensures TableOk(FillHash(h, m, vs), functions, maps)
    decreases |vs|
  {
    if vs != [] { FillOk(h, HashPut(m, h.ofInt(|vs| - 1), vs[0]), vs[1..], functions, maps); }
  }

  lemma NewMapOk(h: Host, st: Store, vs: seq<Value>, functions: nat)
    requires StoreOk(st, functions) && AllOk(vs, functions, |st.heap|)
    ensures StoreOk(st.(heap := st.heap + [MapObj(map[], FillHash(h, map[], vs))]), functions)
  {
    FillOk(h, map[], vs, functions, |st.heap|);
    var m := MapObj(map[], FillHash(h, map[], vs));
    var st' := st.(heap := st.heap + [m]);
    forall r | 0 <= r < |st'.heap| ensures MapOk(st'.heap[r], functions, |st'.heap|) {
      if r < |st.heap| { assert MapOk(st.heap[r], functions, |st.heap|); }
    }
  }

  /** The value found under a key, or null, is sound. */
  lemma LookupOk(st: Store, functions: nat, ref: nat)
    requires StoreOk(st, functions) && ref < |st.heap|
    ensures forall k :: ValueOk(Lookup(st.heap[ref].table, k), functions, |st.heap|)
    ensures forall k :: ValueOk(Lookup(st.heap[ref].hash, k), functions, |st.heap|)
  {
    assert MapOk(st.heap[ref], functions, |st.heap|);
  }

  lemma GlobalOk(st: Store, functions: nat, name: string)
    requires StoreOk(st, functions) && name in st.globals
    ensures ValueOk(st.globals[name], functions, |st.heap|)
  {
  }

  /** What one step of a typed program may come to. */
  predicate Good(p: Program, Ds: seq<Depths>, s: State, o: Outcome)
    requires |Ds| == |p|
  {
    match o
    case Next(s') => Inv(p, Ds, s')
    case Halt(stack, st) => |s.frames| == 1 && |s.stack| >= 2 && stack == DropTop(s.stack, 2) && st == s.store
    case Fail(_, _) => true
    case Crash => false
  }

  /** The running frame moved past `i`, as `Step` leaves it for `Execute`. */
  function Past(s: State, i: Instr): (s1: State)
    requires |s.frames| > 0
    ensures |s1.frames| > 0
  {
    s.(frames := s.frames[..|s.frames| - 1] + [Top(s).(ip := Top(s).ip + Size(i))])
  }

  lemma KeepPush(h: Host, p: Program, Ds: seq<Depths>, s: State, i: Instr, d: int)
    requires |Ds| == |p| && Inv(p, Ds, s) && Typing(p, Ds, s, i, d)
    requires i.Nil? || i.True? || i.False? || i.Const? || i.Ld?
    ensures Good(p, Ds, s, Execute(h, p, Past(s, i), Top(Past(s, i)), i))
  {
    hide Inv, StoreOk, AllOk;
    InvParts(p, Ds, s);
    var ip, stack, top, st := Top(s).ip + Size(i), s.stack, |s.stack|, s.store;
    var v :=
      match i
      case Nil => Null
      case True => Bool(true)
      case False => Bool(false)
      case Const(k) => p[Top(s).fn].consts[k]
      case Ld(k) => stack[Top(s).slots + k];
    if i.Const? { ConstOk(p[Top(s).fn].consts, i.k, |p|, |st.heap|); }
    if i.Ld? { PeekOk(stack, top - 1 - (Top(s).slots + i.slot), |p|, |st.heap|); }
    InvResult(p, Ds, s, ip, 0, v, st);
  }

  lemma KeepGlobal(h: Host, p: Program, Ds: seq<Depths>, s: State, i: Instr, d: int)
    requires |Ds| == |p| && Inv(p, Ds, s) && Typing(p, Ds, s, i, d)
    requires i.Gld? || i.Gst? || i.Def?
    ensures Good(p, Ds, s, Execute(h, p, Past(s, i), Top(Past(s, i)), i))
  {
    hide Inv, StoreOk, AllOk;
    InvParts(p, Ds, s);
    var ip, stack, top, st := Top(s).ip + Size(i), s.stack, |s.stack|, s.store;
    var name := match i case Gld(k) => p[Top(s).fn].consts[k].s case Gst(k) => p[Top(s).fn].consts[k].s case Def(k) => p[Top(s).fn].consts[k].s;
    if i.Gld? {
      if name in st.globals {
        GlobalOk(st, |p|, name);
        var v := st.globals[name];
        InvResult(p, Ds, s, ip, 0, v, st);
      }
    } else {
      var v := stack[top - 1];
      var n := if i.Def? then 1 else 0;
      PeekOk(stack, 0, |p|, |st.heap|);
      SetGlobalOk(st, |p|, name, v);
      InvDrop(p, Ds, s, ip, n, SetGlobal(st, name, v));
    }
  }

  lemma KeepRest(h: Host, p: Program, Ds: seq<Depths>, s: State, i: Instr, d: int)
    requires |Ds| == |p| && Inv(p, Ds, s) && Typing(p, Ds, s, i, d)
    requires i.Print? || i.Pop? || i.St?
    ensures Good(p, Ds, s, Execute(h, p, Past(s, i), Top(Past(s, i)), i))
  {
    hide Inv, StoreOk, AllOk;
    InvParts(p, Ds, s);
    var ip, stack, top, st := Top(s).ip + Size(i), s.stack, |s.stack|, s.store;
    match i
    case Print(n) =>
      OutputOk(st, |p|, stack[top - n..]);
      InvDrop(p, Ds, s, ip, n, st.(out := st.out + [stack[top - n..]]));
    case Pop =>
      InvDrop(p, Ds, s, ip, 1, st);
    case St(k) =>
      PeekOk(stack, 0, |p|, |st.heap|);
      InvStore(p, Ds, s, ip, k, stack[top - 1]);
  }

  /** Operators give numbers, booleans and strings, never references. */
  lemma OperatorsOk(h: Host, functions: nat, maps: nat)
    ensures forall op, x :: ApplyUnary(h, op, x).Some? ==> ValueOk(ApplyUnary(h, op, x).value, functions, maps)
    ensures forall op, x, y :: ApplyBinary(h, op, x, y).Some? ==> ValueOk(ApplyBinary(h, op, x, y).value, functions, maps)
  {
  }

  lemma KeepOperator(h: Host, p: Program, Ds: seq<Depths>, s: State, i: Instr, d: int)
    requires |Ds| == |p| && Inv(p, Ds, s) && Typing(p, Ds, s, i, d)
    requires i.Unary? || i.Binary?
    ensures Good(p, Ds, s, Execute(h, p, Past(s, i), Top(Past(s, i)), i))
  {
    hide Inv, StoreOk, AllOk, OperandOk, ApplyUnary, ApplyBinary;
    InvParts(p, Ds, s);
    var ip, stack, top, st := Top(s).ip + Size(i), s.stack, |s.stack|, s.store;
    OperatorsOk(h, |p|, |st.heap|);
    if i.Unary? {
      var r := ApplyUnary(h, i.uop, stack[top - 1]);
      if r.Some? { InvResult(p, Ds, s, ip, 1, r.value, st); }
    } else {
      var r := ApplyBinary(h, i.bop, stack[top - 2], stack[top - 1]);
      if r.Some? { InvResult(p, Ds, s, ip, 2, r.value, st); }
    }
  }

  lemma KeepNewMap(h: Host, p: Program, Ds: seq<Depths>, s: State, i: Instr, d: int)
    requires |Ds| == |p| && Inv(p, Ds, s) && Typing(p, Ds, s, i, d)
    requires i.MakeMap?
    ensures Good(p, Ds, s, Execute(h, p, Past(s, i), Top(Past(s, i)), i))
  {
    hide Inv, StoreOk, AllOk, FillHash, OperandOk;
    InvParts(p, Ds, s);
    var ip, stack, top, st := Top(s).ip + Size(i), s.stack, |s.stack|, s.store;
    var vs := stack[top - i.n..];
    SuffixOk(stack, i.n, |p|, |st.heap|);
    NewMapOk(h, st, vs, |p|);
    InvResult(p, Ds, s, ip, i.n, Map(|st.heap|), st.(heap := st.heap + [MapObj(map[], FillHash(h, map[], vs))]));
  }

  lemma KeepGet(h: Host, p: Program, Ds: seq<Depths>, s: State, i: Instr, d: int)
    requires |Ds| == |p| && Inv(p, Ds, s) && Typing(p, Ds, s, i, d)
    requires i.Get?
    ensures Good(p, Ds, s, Execute(h, p, Past(s, i), Top(Past(s, i)), i))
  {
    hide Inv, StoreOk, AllOk, Lookup, MapOk, TableOk;
    InvParts(p, Ds, s);
    var ip, stack, top, st := Top(s).ip + Size(i), s.stack, |s.stack|, s.store;
    var m := stack[top - 1];
    PeekOk(stack, 0, |p|, |st.heap|);
    if m.Map? {
      LookupOk(st, |p|, m.ref);
      InvResult(p, Ds, s, ip, 1, Lookup(st.heap[m.ref].table, p[Top(s).fn].consts[i.k].s), st);
    }
  }

  lemma KeepSet(h: Host, p: Program, Ds: seq<Depths>, s: State, i: Instr, d: int)
    requires |Ds| == |p| && Inv(p, Ds, s) && Typing(p, Ds, s, i, d)
    requires i.Set?
    ensures Good(p, Ds, s, Execute(h, p, Past(s, i), Top(Past(s, i)), i))
  {
    hide Inv, StoreOk, AllOk;
    InvParts(p, Ds, s);
    var ip, stack, top, st := Top(s).ip + Size(i), s.stack, |s.stack|, s.store;
    var m, v := stack[top - 2], stack[top - 1];
    PeekOk(stack, 0, |p|, |st.heap|);
    PeekOk(stack, 1, |p|, |st.heap|);
    if m.Map? {
      PutOk(st, |p|, m.ref, v);
      InvResult(p, Ds, s, ip, 2, v, PutString(st, m.ref, p[Top(s).fn].consts[i.k].s, v));
    }
  }

  lemma KeepGeti(h: Host, p: Program, Ds: seq<Depths>, s: State, i: Instr, d: int)
    requires |Ds| == |p| && Inv(p, Ds, s) && Typing(p, Ds, s, i, d)
    requires i.Geti?
    ensures Good(p, Ds, s, Execute(h, p, Past(s, i), Top(Past(s, i)), i))
  {
    hide Inv, StoreOk, AllOk, Lookup, MapOk, TableOk, OperandOk;
    InvParts(p, Ds, s);
    var ip, stack, top, st := Top(s).ip + Size(i), s.stack, |s.stack|, s.store;
    var m, key := stack[top - 2], stack[top - 1];
    PeekOk(stack, 0, |p|, |st.heap|);
    PeekOk(stack, 1, |p|, |st.heap|);
    if m.Map? {
      LookupOk(st, |p|, m.ref);
      if key.Num? { InvResult(p, Ds, s, ip, 2, Lookup(st.heap[m.ref].hash, key.raw), st); }
      if key.Str? { InvResult(p, Ds, s, ip, 2, Lookup(st.heap[m.ref].table, key.s), st); }
    }
  }

  lemma KeepSeti(h: Host, p: Program, Ds: seq<Depths>, s: State, i: Instr, d: int)
    requires |Ds| == |p| && Inv(p, Ds, s) && Typing(p, Ds, s, i, d)
    requires i.Seti?
    ensures Good(p, Ds, s, Execute(h, p, Past(s, i), Top(Past(s, i)), i))
  {
    hide Inv, StoreOk, AllOk, OperandOk;
    InvParts(p, Ds, s);
    var ip, stack, top, st := Top(s).ip + Size(i), s.stack, |s.stack|, s.store;
    var m, key, v := stack[top - 3], stack[top - 2], stack[top - 1];
    PeekOk(stack, 0, |p|, |st.heap|);
    PeekOk(stack, 1, |p|, |st.heap|);
    PeekOk(stack, 2, |p|, |st.heap|);
    if m.Map? {
      PutOk(st, |p|, m.ref, v);
      if key.Num? { InvResult(p, Ds, s, ip, 3, v, PutNumber(st, m.ref, key.raw, v)); }
      if key.Str? { InvResult(p, Ds, s, ip, 3, v, PutString(st, m.ref, key.s, v)); }
    }
  }

  lemma KeepJump(h: Host, p: Program, Ds: seq<Depths>, s: State, i: Instr, d: int)
    requires |Ds| == |p| && Inv(p, Ds, s) && Typing(p, Ds, s, i, d)
    requires i.Jmp? || i.Jmpf?
    ensures Good(p, Ds, s, Execute(h, p, Past(s, i), Top(Past(s, i)), i))
  {
    hide Inv, StoreOk, AllOk, OperandOk;
    InvParts(p, Ds, s);
    var ip, stack, top, st := Top(s).ip + Size(i), s.stack, |s.stack|, s.store;
    assert Past(s, i).frames[..|s.frames| - 1] == s.frames[..|s.frames| - 1];
    InvDrop(p, Ds, s, if i.Jmp? || Falsey(Peek(stack, 0)) then ip + i.off else ip, 0, st);
  }

  lemma KeepCall(h: Host, p: Program, Ds: seq<Depths>, s: State, i: Instr, d: int)
    requires |Ds| == |p| && WellTyped(p, Ds) && Inv(p, Ds, s) && Typing(p, Ds, s, i, d)
    requires i.Call?
    ensures Good(p, Ds, s, Execute(h, p, Past(s, i), Top(Past(s, i)), i))
  {
    hide Inv, StoreOk, AllOk, WellTyped, OperandOk;
    InvParts(p, Ds, s);
    PeekOk(s.stack, i.argc, |p|, |s.store.heap|);
    var s1 := Past(s, i);
    assert Execute(h, p, s1, Top(s1), i) == Enter(h, p, s1, i.argc);
    hide Execute;
    KeepEnter(h, p, Ds, s, i, d);
  }

  lemma KeepEnter(h: Host, p: Program, Ds: seq<Depths>, s: State, i: Instr, d: int)
    requires |Ds| == |p| && WellTyped(p, Ds) && Inv(p, Ds, s) && Typing(p, Ds, s, i, d)
    requires i.Call? && ValueOk(Peek(s.stack, i.argc), |p|, |s.store.heap|)
    ensures Good(p, Ds, s, Enter(h, p, Past(s, i), i.argc))
  {
    hide Inv, StoreOk, AllOk, WellTyped, OperandOk;
    InvParts(p, Ds, s);
    var n := i.argc;
    var callee := Peek(s.stack, n);
    var ip := Top(s).ip + Size(i);
    var s1 := Past(s, i);
    match callee
    case Fun(site) =>
      if p[site].arity == n && |s.frames| < FRAMES_MAX {
        EntryDepth(p, Ds, site);
        InvCall(p, Ds, s, ip, n, site);
        assert Enter(h, p, s1, n) == Next(s1.(frames := s1.frames + [Frame(site, 0, |s.stack| - n - 1)]));
      }
    case Cfn(native) =>
      InvResult(p, Ds, s, ip, n + 1, Num(h.call(native, s.stack[|s.stack| - n..])), s.store);
    case _ =>
      assert Enter(h, p, s1, n) == Fail(NotCallable, s.store);
  }

  lemma KeepRet(h: Host, p: Program, Ds: seq<Depths>, s: State, i: Instr, d: int)
    requires |Ds| == |p| && Inv(p, Ds, s) && Typing(p, Ds, s, i, d)
    requires i.Ret?
    ensures Good(p, Ds, s, Execute(h, p, Past(s, i), Top(Past(s, i)), i))
  {
    hide Inv, StoreOk, AllOk, OperandOk;
    InvParts(p, Ds, s);
    var ip, stack, top, st := Top(s).ip + Size(i), s.stack, |s.stack|, s.store;
    assert Past(s, i).frames[..|s.frames| - 1] == s.frames[..|s.frames| - 1];
    if |s.frames| > 1 { InvReturn(p, Ds, s); }
  }

  lemma ConstOk(consts: seq<Value>, k: nat, functions: nat, maps: nat)
    requires k < |consts| && AllOk(consts, functions, 0)
    ensures ValueOk(consts[k], functions, maps)
  {
  }

  lemma SuffixOk(stack: seq<Value>, n: nat, functions: nat, maps: nat)
    requires n <= |stack| && AllOk(stack, functions, maps)
    ensures AllOk(stack[|stack| - n..], functions, maps)
  {
  }

  lemma PeekOk(stack: seq<Value>, n: nat, functions: nat, maps: nat)
    requires n < |stack| && AllOk(stack, functions, maps)
    ensures ValueOk(Peek(stack, n), functions, maps)
  {
  }

  lemma FramesPositive(p: Program, Ds: seq<Depths>, s: State)
    requires |Ds| == |p| && Inv(p, Ds, s)
    ensures 0 < |s.frames| <= FRAMES_MAX
  {
  }

  lemma InvParts(p: Program, Ds: seq<Depths>, s: State)
    requires |Ds| == |p| && Inv(p, Ds, s)
    ensures AllOk(s.stack, |p|, |s.store.heap|) && StoreOk(s.store, |p|)
  {
  }

  lemma StepExecutes(h: Host, p: Program, s: State, i: Instr)
    requires 0 < |s.frames| <= FRAMES_MAX && Decode(Code(p, Top(s)), Top(s).ip) == Some(i)
    ensures Step(h, p, s) == Execute(h, p, Past(s, i), Top(Past(s, i)), i)
  {
    hide Execute, Decode;
  }

  /** Every step of a typed program from an invariant state is defined and keeps the invariant. */
  lemma StepKeeps(h: Host, p: Program, Ds: seq<Depths>, s: State)
    requires WellTyped(p, Ds) && Inv(p, Ds, s)
    ensures Good(p, Ds, s, Step(h, p, s))
  {
    var i, d := NextInstr(p, Ds, s);
    StepExecutes(h, p, s, i);
    hide Step, Execute, WellTyped, Inv, Typing, Decode, Past;
    if i.Call? { KeepCall(h, p, Ds, s, i, d); }
    else if i.Ret? { KeepRet(h, p, Ds, s, i, d); }
    else if i.Jmp? || i.Jmpf? { KeepJump(h, p, Ds, s, i, d); }
    else if i.MakeMap? { KeepNewMap(h, p, Ds, s, i, d); }
    else if i.Get? { KeepGet(h, p, Ds, s, i, d); }
    else if i.Set? { KeepSet(h, p, Ds, s, i, d); }
    else if i.Geti? { KeepGeti(h, p, Ds, s, i, d); }
    else if i.Seti? { KeepSeti(h, p, Ds, s, i, d); }
    else if i.Unary? || i.Binary? { KeepOperator(h, p, Ds, s, i, d); }
    else if i.Gld? || i.Gst? || i.Def? { KeepGlobal(h, p, Ds, s, i, d); }
    else if i.Print? || i.Pop? || i.St? { KeepRest(h, p, Ds, s, i, d); }
    else { KeepPush(h, p, Ds, s, i, d); }
  }

  /** A typed program never reaches a state the original would read or write out of bounds in. */
  lemma {:induction false} RunsSafely(h: Host, p: Program, Ds: seq<Depths>, s: State)
    requires WellTyped(p, Ds) && Inv(p, Ds, s)
    ensures Run(h, p, s) != Crashed
    decreases Measure(p, s.frames, FRAMES_MAX)
  {
    StepKeeps(h, p, Ds, s);
    hide Step, WellTyped, Inv;
    if Step(h, p, s).Next? {
      StepDecreases(h, p, s);
      RunsSafely(h, p, Ds, Step(h, p, s).state);
    }
  }

  /** No boundary of any function lies deeper than `bound`. */
  predicate Bounded(Ds: seq<Depths>, bound: nat) {
    forall f, ip :: 0 <= f < |Ds| && 0 <= ip < |Ds[f]| ==> Ds[f][ip] <= bound
  }

  /** Frame by frame, a stack of typed frames is at most `bound` values high per frame. */
  lemma {:induction false} HeightBound(p: Program, Ds: seq<Depths>, s: State, i: nat, bound: nat)
    requires |Ds| == |p| && Inv(p, Ds, s) && Bounded(Ds, bound) && i < |s.frames|
    ensures HeightAt(s, i) <= s.frames[0].slots + (i + 1) * bound
    decreases i
  {
    hide StoreOk, AllOk;
    assert FrameOk(p, Ds, s.frames[i], s.stack, HeightAt(s, i));
    assert HeightAt(s, i) <= s.frames[i].slots + bound;
    if i > 0 {
      HeightBound(p, Ds, s, i - 1, bound);
      assert (i + 1) * bound == i * bound + bound;
    }
  }

  /** The stack array is large enough for every state of a program of bounded depth. */
  lemma StackBound(p: Program, Ds: seq<Depths>, s: State)
    requires |Ds| == |p| && Inv(p, Ds, s) && Bounded(Ds, UINT8_COUNT) && s.frames[0].slots == 0
    ensures |s.stack| <= STACK_MAX
  {
    HeightBound(p, Ds, s, |s.frames| - 1, UINT8_COUNT);
  }

  /** The state `vm_dofile` starts: the script pushed on `base` and called. */
  function Initial(base: seq<Value>, script: nat, st: Store): State {
    State(base + [Fun(script)], [Frame(script, 0, |base|)], st)
  }

  lemma InitialInv(p: Program, Ds: seq<Depths>, base: seq<Value>, script: nat, st: Store)
    requires WellTyped(p, Ds) && script < |p| && p[script].arity == 0
    requires AllOk(base, |p|, |st.heap|) && StoreOk(st, |p|)
    ensures Inv(p, Ds, Initial(base, script, st))
  {
    EntryDepth(p, Ds, script);
    hide WellTyped, StoreOk;
    var s := Initial(base, script, st);
    assert FrameOk(p, Ds, s.frames[0], s.stack, HeightAt(s, 0));
  }
}
