/**
 The virtual machine as a step function.

 The original checks neither its stack nor its operands. Where it would read or
 write outside the current frame, the constant pool or the code, a step here is a
 `Crash`; that verified code never gets there is proved in `Verifier`.
 */
module Machine {
  import opened Values
  import opened Bytecode

  datatype Function = Function(arity: nat, code: seq<byte>, consts: seq<Value>)

  /** The function objects, indexed by the `Fun` value that denotes them. */
  type Program = seq<Function>

  datatype Frame = Frame(fn: nat, ip: nat, slots: nat)

  /** What outlives a run. `out` holds one entry per executed print. */
  datatype Store = Store(globals: map<string, Value>, heap: seq<MapObj>, out: seq<seq<Value>>)

  datatype State = State(stack: seq<Value>, frames: seq<Frame>, store: Store)

  datatype Error =
    | WrongArgumentCount
    | StackOverflow
    | NotCallable
    | BadOperands
    | Undefined(name: string)
    | NotAMap
    | BadIndex

  datatype Outcome =
    | Next(state: State)
    | Halt(stack: seq<Value>, store: Store)
    | Fail(error: Error, store: Store)
    | Crash

  datatype Final =
    | Halted(stack: seq<Value>, store: Store)
    | Failed(error: Error, store: Store)
    | Crashed

  /** `PEEK(i)`. */
  function Peek(stack: seq<Value>, i: nat): Value
    requires i < |stack|
  {
    stack[|stack| - 1 - i]
  }

  function DropTop(stack: seq<Value>, n: nat): seq<Value>
    requires n <= |stack|
  {
    stack[..|stack| - n]
  }

  /** Pops `n` values and pushes `v`. */
  function Replace(s: State, n: nat, v: Value): Outcome
    requires n <= |s.stack|
  {
    Next(s.(stack := DropTop(s.stack, n) + [v]))
  }

  /** The string constant an instruction names. */
  function ConstName(p: Program, f: Frame, k: byte): Option<string> {
    if f.fn < |p| && k < |p[f.fn].consts| && p[f.fn].consts[k].Str? then Some(p[f.fn].consts[k].s) else None
  }

  /** How many values of the current frame an instruction reads off the top. */
  function Needs(i: Instr): nat {
    match i
    case Print(n) => n
    case Pop => 1
    case Call(n) => n + 1
    case Ret => 1
    case Unary(_) => 1
    case Binary(_) => 2
    case Def(_) => 1
    case Gst(_) => 1
    case Jmpf(_) => 1
    case St(_) => 1
    case MakeMap(n) => n
    case Get(_) => 1
    case Set(_) => 2
    case Geti => 2
    case Seti => 3
    case _ => 0
  }

  /** `vm_call`. */
  function Enter(h: Host, p: Program, s: State, argc: byte): Outcome
    requires |s.stack| > argc
  {
    match Peek(s.stack, argc)
    case Fun(site) =>
      if site >= |p| then Crash
      else if p[site].arity != argc then Fail(WrongArgumentCount, s.store)
      else if |s.frames| == FRAMES_MAX then Fail(StackOverflow, s.store)
      else Next(s.(frames := s.frames + [Frame(site, 0, |s.stack| - argc - 1)]))
    case Cfn(native) =>
      Replace(s, argc + 1, Num(h.call(native, s.stack[|s.stack| - argc..])))
    case _ => Fail(NotCallable, s.store)
  }

  /** OP_RET; a script's return also pops the script itself. */
  function Leave(s: State, f: Frame): Outcome
    requires |s.stack| > 0 && |s.frames| > 0
  {
    if |s.frames| == 1 then
      if |s.stack| < 2 then Crash else Halt(DropTop(s.stack, 2), s.store)
    else if f.slots > |s.stack| then Crash
    else Next(State(s.stack[..f.slots] + [Peek(s.stack, 0)], s.frames[..|s.frames| - 1], s.store))
  }

  function Jump(s: State, f: Frame, off: Offset): State
    requires |s.frames| > 0
  {
    s.(frames := s.frames[..|s.frames| - 1] + [f.(ip := f.ip + off)])
  }

  function SetGlobal(st: Store, name: string, v: Value): Store {
    st.(globals := st.globals[name := v])
  }

  function GetMember(s: State, key: string): Outcome
    requires |s.stack| >= 1
  {
    var m := Peek(s.stack, 0);
    if !m.Map? then Fail(NotAMap, s.store)
    else if m.ref >= |s.store.heap| then Crash
    else Replace(s, 1, Lookup(s.store.heap[m.ref].table, key))
  }

  function WithMap(st: Store, ref: nat, m: MapObj): Store
    requires ref < |st.heap|
  {
    st.(heap := st.heap[ref := m])
  }

  /** Stores under a string key, as OP_SET and OP_SETI do. */
  function PutString(st: Store, ref: nat, key: string, v: Value): Store
    requires ref < |st.heap|
  {
    WithMap(st, ref, st.heap[ref].(table := st.heap[ref].table[key := v]))
  }

  function PutNumber(st: Store, ref: nat, key: Raw, v: Value): Store
    requires ref < |st.heap|
  {
    WithMap(st, ref, st.heap[ref].(hash := HashPut(st.heap[ref].hash, key, v)))
  }

  function SetMember(s: State, key: string): Outcome
    requires |s.stack| >= 2
  {
    var m, v := Peek(s.stack, 1), Peek(s.stack, 0);
    if !m.Map? then Fail(NotAMap, s.store)
    else if m.ref >= |s.store.heap| then Crash
    else Replace(s.(store := PutString(s.store, m.ref, key, v)), 2, v)
  }

  function GetIndex(s: State): Outcome
    requires |s.stack| >= 2
  {
    var m, key := Peek(s.stack, 1), Peek(s.stack, 0);
    if !m.Map? then Fail(NotAMap, s.store)
    else if m.ref >= |s.store.heap| then Crash
    else
      match key
      case Num(raw) => Replace(s, 2, Lookup(s.store.heap[m.ref].hash, raw))
      case Str(str) => Replace(s, 2, Lookup(s.store.heap[m.ref].table, str))
      case _ => Fail(BadIndex, s.store)
  }

  function SetIndex(s: State): Outcome
    requires |s.stack| >= 3
  {
    var m, key, v := Peek(s.stack, 2), Peek(s.stack, 1), Peek(s.stack, 0);
    if !m.Map? then Fail(NotAMap, s.store)
    else if m.ref >= |s.store.heap| then Crash
    else
      match key
      case Num(raw) => Replace(s.(store := PutNumber(s.store, m.ref, raw, v)), 3, v)
      case Str(str) => Replace(s.(store := PutString(s.store, m.ref, str, v)), 3, v)
      case _ => Fail(BadIndex, s.store)
  }

  function Push(s: State, v: Value): Outcome {
    Next(s.(stack := s.stack + [v]))
  }

  /** Executes `i` in frame `f`, whose `ip` is already past it. */
  function Execute(h: Host, p: Program, s: State, f: Frame, i: Instr): Outcome
    requires |s.frames| > 0
  {
    if f.slots + Needs(i) >= |s.stack| then Crash
    else
      match i
      case Print(n) =>
        var line := s.stack[|s.stack| - n..];
        Next(s.(stack := DropTop(s.stack, n), store := s.store.(out := s.store.out + [line])))
      case Pop => Next(s.(stack := DropTop(s.stack, 1)))
      case Call(n) => Enter(h, p, s, n)
      case Ret => Leave(s, f)
      case Nil => Push(s, Null)
      case True => Push(s, Bool(true))
      case False => Push(s, Bool(false))
      case Const(k) =>
        if f.fn < |p| && k < |p[f.fn].consts| then Push(s, p[f.fn].consts[k]) else Crash
      case Unary(op) =>
        (match ApplyUnary(h, op, Peek(s.stack, 0))
         case Some(v) => Replace(s, 1, v)
         case None => Fail(BadOperands, s.store))
      case Binary(op) =>
        (match ApplyBinary(h, op, Peek(s.stack, 1), Peek(s.stack, 0))
         case Some(v) => Replace(s, 2, v)
         case None => Fail(BadOperands, s.store))
      case Def(k) =>
        (match ConstName(p, f, k)
         case Some(name) =>
           Next(s.(stack := DropTop(s.stack, 1), store := SetGlobal(s.store, name, Peek(s.stack, 0))))
         case None => Crash)
      case Gld(k) =>
        (match ConstName(p, f, k)
         case Some(name) =>
           if name in s.store.globals then Push(s, s.store.globals[name]) else Fail(Undefined(name), s.store)
         case None => Crash)
      case Gst(k) =>
        (match ConstName(p, f, k)
         case Some(name) =>
           if name in s.store.globals then Next(s.(store := SetGlobal(s.store, name, Peek(s.stack, 0))))
           else Fail(Undefined(name), s.store)
         case None => Crash)
      case Jmp(off) => Next(Jump(s, f, off))
      case Jmpf(off) => Next(if Falsey(Peek(s.stack, 0)) then Jump(s, f, off) else s)
      case Ld(k) => if f.slots + k < |s.stack| then Push(s, s.stack[f.slots + k]) else Crash
      case St(k) =>
        if f.slots + k < |s.stack| then Next(s.(stack := s.stack[f.slots + k := Peek(s.stack, 0)])) else Crash
      case MakeMap(n) =>
        var m := MapObj(map[], FillHash(h, map[], s.stack[|s.stack| - n..]));
        Replace(s.(store := s.store.(heap := s.store.heap + [m])), n, Map(|s.store.heap|))
      case Get(k) =>
        (match ConstName(p, f, k)
         case Some(name) => GetMember(s, name)
         case None => Crash)
      case Set(k) =>
        (match ConstName(p, f, k)
         case Some(name) => SetMember(s, name)
         case None => Crash)
      case Geti => GetIndex(s)
      case Seti => SetIndex(s)
  }

  function Code(p: Program, f: Frame): seq<byte> {
    if f.fn < |p| then p[f.fn].code else []
  }

  function Top(s: State): Frame
    requires |s.frames| > 0
  {
    s.frames[|s.frames| - 1]
  }

  /** One turn of the dispatch loop. */
  function Step(h: Host, p: Program, s: State): Outcome {
    if |s.frames| == 0 || |s.frames| > FRAMES_MAX then Crash
    else
      var f := Top(s);
      match Decode(Code(p, f), f.ip)
      case None => Crash
      case Some(i) =>
        var f' := f.(ip := f.ip + Size(i));
        Execute(h, p, s.(frames := s.frames[..|s.frames| - 1] + [f']), f', i)
  }

  /**
   The termination measure. With `b` above the longest chunk, frame `i` weighs its
   remaining code bytes times `b` to the power of the frames that may still be pushed on it.
   */
  function Pow(b: nat, n: nat): nat {
    if n == 0 then 1 else b * Pow(b, n - 1)
  }

  function Remaining(p: Program, f: Frame): nat {
    if f.ip < |Code(p, f)| then |Code(p, f)| - f.ip else 0
  }

  function Longest(p: Program): (n: nat)
    ensures forall i :: 0 <= i < |p| ==> |p[i].code| <= n
  {
    if p == [] then 0
    else
      var n := Longest(p[..|p| - 1]);
      var last := |p[|p| - 1].code|;
      if last > n then last else n
  }

  function Measure(p: Program, frames: seq<Frame>, room: nat): nat
    requires |frames| <= room
    decreases |frames|
  {
    if frames == [] then 0
    else
      Measure(p, frames[..|frames| - 1], room)
      + Remaining(p, frames[|frames| - 1]) * Pow(Longest(p) + 1, room - |frames|)
  }

  lemma MeasureSnoc(p: Program, frames: seq<Frame>, f: Frame, room: nat)
    requires |frames| < room
    ensures Measure(p, frames + [f], room)
         == Measure(p, frames, room) + Remaining(p, f) * Pow(Longest(p) + 1, room - |frames| - 1)
  {
    assert (frames + [f])[..|frames|] == frames;
  }

  lemma {:induction false} PowPositive(b: nat, n: nat)
    requires b > 0
    ensures Pow(b, n) > 0
  {
    if n > 0 { PowPositive(b, n - 1); }
  }

  lemma {:induction false} ProductAtLeast(d: nat, unit: nat)
    requires d > 0
    ensures unit <= d * unit
  {
    if d > 1 {
      ProductAtLeast(d - 1, unit);
      assert d * unit == (d - 1) * unit + unit;
    }
  }

  /** Losing at least one byte lowers a frame's weight by at least one unit. */
  lemma WeightDrops(r: nat, r': nat, unit: nat)
    requires r' < r
    ensures r' * unit + unit <= r * unit
  {
    var d := r - r';
    ProductAtLeast(d, unit);
    assert r * unit == (r' + d) * unit == r' * unit + d * unit;
  }

  /** `f'` is `f` further along in its code. */
  predicate Advanced(f: Frame, f': Frame) {
    f'.fn == f.fn && f'.slots == f.slots && f'.ip > f.ip
  }

  /** Every shape a successful step gives the frames: top one gone, advanced, or advanced with a fresh one on it. */
  lemma StepFrames(h: Host, p: Program, s: State)
    requires Step(h, p, s).Next?
    ensures 0 < |s.frames| <= FRAMES_MAX && Decode(Code(p, Top(s)), Top(s).ip).Some?
    ensures
      var n, low, fs := |s.frames|, s.frames[..|s.frames| - 1], Step(h, p, s).state.frames;
      || fs == low
      || (|fs| == n && fs == low + [fs[n - 1]] && Advanced(Top(s), fs[n - 1]))
      || (|fs| == n + 1 && n < FRAMES_MAX && fs == low + [fs[n - 1]] + [fs[n]] && Advanced(Top(s), fs[n - 1])
          && fs[n].fn < |p| && fs[n].ip == 0)
  {
  }

  function Unit(p: Program, height: nat): nat
    requires height <= FRAMES_MAX
  {
    Pow(Longest(p) + 1, FRAMES_MAX - height)
  }

  /** Replacing the top frame by one with fewer bytes left frees at least one unit of its weight. */
  lemma AdvanceDrops(p: Program, low: seq<Frame>, f: Frame, f': Frame)
    requires |low| < FRAMES_MAX && Remaining(p, f') < Remaining(p, f)
    ensures Measure(p, low + [f'], FRAMES_MAX) + Unit(p, |low| + 1) <= Measure(p, low + [f], FRAMES_MAX)
  {
    hide Measure, Pow, Remaining;
    MeasureSnoc(p, low, f, FRAMES_MAX);
    MeasureSnoc(p, low, f', FRAMES_MAX);
    WeightDrops(Remaining(p, f), Remaining(p, f'), Unit(p, |low| + 1));
  }

  /** A new frame weighs less than one unit of the frame below it. */
  lemma CallFits(p: Program, low: seq<Frame>, g: Frame)
    requires |low| < FRAMES_MAX && 0 < |low|
    ensures Measure(p, low + [g], FRAMES_MAX) < Measure(p, low, FRAMES_MAX) + Unit(p, |low|)
  {
    MeasureSnoc(p, low, g, FRAMES_MAX);
    var inner := Unit(p, |low| + 1);
    PowPositive(Longest(p) + 1, FRAMES_MAX - |low| - 1);
    assert Unit(p, |low|) == (Longest(p) + 1) * inner;
    WeightDrops(Longest(p) + 1, Remaining(p, g), inner);
  }

  /** Every step of any bytecode, compiled or not, lowers the measure: no run is infinite. */
  lemma StepDecreases(h: Host, p: Program, s: State)
    requires Step(h, p, s).Next?
    ensures |s.frames| <= FRAMES_MAX && |Step(h, p, s).state.frames| <= FRAMES_MAX
    ensures Measure(p, Step(h, p, s).state.frames, FRAMES_MAX) < Measure(p, s.frames, FRAMES_MAX)
  {
    StepFrames(h, p, s);
    hide Step;
    var low, fs, f := s.frames[..|s.frames| - 1], Step(h, p, s).state.frames, Top(s);
    assert s.frames == low + [f];
    PowPositive(Longest(p) + 1, FRAMES_MAX - |s.frames|);
    var n := |s.frames|;
    if fs == low {
      MeasureSnoc(p, low, f, FRAMES_MAX);
      WeightDrops(Remaining(p, f), 0, Unit(p, n));
    } else {
      AdvanceDrops(p, low, f, fs[n - 1]);
      if |fs| == n + 1 { CallFits(p, low + [fs[n - 1]], fs[n]); }
    }
  }

  /** `vm_execute`: every program has a final outcome. */
  function Run(h: Host, p: Program, s: State): Final
    requires |s.frames| <= FRAMES_MAX
    decreases Measure(p, s.frames, FRAMES_MAX)
  {
    match Step(h, p, s)
    case Next(s') =>
      StepDecreases(h, p, s);
      Run(h, p, s')
    case Halt(stack, store) => Halted(stack, store)
    case Fail(e, store) => Failed(e, store)
    case Crash => Crashed
  }
}
