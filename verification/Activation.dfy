/**
 The machine seen from one running function: what each instruction does to a
 state whose top frame holds the function itself, its locals and temporaries.
 Every lemma equates the final outcome of a run before an instruction and after it.
 */
module Activation {
  import opened Values
  import opened Bytecode
  import opened Machine
  import Syntax
  import opened Evaluator

  /** A running function: the frames below it, its number, the stack below it and the value called. */
  datatype Act = Act(below: seq<Frame>, fn: nat, base: seq<Value>, self: Value)

  function Vals(env: Env): (vs: seq<Value>)
    ensures |vs| == |env|
  {
    seq(|env|, i requires 0 <= i < |env| => env[i].value)
  }

  /** The stack of an activation, bottom to top. */
  function Stack(a: Act, env: Env, temps: seq<Value>): seq<Value> {
    a.base + [a.self] + Vals(env) + temps
  }

  function Here(a: Act, ip: nat): Frame {
    Frame(a.fn, ip, |a.base|)
  }

  function At(a: Act, ip: nat, env: Env, temps: seq<Value>, st: Store): State {
    State(Stack(a, env, temps), a.below + [Here(a, ip)], st)
  }

  predicate Fits(p: Program, a: Act) {
    a.fn < |p| && |a.below| < FRAMES_MAX
  }

  /** The outcome of a run that goes on at `ip` with the value of an expression pushed. */
  function Conclude(h: Host, p: Program, a: Act, ip: nat, temps: seq<Value>, r: Result<Value>): Final
    requires Fits(p, a)
  {
    match r
    case Ok(v, env, st) => Run(h, p, At(a, ip, env, temps + [v], st))
    case Err(e, st) => Failed(e, st)
    case Wrong => Crashed
  }

  function ConcludeAll(h: Host, p: Program, a: Act, ip: nat, temps: seq<Value>, r: Result<seq<Value>>): Final
    requires Fits(p, a)
  {
    match r
    case Ok(vs, env, st) => Run(h, p, At(a, ip, env, temps + vs, st))
    case Err(e, st) => Failed(e, st)
    case Wrong => Crashed
  }

  /** The outcome of a run once the activation has returned `v`. */
  function AfterReturn(h: Host, p: Program, a: Act, v: Value, st: Store): Final
    requires Fits(p, a)
  {
    if a.below == [] then Halted(a.base, st) else Run(h, p, State(a.base + [v], a.below, st))
  }

  function ConcludeFlow(h: Host, p: Program, a: Act, ip: nat, r: Result<Flow>): Final
    requires Fits(p, a)
  {
    match r
    case Ok(Onward, env, st) => Run(h, p, At(a, ip, env, [], st))
    case Ok(Returned(v), _, st) => AfterReturn(h, p, a, v, st)
    case Err(e, st) => Failed(e, st)
    case Wrong => Crashed
  }

  /** How a run goes on from the outcome of a step. */
  function Continue(h: Host, p: Program, o: Outcome): Final
    requires o.Next? ==> |o.state.frames| <= FRAMES_MAX
  {
    match o
    case Next(s) => Run(h, p, s)
    case Halt(stack, st) => Halted(stack, st)
    case Fail(e, st) => Failed(e, st)
    case Crash => Crashed
  }

  /** The instruction `i` is loaded at `ip`. */
  predicate Loaded(p: Program, a: Act, ip: nat, i: Instr) {
    Fits(p, a) && Holds(p[a.fn].code, ip, Encode(i))
  }

  lemma Unroll(h: Host, p: Program, s: State)
    requires |s.frames| <= FRAMES_MAX
    ensures Step(h, p, s).Next? ==> |Step(h, p, s).state.frames| <= FRAMES_MAX
    ensures Run(h, p, s) == Continue(h, p, Step(h, p, s))
  {
    hide Step, Measure;
    if Step(h, p, s).Next? { StepDecreases(h, p, s); }
  }

  lemma Fetched(h: Host, p: Program, a: Act, ip: nat, env: Env, temps: seq<Value>, st: Store, i: Instr)
    requires Loaded(p, a, ip, i)
    ensures Step(h, p, At(a, ip, env, temps, st))
         == Execute(h, p, At(a, ip + Size(i), env, temps, st), Here(a, ip + Size(i)), i)
  {
    hide Execute, Stack, Decode, Holds, Encode;
    var s := At(a, ip, env, temps, st);
    DecodeEncode(p[a.fn].code, ip, i);
    assert Top(s) == Here(a, ip);
    assert s.frames[..|s.frames| - 1] == a.below;
  }

  lemma OneStep(h: Host, p: Program, a: Act, ip: nat, env: Env, temps: seq<Value>, st: Store, i: Instr)
    requires Loaded(p, a, ip, i)
    ensures Step(h, p, At(a, ip, env, temps, st))
         == Execute(h, p, At(a, ip + Size(i), env, temps, st), Here(a, ip + Size(i)), i)
    ensures
      var o := Execute(h, p, At(a, ip + Size(i), env, temps, st), Here(a, ip + Size(i)), i);
      (o.Next? ==> |o.state.frames| <= FRAMES_MAX)
      && Run(h, p, At(a, ip, env, temps, st)) == Continue(h, p, o)
  {
    hide Execute, Stack, Holds, Encode, Step, Run, Continue;
    Fetched(h, p, a, ip, env, temps, st, i);
    Unroll(h, p, At(a, ip, env, temps, st));
  }

  /** The top of an activation's stack, under `n` temporaries. */
  lemma PeekTemp(a: Act, env: Env, temps: seq<Value>, vs: seq<Value>, i: nat)
    requires i < |vs|
    ensures i < |Stack(a, env, temps + vs)|
    ensures Peek(Stack(a, env, temps + vs), i) == vs[|vs| - 1 - i]
  {
    assert Stack(a, env, temps + vs) == Stack(a, env, temps) + vs;
  }

  lemma DropTemps(a: Act, env: Env, temps: seq<Value>, vs: seq<Value>)
    ensures |vs| <= |Stack(a, env, temps + vs)| && |a.base| + |vs| < |Stack(a, env, temps + vs)|
    ensures DropTop(Stack(a, env, temps + vs), |vs|) == Stack(a, env, temps)
    ensures Stack(a, env, temps + vs)[|Stack(a, env, temps + vs)| - |vs|..] == vs
    ensures forall v: Value :: Stack(a, env, temps) + [v] == Stack(a, env, temps + [v])
  {
    assert Stack(a, env, temps + vs) == Stack(a, env, temps) + vs;
  }

  lemma SlotAt(a: Act, env: Env, temps: seq<Value>, k: nat)
    requires k <= |env|
    ensures |a.base| + k < |Stack(a, env, temps)|
    ensures Stack(a, env, temps)[|a.base| + k] == if k == 0 then a.self else env[k - 1].value
  {
  }

  lemma SlotSet(a: Act, env: Env, temps: seq<Value>, k: nat, v: Value)
    requires 1 <= k <= |env|
    ensures |a.base| + k < |Stack(a, env, temps)|
    ensures Stack(a, env, temps)[|a.base| + k := v] == Stack(a, env[k - 1 := Binding(env[k - 1].name, v)], temps)
  {
    assert Vals(env[k - 1 := Binding(env[k - 1].name, v)]) == Vals(env)[k - 1 := v];
  }

  lemma Unwind(a: Act, env: Env, v: Value)
    ensures |a.base| <= |Stack(a, env, [v])| && Stack(a, env, [v])[..|a.base|] == a.base
    ensures env == [] ==> |Stack(a, env, [v])| >= 2 && DropTop(Stack(a, env, [v]), 2) == a.base
  {
  }

  lemma RunPush(h: Host, p: Program, a: Act, ip: nat, env: Env, temps: seq<Value>, st: Store, i: Instr, v: Value)
    requires Loaded(p, a, ip, i)
    requires match i
             case Nil => v == Null
             case True => v == Bool(true)
             case False => v == Bool(false)
             case Const(k) => k < |p[a.fn].consts| && v == p[a.fn].consts[k]
             case Ld(k) => k <= |env| && v == if k == 0 then a.self else env[k - 1].value
             case _ => false
    ensures Run(h, p, At(a, ip, env, temps, st)) == Run(h, p, At(a, ip + Size(i), env, temps + [v], st))
  {
    hide Run, Step, Stack;
    OneStep(h, p, a, ip, env, temps, st, i);
    DropTemps(a, env, temps, []);
    assert temps + [] == temps;
    if i.Ld? { SlotAt(a, env, temps, i.slot); }
  }

  lemma RunPop(h: Host, p: Program, a: Act, ip: nat, env: Env, temps: seq<Value>, v: Value, st: Store)
    requires Loaded(p, a, ip, Pop)
    ensures Run(h, p, At(a, ip, env, temps + [v], st)) == Run(h, p, At(a, ip + 1, env, temps, st))
  {
    hide Run, Step, Stack;
    OneStep(h, p, a, ip, env, temps + [v], st, Pop);
    DropTemps(a, env, temps, [v]);
  }

  lemma RunUnary(h: Host, p: Program, a: Act, ip: nat, env: Env, temps: seq<Value>, st: Store, op: UnaryOp, x: Value)
    requires Loaded(p, a, ip, Unary(op))
    ensures Run(h, p, At(a, ip, env, temps + [x], st))
         == Conclude(h, p, a, ip + 1, temps, Lift(ApplyUnary(h, op, x), env, st))
  {
    hide Run, Step, Stack;
    OneStep(h, p, a, ip, env, temps + [x], st, Unary(op));
    PeekTemp(a, env, temps, [x], 0);
    DropTemps(a, env, temps, [x]);
  }

  lemma RunBinary(h: Host, p: Program, a: Act, ip: nat, env: Env, temps: seq<Value>, st: Store,
                  op: BinaryOp, x: Value, y: Value)
    requires Loaded(p, a, ip, Binary(op))
    ensures Run(h, p, At(a, ip, env, temps + [x, y], st))
         == Conclude(h, p, a, ip + 1, temps, Lift(ApplyBinary(h, op, x, y), env, st))
  {
    hide Run, Step, Stack;
    OneStep(h, p, a, ip, env, temps + [x, y], st, Binary(op));
    PeekTemp(a, env, temps, [x, y], 0);
    PeekTemp(a, env, temps, [x, y], 1);
    DropTemps(a, env, temps, [x, y]);
  }

  /** The constant an instruction names is the string `name`. */
  predicate Names(p: Program, a: Act, k: byte, name: string) {
    a.fn < |p| && k < |p[a.fn].consts| && p[a.fn].consts[k] == Str(name)
  }

  lemma RunGlobalRead(h: Host, p: Program, a: Act, ip: nat, env: Env, temps: seq<Value>, st: Store, k: byte, name: string)
    requires Loaded(p, a, ip, Gld(k)) && Names(p, a, k, name)
    ensures Run(h, p, At(a, ip, env, temps, st))
         == if name in st.globals then Run(h, p, At(a, ip + 2, env, temps + [st.globals[name]], st))
            else Failed(Undefined(name), st)
  {
    hide Run, Step, Stack;
    OneStep(h, p, a, ip, env, temps, st, Gld(k));
    DropTemps(a, env, temps, []);
  }

  lemma RunGlobalWrite(h: Host, p: Program, a: Act, ip: nat, env: Env, temps: seq<Value>, st: Store,
                       k: byte, name: string, v: Value)
    requires Loaded(p, a, ip, Gst(k)) && Names(p, a, k, name)
    ensures Run(h, p, At(a, ip, env, temps + [v], st))
         == if name in st.globals then Run(h, p, At(a, ip + 2, env, temps + [v], SetGlobal(st, name, v)))
            else Failed(Undefined(name), st)
  {
    hide Run, Step, Stack;
    OneStep(h, p, a, ip, env, temps + [v], st, Gst(k));
    PeekTemp(a, env, temps, [v], 0);
    DropTemps(a, env, temps, [v]);
  }

  lemma RunDefine(h: Host, p: Program, a: Act, ip: nat, env: Env, temps: seq<Value>, st: Store,
                  k: byte, name: string, v: Value)
    requires Loaded(p, a, ip, Def(k)) && Names(p, a, k, name)
    ensures Run(h, p, At(a, ip, env, temps + [v], st)) == Run(h, p, At(a, ip + 2, env, temps, SetGlobal(st, name, v)))
  {
    hide Run, Step, Stack;
    OneStep(h, p, a, ip, env, temps + [v], st, Def(k));
    PeekTemp(a, env, temps, [v], 0);
    DropTemps(a, env, temps, [v]);
  }

  /** Storing to a slot other than 0 updates that variable and nothing else. */
  lemma RunLocalWrite(h: Host, p: Program, a: Act, ip: nat, env: Env, temps: seq<Value>, st: Store, k: byte, v: Value)
    requires Loaded(p, a, ip, St(k)) && 1 <= k <= |env|
    ensures Run(h, p, At(a, ip, env, temps + [v], st))
         == Run(h, p, At(a, ip + 2, env[k - 1 := Binding(env[k - 1].name, v)], temps + [v], st))
  {
    hide Run, Step, Stack;
    OneStep(h, p, a, ip, env, temps + [v], st, St(k));
    PeekTemp(a, env, temps, [v], 0);
    DropTemps(a, env, temps, [v]);
    SlotSet(a, env, temps + [v], k, v);
  }

  lemma RunPrint(h: Host, p: Program, a: Act, ip: nat, env: Env, st: Store, vs: seq<Value>)
    requires |vs| < 256 && Loaded(p, a, ip, Print(|vs|))
    ensures Run(h, p, At(a, ip, env, vs, st)) == Run(h, p, At(a, ip + 2, env, [], st.(out := st.out + [vs])))
  {
    hide Run, Step, Stack;
    OneStep(h, p, a, ip, env, vs, st, Print(|vs|));
    DropTemps(a, env, [], vs);
    assert [] + vs == vs;
  }

  lemma RunMap(h: Host, p: Program, a: Act, ip: nat, env: Env, temps: seq<Value>, st: Store, vs: seq<Value>)
    requires |vs| < 256 && Loaded(p, a, ip, MakeMap(|vs|))
    ensures Run(h, p, At(a, ip, env, temps + vs, st)) == Conclude(h, p, a, ip + 2, temps, Allocate(h, vs, env, st))
  {
    hide Run, Step, Stack;
    OneStep(h, p, a, ip, env, temps + vs, st, MakeMap(|vs|));
    DropTemps(a, env, temps, vs);
  }

  lemma RunJump(h: Host, p: Program, a: Act, ip: nat, env: Env, temps: seq<Value>, st: Store, off: Offset)
    requires Loaded(p, a, ip, Jmp(off))
    ensures Run(h, p, At(a, ip, env, temps, st)) == Run(h, p, At(a, ip + 3 + off, env, temps, st))
  {
    hide Run, Step, Stack;
    OneStep(h, p, a, ip, env, temps, st, Jmp(off));
    SlotAt(a, env, temps, 0);
    var s := At(a, ip + 3, env, temps, st);
    assert s.frames[..|s.frames| - 1] == a.below;
  }

  lemma RunJumpIfFalse(h: Host, p: Program, a: Act, ip: nat, env: Env, temps: seq<Value>, st: Store,
                       off: Offset, v: Value)
    requires Loaded(p, a, ip, Jmpf(off))
    ensures Run(h, p, At(a, ip, env, temps + [v], st))
         == Run(h, p, At(a, if Falsey(v) then ip + 3 + off else ip + 3, env, temps + [v], st))
  {
    hide Run, Step, Stack;
    OneStep(h, p, a, ip, env, temps + [v], st, Jmpf(off));
    PeekTemp(a, env, temps, [v], 0);
    DropTemps(a, env, temps, [v]);
    var s := At(a, ip + 3, env, temps + [v], st);
    assert s.frames[..|s.frames| - 1] == a.below;
  }

  lemma RunGetMember(h: Host, p: Program, a: Act, ip: nat, env: Env, temps: seq<Value>, st: Store,
                     k: byte, name: string, m: Value)
    requires Loaded(p, a, ip, Get(k)) && Names(p, a, k, name)
    ensures Run(h, p, At(a, ip, env, temps + [m], st))
         == Conclude(h, p, a, ip + 2, temps, MemberOf(st, m, name, env))
  {
    hide Run, Step, Stack;
    OneStep(h, p, a, ip, env, temps + [m], st, Get(k));
    PeekTemp(a, env, temps, [m], 0);
    DropTemps(a, env, temps, [m]);
  }

  lemma RunSetMember(h: Host, p: Program, a: Act, ip: nat, env: Env, temps: seq<Value>, st: Store,
                     k: byte, name: string, m: Value, v: Value)
    requires Loaded(p, a, ip, Set(k)) && Names(p, a, k, name)
    ensures Run(h, p, At(a, ip, env, temps + [m, v], st))
         == Conclude(h, p, a, ip + 2, temps, StoreMember(st, m, name, v, env))
  {
    hide Run, Step, Stack;
    OneStep(h, p, a, ip, env, temps + [m, v], st, Set(k));
    PeekTemp(a, env, temps, [m, v], 0);
    PeekTemp(a, env, temps, [m, v], 1);
    DropTemps(a, env, temps, [m, v]);
  }

  lemma RunGetIndex(h: Host, p: Program, a: Act, ip: nat, env: Env, temps: seq<Value>, st: Store, m: Value, key: Value)
    requires Loaded(p, a, ip, Geti)
    ensures Run(h, p, At(a, ip, env, temps + [m, key], st))
         == Conclude(h, p, a, ip + 1, temps, ElementOf(st, m, key, env))
  {
    hide Run, Step, Stack;
    OneStep(h, p, a, ip, env, temps + [m, key], st, Geti);
    PeekTemp(a, env, temps, [m, key], 0);
    PeekTemp(a, env, temps, [m, key], 1);
    DropTemps(a, env, temps, [m, key]);
  }

  lemma RunSetIndex(h: Host, p: Program, a: Act, ip: nat, env: Env, temps: seq<Value>, st: Store,
                    m: Value, key: Value, v: Value)
    requires Loaded(p, a, ip, Seti)
    ensures Run(h, p, At(a, ip, env, temps + [m, key, v], st))
         == Conclude(h, p, a, ip + 1, temps, StoreElement(st, m, key, v, env))
  {
    hide Run, Step, Stack;
    OneStep(h, p, a, ip, env, temps + [m, key, v], st, Seti);
    PeekTemp(a, env, temps, [m, key, v], 0);
    PeekTemp(a, env, temps, [m, key, v], 1);
    PeekTemp(a, env, temps, [m, key, v], 2);
    DropTemps(a, env, temps, [m, key, v]);
  }

  lemma RunReturn(h: Host, p: Program, a: Act, ip: nat, env: Env, v: Value, st: Store)
    requires Loaded(p, a, ip, Ret) && (a.below == [] ==> env == [])
    ensures Run(h, p, At(a, ip, env, [v], st)) == AfterReturn(h, p, a, v, st)
  {
    hide Run, Step, Stack;
    OneStep(h, p, a, ip, env, [v], st, Ret);
    PeekTemp(a, env, [], [v], 0);
    assert [] + [v] == [v];
    var s := At(a, ip + 1, env, [v], st);
    assert s.frames[..|s.frames| - 1] == a.below;
    DropTemps(a, env, [], [v]);
    Unwind(a, env, v);
  }

  /** The activation a call of `p[site]` starts, above the caller's temporaries. */
  function Callee(a: Act, ip: nat, env: Env, temps: seq<Value>, site: nat): Act {
    Act(a.below + [Here(a, ip)], site, Stack(a, env, temps), Fun(site))
  }

  lemma NewStack(a: Act, env: Env, temps: seq<Value>, c: Act, params: seq<Syntax.Ident>, vs: seq<Value>)
    requires c.base == Stack(a, env, temps) && |params| == |vs|
    ensures Stack(a, env, temps + ([c.self] + vs)) == Stack(c, Bind(params, vs), [])
  {
    assert Vals(Bind(params, vs)) == vs;
  }

  lemma RunCallFunction(h: Host, p: Program, a: Act, ip: nat, env: Env, temps: seq<Value>, st: Store,
                        site: nat, params: seq<Syntax.Ident>, vs: seq<Value>)
    requires |vs| < 256 && Loaded(p, a, ip, Call(|vs|))
    requires site < |p| && p[site].arity == |params| == |vs| && |a.below| + 1 < FRAMES_MAX
    ensures Run(h, p, At(a, ip, env, temps + ([Fun(site)] + vs), st))
         == Run(h, p, At(Callee(a, ip + 2, env, temps, site), 0, Bind(params, vs), [], st))
  {
    hide Run, Step, Stack;
    OneStep(h, p, a, ip, env, temps + ([Fun(site)] + vs), st, Call(|vs|));
    PeekTemp(a, env, temps, [Fun(site)] + vs, |vs|);
    DropTemps(a, env, temps, [Fun(site)] + vs);
    var c := Callee(a, ip + 2, env, temps, site);
    NewStack(a, env, temps, c, params, vs);
  }

  /** What a call comes to when no bytecode runs for it. */
  function CallWithoutBody(h: Host, functions: nat, f: Value, fitting: bool, vs: seq<Value>, env: Env, st: Store): Result<Value> {
    match f
    case Fun(site) => if site >= functions then Wrong else Err(if fitting then StackOverflow else WrongArgumentCount, st)
    case Cfn(native) => Ok(Num(h.call(native, vs)), env, st)
    case _ => Err(NotCallable, st)
  }

  /** Calls that run no bytecode: a native's result replaces callee and arguments, the rest are errors. */
  lemma RunCallOther(h: Host, p: Program, a: Act, ip: nat, env: Env, temps: seq<Value>, st: Store,
                     f: Value, vs: seq<Value>)
    requires |vs| < 256 && Loaded(p, a, ip, Call(|vs|))
    requires f.Fun? ==> f.site >= |p| || p[f.site].arity != |vs| || |a.below| + 1 == FRAMES_MAX
    ensures Run(h, p, At(a, ip, env, temps + ([f] + vs), st))
         == Conclude(h, p, a, ip + 2, temps, CallWithoutBody(h, |p|, f, f.Fun? && f.site < |p| && p[f.site].arity == |vs|, vs, env, st))
  {
    hide Run, Step, Stack;
    OneStep(h, p, a, ip, env, temps + ([f] + vs), st, Call(|vs|));
    PeekTemp(a, env, temps, [f] + vs, |vs|);
    DropTemps(a, env, temps, [f] + vs);
    var stack := Stack(a, env, temps + ([f] + vs));
    assert stack[|stack| - |vs|..] == vs;
  }
}
