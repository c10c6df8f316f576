/**
 The virtual machine in place: a fixed array of values with a moving top and a fixed array
 of frames, both written without a single bound check, as the original does. What makes
 this safe is stated as a precondition, and proved for compiled code.
 */
module VirtualMachine {
  import opened Values
  import opened Bytecode
  import opened Machine
  import opened Verifier
  import Programs

  datatype Signal = Going | Finished | Stopped(error: Error)

  class Vm {
    const h: Host
    const p: Program
    const stack: array<Value>
    const frames: array<Frame>
    var top: nat
    var count: nat
    var globals: map<string, Value>
    var heap: seq<MapObj>
    var out: seq<seq<Value>>

    predicate Valid()
      reads `top, `count
    {
      stack.Length == STACK_MAX && frames.Length == FRAMES_MAX && top <= STACK_MAX && count <= FRAMES_MAX
    }

    /** The values in use, bottom to top. */
    ghost function Live(): seq<Value>
      requires Valid()
      reads `top, `count, stack
    {
      stack[..top]
    }

    ghost function Frames(): seq<Frame>
      requires Valid()
      reads `top, `count, frames
    {
      frames[..count]
    }

    ghost function Kept(): Store
      reads `globals, `heap, `out
    {
      Store(globals, heap, out)
    }

    ghost function Now(): State
      requires Valid()
      reads this, stack, frames
    {
      State(Live(), Frames(), Kept())
    }

    /** `vm_create`. */
    constructor (h: Host, p: Program, st: Store)
      ensures Valid() && fresh(stack) && fresh(frames) && this.h == h && this.p == p
      ensures Now() == State([], [], st)
    {
      this.h, this.p, globals, heap, out := h, p, st.globals, st.heap, st.out;
      stack := new Value[STACK_MAX](_ => Null);
      frames := new Frame[FRAMES_MAX](_ => Frame(0, 0, 0));
      top, count := 0, 0;
    }

    /** `PUSH`: nothing checks that there is room. */
    method Push(v: Value)
      requires Valid() && top < STACK_MAX
      modifies `top, stack
      ensures Valid() && Live() == old(Live()) + [v]
    {
      stack[top] := v;
      top := top + 1;
    }

    /** `POP`: nothing checks that there is a value. */
    method Pop() returns (v: Value)
      requires Valid() && top > 0
      modifies `top
      ensures Valid() && v == Machine.Peek(old(Live()), 0) && Live() == DropTop(old(Live()), 1)
    {
      top := top - 1;
      v := stack[top];
    }

    /** `POPN`. */
    method PopMany(n: nat)
      requires Valid() && top >= n
      modifies `top
      ensures Valid() && Live() == DropTop(old(Live()), n)
    {
      top := top - n;
    }

    /** Two pops and a push. */
    method ReplaceTwo(v: Value)
      requires Valid() && top >= 2
      modifies `top, stack
      ensures Valid() && Live() == DropTop(old(Live()), 2) + [v]
    {
      var _ := Pop();
      var _ := Pop();
      Push(v);
    }

    /** `PEEK`. */
    method Peek(i: nat) returns (v: Value)
      requires Valid() && i < top
      ensures v == Machine.Peek(Live(), i)
    {
      v := stack[top - 1 - i];
    }

    /** What a signal and the state left behind say about a step. */
    ghost predicate Tells(sig: Signal, o: Outcome)
      requires Valid()
      reads this, stack, frames
    {
      match o
      case Next(s) => sig.Going? && Now() == s
      case Halt(vs, st) => sig.Finished? && Live() == vs && Kept() == st
      case Fail(e, st) => sig == Stopped(e) && Kept() == st
      case Crash => false
    }

    /** An instruction that neither leaves its frame nor outgrows the stack array. */
    ghost predicate Safe(o: Outcome) {
      !o.Crash? && (o.Next? ==> |o.state.stack| <= STACK_MAX)
    }

    /** OP_PRINT. */
    method DoPrint(n: byte) returns (sig: Signal)
      requires Valid() && count > 0 && Safe(Execute(h, p, Now(), frames[count - 1], Print(n)))
      modifies this, stack, frames
      ensures Valid() && Tells(sig, Execute(h, p, old(Now()), old(frames[count - 1]), Print(n)))
    {
      var line := stack[top - n..top];
      out := out + [line];
      PopMany(n);
      sig := Going;
    }

    method DoPop() returns (sig: Signal)
      requires Valid() && count > 0 && Safe(Execute(h, p, Now(), frames[count - 1], Instr.Pop))
      modifies this, stack, frames
      ensures Valid() && Tells(sig, Execute(h, p, old(Now()), old(frames[count - 1]), Instr.Pop))
    {
      var _ := Pop();
      sig := Going;
    }

    method DoNil() returns (sig: Signal)
      requires Valid() && count > 0 && Safe(Execute(h, p, Now(), frames[count - 1], Nil))
      modifies this, stack, frames
      ensures Valid() && Tells(sig, Execute(h, p, old(Now()), old(frames[count - 1]), Nil))
    {
      Push(Null);
      sig := Going;
    }

    method DoTrue() returns (sig: Signal)
      requires Valid() && count > 0 && Safe(Execute(h, p, Now(), frames[count - 1], True))
      modifies this, stack, frames
      ensures Valid() && Tells(sig, Execute(h, p, old(Now()), old(frames[count - 1]), True))
    {
      Push(Bool(true));
      sig := Going;
    }

    method DoFalse() returns (sig: Signal)
      requires Valid() && count > 0 && Safe(Execute(h, p, Now(), frames[count - 1], False))
      modifies this, stack, frames
      ensures Valid() && Tells(sig, Execute(h, p, old(Now()), old(frames[count - 1]), False))
    {
      Push(Bool(false));
      sig := Going;
    }

    method DoConst(k: byte) returns (sig: Signal)
      requires Valid() && count > 0 && Safe(Execute(h, p, Now(), frames[count - 1], Const(k)))
      modifies this, stack, frames
      ensures Valid() && Tells(sig, Execute(h, p, old(Now()), old(frames[count - 1]), Const(k)))
    {
      Push(p[frames[count - 1].fn].consts[k]);
      sig := Going;
    }

    /** OP_NOT and OP_NEG. */
    method DoUnary(op: UnaryOp) returns (sig: Signal)
      requires Valid() && count > 0 && Safe(Execute(h, p, Now(), frames[count - 1], Unary(op)))
      modifies this, stack, frames
      ensures Valid() && Tells(sig, Execute(h, p, old(Now()), old(frames[count - 1]), Unary(op)))
    {
      var v := Peek(0);
      var r := ApplyUnary(h, op, v);
      if r.None? { return Stopped(BadOperands); }
      var _ := Pop();
      Push(r.value);
      sig := Going;
    }

    /** The arithmetic and comparison instructions. */
    method DoBinary(op: BinaryOp) returns (sig: Signal)
      requires Valid() && count > 0 && Safe(Execute(h, p, Now(), frames[count - 1], Binary(op)))
      modifies this, stack, frames
      ensures Valid() && Tells(sig, Execute(h, p, old(Now()), old(frames[count - 1]), Binary(op)))
    {
      var y := Peek(0);
      var x := Peek(1);
      var r := ApplyBinary(h, op, x, y);
      if r.None? { return Stopped(BadOperands); }
      ReplaceTwo(r.value);
      sig := Going;
    }

    /** OP_DEF. */
    method DoDefine(k: byte) returns (sig: Signal)
      requires Valid() && count > 0 && Safe(Execute(h, p, Now(), frames[count - 1], Def(k)))
      modifies this, stack, frames
      ensures Valid() && Tells(sig, Execute(h, p, old(Now()), old(frames[count - 1]), Def(k)))
    {
      var name := p[frames[count - 1].fn].consts[k].s;
      var v := Peek(0);
      globals := globals[name := v];
      var _ := Pop();
      sig := Going;
    }

    /** OP_GLD. */
    method DoLoadGlobal(k: byte) returns (sig: Signal)
      requires Valid() && count > 0 && Safe(Execute(h, p, Now(), frames[count - 1], Gld(k)))
      modifies this, stack, frames
      ensures Valid() && Tells(sig, Execute(h, p, old(Now()), old(frames[count - 1]), Gld(k)))
    {
      var name := p[frames[count - 1].fn].consts[k].s;
      if name !in globals { return Stopped(Undefined(name)); }
      Push(globals[name]);
      sig := Going;
    }

    /** OP_GST. */
    method DoStoreGlobal(k: byte) returns (sig: Signal)
      requires Valid() && count > 0 && Safe(Execute(h, p, Now(), frames[count - 1], Gst(k)))
      modifies this, stack, frames
      ensures Valid() && Tells(sig, Execute(h, p, old(Now()), old(frames[count - 1]), Gst(k)))
    {
      var name := p[frames[count - 1].fn].consts[k].s;
      var v := Peek(0);
      var isNew := name !in globals;
      ghost var before := globals;
      globals := globals[name := v];
      if isNew {
        globals := globals - {name};
        assert globals == before;
        return Stopped(Undefined(name));
      }
      sig := Going;
    }

    /** OP_LD. */
    method DoLoad(k: byte) returns (sig: Signal)
      requires Valid() && count > 0 && Safe(Execute(h, p, Now(), frames[count - 1], Ld(k)))
      modifies this, stack, frames
      ensures Valid() && Tells(sig, Execute(h, p, old(Now()), old(frames[count - 1]), Ld(k)))
    {
      Push(stack[frames[count - 1].slots + k]);
      sig := Going;
    }

    /** OP_ST. */
    method DoStore(k: byte) returns (sig: Signal)
      requires Valid() && count > 0 && Safe(Execute(h, p, Now(), frames[count - 1], St(k)))
      modifies this, stack, frames
      ensures Valid() && Tells(sig, Execute(h, p, old(Now()), old(frames[count - 1]), St(k)))
    {
      var v := Peek(0);
      stack[frames[count - 1].slots + k] := v;
      sig := Going;
    }

    /** OP_JMP. */
    method DoJump(off: Offset) returns (sig: Signal)
      requires Valid() && count > 0 && Safe(Execute(h, p, Now(), frames[count - 1], Jmp(off)))
      modifies this, stack, frames
      ensures Valid() && Tells(sig, Execute(h, p, old(Now()), old(frames[count - 1]), Jmp(off)))
    {
      var f := frames[count - 1];
      frames[count - 1] := f.(ip := f.ip + off);
      sig := Going;
    }

    /** OP_JMPF. */
    method DoJumpIfFalse(off: Offset) returns (sig: Signal)
      requires Valid() && count > 0 && Safe(Execute(h, p, Now(), frames[count - 1], Jmpf(off)))
      modifies this, stack, frames
      ensures Valid() && Tells(sig, Execute(h, p, old(Now()), old(frames[count - 1]), Jmpf(off)))
    {
      var v := Peek(0);
      if Falsey(v) {
        var f := frames[count - 1];
        frames[count - 1] := f.(ip := f.ip + off);
      }
      sig := Going;
    }

    /** `vm_call`, on a callee `argc` values below the top. */
    method CallValue(callee: Value, argc: byte) returns (sig: Signal)
      requires Valid() && top > argc && callee == Machine.Peek(Live(), argc) && Safe(Enter(h, p, Now(), argc))
      modifies this, stack, frames
      ensures Valid() && Tells(sig, Enter(h, p, old(Now()), argc))
    {
      if callee.Fun? {
        sig := PrepareCall(callee.site, argc);
      } else if callee.Cfn? {
        var result := Num(h.call(callee.native, stack[top - argc..top]));
        PopMany(argc + 1);
        Push(result);
        sig := Going;
      } else {
        sig := Stopped(NotCallable);
      }
    }

    /** `prepareCall`. */
    method PrepareCall(site: nat, argc: byte) returns (sig: Signal)
      requires Valid() && top > argc && Machine.Peek(Live(), argc) == Fun(site) && Safe(Enter(h, p, Now(), argc))
      modifies this, frames
      ensures Valid() && Tells(sig, Enter(h, p, old(Now()), argc))
    {
      if argc != p[site].arity { return Stopped(WrongArgumentCount); }
      if count == FRAMES_MAX { return Stopped(StackOverflow); }
      frames[count] := Frame(site, 0, top - argc - 1);
      count := count + 1;
      sig := Going;
    }

    /** OP_CALL. */
    method DoCall(argc: byte) returns (sig: Signal)
      requires Valid() && count > 0 && Safe(Execute(h, p, Now(), frames[count - 1], Call(argc)))
      modifies this, stack, frames
      ensures Valid() && Tells(sig, Execute(h, p, old(Now()), old(frames[count - 1]), Call(argc)))
    {
      var callee := Peek(argc);
      sig := CallValue(callee, argc);
    }

    /** OP_RET. */
    method DoReturn() returns (sig: Signal)
      requires Valid() && count > 0 && Safe(Execute(h, p, Now(), frames[count - 1], Ret))
      modifies this, stack, frames
      ensures Valid() && Tells(sig, Execute(h, p, old(Now()), old(frames[count - 1]), Ret))
    {
      var slots := frames[count - 1].slots;
      var result := Pop();
      count := count - 1;
      if count == 0 {
        var _ := Pop();
        return Finished;
      }
      top := slots;
      Push(result);
      sig := Going;
    }

    /** The loop of OP_MAP: the elements are stored under falling keys. */
    method Elements(n: nat) returns (fields: map<Raw, Value>)
      requires Valid() && n <= top
      ensures fields == FillHash(h, map[], Live()[top - n..])
    {
      fields := map[];
      ghost var vs := Live()[top - n..];
      var i: int := n - 1;
      while i >= 0
        invariant -1 <= i < n
        invariant FillHash(h, map[], vs) == FillHash(h, fields, vs[n - 1 - i..])
      {
        assert stack[top - 1 - i] == vs[n - 1 - i..][0] && vs[n - 1 - i..][1..] == vs[n - i..];
        fields := HashPut(fields, h.ofInt(i), stack[top - 1 - i]);
        i := i - 1;
      }
      assert vs[n..] == [];
    }

    /** OP_MAP. */
    method DoMakeMap(n: byte) returns (sig: Signal)
      requires Valid() && count > 0 && Safe(Execute(h, p, Now(), frames[count - 1], MakeMap(n)))
      modifies this, stack, frames
      ensures Valid() && Tells(sig, Execute(h, p, old(Now()), old(frames[count - 1]), MakeMap(n)))
    {
      hide FillHash, Step;
      var fields := Elements(n);
      heap := heap + [MapObj(map[], fields)];
      PopMany(n);
      Push(Map(|heap| - 1));
      sig := Going;
    }

    /** OP_GET. */
    method DoGet(k: byte) returns (sig: Signal)
      requires Valid() && count > 0 && Safe(Execute(h, p, Now(), frames[count - 1], Get(k)))
      modifies this, stack, frames
      ensures Valid() && Tells(sig, Execute(h, p, old(Now()), old(frames[count - 1]), Get(k)))
    {
      var m := Peek(0);
      if !m.Map? { return Stopped(NotAMap); }
      var value := Lookup(heap[m.ref].table, p[frames[count - 1].fn].consts[k].s);
      var _ := Pop();
      Push(value);
      sig := Going;
    }

    /** OP_SET. */
    method DoSet(k: byte) returns (sig: Signal)
      requires Valid() && count > 0 && Safe(Execute(h, p, Now(), frames[count - 1], Set(k)))
      modifies this, stack, frames
      ensures Valid() && Tells(sig, Execute(h, p, old(Now()), old(frames[count - 1]), Set(k)))
    {
      var m := Peek(1);
      if !m.Map? { return Stopped(NotAMap); }
      var name := p[frames[count - 1].fn].consts[k].s;
      var value := Peek(0);
      heap := heap[m.ref := heap[m.ref].(table := heap[m.ref].table[name := value])];
      ReplaceTwo(value);
      sig := Going;
    }

    /** OP_GETI. */
    method DoGetIndex() returns (sig: Signal)
      requires Valid() && count > 0 && Safe(Execute(h, p, Now(), frames[count - 1], Geti))
      modifies this, stack, frames
      ensures Valid() && Tells(sig, Execute(h, p, old(Now()), old(frames[count - 1]), Geti))
    {
      var m := Peek(1);
      if !m.Map? { return Stopped(NotAMap); }
      var key := Peek(0);
      var value;
      match key {
        case Num(raw) => value := Lookup(heap[m.ref].hash, raw);
        case Str(str) => value := Lookup(heap[m.ref].table, str);
        case _ => return Stopped(BadIndex);
      }
      ReplaceTwo(value);
      sig := Going;
    }

    /** OP_SETI. */
    method DoSetIndex() returns (sig: Signal)
      requires Valid() && count > 0 && Safe(Execute(h, p, Now(), frames[count - 1], Seti))
      modifies this, stack, frames
      ensures Valid() && Tells(sig, Execute(h, p, old(Now()), old(frames[count - 1]), Seti))
    {
      var m := Peek(2);
      if !m.Map? { return Stopped(NotAMap); }
      var key := Peek(1);
      if !key.Num? && !key.Str? { return Stopped(BadIndex); }
      var value := Pop();
      var fields := heap[m.ref];
      match key {
        case Num(raw) => heap := heap[m.ref := fields.(hash := HashPut(fields.hash, raw, value))];
        case Str(str) => heap := heap[m.ref := fields.(table := fields.table[str := value])];
      }
      ReplaceTwo(value);
      sig := Going;
    }

    /** The instruction `i`, whose bytes have been read. */
    method Perform(i: Instr) returns (sig: Signal)
      requires Valid() && count > 0 && Safe(Execute(h, p, Now(), frames[count - 1], i))
      modifies this, stack, frames
      ensures Valid() && Tells(sig, Execute(h, p, old(Now()), old(frames[count - 1]), i))
    {
      hide Execute, Safe, Tells, Now;
      match i
      case Print(n) => sig := DoPrint(n);
      case Pop => sig := DoPop();
      case Call(n) => sig := DoCall(n);
      case Ret => sig := DoReturn();
      case Nil => sig := DoNil();
      case True => sig := DoTrue();
      case False => sig := DoFalse();
      case Const(k) => sig := DoConst(k);
      case Unary(op) => sig := DoUnary(op);
      case Binary(op) => sig := DoBinary(op);
      case Def(k) => sig := DoDefine(k);
      case Gld(k) => sig := DoLoadGlobal(k);
      case Gst(k) => sig := DoStoreGlobal(k);
      case Jmp(off) => sig := DoJump(off);
      case Jmpf(off) => sig := DoJumpIfFalse(off);
      case Ld(k) => sig := DoLoad(k);
      case St(k) => sig := DoStore(k);
      case MakeMap(n) => sig := DoMakeMap(n);
      case Get(k) => sig := DoGet(k);
      case Set(k) => sig := DoSet(k);
      case Geti => sig := DoGetIndex();
      case Seti => sig := DoSetIndex();
    }

    /** One turn of the dispatch loop: read the instruction at `ip`, move past it, perform it. */
    method Dispatch() returns (sig: Signal)
      requires Valid() && Safe(Step(h, p, Now()))
      modifies this, stack, frames
      ensures Valid() && Tells(sig, Step(h, p, old(Now())))
    {
      hide Execute;
      var f := frames[count - 1];
      var i := Decode(p[f.fn].code, f.ip).value;
      ghost var s := Now();
      frames[count - 1] := f.(ip := f.ip + Size(i));
      assert Now() == s.(frames := s.frames[..|s.frames| - 1] + [f.(ip := f.ip + Size(i))]);
      sig := Perform(i);
    }

    /** How a run that stopped with `sig` ended. */
    ghost function Ended(sig: Signal): Final
      requires Valid() && !sig.Going?
      reads this, stack
    {
      if sig.Finished? then Halted(Live(), Kept()) else Failed(sig.error, Kept())
    }

    /**
     `vm_execute`: for typed code no deeper than 256 values per function, the unchecked
     machine stays within its arrays and ends as the step function says.
     */
    method Loop(ghost Ds: seq<Depths>) returns (sig: Signal)
      requires Valid() && WellTyped(p, Ds) && Bounded(Ds, UINT8_COUNT)
      requires Inv(p, Ds, Now()) && frames[0].slots == 0
      modifies this, stack, frames
      ensures Valid() && !sig.Going? && Run(h, p, old(Now())) == Ended(sig)
    {
      hide Machine.Execute, WellTyped, Bounded, Inv, Measure;
      ghost var start := Now();
      sig := Going;
      Programs.TypedLength(p, Ds);
      FramesPositive(p, Ds, Now());
      while sig.Going?
        invariant Valid()
        invariant sig.Going? ==> Inv(p, Ds, Now()) && count > 0 && frames[0].slots == 0 && Run(h, p, start) == Run(h, p, Now())
        invariant !sig.Going? ==> Run(h, p, start) == Ended(sig)
        decreases sig.Going?, if sig.Going? then Measure(p, Frames(), FRAMES_MAX) else 0
      {
        ghost var s := Now();
        StepKeeps(h, p, Ds, s);
        if Step(h, p, s).Next? {
          StepDecreases(h, p, s);
          Programs.BottomStays(h, p, Ds, s);
          StackBound(p, Ds, Step(h, p, s).state);
        }
        sig := Dispatch();
      }
    }
  }
}
