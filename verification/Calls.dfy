/**
 What stretches of a run do, step by step. Calls are frame-safe: until a callee returns, nothing
 below its slot 0 changes, and its return puts one value in place of itself and its arguments.
 Indexing a map literal finds its elements from the last to the first.
 */
module Calls {
  import opened Values
  import opened Bytecode
  import opened Machine
  import opened Verifier
  import opened Programs

  /** What an instruction leaves alone: everything below slot 0 of the running frame, and the frames below. */
  predicate KeepsBelow(s: State, t: State) {
    |s.frames| > 0 &&
    var n, b := |s.frames|, Top(s).slots;
    b < |s.stack| && b < |t.stack| && t.stack[..b] == s.stack[..b]
    && if |t.frames| < n then t.frames == s.frames[..n - 1] && |t.stack| == b + 1
       else
         t.frames[..n - 1] == s.frames[..n - 1] && t.frames[n - 1].slots == b && |t.frames| <= n + 1
         && (|t.frames| == n + 1 ==> t.frames[n].slots >= b)
  }

  lemma ExecuteKeepsBelow(h: Host, p: Program, s: State, f: Frame, i: Instr)
    requires |s.frames| > 0 && Top(s) == f && Execute(h, p, s, f, i).Next?
    ensures KeepsBelow(s, Execute(h, p, s, f, i).state)
  {
    hide ApplyUnary, ApplyBinary, FillHash, ConstName, PutString, PutNumber, Lookup, SetGlobal;
  }

  lemma StepKeepsBelow(h: Host, p: Program, s: State)
    requires Step(h, p, s).Next?
    ensures KeepsBelow(s, Step(h, p, s).state)
  {
    hide Execute, Decode;
    var f := Top(s);
    var i := Decode(Code(p, f), f.ip).value;
    var f' := f.(ip := f.ip + Size(i));
    var s' := s.(frames := s.frames[..|s.frames| - 1] + [f']);
    ExecuteKeepsBelow(h, p, s', f', i);
    assert s'.frames[..|s.frames| - 1] == s.frames[..|s.frames| - 1];
  }

  /** A callee, or something it called, is running on top of the frames `fs` and the values `vs`. */
  predicate Above(s: State, fs: seq<Frame>, vs: seq<Value>) {
    |s.frames| > |fs| && s.frames[..|fs|] == fs && s.frames[|fs|].slots == |vs|
    && |vs| < |s.stack| && s.stack[..|vs|] == vs
    && forall i :: |fs| <= i < |s.frames| ==> s.frames[i].slots >= |vs|
  }

  /** The callee has returned one value. */
  predicate Returned(s: State, fs: seq<Frame>, vs: seq<Value>) {
    s.frames == fs && |s.stack| == |vs| + 1 && s.stack[..|vs|] == vs
  }

  lemma StepAbove(h: Host, p: Program, s: State, fs: seq<Frame>, vs: seq<Value>)
    requires Above(s, fs, vs) && Step(h, p, s).Next?
    ensures var t := Step(h, p, s).state; Above(t, fs, vs) || Returned(t, fs, vs)
  {
    StepKeepsBelow(h, p, s);
    hide Step;
    var t := Step(h, p, s).state;
    if |t.frames| < |s.frames| { ReturnAbove(s, t, fs, vs); } else { StayAbove(s, t, fs, vs); }
  }

  lemma ReturnAbove(s: State, t: State, fs: seq<Frame>, vs: seq<Value>)
    requires Above(s, fs, vs) && KeepsBelow(s, t) && |t.frames| < |s.frames|
    ensures Above(t, fs, vs) || Returned(t, fs, vs)
  {
    var n, d, b := |s.frames|, |fs|, Top(s).slots;
    assert t.stack[..|vs|] == t.stack[..b][..|vs|] && s.stack[..|vs|] == s.stack[..b][..|vs|];
    assert s.frames[..n - 1][..d] == s.frames[..d];
    forall i | d <= i < |t.frames| ensures t.frames[i].slots >= |vs| { assert t.frames[i] == s.frames[i]; }
    if n - 1 > d { assert s.frames[..n - 1][d] == s.frames[d]; }
  }

  lemma StayAbove(s: State, t: State, fs: seq<Frame>, vs: seq<Value>)
    requires Above(s, fs, vs) && KeepsBelow(s, t) && |t.frames| >= |s.frames|
    ensures Above(t, fs, vs)
  {
    var n, d, b := |s.frames|, |fs|, Top(s).slots;
    assert t.stack[..|vs|] == t.stack[..b][..|vs|] && s.stack[..|vs|] == s.stack[..b][..|vs|];
    assert t.frames[..n - 1][..d] == t.frames[..d] && s.frames[..n - 1][..d] == s.frames[..d];
    forall i | d <= i < n - 1 ensures t.frames[i] == s.frames[i] { assert t.frames[..n - 1][i] == s.frames[..n - 1][i]; }
  }

  lemma OnlyTheScriptHalts(h: Host, p: Program, s: State)
    requires |s.frames| > 1
    ensures !Step(h, p, s).Halt?
  {
    hide ApplyUnary, ApplyBinary, FillHash, ConstName, PutString, PutNumber, Lookup, SetGlobal, Decode;
  }

  /** From inside a call, after some number of steps, there is an error or the call has returned. */
  lemma {:induction false} CallReturns(h: Host, p: Program, Ds: seq<Depths>, s: State, fs: seq<Frame>, vs: seq<Value>) returns (k: nat)
    requires WellTyped(p, Ds) && Inv(p, Ds, s) && Above(s, fs, vs) && fs != []
    ensures
      var o := Steps(h, p, s, k);
      o.Fail? || (o.Next? && Returned(o.state, fs, vs))
    ensures forall j :: 0 <= j < k ==> Steps(h, p, s, j).Next? && Above(Steps(h, p, s, j).state, fs, vs)
    decreases Measure(p, s.frames, FRAMES_MAX)
  {
    hide Step, WellTyped, Inv, Above, Returned, Measure;
    StepKeeps(h, p, Ds, s);
    AboveTwo(s, fs, vs);
    OnlyTheScriptHalts(h, p, s);
    if Step(h, p, s).Next? {
      var t := Step(h, p, s).state;
      StepAbove(h, p, s, fs, vs);
      if Returned(t, fs, vs) {
        k := 1;
        assert Steps(h, p, t, 0) == Next(t);
      } else {
        StepDecreases(h, p, s);
        var k' := CallReturns(h, p, Ds, t, fs, vs);
        k := k' + 1;
        forall j | 0 <= j < k ensures Steps(h, p, s, j).Next? && Above(Steps(h, p, s, j).state, fs, vs) {
          if j > 0 { assert Steps(h, p, s, j) == Steps(h, p, t, j - 1); }
        }
      }
    } else {
      k := 1;
    }
  }

  lemma AboveTwo(s: State, fs: seq<Frame>, vs: seq<Value>)
    requires Above(s, fs, vs) && fs != []
    ensures |s.frames| > 1
  {
  }

  /**
   Frame safety. In a typed program, calling a function with the arguments it expects either
   ends in an error or, after some number of steps, has replaced the function and its
   arguments by one value, the caller standing right after the call; and until then every
   state keeps the caller, every frame below it and every value below the function.
   */
  lemma CallIsFrameSafe(h: Host, p: Program, Ds: seq<Depths>, s: State, argc: byte, site: nat) returns (k: nat)
    requires WellTyped(p, Ds) && Inv(p, Ds, s) && |s.frames| < FRAMES_MAX
    requires Decode(Code(p, Top(s)), Top(s).ip) == Some(Call(argc)) && argc < |s.stack| && Peek(s.stack, argc) == Fun(site)
    requires site < |p| && p[site].arity == argc
    ensures
      var fs := s.frames[..|s.frames| - 1] + [Top(s).(ip := Top(s).ip + 2)];
      var vs := s.stack[..|s.stack| - argc - 1];
      var o := Steps(h, p, s, k);
      (o.Fail? || (o.Next? && Returned(o.state, fs, vs)))
      && forall j :: 0 < j < k ==> Steps(h, p, s, j).Next? && Above(Steps(h, p, s, j).state, fs, vs)
  {
    hide Step, Execute, Decode, Code, WellTyped, Inv, Above, Returned, Steps;
    StepSafe(h, p, Ds, s);
    var fs, vs := s.frames[..|s.frames| - 1] + [Top(s).(ip := Top(s).ip + 2)], s.stack[..|s.stack| - argc - 1];
    Enters(h, p, s, argc, site);
    var t := Step(h, p, s).state;
    var k' := CallReturns(h, p, Ds, t, fs, vs);
    k := k' + 1;
    FirstStep(h, p, s, t, k);
    forall j | 0 < j < k ensures Steps(h, p, s, j).Next? && Above(Steps(h, p, s, j).state, fs, vs) { FirstStep(h, p, s, t, j); }
  }

  lemma StepSafe(h: Host, p: Program, Ds: seq<Depths>, s: State)
    requires WellTyped(p, Ds) && Inv(p, Ds, s)
    ensures |Ds| == |p| && 0 < |s.frames| <= FRAMES_MAX && !Step(h, p, s).Crash?
    ensures Step(h, p, s).Next? ==> Inv(p, Ds, Step(h, p, s).state)
  {
    TypedLength(p, Ds);
    FramesPositive(p, Ds, s);
    StepKeeps(h, p, Ds, s);
    hide Step, Inv, WellTyped;
  }

  lemma FirstStep(h: Host, p: Program, s: State, t: State, j: nat)
    requires j > 0 && Step(h, p, s) == Next(t)
    ensures Steps(h, p, s, j) == Steps(h, p, t, j - 1)
  {
    hide Step;
  }

  lemma Enters(h: Host, p: Program, s: State, argc: byte, site: nat)
    requires 0 < |s.frames| < FRAMES_MAX && !Step(h, p, s).Crash?
    requires Decode(Code(p, Top(s)), Top(s).ip) == Some(Call(argc)) && argc < |s.stack| && Peek(s.stack, argc) == Fun(site)
    requires site < |p| && p[site].arity == argc
    ensures
      var fs := s.frames[..|s.frames| - 1] + [Top(s).(ip := Top(s).ip + 2)];
      var vs := s.stack[..|s.stack| - argc - 1];
      Step(h, p, s) == Next(s.(frames := fs + [Frame(site, 0, |vs|)])) && Above(Step(h, p, s).state, fs, vs)
  {
    hide Decode;
    var fs := s.frames[..|s.frames| - 1] + [Top(s).(ip := Top(s).ip + 2)];
    var t := fs + [Frame(site, 0, |s.stack| - argc - 1)];
    assert t[..|fs|] == fs;
  }

  /** One step whose instruction goes on in its own frame. */
  lemma Stepped(h: Host, p: Program, s: State, f: Frame, i: Instr)
    requires 0 < |s.frames| <= FRAMES_MAX && Top(s) == f && Decode(Code(p, f), f.ip) == Some(i)
    ensures
      var f' := f.(ip := f.ip + Size(i));
      Step(h, p, s) == Execute(h, p, s.(frames := s.frames[..|s.frames| - 1] + [f']), f', i)
  {
    hide Decode, Execute;
  }

  /** The frames of `s` with the running one at `ip`. */
  function MovedTo(s: State, ip: nat): seq<Frame>
    requires |s.frames| > 0
  {
    s.frames[..|s.frames| - 1] + [Top(s).(ip := ip)]
  }

  /**
   OP_MAP on `n` values, then OP_GETI at the number `key`: literal element `n - 1 - key`, or
   null outside the literal. The numbers below `n` and `key` must be different doubles.
   */
  lemma LiteralIndexed(h: Host, p: Program, s: State, n: byte, c: byte, key: int)
    requires 0 < |s.frames| <= FRAMES_MAX && Top(s).fn < |p| && Top(s).slots + n < |s.stack|
    requires
      var code, ip := p[Top(s).fn].code, Top(s).ip;
      Decode(code, ip) == Some(MakeMap(n)) && Decode(code, ip + 2) == Some(Const(c)) && Decode(code, ip + 4) == Some(Geti)
    requires c < |p[Top(s).fn].consts| && p[Top(s).fn].consts[c] == Num(h.ofInt(key))
    requires forall i, j :: 0 <= i < j < n ==> h.ofInt(i) != h.ofInt(j)
    requires forall i :: 0 <= i < n ==> h.ofInt(i) != UNUSED_INDEX && (i == key || h.ofInt(i) != h.ofInt(key))
    ensures
      var vs := s.stack[|s.stack| - n..];
      var v := if 0 <= key < n then vs[n - 1 - key] else Null;
      var st := s.store.(heap := s.store.heap + [MapObj(map[], FillHash(h, map[], vs))]);
      Steps(h, p, s, 3) == Next(State(s.stack[..|s.stack| - n] + [v], MovedTo(s, Top(s).ip + 5), st))
  {
    hide Decode, FillHash, Step;
    var f, vs := Top(s), s.stack[|s.stack| - n..];
    var filled := FillHash(h, map[], vs);
    var st := s.store.(heap := s.store.heap + [MapObj(map[], filled)]);
    var low, m := s.stack[..|s.stack| - n], Map(|s.store.heap|);
    var s1 := State(low + [m], MovedTo(s, f.ip + 2), st);
    var s2 := State(low + [m] + [Num(h.ofInt(key))], MovedTo(s, f.ip + 4), st);
    Stepped(h, p, s, f, MakeMap(n));
    Stepped(h, p, s1, Top(s1), Const(c));
    Stepped(h, p, s2, Top(s2), Geti);
    assert MovedTo(s, f.ip + 2)[..|s.frames| - 1] == s.frames[..|s.frames| - 1];
    assert MovedTo(s, f.ip + 4)[..|s.frames| - 1] == s.frames[..|s.frames| - 1];
    assert Step(h, p, s) == Next(s1);
    assert Step(h, p, s1) == Next(s2);
    var v := Lookup(filled, h.ofInt(key));
    assert v == if 0 <= key < n then vs[n - 1 - key] else Null by {
      if 0 <= key < n { FillHashAt(h, map[], vs, key); } else { FillHashKeeps(h, map[], vs, h.ofInt(key)); }
    }
    assert DropTop(s2.stack, 2) == low;
    var s3 := State(low + [v], MovedTo(s, f.ip + 5), st);
    assert Step(h, p, s2) == Next(s3);
    FirstStep(h, p, s, s1, 3);
    FirstStep(h, p, s1, s2, 2);
    FirstStep(h, p, s2, s3, 1);
  }
}
