/**
 A direct evaluator for the abstract syntax: variables are found by name, and
 there is no stack, no bytecode and no jump. It is total, since calls nest at
 most `FRAMES_MAX` deep and the language has no loops.
 */
module Evaluator {
  import opened Values
  import opened Syntax
  import Machine

  type Store = Machine.Store

  datatype Binding = Binding(name: Ident, value: Value)

  /** The local variables in scope, innermost last. */
  type Env = seq<Binding>

  /** The same variables, perhaps with other values. */
  predicate SameNames(env: Env, env': Env) {
    |env'| == |env| && forall i :: 0 <= i < |env| ==> env'[i].name == env[i].name
  }

  /** The functions of a program, by site. */
  type World = seq<Decl>

  /**
   What evaluating a phrase comes to. `Wrong` is a use of a reference that
   nothing is allocated under.
   */
  datatype Result<+T> =
    | Ok(value: T, env: Env, store: Store)
    | Err(error: Machine.Error, at: Store)
    | Wrong
  {
    predicate IsFailure() {
      !Ok?
    }

    function PropagateFailure<U>(): Result<U>
      requires !Ok?
    {
      match this
      case Err(e, st) => Err(e, st)
      case _ => Wrong
    }

    function Extract(): (T, Env, Store)
      requires Ok?
    {
      (value, env, store)
    }
  }

  /** How a statement ends. */
  datatype Flow = Onward | Returned(value: Value)

  /** The innermost variable of that name, or -1. */
  function Find(env: Env, name: string): (i: int)
    ensures -1 <= i < |env|
  {
    if env == [] then -1
    else if env[|env| - 1].name == name then |env| - 1
    else Find(env[..|env| - 1], name)
  }

  /** Operators of the source language; `>` and `>=` negate their opposites. */
  function InfixValue(h: Host, op: InfixOp, x: Value, y: Value): Option<Value> {
    match op
    case EqualEqual => ApplyBinary(h, Eq, x, y)
    case BangEqual => Negated(ApplyBinary(h, Eq, x, y))
    case Less => ApplyBinary(h, Lt, x, y)
    case LessEqual => ApplyBinary(h, Le, x, y)
    case Greater => Negated(ApplyBinary(h, Le, x, y))
    case GreaterEqual => Negated(ApplyBinary(h, Lt, x, y))
    case Plus => ApplyBinary(h, Add, x, y)
    case Minus => ApplyBinary(h, Sub, x, y)
    case Star => ApplyBinary(h, Mul, x, y)
    case Slash => ApplyBinary(h, Div, x, y)
  }

  function Negated(v: Option<Value>): Option<Value> {
    match v
    case Some(x) => Some(Bool(Falsey(x)))
    case None => None
  }

  function PrefixValue(h: Host, op: PrefixOp, x: Value): Option<Value> {
    ApplyUnary(h, if op == Dash then Neg else Not, x)
  }

  function MemberOf(st: Store, m: Value, key: string, env: Env): Result<Value> {
    if !m.Map? then Err(Machine.NotAMap, st)
    else if m.ref >= |st.heap| then Wrong
    else Ok(Lookup(st.heap[m.ref].table, key), env, st)
  }

  function ElementOf(st: Store, m: Value, key: Value, env: Env): Result<Value> {
    if !m.Map? then Err(Machine.NotAMap, st)
    else if m.ref >= |st.heap| then Wrong
    else
      match key
      case Num(raw) => Ok(Lookup(st.heap[m.ref].hash, raw), env, st)
      case Str(s) => Ok(Lookup(st.heap[m.ref].table, s), env, st)
      case _ => Err(Machine.BadIndex, st)
  }

  function StoreMember(st: Store, m: Value, key: string, v: Value, env: Env): Result<Value> {
    if !m.Map? then Err(Machine.NotAMap, st)
    else if m.ref >= |st.heap| then Wrong
    else Ok(v, env, Machine.PutString(st, m.ref, key, v))
  }

  function StoreElement(st: Store, m: Value, key: Value, v: Value, env: Env): Result<Value> {
    if !m.Map? then Err(Machine.NotAMap, st)
    else if m.ref >= |st.heap| then Wrong
    else
      match key
      case Num(raw) => Ok(v, env, Machine.PutNumber(st, m.ref, raw, v))
      case Str(s) => Ok(v, env, Machine.PutString(st, m.ref, s, v))
      case _ => Err(Machine.BadIndex, st)
  }

  function Bind(params: seq<Ident>, args: seq<Value>): (env: Env)
    requires |params| == |args|
    ensures |env| == |params|
  {
    seq(|params|, i requires 0 <= i < |params| => Binding(params[i], args[i]))
  }

  function Lift(v: Option<Value>, env: Env, st: Store): Result<Value> {
    match v
    case Some(x) => Ok(x, env, st)
    case None => Err(Machine.BadOperands, st)
  }

  /** Reads a variable: the innermost local of that name, else the global. */
  function Read(h: Host, id: Ident, env: Env, st: Store): Result<Value> {
    var i := Find(env, id);
    if i >= 0 then Ok(env[i].value, env, st)
    else if Key(h, id) in st.globals then Ok(st.globals[Key(h, id)], env, st)
    else Err(Machine.Undefined(Key(h, id)), st)
  }

  /** Assigns to a variable, which must exist. */
  function Write(h: Host, id: Ident, v: Value, env: Env, st: Store): Result<Value> {
    var i := Find(env, id);
    if i >= 0 then Ok(v, env[i := Binding(env[i].name, v)], st)
    else if Key(h, id) in st.globals then Ok(v, env, Machine.SetGlobal(st, Key(h, id), v))
    else Err(Machine.Undefined(Key(h, id)), st)
  }

  function Allocate(h: Host, vs: seq<Value>, env: Env, st: Store): Result<Value> {
    Ok(Map(|st.heap|), env, st.(heap := st.heap + [MapObj(map[], FillHash(h, map[], vs))]))
  }

  /** What a call comes to once the callee's body, if it ran, has ended so. */
  function ReturnValue(r: Result<Flow>, env: Env): Result<Value> {
    match r
    case Ok(Onward, _, st) => Ok(Null, env, st)
    case Ok(Returned(v), _, st) => Ok(v, env, st)
    case Err(e, st) => Err(e, st)
    case Wrong => Wrong
  }

  /** `height` is the number of calls under way, the running one included. */
  function Eval(h: Host, w: World, e: Expr, self: Value, env: Env, st: Store, height: nat)
    : (r: Result<Value>)
    requires height <= FRAMES_MAX
    ensures r.Ok? ==> SameNames(env, r.env)
    decreases FRAMES_MAX - height, e, 1
  {
    match e
    case NumLit(n) => Ok(Num(n), env, st)
    case StrLit(s) => Ok(Str(h.intern(s)), env, st)
    case NullLit => Ok(Null, env, st)
    case TrueLit => Ok(Bool(true), env, st)
    case FalseLit => Ok(Bool(false), env, st)
    case SelfLit => Ok(self, env, st)
    case Name(id) => Read(h, id, env, st)
    case Assign(id, value) =>
      var (v, env, st) :- Eval(h, w, value, self, env, st, height);
      Write(h, id, v, env, st)
    case Member(obj, id) =>
      var (m, env, st) :- Eval(h, w, obj, self, env, st, height);
      MemberOf(st, m, Key(h, id), env)
    case SetMember(obj, id, value) =>
      var (m, env, st) :- Eval(h, w, obj, self, env, st, height);
      var (v, env, st) :- Eval(h, w, value, self, env, st, height);
      StoreMember(st, m, Key(h, id), v, env)
    case Index(obj, key) =>
      var (m, env, st) :- Eval(h, w, obj, self, env, st, height);
      var (k, env, st) :- Eval(h, w, key, self, env, st, height);
      ElementOf(st, m, k, env)
    case SetIndex(obj, key, value) =>
      var (m, env, st) :- Eval(h, w, obj, self, env, st, height);
      var (k, env, st) :- Eval(h, w, key, self, env, st, height);
      var (v, env, st) :- Eval(h, w, value, self, env, st, height);
      StoreElement(st, m, k, v, env)
    case Prefix(op, operand) =>
      var (x, env, st) :- Eval(h, w, operand, self, env, st, height);
      Lift(PrefixValue(h, op, x), env, st)
    case Infix(op, left, right) =>
      var (x, env, st) :- Eval(h, w, left, self, env, st, height);
      var (y, env, st) :- Eval(h, w, right, self, env, st, height);
      Lift(InfixValue(h, op, x, y), env, st)
    case And(left, right) =>
      var (x, env, st) :- Eval(h, w, left, self, env, st, height);
      if Falsey(x) then Ok(x, env, st) else Eval(h, w, right, self, env, st, height)
    case Or(left, right) =>
      var (x, env, st) :- Eval(h, w, left, self, env, st, height);
      if Falsey(x) then Eval(h, w, right, self, env, st, height) else Ok(x, env, st)
    case Invoke(callee, args) =>
      var (f, env, st) :- Eval(h, w, callee, self, env, st, height);
      var (vs, env, st) :- EvalAll(h, w, args, self, env, st, height);
      (match f
       case Fun(site) =>
         if site >= |w| then Wrong
         else if |w[site].params| != |vs| then Err(Machine.WrongArgumentCount, st)
         else if height == FRAMES_MAX then Err(Machine.StackOverflow, st)
         else
           ReturnValue(EvalBlock(h, w, w[site].body, w[site].script, f, Bind(w[site].params, vs), st, height + 1), env)
       case Cfn(native) => Ok(Num(h.call(native, vs)), env, st)
       case _ => Err(Machine.NotCallable, st))
    case MapLit(elems) =>
      var (vs, env, st) :- EvalAll(h, w, elems, self, env, st, height);
      Allocate(h, vs, env, st)
    case Group(inner) => Eval(h, w, inner, self, env, st, height)
  }

  function EvalAll(h: Host, w: World, es: seq<Expr>, self: Value, env: Env, st: Store, height: nat)
    : (r: Result<seq<Value>>)
    requires height <= FRAMES_MAX
    ensures r.Ok? ==> |r.value| == |es| && SameNames(env, r.env)
    decreases FRAMES_MAX - height, es, 0
  {
    if es == [] then Ok([], env, st)
    else
      var (v, env, st) :- Eval(h, w, es[0], self, env, st, height);
      var (vs, env, st) :- EvalAll(h, w, es[1..], self, env, st, height);
      Ok([v] + vs, env, st)
  }

  /** Defines the globals of one declaration in order. */
  function EvalItems(h: Host, w: World, items: seq<Init>, self: Value, env: Env, st: Store, height: nat)
    : (r: Result<Flow>)
    requires height <= FRAMES_MAX
    ensures r.Ok? ==> SameNames(env, r.env)
    decreases FRAMES_MAX - height, items, 0
  {
    if items == [] then Ok(Onward, env, st)
    else
      var (v, env, st) :- Eval(h, w, items[0].value, self, env, st, height);
      EvalItems(h, w, items[1..], self, env, Machine.SetGlobal(st, Key(h, items[0].name), v), height)
  }

  /** Introduces a variable: a global at the top level of the script, otherwise a local. */
  function Declare(h: Host, top: bool, name: Ident, v: Value, env: Env, st: Store): Result<Flow> {
    if top then Ok(Onward, env, Machine.SetGlobal(st, Key(h, name), v))
    else Ok(Onward, env + [Binding(name, v)], st)
  }

  function Evaluate(h: Host, w: World, s: Stmt, top: bool, self: Value, env: Env, st: Store, height: nat)
    : (r: Result<Flow>)
    requires height <= FRAMES_MAX
    ensures r.Ok? ==> |r.env| >= |env| && SameNames(env, r.env[..|env|])
    decreases FRAMES_MAX - height, s, 1
  {
    match s
    case ExprStmt(e) =>
      var (_, env, st) :- Eval(h, w, e, self, env, st, height);
      Ok(Onward, env, st)
    case PrintStmt(es) =>
      var (vs, env, st) :- EvalAll(h, w, es, self, env, st, height);
      Ok(Onward, env, st.(out := st.out + [vs]))
    case If(cond, thn, els) =>
      var (c, env, st) :- Eval(h, w, cond, self, env, st, height);
      if Falsey(c) then Evaluate(h, w, els, top, self, env, st, height)
      else Evaluate(h, w, thn, top, self, env, st, height)
    case Return(e) =>
      var (v, env, st) :- Eval(h, w, e, self, env, st, height);
      Ok(Returned(v), env, st)
    case ReturnNull => Ok(Returned(Null), env, st)
    case Block(body) =>
      var (flow, env', st) :- EvalBlock(h, w, body, false, self, env, st, height);
      Ok(flow, env'[..|env|], st)
    case Var(name, init) =>
      var (v, env, st) :- Eval(h, w, init, self, env, st, height);
      Declare(h, top, name, v, env, st)
    case Globals(items) => EvalItems(h, w, items, self, env, st, height)
    case FunDecl(name, site, _, _) => Declare(h, top, name, Fun(site), env, st)
  }

  function EvalBlock(h: Host, w: World, ss: seq<Stmt>, top: bool, self: Value, env: Env, st: Store, height: nat)
    : (r: Result<Flow>)
    requires height <= FRAMES_MAX
    ensures r.Ok? ==> |r.env| >= |env| && SameNames(env, r.env[..|env|])
    decreases FRAMES_MAX - height, ss, 0
  {
    if ss == [] then Ok(Onward, env, st)
    else
      var (flow, env, st) :- Evaluate(h, w, ss[0], top, self, env, st, height);
      if flow.Returned? then Ok(flow, env, st)
      else EvalBlock(h, w, ss[1..], top, self, env, st, height)
  }

  /** Runs the function at `site` without arguments, as the script is run. */
  function EvalScript(h: Host, w: World, site: nat, st: Store): Result<Value>
    requires site < |w|
  {
    ReturnValue(EvalBlock(h, w, w[site].body, w[site].script, Fun(site), [], st, 1), [])
  }
}
