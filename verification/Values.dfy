/**
 Runtime values and the operations the virtual machine performs on them.

 A number is the 64-bit pattern of a C double. Arithmetic on patterns is left to
 a `Host`, so every theorem holds for whatever floating-point unit runs the code.
 */
module Values {
  type byte = x: int | 0 <= x < 0x100

  /** The raw bits of a value's payload. */
  type Raw = x: int | 0 <= x < 0x1_0000_0000_0000_0000

  /** Patterns with a clear sign bit: what `strtod` makes of an unsigned literal. */
  type Literal = x: Raw | x < 0x8000_0000_0000_0000

  /** The key that marks an unused slot of the number-keyed hash. */
  const UNUSED_INDEX: Raw := 0xFFFF_FFFF_FFFF_FFFF

  const FRAMES_MAX: nat := 64
  const UINT8_COUNT: nat := 256
  const STACK_MAX: nat := FRAMES_MAX * UINT8_COUNT

  datatype Option<+T> = None | Some(value: T) {
    predicate IsFailure() {
      None?
    }

    function PropagateFailure<U>(): Option<U>
      requires None?
    {
      None
    }

    function Extract(): T
      requires Some?
    {
      value
    }
  }

  /** A string value is the content of the object it was interned to. A function or a map is a reference. */
  datatype Value =
    | Null
    | Bool(b: bool)
    | Num(raw: Raw)
    | Str(s: string)
    | Fun(site: nat)
    | Map(ref: nat)
    | Cfn(native: nat)

  /**
   The double arithmetic, the string table and the native functions of the machine the program
   runs on. `intern` gives the content of the string object that stands for some characters,
   `number` is `strtod` on an unsigned literal.
   */
  datatype Host = Host(
    add: (Raw, Raw) -> Raw,
    sub: (Raw, Raw) -> Raw,
    mul: (Raw, Raw) -> Raw,
    div: (Raw, Raw) -> Raw,
    neg: Raw -> Raw,
    lt: (Raw, Raw) -> bool,
    le: (Raw, Raw) -> bool,
    eq: (Raw, Raw) -> bool,
    ofInt: int -> Raw,
    call: (nat, seq<Value>) -> Raw,
    intern: string -> string,
    number: string -> Literal)
  {
    /** Distinct patterns without a sign bit are distinct doubles. */
    ghost predicate Sound() {
      forall a: Literal, b: Literal :: eq(a, b) ==> a == b
    }

    /** The same machine, with every string an object of its own. */
    function Plain(): Host {
      this.(intern := (s: string) => s)
    }
  }

  datatype UnaryOp = Not | Neg
  datatype BinaryOp = Eq | Lt | Le | Add | Sub | Mul | Div

  function BoolToInt(b: bool): int {
    if b then 1 else 0
  }

  /** `IS_FALSEY`: a value is false when its raw payload is zero. */
  predicate Falsey(v: Value) {
    match v
    case Null => true
    case Bool(b) => !b
    case Num(raw) => raw == 0
    case _ => false
  }

  /** `val_equal`: only booleans and numbers are coerced. */
  predicate ValEqual(h: Host, x: Value, y: Value) {
    match (x, y)
    case (Num(a), Num(b)) => h.eq(a, b)
    case (Bool(a), Num(b)) => h.eq(h.ofInt(BoolToInt(a)), b)
    case (Num(a), Bool(b)) => h.eq(a, h.ofInt(BoolToInt(b)))
    case _ => x == y
  }

  /** A number, or a boolean taken as a number. */
  function Operand(h: Host, v: Value): Option<Raw> {
    match v
    case Num(raw) => Some(raw)
    case Bool(b) => Some(h.ofInt(BoolToInt(b)))
    case _ => None
  }

  function ApplyUnary(h: Host, op: UnaryOp, v: Value): Option<Value> {
    match op
    case Not => Some(Bool(Falsey(v)))
    case Neg =>
      match v
      case Bool(b) => Some(Num(h.ofInt(-BoolToInt(b))))
      case Num(raw) => Some(Num(h.neg(raw)))
      case _ => None
  }

  /** Two booleans are combined as integers, except by division. */
  function OnBools(h: Host, op: BinaryOp, a: int, b: int): Value {
    match op
    case Lt => Bool(a < b)
    case Le => Bool(a <= b)
    case Add => Num(h.ofInt(a + b))
    case Sub => Num(h.ofInt(a - b))
    case Mul => Num(h.ofInt(a * b))
    case Div => Num(h.div(h.ofInt(a), h.ofInt(b)))
    case Eq => Bool(a == b)
  }

  function OnNumbers(h: Host, op: BinaryOp, a: Raw, b: Raw): Value {
    match op
    case Lt => Bool(h.lt(a, b))
    case Le => Bool(h.le(a, b))
    case Add => Num(h.add(a, b))
    case Sub => Num(h.sub(a, b))
    case Mul => Num(h.mul(a, b))
    case Div => Num(h.div(a, b))
    case Eq => Bool(h.eq(a, b))
  }

  /** The value of `x op y`, or `None` where the machine reports bad operands. */
  function ApplyBinary(h: Host, op: BinaryOp, x: Value, y: Value): Option<Value> {
    if op == Eq then Some(Bool(ValEqual(h, x, y)))
    else
      match (x, y)
      case (Bool(a), Bool(b)) => Some(OnBools(h, op, BoolToInt(a), BoolToInt(b)))
      case (Str(a), Str(b)) => if op == Add then Some(Str(h.intern(a + b))) else None
      case _ =>
        match (Operand(h, x), Operand(h, y))
        case (Some(a), Some(b)) => Some(OnNumbers(h, op, a, b))
        case _ => None
  }

  /** The contents of a map object: string keys and number keys are kept apart. */
  datatype MapObj = MapObj(table: map<string, Value>, hash: map<Raw, Value>)

  function Lookup<K(==)>(m: map<K, Value>, k: K): Value {
    if k in m then m[k] else Null
  }

  /** `hash_set` as a map operation: a store under the unused-slot key is lost. */
  function HashPut<V>(m: map<Raw, V>, k: Raw, v: V): map<Raw, V> {
    if k == UNUSED_INDEX then m else m[k := v]
  }

  /** OP_MAP stores the elements in order under falling keys, the last one under key 0. */
  function FillHash(h: Host, m: map<Raw, Value>, vs: seq<Value>): map<Raw, Value>
    decreases |vs|
  {
    if vs == [] then m else FillHash(h, HashPut(m, h.ofInt(|vs| - 1), vs[0]), vs[1..])
  }

  /** Where the integers below `n` are distinct numbers, element `n-1-k` is found under key `k`. */
  lemma {:induction false} FillHashAt(h: Host, m: map<Raw, Value>, vs: seq<Value>, k: nat)
    requires forall i, j :: 0 <= i < j < |vs| ==> h.ofInt(i) != h.ofInt(j)
    requires forall i :: 0 <= i < |vs| ==> h.ofInt(i) != UNUSED_INDEX
    requires k < |vs|
    ensures Lookup(FillHash(h, m, vs), h.ofInt(k)) == vs[|vs| - 1 - k]
    decreases |vs|
  {
    var m' := HashPut(m, h.ofInt(|vs| - 1), vs[0]);
    if k == |vs| - 1 {
      FillHashKeeps(h, m', vs[1..], h.ofInt(k));
    } else {
      FillHashAt(h, m', vs[1..], k);
    }
  }

  /** A key that is none of the literal's indices keeps what it had. */
  lemma {:induction false} FillHashKeeps(h: Host, m: map<Raw, Value>, vs: seq<Value>, key: Raw)
    requires forall i :: 0 <= i < |vs| ==> h.ofInt(i) != key
    ensures Lookup(FillHash(h, m, vs), key) == Lookup(m, key)
    decreases |vs|
  {
    if vs != [] {
      FillHashKeeps(h, HashPut(m, h.ofInt(|vs| - 1), vs[0]), vs[1..], key);
    }
  }
}
