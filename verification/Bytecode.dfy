/** Instructions and their byte encoding. */
module Bytecode {
  import opened Values

  datatype Instr =
    | Print(n: byte)
    | Pop
    | Call(argc: byte)
    | Ret
    | Nil
    | True
    | False
    | Const(k: byte)
    | Unary(uop: UnaryOp)
    | Binary(bop: BinaryOp)
    | Def(k: byte)
    | Gld(k: byte)
    | Gst(k: byte)
    | Jmp(off: Offset)
    | Jmpf(off: Offset)
    | Ld(slot: byte)
    | St(slot: byte)
    | MakeMap(n: byte)
    | Get(k: byte)
    | Set(k: byte)
    | Geti
    | Seti

  /** An unsigned 16-bit jump distance: jumps only go forward. */
  type Offset = x: int | 0 <= x < 0x1_0000

  /** The numbering of `opcode_t`. */
  function Opcode(i: Instr): byte {
    match i
    case Print(_) => 0
    case Pop => 1
    case Call(_) => 2
    case Ret => 3
    case Nil => 4
    case True => 5
    case False => 6
    case Const(_) => 7
    case Unary(op) => (match op case Neg => 8 case Not => 9)
    case Binary(op) =>
      (match op
       case Lt => 10
       case Le => 11
       case Eq => 12
       case Add => 13
       case Sub => 14
       case Mul => 15
       case Div => 16)
    case Def(_) => 17
    case Gld(_) => 18
    case Gst(_) => 19
    case Jmp(_) => 20
    case Jmpf(_) => 21
    case Ld(_) => 22
    case St(_) => 23
    case MakeMap(_) => 24
    case Get(_) => 25
    case Set(_) => 26
    case Geti => 27
    case Seti => 28
  }

  function HighByte(x: Offset): byte {
    x / 256
  }

  function LowByte(x: Offset): byte {
    x % 256
  }

  function Operands(i: Instr): seq<byte> {
    match i
    case Print(n) => [n]
    case Call(n) => [n]
    case Const(k) => [k]
    case Def(k) => [k]
    case Gld(k) => [k]
    case Gst(k) => [k]
    case Jmp(off) => [HighByte(off), LowByte(off)]
    case Jmpf(off) => [HighByte(off), LowByte(off)]
    case Ld(s) => [s]
    case St(s) => [s]
    case MakeMap(n) => [n]
    case Get(k) => [k]
    case Set(k) => [k]
    case _ => []
  }

  function Encode(i: Instr): (r: seq<byte>)
    ensures |r| == Size(i)
  {
    [Opcode(i)] + Operands(i)
  }

  function Size(i: Instr): nat {
    1 + |Operands(i)|
  }

  /** `READ_SHORT`. */
  function Short(hi: byte, lo: byte): Offset {
    hi * 256 + lo
  }

  function DecodePlain(op: byte): Option<Instr> {
    if op == 1 then Some(Pop)
    else if op == 3 then Some(Ret)
    else if op == 4 then Some(Nil)
    else if op == 5 then Some(True)
    else if op == 6 then Some(False)
    else if op == 8 then Some(Unary(Neg))
    else if op == 9 then Some(Unary(Not))
    else if op == 10 then Some(Binary(Lt))
    else if op == 11 then Some(Binary(Le))
    else if op == 12 then Some(Binary(Eq))
    else if op == 13 then Some(Binary(Add))
    else if op == 14 then Some(Binary(Sub))
    else if op == 15 then Some(Binary(Mul))
    else if op == 16 then Some(Binary(Div))
    else if op == 27 then Some(Geti)
    else if op == 28 then Some(Seti)
    else None
  }

  function DecodeWithByte(op: byte, b: byte): Option<Instr> {
    if op == 0 then Some(Print(b))
    else if op == 2 then Some(Call(b))
    else if op == 7 then Some(Const(b))
    else if op == 17 then Some(Def(b))
    else if op == 18 then Some(Gld(b))
    else if op == 19 then Some(Gst(b))
    else if op == 22 then Some(Ld(b))
    else if op == 23 then Some(St(b))
    else if op == 24 then Some(MakeMap(b))
    else if op == 25 then Some(Get(b))
    else if op == 26 then Some(Set(b))
    else None
  }

  /** The instruction at `ip`, or `None` if no whole instruction starts there. */
  function Decode(code: seq<byte>, ip: nat): Option<Instr> {
    if ip >= |code| then None
    else
      var op := code[ip];
      if op == 20 || op == 21 then
        if ip + 2 >= |code| then None
        else
          var off := Short(code[ip + 1], code[ip + 2]);
          Some(if op == 20 then Jmp(off) else Jmpf(off))
      else if DecodePlain(op).Some? then DecodePlain(op)
      else if ip + 1 >= |code| then None
      else DecodeWithByte(op, code[ip + 1])
  }

  /** `code` holds the bytes `part` at position `ip`. */
  predicate Holds(code: seq<byte>, ip: nat, part: seq<byte>) {
    ip + |part| <= |code| && code[ip..ip + |part|] == part
  }

  lemma ShortOfBytes(off: Offset)
    ensures Short(HighByte(off), LowByte(off)) == off
  {
  }

  /** Decoding inverts encoding, wherever the bytes stand. */
  lemma DecodeEncode(code: seq<byte>, ip: nat, i: Instr)
    requires Holds(code, ip, Encode(i))
    ensures Decode(code, ip) == Some(i)
  {
    var part := code[ip..ip + Size(i)];
    assert part == Encode(i);
    assert code[ip] == part[0];
    if Size(i) > 1 { assert code[ip + 1] == part[1]; }
    if Size(i) > 2 { assert code[ip + 2] == part[2]; }
  }

  lemma AtSplit(code: seq<byte>, ip: nat, a: seq<byte>, b: seq<byte>)
    ensures Holds(code, ip, a + b) <==> Holds(code, ip, a) && Holds(code, ip + |a|, b)
  {
    if Holds(code, ip, a + b) {
      assert code[ip..ip + |a|] == (a + b)[..|a|] == a;
      assert code[ip + |a|..ip + |a| + |b|] == (a + b)[|a|..] == b;
    }
    if Holds(code, ip, a) && Holds(code, ip + |a|, b) {
      assert code[ip..ip + |a| + |b|] == code[ip..ip + |a|] + code[ip + |a|..ip + |a| + |b|];
    }
  }
}
