/** What the growing code looks like after each construct, from what its parts added. */
module Emission {
  import opened Values
  import opened Bytecode
  import opened Syntax
  import opened Codegen
  import opened Pratt
  import opened PrattRules
  import opened Strictness

  /** `code` with the two operand bytes at `at` set to the distance `jump`. */
  function Patched(code: seq<byte>, at: nat, jump: Offset): seq<byte>
    requires at + 2 <= |code|
  {
    code[at := HighByte(jump)][at + 1 := LowByte(jump)]
  }

  /** Patching a placeholder left by `EmitJump` makes it the jump instruction that lands right after `tail`. */
  lemma PatchedJump(base: seq<byte>, op: byte, tail: seq<byte>, jump: Offset)
    ensures Patched(base + [op, 0, 0] + tail, |base| + 1, jump) == base + ([op, HighByte(jump), LowByte(jump)] + tail)
  {
  }

  /**
   Backpatching is exact. Whatever code follows later, the machine reads from the patched bytes
   a jump that lands on the position that was the end of the code, and no other byte changed.
   */
  lemma PatchLands(code: seq<byte>, at: nat, more: seq<byte>)
    requires 0 < at && at + 2 <= |code| && |code| - at - 2 < 0x1_0000 && (code[at - 1] == 20 || code[at - 1] == 21)
    ensures
      var off := |code| - at - 2;
      var patched := Patched(code, at, off) + more;
      Decode(patched, at - 1) == Some(if code[at - 1] == 20 then Jmp(off) else Jmpf(off))
      && at - 1 + Size(Jmp(off)) + off == |code|
      && forall i :: 0 <= i < |code| && i != at && i != at + 1 ==> patched[i] == code[i]
  {
    ShortOfBytes(|code| - at - 2);
  }

  /** Compiling `e` from `code0` and `pool0` on leads to `code` and `pool`. */
  predicate Leaves(h: Host, e: Expr, locals: Locals, code0: seq<byte>, pool0: Pool, code: seq<byte>, pool: Pool) {
    var r := CodeExpr(h, e, locals, pool0);
    r.Some? && code == code0 + r.value.code && pool == r.value.pool
  }

  /** `whole` is compiled by adding `before`, then the code of its last operand, then `after`. */
  predicate EndsIn(h: Host, whole: Expr, last: Expr, locals: Locals, pool0: Pool, before: seq<byte>, pool1: Pool, after: seq<byte>) {
    var r := CodeExpr(h, last, locals, pool1);
    CodeExpr(h, whole, locals, pool0) == if r.None? then None else Some(Piece(before + (r.value.code + after), r.value.pool))
  }

  lemma LastLeaves(h: Host, whole: Expr, last: Expr, locals: Locals, before: seq<byte>, after: seq<byte>,
      code0: seq<byte>, pool0: Pool, code1: seq<byte>, pool1: Pool, code2: seq<byte>, pool2: Pool)
    requires EndsIn(h, whole, last, locals, pool0, before, pool1, after) && code1 == code0 + before
    ensures CodeExpr(h, whole, locals, pool0).Some? == CodeExpr(h, last, locals, pool1).Some?
    ensures Leaves(h, last, locals, code1, pool1, code2, pool2) ==> Leaves(h, whole, locals, code0, pool0, code2 + after, pool2)
  {
    hide CodeExpr;
    var r := CodeExpr(h, last, locals, pool1);
    if r.Some? { assert code0 + before + r.value.code + after == code0 + (before + (r.value.code + after)); }
  }

  lemma InfixEnds(h: Host, op: InfixOp, e: Expr, x: Expr, locals: Locals,
      code0: seq<byte>, pool0: Pool, code1: seq<byte>, pool1: Pool, code2: seq<byte>, pool2: Pool)
    requires Leaves(h, e, locals, code0, pool0, code1, pool1)
    ensures CodeExpr(h, Infix(op, e, x), locals, pool0).Some? == CodeExpr(h, x, locals, pool1).Some?
    ensures Leaves(h, x, locals, code1, pool1, code2, pool2) ==>
      Leaves(h, Infix(op, e, x), locals, code0, pool0, code2 + InfixCode(op), pool2)
    ensures Inner(Infix(op, e, x)) == Inner(e) + 1 + Inner(x)
    ensures HadCall(Infix(op, e, x)) == (HadCall(e) || HadCall(x))
    ensures HadAssign(Infix(op, e, x)) == (HadAssign(e) || HadAssign(x))
  {
    var l := CodeExpr(h, e, locals, pool0).value;
    assert EndsIn(h, Infix(op, e, x), x, locals, pool0, l.code, l.pool, InfixCode(op)) by { hide InfixCode; }
    hide *;
    LastLeaves(h, Infix(op, e, x), x, locals, l.code, InfixCode(op), code0, pool0, code1, pool1, code2, pool2);
  }

  lemma PrefixEnds(h: Host, op: PrefixOp, x: Expr, locals: Locals, code0: seq<byte>, pool0: Pool, code1: seq<byte>, pool1: Pool)
    ensures CodeExpr(h, Prefix(op, x), locals, pool0).Some? == CodeExpr(h, x, locals, pool0).Some?
    ensures Leaves(h, x, locals, code0, pool0, code1, pool1) ==>
      Leaves(h, Prefix(op, x), locals, code0, pool0, code1 + PrefixCode(op), pool1)
    ensures Inner(Prefix(op, x)) == 1 + Inner(x)
    ensures HadCall(Prefix(op, x)) == HadCall(x) && HadAssign(Prefix(op, x)) == HadAssign(x)
  {
    assert EndsIn(h, Prefix(op, x), x, locals, pool0, [], pool0, PrefixCode(op)) by {
      hide PrefixCode;
      var r := CodeExpr(h, x, locals, pool0);
      if r.Some? { assert [] + (r.value.code + PrefixCode(op)) == r.value.code + PrefixCode(op); }
    }
    hide *;
    LastLeaves(h, Prefix(op, x), x, locals, [], PrefixCode(op), code0, pool0, code0, pool0, code1, pool1);
  }

  lemma AssignLocalEnds(h: Host, id: Ident, i: nat, x: Expr, locals: Locals, code0: seq<byte>, pool0: Pool, code1: seq<byte>, pool1: Pool)
    requires i == Resolve(locals, id) && locals[i].depth != -1
    ensures CodeExpr(h, Assign(id, x), locals, pool0).Some? == CodeExpr(h, x, locals, pool0).Some?
    ensures Leaves(h, x, locals, code0, pool0, code1, pool1) ==>
      Leaves(h, Assign(id, x), locals, code0, pool0, code1 + Encode(St(i)), pool1)
  {
    assert EndsIn(h, Assign(id, x), x, locals, pool0, [], pool0, Encode(St(i))) by {
      hide Encode;
      var r := CodeExpr(h, x, locals, pool0);
      if r.Some? { assert [] + (r.value.code + Encode(St(i))) == r.value.code + Encode(St(i)); }
    }
    hide *;
    LastLeaves(h, Assign(id, x), x, locals, [], Encode(St(i)), code0, pool0, code0, pool0, code1, pool1);
  }

  lemma AssignGlobalEnds(h: Host, id: Ident, c: Slot, x: Expr, locals: Locals, code0: seq<byte>, pool0: Pool, code1: seq<byte>, pool1: Pool)
    requires Resolve(locals, id) == -1 && AddConst(h, pool0, Str(Key(h, id))) == Some(c)
    ensures CodeExpr(h, Assign(id, x), locals, pool0).Some? == CodeExpr(h, x, locals, c.pool).Some?
    ensures Leaves(h, x, locals, code0, c.pool, code1, pool1) ==>
      Leaves(h, Assign(id, x), locals, code0, pool0, code1 + Encode(Gst(c.k)), pool1)
  {
    assert EndsIn(h, Assign(id, x), x, locals, pool0, [], c.pool, Encode(Gst(c.k))) by {
      hide Encode, AddConst;
      var r := CodeExpr(h, x, locals, c.pool);
      if r.Some? { assert [] + (r.value.code + Encode(Gst(c.k))) == r.value.code + Encode(Gst(c.k)); }
    }
    hide *;
    LastLeaves(h, Assign(id, x), x, locals, [], Encode(Gst(c.k)), code0, pool0, code0, c.pool, code1, pool1);
  }

  lemma SetMemberEnds(h: Host, e: Expr, id: Ident, c: Slot, x: Expr, locals: Locals,
      code0: seq<byte>, pool0: Pool, code1: seq<byte>, pool1: Pool, code2: seq<byte>, pool2: Pool)
    requires Leaves(h, e, locals, code0, pool0, code1, pool1) && AddConst(h, pool1, Str(Key(h, id))) == Some(c)
    ensures CodeExpr(h, SetMember(e, id, x), locals, pool0).Some? == CodeExpr(h, x, locals, c.pool).Some?
    ensures Leaves(h, x, locals, code1, c.pool, code2, pool2) ==>
      Leaves(h, SetMember(e, id, x), locals, code0, pool0, code2 + Encode(Set(c.k)), pool2)
  {
    var l := CodeExpr(h, e, locals, pool0).value;
    assert EndsIn(h, SetMember(e, id, x), x, locals, pool0, l.code, c.pool, Encode(Set(c.k))) by { hide Encode, AddConst; }
    hide *;
    LastLeaves(h, SetMember(e, id, x), x, locals, l.code, Encode(Set(c.k)), code0, pool0, code1, c.pool, code2, pool2);
  }

  lemma IndexEnds(h: Host, e: Expr, x: Expr, locals: Locals,
      code0: seq<byte>, pool0: Pool, code1: seq<byte>, pool1: Pool, code2: seq<byte>, pool2: Pool)
    requires Leaves(h, e, locals, code0, pool0, code1, pool1)
    ensures Leaves(h, x, locals, code1, pool1, code2, pool2) ==>
      CodeExpr(h, Index(e, x), locals, pool0).Some? && Leaves(h, Index(e, x), locals, code0, pool0, code2 + Encode(Geti), pool2)
  {
    var l := CodeExpr(h, e, locals, pool0).value;
    assert EndsIn(h, Index(e, x), x, locals, pool0, l.code, l.pool, Encode(Geti)) by { hide Encode; }
    hide *;
    LastLeaves(h, Index(e, x), x, locals, l.code, Encode(Geti), code0, pool0, code1, pool1, code2, pool2);
  }

  lemma UnfoldSetIndex(h: Host, e: Expr, locals: Locals, pool: Pool, l: Piece, m: Piece)
    requires e.SetIndex? && CodeExpr(h, e.obj, locals, pool) == Some(l) && CodeExpr(h, e.key, locals, l.pool) == Some(m)
    ensures CodeExpr(h, e.value, locals, m.pool).None? ==> CodeExpr(h, e, locals, pool).None?
    ensures CodeExpr(h, e.value, locals, m.pool).Some? ==>
      var r := CodeExpr(h, e.value, locals, m.pool).value;
      CodeExpr(h, e, locals, pool) == Some(Piece(l.code + (m.code + (r.code + Encode(Seti))), r.pool))
  {
    hide Encode;
  }

  lemma UnfoldInvoke(h: Host, e: Expr, locals: Locals, pool: Pool, l: Piece)
    requires e.Invoke? && CodeExpr(h, e.callee, locals, pool) == Some(l)
    ensures CodeExprs(h, e.args, locals, l.pool).None? || |e.args| >= 32 ==> CodeExpr(h, e, locals, pool).None?
    ensures CodeExprs(h, e.args, locals, l.pool).Some? && |e.args| < 32 ==>
      var r := CodeExprs(h, e.args, locals, l.pool).value;
      CodeExpr(h, e, locals, pool) == Some(Piece(l.code + (r.code + Encode(Call(|e.args|))), r.pool))
  {
    hide Encode, CodeExprs;
  }

  lemma UnfoldAnd(h: Host, e: Expr, locals: Locals, pool: Pool, l: Piece, r: Piece)
    requires e.And? && CodeExpr(h, e.left, locals, pool) == Some(l) && CodeExpr(h, e.right, locals, l.pool) == Some(r)
    ensures CodeExpr(h, e, locals, pool) == CodeAnd(l, r)
  {
    hide CodeAnd;
  }

  lemma UnfoldOr(h: Host, e: Expr, locals: Locals, pool: Pool, l: Piece, r: Piece)
    requires e.Or? && CodeExpr(h, e.left, locals, pool) == Some(l) && CodeExpr(h, e.right, locals, l.pool) == Some(r)
    ensures CodeExpr(h, e, locals, pool) == CodeOr(l, r)
  {
    hide CodeOr;
  }

  /** A jump instruction is its opcode and the two bytes of its distance. */
  lemma JumpBytes(off: Offset)
    ensures Encode(Jmp(off)) == [20, HighByte(off), LowByte(off)]
    ensures Encode(Jmpf(off)) == [21, HighByte(off), LowByte(off)]
  {
  }

  lemma SetIndexEnds(h: Host, e: Expr, k: Expr, x: Expr, locals: Locals,
      code0: seq<byte>, pool0: Pool, code1: seq<byte>, pool1: Pool, code2: seq<byte>, pool2: Pool, code3: seq<byte>, pool3: Pool)
    requires Leaves(h, e, locals, code0, pool0, code1, pool1) && Leaves(h, k, locals, code1, pool1, code2, pool2)
    ensures CodeExpr(h, SetIndex(e, k, x), locals, pool0).Some? == CodeExpr(h, x, locals, pool2).Some?
    ensures Leaves(h, x, locals, code2, pool2, code3, pool3) ==>
      Leaves(h, SetIndex(e, k, x), locals, code0, pool0, code3 + Encode(Seti), pool3)
  {
    hide CodeExpr, Encode;
    var l := CodeExpr(h, e, locals, pool0).value;
    var m := CodeExpr(h, k, locals, pool1).value;
    UnfoldSetIndex(h, SetIndex(e, k, x), locals, pool0, l, m);
    var r := CodeExpr(h, x, locals, m.pool);
    if r.Some? { assert l.code + m.code + (r.value.code + Encode(Seti)) == l.code + (m.code + (r.value.code + Encode(Seti))); }
    assert code2 == code0 + (l.code + m.code);
    assert EndsIn(h, SetIndex(e, k, x), x, locals, pool0, l.code + m.code, m.pool, Encode(Seti));
    hide *;
    LastLeaves(h, SetIndex(e, k, x), x, locals, l.code + m.code, Encode(Seti), code0, pool0, code2, pool2, code3, pool3);
  }

  lemma MemberLeaves(h: Host, e: Expr, id: Ident, locals: Locals, code0: seq<byte>, pool0: Pool, code1: seq<byte>, pool1: Pool)
    requires Leaves(h, e, locals, code0, pool0, code1, pool1)
    ensures
      var c := AddConst(h, pool1, Str(Key(h, id)));
      CodeExpr(h, Member(e, id), locals, pool0).Some? == c.Some?
      && (c.Some? ==> Leaves(h, Member(e, id), locals, code0, pool0, code1 + Encode(Get(c.value.k)), c.value.pool))
  {
    hide AddConst, Encode;
    var l := CodeExpr(h, e, locals, pool0).value;
    var c := AddConst(h, pool1, Str(Key(h, id)));
    if c.Some? { assert code0 + l.code + Encode(Get(c.value.k)) == code0 + (l.code + Encode(Get(c.value.k))); }
  }

  lemma AndShape(code0: seq<byte>, l: Piece, r: Piece, tail: seq<byte>, off: Offset)
    requires tail == Encode(Pop) + r.code && off == |tail|
    ensures CodeAnd(l, r) == Some(Piece(l.code + (Encode(Jmpf(off)) + tail), r.pool))
    ensures code0 + l.code + (Encode(Jmpf(off)) + tail) == code0 + CodeAnd(l, r).value.code
  {
    hide Encode;
    assert code0 + l.code + (Encode(Jmpf(off)) + tail) == code0 + (l.code + (Encode(Jmpf(off)) + tail));
  }

  lemma OrShape(code0: seq<byte>, l: Piece, r: Piece, test: seq<byte>, tail: seq<byte>, off: Offset)
    requires test == Encode(Jmpf(3)) && tail == Encode(Pop) + r.code && off == |tail|
    ensures CodeOr(l, r) == Some(Piece(l.code + (test + (Encode(Jmp(off)) + tail)), r.pool))
    ensures code0 + l.code + test + (Encode(Jmp(off)) + tail) == code0 + CodeOr(l, r).value.code
  {
    hide Encode;
    assert code0 + l.code + test + (Encode(Jmp(off)) + tail) == code0 + (l.code + (test + (Encode(Jmp(off)) + tail)));
  }

  /** The short circuit of `And`: a patched jump over the right operand. */
  lemma AndLeaves(h: Host, e: Expr, x: Expr, locals: Locals,
      code0: seq<byte>, pool0: Pool, code1: seq<byte>, pool1: Pool, code2: seq<byte>, pool2: Pool)
    requires Leaves(h, e, locals, code0, pool0, code1, pool1)
    requires Leaves(h, x, locals, code1 + [21, 0, 0] + Encode(Pop), pool1, code2, pool2)
    ensures
      var off := |code2| - |code1| - 3;
      off >= 0
      && (CodeExpr(h, And(e, x), locals, pool0).Some? <==> off < 0x1_0000)
      && (off < 0x1_0000 ==> Leaves(h, And(e, x), locals, code0, pool0, Patched(code2, |code1| + 1, off), pool2))
  {
    hide CodeExpr, Encode, Patched;
    var l, r := CodeExpr(h, e, locals, pool0).value, CodeExpr(h, x, locals, pool1).value;
    UnfoldAnd(h, And(e, x), locals, pool0, l, r);
    var tail := Encode(Pop) + r.code;
    assert code2 == code1 + [21, 0, 0] + tail;
    if |tail| < 0x1_0000 {
      var off: Offset := |tail|;
      PatchedJump(code1, 21, tail, off);
      JumpBytes(off);
      AndShape(code0, l, r, tail, off);
    }
  }

  /** The short circuit of `Or`: the first jump lands on the pop, the second after the right operand. */
  lemma OrLeaves(h: Host, e: Expr, x: Expr, locals: Locals,
      code0: seq<byte>, pool0: Pool, code1: seq<byte>, pool1: Pool, code2: seq<byte>, pool2: Pool)
    requires Leaves(h, e, locals, code0, pool0, code1, pool1)
    requires Leaves(h, x, locals, code1 + Encode(Jmpf(3)) + [20, 0, 0] + Encode(Pop), pool1, code2, pool2)
    ensures
      var off := |code2| - |code1| - 6;
      off >= 0
      && (CodeExpr(h, Or(e, x), locals, pool0).Some? <==> off < 0x1_0000)
      && (off < 0x1_0000 ==> Leaves(h, Or(e, x), locals, code0, pool0, Patched(code2, |code1| + 4, off), pool2))
  {
    hide CodeExpr, Encode, Patched;
    var l, r := CodeExpr(h, e, locals, pool0).value, CodeExpr(h, x, locals, pool1).value;
    UnfoldOr(h, Or(e, x), locals, pool0, l, r);
    var tail, test := Encode(Pop) + r.code, Encode(Jmpf(3));
    assert code2 == code1 + test + [20, 0, 0] + tail;
    assert |test| == 3 && |code1 + test| == |code1| + 3;
    if |tail| < 0x1_0000 {
      var off: Offset := |tail|;
      PatchedJump(code1 + test, 20, tail, off);
      JumpBytes(off);
      OrShape(code0, l, r, test, tail, off);
    }
  }

  /** Compiling a list from `code0` and `pool0` on leads to `code` and `pool`. */
  predicate LeavesAll(h: Host, es: seq<Expr>, locals: Locals, code0: seq<byte>, pool0: Pool, code: seq<byte>, pool: Pool) {
    var r := CodeExprs(h, es, locals, pool0);
    r.Some? && code == code0 + r.value.code && pool == r.value.pool
  }

  lemma InvokeLeaves(h: Host, e: Expr, args: seq<Expr>, locals: Locals,
      code0: seq<byte>, pool0: Pool, code1: seq<byte>, pool1: Pool, code2: seq<byte>, pool2: Pool)
    requires Leaves(h, e, locals, code0, pool0, code1, pool1)
    ensures CodeExpr(h, Invoke(e, args), locals, pool0).Some? == (|args| < 32 && CodeExprs(h, args, locals, pool1).Some?)
    ensures |args| < 32 && LeavesAll(h, args, locals, code1, pool1, code2, pool2) ==>
      Leaves(h, Invoke(e, args), locals, code0, pool0, code2 + Encode(Call(|args|)), pool2)
  {
    hide CodeExpr, CodeExprs, Encode;
    UnfoldInvoke(h, Invoke(e, args), locals, pool0, CodeExpr(h, e, locals, pool0).value);
    var l, r := CodeExpr(h, e, locals, pool0).value, CodeExprs(h, args, locals, pool1);
    if |args| < 32 && r.Some? {
      var call := Encode(Call(|args|));
      assert code0 + l.code + r.value.code + call == code0 + (l.code + (r.value.code + call));
    }
  }

  lemma MapLeaves(h: Host, es: seq<Expr>, locals: Locals, code0: seq<byte>, pool0: Pool, code1: seq<byte>, pool1: Pool)
    ensures CodeExpr(h, MapLit(es), locals, pool0).Some? == CodeExprs(h, es, locals, pool0).Some?
    ensures LeavesAll(h, es, locals, code0, pool0, code1, pool1) ==>
      Leaves(h, MapLit(es), locals, code0, pool0, code1 + Encode(MakeMap(|es| % 256)), pool1)
  {
    hide Encode;
    var r := CodeExprs(h, es, locals, pool0);
    if r.Some? {
      var make := Encode(MakeMap(|es| % 256));
      assert code0 + r.value.code + make == code0 + (r.value.code + make);
    }
  }

  lemma NothingLeaves(h: Host, locals: Locals, code: seq<byte>, pool: Pool)
    ensures LeavesAll(h, [], locals, code, pool, code, pool)
    ensures InnerAll([]) == 0 && !HadCallAny([]) && !HadAssignAny([])
  {
  }

  lemma ListLeaves(h: Host, es: seq<Expr>, locals: Locals, code0: seq<byte>, pool0: Pool, code1: seq<byte>, pool1: Pool)
    requires LeavesAll(h, es, locals, code0, pool0, code1, pool1)
    ensures CodeExprs(h, es, locals, pool0).Some?
  {
    hide CodeExprs;
  }

  lemma NextLeaves(h: Host, es: seq<Expr>, e: Expr, locals: Locals,
      code0: seq<byte>, pool0: Pool, code1: seq<byte>, pool1: Pool, code2: seq<byte>, pool2: Pool)
    requires LeavesAll(h, es, locals, code0, pool0, code1, pool1)
    ensures CodeExprs(h, es + [e], locals, pool0).Some? == CodeExpr(h, e, locals, pool1).Some?
    ensures Leaves(h, e, locals, code1, pool1, code2, pool2) ==> LeavesAll(h, es + [e], locals, code0, pool0, code2, pool2)
  {
    hide CodeExpr, CodeExprs;
    CodeExprsAppend(h, es, [e], locals, pool0);
    CodeOneExpr(h, e, locals, pool1);
    var l, r := CodeExprs(h, es, locals, pool0).value, CodeExpr(h, e, locals, pool1);
    if r.Some? { assert code0 + l.code + r.value.code == code0 + (l.code + r.value.code); }
  }

  /** What follows a list that does not compile cannot make it compile. */
  lemma ListFails(h: Host, es: seq<Expr>, ts: seq<Token>, line: nat, locals: Locals, pool: Pool)
    requires CodeExprs(h, es, locals, pool).None?
    ensures ListTail(es, ts, line).Some? ==> CodeExprs(h, ListTail(es, ts, line).value.value, locals, pool).None?
  {
    hide CodeExprs, ParseExprs;
    if Starts(ts, Comma) && ParseExprs(ts[1..]).Some? {
      CodeExprsAppend(h, es, ParseExprs(ts[1..]).value.value, locals, pool);
    }
  }

  /** The right operand of a short circuit, the key of an index or the name of a member that does not compile. */
  lemma AndFails(h: Host, e: Expr, x: Expr, locals: Locals, code0: seq<byte>, pool0: Pool, code1: seq<byte>, pool1: Pool)
    requires Leaves(h, e, locals, code0, pool0, code1, pool1) && CodeExpr(h, x, locals, pool1).None?
    ensures CodeExpr(h, And(e, x), locals, pool0).None? && CodeExpr(h, Or(e, x), locals, pool0).None?
  {
  }

  lemma KeyFails(h: Host, e: Expr, k: Expr, x: Expr, locals: Locals, code0: seq<byte>, pool0: Pool, code1: seq<byte>, pool1: Pool)
    requires Leaves(h, e, locals, code0, pool0, code1, pool1) && CodeExpr(h, k, locals, pool1).None?
    ensures CodeExpr(h, Index(e, k), locals, pool0).None? && CodeExpr(h, SetIndex(e, k, x), locals, pool0).None?
  {
  }

  lemma IndexFails(h: Host, e: Expr, ts: seq<Token>, canAssign: bool, locals: Locals,
      code0: seq<byte>, pool0: Pool, code1: seq<byte>, pool1: Pool)
    requires ts != [] && ts[0].kind.LBracket? && Leaves(h, e, locals, code0, pool0, code1, pool1)
    requires ParsePrec(ts[1..], ASSIGNMENT).Some? && CodeExpr(h, ParsePrec(ts[1..], ASSIGNMENT).value.value, locals, pool1).None?
    ensures ParseInfix(e, ts, canAssign).Some? ==> CodeExpr(h, ParseInfix(e, ts, canAssign).value.value, locals, pool0).None?
  {
    hide ParsePrec, ParseInfix, CodeExpr, Leaves;
    IndexParses(e, ts, canAssign);
    var r := ParseInfix(e, ts, canAssign);
    if r.Some? { KeyFails(h, e, r.value.value.key, if r.value.value.SetIndex? then r.value.value.value else e, locals, code0, pool0, code1, pool1); }
  }

  lemma NameFails(h: Host, e: Expr, id: Ident, x: Expr, locals: Locals, code0: seq<byte>, pool0: Pool, code1: seq<byte>, pool1: Pool)
    requires Leaves(h, e, locals, code0, pool0, code1, pool1) && AddConst(h, pool1, Str(Key(h, id))).None?
    ensures CodeExpr(h, Member(e, id), locals, pool0).None? && CodeExpr(h, SetMember(e, id, x), locals, pool0).None?
  {
    hide AddConst;
  }

  lemma DotFails(h: Host, e: Expr, ts: seq<Token>, canAssign: bool, locals: Locals,
      code0: seq<byte>, pool0: Pool, code1: seq<byte>, pool1: Pool)
    requires ts != [] && ts[0].kind.Dot? && ts[1..] != [] && ts[1].kind.Identifier?
    requires Leaves(h, e, locals, code0, pool0, code1, pool1) && AddConst(h, pool1, Str(Key(h, ts[1].kind.id))).None?
    ensures ParseInfix(e, ts, canAssign).Some? ==> CodeExpr(h, ParseInfix(e, ts, canAssign).value.value, locals, pool0).None?
  {
    hide ParsePrec, ParseInfix, AddConst, CodeExpr, Leaves;
    DotParses(e, ts, canAssign);
    var r := ParseInfix(e, ts, canAssign);
    if r.Some? { NameFails(h, e, ts[1].kind.id, if r.value.value.SetMember? then r.value.value.value else e, locals, code0, pool0, code1, pool1); }
  }

  /** The first jump of `Or` skips the second one: its distance is always 3. */
  lemma FirstJump(code: seq<byte>)
    ensures Patched(code + [21, 0, 0] + [20, 0, 0], |code| + 1, 3) == code + Encode(Jmpf(3)) + [20, 0, 0]
  {
  }

  lemma GroupLeaves(h: Host, x: Expr, locals: Locals, code0: seq<byte>, pool0: Pool, code1: seq<byte>, pool1: Pool)
    ensures CodeExpr(h, Group(x), locals, pool0) == CodeExpr(h, x, locals, pool0)
    ensures Leaves(h, x, locals, code0, pool0, code1, pool1) ==> Leaves(h, Group(x), locals, code0, pool0, code1, pool1)
  {
  }

  /** Reading a variable: its slot when it is an initialised local, a global of the lower-case name otherwise. */
  lemma NameLeaves(h: Host, id: Ident, locals: Locals, code: seq<byte>, pool: Pool)
    ensures
      var i := Resolve(locals, id);
      var c := AddConst(h, pool, Str(Key(h, id)));
      CodeExpr(h, Name(id), locals, pool).Some? == (if i >= 0 then locals[i].depth != -1 else c.Some?)
      && (i >= 0 && locals[i].depth != -1 ==> Leaves(h, Name(id), locals, code, pool, code + Encode(Ld(i)), pool))
      && (i < 0 && c.Some? ==> Leaves(h, Name(id), locals, code, pool, code + Encode(Gld(c.value.k)), c.value.pool))
    ensures Inner(Name(id)) == 0 && !HadCall(Name(id)) && !HadAssign(Name(id))
  {
    hide Resolve, Encode, AddConst, Key;
  }

  lemma VariableFails(h: Host, id: Ident, x: Expr, locals: Locals, pool: Pool)
    requires CodeExpr(h, Name(id), locals, pool).None?
    ensures CodeExpr(h, Assign(id, x), locals, pool).None?
  {
    hide Resolve, Encode, AddConst, Key;
  }
}
