/** The growing buffers of `chunk.c` and `value.c`. */
module Chunks {
  import opened Values
  import opened Codegen

  const CODE_PAGE: nat := 256

  /** A C `uint16_t` keeps the low bits of a line or a column. */
  function Short(n: nat): nat {
    n % 0x1_0000
  }

  /** Code bytes with the line and the column each one comes from. */
  class Chunk {
    var count: nat
    var code: array<byte>
    var lines: array<nat>
    var columns: array<nat>

    ghost predicate Valid()
      reads this
    {
      count <= code.Length == lines.Length == columns.Length && lines != columns
    }

    ghost function Bytes(): seq<byte>
      requires Valid()
      reads this, code
    {
      code[..count]
    }

    ghost function Places(): seq<(nat, nat)>
      requires Valid()
      reads this, lines, columns
    {
      seq(count, i requires 0 <= i < count && Valid() reads this, lines, columns => (lines[i], columns[i]))
    }

    /** `chunk_init`. */
    constructor ()
      ensures Valid() && count == 0 && fresh(code) && fresh(lines) && fresh(columns)
    {
      count := 0;
      code, lines, columns := new byte[0], new nat[0], new nat[0];
    }

    /** `chunk_emit`: the three buffers grow by a page together, and keep what they hold. */
    method Emit(b: byte, line: nat, column: nat)
      requires Valid()
      modifies this, code, lines, columns
      ensures Valid() && Bytes() == old(Bytes()) + [b]
      ensures Places() == old(Places()) + [(line % 0x1_0000, column % 0x1_0000)]
      ensures code.Length == old(code.Length) + if old(count) == old(code.Length) then 256 else 0
    {
      if count >= code.Length { Grow(); }
      code[count] := b;
      lines[count] := Short(line);
      columns[count] := Short(column);
      count := count + 1;
    }

    /** The three calls of `realloc`. */
    method Grow()
      requires Valid()
      modifies this
      ensures Valid() && count == old(count) < code.Length == old(code.Length) + 256 && fresh(code) && fresh(lines) && fresh(columns)
      ensures Bytes() == old(Bytes()) && Places() == old(Places())
    {
      var capacity := code.Length + CODE_PAGE;
      var code', lines', columns' := new byte[capacity], new nat[capacity], new nat[capacity];
      forall i | 0 <= i < count { code'[i] := code[i]; }
      forall i | 0 <= i < count { lines'[i] := lines[i]; }
      forall i | 0 <= i < count { columns'[i] := columns[i]; }
      code, lines, columns := code', lines', columns';
    }
  }

  /** A pool of constants. */
  class ValueArray {
    var count: nat
    var values: array<Value>

    ghost predicate Valid()
      reads this, values
    {
      count <= values.Length && forall i :: 0 <= i < count ==> Constant(values[i])
    }

    ghost function Contents(): Pool
      requires Valid()
      reads this, values
    {
      values[..count]
    }

    /** `arr_init`. */
    constructor ()
      ensures Valid() && Contents() == [] && fresh(values)
    {
      count := 0;
      values := new Value[0];
    }

    /** `arr_add` without duplicates: the index of the first equal constant, or of the new one, as the compiler's pool has it. */
    method Add(h: Host, v: Value) returns (index: nat)
      requires Valid() && Constant(v)
      modifies this, values
      ensures Valid() && index == FindConst(h, old(Contents()), v, 0)
      ensures Contents() == if index < |old(Contents())| then old(Contents()) else old(Contents()) + [v]
      ensures AddConst(h, old(Contents()), v) == if index > 255 then None else Some(Slot(index, Contents()))
    {
      ghost var pool := Contents();
      index := 0;
      while index < count && !ValEqual(h, values[index], v)
        invariant index <= count && Valid() && Contents() == pool && count == old(count) && values == old(values)
        invariant FindConst(h, pool, v, 0) == FindConst(h, pool, v, index)
      {
        index := index + 1;
      }
      if index < count { return; }
      if count >= values.Length { Grow(); }
      values[count] := v;
      count := count + 1;
      assert values[..count] == pool + [v];
    }

    method Grow()
      requires Valid()
      modifies this
      ensures Valid() && count == old(count) < values.Length && fresh(values) && Contents() == old(Contents())
    {
      var values' := new Value[if values.Length < 8 then 8 else 2 * values.Length](_ => Null);
      forall i | 0 <= i < count { values'[i] := values[i]; }
      values := values';
    }
  }
}
