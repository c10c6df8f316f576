/**
 What `>` and `>=` mean. They are compiled to the negations of `<=` and `<`, which makes them
 the converses of `<` and `<=` on every pair of values but those with a NaN.
 */
module Comparisons {
  import opened Values
  import opened Syntax
  import opened Evaluator

  const SIGN: Raw := 0x8000_0000_0000_0000
  const INFINITY: Raw := 0x7FF0_0000_0000_0000
  const QUIET_NAN: Raw := 0x7FF8_0000_0000_0000

  /** A double is a NaN if all bits of its exponent are set and its fraction is not zero. */
  predicate Nan(a: Raw) {
    a % SIGN > INFINITY
  }

  predicate NanValue(v: Value) {
    v.Num? && Nan(v.raw)
  }

  /** The comparisons of IEEE 754: false on a NaN, and otherwise one is the negated converse of the other. */
  ghost predicate Compares(h: Host) {
    (forall a, b :: Nan(a) || Nan(b) ==> !h.lt(a, b) && !h.le(a, b) && !h.eq(a, b))
    && (forall a, b :: !Nan(a) && !Nan(b) ==> (h.le(a, b) <==> !h.lt(b, a)))
    && forall i :: !Nan(h.ofInt(i))
  }

  /** The operators of order take these two values: numbers and booleans. */
  predicate Ordered(h: Host, x: Value, y: Value) {
    Operand(h, x).Some? && Operand(h, y).Some?
  }

  /** `x > y` is `y < x`, results and errors alike, unless one of two numbers or booleans is a NaN. */
  lemma GreaterIsConverse(h: Host, x: Value, y: Value)
    requires Compares(h)
    ensures InfixValue(h, Greater, x, y) == InfixValue(h, Less, y, x) <==> !(Ordered(h, x, y) && (NanValue(x) || NanValue(y)))
  {
  }

  /** `x >= y` is `y <= x` in exactly the same cases. */
  lemma GreaterEqualIsConverse(h: Host, x: Value, y: Value)
    requires Compares(h)
    ensures InfixValue(h, GreaterEqual, x, y) == InfixValue(h, LessEqual, y, x) <==> !(Ordered(h, x, y) && (NanValue(x) || NanValue(y)))
  {
  }

  /** With a NaN on either side, `>` and `>=` hold, and so does neither `<` nor `<=` either way round. */
  lemma NanIsGreater(h: Host, x: Value, y: Value)
    requires Compares(h) && Ordered(h, x, y) && (NanValue(x) || NanValue(y))
    ensures InfixValue(h, Greater, x, y) == InfixValue(h, GreaterEqual, x, y) == Some(Bool(true))
    ensures forall op :: op in {Less, LessEqual} ==> InfixValue(h, op, x, y) == InfixValue(h, op, y, x) == Some(Bool(false))
  {
  }

  /** The quiet NaN is at once greater than itself and than everything comparable, and less than nothing. */
  lemma QuietNanIsGreater(h: Host, y: Value)
    requires Compares(h) && (y.Num? || y.Bool?)
    ensures InfixValue(h, Greater, Num(QUIET_NAN), y) == Some(Bool(true)) && InfixValue(h, Less, y, Num(QUIET_NAN)) == Some(Bool(false))
    ensures InfixValue(h, Greater, y, Num(QUIET_NAN)) == Some(Bool(true))
  {
    NanIsGreater(h, Num(QUIET_NAN), y);
    NanIsGreater(h, y, Num(QUIET_NAN));
  }

  /** Where a pattern that is no NaN lies among the doubles; the two zeros are equal. */
  function Rank(a: Raw): int {
    if a < SIGN then a else SIGN - a
  }

  function Converted(h: Host, i: int): Raw {
    if Nan(h.ofInt(i)) then INFINITY else h.ofInt(i)
  }

  /** The host with the comparisons of IEEE 754, read off the patterns. */
  function Ieee(h: Host): Host {
    h.(lt := (a: Raw, b: Raw) => !Nan(a) && !Nan(b) && Rank(a) < Rank(b),
       le := (a: Raw, b: Raw) => !Nan(a) && !Nan(b) && Rank(a) <= Rank(b),
       eq := (a: Raw, b: Raw) => !Nan(a) && !Nan(b) && Rank(a) == Rank(b),
       ofInt := i => Converted(h, i))
  }

  /** There are such hosts, and literals are told apart on them. */
  lemma IeeeCompares(h: Host)
    ensures Compares(Ieee(h)) && Ieee(h).Sound()
  {
  }
}
