/**
 The machine on the collector's heap. It knows values and objects only: keys are found and
 strings compared by object, and what the objects hold decides what it does. Every turn does
 what the step does on characters, allocations collecting in the middle of it.
 */
module HeapRuns {
  import opened Values
  import opened Bytecode
  import opened Machine
  import opened Collector
  import opened Layouts
  import opened Strings
  import Hashes
  import Tables
  import Verifier
  import Interning
  import Programs

  // Values

  /** `IS_FALSEY`. */
  predicate FalseyVal(x: Val) {
    x.Plain? && Falsey(x.v)
  }

  /** `val_equal`: objects are equal if they are one. */
  predicate SameVal(h: Host, x: Val, y: Val) {
    match (x, y)
    case (Plain(v), Plain(w)) => ValEqual(h, v, w)
    case (Ref(a), Ref(b)) => a == b
    case _ => false
  }

  predicate IsSort(x: Val, sort: Sort) {
    x.Ref? && x.o.sort == sort
  }

  function AsVal(v: Option<Value>): Option<Val> {
    if v.Some? then Some(Plain(v.value)) else None
  }

  function UnaryVal(h: Host, op: UnaryOp, x: Val): Option<Val> {
    match op
    case Not => Some(Plain(Bool(FalseyVal(x))))
    case Neg => if x.Plain? then AsVal(ApplyUnary(h, Neg, x.v)) else None
  }

  /** An operator on two values that are not both strings to be joined. */
  function BinaryVal(h: Host, op: BinaryOp, x: Val, y: Val): Option<Val> {
    if op == Eq then Some(Plain(Bool(SameVal(h, x, y))))
    else if x.Plain? && y.Plain? then AsVal(ApplyBinary(h, op, x.v, y.v))
    else None
  }

  lemma FalseyStands(v: Value, x: Val, lay: Layout)
    requires Stands(v, x, lay)
    ensures FalseyVal(x) == Falsey(v)
  {
  }

  lemma UnaryStands(h: Host, op: UnaryOp, v: Value, x: Val, lay: Layout)
    requires Stands(v, x, lay)
    ensures UnaryVal(h, op, x).Some? == ApplyUnary(h, op, v).Some?
    ensures ApplyUnary(h, op, v).Some? ==> !UnaryVal(h, op, x).value.Ref? && Stands(ApplyUnary(h, op, v).value, UnaryVal(h, op, x).value, lay)
  {
  }

  /** Identity of objects is equality of what they stand for, strings of one text being one object. */
  lemma SameStands(h: Host, v: Value, w: Value, x: Val, y: Val, lay: Layout)
    requires Stands(v, x, lay) && Stands(w, y, lay) && Distinct(lay.maps) && Distinct(lay.functions)
    requires IsSort(x, StrSort) && IsSort(y, StrSort) && x.o.text == y.o.text ==> x.o == y.o
    ensures SameVal(h, x, y) == ValEqual(h, v, w)
  {
  }

  lemma BinaryStands(h: Host, op: BinaryOp, v: Value, w: Value, x: Val, y: Val, lay: Layout)
    requires Stands(v, x, lay) && Stands(w, y, lay) && !(op == Add && v.Str? && w.Str?)
    requires SameVal(h, x, y) == ValEqual(h, v, w)
    ensures BinaryVal(h, op, x, y).Some? == ApplyBinary(h, op, v, w).Some?
    ensures ApplyBinary(h, op, v, w).Some? ==>
      !BinaryVal(h, op, x, y).value.Ref? && Stands(ApplyBinary(h, op, v, w).value, BinaryVal(h, op, x, y).value, lay)
  {
    hide ValEqual, SameVal;
  }

  // Sequences of values

  lemma PushStands(vs: seq<Value>, xs: seq<Val>, v: Value, x: Val, lay: Layout, os: set<Obj>)
    requires AllStand(vs, xs, lay) && Stands(v, x, lay) && Refs(xs) <= os && (x.Ref? ==> x.o in os)
    ensures AllStand(vs + [v], xs + [x], lay) && Refs(xs + [x]) <= os
  {
    hide Stands;
    forall y | y in xs + [x] && y.Ref? ensures y.o in os { if y in xs { assert y.o in Refs(xs); } }
  }

  lemma DropStands(vs: seq<Value>, xs: seq<Val>, n: nat, lay: Layout, os: set<Obj>)
    requires AllStand(vs, xs, lay) && n <= |vs| && Refs(xs) <= os
    ensures AllStand(vs[..n], xs[..n], lay) && Refs(xs[..n]) <= os
  {
    hide Stands;
    forall y | y in xs[..n] && y.Ref? ensures y.o in os { assert y in xs && y.o in Refs(xs); }
  }

  lemma TopStands(vs: seq<Value>, xs: seq<Val>, n: nat, lay: Layout, os: set<Obj>)
    requires AllStand(vs, xs, lay) && n <= |vs| && Refs(xs) <= os
    ensures AllStand(vs[n..], xs[n..], lay) && Refs(xs[n..]) <= os
  {
    hide Stands;
    forall y | y in xs[n..] && y.Ref? ensures y.o in os { assert y in xs && y.o in Refs(xs); }
  }

  lemma SetStands(vs: seq<Value>, xs: seq<Val>, n: nat, v: Value, x: Val, lay: Layout, os: set<Obj>)
    requires AllStand(vs, xs, lay) && n < |vs| && Stands(v, x, lay) && Refs(xs) <= os && (x.Ref? ==> x.o in os)
    ensures AllStand(vs[n := v], xs[n := x], lay) && Refs(xs[n := x]) <= os
  {
    hide Stands;
    forall y | y in xs[n := x] && y.Ref? ensures y.o in os { if y != x { assert y in xs && y.o in Refs(xs); } }
  }

  lemma StandsThere(vs: seq<Value>, xs: seq<Val>, n: nat, lay: Layout, os: set<Obj>)
    requires AllStand(vs, xs, lay) && n < |vs| && Refs(xs) <= os
    ensures Stands(vs[n], xs[n], lay) && (xs[n].Ref? ==> xs[n].o in os)
  {
    hide Stands, Refs;
    RefIn(xs, n);
  }

  // Tables of names

  /** `tab_get`: the value under a key object. */
  function FindEntry(es: Entries, key: Obj): Option<Val> {
    if es == [] then None else if es[0].key == Some(key) then Some(es[0].value) else FindEntry(es[1..], key)
  }

  /** `tab_set`: the entry of that key object is overwritten, or a new one is made. */
  function PutEntry(es: Entries, key: Obj, x: Val): (r: Entries) {
    if FindEntry(es, key).None? then es + [Tables.Entry(Some(key), x)]
    else seq(|es|, i requires 0 <= i < |es| => if es[i].key == Some(key) then Tables.Entry(Some(key), x) else es[i])
  }

  /** The only key of the entries with the text of `key` is `key`. */
  predicate OneKey(es: Entries, key: Obj) {
    forall i :: 0 <= i < |es| && es[i].key.Some? && es[i].key.value.text == key.text ==> es[i].key.value == key
  }

  lemma {:induction false} FindEntryIs(es: Entries, key: Obj)
    ensures FindEntry(es, key).Some? <==> exists i :: 0 <= i < |es| && es[i].key == Some(key)
    ensures FindEntry(es, key).Some? ==> exists i :: 0 <= i < |es| && es[i] == Tables.Entry(Some(key), FindEntry(es, key).value)
    decreases |es|
  {
    if es != [] {
      FindEntryIs(es[1..], key);
      if es[0].key == Some(key) {
        assert es[0] == Tables.Entry(Some(key), FindEntry(es, key).value);
      } else {
        if i :| 0 <= i < |es[1..]| && es[1..][i].key == Some(key) { assert es[i + 1].key == Some(key); }
        if i :| 0 <= i < |es| && es[i].key == Some(key) { assert es[1..][i - 1].key == Some(key); }
        if FindEntry(es[1..], key).Some? {
          var i :| 0 <= i < |es[1..]| && es[1..][i] == Tables.Entry(Some(key), FindEntry(es[1..], key).value);
          assert es[i + 1] == Tables.Entry(Some(key), FindEntry(es, key).value);
        }
      }
    }
  }

  /** Looking up a key object finds what the table has under its text. */
  lemma FindStands(t: map<string, Value>, es: Entries, key: Obj, lay: Layout, os: set<Obj>)
    requires TableStands(t, es, lay) && OneKey(es, key) && InTable(es) <= os
    ensures FindEntry(es, key).Some? <==> key.text in t
    ensures key.text in t ==> Stands(t[key.text], FindEntry(es, key).value, lay) && (FindEntry(es, key).value.Ref? ==> FindEntry(es, key).value.o in os)
  {
    hide Stands, InTable, FindEntry;
    FindEntryIs(es, key);
    if key.text in t {
      assert Entered(key.text, es);
      var i :| 0 <= i < |es| && es[i].key.Some? && es[i].key.value.text == key.text;
      assert es[i].key == Some(key);
    }
    if FindEntry(es, key).Some? {
      var i :| 0 <= i < |es| && es[i] == Tables.Entry(Some(key), FindEntry(es, key).value);
      assert EntryStands(t, es[i], lay);
      EntryIn(es, i);
    }
  }

  lemma PutEntryIs(es: Entries, key: Obj, x: Val)
    ensures
      var r := PutEntry(es, key, x);
      |r| >= |es| && (exists i :: 0 <= i < |r| && r[i] == Tables.Entry(Some(key), x))
      && (forall i :: 0 <= i < |es| ==> r[i] == es[i] || (es[i].key == Some(key) && r[i] == Tables.Entry(Some(key), x)))
      && (forall i :: 0 <= i < |es| && es[i].key == Some(key) ==> r[i] == Tables.Entry(Some(key), x))
      && forall i :: |es| <= i < |r| ==> r[i] == Tables.Entry(Some(key), x)
  {
    hide FindEntry;
    FindEntryIs(es, key);
    var r := PutEntry(es, key, x);
    if FindEntry(es, key).Some? {
      var i :| 0 <= i < |es| && es[i].key == Some(key);
      assert r[i] == Tables.Entry(Some(key), x);
    } else {
      assert r[|es|] == Tables.Entry(Some(key), x);
    }
  }

  lemma PutEntryStands(t: map<string, Value>, es: Entries, name: string, v: Value, key: Obj, x: Val, lay: Layout, os: set<Obj>)
    requires TableStands(t, es, lay) && OneKey(es, key) && key.text == name && key.sort == StrSort && Stands(v, x, lay)
    requires InTable(es) <= os && key in os && (x.Ref? ==> x.o in os)
    ensures TableStands(t[name := v], PutEntry(es, key, x), lay) && InTable(PutEntry(es, key, x)) <= os
  {
    hide Stands, PutEntry, InTable;
    var r, t' := PutEntry(es, key, x), t[name := v];
    PutEntryIs(es, key, x);
    forall i | 0 <= i < |r| ensures EntryStands(t', r[i], lay) {
      if i < |es| { assert EntryStands(t, es[i], lay); }
    }
    forall n | n in t' ensures Entered(n, r) {
      if n != name {
        assert Entered(n, es);
        var i :| 0 <= i < |es| && es[i].key.Some? && es[i].key.value.text == n;
        assert r[i].key.Some?;
      } else {
        var i :| 0 <= i < |r| && r[i] == Tables.Entry(Some(key), x);
        assert r[i].key.Some?;
      }
    }
    forall i | 0 <= i < |r| ensures (r[i].key.Some? ==> r[i].key.value in os) && (r[i].value.Ref? ==> r[i].value.o in os) {
      if i < |es| { EntryIn(es, i); }
    }
    AllEntries(r, os);
  }

  lemma AllEntries(es: Entries, os: set<Obj>)
    requires forall i :: 0 <= i < |es| ==> (es[i].key.Some? ==> es[i].key.value in os) && (es[i].value.Ref? ==> es[i].value.o in os)
    ensures InTable(es) <= os
  {
  }

  // Tables of numbers

  /** `hash_get`. */
  function FindIndex(xs: Indexes, k: Raw): Option<Val> {
    if xs == [] then None else if xs[0].key == k then Some(xs[0].value) else FindIndex(xs[1..], k)
  }

  /** `hash_set`: what is stored under the unused key is never found. */
  function PutIndex(xs: Indexes, k: Raw, x: Val): Indexes {
    if k == UNUSED_INDEX then xs
    else if FindIndex(xs, k).None? then xs + [Hashes.Index(k, x)]
    else seq(|xs|, i requires 0 <= i < |xs| => if xs[i].key == k then Hashes.Index(k, x) else xs[i])
  }

  lemma {:induction false} FindIndexIs(xs: Indexes, k: Raw)
    ensures FindIndex(xs, k).Some? <==> exists i :: 0 <= i < |xs| && xs[i].key == k
    ensures FindIndex(xs, k).Some? ==> exists i :: 0 <= i < |xs| && xs[i] == Hashes.Index(k, FindIndex(xs, k).value)
    decreases |xs|
  {
    if xs != [] {
      FindIndexIs(xs[1..], k);
      if xs[0].key == k {
        assert xs[0] == Hashes.Index(k, FindIndex(xs, k).value);
      } else {
        if i :| 0 <= i < |xs[1..]| && xs[1..][i].key == k { assert xs[i + 1].key == k; }
        if i :| 0 <= i < |xs| && xs[i].key == k { assert xs[1..][i - 1].key == k; }
        if FindIndex(xs[1..], k).Some? {
          var i :| 0 <= i < |xs[1..]| && xs[1..][i] == Hashes.Index(k, FindIndex(xs[1..], k).value);
          assert xs[i + 1] == Hashes.Index(k, FindIndex(xs, k).value);
        }
      }
    }
  }

  lemma FindIndexStands(m: map<Raw, Value>, xs: Indexes, k: Raw, lay: Layout, os: set<Obj>)
    requires HashStands(m, xs, lay) && Refs(ValuesOf(xs)) <= os
    ensures FindIndex(xs, k).Some? <==> k in m
    ensures k in m ==> Stands(m[k], FindIndex(xs, k).value, lay) && (FindIndex(xs, k).value.Ref? ==> FindIndex(xs, k).value.o in os)
  {
    hide Stands, Refs, FindIndex;
    FindIndexIs(xs, k);
    if k in m { assert Indexed(k, xs); }
    if FindIndex(xs, k).Some? {
      var i :| 0 <= i < |xs| && xs[i] == Hashes.Index(k, FindIndex(xs, k).value);
      assert IndexStands(m, xs[i], lay);
      RefIn(ValuesOf(xs), i);
    }
  }

  lemma PutIndexStands(m: map<Raw, Value>, xs: Indexes, k: Raw, v: Value, x: Val, lay: Layout, os: set<Obj>)
    requires HashStands(m, xs, lay) && Stands(v, x, lay) && Refs(ValuesOf(xs)) <= os && (x.Ref? ==> x.o in os)
    ensures HashStands(HashPut(m, k, v), PutIndex(xs, k, x), lay) && Refs(ValuesOf(PutIndex(xs, k, x))) <= os
  {
    hide Stands, Refs, FindIndex;
    if k == UNUSED_INDEX { return; }
    FindIndexIs(xs, k);
    var r, m' := PutIndex(xs, k, x), HashPut(m, k, v);
    forall i | 0 <= i < |r| ensures IndexStands(m', r[i], lay) && (r[i].value.Ref? ==> r[i].value.o in os) {
      if i < |xs| {
        assert IndexStands(m, xs[i], lay);
        RefIn(ValuesOf(xs), i);
      }
    }
    forall n | n in m' ensures Indexed(n, r) {
      if n == k && FindIndex(xs, k).None? { assert r[|xs|].key == k; }
      else {
        if n != k { assert Indexed(n, xs); }
        var i :| 0 <= i < |xs| && xs[i].key == n;
        assert r[i].key == n;
      }
    }
    AllIndexes(r, os);
  }

  lemma AllIndexes(xs: Indexes, os: set<Obj>)
    requires forall i :: 0 <= i < |xs| ==> xs[i].value.Ref? ==> xs[i].value.o in os
    ensures Refs(ValuesOf(xs)) <= os
  {
  }

  /** The table of a map literal, filled as OP_MAP fills it. */
  function FillIndexes(h: Host, xs: Indexes, ys: seq<Val>): Indexes
    decreases |ys|
  {
    if ys == [] then xs else FillIndexes(h, PutIndex(xs, h.ofInt(|ys| - 1), ys[0]), ys[1..])
  }

  lemma {:induction false} FillStands(h: Host, m: map<Raw, Value>, xs: Indexes, vs: seq<Value>, ys: seq<Val>, lay: Layout, os: set<Obj>)
    requires HashStands(m, xs, lay) && AllStand(vs, ys, lay) && Refs(ValuesOf(xs)) <= os && Refs(ys) <= os
    ensures HashStands(FillHash(h, m, vs), FillIndexes(h, xs, ys), lay) && Refs(ValuesOf(FillIndexes(h, xs, ys))) <= os
    decreases |vs|
  {
    hide Stands, HashStands, Refs, PutIndex;
    if vs != [] {
      StandsThere(vs, ys, 0, lay, os);
      PutIndexStands(m, xs, h.ofInt(|vs| - 1), vs[0], ys[0], lay, os);
      TopStands(vs, ys, 1, lay, os);
      FillStands(h, HashPut(m, h.ofInt(|vs| - 1), vs[0]), PutIndex(xs, h.ofInt(|vs| - 1), ys[0]), vs[1..], ys[1..], lay, os);
    }
  }

  // The machine and its heap

  /** What the machine holds is in the heap. */
  predicate Held(m: Mach, os: set<Obj>) {
    Refs(m.stack) <= os && InTable(m.globals) <= os && forall i :: 0 <= i < |m.spots| ==> m.spots[i].fn in os
  }

  lemma HeldInside(heap: Heap, m: Mach)
    requires heap.Valid() && heap.roots == RootsOf(m)
    ensures Held(m, heap.all)
  {
    hide heap.Live, heap.strings.Valid, heap.strings.Contents, Refs, InTable, Present;
    heap.RootsLive();
    RootParts(heap.roots, heap.all);
    forall i | 0 <= i < |m.spots| ensures m.spots[i].fn in heap.all { PresentIn(FunctionsOf(m.spots), i); }
  }

  lemma RootsInside(m: Mach, os: set<Obj>)
    requires Held(m, os)
    ensures RootSet(RootsOf(m)) <= os
  {
    hide Refs, InTable;
    forall c | c in FunctionsOf(m.spots) && c.Some? ensures c.value in os {}
  }

  /** The machine moves on, its objects staying as they are. */
  method Move(heap: Heap, m': Mach, ghost m: Mach, ghost p: Program, ghost s: State, ghost t: State, ghost lay: Layout)
    requires heap.Valid() && Represents(heap, m, s, p, lay) && t.store.heap == s.store.heap && Shows(m', t, lay) && Held(m', heap.all)
    modifies heap`roots
    ensures heap.Valid() && Represents(heap, m', t, p, lay)
  {
    hide heap.Valid, Shows, Contains, Held, RootSet;
    RootsInside(m', heap.all);
    heap.SetRoots(RootsOf(m'));
  }

  function TopSpot(m: Mach): Spot
    requires m.spots != []
  {
    m.spots[|m.spots| - 1]
  }

  lemma Heights(m: Mach, s: State, lay: Layout)
    requires Shows(m, s, lay)
    ensures |m.stack| == |s.stack| && |m.spots| == |s.frames|
  {
    hide TableStands, OutStands, Stands, SpotStands;
  }

  lemma TopShows(m: Mach, s: State, lay: Layout)
    requires Shows(m, s, lay) && |s.frames| > 0
    ensures |m.spots| == |s.frames| && Top(s).fn < |lay.functions|
    ensures TopSpot(m) == Spot(lay.functions[Top(s).fn], Top(s).ip, Top(s).slots)
  {
    hide TableStands, OutStands, AllStand;
    assert SpotStands(Top(s), m.spots[|s.frames| - 1], lay);
  }

  /** The running function's object has its code and its constants. */
  lemma Running(heap: Heap, m: Mach, s: State, p: Program, lay: Layout)
    requires heap.Valid() && Represents(heap, m, s, p, lay) && |s.frames| > 0
    ensures |m.spots| == |s.frames| && TopSpot(m).ip == Top(s).ip && TopSpot(m).slots == Top(s).slots
    ensures
      var fn, b := Top(s).fn, TopSpot(m).fn.body;
      fn < |p| && TopSpot(m).fn in heap.all && b.Code? && b.code == p[fn].code && |b.constants| == |p[fn].consts|
      && AllStand(p[fn].consts, b.constants, lay) && Refs(b.constants) <= heap.all
  {
    hide heap.Valid, MapStands, TableStands, AllStand, Refs, InTable, OutStands;
    HeldInside(heap, m);
    TopShows(m, s, lay);
    var o := TopSpot(m).fn;
    heap.Inside(o);
    assert FunctionStands(p[Top(s).fn], o.body, lay);
    CodeKids(o.body, p[Top(s).fn], lay, heap.all);
    SameLength(p[Top(s).fn].consts, o.body.constants, lay);
  }

  lemma SameLength(vs: seq<Value>, xs: seq<Val>, lay: Layout)
    requires AllStand(vs, xs, lay)
    ensures |xs| == |vs|
  {
  }

  lemma StringStands(t: string, x: Val, lay: Layout)
    requires Stands(Str(t), x, lay)
    ensures x.Ref? && x.o.sort == StrSort && x.o.text == t
  {
  }

  /** A name that an instruction has as its operand is a string object in the heap. */
  lemma NameObject(heap: Heap, m: Mach, s: State, p: Program, lay: Layout, k: byte)
    requires heap.Valid() && Represents(heap, m, s, p, lay) && |s.frames| > 0 && ConstName(p, Top(s), k).Some?
    ensures
      m.spots != [] && var b := TopSpot(m).fn.body;
      b.Code? && k < |b.constants| && b.constants[k].Ref? && b.constants[k].o in heap.all
      && b.constants[k].o.sort == StrSort && b.constants[k].o.text == ConstName(p, Top(s), k).value
  {
    hide heap.Valid, Represents, AllStand, Stands, Refs;
    Running(heap, m, s, p, lay);
    var consts, xs := p[Top(s).fn].consts, TopSpot(m).fn.body.constants;
    StandsThere(consts, xs, k, lay, heap.all);
    StringStands(consts[k].s, xs[k], lay);
  }

  /** Among the objects of the heap a string is the only one with its text. */
  lemma OnlyKey(heap: Heap, t: map<string, Value>, es: Entries, key: Obj, lay: Layout)
    requires heap.Valid() && TableStands(t, es, lay) && InTable(es) <= heap.all && key in heap.all && key.sort == StrSort
    ensures OneKey(es, key)
  {
    hide heap.Valid, Stands, InTable;
    heap.Sorted();
    forall i | 0 <= i < |es| && es[i].key.Some? && es[i].key.value.text == key.text ensures es[i].key.value == key {
      assert EntryStands(t, es[i], lay);
      EntryIn(es, i);
    }
  }

  /** What the machine does in a turn. */
  datatype Reply = Went(m: Mach) | Finished | Stopped(error: Error)

  /** The reply is what the outcome on characters says, and the heap stands for the state after it, or for `s` if there is none. */
  ghost predicate Tells(heap: Heap, r: Reply, o: Outcome, m: Mach, s: State, p: Program, lay: Layout)
    reads heap`roots, heap`all, heap.all`body
  {
    match o
    case Next(t) => r.Went? && Represents(heap, r.m, t, p, lay)
    case Halt(_, st) => r.Finished? && st == s.store && Represents(heap, m, s, p, lay)
    case Fail(e, st) => r == Stopped(e) && st == s.store && Represents(heap, m, s, p, lay)
    case Crash => false
  }

  /** The machine is about to perform `i`, past which it has moved, and has what that takes. */
  ghost predicate About(heap: Heap, h: Host, m: Mach, i: Instr, p: Program, s: State, lay: Layout)
    reads heap, heap.list, heap.all, heap.strings, heap.strings.entries
  {
    heap.Valid() && Represents(heap, m, s, p, lay) && |s.frames| > 0 && !Execute(h, p, s, Top(s), i).Crash?
    && Top(s).slots + Needs(i) < |s.stack|
  }

  /** The machine with values pushed in place of some. */
  function Pushed(m: Mach, n: nat, x: Val): Mach
    requires n <= |m.stack|
  {
    m.(stack := m.stack[..|m.stack| - n] + [x])
  }

  function Popped(m: Mach, n: nat): Mach
    requires n <= |m.stack|
  {
    m.(stack := m.stack[..|m.stack| - n])
  }

  lemma PushedShows(m: Mach, s: State, n: nat, v: Value, x: Val, lay: Layout, os: set<Obj>)
    requires Shows(m, s, lay) && Held(m, os) && n <= |s.stack| && Stands(v, x, lay) && (x.Ref? ==> x.o in os)
    ensures n <= |m.stack| && Shows(Pushed(m, n, x), s.(stack := DropTop(s.stack, n) + [v]), lay) && Held(Pushed(m, n, x), os)
  {
    hide TableStands, OutStands, Stands, SpotsStand, Refs, InTable, AllStand;
    Heights(m, s, lay);
    DropStands(s.stack, m.stack, |s.stack| - n, lay, os);
    PushStands(DropTop(s.stack, n), m.stack[..|m.stack| - n], v, x, lay, os);
  }

  lemma PoppedShows(m: Mach, s: State, n: nat, lay: Layout, os: set<Obj>)
    requires Shows(m, s, lay) && Held(m, os) && n <= |s.stack|
    ensures n <= |m.stack| && Shows(Popped(m, n), s.(stack := DropTop(s.stack, n)), lay) && Held(Popped(m, n), os)
  {
    hide TableStands, OutStands, Stands, SpotsStand, Refs, InTable, AllStand;
    Heights(m, s, lay);
    DropStands(s.stack, m.stack, |s.stack| - n, lay, os);
  }

  /** A value some way down the stack. */
  lemma Peeked(m: Mach, s: State, n: nat, lay: Layout, os: set<Obj>)
    requires Shows(m, s, lay) && Held(m, os) && n < |s.stack|
    ensures n < |m.stack|
    ensures var x := m.stack[|m.stack| - 1 - n]; Stands(Peek(s.stack, n), x, lay) && (x.Ref? ==> x.o in os)
  {
    hide TableStands, OutStands, Stands, SpotsStand, Refs, InTable, AllStand;
    Heights(m, s, lay);
    StandsThere(s.stack, m.stack, |s.stack| - 1 - n, lay, os);
  }

  /** A constant or a slot is pushed. */
  method DoPush(heap: Heap, ghost h: Host, m: Mach, i: Instr, ghost p: Program, ghost s: State, ghost lay: Layout) returns (r: Reply)
    requires About(heap, h, m, i, p, s, lay) && (i.Nil? || i.True? || i.False? || i.Const? || i.Ld?)
    modifies heap`roots
    ensures heap.Valid() && Tells(heap, r, Execute(h, p, s, Top(s), i), m, s, p, lay)
  {
    hide heap.Valid, Shows, Contains, Held, Stands, AllStand, Refs;
    ghost var t := Execute(h, p, s, Top(s), i).state;
    ghost var v := t.stack[|t.stack| - 1];
    HeldInside(heap, m);
    Running(heap, m, s, p, lay);
    Heights(m, s, lay);
    var top, x := TopSpot(m), Plain(Null);
    match i {
      case Nil => NoRef(v, x, lay);
      case True => x := Plain(Bool(true)); NoRef(v, x, lay);
      case False => x := Plain(Bool(false)); NoRef(v, x, lay);
      case Const(k) =>
        x := top.fn.body.constants[k];
        StandsThere(p[Top(s).fn].consts, top.fn.body.constants, k, lay, heap.all);
      case Ld(k) =>
        x := m.stack[top.slots + k];
        Peeked(m, s, |s.stack| - 1 - (top.slots + k), lay, heap.all);
    }
    PushedShows(m, s, 0, v, x, lay, heap.all);
    assert DropTop(s.stack, 0) == s.stack;
    Move(heap, Pushed(m, 0, x), m, p, s, t, lay);
    r := Went(Pushed(m, 0, x));
  }

  lemma NoRef(v: Value, x: Val, lay: Layout)
    requires x == Plain(v) && !v.Str? && !v.Fun? && !v.Map?
    ensures Stands(v, x, lay)
  {
  }

  /** OP_GLD. */
  method DoLoadGlobal(heap: Heap, ghost h: Host, m: Mach, k: byte, ghost p: Program, ghost s: State, ghost lay: Layout) returns (r: Reply)
    requires About(heap, h, m, Gld(k), p, s, lay)
    modifies heap`roots
    ensures heap.Valid() && Tells(heap, r, Execute(h, p, s, Top(s), Gld(k)), m, s, p, lay)
  {
    hide heap.Valid, Contains, Held, Stands, AllStand, Refs, InTable, ConstName, TableStands, OutStands, SpotsStand, FindEntry;
    ghost var o := Execute(h, p, s, Top(s), Gld(k));
    HeldInside(heap, m);
    NameObject(heap, m, s, p, lay, k);
    var key := TopSpot(m).fn.body.constants[k].o;
    GlobalsInside(m, heap.all);
    OnlyKey(heap, s.store.globals, m.globals, key, lay);
    FindStands(s.store.globals, m.globals, key, lay, heap.all);
    var x := FindEntry(m.globals, key);
    if x.None? { return Stopped(Undefined(key.text)); }
    PushedShows(m, s, 0, s.store.globals[key.text], x.value, lay, heap.all);
    assert DropTop(s.stack, 0) == s.stack;
    Move(heap, Pushed(m, 0, x.value), m, p, s, o.state, lay);
    r := Went(Pushed(m, 0, x.value));
  }

  lemma GlobalsInside(m: Mach, os: set<Obj>)
    requires Held(m, os)
    ensures InTable(m.globals) <= os
  {
  }

  /** OP_DEF, which pops the value, and OP_GST, which does not and wants the name to exist. */
  method DoStoreGlobal(heap: Heap, ghost h: Host, m: Mach, i: Instr, ghost p: Program, ghost s: State, ghost lay: Layout) returns (r: Reply)
    requires About(heap, h, m, i, p, s, lay) && (i.Def? || i.Gst?)
    modifies heap`roots
    ensures heap.Valid() && Tells(heap, r, Execute(h, p, s, Top(s), i), m, s, p, lay)
  {
    hide heap.Valid, Contains, Held, Stands, AllStand, Refs, InTable, ConstName, TableStands, OutStands, SpotsStand, FindEntry, PutEntry;
    ghost var o := Execute(h, p, s, Top(s), i);
    var k := match i case Def(k) => k case Gst(k) => k;
    HeldInside(heap, m);
    NameObject(heap, m, s, p, lay, k);
    var key := TopSpot(m).fn.body.constants[k].o;
    GlobalsInside(m, heap.all);
    OnlyKey(heap, s.store.globals, m.globals, key, lay);
    FindStands(s.store.globals, m.globals, key, lay, heap.all);
    if i.Gst? && FindEntry(m.globals, key).None? { return Stopped(Undefined(key.text)); }
    Peeked(m, s, 0, lay, heap.all);
    var x := m.stack[|m.stack| - 1];
    PutEntryStands(s.store.globals, m.globals, key.text, Peek(s.stack, 0), key, x, lay, heap.all);
    var n := if i.Def? then 1 else 0;
    PoppedShows(m, s, n, lay, heap.all);
    assert DropTop(s.stack, 0) == s.stack;
    var m' := Popped(m, n).(globals := PutEntry(m.globals, key, x));
    GlobalsHeld(Popped(m, n), m'.globals, heap.all);
    Move(heap, m', m, p, s, o.state, lay);
    r := Went(m');
  }

  lemma GlobalsHeld(m: Mach, gs: Entries, os: set<Obj>)
    requires Held(m, os) && InTable(gs) <= os
    ensures Held(m.(globals := gs), os)
  {
    hide Refs, InTable;
  }

  /** Operators, but for the joining of strings. */
  method DoOperate(heap: Heap, h: Host, m: Mach, i: Instr, ghost p: Program, ghost s: State, ghost lay: Layout) returns (r: Reply)
    requires About(heap, h, m, i, p, s, lay) && (i.Unary? || (i.Binary? && !Joins(s, i)))
    modifies heap`roots
    ensures heap.Valid() && Tells(heap, r, Execute(h, p, s, Top(s), i), m, s, p, lay)
  {
    hide heap.Valid, Contains, Held, Stands, AllStand, Refs, InTable, TableStands, OutStands, SpotsStand, ApplyUnary, ApplyBinary,
      UnaryVal, BinaryVal;
    ghost var o := Execute(h, p, s, Top(s), i);
    HeldInside(heap, m);
    Peeked(m, s, 0, lay, heap.all);
    var top := |m.stack|;
    var x, n := None, 1;
    ghost var v := None;
    if i.Unary? {
      UnaryStands(h, i.uop, Peek(s.stack, 0), m.stack[top - 1], lay);
      x, v := UnaryVal(h, i.uop, m.stack[top - 1]), ApplyUnary(h, i.uop, Peek(s.stack, 0));
    } else {
      Peeked(m, s, 1, lay, heap.all);
      Identities(heap, m, s, p, lay, m.stack[top - 2], m.stack[top - 1]);
      SameStands(h, Peek(s.stack, 1), Peek(s.stack, 0), m.stack[top - 2], m.stack[top - 1], lay);
      BinaryStands(h, i.bop, Peek(s.stack, 1), Peek(s.stack, 0), m.stack[top - 2], m.stack[top - 1], lay);
      x, v, n := BinaryVal(h, i.bop, m.stack[top - 2], m.stack[top - 1]), ApplyBinary(h, i.bop, Peek(s.stack, 1), Peek(s.stack, 0)), 2;
    }
    if x.None? { return Stopped(BadOperands); }
    PushedShows(m, s, n, v.value, x.value, lay, heap.all);
    Move(heap, Pushed(m, n, x.value), m, p, s, o.state, lay);
    r := Went(Pushed(m, n, x.value));
  }

  /** What comparing objects rests on. */
  lemma Identities(heap: Heap, m: Mach, s: State, p: Program, lay: Layout, x: Val, y: Val)
    requires heap.Valid() && Represents(heap, m, s, p, lay) && (x.Ref? ==> x.o in heap.all) && (y.Ref? ==> y.o in heap.all)
    ensures Distinct(lay.maps) && Distinct(lay.functions)
    ensures IsSort(x, StrSort) && IsSort(y, StrSort) && x.o.text == y.o.text ==> x.o == y.o
  {
    hide heap.Valid, Shows;
    heap.Sorted();
  }

  /** The instruction joins two strings. */
  predicate Joins(s: State, i: Instr)
    requires |s.stack| > Needs(i)
  {
    i == Binary(Add) && Peek(s.stack, 1).Str? && Peek(s.stack, 0).Str?
  }

  /** OP_PRINT. */
  method DoPrint(heap: Heap, ghost h: Host, m: Mach, n: byte, ghost p: Program, ghost s: State, ghost lay: Layout) returns (r: Reply)
    requires About(heap, h, m, Print(n), p, s, lay)
    modifies heap`roots
    ensures heap.Valid() && Tells(heap, r, Execute(h, p, s, Top(s), Print(n)), m, s, p, lay)
  {
    hide heap.Valid, Contains, Held, Stands, AllStand, Refs, InTable, TableStands, SpotsStand;
    HeldInside(heap, m);
    Heights(m, s, lay);
    StackHeld(m, heap.all);
    TopStands(s.stack, m.stack, |s.stack| - n, lay, heap.all);
    PoppedShows(m, s, n, lay, heap.all);
    var m' := Popped(m, n).(out := m.out + [m.stack[|m.stack| - n..]]);
    OutHeld(Popped(m, n), m'.out, heap.all);
    Move(heap, m', m, p, s, Execute(h, p, s, Top(s), Print(n)).state, lay);
    r := Went(m');
  }

  lemma StackHeld(m: Mach, os: set<Obj>)
    requires Held(m, os)
    ensures Refs(m.stack) <= os
  {
  }

  lemma OutHeld(m: Mach, out: seq<seq<Val>>, os: set<Obj>)
    requires Held(m, os)
    ensures Held(m.(out := out), os)
  {
  }

  /** OP_POP and OP_ST. */
  method DoStack(heap: Heap, ghost h: Host, m: Mach, i: Instr, ghost p: Program, ghost s: State, ghost lay: Layout) returns (r: Reply)
    requires About(heap, h, m, i, p, s, lay) && (i.Pop? || i.St?)
    modifies heap`roots
    ensures heap.Valid() && Tells(heap, r, Execute(h, p, s, Top(s), i), m, s, p, lay)
  {
    hide heap.Valid, Contains, Held, Stands, AllStand, Refs, InTable, TableStands, SpotsStand, OutStands;
    HeldInside(heap, m);
    Heights(m, s, lay);
    StackHeld(m, heap.all);
    TopShows(m, s, lay);
    var m' := m;
    if i.Pop? {
      PoppedShows(m, s, 1, lay, heap.all);
      m' := Popped(m, 1);
    } else {
      Peeked(m, s, 0, lay, heap.all);
      var x, n := m.stack[|m.stack| - 1], TopSpot(m).slots + i.slot;
      SetStands(s.stack, m.stack, n, Peek(s.stack, 0), x, lay, heap.all);
      m' := m.(stack := m.stack[n := x]);
      StackNowHeld(m, m'.stack, heap.all);
    }
    Move(heap, m', m, p, s, Execute(h, p, s, Top(s), i).state, lay);
    r := Went(m');
  }

  lemma StackNowHeld(m: Mach, xs: seq<Val>, os: set<Obj>)
    requires Held(m, os) && Refs(xs) <= os
    ensures Held(m.(stack := xs), os)
  {
    hide InTable, Refs;
  }

  /** The running frame further along. */
  function Onward(m: Mach, off: nat): Mach
    requires m.spots != []
  {
    m.(spots := m.spots[..|m.spots| - 1] + [TopSpot(m).(ip := TopSpot(m).ip + off)])
  }

  lemma OnwardShows(m: Mach, s: State, off: nat, lay: Layout, os: set<Obj>)
    requires Shows(m, s, lay) && Held(m, os) && |s.frames| > 0
    ensures m.spots != []
    ensures Shows(Onward(m, off), s.(frames := s.frames[..|s.frames| - 1] + [Top(s).(ip := Top(s).ip + off)]), lay) && Held(Onward(m, off), os)
  {
    hide TableStands, OutStands, AllStand, Refs, InTable;
    var fs, spots := s.frames[..|s.frames| - 1] + [Top(s).(ip := Top(s).ip + off)], Onward(m, off).spots;
    forall i | 0 <= i < |fs| ensures SpotStands(fs[i], spots[i], lay) { assert SpotStands(s.frames[i], m.spots[i], lay); }
  }

  /** OP_JMP and OP_JMPF. */
  method DoJump(heap: Heap, ghost h: Host, m: Mach, i: Instr, ghost p: Program, ghost s: State, ghost lay: Layout) returns (r: Reply)
    requires About(heap, h, m, i, p, s, lay) && (i.Jmp? || i.Jmpf?)
    modifies heap`roots
    ensures heap.Valid() && Tells(heap, r, Execute(h, p, s, Top(s), i), m, s, p, lay)
  {
    hide heap.Valid, Contains, Held, Stands, Shows, FalseyVal, Falsey;
    HeldInside(heap, m);
    var go := true;
    if i.Jmpf? {
      Peeked(m, s, 0, lay, heap.all);
      FalseyStands(Peek(s.stack, 0), m.stack[|m.stack| - 1], lay);
      go := FalseyVal(m.stack[|m.stack| - 1]);
    }
    OnwardShows(m, s, i.off, lay, heap.all);
    var m' := if go then Onward(m, i.off) else m;
    Move(heap, m', m, p, s, Execute(h, p, s, Top(s), i).state, lay);
    r := Went(m');
  }

  /** A map that a value on the stack refers to is in the heap, with its contents. */
  lemma MapInHeap(heap: Heap, m: Mach, s: State, p: Program, lay: Layout, n: nat)
    requires heap.Valid() && Represents(heap, m, s, p, lay) && n < |s.stack|
    ensures n < |m.stack| && IsSort(m.stack[|m.stack| - 1 - n], MapSort) == Peek(s.stack, n).Map?
    ensures Peek(s.stack, n).Map? ==>
      var r, o := Peek(s.stack, n).ref, m.stack[|m.stack| - 1 - n].o;
      r < |s.store.heap| && r < |lay.maps| && o == lay.maps[r] && o in heap.all && o.body.Fields? && MapStands(s.store.heap[r], o.body, lay)
      && Kids(o.body) <= heap.all && InTable(o.body.table) <= heap.all && Refs(ValuesOf(o.body.indexes)) <= heap.all
      && TableStands(s.store.heap[r].table, o.body.table, lay) && HashStands(s.store.heap[r].hash, o.body.indexes, lay)
  {
    hide heap.Valid, TableStands, HashStands, FunctionStands, Refs, InTable, Held, Shows;
    HeldInside(heap, m);
    Peeked(m, s, n, lay, heap.all);
    if Peek(s.stack, n).Map? {
      var r, o := Peek(s.stack, n).ref, m.stack[|m.stack| - 1 - n].o;
      heap.Inside(o);
      FieldsKids(s.store.heap[r], o.body, lay, heap.all);
    }
  }

  lemma FieldsKids(m: MapObj, b: Body, lay: Layout, os: set<Obj>)
    requires MapStands(m, b, lay) && Kids(b) <= os
    ensures b.Fields? && InTable(b.table) <= os && Refs(ValuesOf(b.indexes)) <= os
    ensures TableStands(m.table, b.table, lay) && HashStands(m.hash, b.indexes, lay)
  {
    hide TableStands, HashStands, InTable, Refs;
  }

  function OrNull(x: Option<Val>): Val {
    if x.Some? then x.value else Plain(Null)
  }

  lemma NullStands(lay: Layout)
    ensures Stands(Null, Plain(Null), lay)
  {
  }

  /** The member of a map under a key object, or null. */
  lemma MemberStands(heap: Heap, t: map<string, Value>, es: Entries, key: Obj, lay: Layout)
    requires heap.Valid() && TableStands(t, es, lay) && InTable(es) <= heap.all && key in heap.all && key.sort == StrSort
    ensures var x := OrNull(FindEntry(es, key)); Stands(Lookup(t, key.text), x, lay) && (x.Ref? ==> x.o in heap.all)
  {
    hide heap.Valid, TableStands, InTable, Stands, FindEntry;
    OnlyKey(heap, t, es, key, lay);
    FindStands(t, es, key, lay, heap.all);
    NullStands(lay);
  }

  lemma ElementStands(m: map<Raw, Value>, xs: Indexes, k: Raw, lay: Layout, os: set<Obj>)
    requires HashStands(m, xs, lay) && Refs(ValuesOf(xs)) <= os
    ensures var x := OrNull(FindIndex(xs, k)); Stands(Lookup(m, k), x, lay) && (x.Ref? ==> x.o in os)
  {
    hide HashStands, Refs, Stands, FindIndex;
    FindIndexStands(m, xs, k, lay, os);
    NullStands(lay);
  }

  /** OP_GET. */
  method DoGet(heap: Heap, ghost h: Host, m: Mach, k: byte, ghost p: Program, ghost s: State, ghost lay: Layout) returns (r: Reply)
    requires About(heap, h, m, Get(k), p, s, lay)
    modifies heap`roots
    ensures heap.Valid() && Tells(heap, r, Execute(h, p, s, Top(s), Get(k)), m, s, p, lay)
  {
    hide heap.Valid, Contains, Held, Stands, Shows, Refs, InTable, ConstName, TableStands, HashStands, MapStands, FindEntry, Lookup;
    HeldInside(heap, m);
    MapInHeap(heap, m, s, p, lay, 0);
    var top := m.stack[|m.stack| - 1];
    if !IsSort(top, MapSort) { return Stopped(NotAMap); }
    NameObject(heap, m, s, p, lay, k);
    var key := TopSpot(m).fn.body.constants[k].o;
    MemberStands(heap, s.store.heap[Peek(s.stack, 0).ref].table, top.o.body.table, key, lay);
    var x := OrNull(FindEntry(top.o.body.table, key));
    PushedShows(m, s, 1, Lookup(s.store.heap[Peek(s.stack, 0).ref].table, key.text), x, lay, heap.all);
    Move(heap, Pushed(m, 1, x), m, p, s, Execute(h, p, s, Top(s), Get(k)).state, lay);
    r := Went(Pushed(m, 1, x));
  }

  /** What can be an index: a number, or a string. */
  lemma KeySorts(v: Value, x: Val, lay: Layout)
    requires Stands(v, x, lay)
    ensures v.Num? == (x.Plain? && x.v.Num?) && (v.Num? ==> x.v == v)
    ensures v.Str? == IsSort(x, StrSort) && (v.Str? ==> x.o.text == v.s)
  {
  }

  /** OP_GETI. */
  method DoGetIndex(heap: Heap, ghost h: Host, m: Mach, ghost p: Program, ghost s: State, ghost lay: Layout) returns (r: Reply)
    requires About(heap, h, m, Geti, p, s, lay)
    modifies heap`roots
    ensures heap.Valid() && Tells(heap, r, Execute(h, p, s, Top(s), Geti), m, s, p, lay)
  {
    hide heap.Valid, Contains, Held, Stands, Shows, Refs, InTable, TableStands, HashStands, MapStands, FindEntry, FindIndex, Lookup;
    HeldInside(heap, m);
    MapInHeap(heap, m, s, p, lay, 1);
    Peeked(m, s, 0, lay, heap.all);
    var o, key := m.stack[|m.stack| - 2], m.stack[|m.stack| - 1];
    if !IsSort(o, MapSort) { return Stopped(NotAMap); }
    KeySorts(Peek(s.stack, 0), key, lay);
    ghost var c, v := s.store.heap[Peek(s.stack, 1).ref], Null;
    var x;
    if key.Plain? && key.v.Num? {
      ElementStands(c.hash, o.o.body.indexes, key.v.raw, lay, heap.all);
      x, v := OrNull(FindIndex(o.o.body.indexes, key.v.raw)), Lookup(c.hash, key.v.raw);
    } else if IsSort(key, StrSort) {
      MemberStands(heap, c.table, o.o.body.table, key.o, lay);
      x, v := OrNull(FindEntry(o.o.body.table, key.o)), Lookup(c.table, key.o.text);
    } else {
      return Stopped(BadIndex);
    }
    PushedShows(m, s, 2, v, x, lay, heap.all);
    Move(heap, Pushed(m, 2, x), m, p, s, Execute(h, p, s, Top(s), Geti).state, lay);
    r := Went(Pushed(m, 2, x));
  }

  // Stores into maps

  /** A map with one member or element set. */
  function Stored(m: MapObj, key: Value, v: Value): MapObj
    requires key.Str? || key.Num?
  {
    if key.Str? then m.(table := m.table[key.s := v]) else m.(hash := HashPut(m.hash, key.raw, v))
  }

  /** The body of a map object with one member or element set. */
  function StoredBody(b: Body, key: Val, x: Val): (r: Body)
    requires b.Fields? && (IsSort(key, StrSort) || (key.Plain? && key.v.Num?))
    ensures r.Fields?
  {
    if key.Ref? then b.(table := PutEntry(b.table, key.o, x)) else b.(indexes := PutIndex(b.indexes, key.v.raw, x))
  }

  lemma FilledBody(table: map<string, Value>, es: Entries, m: map<Raw, Value>, xs: Indexes, lay: Layout, os: set<Obj>)
    requires TableStands(table, es, lay) && HashStands(m, xs, lay) && InTable(es) <= os && Refs(ValuesOf(xs)) <= os
    ensures MapStands(MapObj(table, m), Fields(es, xs), lay) && Kids(Fields(es, xs)) <= os
  {
    hide TableStands, HashStands, InTable, Refs;
  }

  lemma StoredStands(heap: Heap, c: MapObj, b: Body, key: Value, v: Value, ko: Val, x: Val, lay: Layout)
    requires heap.Valid() && MapStands(c, b, lay) && Kids(b) <= heap.all && Stands(v, x, lay) && (x.Ref? ==> x.o in heap.all)
    requires (key.Num? || key.Str?) && Stands(key, ko, lay) && (ko.Ref? ==> ko.o in heap.all)
    ensures b.Fields? && (IsSort(ko, StrSort) || (ko.Plain? && ko.v.Num?))
    ensures MapStands(Stored(c, key, v), StoredBody(b, ko, x), lay) && Kids(StoredBody(b, ko, x)) <= heap.all
  {
    hide heap.Valid, TableStands, HashStands, InTable, Refs, Stands, Kids, PutEntry, PutIndex;
    FieldsKids(c, b, lay, heap.all);
    KeySorts(key, ko, lay);
    if key.Str? {
      OnlyKey(heap, c.table, b.table, ko.o, lay);
      PutEntryStands(c.table, b.table, key.s, v, ko.o, x, lay, heap.all);
      FilledBody(c.table[key.s := v], PutEntry(b.table, ko.o, x), c.hash, b.indexes, lay, heap.all);
    } else {
      PutIndexStands(c.hash, b.indexes, key.raw, v, x, lay, heap.all);
      FilledBody(c.table, b.table, HashPut(c.hash, key.raw, v), PutIndex(b.indexes, key.raw, x), lay, heap.all);
    }
  }

  /** Map objects are no functions of the run, and none is another. */
  lemma OnlyThisMap(heap: Heap, m: Mach, s: State, p: Program, lay: Layout, r: nat)
    requires Represents(heap, m, s, p, lay) && r < |lay.maps| && lay.maps[r] in heap.all
    ensures lay.maps[r].body.Fields?
    ensures forall g :: 0 <= g < |p| && lay.functions[g] in heap.all ==> lay.functions[g] != lay.maps[r]
    ensures forall q :: 0 <= q < |lay.maps| && q != r ==> lay.maps[q] != lay.maps[r]
  {
    hide Shows, AllStand, TableStands, HashStands;
  }

  /** A map's body changes: that map has its new contents, and everything else is as it was. */
  method Write(heap: Heap, o: Obj, body: Body, ghost r: nat, ghost c: MapObj, ghost m: Mach, ghost p: Program, ghost s: State, ghost lay: Layout)
    requires heap.Valid() && Represents(heap, m, s, p, lay) && r < |s.store.heap| && r < |lay.maps| && lay.maps[r] == o && o in heap.all
    requires body.Fields? && MapStands(c, body, lay) && Kids(body) <= heap.all
    modifies o`body
    ensures heap.Valid() && Represents(heap, m, s.(store := WithMap(s.store, r, c)), p, lay)
  {
    hide heap.Valid, MapStands, FunctionStands, Shows, Kids;
    OnlyThisMap(heap, m, s, p, lay, r);
    heap.Sorted();
    heap.SetBody(o, body);
    assert Shows(m, s.(store := WithMap(s.store, r, c)), lay) by { StoreAside(m, s, WithMap(s.store, r, c), lay); }
  }

  lemma StoreAside(m: Mach, s: State, st: Store, lay: Layout)
    requires Shows(m, s, lay) && st.globals == s.store.globals && st.out == s.store.out
    ensures Shows(m, s.(store := st), lay)
  {
  }

  /** The key under which an instruction stores. */
  function KeyOf(p: Program, s: State, i: Instr): Option<Value>
    requires |s.frames| > 0 && |s.stack| > Needs(i) && (i.Set? || i.Seti?)
  {
    if i.Seti? then Some(Peek(s.stack, 1)) else if ConstName(p, Top(s), i.k).Some? then Some(Str(ConstName(p, Top(s), i.k).value)) else None
  }

  /** What a store on characters comes to. */
  lemma Writes(h: Host, p: Program, s: State, i: Instr)
    requires |s.frames| > 0 && Top(s).slots + Needs(i) < |s.stack| && (i.Set? || i.Seti?) && !Execute(h, p, s, Top(s), i).Crash?
    ensures KeyOf(p, s, i).Some?
    ensures
      var c, key := Peek(s.stack, Needs(i) - 1), KeyOf(p, s, i).value;
      Execute(h, p, s, Top(s), i) ==
      if !c.Map? then Fail(NotAMap, s.store)
      else if !key.Str? && !key.Num? then Fail(BadIndex, s.store)
      else if c.ref >= |s.store.heap| then Crash
      else Next(State(DropTop(s.stack, Needs(i)) + [Peek(s.stack, 0)], s.frames,
                      WithMap(s.store, c.ref, Stored(s.store.heap[c.ref], key, Peek(s.stack, 0)))))
  {
    hide ConstName;
  }

  /** OP_SET and OP_SETI. */
  method DoPut(heap: Heap, ghost h: Host, m: Mach, i: Instr, ghost p: Program, ghost s: State, ghost lay: Layout) returns (r: Reply)
    requires About(heap, h, m, i, p, s, lay) && (i.Set? || i.Seti?)
    modifies heap`roots, heap.all`body
    ensures heap.Valid() && Tells(heap, r, Execute(h, p, s, Top(s), i), m, s, p, lay)
  {
    hide heap.Valid, Contains, Held, Stands, Shows, Refs, InTable, ConstName, TableStands, HashStands, MapStands, Execute, Stored, StoredBody, Kids;
    HeldInside(heap, m);
    Writes(h, p, s, i);
    var n, top := Needs(i), |m.stack|;
    MapInHeap(heap, m, s, p, lay, n - 1);
    Peeked(m, s, 0, lay, heap.all);
    Peeked(m, s, n - 1, lay, heap.all);
    top := |m.stack|;
    var c, x := m.stack[top - n], m.stack[top - 1];
    if !IsSort(c, MapSort) { return Stopped(NotAMap); }
    var key;
    if i.Seti? {
      Peeked(m, s, 1, lay, heap.all);
      key := m.stack[top - 2];
      KeySorts(Peek(s.stack, 1), key, lay);
      if !IsSort(key, StrSort) && !(key.Plain? && key.v.Num?) { return Stopped(BadIndex); }
    } else {
      NameObject(heap, m, s, p, lay, i.k);
      key := TopSpot(m).fn.body.constants[i.k];
      NameStands(ConstName(p, Top(s), i.k).value, key, lay);
    }
    ghost var ref := Peek(s.stack, n - 1).ref;
    ghost var c' := Stored(s.store.heap[ref], KeyOf(p, s, i).value, Peek(s.stack, 0));
    StoredStands(heap, s.store.heap[ref], c.o.body, KeyOf(p, s, i).value, Peek(s.stack, 0), key, x, lay);
    Write(heap, c.o, StoredBody(c.o.body, key, x), ref, c', m, p, s, lay);
    ghost var s' := s.(store := WithMap(s.store, ref, c'));
    assert Shows(m, s', lay) && Held(m, heap.all);
    PushedShows(m, s', n, Peek(s.stack, 0), x, lay, heap.all);
    Move(heap, Pushed(m, n, x), m, p, s', Execute(h, p, s, Top(s), i).state, lay);
    r := Went(Pushed(m, n, x));
  }

  lemma NameStands(name: string, x: Val, lay: Layout)
    requires IsSort(x, StrSort) && x.o.text == name
    ensures Stands(Str(name), x, lay)
  {
  }

  // Instructions that allocate

  /** The string an instruction makes clashes with no string of the heap. */
  ghost predicate Unclashing(heap: Heap, h: Host, s: State, i: Instr)
    requires |s.stack| > Needs(i)
    reads heap, heap.strings, heap.strings.entries
  {
    Joins(s, i) ==> NoCollision(heap.strings.Contents().Keys, Joining(s)) && h.intern(Joining(s)) == Joining(s)
  }

  /** The string it makes. */
  function Joining(s: State): string
    requires |s.stack| > 2 && Joins(s, Binary(Add))
  {
    Peek(s.stack, 1).s + Peek(s.stack, 0).s
  }

  lemma Joined(h: Host, p: Program, s: State)
    requires |s.frames| > 0 && Top(s).slots + 2 < |s.stack| && Joins(s, Binary(Add)) && h.intern(Joining(s)) == Joining(s)
    ensures Execute(h, p, s, Top(s), Binary(Add)) == Next(s.(stack := DropTop(s.stack, 2) + [Str(Joining(s))]))
  {
    var a, b := Peek(s.stack, 1), Peek(s.stack, 0);
    assert ApplyBinary(h, Add, a, b) == Some(Str(a.s + b.s));
    hide ApplyBinary;
  }

  /** `concatenate`: the operands are popped, the new string is interned, which may collect, and then pushed. */
  method DoJoin(heap: Heap, ghost h: Host, m: Mach, ghost text: string, ghost p: Program, ghost s: State, ghost lay: Layout) returns (r: Reply)
    requires |s.stack| > 2 && Joins(s, Binary(Add)) && text == Joining(s)
    requires NoCollision(heap.strings.Contents().Keys, text) && h.intern(text) == text
    requires About(heap, h, m, Binary(Add), p, s, lay)
    modifies heap, heap.all`next, heap.all`isMarked, heap.strings, heap.strings.entries
    ensures heap.Valid() && fresh(heap.all - old(heap.all))
    ensures heap.strings.entries == old(heap.strings.entries) || fresh(heap.strings.entries)
    ensures Tells(heap, r, Execute(h, p, s, Top(s), Binary(Add)), m, s, p, lay)
    ensures forall k :: k in heap.strings.Contents() ==> k in old(heap.strings.Contents()) || k.text == text
  {
    hide heap.Valid, heap.Live, heap.strings.Contents, Shows, Held, MapStands, FunctionStands, Stands, Execute, Collector.Kept, NoCollision;
    Joined(h, p, s);
    HeldInside(heap, m);
    Peeked(m, s, 0, lay, heap.all);
    Peeked(m, s, 1, lay, heap.all);
    KeySorts(Peek(s.stack, 0), m.stack[|m.stack| - 1], lay);
    KeySorts(Peek(s.stack, 1), m.stack[|m.stack| - 2], lay);
    var a, b := m.stack[|m.stack| - 2].o, m.stack[|m.stack| - 1].o;
    PoppedShows(m, s, 2, lay, heap.all);
    var m1 := Popped(m, 2);
    ghost var s1 := s.(stack := DropTop(s.stack, 2));
    Move(heap, m1, m, p, s, s1, lay);
    var o := heap.StrTake(a.text + b.text);
    heap.Sorted();
    HeldInside(heap, m1);
    NameStands(o.text, Ref(o), lay);
    PushedShows(m1, s1, 0, Str(o.text), Ref(o), lay, heap.all);
    assert DropTop(s1.stack, 0) == s1.stack;
    Move(heap, Pushed(m1, 0, Ref(o)), m1, p, s1, Execute(h, p, s, Top(s), Binary(Add)).state, lay);
    r := Went(Pushed(m1, 0, Ref(o)));
  }

  predicate Extends(lay: Layout, lay': Layout) {
    lay.functions == lay'.functions && lay.maps <= lay'.maps
  }

  lemma MoreMaps(v: Value, x: Val, lay: Layout, lay': Layout)
    requires Stands(v, x, lay) && Extends(lay, lay')
    ensures Stands(v, x, lay')
  {
  }

  lemma MoreStand(vs: seq<Value>, xs: seq<Val>, lay: Layout, lay': Layout)
    requires AllStand(vs, xs, lay) && Extends(lay, lay')
    ensures AllStand(vs, xs, lay')
  {
    hide Stands;
    forall i | 0 <= i < |vs| ensures Stands(vs[i], xs[i], lay') { MoreMaps(vs[i], xs[i], lay, lay'); }
  }

  lemma MoreTable(t: map<string, Value>, es: Entries, lay: Layout, lay': Layout)
    requires TableStands(t, es, lay) && Extends(lay, lay')
    ensures TableStands(t, es, lay')
  {
    hide Stands;
    forall i | 0 <= i < |es| ensures EntryStands(t, es[i], lay') {
      assert EntryStands(t, es[i], lay);
      if es[i].key.Some? { MoreMaps(t[es[i].key.value.text], es[i].value, lay, lay'); }
    }
  }

  lemma MoreHash(m: map<Raw, Value>, xs: Indexes, lay: Layout, lay': Layout)
    requires HashStands(m, xs, lay) && Extends(lay, lay')
    ensures HashStands(m, xs, lay')
  {
    hide Stands;
    forall i | 0 <= i < |xs| ensures IndexStands(m, xs[i], lay') {
      assert IndexStands(m, xs[i], lay);
      MoreMaps(m[xs[i].key], xs[i].value, lay, lay');
    }
  }

  lemma MoreFields(m: MapObj, b: Body, lay: Layout, lay': Layout)
    requires MapStands(m, b, lay) && Extends(lay, lay')
    ensures MapStands(m, b, lay')
  {
    hide TableStands, HashStands;
    MoreTable(m.table, b.table, lay, lay');
    MoreHash(m.hash, b.indexes, lay, lay');
  }

  lemma MoreCode(f: Function, b: Body, lay: Layout, lay': Layout)
    requires FunctionStands(f, b, lay) && Extends(lay, lay')
    ensures FunctionStands(f, b, lay')
  {
    hide AllStand;
    MoreStand(f.consts, b.constants, lay, lay');
  }

  lemma MoreShows(m: Mach, s: State, lay: Layout, lay': Layout)
    requires Shows(m, s, lay) && Extends(lay, lay')
    ensures Shows(m, s, lay')
  {
    hide AllStand, TableStands;
    MoreStand(s.stack, m.stack, lay, lay');
    MoreTable(s.store.globals, m.globals, lay, lay');
    forall i | 0 <= i < |s.frames| ensures SpotStands(s.frames[i], m.spots[i], lay') { assert SpotStands(s.frames[i], m.spots[i], lay); }
    forall i | 0 <= i < |s.store.out| ensures AllStand(s.store.out[i], m.out[i], lay') { MoreStand(s.store.out[i], m.out[i], lay, lay'); }
  }

  /** A heap in which one more map is laid out represents the state with that map. */
  lemma OneMoreMap(heap: Heap, m: Mach, s: State, p: Program, lay: Layout, o: Obj, c: MapObj)
    requires Represents(heap, m, s, p, lay) && o !in lay.maps && MapStands(c, o.body, lay)
    ensures Represents(heap, m, s.(store := s.store.(heap := s.store.heap + [c])), p, lay.(maps := lay.maps + [o]))
  {
    hide Shows, MapStands, FunctionStands;
    var lay', s' := lay.(maps := lay.maps + [o]), s.(store := s.store.(heap := s.store.heap + [c]));
    MoreShows(m, s, lay, lay');
    StoreAside(m, s, s'.store, lay');
    forall r | 0 <= r < |lay'.maps| && lay'.maps[r] in heap.all ensures MapStands(s'.store.heap[r], lay'.maps[r].body, lay') {
      MoreFields(s'.store.heap[r], lay'.maps[r].body, lay, lay');
    }
    forall g | 0 <= g < |p| && lay.functions[g] in heap.all ensures FunctionStands(p[g], lay.functions[g].body, lay') {
      MoreCode(p[g], lay.functions[g].body, lay, lay');
    }
  }

  /** `sizeof(map_t)` on a 64-bit machine. */
  const MAP_SIZE: nat := 48

  lemma NoFields(lay: Layout)
    ensures Kids(Fields([], [])) == {} && HashStands(map[], [], lay) && Refs(ValuesOf([])) == {}
    ensures TableStands(map[], [], lay) && InTable([]) == {}
  {
  }

  lemma MadeMap(h: Host, p: Program, s: State, n: byte)
    requires |s.frames| > 0 && Top(s).slots + n < |s.stack|
    ensures
      var c := MapObj(map[], FillHash(h, map[], s.stack[|s.stack| - n..]));
      Execute(h, p, s, Top(s), MakeMap(n))
      == Next(State(DropTop(s.stack, n) + [Map(|s.store.heap|)], s.frames, s.store.(heap := s.store.heap + [c])))
  {
    hide FillHash;
  }

  /** OP_MAP: the new map is allocated, which may collect, while its elements are still on the stack; then it is filled. */
  method DoMap(heap: Heap, h: Host, m: Mach, n: byte, ghost p: Program, ghost s: State, lay: Layout) returns (r: Reply, lay': Layout)
    requires About(heap, h, m, MakeMap(n), p, s, lay)
    modifies heap, heap.all`next, heap.all`isMarked, heap.strings.entries
    ensures heap.Valid() && fresh(heap.all - old(heap.all)) && Extends(lay, lay')
    ensures Tells(heap, r, Execute(h, p, s, Top(s), MakeMap(n)), m, s, p, lay')
    ensures heap.strings.entries == old(heap.strings.entries) && heap.strings.Contents().Keys <= old(heap.strings.Contents().Keys)
    ensures heap.list != [] && heap.list[1..] == if old(heap.allotted) + 48 > old(heap.nextGC) then Collector.Kept(old(heap.list), old(heap.Live()), false) else old(heap.list)
  {
    hide heap.Valid, heap.Live, heap.strings.Contents, Shows, Held, TableStands, HashStands, MapStands, FunctionStands, Refs, InTable, Stands,
      Execute, Collector.Kept, Kids, FillHash, AllStand;
    MadeMap(h, p, s, n);
    NoFields(lay);
    var o := heap.New(MAP_SIZE, Fields([], []));
    HeldInside(heap, m);
    StackHeld(m, heap.all);
    Heights(m, s, lay);
    Stacks(m, s, lay);
    ghost var vs := s.stack[|s.stack| - n..];
    var ys := m.stack[|m.stack| - n..];
    TopStands(s.stack, m.stack, |s.stack| - n, lay, heap.all);
    FillStands(h, map[], [], vs, ys, lay, heap.all);
    var xs := FillIndexes(h, [], ys);
    FilledBody(map[], [], FillHash(h, map[], vs), xs, lay, heap.all);
    heap.SetBody(o, Fields([], xs));
    ghost var c := MapObj(map[], FillHash(h, map[], vs));
    OneMoreMap(heap, m, s, p, lay, o, c);
    lay' := lay.(maps := lay.maps + [o]);
    ghost var s' := s.(store := s.store.(heap := s.store.heap + [c]));
    NewMap(lay', o);
    PushedShows(m, s', n, Map(|s.store.heap|), Ref(o), lay', heap.all);
    Move(heap, Pushed(m, n, Ref(o)), m, p, s', Execute(h, p, s, Top(s), MakeMap(n)).state, lay');
    r := Went(Pushed(m, n, Ref(o)));
  }

  lemma Stacks(m: Mach, s: State, lay: Layout)
    requires Shows(m, s, lay)
    ensures AllStand(s.stack, m.stack, lay)
  {
  }

  lemma NewMap(lay: Layout, o: Obj)
    requires lay.maps != [] && lay.maps[|lay.maps| - 1] == o && o.sort == MapSort
    ensures Stands(Map(|lay.maps| - 1), Ref(o), lay)
  {
  }

  // Calls

  /** An object's number in the order of its making stands for its address. */
  function Number(os: seq<Obj>, o: Obj): nat {
    if os == [] || os[0] == o then 0 else 1 + Number(os[1..], o)
  }

  /** What a native function gets for a value. */
  function Named(x: Val, lay: Layout): Value {
    if x.Plain? then x.v
    else if x.o.sort == StrSort then Str(x.o.text)
    else if x.o.sort == FunSort then Fun(Number(lay.functions, x.o))
    else Map(Number(lay.maps, x.o))
  }

  function AllNamed(xs: seq<Val>, lay: Layout): (vs: seq<Value>)
    ensures |vs| == |xs| && forall i :: 0 <= i < |xs| ==> vs[i] == Named(xs[i], lay)
  {
    seq(|xs|, i requires 0 <= i < |xs| => Named(xs[i], lay))
  }

  lemma {:induction false} NumberIs(os: seq<Obj>, i: nat)
    requires i < |os| && Distinct(os)
    ensures Number(os, os[i]) == i
    decreases |os|
  {
    if i > 0 { NumberIs(os[1..], i - 1); }
  }

  lemma NamedIs(v: Value, x: Val, lay: Layout)
    requires Stands(v, x, lay) && Distinct(lay.maps) && Distinct(lay.functions)
    ensures Named(x, lay) == v
  {
    if v.Map? { NumberIs(lay.maps, v.ref); }
    if v.Fun? { NumberIs(lay.functions, v.site); }
  }

  lemma AllNamedIs(vs: seq<Value>, xs: seq<Val>, lay: Layout)
    requires AllStand(vs, xs, lay) && Distinct(lay.maps) && Distinct(lay.functions)
    ensures AllNamed(xs, lay) == vs
  {
    hide Stands, Named;
    forall i | 0 <= i < |vs| ensures Named(xs[i], lay) == vs[i] { NamedIs(vs[i], xs[i], lay); }
  }

  /** The lines printed, read off the objects. */
  function Lines(out: seq<seq<Val>>, lay: Layout): (r: seq<seq<Value>>)
    ensures |r| == |out| && forall i :: 0 <= i < |out| ==> r[i] == AllNamed(out[i], lay)
  {
    seq(|out|, i requires 0 <= i < |out| => AllNamed(out[i], lay))
  }

  /** What a machine and its heap hold, read off the objects, is what the state holds. */
  lemma LinesAre(heap: Heap, m: Mach, s: State, p: Program, lay: Layout)
    requires Represents(heap, m, s, p, lay)
    ensures Lines(m.out, lay) == s.store.out
  {
    hide AllStand, TableStands, MapStands, FunctionStands, SpotsStand, AllNamed;
    forall i | 0 <= i < |m.out| ensures AllNamed(m.out[i], lay) == s.store.out[i] { AllNamedIs(s.store.out[i], m.out[i], lay); }
  }

  lemma Callees(v: Value, x: Val, lay: Layout)
    requires Stands(v, x, lay)
    ensures v.Fun? == IsSort(x, FunSort) && (v.Fun? ==> v.site < |lay.functions| && x.o == lay.functions[v.site])
    ensures v.Cfn? == (x.Plain? && x.v.Cfn?) && (v.Cfn? ==> x.v == v)
  {
  }

  /** `vm_call`. */
  method DoCall(heap: Heap, h: Host, m: Mach, n: byte, ghost p: Program, ghost s: State, lay: Layout) returns (r: Reply)
    requires About(heap, h, m, Call(n), p, s, lay) && |s.frames| <= FRAMES_MAX
    modifies heap`roots
    ensures heap.Valid() && Tells(heap, r, Execute(h, p, s, Top(s), Call(n)), m, s, p, lay)
  {
    hide heap.Valid, Held, Stands, Refs, InTable, TableStands, MapStands, SpotsStand, OutStands, AllStand, Named;
    ghost var t := Execute(h, p, s, Top(s), Call(n));
    HeldInside(heap, m);
    Heights(m, s, lay);
    Peeked(m, s, n, lay, heap.all);
    var callee := m.stack[|m.stack| - 1 - n];
    Callees(Peek(s.stack, n), callee, lay);
    if IsSort(callee, FunSort) {
      assert FunctionStands(p[Peek(s.stack, n).site], callee.o.body, lay);
      if callee.o.body.arity != n { return Stopped(WrongArgumentCount); }
      if |m.spots| == FRAMES_MAX { return Stopped(StackOverflow); }
      var m' := m.(spots := m.spots + [Spot(callee.o, 0, |m.stack| - n - 1)]);
      CalledShows(m, s, m'.spots[|m.spots|], Frame(Peek(s.stack, n).site, 0, |s.stack| - n - 1), lay, heap.all);
      Move(heap, m', m, p, s, t.state, lay);
      r := Went(m');
    } else if callee.Plain? && callee.v.Cfn? {
      StackHeld(m, heap.all);
      TopStands(s.stack, m.stack, |s.stack| - n, lay, heap.all);
      AllNamedIs(s.stack[|s.stack| - n..], m.stack[|m.stack| - n..], lay);
      var x := Num(h.call(callee.v.native, AllNamed(m.stack[|m.stack| - n..], lay)));
      NoRef(x, Plain(x), lay);
      PushedShows(m, s, n + 1, x, Plain(x), lay, heap.all);
      Move(heap, Pushed(m, n + 1, Plain(x)), m, p, s, t.state, lay);
      r := Went(Pushed(m, n + 1, Plain(x)));
    } else {
      r := Stopped(NotCallable);
    }
  }

  lemma CalledShows(m: Mach, s: State, spot: Spot, f: Frame, lay: Layout, os: set<Obj>)
    requires Shows(m, s, lay) && Held(m, os) && SpotStands(f, spot, lay) && spot.fn in os
    ensures Shows(m.(spots := m.spots + [spot]), s.(frames := s.frames + [f]), lay) && Held(m.(spots := m.spots + [spot]), os)
  {
    hide TableStands, OutStands, AllStand, SpotStands, Refs, InTable;
  }

  /** OP_RET; a script's return ends the run. */
  method DoReturn(heap: Heap, ghost h: Host, m: Mach, ghost p: Program, ghost s: State, ghost lay: Layout) returns (r: Reply)
    requires About(heap, h, m, Ret, p, s, lay)
    modifies heap`roots
    ensures heap.Valid() && Tells(heap, r, Execute(h, p, s, Top(s), Ret), m, s, p, lay)
  {
    hide heap.Valid, Contains, Held, Stands, AllStand, Refs, InTable, TableStands, OutStands, SpotStands;
    HeldInside(heap, m);
    Heights(m, s, lay);
    if |m.spots| == 1 { return Finished; }
    TopShows(m, s, lay);
    Peeked(m, s, 0, lay, heap.all);
    var x, n := m.stack[|m.stack| - 1], |m.stack| - TopSpot(m).slots;
    PushedShows(m, s, n, Peek(s.stack, 0), x, lay, heap.all);
    var m1 := Pushed(m, n, x);
    var m' := m1.(spots := m1.spots[..|m1.spots| - 1]);
    ReturnedShows(m1, s.(stack := DropTop(s.stack, n) + [Peek(s.stack, 0)]), lay, heap.all);
    Move(heap, m', m, p, s, Execute(h, p, s, Top(s), Ret).state, lay);
    r := Went(m');
  }

  lemma ReturnedShows(m: Mach, s: State, lay: Layout, os: set<Obj>)
    requires Shows(m, s, lay) && Held(m, os) && |s.frames| > 0
    ensures m.spots != []
    ensures
      var m' := m.(spots := m.spots[..|m.spots| - 1]);
      Shows(m', s.(frames := s.frames[..|s.frames| - 1]), lay) && Held(m', os)
  {
    hide TableStands, OutStands, AllStand, SpotStands, Refs, InTable;
  }

  // Turns and runs

  /** The instructions that change nothing but what the machine holds. */
  predicate Light(i: Instr) {
    !i.MakeMap? && !i.Set? && !i.Seti?
  }

  method PerformLight(heap: Heap, h: Host, m: Mach, i: Instr, ghost p: Program, ghost s: State, lay: Layout) returns (r: Reply)
    requires About(heap, h, m, i, p, s, lay) && |s.frames| <= FRAMES_MAX && Light(i) && !i.Binary? && !i.Unary?
    modifies heap`roots
    ensures heap.Valid() && Tells(heap, r, Execute(h, p, s, Top(s), i), m, s, p, lay)
  {
    hide About, Tells, Execute, heap.Valid;
    if i.Print? { r := DoPrint(heap, h, m, i.n, p, s, lay); }
    else if i.Pop? || i.St? { r := DoStack(heap, h, m, i, p, s, lay); }
    else if i.Call? { r := DoCall(heap, h, m, i.argc, p, s, lay); }
    else if i.Ret? { r := DoReturn(heap, h, m, p, s, lay); }
    else if i.Gld? { r := DoLoadGlobal(heap, h, m, i.k, p, s, lay); }
    else if i.Def? || i.Gst? { r := DoStoreGlobal(heap, h, m, i, p, s, lay); }
    else if i.Jmp? || i.Jmpf? { r := DoJump(heap, h, m, i, p, s, lay); }
    else if i.Get? { r := DoGet(heap, h, m, i.k, p, s, lay); }
    else if i.Geti? { r := DoGetIndex(heap, h, m, p, s, lay); }
    else { r := DoPush(heap, h, m, i, p, s, lay); }
  }

  /** An instruction after which every object is as it was. */
  method PerformQuiet(heap: Heap, h: Host, m: Mach, i: Instr, ghost p: Program, ghost s: State, lay: Layout) returns (r: Reply)
    requires |s.stack| > Needs(i) && !Joins(s, i) && Light(i) && |s.frames| <= FRAMES_MAX
    requires About(heap, h, m, i, p, s, lay)
    modifies heap`roots
    ensures heap.Valid() && Tells(heap, r, Execute(h, p, s, Top(s), i), m, s, p, lay)
  {
    hide About, Tells, Execute, heap.Valid;
    if i.Unary? || i.Binary? { r := DoOperate(heap, h, m, i, p, s, lay); }
    else { r := PerformLight(heap, h, m, i, p, s, lay); }
  }

  /** Both operands are string objects. */
  predicate JoinsVals(m: Mach, i: Instr) {
    i == Binary(Add) && |m.stack| > 1 && IsSort(m.stack[|m.stack| - 2], StrSort) && IsSort(m.stack[|m.stack| - 1], StrSort)
  }

  lemma JoinsSeen(m: Mach, s: State, i: Instr, lay: Layout)
    requires Shows(m, s, lay) && |s.stack| > Needs(i)
    ensures JoinsVals(m, i) == Joins(s, i)
  {
    hide TableStands, OutStands, SpotsStand, Stands;
    if i == Binary(Add) {
      KeySorts(s.stack[|s.stack| - 1], m.stack[|s.stack| - 1], lay);
      KeySorts(s.stack[|s.stack| - 2], m.stack[|s.stack| - 2], lay);
    }
  }

  lemma Parts(heap: Heap, h: Host, m: Mach, i: Instr, p: Program, s: State, lay: Layout)
    requires About(heap, h, m, i, p, s, lay)
    ensures heap.Valid() && Shows(m, s, lay) && |s.stack| > Needs(i)
  {
    hide heap.Valid, Shows, Contains, Execute;
  }

  /** An instruction, past which the machine has moved. */
  method Perform(heap: Heap, h: Host, m: Mach, i: Instr, ghost p: Program, ghost s: State, lay: Layout) returns (r: Reply, lay': Layout)
    requires |s.stack| > Needs(i) && Unclashing(heap, h, s, i) && |s.frames| <= FRAMES_MAX
    requires About(heap, h, m, i, p, s, lay)
    modifies heap, heap.all`next, heap.all`isMarked, heap.all`body, heap.strings, heap.strings.entries
    ensures heap.Valid() && fresh(heap.all - old(heap.all)) && Extends(lay, lay')
    ensures heap.strings.entries == old(heap.strings.entries) || fresh(heap.strings.entries)
    ensures Tells(heap, r, Execute(h, p, s, Top(s), i), m, s, p, lay')
    ensures forall k :: k in heap.strings.Contents() ==> k in old(heap.strings.Contents()) || Made(s, i) == Some(k.text)
  {
    hide *;
    lay' := lay;
    Parts(heap, h, m, i, p, s, lay);
    JoinsSeen(m, s, i, lay);
    Cases(heap, h, s, i, lay);
    if JoinsVals(m, i) { r := DoJoin(heap, h, m, Joining(s), p, s, lay); }
    else if i.MakeMap? { r, lay' := DoMap(heap, h, m, i.n, p, s, lay); }
    else if i.Set? || i.Seti? { r := DoPut(heap, h, m, i, p, s, lay); }
    else { r := PerformQuiet(heap, h, m, i, p, s, lay); }
  }

  /** The string an instruction makes, if it makes one. */
  function Made(s: State, i: Instr): Option<string>
    requires |s.stack| > Needs(i)
  {
    if Joins(s, i) then Some(Joining(s)) else None
  }

  lemma Cases(heap: Heap, h: Host, s: State, i: Instr, lay: Layout)
    requires |s.stack| > Needs(i) && Unclashing(heap, h, s, i)
    ensures Joins(s, i) ==>
      i == Binary(Add) && |s.stack| > 2 && NoCollision(heap.strings.Contents().Keys, Joining(s)) && h.intern(Joining(s)) == Joining(s)
    ensures Joins(s, i) ==> Made(s, i) == Some(Joining(s))
    ensures !i.MakeMap? && !i.Set? && !i.Seti? ==> Light(i)
    ensures Extends(lay, lay)
  {
    hide NoCollision, Joining, heap.strings.Contents;
  }

  function Fetched(p: Program, s: State): Option<Instr>
    requires |s.frames| > 0
  {
    Decode(Machine.Code(p, Top(s)), Top(s).ip)
  }

  lemma StepParts(h: Host, p: Program, s: State)
    requires !Step(h, p, s).Crash?
    ensures 0 < |s.frames| <= FRAMES_MAX && Fetched(p, s).Some?
    ensures
      var i := Fetched(p, s).value;
      var s1 := Verifier.Past(s, i);
      Step(h, p, s) == Execute(h, p, s1, Top(s1), i) && Top(s1).slots + Needs(i) < |s1.stack| && s1.stack == s.stack && |s1.frames| == |s.frames|
  {
    hide Decode;
    var i := Fetched(p, s).value;
    Verifier.StepExecutes(h, p, s, i);
    NeedsMet(h, p, Verifier.Past(s, i), Top(Verifier.Past(s, i)), i);
  }

  lemma NeedsMet(h: Host, p: Program, s: State, f: Frame, i: Instr)
    requires |s.frames| > 0 && !Execute(h, p, s, f, i).Crash?
    ensures f.slots + Needs(i) < |s.stack|
  {
  }

  lemma PastRepresents(heap: Heap, m: Mach, s: State, p: Program, lay: Layout, i: Instr)
    requires heap.Valid() && Represents(heap, m, s, p, lay) && |s.frames| > 0
    ensures m.spots != [] && Represents(heap, Onward(m, Size(i)), Verifier.Past(s, i), p, lay)
  {
    hide heap.Valid, Shows, Contains, Held;
    HeldInside(heap, m);
    OnwardShows(m, s, Size(i), lay, heap.all);
    Heights(m, s, lay);
    assert FunctionsOf(Onward(m, Size(i)).spots) == FunctionsOf(m.spots);
  }

  /** The characters of the heap's strings are all in `table`. */
  ghost predicate Listed(heap: Heap, table: set<string>)
    reads heap, heap.strings, heap.strings.entries
  {
    forall k :: k in heap.strings.Contents() ==> k.text in table
  }

  lemma NoneCollides(heap: Heap, text: string, table: set<string>)
    requires Listed(heap, table) && Interning.NoClash(table) && text in table
    ensures NoCollision(heap.strings.Contents().Keys, text)
  {
    hide heap.strings.Contents, Hash32;
    forall k | k in heap.strings.Contents() && |k.text| == |text| && Hash32(k.text) == Hash32(text) ensures k.text == text {
      assert !Interning.Clash(k.text, text);
    }
  }

  lemma NoneClashes(heap: Heap, h: Host, p: Program, s: State, i: Instr, table: set<string>)
    requires Listed(heap, table) && Interning.NoClash(table) && Interning.Concatenated(p, s) <= table
    requires |s.frames| > 0 && Fetched(p, s) == Some(i) && |s.stack| > Needs(i) && forall t :: t in table ==> h.intern(t) == t
    ensures var s1 := Verifier.Past(s, i); Unclashing(heap, h, s1, i) && (Joins(s1, i) ==> Joining(s1) in table)
  {
    hide heap.strings.Contents, Hash32, Decode, NoCollision, Listed, Interning.NoClash;
    var s1 := Verifier.Past(s, i);
    if Joins(s1, i) {
      assert Joining(s1) in Interning.Concatenated(p, s);
      NoneCollides(heap, Joining(s1), table);
    }
  }

  /** One turn of the dispatch loop on the heap: it does what the step does on characters. */
  method Dispatch(heap: Heap, h: Host, m: Mach, lay: Layout, ghost p: Program, ghost s: State, ghost table: set<string>) returns (r: Reply, lay': Layout)
    requires heap.Valid() && Represents(heap, m, s, p, lay) && !Step(h, p, s).Crash?
    requires Listed(heap, table) && Interning.NoClash(table) && Interning.Concatenated(p, s) <= table
    requires forall t :: t in table ==> h.intern(t) == t
    modifies heap, heap.all`next, heap.all`isMarked, heap.all`body, heap.strings, heap.strings.entries
    ensures heap.Valid() && fresh(heap.all - old(heap.all)) && Extends(lay, lay')
    ensures heap.strings.entries == old(heap.strings.entries) || fresh(heap.strings.entries)
    ensures Tells(heap, r, Step(h, p, s), m, s, p, lay') && Listed(heap, table)
  {
    hide heap.Valid, heap.strings.Contents, Shows, Contains, Held, Tells, Decode, Unclashing, Interning.NoClash, Interning.Concatenated, AllStand,
      Refs, Joining;
    StepParts(h, p, s);
    hide Step, Execute;
    Running(heap, m, s, p, lay);
    var i := Decode(TopSpot(m).fn.body.code, TopSpot(m).ip).value;
    NoneClashes(heap, h, p, s, i, table);
    PastRepresents(heap, m, s, p, lay, i);
    HeldInside(heap, m);
    Heights(m, s, lay);
    ghost var o := Step(h, p, s);
    r, lay' := Perform(heap, h, Onward(m, Size(i)), i, p, Verifier.Past(s, i), lay);
    BackAgain(heap, r, o, m, s, i, p, lay, lay');
  }

  /** If there is no next state, the heap stands for this one, as it did. */
  lemma BackAgain(heap: Heap, r: Reply, o: Outcome, m: Mach, s: State, i: Instr, p: Program, lay: Layout, lay': Layout)
    requires Shows(m, s, lay) && Extends(lay, lay') && |s.frames| > 0 && |m.spots| == |s.frames|
    requires Tells(heap, r, o, Onward(m, Size(i)), Verifier.Past(s, i), p, lay')
    ensures Tells(heap, r, o, m, s, p, lay')
  {
    hide Shows, Contains, Extends;
    MoreShows(m, s, lay, lay');
    assert FunctionsOf(Onward(m, Size(i)).spots) == FunctionsOf(m.spots);
  }

  /** The result when a step leads no further. */
  predicate Ends(h: Host, p: Program, last: State, r: Final) {
    match Step(h, p, last)
    case Next(_) => false
    case Halt(stack, st) => r == Halted(stack, st) && st == last.store
    case Fail(e, st) => r == Failed(e, st) && st == last.store
    case Crash => r == Crashed
  }

  lemma RunEnds(h: Host, p: Program, s: State)
    requires |s.frames| <= FRAMES_MAX && !Step(h, p, s).Next?
    ensures Ends(h, p, s, Run(h, p, s))
  {
    hide Decode, ApplyUnary, ApplyBinary, FillHash, ConstName;
  }

  /** The machine's last reply is what the result says. */
  predicate Reports(r: Reply, f: Final) {
    match f
    case Halted(_, _) => r.Finished?
    case Failed(e, _) => r == Stopped(e)
    case Crashed => false
  }

  /**
   Any run, from a machine and heap that stand for its first state. The machine goes by its
   objects alone; collections happen whenever an allocation asks for one, and strings that
   nothing mentions are forgotten and interned anew. If no two of the strings clash, it ends
   as the run ends on characters, and what it and its heap then hold stands for that end.
   */
  method RunOnHeap(heap: Heap, h: Host, m: Mach, lay: Layout, ghost p: Program, ghost s: State, ghost Ds: seq<Verifier.Depths>, ghost table: set<string>)
    returns (r: Reply, m': Mach, lay': Layout, ghost last: State)
    requires heap.Valid() && Represents(heap, m, s, p, lay) && Verifier.WellTyped(p, Ds) && Verifier.Inv(p, Ds, s) && |s.frames| <= FRAMES_MAX
    requires Listed(heap, table) && Interning.NoClash(table) && Interning.Made(h.Plain(), p, s) <= table
    modifies heap, heap.all`next, heap.all`isMarked, heap.all`body, heap.strings, heap.strings.entries
    ensures heap.Valid() && Represents(heap, m', last, p, lay') && Extends(lay, lay')
    ensures var f := Run(h.Plain(), p, s); Reports(r, f) && Ends(h.Plain(), p, last, f)
  {
    hide heap.Valid, heap.strings.Contents, Represents, Step, Interning.NoClash, Interning.Concatenated, Measure, Reports, Ends,
      Verifier.WellTyped, Verifier.Inv;
    var g := h.Plain();
    m', lay', last, r := m, lay, s, Went(m);
    Programs.TypedLength(p, Ds);
    while r.Went?
      invariant heap.Valid() && Represents(heap, m', last, p, lay') && Extends(lay, lay') && |last.frames| <= FRAMES_MAX
      invariant fresh(heap.all - old(heap.all)) && (heap.strings.entries == old(heap.strings.entries) || fresh(heap.strings.entries))
      invariant Listed(heap, table) && Interning.Made(g, p, last) <= table && Run(g, p, s) == Run(g, p, last)
      invariant Verifier.Inv(p, Ds, last)
      invariant !r.Went? ==> Reports(r, Run(g, p, last)) && Ends(g, p, last, Run(g, p, last))
      decreases r.Went?, Measure(p, last.frames, FRAMES_MAX)
    {
      if Step(g, p, last).Next? { StepsOn(g, p, last); }
      r, m', lay', last := Turn(heap, g, m', lay', p, last, Ds, table);
    }
  }

  lemma StepsOn(h: Host, p: Program, s: State)
    requires |s.frames| <= FRAMES_MAX && Step(h, p, s).Next?
    ensures
      var t := Step(h, p, s).state;
      |t.frames| <= FRAMES_MAX && Measure(p, t.frames, FRAMES_MAX) < Measure(p, s.frames, FRAMES_MAX)
      && Run(h, p, s) == Run(h, p, t) && Interning.Made(h, p, t) <= Interning.Made(h, p, s)
  {
    hide Step, Measure, Interning.Concatenated;
    StepDecreases(h, p, s);
  }

  lemma MakesFirst(h: Host, p: Program, s: State)
    requires |s.frames| <= FRAMES_MAX
    ensures Interning.Concatenated(p, s) <= Interning.Made(h, p, s)
  {
    hide Step, Measure, Interning.Concatenated;
  }

  /** One turn of a run of typed code. */
  method Turn(heap: Heap, h: Host, m: Mach, lay: Layout, ghost p: Program, ghost s: State, ghost Ds: seq<Verifier.Depths>, ghost table: set<string>)
    returns (r: Reply, m': Mach, lay': Layout, ghost t: State)
    requires heap.Valid() && Represents(heap, m, s, p, lay) && |Ds| == |p| && Verifier.WellTyped(p, Ds) && Verifier.Inv(p, Ds, s) && |s.frames| <= FRAMES_MAX
    requires Listed(heap, table) && Interning.NoClash(table) && Interning.Made(h, p, s) <= table && forall t :: t in table ==> h.intern(t) == t
    modifies heap, heap.all`next, heap.all`isMarked, heap.all`body, heap.strings, heap.strings.entries
    ensures heap.Valid() && Represents(heap, m', t, p, lay') && Extends(lay, lay') && Listed(heap, table)
    ensures fresh(heap.all - old(heap.all)) && (heap.strings.entries == old(heap.strings.entries) || fresh(heap.strings.entries))
    ensures r.Went? ==> Step(h, p, s) == Next(t) && Verifier.Inv(p, Ds, t)
    ensures !r.Went? ==> t == s && Reports(r, Run(h, p, s)) && Ends(h, p, s, Run(h, p, s))
  {
    hide heap.Valid, heap.strings.Contents, Represents, Step, Interning.NoClash, Interning.Concatenated, Measure,
      Verifier.WellTyped, Verifier.Inv, Interning.Made, Extends;
    Verifier.StepKeeps(h, p, Ds, s);
    MakesFirst(h, p, s);
    r, lay' := Dispatch(heap, h, m, lay, p, s, table);
    m', t := m, s;
    if r.Went? {
      m', t := r.m, Step(h, p, s).state;
    } else {
      RunEnds(h, p, s);
    }
  }
}
