/**
 How the state of a run lies in the collector's heap, and what that means for the run: the
 objects the collector keeps are enough to go on with the same result.
 */
module Layouts {
  import opened Values
  import opened Machine
  import opened Collections
  import opened Collector
  import Tables
  import Hashes

  type Entries = seq<Tables.Entry<Obj, Val>>
  type Indexes = seq<Hashes.Index<Val>>

  /** A frame of the machine: the object of the function it runs, the next byte, and slot 0. */
  datatype Spot = Spot(fn: Obj, ip: nat, slots: nat)

  /** What the machine holds besides its heap. */
  datatype Mach = Mach(stack: seq<Val>, spots: seq<Spot>, globals: Entries, out: seq<seq<Val>>)

  /** The objects of the maps and functions of a run, in the order of their making. */
  datatype Layout = Layout(maps: seq<Obj>, functions: seq<Obj>)

  function FunctionsOf(spots: seq<Spot>): (fs: seq<Option<Obj>>)
    ensures |fs| == |spots| && forall i :: 0 <= i < |spots| ==> fs[i] == Some(spots[i].fn)
  {
    seq(|spots|, i requires 0 <= i < |spots| => Some(spots[i].fn))
  }

  /** What the collector starts from. */
  function RootsOf(m: Mach): Roots {
    Roots([], m.stack, FunctionsOf(m.spots), [], m.globals)
  }

  /** `x` is the machine's representation of `v`. */
  predicate Stands(v: Value, x: Val, lay: Layout) {
    match v
    case Str(t) => x.Ref? && x.o.sort == StrSort && x.o.text == t
    case Map(r) => r < |lay.maps| && x == Ref(lay.maps[r]) && x.o.sort == MapSort
    case Fun(f) => f < |lay.functions| && x == Ref(lay.functions[f]) && x.o.sort == FunSort
    case _ => x == Plain(v)
  }

  predicate AllStand(vs: seq<Value>, xs: seq<Val>, lay: Layout) {
    |xs| == |vs| && forall i :: 0 <= i < |vs| ==> Stands(vs[i], xs[i], lay)
  }

  /** An entry for the name. */
  predicate Entered(name: string, es: Entries) {
    exists i :: 0 <= i < |es| && es[i].key.Some? && es[i].key.value.text == name
  }

  /** The entry is for a name of the table, and has its value. */
  predicate EntryStands(t: map<string, Value>, e: Tables.Entry<Obj, Val>, lay: Layout) {
    e.key.Some? ==> e.key.value.sort == StrSort && e.key.value.text in t && Stands(t[e.key.value.text], e.value, lay)
  }

  /** The entries are those of the table: every name has one, and none is about anything else. */
  predicate TableStands(t: map<string, Value>, es: Entries, lay: Layout) {
    (forall name :: name in t ==> Entered(name, es))
    && forall i :: 0 <= i < |es| ==> EntryStands(t, es[i], lay)
  }

  predicate Indexed(k: Raw, xs: Indexes) {
    exists i :: 0 <= i < |xs| && xs[i].key == k
  }

  predicate IndexStands(m: map<Raw, Value>, x: Hashes.Index<Val>, lay: Layout) {
    x.key in m && Stands(m[x.key], x.value, lay)
  }

  predicate HashStands(m: map<Raw, Value>, xs: Indexes, lay: Layout) {
    (forall k :: k in m ==> Indexed(k, xs))
    && forall i :: 0 <= i < |xs| ==> IndexStands(m, xs[i], lay)
  }

  predicate MapStands(m: MapObj, b: Body, lay: Layout) {
    b.Fields? && TableStands(m.table, b.table, lay) && HashStands(m.hash, b.indexes, lay)
  }

  predicate FunctionStands(f: Function, b: Body, lay: Layout) {
    b.Code? && b.arity == f.arity && b.code == f.code && AllStand(f.consts, b.constants, lay)
  }

  predicate SpotStands(f: Frame, spot: Spot, lay: Layout) {
    f.fn < |lay.functions| && spot == Spot(lay.functions[f.fn], f.ip, f.slots)
  }

  predicate SpotsStand(fs: seq<Frame>, spots: seq<Spot>, lay: Layout) {
    |spots| == |fs| && forall i :: 0 <= i < |fs| ==> SpotStands(fs[i], spots[i], lay)
  }

  /** The lines printed. */
  predicate OutStands(out: seq<seq<Value>>, printed: seq<seq<Val>>, lay: Layout) {
    |printed| == |out| && forall i :: 0 <= i < |out| ==> AllStand(out[i], printed[i], lay)
  }

  /** The machine, heap aside, stands for the state. */
  predicate Shows(m: Mach, s: State, lay: Layout) {
    AllStand(s.stack, m.stack, lay) && SpotsStand(s.frames, m.spots, lay)
    && TableStands(s.store.globals, m.globals, lay) && OutStands(s.store.out, m.out, lay)
  }

  /** Every map and function still in the heap has its contents. */
  ghost predicate Contains(all: set<Obj>, maps: seq<MapObj>, p: Program, lay: Layout)
    reads all`body
  {
    |lay.maps| == |maps| && |lay.functions| == |p| && Distinct(lay.maps) && Distinct(lay.functions)
    && (forall r :: 0 <= r < |lay.maps| && lay.maps[r] in all ==> MapStands(maps[r], lay.maps[r].body, lay))
    && forall f :: 0 <= f < |p| && lay.functions[f] in all ==> FunctionStands(p[f], lay.functions[f].body, lay)
  }

  /** The machine and its heap stand for the state of the run; what the machine holds are the roots. */
  ghost predicate Represents(heap: Heap, m: Mach, s: State, p: Program, lay: Layout)
    reads heap`roots, heap`all, heap.all`body
  {
    heap.roots == RootsOf(m) && Shows(m, s, lay) && Contains(heap.all, s.store.heap, p, lay)
  }

  /** The maps whose objects are in `os`. */
  function MapsIn(lay: Layout, os: set<Obj>): (keep: set<nat>)
    ensures forall r :: r in keep <==> 0 <= r < |lay.maps| && lay.maps[r] in os
  {
    set r | 0 <= r < |lay.maps| && lay.maps[r] in os
  }

  lemma StandsKnown(v: Value, x: Val, lay: Layout, os: set<Obj>)
    requires Stands(v, x, lay) && (x.Ref? ==> x.o in os)
    ensures Known(v, MapsIn(lay, os))
  {
  }

  lemma AllStandKnown(vs: seq<Value>, xs: seq<Val>, lay: Layout, os: set<Obj>)
    requires AllStand(vs, xs, lay) && Refs(xs) <= os
    ensures AllKnown(vs, MapsIn(lay, os))
  {
    hide Refs, Stands;
    forall i | 0 <= i < |vs| ensures Known(vs[i], MapsIn(lay, os)) {
      RefIn(xs, i);
      StandsKnown(vs[i], xs[i], lay, os);
    }
  }

  lemma TableStandsKnown(t: map<string, Value>, es: Entries, lay: Layout, os: set<Obj>)
    requires TableStands(t, es, lay) && InTable(es) <= os
    ensures TableKnown(t, MapsIn(lay, os))
  {
    hide InTable, Stands, Known;
    forall name | name in t ensures Known(t[name], MapsIn(lay, os)) {
      assert Entered(name, es);
      var i :| 0 <= i < |es| && es[i].key.Some? && es[i].key.value.text == name;
      assert EntryStands(t, es[i], lay);
      EntryIn(es, i);
      StandsKnown(t[name], es[i].value, lay, os);
    }
  }

  lemma HashStandsKnown(m: map<Raw, Value>, xs: Indexes, lay: Layout, os: set<Obj>)
    requires HashStands(m, xs, lay) && Refs(ValuesOf(xs)) <= os
    ensures TableKnown(m, MapsIn(lay, os))
  {
    hide Refs, Stands, Known;
    forall k | k in m ensures Known(m[k], MapsIn(lay, os)) {
      assert Indexed(k, xs);
      var i :| 0 <= i < |xs| && xs[i].key == k;
      assert IndexStands(m, xs[i], lay);
      RefIn(ValuesOf(xs), i);
      StandsKnown(m[k], xs[i].value, lay, os);
    }
  }

  lemma MapStandsKnown(m: MapObj, b: Body, lay: Layout, os: set<Obj>)
    requires MapStands(m, b, lay) && Kids(b) <= os
    ensures MapKnown(m, MapsIn(lay, os))
  {
    hide TableStands, HashStands, InTable, Refs;
    TableStandsKnown(m.table, b.table, lay, os);
    HashStandsKnown(m.hash, b.indexes, lay, os);
  }

  /** Whatever the run may still come to is reachable from the collector's roots: maps, running functions and their constants. */
  lemma InUseIsLive(heap: Heap, m: Mach, s: State, p: Program, lay: Layout)
    requires heap.Valid() && Represents(heap, m, s, p, lay)
    ensures Enough(s, MapsIn(lay, heap.Live()))
    ensures forall i :: 0 <= i < |s.frames| ==> s.frames[i].fn < |p| && lay.functions[s.frames[i].fn] in heap.Live()
    ensures forall f :: 0 <= f < |p| && lay.functions[f] in heap.Live() ==>
      lay.functions[f].body.Code? && Refs(lay.functions[f].body.constants) <= heap.Live()
  {
    hide heap.Live, heap.strings.Valid, heap.strings.Contents, Kids, InTable, Refs, Present, MapStands, TableStands, AllStand, FunctionStands,
      MapKnown, Interned, Bytes, Linked, OutStands;
    var live := heap.Live();
    heap.RootsLive();
    heap.LiveClosed();
    var keep := MapsIn(lay, live);
    RootParts(heap.roots, live);
    AllStandKnown(s.stack, m.stack, lay, live);
    TableStandsKnown(s.store.globals, m.globals, lay, live);
    forall r | r in keep ensures MapKnown(s.store.heap[r], keep) {
      MapStandsKnown(s.store.heap[r], lay.maps[r].body, lay, live);
    }
    forall i | 0 <= i < |s.frames| ensures s.frames[i].fn < |p| && lay.functions[s.frames[i].fn] in live {
      assert SpotStands(s.frames[i], m.spots[i], lay);
      PresentIn(heap.roots.frames, i);
    }
    forall f | 0 <= f < |p| && lay.functions[f] in live
      ensures lay.functions[f].body.Code? && Refs(lay.functions[f].body.constants) <= live
    {
      CodeKids(lay.functions[f].body, p[f], lay, live);
    }
  }

  lemma RootParts(r: Roots, os: set<Obj>)
    requires RootSet(r) <= os
    ensures Refs(r.stack) <= os && Present(r.frames) <= os && InTable(r.globals) <= os
  {
    hide Refs, Present, InTable;
  }

  lemma CodeKids(b: Body, f: Function, lay: Layout, os: set<Obj>)
    requires FunctionStands(f, b, lay) && Kids(b) <= os
    ensures b.Code? && Refs(b.constants) <= os
  {
    hide Refs, Present, AllStand;
  }

  /**
   A collection in the middle of a run. What stays in the heap represents the run without the
   maps that were freed, and from there the run has the result it would have had.
   */
  method CollectDuringRun(heap: Heap, ghost h: Host, ghost p: Program, ghost m: Mach, ghost s: State, ghost lay: Layout)
    requires heap.Valid() && Represents(heap, m, s, p, lay) && NoMaps(p) && |s.frames| <= FRAMES_MAX
    modifies heap, heap.all`next, heap.all`isMarked, heap.strings.entries
    ensures heap.Valid() && Represents(heap, m, Collected(s, MapsIn(lay, heap.all)), p, lay)
    ensures exists last :: SameBut(Run(h, p, s), Run(h, p, Collected(s, MapsIn(lay, heap.all))), last)
  {
    hide heap.Valid, heap.Live, heap.strings.Contents, Run, SameBut, Enough, NoMaps, MapStands, TableStands, AllStand, FunctionStands, RootSet,
      SpotsStand, OutStands, Collector.Kept, Restrict;
    ghost var live := heap.Live();
    heap.RootsLive();
    InUseIsLive(heap, m, s, p, lay);
    heap.Gather();
    ghost var last := Uncollected(h, p, s, MapsIn(lay, live));
  }

  /** After one collection, and no other, the result is the same. */
  lemma Uncollected(h: Host, p: Program, s: State, keep: set<nat>) returns (last: set<nat>)
    requires |s.frames| <= FRAMES_MAX && NoMaps(p) && Enough(s, keep)
    ensures SameBut(Run(h, p, s), Run(h, p, Collected(s, keep)), last)
  {
    hide SameBut, Enough, NoMaps, Run, RunCollecting;
    last := CollectingChangesNothing(h, p, s, keep, _ => None);
    NeverCollecting(h, p, Collected(s, keep));
  }

  lemma {:induction false} NeverCollecting(h: Host, p: Program, s: State)
    requires |s.frames| <= FRAMES_MAX
    ensures RunCollecting(h, p, s, _ => None) == Run(h, p, s)
    decreases Measure(p, s.frames, FRAMES_MAX)
  {
    hide Step;
    if Step(h, p, s).Next? {
      StepDecreases(h, p, s);
      NeverCollecting(h, p, Step(h, p, s).state);
    }
  }
}
