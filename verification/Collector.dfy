/**
 The mark-sweep collector of `gc.c` over the object list: marking with an explicit gray
 stack, the weak string table, the sweep, and the accounting of allocated bytes.
 */
module Collector {
  import opened Values
  import opened Tables
  import opened Syntax
  import opened Strings
  import Hashes

  /** A value of the machine: a reference to an object, or a value that is none. */
  datatype Val = Plain(v: Value) | Ref(o: Obj)

  /** `otype_t`. */
  datatype Sort = StrSort | UpvSort | FunSort | MapSort

  /** What an object holds. */
  datatype Body =
    | Text
    | Upvalue(closed: Val)
    | Code(arity: nat, code: seq<byte>, name: Option<Obj>, constants: seq<Val>, upvalues: seq<Option<Obj>>)
    | Fields(table: seq<Entry<Obj, Val>>, indexes: seq<Hashes.Index<Val>>)

  function SortOf(b: Body): Sort {
    match b
    case Text => StrSort
    case Upvalue(_) => UpvSort
    case Code(_, _, _, _, _) => FunSort
    case Fields(_, _) => MapSort
  }

  /** An object header with its payload; its sort, and the characters and the hash of a string, never change. */
  class Obj {
    const sort: Sort
    const size: nat
    const text: string
    const hash: nat
    var body: Body
    var isMarked: bool
    var next: Obj?

    /** `allocObj` and what its callers fill in; the mark is taken to start out clear. */
    constructor (size: nat, text: string, hash: nat, body: Body, next: Obj?)
      ensures this.size == size && this.text == text && this.hash == hash && this.body == body && this.next == next && !isMarked
      ensures sort == SortOf(body)
    {
      sort := SortOf(body);
      this.size, this.text, this.hash, this.body, this.next := size, text, hash, body, next;
      isMarked := false;
    }
  }

  function Of(v: Val): Option<Obj> {
    match v
    case Plain(_) => None
    case Ref(o) => Some(o)
  }

  /** The objects of a sequence of values. */
  function Refs(vs: seq<Val>): set<Obj> {
    set v | v in vs && v.Ref? :: v.o
  }

  function Present(os: seq<Option<Obj>>): set<Obj> {
    set o | o in os && o.Some? :: o.value
  }

  /** The objects a table mentions: keys and values. */
  function InTable(es: seq<Entry<Obj, Val>>): set<Obj> {
    (set e | e in es && e.key.Some? :: e.key.value) + (set e | e in es && e.value.Ref? :: e.value.o)
  }

  /** The objects `blackenObject` marks. */
  function Kids(b: Body): set<Obj> {
    match b
    case Text => {}
    case Upvalue(v) => Refs([v])
    case Code(_, _, name, constants, upvalues) => Present([name]) + Refs(constants) + Present(upvalues)
    case Fields(table, indexes) => InTable(table) + Refs(ValuesOf(indexes))
  }

  /** The values of a table of numbers. */
  function ValuesOf(xs: seq<Hashes.Index<Val>>): (vs: seq<Val>)
    ensures |vs| == |xs| && forall i :: 0 <= i < |xs| ==> vs[i] == xs[i].value
  {
    seq(|xs|, i requires 0 <= i < |xs| => xs[i].value)
  }

  type Graph = map<Obj, set<Obj>>

  /** The objects at most `n` references away from a root. */
  ghost function Within(g: Graph, roots: set<Obj>, n: nat): set<Obj> {
    if n == 0 then roots
    else
      var near := Within(g, roots, n - 1);
      near + (set x, c | x in near && x in g && c in g[x] :: c)
  }

  ghost predicate Reachable(g: Graph, roots: set<Obj>, o: Obj) {
    exists n: nat :: o in Within(g, roots, n)
  }

  lemma RootsReachable(g: Graph, roots: set<Obj>)
    ensures forall o :: o in roots ==> Reachable(g, roots, o)
  {
    assert Within(g, roots, 0) == roots;
  }

  lemma KidsReachable(g: Graph, roots: set<Obj>, o: Obj)
    requires o in g && Reachable(g, roots, o)
    ensures forall c :: c in g[o] ==> Reachable(g, roots, c)
  {
    var n: nat :| o in Within(g, roots, n);
    forall c | c in g[o] ensures Reachable(g, roots, c) { assert c in Within(g, roots, n + 1); }
  }

  /** A set that has the roots and is closed under references has everything reachable. */
  lemma {:induction false} ReachableLeast(g: Graph, roots: set<Obj>, m: set<Obj>, n: nat)
    requires roots <= m && forall x :: x in m && x in g ==> g[x] <= m
    ensures Within(g, roots, n) <= m
  {
    if n > 0 { ReachableLeast(g, roots, m, n - 1); }
  }

  /** Marking is complete and sound: closed, rooted, and nothing else. */
  lemma MarkedIsReachable(g: Graph, roots: set<Obj>, m: set<Obj>)
    requires roots <= m && (forall x :: x in m && x in g ==> g[x] <= m) && forall x :: x in m ==> Reachable(g, roots, x)
    ensures forall o :: o in m <==> Reachable(g, roots, o)
  {
    forall o | Reachable(g, roots, o) ensures o in m {
      var n: nat :| o in Within(g, roots, n);
      ReachableLeast(g, roots, m, n);
    }
  }

  /**
   From marked objects `m0` and gray ones `g0`, with `n0` pushed: all of `xs` is marked now, and
   what was not marked before is gray, each object pushed once.
   */
  predicate Darker(m0: set<Obj>, g0: set<Obj>, n0: nat, m: set<Obj>, g: set<Obj>, n: nat, xs: set<Obj>) {
    m == m0 + xs && g == g0 + (xs - m0) && n - |m| == n0 - |m0|
  }

  lemma NoDarker(m: set<Obj>, g: set<Obj>, n: nat)
    ensures Darker(m, g, n, m, g, n, {})
  {
  }

  lemma FromNothing(m: set<Obj>, g: set<Obj>, n: nat, xs: set<Obj>)
    requires Darker({}, {}, 0, m, g, n, xs)
    ensures m == xs == g
  {
  }

  lemma Darken(m0: set<Obj>, g0: set<Obj>, n0: nat, m1: set<Obj>, g1: set<Obj>, n1: nat, m2: set<Obj>, g2: set<Obj>, n2: nat,
      xs: set<Obj>, ys: set<Obj>)
    requires Darker(m0, g0, n0, m1, g1, n1, xs) && Darker(m1, g1, n1, m2, g2, n2, ys)
    ensures Darker(m0, g0, n0, m2, g2, n2, xs + ys)
  {
  }

  lemma RefsNone()
    ensures Refs([]) == {}
  {
  }

  lemma RefIn(vs: seq<Val>, i: nat)
    requires i < |vs|
    ensures vs[i].Ref? ==> vs[i].o in Refs(vs)
  {
  }

  lemma PresentNone()
    ensures Present([]) == {}
  {
  }

  lemma PresentIn(os: seq<Option<Obj>>, i: nat)
    requires i < |os|
    ensures os[i].Some? ==> os[i].value in Present(os)
  {
  }

  lemma InTableNone()
    ensures InTable([]) == {}
  {
  }

  lemma EntryIn(es: seq<Entry<Obj, Val>>, i: nat)
    requires i < |es|
    ensures es[i].key.Some? ==> es[i].key.value in InTable(es)
    ensures es[i].value.Ref? ==> es[i].value.o in InTable(es)
  {
  }

  /** Each object's `next` is the one after it; the last one's is `end`. */
  ghost predicate Linked(os: seq<Obj>, end: Obj?)
    reads os`next
  {
    forall i :: 0 <= i < |os| ==> os[i].next == Follower(os, i, end)
  }

  function Follower(os: seq<Obj>, i: nat, end: Obj?): Obj?
    requires i < |os|
  {
    if i + 1 < |os| then os[i + 1] else end
  }

  function First(os: seq<Obj>, end: Obj?): Obj? {
    if os == [] then end else os[0]
  }

  predicate Distinct(os: seq<Obj>) {
    forall i, j :: 0 <= i < j < |os| ==> os[i] != os[j]
  }

  /** The sizes of some objects, added up. */
  function Bytes(os: seq<Obj>): nat {
    if os == [] then 0 else Bytes(os[..|os| - 1]) + os[|os| - 1].size
  }

  /** The objects of a list that a sweep keeps: those in `m`, or with the test inverted those that are not. */
  function Kept(os: seq<Obj>, m: set<Obj>, inverted: bool): seq<Obj> {
    if os == [] then []
    else
      var front, last := Kept(os[..|os| - 1], m, inverted), os[|os| - 1];
      if (last in m) != inverted then front + [last] else front
  }

  function Restrict<V>(t: map<Obj, V>, m: set<Obj>): map<Obj, V> {
    map k | k in t && k in m :: t[k]
  }

  /** The first `n` entries have no key outside `m`. */
  ghost predicate Looked(es: array<Entry<Obj, bool>>, n: nat, m: set<Obj>)
    requires n <= es.Length
    reads es
  {
    forall j :: 0 <= j < n && es[j].key.Some? ==> es[j].key.value in m
  }

  /** `now` is `before` without some keys outside `m`. */
  predicate Between<V(==)>(before: map<Obj, V>, now: map<Obj, V>, m: set<Obj>) {
    now.Keys <= before.Keys && (forall k :: k in now ==> before[k] == now[k]) && forall k :: k in before && k in m ==> k in now
  }

  lemma NoneLooked(es: array<Entry<Obj, bool>>, before: map<Obj, bool>, m: set<Obj>)
    ensures Looked(es, 0, m) && Between(before, before, m)
  {
  }

  lemma BetweenKeys<V>(before: map<Obj, V>, now: map<Obj, V>, m: set<Obj>)
    requires Between(before, now, m)
    ensures now.Keys <= before.Keys
  {
  }

  lemma BetweenLess<V>(before: map<Obj, V>, now: map<Obj, V>, m: set<Obj>, k: Obj)
    requires Between(before, now, m) && k !in m
    ensures Between(before, now - {k}, m)
  {
  }

  lemma AllLooked<V>(before: map<Obj, V>, now: map<Obj, V>, m: set<Obj>)
    requires Between(before, now, m) && now.Keys <= m
    ensures now == Restrict(before, m)
  {
  }

  function LengthOf(o: Obj): nat {
    |o.text|
  }

  /** `sizeof(str_t)` on a 64-bit machine. */
  const STR_SIZE: nat := 32

  /** No string of the table differs from `text` with the same length and hash. */
  predicate NoCollision(keys: set<Obj>, text: string) {
    forall k :: k in keys && |k.text| == |text| && Hash32(k.text) == Hash32(text) ==> k.text == text
  }

  /** Whether the table has a string that would be taken for `text`. */
  predicate HasAlike(keys: set<Obj>, text: string) {
    exists k :: k in keys && |k.text| == |text| && k.hash == Hash32(text)
  }

  function HashOf(o: Obj): nat {
    o.hash
  }

  /** The string table holds exactly the string objects, hashed by their characters, one for each length and hash. */
  ghost predicate Interned(keys: set<Obj>, all: set<Obj>)
    reads all`body
  {
    keys <= all
    && (forall o :: o in all && o.body.Text? ==> o in keys)
    && (forall o :: o in all ==> o.sort == SortOf(o.body))
    && (forall k :: k in keys ==> k.body.Text? && k.hash == Hash32(k.text))
    && forall k, l :: k in keys && l in keys && |k.text| == |l.text| && k.hash == l.hash ==> k == l
  }

  /** Everything marking starts from: what the machine holds, and the entries of the table of globals. */
  datatype Roots = Roots(temps: seq<Option<Obj>>, stack: seq<Val>, frames: seq<Option<Obj>>, open: seq<Option<Obj>>,
    globals: seq<Entry<Obj, Val>>)

  function RootSet(r: Roots): set<Obj> {
    Present(r.temps) + Refs(r.stack) + Present(r.frames) + Present(r.open) + InTable(r.globals)
  }

  /** What a root is: a temporary root, a value on the stack, a running function, an open upvalue, or the name or the value of a global. */
  lemma RootsAre(r: Roots, o: Obj)
    ensures o in RootSet(r)
       <==> Some(o) in r.temps || Ref(o) in r.stack || Some(o) in r.frames || Some(o) in r.open
            || exists e :: e in r.globals && (e.key == Some(o) || e.value == Ref(o))
  {
    EntriesAre(r.globals, o);
    hide InTable;
  }

  lemma EntriesAre(es: seq<Entry<Obj, Val>>, o: Obj)
    ensures o in InTable(es) <==> exists e :: e in es && (e.key == Some(o) || e.value == Ref(o))
  {
  }

  /** What an object mentions: a closed value, a function's name, constants and upvalues, a map's keys and values. */
  lemma KidsAre(b: Body, o: Obj)
    ensures o in Kids(b)
       <==> (b.Upvalue? && b.closed == Ref(o))
            || (b.Code? && (b.name == Some(o) || Ref(o) in b.constants || Some(o) in b.upvalues))
            || (b.Fields? && ((exists e :: e in b.table && (e.key == Some(o) || e.value == Ref(o))) || exists x :: x in b.indexes && x.value == Ref(o)))
  {
    if b.Fields? {
      EntriesAre(b.table, o);
      var vs := ValuesOf(b.indexes);
      if Ref(o) in vs { var i :| 0 <= i < |vs| && vs[i] == Ref(o); assert b.indexes[i] in b.indexes; }
      hide InTable;
    }
  }

  class Heap {
    const strings: Table<Obj, bool>
    var roots: Roots
    var objects: Obj?
    var allotted: nat
    var nextGC: nat
    var gray: seq<Obj>
    ghost var list: seq<Obj>
    ghost var all: set<Obj>

    /** `gc_init`, and the parts of `vm_create` that matter here. */
    constructor ()
      ensures Valid() && list == [] && all == {} && strings.Contents() == map[] && fresh(strings) && fresh(strings.entries)
      ensures roots == Roots([], [], [], [], []) && nextGC == 512 * 1024
    {
      strings := new Table(HashOf, false, true);
      roots := Roots([], [], [], [], []);
      objects, allotted, nextGC, gray, list, all := null, 0, 512 * 1024, [], [], {};
    }

    /**
     Between two allocations: nothing is marked, no reference leaves the heap, the bytes
     allocated are those of the objects, and the string table is canonical.
     */
    ghost predicate Valid()
      reads this, list, all, strings, strings.entries
    {
      Steady(0) && Interned(strings.Contents().Keys, all)
    }

    /** The part that also holds during an allocation, when `extra` bytes are counted already. */
    ghost predicate Steady(extra: nat)
      reads this, list, all, strings, strings.entries
    {
      Chained() && Closed() && Marked() == {} && gray == [] && RootSet(roots) <= all
      && allotted == Bytes(list) + extra && strings.Valid() && strings.hash == HashOf
    }

    /** `list` is the object list, in order, and `all` its objects. */
    ghost predicate Chained()
      reads `objects, `list, `all, list
    {
      objects == First(list, null) && Linked(list, null) && Distinct(list) && all == Members(list)
    }

    /** The marked objects. */
    ghost function Marked(): set<Obj>
      reads `all, all`isMarked
    {
      set o | o in all && o.isMarked
    }

    ghost function Grays(): set<Obj>
      reads `gray
    {
      Members(gray)
    }

    /** The references of every object. */
    ghost function GraphOf(): Graph
      reads `all, all`body
    {
      map o | o in all :: Kids(o.body)
    }

    /** What marking the objects `xs` does. */
    twostate predicate Marks(xs: set<Obj>)
      reads this, all
    {
      all == old(all) && Darker(old(Marked()), old(Grays()), old(|gray|), Marked(), Grays(), |gray|, xs)
    }

    /** `markObject`. */
    method MarkObject(obj: Option<Obj>)
      requires obj.Some? ==> obj.value in all
      modifies `gray, all`isMarked
      ensures Marks(Present([obj]))
    {
      if obj.None? {
        assert Present([obj]) == {};
        return;
      }
      var o := obj.value;
      assert Present([obj]) == {o};
      if o.isMarked { return; }
      ghost var m, g := Marked(), Grays();
      o.isMarked := true;
      gray := gray + [o];
      assert Marked() == m + {o};
      assert Grays() == g + {o};
    }

    /** `markValue`. */
    method MarkValue(value: Val)
      requires value.Ref? ==> value.o in all
      modifies `gray, all`isMarked
      ensures Marks(Refs([value]))
    {
      hide Darker;
      assert Present([Of(value)]) == Refs([value]);
      MarkObject(Of(value));
    }

    /** `mark_array` and `mark_hash`. */
    method MarkValues(vs: seq<Val>)
      requires Refs(vs) <= all
      modifies `gray, all`isMarked
      ensures Marks(Refs(vs))
    {
      hide Darker, Refs;
      ghost var m, g, n := Marked(), Grays(), |gray|;
      var i := 0;
      RefsNone();
      assert vs[..0] == [];
      NoDarker(m, g, n);
      while i < |vs|
        invariant i <= |vs| && all == old(all)
        invariant Darker(m, g, n, Marked(), Grays(), |gray|, Refs(vs[..i]))
      {
        ghost var m1, g1, n1 := Marked(), Grays(), |gray|;
        RefIn(vs, i);
        MarkValue(vs[i]);
        RefsSnoc(vs, i);
        Darken(m, g, n, m1, g1, n1, Marked(), Grays(), |gray|, Refs(vs[..i]), Refs([vs[i]]));
        i := i + 1;
      }
      assert vs[..i] == vs;
    }

    /** The loop over a function's upvalues. */
    method MarkObjects(os: seq<Option<Obj>>)
      requires Present(os) <= all
      modifies `gray, all`isMarked
      ensures Marks(Present(os))
    {
      hide Darker, Present;
      ghost var m, g, n := Marked(), Grays(), |gray|;
      var i := 0;
      PresentNone();
      assert os[..0] == [];
      NoDarker(m, g, n);
      while i < |os|
        invariant i <= |os| && all == old(all)
        invariant Darker(m, g, n, Marked(), Grays(), |gray|, Present(os[..i]))
      {
        ghost var m1, g1, n1 := Marked(), Grays(), |gray|;
        PresentIn(os, i);
        MarkObject(os[i]);
        PresentSnoc(os, i);
        Darken(m, g, n, m1, g1, n1, Marked(), Grays(), |gray|, Present(os[..i]), Present([os[i]]));
        i := i + 1;
      }
      assert os[..i] == os;
    }

    /** `markTable`. */
    method MarkTable(es: seq<Entry<Obj, Val>>)
      requires InTable(es) <= all
      modifies `gray, all`isMarked
      ensures Marks(InTable(es))
    {
      hide Darker, InTable, Present, Refs;
      ghost var m, g, n := Marked(), Grays(), |gray|;
      var i := 0;
      InTableNone();
      assert es[..0] == [];
      NoDarker(m, g, n);
      while i < |es|
        invariant i <= |es| && all == old(all)
        invariant Darker(m, g, n, Marked(), Grays(), |gray|, InTable(es[..i]))
      {
        ghost var m1, g1, n1 := Marked(), Grays(), |gray|;
        EntryIn(es, i);
        MarkObject(es[i].key);
        ghost var m2, g2, n2 := Marked(), Grays(), |gray|;
        Darken(m, g, n, m1, g1, n1, m2, g2, n2, InTable(es[..i]), Present([es[i].key]));
        MarkValue(es[i].value);
        InTableSnoc(es, i);
        Darken(m, g, n, m2, g2, n2, Marked(), Grays(), |gray|, InTable(es[..i]) + Present([es[i].key]), Refs([es[i].value]));
        i := i + 1;
      }
      assert es[..i] == es;
    }

    /** `blackenObject`. */
    method BlackenObject(o: Obj)
      requires o in all && Kids(o.body) <= all
      modifies `gray, all`isMarked
      ensures Marks(Kids(o.body))
    {
      hide Darker, Present, Refs, InTable;
      ghost var m, g, n := Marked(), Grays(), |gray|;
      match o.body
      case Text => NoDarker(m, g, n);
      case Upvalue(v) =>
        RefIn([v], 0);
        MarkValue(v);
      case Code(_, _, name, constants, upvalues) =>
        PresentIn([name], 0);
        MarkObject(name);
        ghost var m1, g1, n1 := Marked(), Grays(), |gray|;
        MarkValues(constants);
        ghost var m2, g2, n2 := Marked(), Grays(), |gray|;
        Darken(m, g, n, m1, g1, n1, m2, g2, n2, Present([name]), Refs(constants));
        MarkObjects(upvalues);
        Darken(m, g, n, m2, g2, n2, Marked(), Grays(), |gray|, Present([name]) + Refs(constants), Present(upvalues));
      case Fields(table, indexes) =>
        MarkTable(table);
        ghost var m1, g1, n1 := Marked(), Grays(), |gray|;
        MarkValues(ValuesOf(indexes));
        Darken(m, g, n, m1, g1, n1, Marked(), Grays(), |gray|, InTable(table), Refs(ValuesOf(indexes)));
    }

    /** `markRoots`, and then the globals. */
    method MarkRoots()
      requires RootSet(roots) <= all
      modifies `gray, all`isMarked
      ensures Marks(RootSet(roots))
    {
      hide Darker, Present, Refs, InTable;
      ghost var m, g, n := Marked(), Grays(), |gray|;
      MarkObjects(roots.temps);
      ghost var m1, g1, n1 := Marked(), Grays(), |gray|;
      MarkValues(roots.stack);
      ghost var m2, g2, n2 := Marked(), Grays(), |gray|;
      Darken(m, g, n, m1, g1, n1, m2, g2, n2, Present(roots.temps), Refs(roots.stack));
      MarkObjects(roots.frames);
      ghost var m3, g3, n3 := Marked(), Grays(), |gray|;
      ghost var xs := Present(roots.temps) + Refs(roots.stack);
      Darken(m, g, n, m2, g2, n2, m3, g3, n3, xs, Present(roots.frames));
      MarkObjects(roots.open);
      ghost var m4, g4, n4 := Marked(), Grays(), |gray|;
      Darken(m, g, n, m3, g3, n3, m4, g4, n4, xs + Present(roots.frames), Present(roots.open));
      MarkTable(roots.globals);
      Darken(m, g, n, m4, g4, n4, Marked(), Grays(), |gray|, xs + Present(roots.frames) + Present(roots.open), InTable(roots.globals));
    }

    /** Everything an object of the heap mentions is in the heap. */
    ghost predicate Closed()
      reads `all, all`body
    {
      forall o :: o in all ==> Kids(o.body) <= all
    }

    /** `traceReferences`: when the gray stack is empty, exactly the reachable objects are marked. */
    method TraceReferences(ghost roots: set<Obj>)
      requires Closed() && TriColour(GraphOf(), roots, Marked(), Grays())
      modifies `gray, all`isMarked
      ensures gray == [] && all == old(all)
      ensures forall o :: o in all ==> (o.isMarked <==> Reachable(GraphOf(), roots, o))
    {
      hide Darker, Reachable, TriColour, Kids;
      ghost var g := GraphOf();
      while |gray| > 0
        invariant all == old(all) && GraphOf() == g && Closed() && TriColour(g, roots, Marked(), Grays())
        decreases 2 * (|all| - |Marked()|) + |gray|
      {
        ghost var m, gs := Marked(), Grays();
        var o := gray[|gray| - 1];
        Popped(gray);
        GrayMarked(g, roots, m, gs);
        gray := gray[..|gray| - 1];
        ghost var gs1, n1 := Grays(), |gray|;
        BlackenObject(o);
        Turn(g, roots, m, gs, o, gs1, n1, Marked(), Grays(), |gray|);
        SubsetSize(m, all);
        SubsetSize(Marked(), all);
      }
      Traced(g, roots, Marked(), Grays());
    }

    /** `removeWhite`: a string that is not marked leaves the string table. */
    method RemoveWhite()
      requires strings.Valid() && strings.Contents().Keys <= all
      modifies strings.entries
      ensures strings.Valid() && strings.Contents() == Restrict(old(strings.Contents()), Marked())
    {
      ghost var before, m := strings.Contents(), Marked();
      var i := 0;
      hide strings.Valid, strings.Contents, Between, Restrict, Looked;
      NoneLooked(strings.entries, before, m);
      while i < strings.entries.Length
        invariant i <= strings.entries.Length && strings.Valid() && Marked() == m
        invariant Looked(strings.entries, i, m) && Between(before, strings.Contents(), m)
      {
        LookAt(i, before, m);
        i := i + 1;
      }
      LookedKeys(m);
      AllLooked(before, strings.Contents(), m);
    }

    lemma LookedKeys(m: set<Obj>)
      requires strings.Valid() && Looked(strings.entries, strings.entries.Length, m)
      ensures strings.Contents().Keys <= m
    {
      hide strings.Valid, strings.Contents;
      forall k | k in strings.Contents() ensures k in m { LookedKey(m, k); }
    }

    lemma LookedKey(m: set<Obj>, k: Obj)
      requires strings.Valid() && Looked(strings.entries, strings.entries.Length, m) && k in strings.Contents()
      ensures k in m
    {
      hide strings.Valid, strings.Contents;
      var i := strings.SlotOfKey(k);
    }

    /** One turn of the loop of `removeWhite`. */
    method LookAt(i: nat, ghost before: map<Obj, bool>, ghost m: set<Obj>)
      requires i < strings.entries.Length && strings.Valid() && m == Marked() && before.Keys <= all
      requires Looked(strings.entries, i, m) && Between(before, strings.Contents(), m)
      modifies strings.entries
      ensures strings.Valid() && Looked(strings.entries, i + 1, m) && Between(before, strings.Contents(), m)
    {
      hide strings.Valid, strings.Contents, Between;
      var key := strings.entries[i].key;
      if key.Some? {
        InContents(i, key.value);
        BetweenKeys(before, strings.Contents(), m);
        if !key.value.isMarked {
          BetweenLess(before, strings.Contents(), m, key.value);
          var _ := strings.Remove(key.value);
          NotInSlot(i, key.value);
        }
      }
    }

    lemma InContents(i: nat, key: Obj)
      requires strings.Valid() && i < strings.entries.Length && strings.entries[i].key == Some(key)
      ensures key in strings.Contents()
    {
      hide strings.Valid, strings.Contents;
      strings.KeysInSlots();
    }

    lemma NotInSlot(i: nat, key: Obj)
      requires strings.Valid() && i < strings.entries.Length && key !in strings.Contents()
      ensures strings.entries[i].key != Some(key)
    {
      hide strings.Valid, strings.Contents;
      strings.KeysInSlots();
    }

    /** `obj_free`: `gc_realloc` from the object's size to none gives its bytes back; its test for a collection fails. */
    method Free(o: Obj)
      requires o.size <= allotted
      modifies `allotted
      ensures allotted == old(allotted) - o.size
    {
      var was, now := o.size, 0;
      allotted := allotted + now - was;
      if now > was && allotted > nextGC { assert false; }
    }

    /** A sweep of `os`, of which `m` were marked, that is about to look at object `i`. */
    ghost predicate Sweeping(os: seq<Obj>, m: set<Obj>, inverted: bool, total: int, i: nat, kept: seq<Obj>)
      requires i <= |os|
      reads `objects, `allotted, os, kept
    {
      Distinct(os) && kept == Kept(os[..i], m, inverted) && Distinct(kept) && Members(kept) <= Members(os[..i])
      && objects == First(kept, First(os[i..], null)) && LinkedUp(kept, os[i..])
      && (forall o :: o in os[i..] ==> o.isMarked == (o in m)) && Unmarked(kept)
      && allotted == total - (Bytes(os[..i]) - Bytes(kept)) && Bytes(kept) <= Bytes(os[..i]) && Bytes(os) <= total
    }

    method KeepOne(obj: Obj, ghost os: seq<Obj>, ghost m: set<Obj>, ghost inverted: bool, ghost total: int, ghost i: nat, ghost kept: seq<Obj>)
      requires i < |os| && Sweeping(os, m, inverted, total, i, kept) && obj == os[i] && (obj in m) != inverted
      modifies obj`isMarked
      ensures Sweeping(os, m, inverted, total, i + 1, kept + [obj])
    {
      hide Kept, Bytes, Linked;
      ghost var rest := os[i + 1..];
      assert os[i..] == [obj] + rest;
      Forward(os, i, m, inverted);
      Apart(os, i, kept, rest);
      BytesSnoc(kept, obj);
      LinkedTail(obj, rest);
      LinkedSnoc(kept, obj);
      obj.isMarked := false;
    }

    method DropOne(prev: Obj?, obj: Obj, ghost os: seq<Obj>, ghost m: set<Obj>, ghost inverted: bool, ghost total: int, ghost i: nat, ghost kept: seq<Obj>)
      requires i < |os| && Sweeping(os, m, inverted, total, i, kept) && obj == os[i] && (obj in m) == inverted
      requires prev == Last(kept) && Members(os) <= all
      modifies `objects, `allotted, all`next
      ensures Sweeping(os, m, inverted, total, i + 1, kept)
    {
      hide Kept, Bytes, Linked;
      ghost var rest := os[i + 1..];
      assert os[i..] == [obj] + rest;
      Forward(os, i, m, inverted);
      Apart(os, i, kept, rest);
      LinkedTail(obj, rest);
      Unlink(prev, obj.next, kept, rest, obj);
      Free(obj);
    }

    /**
     `sweep`. The original tests `!obj->isMarked`, which is `inverted`; not inverted, the list
     becomes the marked objects in their order, with their marks cleared.
     */
    method Sweep(inverted: bool)
      requires Chained() && Bytes(list) <= allotted
      modifies `objects, `allotted, `list, `all, all`next, all`isMarked
      ensures Chained() && list == Kept(old(list), old(Marked()), inverted) && Marked() == {}
      ensures allotted == old(allotted) - (Bytes(old(list)) - Bytes(list)) && Bytes(list) <= Bytes(old(list))
    {
      ghost var os, m, total, i := list, Marked(), allotted, 0;
      ghost var kept: seq<Obj> := [];
      var prev: Obj? := null;
      var obj := objects;
      hide Kept, Bytes, Linked, Sweeping;
      SweepStarts(os, m, inverted, total);
      while obj != null
        invariant i <= |os| && obj == First(os[i..], null) && prev == Last(kept) && all == old(all)
        invariant Sweeping(os, m, inverted, total, i, kept)
        decreases |os| - i
      {
        var next := obj.next;
        SweepNext(os, m, inverted, total, i, kept);
        if obj.isMarked != inverted {
          KeepOne(obj, os, m, inverted, total, i, kept);
          prev := obj;
          kept := kept + [obj];
        } else {
          DropOne(prev, obj, os, m, inverted, total, i, kept);
        }
        obj := next;
        i := i + 1;
      }
      SweepEnds(os, m, inverted, total, kept);
      list, all := kept, Members(kept);
    }

    lemma SweepStarts(os: seq<Obj>, m: set<Obj>, inverted: bool, total: int)
      requires Chained() && os == list && m == Marked() && total == allotted >= Bytes(os)
      ensures os[0..] == os && Sweeping(os, m, inverted, total, 0, [])
    {
      assert os[..0] == [] && os[0..] == os;
      forall o | o in os ensures o.isMarked == (o in m) { assert o in Members(os); }
    }

    lemma SweepNext(os: seq<Obj>, m: set<Obj>, inverted: bool, total: int, i: nat, kept: seq<Obj>)
      requires i < |os| && Sweeping(os, m, inverted, total, i, kept)
      ensures os[i..][0] == os[i] && os[i].isMarked == (os[i] in m) && os[i].next == First(os[i + 1..], null)
      ensures forall o: Obj :: Last(kept + [o]) == o
    {
      assert os[i..] == [os[i]] + os[i + 1..];
      LinkedTail(os[i], os[i + 1..]);
    }

    lemma SweepEnds(os: seq<Obj>, m: set<Obj>, inverted: bool, total: int, kept: seq<Obj>)
      requires Sweeping(os, m, inverted, total, |os|, kept)
      ensures objects == First(kept, null) && Linked(kept, null) && Distinct(kept) && Unmarked(kept) && Members(kept) <= Members(os)
      ensures kept == Kept(os, m, inverted) && allotted == total - (Bytes(os) - Bytes(kept)) && Bytes(kept) <= Bytes(os)
    {
      assert os[..|os|] == os && os[|os|..] == [];
    }

    /** The objects reachable from the roots. */
    ghost function Live(): set<Obj>
      reads `all, all`body, `roots
    {
      set o | o in all && Reachable(GraphOf(), RootSet(roots), o)
    }

    /** The mark phase: exactly the objects reachable from the roots are marked. */
    method Mark()
      requires Closed() && Marked() == {} && gray == [] && RootSet(roots) <= all
      modifies `gray, all`isMarked
      ensures gray == [] && all == old(all) && Marked() == old(Live())
    {
      hide Kids, Reachable, Darker, TriColour, Present, Refs, InTable;
      ghost var g, r := GraphOf(), RootSet(roots);
      assert Grays() == {};
      MarkRoots();
      FromNothing(Marked(), Grays(), |gray|, r);
      MarkingStarts(g, r, Marked(), Grays());
      TraceReferences(r);
      assert GraphOf() == g;
    }

    /** `gc_collect`; `inverted` is the sweep as it is written. */
    method Collect(inverted: bool)
      requires Chained() && Closed() && Marked() == {} && gray == [] && RootSet(roots) <= all && Bytes(list) <= allotted
      requires strings.Valid() && strings.Contents().Keys <= all
      modifies `gray, `objects, `allotted, `nextGC, `list, `all, all`next, all`isMarked, strings.entries
      ensures Chained() && Marked() == {} && gray == [] && list == Kept(old(list), old(Live()), inverted)
      ensures strings.Valid() && strings.Contents() == Restrict(old(strings.Contents()), old(Live()))
      ensures allotted == old(allotted) - (Bytes(old(list)) - Bytes(list)) && Bytes(list) <= allotted && nextGC == 2 * allotted
    {
      hide strings.Valid, strings.Contents, Restrict, Kept, Bytes, Kids, Linked, Reachable, Present, Refs, InTable, Live;
      Mark();
      RemoveWhite();
      Sweep(inverted);
      nextGC := allotted * 2;
    }

    /**
     A collection with the intended sweep: the list is the reachable objects in their order,
     the string table is restricted to them, and the heap is valid again.
     */
    method Tidy(ghost extra: nat)
      requires Steady(extra) && Interned(strings.Contents().Keys, all)
      modifies `gray, `objects, `allotted, `nextGC, `list, `all, all`next, all`isMarked, strings.entries
      ensures Steady(extra) && Interned(strings.Contents().Keys, all)
      ensures list == Kept(old(list), old(Live()), false) && all == old(Live()) && nextGC == 2 * allotted
      ensures strings.Contents() == Restrict(old(strings.Contents()), all)
    {
      hide strings.Valid, strings.Contents, Kept, Bytes, Kids, Linked, Reachable, Present, Refs, InTable, Live, Interned, Restrict;
      ghost var live, os, keys, everything, g := Live(), list, strings.Contents(), all, GraphOf();
      LiveClosed();
      InternedKeys(strings.Contents().Keys, all);
      Collect(false);
      KeptMembers(os, live);
      assert all == live;
      InternedLess(keys, everything, live);
    }

    lemma LiveClosed()
      requires Closed() && RootSet(roots) <= all
      ensures RootSet(roots) <= Live() <= all && forall o :: o in Live() ==> Kids(o.body) <= Live()
    {
      hide Kids, Reachable, Present, Refs, InTable;
      var g, r := GraphOf(), RootSet(roots);
      RootsReachable(g, r);
      forall o | o in Live() ensures Kids(o.body) <= Live() { KidsReachable(g, r, o); }
    }

    /**
     `gc_realloc` for a new object: its bytes are counted, and a collection runs exactly if they
     take the count over the threshold, which becomes twice the bytes left.
     */
    method Reserve(size: nat)
      requires Steady(0) && Interned(strings.Contents().Keys, all)
      modifies `gray, `objects, `allotted, `nextGC, `list, `all, all`next, all`isMarked, strings.entries
      ensures Steady(size) && Interned(strings.Contents().Keys, all)
      ensures old(Live()) <= all <= old(all)
      ensures
        if size > 0 && old(allotted) + size > old(nextGC)
        then list == Kept(old(list), old(Live()), false) && all == old(Live()) && nextGC == 2 * allotted
        else list == old(list) && all == old(all) && nextGC == old(nextGC)
      ensures strings.Contents() == Restrict(old(strings.Contents()), all)
    {
      hide strings.Valid, strings.Contents, Kept, Bytes, Kids, Linked, Reachable, Present, Refs, InTable, Interned, Live;
      LiveClosed();
      InternedKeys(strings.Contents().Keys, all);
      allotted := allotted + size;
      if size > 0 && allotted > nextGC { Tidy(size); }
    }

    /** The end of `allocObj`: the new object heads the list. */
    method Link(size: nat, text: string, hash: nat, body: Body) returns (o: Obj)
      requires Steady(size) && Kids(body) == {} && Interned(strings.Contents().Keys, all)
      modifies `objects, `list, `all
      ensures fresh(o) && o.size == size && o.text == text && o.hash == hash && o.body == body && o.sort == SortOf(body)
      ensures Steady(0) && list == [o] + old(list) && all == old(all) + {o} && Interned(strings.Contents().Keys, old(all))
    {
      hide strings.Valid, strings.Contents, Kids, Reachable, Present, Refs, InTable, Interned, Bytes, Linked;
      o := new Obj(size, text, hash, body, objects);
      LinkedCons(o, list);
      BytesCons(o, list);
      assert o !in all;
      objects := o;
      assert Members([o] + list) == all + {o};
      list, all := [o] + list, all + {o};
      assert Marked() == {};
    }

    /** `fun_new` and `map_new`: an object that mentions nothing yet. */
    method New(size: nat, body: Body) returns (o: Obj)
      requires Valid() && Kids(body) == {} && !body.Text?
      modifies `gray, `objects, `allotted, `nextGC, `list, `all, all`next, all`isMarked, strings.entries
      ensures Valid() && fresh(o) && o in all && o.body == body && o.sort == SortOf(body) && o.size == size
      ensures
        if size > 0 && old(allotted) + size > old(nextGC)
        then list == [o] + Kept(old(list), old(Live()), false) && nextGC == 2 * allotted
        else list == [o] + old(list) && nextGC == old(nextGC)
      ensures old(Live()) <= all && fresh(all - old(all))
      ensures forall k :: k in old(strings.Contents()) && k in old(Live()) ==> k in strings.Contents()
      ensures strings.Contents().Keys <= old(strings.Contents().Keys)
    {
      hide Steady, Kept, Live, Interned, Kids, strings.Contents;
      Reserve(size);
      ghost var before := all;
      o := Link(size, "", 0, body);
      InternedMore(strings.Contents().Keys, before, o);
    }

    /** `allocStr`: a new string enters the string table. */
    method AllocStr(text: string, hash: nat) returns (o: Obj)
      requires Valid() && hash == Hash32(text)
      requires forall k :: k in strings.Contents() ==> !(|k.text| == |text| && k.hash == hash)
      modifies `gray, `objects, `allotted, `nextGC, `list, `all, all`next, all`isMarked, strings, strings.entries
      ensures Valid() && fresh(o) && o.text == text && o.hash == hash && o.size == STR_SIZE && o in strings.Contents()
      ensures
        if old(allotted) + STR_SIZE > old(nextGC)
        then list == [o] + Kept(old(list), old(Live()), false) && nextGC == 2 * allotted
        else list == [o] + old(list) && nextGC == old(nextGC)
      ensures old(Live()) <= all && fresh(all - old(all))
      ensures forall k :: k in old(strings.Contents()) && k in old(Live()) ==> k in strings.Contents()
      ensures strings.Contents().Keys <= old(strings.Contents().Keys) + {o}
      ensures strings.entries == old(strings.entries) || fresh(strings.entries)
    {
      hide Kept, Live, Interned, Steady, Hash32, strings.Valid, strings.Contents, Kids;
      Reserve(STR_SIZE);
      assert forall k :: k in strings.Contents() ==> !(|k.text| == |text| && k.hash == hash);
      ghost var before := all;
      assert Kids(Text) == {} by { NoKids(); }
      o := Link(STR_SIZE, text, hash, Text);
      Enter(o, before);
    }

    /** The entry of a new string into the string table. */
    method Enter(o: Obj, ghost before: set<Obj>)
      requires Steady(0) && all == before + {o} && Interned(strings.Contents().Keys, before)
      requires o.body.Text? && o.sort == StrSort && o.hash == Hash32(o.text)
      requires forall k :: k in strings.Contents() ==> !(|k.text| == |o.text| && k.hash == o.hash)
      modifies strings, strings.entries
      ensures Valid() && strings.Contents().Keys == old(strings.Contents().Keys) + {o}
      ensures strings.entries == old(strings.entries) || fresh(strings.entries)
    {
      hide Interned, Hash32, strings.Valid, strings.Contents, Chained, Closed, Kids, Bytes, RootSet;
      ghost var keys := strings.Contents().Keys;
      var _ := strings.Set(o, false);
      InternedNew(keys, before, o);
      assert strings.Contents().Keys == keys + {o};
    }

    lemma ValidParts()
      requires Valid()
      ensures strings.Valid() && strings.hash == HashOf && strings.Contents().Keys <= all && Live() <= all
      ensures forall k :: k in strings.Contents() ==> k.hash == Hash32(k.text)
      ensures forall k, l :: k in strings.Contents() && l in strings.Contents() && |k.text| == |l.text| && k.hash == l.hash ==> k == l
    {
      hide Hash32;
    }

    /** `str_copy`. */
    method StrCopy(chars: string, ignorecase: bool) returns (r: Obj)
      requires Valid()
      modifies `gray, `objects, `allotted, `nextGC, `list, `all, all`next, all`isMarked, strings, strings.entries
      ensures Valid() && r in strings.Contents()
      ensures
        var text := if ignorecase then Canon(chars) else chars;
        |r.text| == |text| && r.hash == Hash32(text)
        && (NoCollision(old(strings.Contents().Keys), text) <==> r.text == text)
      ensures
        if HasAlike(old(strings.Contents().Keys), if ignorecase then Canon(chars) else chars) then list == old(list) && nextGC == old(nextGC)
        else
          fresh(r) && r.size == STR_SIZE
          && if old(allotted) + STR_SIZE > old(nextGC)
             then list == [r] + Kept(old(list), old(Live()), false) && nextGC == 2 * allotted
             else list == [r] + old(list) && nextGC == old(nextGC)
      ensures old(Live()) <= all && fresh(all - old(all))
      ensures forall k :: k in old(strings.Contents()) && k in old(Live()) ==> k in strings.Contents()
      ensures strings.Contents().Keys <= old(strings.Contents().Keys) + {r}
      ensures strings.entries == old(strings.entries) || fresh(strings.entries)
    {
      hide Valid, Live, Hash32, Kept, strings.Valid, strings.Contents;
      ValidParts();
      var hash := HashString(chars, ignorecase);
      var text := if ignorecase then Canon(chars) else chars;
      assert hash as nat == Hash32(text) by { HashIs(hash, text); }
      var interned := strings.FindStr(LengthOf, |chars|, hash as nat);
      if interned.Some? { return interned.value; }
      r := AllocStr(text, hash as nat);
    }

    /** `str_take`. */
    method StrTake(chars: string) returns (r: Obj)
      requires Valid()
      modifies `gray, `objects, `allotted, `nextGC, `list, `all, all`next, all`isMarked, strings, strings.entries
      ensures Valid() && r in strings.Contents() && |r.text| == |chars| && r.hash == Hash32(chars)
      ensures NoCollision(old(strings.Contents().Keys), chars) <==> r.text == chars
      ensures
        if HasAlike(old(strings.Contents().Keys), chars) then list == old(list) && nextGC == old(nextGC)
        else
          fresh(r) && r.size == STR_SIZE
          && if old(allotted) + STR_SIZE > old(nextGC)
             then list == [r] + Kept(old(list), old(Live()), false) && nextGC == 2 * allotted
             else list == [r] + old(list) && nextGC == old(nextGC)
      ensures old(Live()) <= all && fresh(all - old(all))
      ensures forall k :: k in old(strings.Contents()) && k in old(Live()) ==> k in strings.Contents()
      ensures strings.Contents().Keys <= old(strings.Contents().Keys) + {r}
      ensures strings.entries == old(strings.entries) || fresh(strings.entries)
    {
      hide Valid, Live, Hash32, Kept, strings.Valid, strings.Contents;
      ValidParts();
      var hash := HashString(chars, false);
      assert hash as nat == Hash32(chars) by { HashIs(hash, chars); }
      var interned := strings.FindStr(LengthOf, |chars|, hash as nat);
      if interned.Some? { return interned.value; }
      r := AllocStr(chars, hash as nat);
    }

    lemma RootsLive()
      requires Valid()
      ensures RootSet(roots) <= Live() <= all && strings.Contents().Keys <= all
    {
      hide Kids, Reachable, Present, Refs, InTable, strings.Contents, strings.Valid;
      LiveClosed();
    }

    /** What the header says is what the object holds, and equal strings are one object. */
    lemma Sorted()
      requires Valid()
      ensures forall o :: o in all ==> o.sort == SortOf(o.body)
      ensures forall k :: k in strings.Contents() ==> k in all && k.sort == StrSort
      ensures forall a, b :: a in all && b in all && a.sort == StrSort && b.sort == StrSort && a.text == b.text ==> a == b
    {
      hide strings.Contents, strings.Valid, Hash32, Kids, Bytes, Linked;
    }

    /** No object of a valid heap mentions anything outside it. */
    lemma Inside(o: Obj)
      requires Valid() && o in all
      ensures Kids(o.body) <= all
    {
      hide Kids, Reachable, Present, Refs, InTable, strings.Contents, strings.Valid;
    }

    lemma CollectReady()
      requires Valid()
      ensures Chained() && Closed() && Marked() == {} && gray == [] && RootSet(roots) <= all && Bytes(list) <= allotted
      ensures strings.Valid() && strings.Contents().Keys <= all
    {
      hide Kids, Present, Refs, InTable, strings.Contents, strings.Valid;
    }

    lemma OnePerHash()
      requires Valid()
      ensures forall k, l :: k in strings.Contents() && l in strings.Contents() && |k.text| == |l.text| && k.hash == l.hash ==> k == l
    {
      hide strings.Contents, strings.Valid, Hash32;
    }

    /** A collection between two allocations. */
    method Gather()
      requires Valid()
      modifies `gray, `objects, `allotted, `nextGC, `list, `all, all`next, all`isMarked, strings.entries
      ensures Valid() && list == Kept(old(list), old(Live()), false) && all == old(Live()) && nextGC == 2 * allotted
      ensures strings.Contents() == Restrict(old(strings.Contents()), all)
    {
      hide Steady, Kept, Live, Interned, strings.Contents;
      Tidy(0);
    }

    /** The machine moves a value: any roots inside the heap will do. */
    method SetRoots(r: Roots)
      requires Valid() && RootSet(r) <= all
      modifies `roots
      ensures Valid() && roots == r
    {
      roots := r;
    }

    /** The machine fills in an object: any references inside the heap will do. */
    method SetBody(o: Obj, body: Body)
      requires Valid() && o in all && Kids(body) <= all && !o.body.Text? && SortOf(body) == o.sort
      modifies o`body
      ensures Valid() && o.body == body
    {
      hide Kids, strings.Valid, strings.Contents, Bytes, Linked, Present, Refs, InTable;
      InternedKeys(strings.Contents().Keys, all);
      o.body := body;
    }

    /** Taking the object after `prev` out of the list. */
    method Unlink(prev: Obj?, next: Obj?, ghost kept: seq<Obj>, ghost rest: seq<Obj>, ghost obj: Obj)
      requires prev == Last(kept) && objects == First(kept, obj) && Linked(kept, obj) && Linked(rest, null)
      requires Distinct(kept) && Members(kept) !! Members(rest) && Members(kept) <= all
      modifies `objects, all`next
      ensures objects == First(kept, next) && Linked(kept, next) && Linked(rest, null)
    {
      if prev != null { prev.next := next; } else { objects := next; }
      forall j | 0 <= j < |kept| ensures kept[j].next == Follower(kept, j, next) {
        if j < |kept| - 1 { assert kept[j] != prev; }
      }
      forall j | 0 <= j < |rest| ensures rest[j].next == Follower(rest, j, null) { assert rest[j] in Members(rest); }
    }
  }

  /** Two stretches of a list, the second to its end. */
  ghost predicate LinkedUp(kept: seq<Obj>, rest: seq<Obj>)
    reads kept`next, rest`next
  {
    Linked(kept, First(rest, null)) && Linked(rest, null)
  }

  ghost predicate Unmarked(os: seq<Obj>)
    reads os`isMarked
  {
    forall o :: o in os ==> !o.isMarked
  }

  function Last(os: seq<Obj>): Obj? {
    if os == [] then null else os[|os| - 1]
  }

  lemma LinkedCons(o: Obj, os: seq<Obj>)
    requires Linked(os, null) && o.next == First(os, null)
    ensures Linked([o] + os, null)
  {
    var t := [o] + os;
    forall j | 0 <= j < |t| ensures t[j].next == Follower(t, j, null) {
      if j > 0 { assert os[j - 1].next == Follower(os, j - 1, null); }
    }
  }

  lemma {:induction false} BytesCons(o: Obj, os: seq<Obj>)
    ensures Bytes([o] + os) == o.size + Bytes(os)
    decreases |os|
  {
    var t := [o] + os;
    if os == [] {
      assert t[..0] == [];
    } else {
      assert t[..|t| - 1] == [o] + os[..|os| - 1];
      BytesCons(o, os[..|os| - 1]);
    }
  }

  lemma BytesSnoc(os: seq<Obj>, o: Obj)
    ensures Bytes(os + [o]) == Bytes(os) + o.size
  {
    assert (os + [o])[..|os|] == os;
  }

  lemma LinkedSnoc(os: seq<Obj>, o: Obj)
    requires Linked(os, o)
    ensures Linked(os + [o], o.next)
  {
    forall j | 0 <= j < |os| ensures (os + [o])[j].next == Follower(os + [o], j, o.next) { assert os[j].next == Follower(os, j, o); }
  }

  /** The next object of a list, for everything a sweep adds up. */
  lemma Forward(os: seq<Obj>, i: nat, m: set<Obj>, inverted: bool)
    requires i < |os|
    ensures Bytes(os[..i + 1]) == Bytes(os[..i]) + os[i].size <= Bytes(os)
    ensures Kept(os[..i + 1], m, inverted) == if (os[i] in m) != inverted then Kept(os[..i], m, inverted) + [os[i]] else Kept(os[..i], m, inverted)
    ensures Members(os[..i + 1]) == Members(os[..i]) + {os[i]}
  {
    assert os[..i + 1][..i] == os[..i];
    BytesPrefix(os, i + 1);
  }

  lemma {:induction false} BytesPrefix(os: seq<Obj>, i: nat)
    requires i <= |os|
    ensures Bytes(os[..i]) <= Bytes(os)
    decreases |os| - i
  {
    if i < |os| {
      assert os[..i + 1][..i] == os[..i];
      BytesPrefix(os, i + 1);
    } else {
      assert os[..i] == os;
    }
  }

  /** An object of a list without repetitions is none of those before it. */
  lemma Apart(os: seq<Obj>, i: nat, kept: seq<Obj>, rest: seq<Obj>)
    requires i < |os| && Distinct(os) && Members(kept) <= Members(os[..i]) && rest == os[i + 1..]
    ensures os[i] !in kept && os[i] !in rest && Members(kept) !! Members(rest)
    ensures Distinct(kept) ==> Distinct(kept + [os[i]])
  {
    forall j | i <= j < |os| ensures os[j] !in Members(kept) { NotBefore(os, i, j); }
    assert os[i] !in Members(kept);
    forall x | x in rest ensures x !in Members(kept) && x != os[i] {
      var j :| 0 <= j < |rest| && rest[j] == x;
      assert x == os[i + 1 + j];
    }
  }

  lemma NotBefore(os: seq<Obj>, i: nat, j: nat)
    requires i <= j < |os| && Distinct(os)
    ensures os[j] !in Members(os[..i])
  {
  }

  lemma LinkedTail(o: Obj, rest: seq<Obj>)
    requires Linked([o] + rest, null)
    ensures Linked(rest, null) && o.next == First(rest, null)
  {
    var t := [o] + rest;
    assert t[0].next == Follower(t, 0, null);
    forall j | 0 <= j < |rest| ensures rest[j].next == Follower(rest, j, null) { assert t[j + 1].next == Follower(t, j + 1, null); }
  }

  function Members(os: seq<Obj>): set<Obj> {
    set o | o in os
  }

  lemma Popped(os: seq<Obj>)
    requires os != []
    ensures
      var o := os[|os| - 1];
      o in Members(os) && Members(os) - {o} <= Members(os[..|os| - 1]) <= Members(os)
  {
  }

  /** The tri-colour invariant: a marked object that is not gray has all its children marked. */
  ghost predicate TriColour(g: Graph, roots: set<Obj>, m: set<Obj>, gs: set<Obj>) {
    gs <= m <= g.Keys && roots <= m
    && (forall o :: o in m - gs ==> g[o] <= m)
    && forall o :: o in m ==> Reachable(g, roots, o)
  }

  lemma MarkingStarts(g: Graph, roots: set<Obj>, m: set<Obj>, gs: set<Obj>)
    requires m == roots == gs && roots <= g.Keys
    ensures TriColour(g, roots, m, gs)
  {
    hide Reachable;
    RootsReachable(g, roots);
  }

  lemma {:induction false} KeptMembers(os: seq<Obj>, m: set<Obj>)
    requires m <= Members(os)
    ensures Members(Kept(os, m, false)) == m
  {
    KeptExactly(os, m, false);
    var ks := Kept(os, m, false);
    forall o | o in m ensures o in Members(ks) { assert o in Members(os); }
    assert Members(ks) == m;
  }

  /** A sweep keeps the objects that pass its test, and no others. */
  lemma {:induction false} KeptExactly(os: seq<Obj>, m: set<Obj>, inverted: bool)
    ensures forall o :: o in Kept(os, m, inverted) <==> o in os && (o in m) != inverted
    decreases |os|
  {
    if os != [] {
      KeptExactly(os[..|os| - 1], m, inverted);
      assert os == os[..|os| - 1] + [os[|os| - 1]];
    }
  }

  /**
   The sweep as written keeps the garbage: it frees every reachable object, and every string
   that stays in the string table is freed.
   */
  lemma WrittenSweepFreesTheLiving(os: seq<Obj>, live: set<Obj>, table: map<Obj, bool>)
    requires live <= Members(os)
    ensures Members(Kept(os, live, true)) == Members(os) - live
    ensures forall k :: k in Restrict(table, live) ==> k !in Kept(os, live, true)
    ensures Members(Kept(os, live, false)) == live
  {
    hide Kept;
    KeptExactly(os, live, true);
    KeptMembers(os, live);
    var ks := Kept(os, live, true);
    forall o | o in Members(os) - live ensures o in Members(ks) { assert o in os; }
    forall o | o in Members(ks) ensures o in Members(os) - live { assert o in os; }
  }

  /** The sweep as written keeps what the intended one keeps exactly when there is nothing on the list. */
  lemma WrittenSweepIsRightIffEmpty(os: seq<Obj>, live: set<Obj>)
    ensures Kept(os, live, true) == Kept(os, live, false) <==> os == []
  {
    hide Kept;
    KeptExactly(os, live, true);
    KeptExactly(os, live, false);
    if os == [] {
      NoneKept(live);
    } else {
      assert os[0] in Kept(os, live, true) <==> os[0] !in Kept(os, live, false);
    }
  }

  lemma NoneKept(live: set<Obj>)
    ensures forall inverted: bool :: Kept([], live, inverted) == []
  {
  }

  lemma InternedKeys(keys: set<Obj>, all: set<Obj>)
    requires Interned(keys, all)
    ensures keys <= all
  {
  }

  lemma HashIs(hash: bv32, text: string)
    requires hash == Fnv(text)
    ensures hash as nat == Hash32(text)
  {
    hide Fnv;
  }

  lemma NoKids()
    ensures Kids(Text) == {}
  {
  }

  lemma InternedMore(keys: set<Obj>, all: set<Obj>, o: Obj)
    requires Interned(keys, all) && !o.body.Text? && o.sort == SortOf(o.body)
    ensures Interned(keys, all + {o})
  {
  }

  lemma InternedNew(keys: set<Obj>, all: set<Obj>, o: Obj)
    requires Interned(keys, all) && o.body.Text? && o.sort == StrSort && o.hash == Hash32(o.text)
    requires forall k :: k in keys ==> !(|k.text| == |o.text| && k.hash == o.hash)
    ensures Interned(keys + {o}, all + {o})
  {
    hide Hash32;
  }

  /**
   Identity of interned strings is equality of their contents, as long as no two different
   ones share length and hash: the original compares no characters.
   */
  lemma IdentityIsEquality(keys: set<Obj>, all: set<Obj>, a: Obj, b: Obj)
    requires Interned(keys, all) && a in keys && b in keys
    ensures a == b <==> |a.text| == |b.text| && Hash32(a.text) == Hash32(b.text)
    ensures (|a.text| == |b.text| && Hash32(a.text) == Hash32(b.text) ==> a.text == b.text) ==> (a == b <==> a.text == b.text)
  {
    hide Hash32;
  }

  lemma InternedLess(t: map<Obj, bool>, all: set<Obj>, live: set<Obj>)
    requires Interned(t.Keys, all) && live <= all
    ensures Interned(Restrict(t, live).Keys, live)
  {
  }

  lemma GrayMarked(g: Graph, roots: set<Obj>, m: set<Obj>, gs: set<Obj>)
    requires TriColour(g, roots, m, gs)
    ensures gs <= m <= g.Keys
  {
  }

  /** Blackening a gray object keeps the invariant, and brings the end nearer. */
  lemma Turn(g: Graph, roots: set<Obj>, m: set<Obj>, gs: set<Obj>, o: Obj, gs1: set<Obj>, n1: nat, m': set<Obj>, gs': set<Obj>, n': nat)
    requires TriColour(g, roots, m, gs) && o in gs && gs - {o} <= gs1 <= gs && m' <= g.Keys
    requires Darker(m, gs1, n1, m', gs', n', g[o])
    ensures TriColour(g, roots, m', gs') && |m| <= |m'| && n' - |m'| == n1 - |m|
  {
    hide Reachable;
    KidsReachable(g, roots, o);
    SubsetSize(m, m');
  }

  lemma Traced(g: Graph, roots: set<Obj>, m: set<Obj>, gs: set<Obj>)
    requires TriColour(g, roots, m, gs) && gs == {}
    ensures forall o :: o in m <==> Reachable(g, roots, o)
  {
    hide Reachable;
    MarkedIsReachable(g, roots, m);
  }

  lemma SubsetSize<T>(a: set<T>, b: set<T>)
    requires a <= b
    ensures |a| <= |b|
  {
    if x :| x in a { SubsetSize(a - {x}, b - {x}); }
  }

  lemma RefsSnoc(vs: seq<Val>, i: nat)
    requires i < |vs|
    ensures Refs(vs[..i + 1]) == Refs(vs[..i]) + Refs([vs[i]])
  {
    assert vs[..i + 1] == vs[..i] + [vs[i]];
  }

  lemma PresentSnoc(os: seq<Option<Obj>>, i: nat)
    requires i < |os|
    ensures Present(os[..i + 1]) == Present(os[..i]) + Present([os[i]])
  {
    assert os[..i + 1] == os[..i] + [os[i]];
  }

  lemma InTableSnoc(es: seq<Entry<Obj, Val>>, i: nat)
    requires i < |es|
    ensures InTable(es[..i + 1]) == InTable(es[..i]) + Present([es[i].key]) + Refs([es[i].value])
  {
    assert es[..i + 1] == es[..i] + [es[i]];
  }
}
