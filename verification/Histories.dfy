/** Histories of a heap: strings interned, objects made and collections run, in any order. */
module Histories {
  import opened Values
  import opened Syntax
  import opened Strings
  import opened Collector

  /** What goes on in a heap: strings are interned, other objects are made, collections run. */
  datatype Request = Copy(chars: string, ignorecase: bool) | Take(chars: string) | Make(size: nat) | Gather

  /** The characters a request for a string is about. */
  function TextOf(q: Request): Option<string> {
    match q
    case Copy(chars, ignorecase) => Some(if ignorecase then Canon(chars) else chars)
    case Take(chars) => Some(chars)
    case _ => None
  }

  /** `r` is a string object of the table with the length and the hash of `text`. */
  ghost predicate StandsFor(keys: set<Obj>, r: Obj, text: string) {
    r in keys && |r.text| == |text| && r.hash == Hash32(text)
  }

  /** A heap between two requests, as far as the collector goes by it. */
  datatype Moment = Moment(list: seq<Obj>, live: set<Obj>, keys: set<Obj>, bytes: nat, threshold: nat)

  ghost predicate Ready(heap: Heap)
    reads heap, heap.strings, heap.strings.entries
  {
    heap.strings.Valid()
  }

  lemma Readiness(heap: Heap)
    requires heap.Valid()
    ensures Ready(heap) && heap.allotted == Bytes(heap.list) && Members(heap.list) == heap.all
  {
    hide heap.strings.Valid, heap.strings.Contents, Kids, Linked, Bytes;
  }

  ghost function Now(heap: Heap): Moment
    reads heap, heap.all`body, heap.strings, heap.strings.entries
    requires Ready(heap)
  {
    Moment(heap.list, heap.Live(), heap.strings.Contents().Keys, heap.allotted, heap.nextGC)
  }

  /** The bytes of the object a request makes, 32 for a string; one that is there already is handed out again. */
  ghost function Needs(q: Request, keys: set<Obj>): Option<nat> {
    match q
    case Copy(chars, ignorecase) => if HasAlike(keys, if ignorecase then Canon(chars) else chars) then None else Some(32)
    case Take(chars) => if HasAlike(keys, chars) then None else Some(32)
    case Make(size) => Some(size)
    case Gather => None
  }

  /** What is left of the objects: all of them, or after a collection those that could be reached, in their order. */
  ghost predicate Spared(before: Moment, collected: bool, left: seq<Obj>) {
    left == if collected then Kept(before.list, before.live, false) else before.list
  }

  /**
   One request. A collection runs for `Gather`, and for a new object whose bytes, if it has any,
   take the count over the threshold; only a collection moves the threshold, to twice the bytes
   there are then.
   */
  ghost predicate Follows(before: Moment, q: Request, after: Moment) {
    var n := Needs(q, before.keys);
    var collected := q.Gather? || (n.Some? && n.value > 0 && before.bytes + n.value > before.threshold);
    after.threshold == (if collected then 2 * after.bytes else before.threshold)
    && after.bytes == Bytes(after.list)
    && if n.None? then Spared(before, collected, after.list)
       else after.list != [] && after.list[0] !in before.list && after.list[0].size == n.value && Spared(before, collected, after.list[1..])
  }

  function Push(r: Roots, o: Obj): Roots {
    r.(stack := r.stack + [Ref(o)])
  }

  lemma PushRoots(r: Roots, o: Obj)
    ensures RootSet(Push(r, o)) == RootSet(r) + {o}
  {
    hide Present, InTable;
    assert Refs(r.stack + [Ref(o)]) == Refs(r.stack) + {o};
  }

  /** A string request that finds nothing alike makes one object, and any other none. */
  lemma StringFollows(before: Moment, q: Request, r: Obj, after: Moment)
    requires TextOf(q).Some? && after.bytes == Bytes(after.list)
    requires
      if HasAlike(before.keys, TextOf(q).value) then after.list == before.list && after.threshold == before.threshold
      else
        r !in before.list && r.size == STR_SIZE
        && if before.bytes + STR_SIZE > before.threshold
           then after.list == [r] + Kept(before.list, before.live, false) && after.threshold == 2 * after.bytes
           else after.list == [r] + before.list && after.threshold == before.threshold
    ensures Follows(before, q, after)
  {
    hide HasAlike, Kept, Bytes, Canon;
  }

  /** Interning by either function. */
  method Intern(heap: Heap, q: Request) returns (r: Obj)
    requires heap.Valid() && TextOf(q).Some?
    modifies heap, heap.all`next, heap.all`isMarked, heap.strings, heap.strings.entries
    ensures heap.Valid() && fresh(heap.all - old(heap.all)) && r in heap.all && heap.roots == old(heap.roots)
    ensures heap.strings.entries == old(heap.strings.entries) || fresh(heap.strings.entries)
    ensures StandsFor(heap.strings.Contents().Keys, r, TextOf(q).value)
    ensures forall k :: k in old(heap.strings.Contents()) && k in old(RootSet(heap.roots)) ==> k in heap.strings.Contents()
    ensures RootSet(heap.roots) + {r} <= heap.all && old(Ready(heap)) && Ready(heap) && Follows(old(Now(heap)), q, Now(heap))
  {
    hide heap.Valid, heap.strings.Valid, heap.strings.Contents, heap.Live, Hash32, Kept, RootSet, Canon, HasAlike, Bytes, Follows;
    heap.RootsLive();
    Readiness(heap);
    ghost var before := Now(heap);
    match q {
      case Copy(chars, ignorecase) => r := heap.StrCopy(chars, ignorecase);
      case Take(chars) => r := heap.StrTake(chars);
    }
    heap.RootsLive();
    Readiness(heap);
    StringFollows(before, q, r, Now(heap));
  }

  method Allocate(heap: Heap, size: nat)
    requires heap.Valid()
    modifies heap, heap.all`next, heap.all`isMarked, heap.strings, heap.strings.entries
    ensures heap.Valid() && fresh(heap.all - old(heap.all)) && heap.roots == old(heap.roots)
    ensures heap.strings.entries == old(heap.strings.entries)
    ensures forall k :: k in old(heap.strings.Contents()) && k in old(RootSet(heap.roots)) ==> k in heap.strings.Contents()
    ensures old(Ready(heap)) && Ready(heap) && Follows(old(Now(heap)), Make(size), Now(heap))
  {
    hide heap.Valid, heap.strings.Valid, heap.strings.Contents, heap.Live, Kept, RootSet, Bytes, Follows;
    heap.RootsLive();
    Readiness(heap);
    EmptyFields();
    ghost var before := Now(heap);
    var o := heap.New(size, Fields([], []));
    Readiness(heap);
    ObjectFollows(before, size, o, Now(heap));
  }

  lemma ObjectFollows(before: Moment, size: nat, o: Obj, after: Moment)
    requires after.bytes == Bytes(after.list) && o !in before.list && o.size == size
    requires
      if size > 0 && before.bytes + size > before.threshold
      then after.list == [o] + Kept(before.list, before.live, false) && after.threshold == 2 * after.bytes
      else after.list == [o] + before.list && after.threshold == before.threshold
    ensures Follows(before, Make(size), after)
  {
    hide Kept, Bytes;
  }

  method CollectNow(heap: Heap)
    requires heap.Valid()
    modifies heap, heap.all`next, heap.all`isMarked, heap.strings, heap.strings.entries
    ensures heap.Valid() && heap.all <= old(heap.all) && heap.roots == old(heap.roots)
    ensures heap.strings.entries == old(heap.strings.entries)
    ensures forall k :: k in old(heap.strings.Contents()) && k in old(RootSet(heap.roots)) ==> k in heap.strings.Contents()
    ensures old(Ready(heap)) && Ready(heap) && Follows(old(Now(heap)), Gather, Now(heap))
  {
    hide heap.Valid, heap.strings.Valid, heap.strings.Contents, heap.Live, Kept, RootSet, Bytes;
    heap.RootsLive();
    Readiness(heap);
    heap.Gather();
    Readiness(heap);
  }

  /** Serves one request; a string that comes out of it is pushed, so that it stays reachable. */
  method Serve(heap: Heap, q: Request) returns (r: Option<Obj>)
    requires heap.Valid()
    modifies heap, heap.all`next, heap.all`isMarked, heap.strings, heap.strings.entries
    ensures heap.Valid() && fresh(heap.all - old(heap.all))
    ensures heap.strings.entries == old(heap.strings.entries) || fresh(heap.strings.entries)
    ensures r.Some? == TextOf(q).Some?
    ensures r.Some? ==> StandsFor(heap.strings.Contents().Keys, r.value, TextOf(q).value)
    ensures RootSet(heap.roots) == old(RootSet(heap.roots)) + Present([r])
    ensures forall k :: k in old(heap.strings.Contents()) && k in old(RootSet(heap.roots)) ==> k in heap.strings.Contents()
    ensures old(Ready(heap)) && Ready(heap) && Follows(old(Now(heap)), q, Now(heap))
  {
    hide heap.Valid, heap.strings.Valid, heap.strings.Contents, heap.Live, Hash32, Kept, RootSet, Canon, HasAlike, Bytes, Follows, Needs;
    r := None;
    match q {
      case Make(size) => Allocate(heap, size);
      case Gather => CollectNow(heap);
      case _ =>
        var o := Intern(heap, q);
        PushRoots(heap.roots, o);
        ghost var before, after := old(Now(heap)), Now(heap);
        heap.SetRoots(Push(heap.roots, o));
        Readiness(heap);
        SameCount(before, q, after, Now(heap));
        r := Some(o);
    }
  }

  /** What a request does is told by the list, the bytes and the threshold it leaves. */
  lemma SameCount(before: Moment, q: Request, after: Moment, now: Moment)
    requires Follows(before, q, after) && now.list == after.list && now.bytes == after.bytes && now.threshold == after.threshold
    ensures Follows(before, q, now)
  {
    hide Needs, Spared, Bytes;
  }

  lemma EmptyFields()
    ensures Kids(Fields([], [])) == {}
  {
  }

  /**
   Every history keeps the heap valid: the bytes allocated are those of the objects, and the
   string table is canonical. Two strings that came out of it are the same object exactly
   when their texts agree in length and hash, whatever was collected in between. Collections
   run where they are due and nowhere else, so the bytes counted never pass the threshold.
   */
  method Replay(heap: Heap, qs: seq<Request>) returns (rs: seq<Option<Obj>>, ghost log: seq<Moment>)
    requires heap.Valid()
    modifies heap, heap.all`next, heap.all`isMarked, heap.strings, heap.strings.entries
    ensures heap.Valid() && |rs| == |qs|
    ensures forall i :: 0 <= i < |qs| ==> rs[i].Some? == TextOf(qs[i]).Some?
    ensures forall i, j :: 0 <= i < |qs| && 0 <= j < |qs| && rs[i].Some? && rs[j].Some? ==>
      (rs[i] == rs[j] <==> Alike(TextOf(qs[i]).value, TextOf(qs[j]).value))
    ensures old(Ready(heap)) && Ready(heap) && Logged(old(Now(heap)), qs, log, Now(heap))
    ensures old(heap.allotted) <= old(heap.nextGC) ==> heap.allotted <= heap.nextGC
  {
    hide heap.Valid, heap.strings.Valid, heap.strings.Contents, Hash32, RootSet, Canon, Follows, heap.Live;
    Readiness(heap);
    rs, log := [], [Now(heap)];
    for n := 0 to |qs|
      invariant heap.Valid() && |rs| == n && fresh(heap.all - old(heap.all))
      invariant heap.strings.entries == old(heap.strings.entries) || fresh(heap.strings.entries)
      invariant AllStand(heap.strings.Contents().Keys, RootSet(heap.roots), rs, qs[..n])
      invariant Ready(heap) && Logged(old(Now(heap)), qs[..n], log, Now(heap))
      invariant old(heap.allotted) <= old(heap.nextGC) ==> heap.allotted <= heap.nextGC
    {
      ghost var keys, roots := heap.strings.Contents().Keys, RootSet(heap.roots);
      Readiness(heap);
      var r := Serve(heap, qs[n]);
      OneMore(keys, roots, rs, qs, n, r, heap.strings.Contents().Keys, RootSet(heap.roots));
      Longer(old(Now(heap)), qs, n, log, Now(heap));
      if log[n].bytes <= log[n].threshold { WithinThreshold(log[n], qs[n], Now(heap)); }
      rs, log := rs + [r], log + [Now(heap)];
    }
    assert qs[..|qs|] == qs;
    heap.OnePerHash();
    StandersDiffer(heap.strings.Contents().Keys, RootSet(heap.roots), rs, qs);
  }

  /** A log has the heap before each request and after the last. */
  ghost predicate Logged(first: Moment, qs: seq<Request>, log: seq<Moment>, last: Moment) {
    |log| == |qs| + 1 && log[0] == first && log[|qs|] == last
    && forall i :: 0 <= i < |qs| ==> Follows(log[i], qs[i], log[i + 1])
  }

  lemma Longer(first: Moment, qs: seq<Request>, n: nat, log: seq<Moment>, now: Moment)
    requires n < |qs| && |log| == n + 1 && Logged(first, qs[..n], log, log[n]) && Follows(log[n], qs[n], now)
    ensures Logged(first, qs[..n + 1], log + [now], now)
  {
    hide Follows;
    forall i | 0 <= i < n + 1 ensures Follows((log + [now])[i], qs[..n + 1][i], (log + [now])[i + 1]) {
      if i < n { assert qs[..n][i] == qs[i]; }
    }
  }

  lemma WithinThreshold(before: Moment, q: Request, after: Moment)
    requires Follows(before, q, after) && before.bytes == Bytes(before.list) <= before.threshold
    ensures after.bytes == Bytes(after.list) <= after.threshold
  {
    hide Needs, Bytes, Kept;
    if after.list != [] && after.list[1..] == before.list {
      assert after.list == [after.list[0]] + before.list;
      BytesCons(after.list[0], before.list);
    }
  }

  /** What the string table cannot tell apart. */
  predicate Alike(s: string, t: string) {
    |s| == |t| && Hash32(s) == Hash32(t)
  }

  ghost predicate AllStand(keys: set<Obj>, roots: set<Obj>, rs: seq<Option<Obj>>, qs: seq<Request>) {
    |rs| == |qs| && forall i :: 0 <= i < |qs| ==>
      rs[i].Some? == TextOf(qs[i]).Some?
      && (rs[i].Some? ==> rs[i].value in roots && StandsFor(keys, rs[i].value, TextOf(qs[i]).value))
  }

  lemma OneMore(keys: set<Obj>, roots: set<Obj>, rs: seq<Option<Obj>>, qs: seq<Request>, n: nat, r: Option<Obj>, keys': set<Obj>, roots': set<Obj>)
    requires n < |qs| && AllStand(keys, roots, rs, qs[..n]) && r.Some? == TextOf(qs[n]).Some?
    requires r.Some? ==> StandsFor(keys', r.value, TextOf(qs[n]).value)
    requires roots' == roots + Present([r]) && forall k :: k in keys && k in roots ==> k in keys'
    ensures AllStand(keys', roots', rs + [r], qs[..n + 1])
  {
    hide Hash32;
    PresentIn([r], 0);
    forall i | 0 <= i < n
      ensures rs[i].Some? ==> rs[i].value in roots' && StandsFor(keys', rs[i].value, TextOf(qs[i]).value)
    {
      assert qs[..n][i] == qs[i];
    }
  }

  lemma StandersDiffer(keys: set<Obj>, roots: set<Obj>, rs: seq<Option<Obj>>, qs: seq<Request>)
    requires AllStand(keys, roots, rs, qs)
    requires forall k, l :: k in keys && l in keys && |k.text| == |l.text| && k.hash == l.hash ==> k == l
    ensures forall i, j :: 0 <= i < |qs| && 0 <= j < |qs| && rs[i].Some? && rs[j].Some? ==>
      (rs[i] == rs[j] <==> Alike(TextOf(qs[i]).value, TextOf(qs[j]).value))
  {
    hide Hash32;
  }

  lemma OnlyRoot(r: Obj, live: set<Obj>)
    requires r in live
    ensures Kept([r], live, true) == [] && Kept([r], live, false) == [r]
  {
    assert [r][..0] == [];
  }

  /** In any heap of one object that is a root, the collection as written frees it, and the intended one keeps it. */
  lemma OneRoot(heap: Heap, r: Obj)
    requires heap.Valid() && heap.list == [r] && r in RootSet(heap.roots)
    ensures Kept(heap.list, heap.Live(), true) == [] && Kept(heap.list, heap.Live(), false) == [r]
  {
    hide heap.Valid, heap.Live, RootSet, Kept;
    heap.RootsLive();
    OnlyRoot(r, heap.Live());
  }

  /** A collection as written of such a heap: the root is still on the stack, and no longer in the heap. */
  method CollectAsWritten(heap: Heap, ghost r: Obj)
    requires heap.Valid() && heap.list == [r] && Ref(r) in heap.roots.stack
    modifies heap, heap.all`next, heap.all`isMarked, heap.strings.entries
    ensures heap.list == Kept([r], old(heap.Live()), true) == [] && Ref(r) in heap.roots.stack
    ensures heap.allotted == old(heap.allotted) - r.size
  {
    hide heap.Valid, heap.Live, Kept, heap.strings.Contents, heap.strings.Valid, heap.Chained, heap.Closed, heap.Marked, RootSet;
    StackRoot(heap.roots, r);
    OneRoot(heap, r);
    heap.CollectReady();
    OneSize(r);
    heap.Collect(true);
  }

  lemma OneSize(r: Obj)
    ensures Bytes([r]) == r.size && Bytes([]) == 0
  {
    assert [r][..0] == [];
  }

  lemma StackRoot(roots: Roots, r: Obj)
    requires Ref(r) in roots.stack
    ensures r in RootSet(roots)
  {
    hide Present, InTable;
    assert r in Refs(roots.stack);
  }

  /** There is such a heap. */
  method RootFreed() returns (heap: Heap, r: Obj)
    ensures Ref(r) in heap.roots.stack && heap.list == []
  {
    hide Kids, Kept, RootSet, heap.Valid, heap.Live, heap.strings.Valid, heap.strings.Contents;
    EmptyFields();
    heap := new Heap();
    NoneKept(heap.Live());
    r := heap.New(16, Fields([], []));
    heap.RootsLive();
    PushRoots(heap.roots, r);
    heap.SetRoots(Push(heap.roots, r));
    assert heap.list == [r];
    CollectAsWritten(heap, r);
  }

  /** `str_copy` twice, with any collections it triggers: the same object if and only if the texts are equal. */
  method CopyTwice(heap: Heap, a: string, b: string, ignorecase: bool) returns (r: Obj, q: Obj)
    requires heap.Valid()
    requires
      var s, t := if ignorecase then Canon(a) else a, if ignorecase then Canon(b) else b;
      Alike(s, t) ==> s == t
    modifies heap, heap.all`next, heap.all`isMarked, heap.strings, heap.strings.entries
    ensures heap.Valid()
    ensures r == q <==> if ignorecase then Canon(a) == Canon(b) else a == b
  {
    var rs, _ := Replay(heap, [Copy(a, ignorecase), Copy(b, ignorecase)]);
    r, q := rs[0].value, rs[1].value;
  }
}
