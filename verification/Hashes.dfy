/**
 The number-keyed table of `hash.c`. A slot that holds the key `UINT64_MAX` is unused, so a
 store under that key leaves a marker or nothing at all; either way no other key is lost.
 */
module Hashes {
  import opened Values
  import opened Probing
  import Tables

  datatype Index<V> = Index(key: Raw, value: V)

  /** What a slot holds; a marker left under the unused key is as good as empty. */
  function SlotOf<V>(e: Index<V>): Slot<Raw, V> {
    if e.key == UNUSED_INDEX then Empty else Live(e.key, e.value)
  }

  function Slots<V>(es: seq<Index<V>>): (s: seq<Slot<Raw, V>>)
    ensures |s| == |es|
    ensures forall i :: 0 <= i < |es| ==> s[i] == SlotOf(es[i])
  {
    seq(|es|, i requires 0 <= i < |es| => SlotOf(es[i]))
  }

  /** The slots a search does not stop at: live ones and markers. */
  function Raws<V(==)>(es: seq<Index<V>>, nil: V): (s: seq<Slot<Raw, V>>)
    ensures |s| == |es|
    ensures forall i :: 0 <= i < |es| ==> s[i] == if es[i].key == UNUSED_INDEX && es[i].value == nil then Empty else Live(es[i].key, es[i].value)
  {
    seq(|es|, i requires 0 <= i < |es| =>
      if es[i].key == UNUSED_INDEX && es[i].value == nil then Empty else Live(es[i].key, es[i].value))
  }

  /** `key % capacity`. */
  function Same(k: Raw): nat {
    k
  }

  /** A search that has gone through `d` slots: past a marker, the key is known to be absent. */
  ghost predicate Seeking<V>(s: seq<Slot<Raw, V>>, key: Raw, d: nat, tombstone: Option<nat>)
    requires |s| > 0 && d <= |s|
  {
    if tombstone.Some? then Found(s, Same, key, tombstone.value) && !s[tombstone.value].Live?
    else Searched(s, Same, key, d, None)
  }

  lemma NotSought<V>(s: seq<Slot<Raw, V>>, key: Raw)
    requires |s| > 0
    ensures Seeking(s, key, 0, None)
  {
  }

  lemma Unused<V>(s: seq<Slot<Raw, V>>, key: Raw, d: nat, tombstone: Option<nat>)
    requires d < |s| && Seeking(s, key, d, tombstone) && Reach(s, Same) && s[Nth(Home(Same, key, |s|), d, |s|)].Empty?
    ensures
      var i := Nth(Home(Same, key, |s|), d, |s|);
      var t := if tombstone.Some? then tombstone else Some(i);
      Found(s, Same, key, t.value) && Seeking(s, key, d + 1, t)
  {
    if tombstone.None? { SearchFails(s, Same, key, d, None); }
  }

  lemma Hit<V>(s: seq<Slot<Raw, V>>, key: Raw, d: nat, tombstone: Option<nat>)
    requires d < |s| && Seeking(s, key, d, tombstone)
    requires var x := s[Nth(Home(Same, key, |s|), d, |s|)]; x.Live? && x.key == key
    ensures Found(s, Same, key, Nth(Home(Same, key, |s|), d, |s|))
  {
  }

  lemma Other<V>(s: seq<Slot<Raw, V>>, key: Raw, d: nat, tombstone: Option<nat>)
    requires d < |s| && Seeking(s, key, d, tombstone)
    requires var x := s[Nth(Home(Same, key, |s|), d, |s|)]; x.Live? && x.key != key
    ensures Seeking(s, key, d + 1, tombstone)
  {
  }

  class Hash<V(==)> {
    const nil: V
    var indexes: array<Index<V>>
    var count: nat

    function View(): seq<Slot<Raw, V>>
      reads this, indexes
    {
      Slots(indexes[..])
    }

    /** Unlike the string table's, `count` may exceed the slots in use: a null stored under the unused key is counted. */
    ghost predicate Valid()
      reads this, indexes
    {
      Occupied(Raws(indexes[..], nil)) <= count && 4 * count <= 3 * indexes.Length
      && (indexes.Length == 0 || indexes.Length >= 8) && Sound(View(), Same)
    }

    function Contents(): map<Raw, V>
      reads this, indexes
    {
      Probing.Contents(View())
    }

    /** `hash_init`. */
    constructor (nil: V)
      ensures Valid() && fresh(indexes) && this.nil == nil && Contents() == map[]
    {
      this.nil := nil;
      indexes := new Index[0];
      count := 0;
    }

    /** `hash_find`. */
    method Find(es: array<Index<V>>, key: Raw) returns (index: nat)
      requires Occupied(Raws(es[..], nil)) < es.Length && Reach(Slots(es[..]), Same)
      ensures Found(Slots(es[..]), Same, key, index)
    {
      hide Found, Searched, Reach, Occupied;
      ghost var s, raws := Slots(es[..]), Raws(es[..], nil);
      ghost var empty := SomeEmpty(raws);
      ghost var home, d := Home(Same, key, |s|), 0;
      index := key % es.Length;
      var tombstone: Option<nat> := None;
      NotSought(s, key);
      while true
        invariant d <= Off(home, empty, |s|) && index == Nth(home, d, |s|)
        invariant Seeking(s, key, d, tombstone)
        decreases |s| - d
      {
        assert s[index] == SlotOf(es[index]);
        if es[index].key == UNUSED_INDEX {
          Unused(s, key, d, tombstone);
          if es[index].value == nil { return if tombstone.Some? then tombstone.value else index; }
          if tombstone.None? { tombstone := Some(index); }
        } else if es[index].key == key {
          Hit(s, key, d, tombstone);
          return;
        } else {
          Other(s, key, d, tombstone);
        }
        Further(home, d, empty, |s|);
        index := (index + 1) % es.Length;
        d := d + 1;
      }
    }

    /** `hash_get`. */
    method Get(key: Raw) returns (r: Option<V>)
      requires Valid()
      ensures r == if key in Contents() then Some(Contents()[key]) else None
    {
      if count == 0 {
        NothingLive(indexes[..], nil);
        NoContents(View());
        return None;
      }
      var index := Find(indexes, key);
      FoundContents(View(), Same, key, index);
      r := if indexes[index].key == UNUSED_INDEX then None else Some(indexes[index].value);
    }

    /** `t` is a copy of the live entries of `part`, without markers. */
    ghost predicate Copying(es: seq<Index<V>>, part: seq<Slot<Raw, V>>, n: nat) {
      Sound(Slots(es), Same) && Clean(es, nil) && n == Occupied(Slots(es)) <= Occupied(part)
      && Probing.Contents(Slots(es)) == Probing.Contents(part)
    }

    method Copy(es: array<Index<V>>, ghost s: seq<Slot<Raw, V>>, i: nat, ghost n: nat)
      requires i < indexes.Length && indexes[i].key != UNUSED_INDEX && s == View() && Unique(s) && es != indexes
      requires Copying(es[..], s[..i], n) && n < es.Length
      modifies es
      ensures Copying(es[..], s[..i + 1], n + 1)
    {
      hide Sound, Probing.Contents, Occupied, Unique;
      ghost var t := Slots(es[..]);
      var e := indexes[i];
      assert s[i] == SlotOf(e);
      SoundReach(t, Same);
      CleanRaws(es[..], nil);
      var dest := Find(es, e.key);
      Copied(s, i, t, Same, dest);
      ContentsSnoc(s, i);
      es[dest] := e;
      assert Slots(es[..]) == t[dest := s[i]];
    }

    /** `hash_resize`. */
    method Resize(capacity: nat)
      requires Valid() && capacity >= 8 && 2 * (count + 1) <= capacity
      modifies this
      ensures Valid() && fresh(indexes) && indexes.Length == capacity
      ensures Contents() == old(Contents()) && count <= old(count)
    {
      hide Sound, Probing.Contents, Occupied;
      var es := new Index<V>[capacity](_ => Index(UNUSED_INDEX, nil));
      ghost var s := View();
      var n, i := 0, 0;
      EmptySound(Slots(es[..]), Same);
      AllEmpty(Slots(es[..]));
      AllEmpty(s[..0]);
      SoundReach(s, Same);
      NothingLive(indexes[..], nil);
      while i < indexes.Length
        invariant i <= |s| && fresh(es) && es.Length == capacity && View() == s
        invariant indexes == old(indexes) && count == old(count)
        invariant Copying(es[..], s[..i], n)
      {
        ContentsSnoc(s, i);
        if indexes[i].key != UNUSED_INDEX {
          OccupiedPrefix(s, i);
          Copy(es, s, i, n);
          n := n + 1;
        }
        i := i + 1;
      }
      assert s[..i] == s;
      CleanRaws(es[..], nil);
      indexes, count := es, n;
    }

    /** The start of `hash_set`: three quarters of the slots are enough for one key more. */
    method MakeRoom()
      requires Valid()
      modifies this
      ensures Valid() && Contents() == old(Contents()) && count <= old(count) && (indexes == old(indexes) || fresh(indexes))
      ensures
        var c := old(indexes.Length);
        indexes.Length == if 4 * (old(count) + 1) > 3 * c then (if c < 8 then 8 else 2 * c) else c
      ensures 4 * (count + 1) <= 3 * indexes.Length
    {
      hide Sound, Probing.Contents, Occupied;
      if 4 * (count + 1) > 3 * indexes.Length { Resize(Tables.Grown(indexes.Length)); }
    }

    /** `hash_set`; returns whether the key is new. */
    method Set(key: Raw, value: V) returns (isNewKey: bool)
      requires Valid()
      modifies this, indexes
      ensures Valid() && (indexes == old(indexes) || fresh(indexes))
      ensures Contents() == HashPut(old(Contents()), key, value)
      ensures isNewKey == (key !in old(Contents()))
      ensures
        var c := old(indexes.Length);
        indexes.Length == if 4 * (old(count) + 1) > 3 * c then (if c < 8 then 8 else 2 * c) else c
    {
      hide Sound, Probing.Contents, Occupied;
      MakeRoom();
      ghost var s, raws := View(), Raws(indexes[..], nil);
      SoundReach(s, Same);
      var index := Find(indexes, key);
      assert s[index] == SlotOf(indexes[index]);
      FoundContents(s, Same, key, index);
      Put(s, Same, key, value, index);
      ghost var x := if key == UNUSED_INDEX && value == nil then Empty else Live(key, value);
      OccupiedPut(raws, index, x);
      isNewKey := indexes[index].key == UNUSED_INDEX;
      if isNewKey && indexes[index].value == nil { count := count + 1; }
      indexes[index] := Index(key, value);
      assert Raws(indexes[..], nil) == raws[index := x];
      assert View() == if key == UNUSED_INDEX then s else s[index := Live(key, value)];
    }
  }

  /** No markers. */
  predicate Clean<V(==)>(es: seq<Index<V>>, nil: V) {
    forall i :: 0 <= i < |es| && es[i].key == UNUSED_INDEX ==> es[i].value == nil
  }

  lemma CleanRaws<V>(es: seq<Index<V>>, nil: V)
    requires Clean(es, nil)
    ensures Raws(es, nil) == Slots(es)
  {
  }

  /** Live slots are in use. */
  lemma {:induction false} NothingLive<V>(es: seq<Index<V>>, nil: V)
    ensures Occupied(Slots(es)) <= Occupied(Raws(es, nil))
    decreases |es|
  {
    if es != [] {
      var n := |es| - 1;
      assert Slots(es)[..n] == Slots(es[..n]) && Raws(es, nil)[..n] == Raws(es[..n], nil);
      NothingLive(es[..n], nil);
    }
  }

  datatype Op<V> = SetOp(key: Raw, value: V) | GetOp(key: Raw)

  /** The map after an operation: nothing is ever found under the unused key. */
  function After<V>(m: map<Raw, V>, op: Op<V>): map<Raw, V> {
    if op.SetOp? then HashPut(m, op.key, op.value) else m
  }

  function Answer<V>(m: map<Raw, V>, op: Op<V>): Tables.Reply<V> {
    if op.SetOp? then Tables.Did(op.key !in m) else Tables.Got(if op.key in m then Some(m[op.key]) else None)
  }

  function Answers<V>(m: map<Raw, V>, ops: seq<Op<V>>): seq<Tables.Reply<V>>
    decreases |ops|
  {
    if ops == [] then [] else [Answer(m, ops[0])] + Answers(After(m, ops[0]), ops[1..])
  }

  method Apply<V(==)>(t: Hash<V>, op: Op<V>) returns (reply: Tables.Reply<V>)
    requires t.Valid()
    modifies t, t.indexes
    ensures t.Valid() && (t.indexes == old(t.indexes) || fresh(t.indexes))
    ensures reply == Answer(old(t.Contents()), op) && t.Contents() == After(old(t.Contents()), op)
  {
    match op
    case SetOp(k, v) =>
      var isNew := t.Set(k, v);
      reply := Tables.Did(isNew);
    case GetOp(k) =>
      var v := t.Get(k);
      reply := Tables.Got(v);
  }

  /** Over every history, stores under the unused key among it, the table answers as the plain map does. */
  method Replay<V(==)>(nil: V, ops: seq<Op<V>>) returns (replies: seq<Tables.Reply<V>>)
    ensures replies == Answers(map[], ops)
  {
    hide Answer, After;
    var t := new Hash(nil);
    replies := [];
    for i := 0 to |ops|
      invariant t.Valid() && fresh(t) && fresh(t.indexes)
      invariant Answers(map[], ops) == replies + Answers(t.Contents(), ops[i..])
    {
      assert ops[i..][0] == ops[i] && ops[i..][1..] == ops[i + 1..];
      var reply := Apply(t, ops[i]);
      replies := replies + [reply];
    }
    assert ops[|ops|..] == [];
  }
}
