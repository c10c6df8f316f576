/**
 The string table of `table.c`: open addressing over an array of entries that is replaced
 when it gets too full. Removed entries stay as tombstones and are still counted.
 */
module Tables {
  import opened Values
  import opened Probing

  /** A slot as the original stores it: a tombstone is an entry without key whose value is not null. */
  datatype Entry<K, V> = Entry(key: Option<K>, value: V)

  function SlotOf<K, V(==)>(e: Entry<K, V>, nil: V): Slot<K, V> {
    if e.key.Some? then Live(e.key.value, e.value) else if e.value == nil then Empty else Tomb
  }

  function Slots<K, V(==)>(es: seq<Entry<K, V>>, nil: V): (s: seq<Slot<K, V>>)
    ensures |s| == |es|
    ensures forall i :: 0 <= i < |es| ==> s[i] == SlotOf(es[i], nil)
  {
    seq(|es|, i requires 0 <= i < |es| => SlotOf(es[i], nil))
  }

  /** `GROW_CAP`. */
  function Grown(capacity: nat): nat {
    if capacity < 8 then 8 else 2 * capacity
  }

  class Table<K(==), V(==)> {
    const hash: K -> nat
    const nil: V
    const grave: V
    var entries: array<Entry<K, V>>
    var count: nat

    function View(): seq<Slot<K, V>>
      reads this, entries
    {
      Slots(entries[..], nil)
    }

    ghost predicate Valid()
      reads this, entries
    {
      nil != grave
      && count == Occupied(View()) && 4 * count <= 3 * entries.Length
      && (entries.Length == 0 || entries.Length >= 8) && Sound(View(), hash)
    }

    /** The finite map the table stands for. */
    function Contents(): map<K, V>
      reads this, entries
    {
      Probing.Contents(View())
    }

    /** The keys of the contents are those of the entries. */
    lemma KeysInSlots()
      requires Valid()
      ensures forall k :: k in Contents() <==> exists i :: 0 <= i < entries.Length && entries[i].key == Some(k)
    {
      forall k ensures k in Contents() <==> exists i :: 0 <= i < entries.Length && entries[i].key == Some(k) {
        HasIffIn(View(), k);
        if Has(View(), k) {
          var i :| 0 <= i < |View()| && View()[i].Live? && View()[i].key == k;
          assert entries[i].key == Some(k);
        }
        if i :| 0 <= i < entries.Length && entries[i].key == Some(k) { assert View()[i].Live? && View()[i].key == k; }
      }
    }

    lemma SlotOfKey(k: K) returns (i: nat)
      requires Valid() && k in Contents()
      ensures i < entries.Length && entries[i].key == Some(k)
    {
      HasIffIn(View(), k);
      i :| i < |View()| && View()[i].Live? && View()[i].key == k;
    }

    /** `tab_init`. */
    constructor (hash: K -> nat, nil: V, grave: V)
      requires nil != grave
      ensures Valid() && fresh(entries) && this.hash == hash && this.nil == nil && Contents() == map[]
    {
      this.hash, this.nil, this.grave := hash, nil, grave;
      entries := new Entry[0];
      count := 0;
    }

    /** `findEntry`: the search always ends, since some slot is empty. */
    method FindEntry(es: array<Entry<K, V>>, key: K) returns (index: nat)
      requires Occupied(Slots(es[..], nil)) < es.Length && Reach(Slots(es[..], nil), hash)
      ensures Found(Slots(es[..], nil), hash, key, index)
    {
      ghost var s := Slots(es[..], nil);
      ghost var empty := SomeEmpty(s);
      ghost var home, d := Home(hash, key, |s|), 0;
      index := hash(key) % es.Length;
      var tombstone: Option<nat> := None;
      while true
        invariant d <= Off(home, empty, |s|) && index == Nth(home, d, |s|)
        invariant Searched(s, hash, key, d, tombstone)
        decreases |s| - d
      {
        assert s[index] == SlotOf(es[index], nil);
        if es[index].key.None? {
          if es[index].value == nil {
            SearchFails(s, hash, key, d, tombstone);
            return if tombstone.Some? then tombstone.value else index;
          }
        } else if es[index].key.value == key {
          return;
        }
        SearchGoesOn(s, hash, key, d, tombstone, empty);
        if es[index].key.None? && tombstone.None? { tombstone := Some(index); }
        index := (index + 1) % es.Length;
        d := d + 1;
      }
    }

    /** `tab_get`. */
    method Get(key: K) returns (r: Option<V>)
      requires Valid()
      ensures r == if key in Contents() then Some(Contents()[key]) else None
    {
      if count == 0 {
        NoContents(View());
        return None;
      }
      var index := FindEntry(entries, key);
      FoundContents(View(), hash, key, index);
      r := if entries[index].key.None? then None else Some(entries[index].value);
    }

    /** `t` is a copy of the live entries of `part`, without tombstones. */
    ghost predicate Copying(t: seq<Slot<K, V>>, part: seq<Slot<K, V>>, n: nat) {
      Sound(t, hash) && NoTombs(t) && n == Occupied(t) <= Occupied(part) && Probing.Contents(t) == Probing.Contents(part)
    }

    /** One turn of the loop of `adjustCapacity`. */
    method Copy(es: array<Entry<K, V>>, ghost s: seq<Slot<K, V>>, i: nat, ghost n: nat)
      requires i < entries.Length && entries[i].key.Some? && s == View() && Unique(s) && es != entries
      requires Copying(Slots(es[..], nil), s[..i], n) && n < es.Length
      modifies es
      ensures Copying(Slots(es[..], nil), s[..i + 1], n + 1)
    {
      hide Sound, Probing.Contents, Occupied, Unique;
      ghost var t := Slots(es[..], nil);
      var e := entries[i];
      assert s[i] == SlotOf(e, nil);
      SoundReach(t, hash);
      var dest := FindEntry(es, e.key.value);
      Copied(s, i, t, hash, dest);
      ContentsSnoc(s, i);
      es[dest] := e;
      assert Slots(es[..], nil) == t[dest := s[i]];
    }

    /** `adjustCapacity`: the live entries move to a larger array, without the tombstones. */
    method AdjustCapacity(capacity: nat)
      requires Valid() && capacity >= 8 && 2 * (count + 1) <= capacity
      modifies this
      ensures Valid() && fresh(entries) && entries.Length == capacity
      ensures Contents() == old(Contents()) && count <= old(count)
    {
      hide Sound, Probing.Contents, Occupied;
      var es := new Entry<K, V>[capacity](_ => Entry(None, nil));
      ghost var s := View();
      var n, i := 0, 0;
      EmptySound(Slots(es[..], nil), hash);
      AllEmpty(Slots(es[..], nil));
      AllEmpty(s[..0]);
      SoundReach(s, hash);
      while i < entries.Length
        invariant i <= |s| && fresh(es) && es.Length == capacity && View() == s
        invariant entries == old(entries) && count == old(count)
        invariant Copying(Slots(es[..], nil), s[..i], n)
      {
        ContentsSnoc(s, i);
        if entries[i].key.Some? {
          OccupiedPrefix(s, i);
          Copy(es, s, i, n);
          n := n + 1;
        }
        i := i + 1;
      }
      assert s[..i] == s;
      entries, count := es, n;
    }

    /** `tab_set`; returns whether the key is new. */
    method Set(key: K, value: V) returns (isNewKey: bool)
      requires Valid()
      modifies this, entries
      ensures Valid() && (entries == old(entries) || fresh(entries))
      ensures Contents() == old(Contents())[key := value]
      ensures isNewKey == (key !in old(Contents()))
      ensures
        var c := old(entries.Length);
        entries.Length == if 4 * (old(count) + 1) > 3 * c then (if c < 8 then 8 else 2 * c) else c
    {
      hide Sound, Probing.Contents, Occupied;
      if 4 * (count + 1) > 3 * entries.Length { AdjustCapacity(Grown(entries.Length)); }
      ghost var s := View();
      assert Reach(s, hash) by { SoundReach(s, hash); }
      var index := FindEntry(entries, key);
      assert s[index] == SlotOf(entries[index], nil);
      FoundContents(s, hash, key, index);
      Put(s, hash, key, value, index);
      OccupiedPut(s, index, Live(key, value));
      isNewKey := entries[index].key.None?;
      if isNewKey && entries[index].value == nil { count := count + 1; }
      entries[index] := Entry(Some(key), value);
      assert View() == s[index := Live(key, value)];
    }

    /** `tab_remove`; returns whether the key was there. */
    method Remove(key: K) returns (removed: bool)
      requires Valid()
      modifies entries
      ensures Valid() && Contents() == old(Contents()) - {key}
      ensures removed == (key in old(Contents()))
      ensures forall i :: 0 <= i < entries.Length ==> entries[i] == old(entries[i]) || entries[i].key.None?
    {
      hide Sound, Probing.Contents, Occupied;
      if count == 0 {
        NoContents(View());
        return false;
      }
      ghost var s := View();
      assert Reach(s, hash) by { SoundReach(s, hash); }
      var index := FindEntry(entries, key);
      assert s[index] == SlotOf(entries[index], nil);
      FoundContents(s, hash, key, index);
      if entries[index].key.None? { return false; }
      Bury(s, hash, index);
      OccupiedPut(s, index, Tomb);
      entries[index] := Entry(None, grave);
      assert View() == s[index := Tomb];
      removed := true;
    }

    /** `tab_add`: every entry of this table is set in the other. */
    method AddTo(to: Table<K, V>)
      requires Valid() && to.Valid() && to != this && to.entries != entries
      modifies to, to.entries
      ensures to.Valid() && (to.entries == old(to.entries) || fresh(to.entries))
      ensures to.Contents() == old(to.Contents()) + Contents()
      ensures Valid() && Contents() == old(Contents())
    {
      hide Sound, Probing.Contents, Occupied;
      ghost var s, m := View(), to.Contents();
      var i := 0;
      assert Probing.Contents(s[..0]) == map[] by { AllEmpty(s[..0]); }
      while i < entries.Length
        invariant i <= |s| && View() == s && entries == old(entries) && Valid()
        invariant to.Valid() && to.entries != entries && (to.entries == old(to.entries) || fresh(to.entries))
        invariant to.Contents() == m + Probing.Contents(s[..i])
      {
        var e := entries[i];
        assert s[i] == SlotOf(e, nil);
        ContentsSnoc(s, i);
        if e.key.Some? { var _ := to.Set(e.key.value, e.value); }
        i := i + 1;
      }
      assert s[..i] == s;
    }

    /** `tab_findstr`: a key of that length and hash, if the table has one. */
    method FindStr(length: K -> nat, len: nat, h: nat) returns (r: Option<K>)
      requires Valid()
      ensures r.Some? ==> r.value in Contents() && length(r.value) == len && hash(r.value) == h
      ensures r.None? ==> forall k :: k in Contents() ==> !(length(k) == len && hash(k) == h)
    {
      hide Probing.Contents, Occupied, Sound, Passed;
      ghost var s := View();
      if count == 0 {
        NoContents(s);
        return None;
      }
      ghost var empty := SomeEmpty(s);
      ghost var home, d := h % |s|, 0;
      NonePassed(s, hash, length, len, h);
      var index := h % entries.Length;
      while true
        invariant d <= Off(home, empty, |s|) && index == Nth(home, d, |s|)
        invariant Passed(s, hash, length, len, h, d)
        decreases |s| - d
      {
        var e := entries[index];
        assert s[index] == SlotOf(e, nil);
        if e.key.None? {
          if e.value == nil {
            NoneAlike(s, hash, length, len, h, d);
            return None;
          }
        } else if length(e.key.value) == len && hash(e.key.value) == h {
          SoundReach(s, hash);
          ContentsAt(s, index);
          return e.key;
        }
        PassedOn(s, hash, length, len, h, d, empty);
        index := (index + 1) % entries.Length;
        d := d + 1;
      }
    }
  }

  /** Two tables, one of them current: `AddOp` is `tab_add` from the other into it, `TurnOp` makes the other current. */
  datatype Op<K, V> = SetOp(key: K, value: V) | RemoveOp(key: K) | GetOp(key: K) | AddOp | TurnOp

  datatype Maps<K, V> = Maps(current: map<K, V>, other: map<K, V>)

  datatype Reply<V> = Did(b: bool) | Got(v: Option<V>) | Done

  /** What the plain maps are after an operation, and the answer. */
  function After<K, V>(m: Maps<K, V>, op: Op<K, V>): Maps<K, V> {
    match op
    case SetOp(k, v) => m.(current := m.current[k := v])
    case RemoveOp(k) => m.(current := m.current - {k})
    case GetOp(_) => m
    case AddOp => m.(current := m.current + m.other)
    case TurnOp => Maps(m.other, m.current)
  }

  function Answer<K, V>(m: Maps<K, V>, op: Op<K, V>): Reply<V> {
    match op
    case SetOp(k, _) => Did(k !in m.current)
    case RemoveOp(k) => Did(k in m.current)
    case GetOp(k) => Got(if k in m.current then Some(m.current[k]) else None)
    case AddOp => Done
    case TurnOp => Done
  }

  /** The answers of two plain maps to a history of operations. */
  function Answers<K, V>(m: Maps<K, V>, ops: seq<Op<K, V>>): seq<Reply<V>>
    decreases |ops|
  {
    if ops == [] then [] else [Answer(m, ops[0])] + Answers(After(m, ops[0]), ops[1..])
  }

  function Both<K(==), V(==)>(t: Table<K, V>, u: Table<K, V>): Maps<K, V>
    reads t, t.entries, u, u.entries
  {
    Maps(t.Contents(), u.Contents())
  }

  ghost predicate Separate<K, V>(t: Table<K, V>, u: Table<K, V>)
    reads t, t.entries, u, u.entries
  {
    t.Valid() && u.Valid() && t != u && t.entries != u.entries
  }

  method Apply<K(==), V(==)>(t: Table<K, V>, u: Table<K, V>, op: Op<K, V>) returns (reply: Reply<V>)
    requires Separate(t, u) && !op.TurnOp?
    modifies t, t.entries
    ensures Separate(t, u) && (t.entries == old(t.entries) || fresh(t.entries))
    ensures reply == Answer(old(Both(t, u)), op) && Both(t, u) == After(old(Both(t, u)), op)
  {
    match op
    case SetOp(k, v) =>
      var isNew := t.Set(k, v);
      reply := Did(isNew);
    case RemoveOp(k) =>
      var removed := t.Remove(k);
      reply := Did(removed);
    case GetOp(k) =>
      var v := t.Get(k);
      reply := Got(v);
    case AddOp =>
      u.AddTo(t);
      reply := Done;
  }

  /** Over every history, growing and reusing tombstones as they may, the tables answer as the plain maps do. */
  method Replay<K(==), V(==)>(hash: K -> nat, nil: V, grave: V, ops: seq<Op<K, V>>) returns (replies: seq<Reply<V>>)
    requires nil != grave
    ensures replies == Answers(Maps(map[], map[]), ops)
  {
    hide Answer, After, Sound, Probing.Contents, Occupied, Slots;
    var t := new Table(hash, nil, grave);
    var u := new Table(hash, nil, grave);
    ghost var start := Maps(map[], map[]);
    replies := [];
    for i := 0 to |ops|
      invariant Separate(t, u) && fresh({t, u}) && fresh(t.entries) && fresh(u.entries)
      invariant Answers(start, ops) == replies + Answers(Both(t, u), ops[i..])
    {
      assert ops[i..][0] == ops[i] && ops[i..][1..] == ops[i + 1..];
      var reply := Done;
      if ops[i].TurnOp? {
        Turned(Both(t, u), ops[i]);
        t, u := u, t;
      } else {
        reply := Apply(t, u, ops[i]);
      }
      replies := replies + [reply];
    }
    assert ops[|ops|..] == [];
  }

  lemma Turned<K, V>(m: Maps<K, V>, op: Op<K, V>)
    requires op.TurnOp?
    ensures After(m, op) == Maps(m.other, m.current) && Answer(m, op) == Done
  {
  }
}
