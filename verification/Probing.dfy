/**
 Linear probing with tombstones, on sequences of slots. Both hash tables of the
 original are views of this: `table.c` over string objects, `hash.c` over raw numbers.
 */
module Probing {
  import opened Values

  datatype Slot<K, V> = Empty | Tomb | Live(key: K, value: V)

  /** Slot number `d` of the probe path that starts at `start`, in a table of `c` slots. */
  function Nth(start: nat, d: nat, c: nat): (i: nat)
    requires start < c && d < c
    ensures i < c
  {
    if start + d < c then start + d else start + d - c
  }

  /** Where on that path slot `i` comes. */
  function Off(start: nat, i: nat, c: nat): (d: nat)
    requires start < c && i < c
    ensures d < c && Nth(start, d, c) == i
  {
    if i >= start then i - start else i + c - start
  }

  lemma OffNth(start: nat, d: nat, c: nat)
    requires start < c && d < c
    ensures Off(start, Nth(start, d, c), c) == d
  {
  }

  /** The first `n` slots of a probe path are in use, so a search goes through them. */
  predicate Path<K, V>(s: seq<Slot<K, V>>, start: nat, n: nat)
    requires start < |s| && n <= |s|
  {
    forall d :: 0 <= d < n ==> !s[Nth(start, d, |s|)].Empty?
  }

  function Home<K>(hash: K -> nat, k: K, c: nat): (i: nat)
    requires c > 0
    ensures i < c
  {
    hash(k) % c
  }

  ghost predicate Has<K, V>(s: seq<Slot<K, V>>, k: K) {
    exists i :: 0 <= i < |s| && s[i].Live? && s[i].key == k
  }

  ghost predicate Unique<K, V>(s: seq<Slot<K, V>>) {
    forall i, j :: 0 <= i < |s| && 0 <= j < |s| && s[i].Live? && s[j].Live? && s[i].key == s[j].key ==> i == j
  }

  predicate ReachAt<K, V>(s: seq<Slot<K, V>>, hash: K -> nat, i: nat)
    requires i < |s| && s[i].Live?
  {
    var home := Home(hash, s[i].key, |s|);
    Path(s, home, Off(home, i, |s|))
  }

  /** Every live key can be found along its probe path. */
  ghost predicate Reach<K, V>(s: seq<Slot<K, V>>, hash: K -> nat) {
    forall i :: 0 <= i < |s| && s[i].Live? ==> ReachAt(s, hash, i)
  }

  ghost predicate Sound<K, V>(s: seq<Slot<K, V>>, hash: K -> nat) {
    Unique(s) && Reach(s, hash)
  }

  /** How many slots are not empty. */
  function Occupied<K, V>(s: seq<Slot<K, V>>): (n: nat)
    ensures n <= |s|
  {
    if s == [] then 0 else Occupied(s[..|s| - 1]) + if s[|s| - 1].Empty? then 0 else 1
  }

  lemma {:induction false} OccupiedPut<K, V>(s: seq<Slot<K, V>>, i: nat, x: Slot<K, V>)
    requires i < |s|
    ensures Occupied(s[i := x]) == Occupied(s) - (if s[i].Empty? then 0 else 1) + (if x.Empty? then 0 else 1)
    decreases |s|
  {
    var n := |s| - 1;
    if i < n {
      OccupiedPut(s[..n], i, x);
      assert s[i := x][..n] == s[..n][i := x];
    } else {
      assert s[i := x][..n] == s[..n];
    }
  }

  /** A table that is not full has an empty slot, so every search ends. */
  lemma {:induction false} SomeEmpty<K, V>(s: seq<Slot<K, V>>) returns (i: nat)
    requires Occupied(s) < |s|
    ensures i < |s| && s[i].Empty?
    decreases |s|
  {
    var n := |s| - 1;
    if s[n].Empty? { i := n; } else { i := SomeEmpty(s[..n]); }
  }

  /** What a search for `k` may return: its slot, or where it could be put. */
  ghost predicate Found<K, V>(s: seq<Slot<K, V>>, hash: K -> nat, k: K, r: nat) {
    r < |s|
    && if s[r].Live? then s[r].key == k
       else !Has(s, k) && var home := Home(hash, k, |s|); Path(s, home, Off(home, r, |s|))
  }

  /** An empty slot on the path of a key ends the search for it: it cannot come later. */
  lemma Absent<K, V>(s: seq<Slot<K, V>>, hash: K -> nat, k: K, d: nat)
    requires Reach(s, hash) && d < |s| && s[Nth(Home(hash, k, |s|), d, |s|)].Empty?
    requires forall e :: 0 <= e < d ==> var x := s[Nth(Home(hash, k, |s|), e, |s|)]; !(x.Live? && x.key == k)
    ensures !Has(s, k)
  {
    var home := Home(hash, k, |s|);
    if i :| 0 <= i < |s| && s[i].Live? && s[i].key == k {
      var e := Off(home, i, |s|);
      assert ReachAt(s, hash, i);
      assert Nth(home, e, |s|) == i;
    }
  }

  /** The finite map a table stands for. */
  function Contents<K(==), V>(s: seq<Slot<K, V>>): map<K, V> {
    if s == [] then map[]
    else
      var m, last := Contents(s[..|s| - 1]), s[|s| - 1];
      if last.Live? then m[last.key := last.value] else m
  }

  lemma {:induction false} HasIffIn<K, V>(s: seq<Slot<K, V>>, k: K)
    ensures Has(s, k) <==> k in Contents(s)
    decreases |s|
  {
    if s != [] {
      var n := |s| - 1;
      HasIffIn(s[..n], k);
      if Has(s, k) {
        var i :| 0 <= i < |s| && s[i].Live? && s[i].key == k;
        if i < n { assert s[..n][i] == s[i]; }
      }
    }
  }

  lemma {:induction false} ContentsAt<K, V>(s: seq<Slot<K, V>>, i: nat)
    requires Unique(s) && i < |s| && s[i].Live?
    ensures s[i].key in Contents(s) && Contents(s)[s[i].key] == s[i].value
    decreases |s|
  {
    var n := |s| - 1;
    if i < n {
      assert s[..n][i] == s[i];
      ContentsAt(s[..n], i);
    }
  }

  /** A map that agrees with every live slot and has no other key is the contents. */
  lemma ContentsIs<K, V>(s: seq<Slot<K, V>>, m: map<K, V>)
    requires Unique(s)
    requires forall i :: 0 <= i < |s| && s[i].Live? ==> s[i].key in m && m[s[i].key] == s[i].value
    requires forall x :: x in m ==> Has(s, x)
    ensures Contents(s) == m
  {
    forall x | x in Contents(s) ensures x in m && Contents(s)[x] == m[x] {
      HasIffIn(s, x);
      var i :| 0 <= i < |s| && s[i].Live? && s[i].key == x;
      ContentsAt(s, i);
    }
    forall x | x in m ensures x in Contents(s) { HasIffIn(s, x); }
  }

  lemma ContentsAll<K, V>(s: seq<Slot<K, V>>)
    requires Unique(s)
    ensures forall i :: 0 <= i < |s| && s[i].Live? ==> s[i].key in Contents(s) && Contents(s)[s[i].key] == s[i].value
    ensures forall x :: x in Contents(s) ==> Has(s, x)
  {
    hide Contents, Unique;
    forall i | 0 <= i < |s| && s[i].Live? ensures s[i].key in Contents(s) && Contents(s)[s[i].key] == s[i].value { ContentsAt(s, i); }
    forall x | x in Contents(s) ensures Has(s, x) { HasIffIn(s, x); }
  }

  /** Changing one slot keeps the other keys. */
  lemma HasOthers<K, V>(s: seq<Slot<K, V>>, r: nat, y: Slot<K, V>, x: K)
    requires r < |s| && Has(s, x) && (s[r].Live? ==> s[r].key != x)
    ensures Has(s[r := y], x)
  {
    var i :| 0 <= i < |s| && s[i].Live? && s[i].key == x;
    assert s[r := y][i] == s[i];
  }

  /** Using a slot, in place of what was there, keeps every path. */
  lemma ReachPut<K, V>(s: seq<Slot<K, V>>, hash: K -> nat, r: nat, y: Slot<K, V>)
    requires Reach(s, hash) && r < |s| && !y.Empty?
    requires y.Live? ==> var home := Home(hash, y.key, |s|); Path(s, home, Off(home, r, |s|))
    ensures Reach(s[r := y], hash)
  {
    var t := s[r := y];
    forall i | 0 <= i < |t| && t[i].Live? ensures ReachAt(t, hash, i) {
      if i != r { assert ReachAt(s, hash, i); }
    }
  }

  /** Storing where a search ended is a map update, and keeps every key findable. */
  lemma Put<K, V>(s: seq<Slot<K, V>>, hash: K -> nat, k: K, v: V, r: nat)
    requires Sound(s, hash) && Found(s, hash, k, r)
    ensures Sound(s[r := Live(k, v)], hash) && Contents(s[r := Live(k, v)]) == Contents(s)[k := v]
  {
    hide Contents, Reach;
    if s[r].Live? { ReachLive(s, hash, r); }
    ReachPut(s, hash, r, Live(k, v));
    PutUnique(s, k, v, r);
    ContentsAll(s);
    PutContents(s, k, v, r);
  }

  lemma ReachLive<K, V>(s: seq<Slot<K, V>>, hash: K -> nat, r: nat)
    requires Reach(s, hash) && r < |s| && s[r].Live?
    ensures var home := Home(hash, s[r].key, |s|); Path(s, home, Off(home, r, |s|))
  {
    assert ReachAt(s, hash, r);
  }

  lemma PutUnique<K, V>(s: seq<Slot<K, V>>, k: K, v: V, r: nat)
    requires Unique(s) && r < |s| && if s[r].Live? then s[r].key == k else !Has(s, k)
    ensures Unique(s[r := Live(k, v)])
  {
  }

  lemma PutContents<K, V>(s: seq<Slot<K, V>>, k: K, v: V, r: nat)
    requires r < |s| && Unique(s) && Unique(s[r := Live(k, v)]) && if s[r].Live? then s[r].key == k else !Has(s, k)
    ensures Contents(s[r := Live(k, v)]) == Contents(s)[k := v]
  {
    hide Contents, Unique;
    var t, m := s[r := Live(k, v)], Contents(s)[k := v];
    ContentsAll(s);
    forall x | x in m ensures Has(t, x) {
      if x == k { assert t[r].Live? && t[r].key == k; } else { HasOthers(s, r, Live(k, v), x); }
    }
    forall i | 0 <= i < |t| && t[i].Live? ensures t[i].key in m && m[t[i].key] == t[i].value {
      if i != r { OnlyHere(s, k, v, r, i); }
    }
    ContentsIs(t, m);
  }

  lemma OnlyHere<K, V>(s: seq<Slot<K, V>>, k: K, v: V, r: nat, i: nat)
    requires r < |s| && Unique(s[r := Live(k, v)]) && i < |s| && i != r && s[i].Live?
    ensures s[i].key != k
  {
    var t := s[r := Live(k, v)];
    assert t[i] == s[i] && t[r].Live?;
  }

  /** A tombstone in place of a key removes it and keeps the others findable. */
  lemma Bury<K, V>(s: seq<Slot<K, V>>, hash: K -> nat, r: nat)
    requires Sound(s, hash) && r < |s| && s[r].Live?
    ensures Sound(s[r := Tomb], hash) && Contents(s[r := Tomb]) == Contents(s) - {s[r].key}
  {
    hide Contents, Reach;
    var t, m := s[r := Tomb], Contents(s) - {s[r].key};
    ReachPut(s, hash, r, Tomb);
    ContentsAll(s);
    forall x | x in m ensures Has(t, x) { HasOthers(s, r, Tomb, x); }
    forall i | 0 <= i < |t| && t[i].Live? ensures t[i].key in m && m[t[i].key] == t[i].value { assert t[i] == s[i]; }
    ContentsIs(t, m);
  }

  lemma {:induction false} AllEmpty<K, V>(s: seq<Slot<K, V>>)
    requires forall i :: 0 <= i < |s| ==> s[i].Empty?
    ensures Occupied(s) == 0 && Contents(s) == map[]
    decreases |s|
  {
    if s != [] { AllEmpty(s[..|s| - 1]); }
  }

  /** Copying a prefix of a table's live entries, one at a time. */
  lemma ContentsSnoc<K, V>(s: seq<Slot<K, V>>, n: nat)
    requires n < |s|
    ensures Contents(s[..n + 1]) == if s[n].Live? then Contents(s[..n])[s[n].key := s[n].value] else Contents(s[..n])
    ensures Occupied(s[..n + 1]) == Occupied(s[..n]) + if s[n].Empty? then 0 else 1
  {
    assert s[..n + 1][..n] == s[..n];
  }

  lemma {:induction false} OccupiedPrefix<K, V>(s: seq<Slot<K, V>>, n: nat)
    requires n <= |s|
    ensures Occupied(s[..n]) <= Occupied(s)
    decreases |s| - n
  {
    if n < |s| {
      ContentsSnoc(s, n);
      OccupiedPrefix(s, n + 1);
    } else {
      assert s[..n] == s;
    }
  }

  /** A search for `k` that has gone through `d` slots and remembers the first tombstone among them. */
  predicate Searched<K(==), V>(s: seq<Slot<K, V>>, hash: K -> nat, k: K, d: nat, tomb: Option<nat>)
    requires |s| > 0 && d <= |s|
  {
    var home := Home(hash, k, |s|);
    Path(s, home, d)
    && (forall e :: 0 <= e < d ==> var x := s[Nth(home, e, |s|)]; !(x.Live? && x.key == k))
    && (tomb.Some? ==> tomb.value < |s| && s[tomb.value].Tomb? && Off(home, tomb.value, |s|) < d)
  }

  /** An empty slot ends the search: the key is absent, and belongs there or in the tombstone. */
  lemma SearchFails<K, V>(s: seq<Slot<K, V>>, hash: K -> nat, k: K, d: nat, tomb: Option<nat>)
    requires d < |s| && Searched(s, hash, k, d, tomb) && Reach(s, hash)
    requires s[Nth(Home(hash, k, |s|), d, |s|)].Empty?
    ensures Found(s, hash, k, if tomb.Some? then tomb.value else Nth(Home(hash, k, |s|), d, |s|))
  {
    Absent(s, hash, k, d);
    OffNth(Home(hash, k, |s|), d, |s|);
  }

  /** The search goes on past a tombstone or another key. */
  lemma SearchGoesOn<K, V>(s: seq<Slot<K, V>>, hash: K -> nat, k: K, d: nat, tomb: Option<nat>, empty: nat)
    requires d < |s| && Searched(s, hash, k, d, tomb) && empty < |s| && s[empty].Empty?
    requires d <= Off(Home(hash, k, |s|), empty, |s|)
    requires
      var x := s[Nth(Home(hash, k, |s|), d, |s|)];
      !x.Empty? && !(x.Live? && x.key == k)
    ensures
      var i := Nth(Home(hash, k, |s|), d, |s|);
      Searched(s, hash, k, d + 1, if tomb.None? && s[i].Tomb? then Some(i) else tomb)
      && d + 1 <= Off(Home(hash, k, |s|), empty, |s|)
      && (i + 1) % |s| == Nth(Home(hash, k, |s|), d + 1, |s|)
  {
    var home := Home(hash, k, |s|);
    Further(home, d, empty, |s|);
    OffNth(home, d, |s|);
  }

  /** The next slot of a search that has not come to `empty` yet. */
  lemma Further(home: nat, d: nat, empty: nat, c: nat)
    requires home < c && empty < c && d <= Off(home, empty, c) && Nth(home, d, c) != empty
    ensures d + 1 <= Off(home, empty, c) && (Nth(home, d, c) + 1) % c == Nth(home, d + 1, c)
  {
    OffNth(home, d, c);
    var i := Nth(home, d, c);
    if i + 1 < c { SmallMod(i + 1, c); }
  }

  lemma SmallMod(i: nat, n: nat)
    requires i < n
    ensures i % n == i
  {
  }

  lemma NoContents<K, V>(s: seq<Slot<K, V>>)
    requires Occupied(s) == 0
    ensures Contents(s) == map[]
    decreases |s|
  {
    if s != [] { NoContents(s[..|s| - 1]); }
  }

  /** A successful search is a hit in the map, an unsuccessful one a miss. */
  lemma FoundContents<K, V>(s: seq<Slot<K, V>>, hash: K -> nat, k: K, r: nat)
    requires Sound(s, hash) && Found(s, hash, k, r)
    ensures s[r].Live? <==> k in Contents(s)
    ensures s[r].Live? ==> Contents(s)[k] == s[r].value
  {
    HasIffIn(s, k);
    if s[r].Live? { ContentsAt(s, r); }
  }

  lemma EmptySound<K, V>(s: seq<Slot<K, V>>, hash: K -> nat)
    requires forall i :: 0 <= i < |s| ==> s[i].Empty?
    ensures Sound(s, hash) && NoTombs(s)
  {
  }

  lemma SoundReach<K, V>(s: seq<Slot<K, V>>, hash: K -> nat)
    requires Sound(s, hash)
    ensures Reach(s, hash) && Unique(s)
  {
  }

  predicate NoTombs<K, V>(s: seq<Slot<K, V>>) {
    forall i :: 0 <= i < |s| ==> !s[i].Tomb?
  }

  /** The next entry to copy is not in the copy yet, so it takes an empty slot there. */
  lemma NotYet<K, V>(s: seq<Slot<K, V>>, i: nat, t: seq<Slot<K, V>>, hash: K -> nat, dest: nat)
    requires i < |s| && s[i].Live? && Unique(s)
    requires Sound(t, hash) && NoTombs(t) && Contents(t) == Contents(s[..i]) && Found(t, hash, s[i].key, dest)
    ensures t[dest].Empty?
  {
    hide Contents, Reach;
    HasIffIn(s[..i], s[i].key);
    FoundContents(t, hash, s[i].key, dest);
  }

  /** A search by length and hash that has gone through `d` slots. */
  predicate Passed<K, V>(s: seq<Slot<K, V>>, hash: K -> nat, length: K -> nat, len: nat, h: nat, d: nat)
    requires |s| > 0 && d <= |s|
  {
    forall e :: 0 <= e < d ==>
      var x := s[Nth(h % |s|, e, |s|)];
      !x.Empty? && !(x.Live? && length(x.key) == len && hash(x.key) == h)
  }

  lemma NonePassed<K, V>(s: seq<Slot<K, V>>, hash: K -> nat, length: K -> nat, len: nat, h: nat)
    requires |s| > 0
    ensures Passed(s, hash, length, len, h, 0)
  {
  }

  lemma NoneAlike<K, V>(s: seq<Slot<K, V>>, hash: K -> nat, length: K -> nat, len: nat, h: nat, d: nat)
    requires Sound(s, hash) && d < |s| && Passed(s, hash, length, len, h, d) && s[Nth(h % |s|, d, |s|)].Empty?
    ensures forall k :: k in Contents(s) ==> !(length(k) == len && hash(k) == h)
  {
    hide Contents;
    forall k | k in Contents(s) ensures !(length(k) == len && hash(k) == h) {
      HasIffIn(s, k);
      var i :| 0 <= i < |s| && s[i].Live? && s[i].key == k;
    }
  }

  lemma PassedOn<K, V>(s: seq<Slot<K, V>>, hash: K -> nat, length: K -> nat, len: nat, h: nat, d: nat, empty: nat)
    requires d < |s| && Passed(s, hash, length, len, h, d) && empty < |s| && s[empty].Empty? && d <= Off(h % |s|, empty, |s|)
    requires
      var x := s[Nth(h % |s|, d, |s|)];
      !x.Empty? && !(x.Live? && length(x.key) == len && hash(x.key) == h)
    ensures
      Passed(s, hash, length, len, h, d + 1) && d + 1 <= Off(h % |s|, empty, |s|)
      && (Nth(h % |s|, d, |s|) + 1) % |s| == Nth(h % |s|, d + 1, |s|)
  {
    Further(h % |s|, d, empty, |s|);
  }

  /** Copying the next live entry: the copy gains exactly one used slot and one key. */
  lemma Copied<K, V>(s: seq<Slot<K, V>>, i: nat, t: seq<Slot<K, V>>, hash: K -> nat, dest: nat)
    requires i < |s| && s[i].Live? && Unique(s)
    requires Sound(t, hash) && NoTombs(t) && Contents(t) == Contents(s[..i]) && Found(t, hash, s[i].key, dest)
    ensures var u := t[dest := s[i]];
      Sound(u, hash) && NoTombs(u) && Contents(u) == Contents(s[..i + 1]) && Occupied(u) == Occupied(t) + 1
  {
    hide Contents, Sound, Occupied;
    NotYet(s, i, t, hash, dest);
    Put(t, hash, s[i].key, s[i].value, dest);
    OccupiedPut(t, dest, s[i]);
    ContentsSnoc(s, i);
  }
}
