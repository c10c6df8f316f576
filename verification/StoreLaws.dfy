/** What reading gives after writing: members, elements and globals. */
module StoreLaws {
  import opened Values
  import opened Syntax
  import opened Evaluator
  import Machine

  /** The maps but one are as they were. */
  predicate OnlyMap(st: Machine.Store, st': Machine.Store, ref: nat) {
    st'.globals == st.globals && st'.out == st.out && |st'.heap| == |st.heap|
    && forall r :: 0 <= r < |st.heap| && r != ref ==> st'.heap[r] == st.heap[r]
  }

  /** A member stored is the member read, by name or as an element; every other member and element is what it was. */
  lemma MemberStored(st: Machine.Store, ref: nat, key: string, v: Value, env: Env, other: string, raw: Raw)
    requires ref < |st.heap|
    ensures
      var r := StoreMember(st, Map(ref), key, v, env);
      r.Ok? && r.value == v && OnlyMap(st, r.store, ref)
      && StoreElement(st, Map(ref), Str(key), v, env) == r
      && MemberOf(r.store, Map(ref), key, env) == Ok(v, env, r.store)
      && ElementOf(r.store, Map(ref), Str(key), env) == Ok(v, env, r.store)
      && (other != key ==> MemberOf(r.store, Map(ref), other, env).value == MemberOf(st, Map(ref), other, env).value)
      && ElementOf(r.store, Map(ref), Num(raw), env).value == ElementOf(st, Map(ref), Num(raw), env).value
  {
  }

  /**
   An element stored under a number is the element read, but for the one pattern that marks an
   unused slot: what is stored there is lost. No literal has that pattern.
   */
  lemma ElementStored(st: Machine.Store, ref: nat, key: Raw, v: Value, env: Env, other: Raw, name: string, n: Literal)
    requires ref < |st.heap|
    ensures
      var r := StoreElement(st, Map(ref), Num(key), v, env);
      r.Ok? && r.value == v && OnlyMap(st, r.store, ref)
      && (key != 0xFFFF_FFFF_FFFF_FFFF ==> ElementOf(r.store, Map(ref), Num(key), env) == Ok(v, env, r.store))
      && (key == 0xFFFF_FFFF_FFFF_FFFF ==> r.store == st)
      && (other != key ==> ElementOf(r.store, Map(ref), Num(other), env).value == ElementOf(st, Map(ref), Num(other), env).value)
      && MemberOf(r.store, Map(ref), name, env).value == MemberOf(st, Map(ref), name, env).value
    ensures n != 0xFFFF_FFFF_FFFF_FFFF
  {
  }

  /** A member or an element that was never stored is null. */
  lemma NeverStored(h: Host, st: Machine.Store, env: Env, key: string, raw: Raw)
    ensures
      var r := Allocate(h, [], env, st);
      r.Ok? && MemberOf(r.store, r.value, key, env) == Ok(Null, env, r.store)
      && ElementOf(r.store, r.value, Num(raw), env) == Ok(Null, env, r.store)
      && r.store.heap[..|st.heap|] == st.heap
  {
  }

  /** Only maps have members and elements, and only strings and numbers are their keys. */
  lemma NoMembers(st: Machine.Store, m: Value, key: Value, name: string, v: Value, env: Env)
    requires m.Map? ==> m.ref < |st.heap|
    ensures MemberOf(st, m, name, env) == Err(Machine.NotAMap, st) <==> !m.Map?
    ensures StoreMember(st, m, name, v, env) == Err(Machine.NotAMap, st) <==> !m.Map?
    ensures ElementOf(st, m, key, env).Err? <==> !m.Map? || (!key.Num? && !key.Str?)
    ensures StoreElement(st, m, key, v, env).Err? <==> !m.Map? || (!key.Num? && !key.Str?)
    ensures m.Map? && !key.Num? && !key.Str? ==> ElementOf(st, m, key, env) == StoreElement(st, m, key, v, env) == Err(Machine.BadIndex, st)
  {
  }

  /** A global declared or assigned is the global read; the others are what they were. */
  lemma GlobalStored(h: Host, st: Machine.Store, id: Ident, v: Value, other: Ident)
    ensures
      var r := Declare(h, true, id, v, [], st);
      r.Ok? && Read(h, id, [], r.store) == Ok(v, [], r.store)
      && (Key(h, id) in st.globals ==> Write(h, id, v, [], st) == Ok(v, [], r.store))
      && (Key(h, id) !in st.globals ==> Write(h, id, v, [], st) == Read(h, id, [], st) == Err(Machine.Undefined(Key(h, id)), st))
      && (Key(h, other) in st.globals && Key(h, other) != Key(h, id) ==> Read(h, other, [], r.store).value == Read(h, other, [], st).value)
  {
    hide Key;
  }
}
