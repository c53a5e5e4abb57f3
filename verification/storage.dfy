/**
 * Per-type component storage (ecs/src/storage.rs).
 *
 * A `VecStorage` is an append-only vector of one component type's values; a
 * value's position is its only handle. `ComponentStorages` holds one such
 * vector per component type and creates it lazily on first use. The Rust
 * `ComponentStorages` hides each vector behind `Box<dyn Any>` and narrows it back by `TypeId`;
 * here the map is keyed by the type token, so the narrowing cannot fail.
 */
module Storages {
  import opened Outcomes
  import opened Archetypes

  /** The values of one component type, in insertion order. */
  datatype VecStorage<V> = VecStorage(items: seq<V>)

  /** One storage per component type that has been used so far. */
  datatype ComponentStorages<V> = ComponentStorages(storages: map<TypeTok, VecStorage<V>>)

  /** `size`: how many values the storage holds. */
  function Size<V>(s: VecStorage<V>): nat {
    |s.items|
  }

  /** `VecStorage::new`: an empty storage. */
  function NewStorage<V>(): (s: VecStorage<V>)
    ensures Size(s) == 0
  {
    VecStorage([])
  }

  /** `get_component`: the value at `index`; reading past the end aborts. */
  function GetComponent<V>(s: VecStorage<V>, index: nat): (r: Outcome<V>)
    ensures r.Ok? <==> index < Size(s)
    ensures r.Panic? ==> r.fault == SlotOutOfRange
    ensures r.Ok? ==> r.value == s.items[index]
  {
    if index < |s.items| then Ok(s.items[index]) else Panic(SlotOutOfRange)
  }

  /**
   * `push_component`: appends the value and returns the position it took,
   * which is the size before the push. Earlier positions keep their values.
   */
  function PushComponent<V>(s: VecStorage<V>, c: V): (result: (VecStorage<V>, nat))
    ensures result.1 == Size(s)
    ensures Size(result.0) == Size(s) + 1
    ensures GetComponent(result.0, result.1) == Ok(c)
    ensures forall i :: 0 <= i < Size(s) ==> GetComponent(result.0, i) == GetComponent(s, i)
  {
    var index := Size(s);
    (VecStorage(s.items + [c]), index)
  }

  /** A sequence of pushes never moves or changes a stored value. */
  lemma {:induction false} PushesKeepPositions<V>(s: VecStorage<V>, cs: seq<V>, index: nat)
    requires index < Size(s)
    ensures GetComponent(PushAll(s, cs), index) == GetComponent(s, index)
    ensures Size(PushAll(s, cs)) == Size(s) + |cs|
    decreases |cs|
  {
    if |cs| > 0 {
      PushesKeepPositions(PushComponent(s, cs[0]).0, cs[1..], index);
    }
  }

  /** Pushes each value of `cs` in turn. */
  function PushAll<V>(s: VecStorage<V>, cs: seq<V>): VecStorage<V>
    decreases |cs|
  {
    if |cs| == 0 then s else PushAll(PushComponent(s, cs[0]).0, cs[1..])
  }

  /** `ComponentStorages::new`: no storage for any type. */
  function NewStorages<V>(): (cs: ComponentStorages<V>)
    ensures cs.storages == map[]
  {
    ComponentStorages(map[])
  }

  /**
   * `get_storage` and `get_storage_mut`: the storage for `t`, created empty on
   * first use. Only the entry for `t` can change.
   */
  function GetStorage<V>(cs: ComponentStorages<V>, t: TypeTok): (result: (ComponentStorages<V>, VecStorage<V>))
    ensures t in result.0.storages && result.0.storages[t] == result.1
    ensures t in cs.storages ==> result.0 == cs
    ensures t !in cs.storages ==> Size(result.1) == 0
    ensures forall u :: u != t ==>
              (u in result.0.storages <==> u in cs.storages) &&
              (u in cs.storages ==> result.0.storages[u] == cs.storages[u])
  {
    if t in cs.storages then (cs, cs.storages[t])
    else
      var s := NewStorage();
      (ComponentStorages(cs.storages[t := s]), s)
  }

  /** Lazy creation is idempotent: a second request returns the same storage, unchanged. */
  lemma GetStorageIdempotent<V>(cs: ComponentStorages<V>, t: TypeTok)
    ensures GetStorage(GetStorage(cs, t).0, t) == GetStorage(cs, t)
  {
  }

  /** `get_storage_raw`: the storage for `t`, which must already exist. */
  function GetStorageRaw<V>(cs: ComponentStorages<V>, t: TypeTok): (r: Outcome<VecStorage<V>>)
    ensures r.Ok? <==> t in cs.storages
    ensures r.Panic? ==> r.fault == MissingStorage
    ensures r.Ok? ==> r.value == GetStorage(cs, t).1
  {
    if t in cs.storages then Ok(cs.storages[t]) else Panic(MissingStorage)
  }

  /** Every storage of `cs` is still present in `cs'` with its values at their positions. */
  ghost predicate Extends<V>(cs: ComponentStorages<V>, cs': ComponentStorages<V>) {
    forall u :: u in cs.storages ==>
      && u in cs'.storages
      && Size(cs.storages[u]) <= Size(cs'.storages[u])
      && forall i :: 0 <= i < Size(cs.storages[u]) ==> cs'.storages[u].items[i] == cs.storages[u].items[i]
  }

  /** A value stored before an extension is still there after it. */
  lemma ExtendsAt<V>(cs: ComponentStorages<V>, cs': ComponentStorages<V>, u: TypeTok, i: nat)
    requires Extends(cs, cs') && u in cs.storages && i < Size(cs.storages[u])
    ensures u in cs'.storages && i < Size(cs'.storages[u])
    ensures cs'.storages[u].items[i] == cs.storages[u].items[i]
  {
  }

  /**
   * `get_storage_mut::<C>().push_component(c)`: the value lands at the end of
   * `t`'s storage (created if needed), at the returned position; every other
   * stored value keeps its position.
   */
  function PushComponentOf<V>(cs: ComponentStorages<V>, t: TypeTok, c: V): (result: (ComponentStorages<V>, nat))
    ensures Extends(cs, result.0)
    ensures t in result.0.storages
    ensures result.1 == (if t in cs.storages then Size(cs.storages[t]) else 0)
    ensures Size(result.0.storages[t]) == result.1 + 1
    ensures GetComponent(result.0.storages[t], result.1) == Ok(c)
    ensures forall u :: u != t ==>
              (u in result.0.storages <==> u in cs.storages) &&
              (u in cs.storages ==> result.0.storages[u] == cs.storages[u])
  {
    var (created, s) := GetStorage(cs, t);
    var (s', index) := PushComponent(s, c);
    (ComponentStorages(created.storages[t := s']), index)
  }
}
