/**
 * The archetype registry (`ArchetypeManager`): owns every archetype, hands
 * out dense indices in creation order, and finds an archetype by layout or by
 * member entity. ecs/src/archetype.rs defines neither `ArchetypeManager` nor
 * `ArchetypeStorage`, so the operations are modelled from their call sites in
 * ecs/src/world.rs and ecs/src/entry.rs.
 *
 * Scanning for the first match is this model's choice; the invariants
 * `LayoutsDistinct` and `Partitioned`, proved to hold, make the first match
 * the only one.
 */
module ArchetypeRegistry {
  import opened Outcomes
  import opened Archetypes
  import Seqs

  datatype Registry = Registry(archetypes: seq<Archetype>)

  /** The number of archetypes (`len`). */
  function Len(r: Registry): nat {
    |r.archetypes|
  }

  /** Archetype `k` sits at position `k`. */
  ghost predicate WellIndexed(r: Registry) {
    forall k :: 0 <= k < Len(r) ==> r.archetypes[k].index == k
  }

  /** No two archetypes share a layout. */
  ghost predicate LayoutsDistinct(r: Registry) {
    forall k, m :: 0 <= k < m < Len(r) ==> r.archetypes[k].layout != r.archetypes[m].layout
  }

  /** Each archetype lists a member once, and no entity is a member of two archetypes. */
  ghost predicate Partitioned(r: Registry) {
    && (forall k :: 0 <= k < Len(r) ==> Seqs.NoDup(r.archetypes[k].entities))
    && (forall k, m, x :: 0 <= k < m < Len(r) && x in r.archetypes[k].entities ==>
          x !in r.archetypes[m].entities)
  }

  /** The entity id is a member of some archetype. */
  ghost predicate IsMember(r: Registry, x: nat) {
    exists k :: 0 <= k < Len(r) && x in r.archetypes[k].entities
  }

  /** `ArchetypeManager::new`: no archetypes. */
  function NewRegistry(): (r: Registry)
    ensures Len(r) == 0
  {
    Registry([])
  }

  /**
   * `create_from_layout` / `add`: a fresh, empty archetype with the next index
   * goes at the end; the existing archetypes are untouched.
   */
  function Create(r: Registry, l: Layout): (result: (Registry, nat))
    ensures result.1 == Len(r)
    ensures Len(result.0) == Len(r) + 1
    ensures forall k :: 0 <= k < Len(r) ==> result.0.archetypes[k] == r.archetypes[k]
    ensures result.0.archetypes[result.1] == Archetype(result.1, [], l)
  {
    var a := NewArchetype(Len(r), []).(layout := l);
    (Registry(r.archetypes + [a]), Len(r))
  }

  /** Scans positions `from..` for the first archetype whose layout equals `l`. */
  function ScanLayout(archetypes: seq<Archetype>, l: Layout, from: nat): (found: Option<nat>)
    requires from <= |archetypes|
    ensures found.None? <==> forall k :: from <= k < |archetypes| ==> archetypes[k].layout != l
    ensures found.Some? ==> from <= found.value < |archetypes| && archetypes[found.value].layout == l
    ensures found.Some? ==> forall k :: from <= k < found.value ==> archetypes[k].layout != l
    decreases |archetypes| - from
  {
    if from == |archetypes| then None
    else if LayoutEq(archetypes[from].layout, l) then Some(from)
    else ScanLayout(archetypes, l, from + 1)
  }

  /** `find_from_layout`: the first archetype whose layout equals `l`, if any. */
  function FindFromLayout(r: Registry, l: Layout): (found: Option<nat>)
    ensures found.None? <==> forall k :: 0 <= k < Len(r) ==> r.archetypes[k].layout != l
    ensures found.Some? ==> found.value < Len(r) && r.archetypes[found.value].layout == l
    ensures found.Some? ==> forall k :: 0 <= k < found.value ==> r.archetypes[k].layout != l
  {
    ScanLayout(r.archetypes, l, 0)
  }

  /** Scans positions `from..` for the first archetype that lists the entity. */
  function ScanEntity(archetypes: seq<Archetype>, e: Entity, from: nat): (found: Option<nat>)
    requires from <= |archetypes|
    ensures found.None? <==> forall k :: from <= k < |archetypes| ==> e.id !in archetypes[k].entities
    ensures found.Some? ==> from <= found.value < |archetypes| && e.id in archetypes[found.value].entities
    ensures found.Some? ==> forall k :: from <= k < found.value ==> e.id !in archetypes[k].entities
    decreases |archetypes| - from
  {
    if from == |archetypes| then None
    else if Seqs.IndexOf(archetypes[from].entities, e.id).Some? then Some(from)
    else ScanEntity(archetypes, e, from + 1)
  }

  /** `find_from_entity`: the first archetype that lists the entity, if any. */
  function FindFromEntity(r: Registry, e: Entity): (found: Option<nat>)
    ensures found.None? <==> !IsMember(r, e.id)
    ensures found.Some? ==> found.value < Len(r) && e.id in r.archetypes[found.value].entities
    ensures found.Some? ==> forall k :: 0 <= k < found.value ==> e.id !in r.archetypes[k].entities
  {
    ScanEntity(r.archetypes, e, 0)
  }

  /** With distinct layouts, the archetype holding a layout is the one found for it. */
  lemma FindFromLayoutUnique(r: Registry, l: Layout, k: nat)
    requires LayoutsDistinct(r)
    requires k < Len(r) && r.archetypes[k].layout == l
    ensures FindFromLayout(r, l) == Some(k)
  {
  }

  /** In a partitioned registry, the archetype listing an entity is the one found for it. */
  lemma FindFromEntityUnique(r: Registry, e: Entity, k: nat)
    requires Partitioned(r)
    requires k < Len(r) && e.id in r.archetypes[k].entities
    ensures FindFromEntity(r, e) == Some(k)
  {
  }

  /** `assigne_entity` on archetype `k`; the other archetypes are untouched. */
  function AssignAt(r: Registry, k: nat, e: Entity): (r': Registry)
    requires k < Len(r)
    ensures Len(r') == Len(r)
    ensures forall m :: 0 <= m < Len(r) ==>
              r'.archetypes[m].index == r.archetypes[m].index &&
              r'.archetypes[m].layout == r.archetypes[m].layout
    ensures forall m, x :: 0 <= m < Len(r) ==>
              (x in r'.archetypes[m].entities <==> x in r.archetypes[m].entities || (m == k && x == e.id))
  {
    Registry(r.archetypes[k := Assign(r.archetypes[k], e)])
  }

  /** `unassigne_entity` on archetype `k`; aborts when the entity is not a member of it. */
  function UnassignAt(r: Registry, k: nat, e: Entity): (result: Outcome<Registry>)
    requires k < Len(r)
    ensures result.Ok? <==> e.id in r.archetypes[k].entities
    ensures result.Panic? ==> result.fault == NotAMember
    ensures result.Ok? ==> Len(result.value) == Len(r)
    ensures result.Ok? ==> forall m :: 0 <= m < Len(r) ==>
              result.value.archetypes[m].index == r.archetypes[m].index &&
              result.value.archetypes[m].layout == r.archetypes[m].layout
    ensures result.Ok? ==> forall m :: 0 <= m < Len(r) && m != k ==>
              result.value.archetypes[m] == r.archetypes[m]
  {
    match Unassign(r.archetypes[k], e)
    case Panic(f) => Panic(f)
    case Ok(a) => Ok(Registry(r.archetypes[k := a]))
  }

  /**
   * The find-or-create step shared by spawning and adding a component: the
   * archetype with layout `l` if one exists, otherwise a new one appended
   * with the next index.
   */
  function FindOrCreate(r: Registry, l: Layout): (result: (Registry, nat))
    ensures result.1 < Len(result.0) && result.0.archetypes[result.1].layout == l
    ensures FindFromLayout(r, l).Some? ==> result.0 == r && result.1 == FindFromLayout(r, l).value
    ensures FindFromLayout(r, l).None? ==>
              result.1 == Len(r) && Len(result.0) == Len(r) + 1 &&
              result.0.archetypes == r.archetypes + [Archetype(Len(r), [], l)]
  {
    match FindFromLayout(r, l)
    case Some(k) => (r, k)
    case None =>
      var created := Create(r, l);
      assert created.0.archetypes == r.archetypes + [Archetype(Len(r), [], l)];
      created
  }

  /** Find-or-create keeps the indices dense and the layouts distinct. */
  lemma FindOrCreateInvariants(r: Registry, l: Layout)
    requires WellIndexed(r) && LayoutsDistinct(r)
    ensures WellIndexed(FindOrCreate(r, l).0)
    ensures LayoutsDistinct(FindOrCreate(r, l).0)
  {
  }

  /** Find-or-create adds no member, and keeps a partitioned registry partitioned. */
  lemma FindOrCreateMembers(r: Registry, l: Layout)
    requires Partitioned(r)
    ensures Partitioned(FindOrCreate(r, l).0)
    ensures forall k :: 0 <= k < Len(r) ==> FindOrCreate(r, l).0.archetypes[k] == r.archetypes[k]
    ensures forall k :: Len(r) <= k < Len(FindOrCreate(r, l).0) ==> FindOrCreate(r, l).0.archetypes[k].entities == []
  {
  }

  /** Assigning an entity that is in no archetype keeps the registry partitioned. */
  lemma AssignFreshPartitioned(r: Registry, k: nat, e: Entity)
    requires Partitioned(r)
    requires k < Len(r)
    requires forall m :: 0 <= m < Len(r) ==> e.id !in r.archetypes[m].entities
    ensures Partitioned(AssignAt(r, k, e))
  {
    var r' := AssignAt(r, k, e);
    assert r'.archetypes[k].entities == r.archetypes[k].entities + [e.id];
    Seqs.AppendFreshNoDup(r.archetypes[k].entities, e.id);
  }

  /** Two registries whose layouts agree position by position find the same archetype for a layout. */
  lemma FindFromLayoutByLayouts(r: Registry, r': Registry, l: Layout)
    requires Len(r) == Len(r')
    requires forall k :: 0 <= k < Len(r) ==> r.archetypes[k].layout == r'.archetypes[k].layout
    ensures FindFromLayout(r, l) == FindFromLayout(r', l)
  {
    var a := FindFromLayout(r, l);
    var b := FindFromLayout(r', l);
    if a.Some? && b.Some? {
      assert r'.archetypes[a.value].layout == l;
      assert r.archetypes[b.value].layout == l;
    }
  }

  /**
   * `r'` is `r` with `x` a member of archetype `j` and of no other: the
   * invariants hold, archetypes are only added, existing layouts are kept and
   * every other id keeps its memberships.
   */
  ghost predicate PlacedIn(r: Registry, r': Registry, x: nat, j: nat) {
    && WellIndexed(r') && LayoutsDistinct(r') && Partitioned(r')
    && Len(r) <= Len(r') && j < Len(r')
    && (forall k :: 0 <= k < Len(r) ==> r'.archetypes[k].layout == r.archetypes[k].layout)
    && (forall k :: 0 <= k < Len(r') ==> (x in r'.archetypes[k].entities <==> k == j))
    && (forall k, y :: 0 <= k < Len(r') && y != x ==>
          (y in r'.archetypes[k].entities <==> k < Len(r) && y in r.archetypes[k].entities))
  }

  /** Unassigning a member from its archetype leaves it in no archetype and changes nothing else. */
  lemma DetachEntity(r: Registry, i: nat, e: Entity)
    requires WellIndexed(r) && LayoutsDistinct(r) && Partitioned(r)
    requires i < Len(r) && e.id in r.archetypes[i].entities
    ensures UnassignAt(r, i, e).Ok?
    ensures var d := UnassignAt(r, i, e).value;
            && WellIndexed(d) && LayoutsDistinct(d) && Partitioned(d)
            && Len(d) == Len(r)
            && (forall k :: 0 <= k < Len(r) ==> d.archetypes[k].layout == r.archetypes[k].layout)
            && (forall k :: 0 <= k < Len(r) ==> e.id !in d.archetypes[k].entities)
            && (forall k, x :: 0 <= k < Len(r) && x != e.id ==>
                  (x in d.archetypes[k].entities <==> x in r.archetypes[k].entities))
  {
    var d := UnassignAt(r, i, e).value;
    UnassignMembers(r.archetypes[i], e);
    assert d.archetypes[i] == Unassign(r.archetypes[i], e).value;
  }

  /** Find-or-create then assign an entity that is in no archetype: it lands in exactly that archetype. */
  lemma AttachEntity(d: Registry, e: Entity, l: Layout)
    requires WellIndexed(d) && LayoutsDistinct(d) && Partitioned(d)
    requires forall k :: 0 <= k < Len(d) ==> e.id !in d.archetypes[k].entities
    ensures var placed := FindOrCreate(d, l);
            var r' := AssignAt(placed.0, placed.1, e);
            && PlacedIn(d, r', e.id, placed.1)
            && Len(r') <= Len(d) + 1
            && r'.archetypes[placed.1].layout == l
            && r'.archetypes[placed.1].index == placed.1
            && (FindFromLayout(d, l).Some? ==> placed.1 == FindFromLayout(d, l).value && Len(r') == Len(d))
            && (FindFromLayout(d, l).None? ==> placed.1 == Len(d))
  {
    FindOrCreateInvariants(d, l);
    FindOrCreateMembers(d, l);
    var placed := FindOrCreate(d, l);
    AssignFreshPartitioned(placed.0, placed.1, e);
  }

  /** The registry a member ends up in after moving from archetype `i` to the archetype for layout `l`. */
  function Moved(r: Registry, i: nat, e: Entity, l: Layout): (result: (Registry, nat))
    requires i < Len(r) && e.id in r.archetypes[i].entities
  {
    var placed := FindOrCreate(UnassignAt(r, i, e).value, l);
    (AssignAt(placed.0, placed.1, e), placed.1)
  }

  /**
   * Moving a member from archetype `i` to the archetype for layout `l`: it
   * ends up in exactly that archetype, which is the existing one with that
   * layout or a new one at the end; no other membership and no layout changes,
   * and the registry invariants are kept.
   */
  lemma MoveEntity(r: Registry, i: nat, e: Entity, l: Layout)
    requires WellIndexed(r) && LayoutsDistinct(r) && Partitioned(r)
    requires i < Len(r) && e.id in r.archetypes[i].entities
    ensures var (r', j) := Moved(r, i, e, l);
            && PlacedIn(r, r', e.id, j)
            && r'.archetypes[j].layout == l && r'.archetypes[j].index == j
            && (FindFromLayout(r, l).Some? ==> j == FindFromLayout(r, l).value && Len(r') == Len(r))
            && (FindFromLayout(r, l).None? ==> j == Len(r) && Len(r') == Len(r) + 1)
  {
    DetachEntity(r, i, e);
    var d := UnassignAt(r, i, e).value;
    AttachEntity(d, e, l);
    FindFromLayoutByLayouts(r, d, l);
  }
}
