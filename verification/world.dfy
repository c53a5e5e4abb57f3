/**
 * The world façade (ecs/src/world.rs): the entity counter, the location map,
 * the archetype registry and the component storages, kept in lock-step.
 *
 * `Valid` is the global bookkeeping invariant: archetype indices are dense,
 * no two archetypes share a layout, every located entity is a member of
 * exactly one archetype, and its location list has one entry per layout
 * position, each naming an existing slot of that position's type storage.
 */
module Worlds {
  import opened Outcomes
  import opened Archetypes
  import opened ArchetypeRegistry
  import Storages
  import opened Locations

  datatype World<V> = World(
    entityId: nat,
    locations: LocationMap,
    archetypes: Registry,
    components: Storages.ComponentStorages<V>)

  /** The location list `ls` fits layout `l`: one location per type, each naming an existing slot. */
  ghost predicate Fits<V>(ls: seq<EntityLocation>, l: Layout, st: map<TypeTok, Storages.VecStorage<V>>, n: nat) {
    && |ls| == |l.components|
    && forall k :: 0 <= k < |ls| ==>
         && l.components[k] in st
         && ls[k].component < Storages.Size(st[l.components[k]])
         && ls[k].archetype < n
  }

  /** The global bookkeeping invariant. */
  ghost predicate Valid<V>(w: World<V>) {
    && WellIndexed(w.archetypes)
    && LayoutsDistinct(w.archetypes)
    && Partitioned(w.archetypes)
    && LocatedAreMembers(w)
    && MembersFit(w)
  }

  /** The index of the archetype a located entity of a valid world belongs to. */
  ghost function ArchetypeOf<V>(w: World<V>, e: Entity): (k: nat)
    requires Valid(w) && e in w.locations.locations
    ensures k < Len(w.archetypes) && e.id in w.archetypes.archetypes[k].entities
  {
    FindFromEntity(w.archetypes, e).value
  }

  /** The layout of a located entity of a valid world. */
  ghost function LayoutOf<V>(w: World<V>, e: Entity): Layout
    requires Valid(w) && e in w.locations.locations
  {
    w.archetypes.archetypes[ArchetypeOf(w, e)].layout
  }

  /** `World::new`: counter 0, and no locations, archetypes or storages. */
  function NewWorld<V>(): (w: World<V>)
    ensures w.entityId == 0
    ensures w.locations.locations == map[]
    ensures Len(w.archetypes) == 0
    ensures w.components.storages == map[]
  {
    World(0, NewLocationMap(), NewRegistry(), Storages.NewStorages())
  }

  /** A new world satisfies the bookkeeping invariant. */
  lemma NewWorldValid<V>()
    ensures Valid(NewWorld<V>())
  {
  }

  /**
   * `spawn`: the new entity is `Entity(counter)`; it joins the archetype with
   * layout `[t]` (created when there is none), its value is pushed onto `t`'s
   * storage, and its location list is the single pair (archetype, slot).
   */
  function Spawn<V>(w: World<V>, t: TypeTok, c: V): (result: (World<V>, Entity))
    ensures result.1 == Entity(w.entityId)
    ensures result.0.entityId == w.entityId + 1
    ensures Len(result.0.archetypes) ==
              Len(w.archetypes) + (if FindFromLayout(w.archetypes, Layout([t])).Some? then 0 else 1)
    ensures Storages.Extends(w.components, result.0.components)
    ensures t in result.0.components.storages
    ensures Storages.Size(result.0.components.storages[t]) ==
              1 + (if t in w.components.storages then Storages.Size(w.components.storages[t]) else 0)
    ensures forall e :: e != result.1 ==> Get(result.0.locations, e) == Get(w.locations, e)
  {
    var e := Entity(w.entityId);
    var layout := Register(NewLayout(), t);
    assert layout == Layout([t]);
    var (placed, k) := FindOrCreate(w.archetypes, layout);
    var archetypes := AssignAt(placed, k, e);
    var (components, slot) := Storages.PushComponentOf(w.components, t, c);
    var locations := Insert(w.locations, e, [EntityLocation(placed.archetypes[k].index, slot)]);
    (World(w.entityId + 1, locations, archetypes, components), e)
  }

  /**
   * `World::get_component`: reads the entity's location list and archetype
   * (aborting without them), answers None when `t` is not in the layout, and
   * otherwise follows the location at the first position of `t` into `t`'s
   * storage.
   */
  function GetComponent<V>(w: World<V>, e: Entity, t: TypeTok): (r: Outcome<Option<V>>)
    ensures e !in w.locations.locations ==> r == Panic(MissingLocation)
    ensures e in w.locations.locations && !IsMember(w.archetypes, e.id) ==> r == Panic(NoArchetype)
    ensures r.Ok? && r.value.Some? ==> e in w.locations.locations && t in w.components.storages
  {
    match Get(w.locations, e)
    case Panic(f) => Panic(f)
    case Ok(ls) =>
      match FindFromEntity(w.archetypes, e)
      case None => Panic(NoArchetype)
      case Some(k) =>
        var layout := w.archetypes.archetypes[k].layout;
        if !ContainsType(layout, t) then Ok(None)
        else
          var position := FirstPosition(layout, t).value;
          if position >= |ls| then Panic(LocationOutOfRange)
          else
            var (_, s) := Storages.GetStorage(w.components, t);
            match Storages.GetComponent(s, ls[position].component)
            case Panic(f) => Panic(f)
            case Ok(v) => Ok(Some(v))
  }

  /**
   * In a valid world, reading a located entity never aborts: the answer is
   * None exactly when `t` is not in the entity's layout, and otherwise the
   * value in `t`'s storage at the slot recorded for the first position of `t`.
   */
  lemma GetComponentValid<V>(w: World<V>, e: Entity, t: TypeTok)
    requires Valid(w) && e in w.locations.locations
    ensures GetComponent(w, e, t).Ok?
    ensures GetComponent(w, e, t).value.None? <==> t !in LayoutOf(w, e).components
    ensures t in LayoutOf(w, e).components ==>
              var position := FirstPosition(LayoutOf(w, e), t).value;
              var loc := w.locations.locations[e][position];
              && position < |w.locations.locations[e]|
              && t in w.components.storages
              && loc.component < Storages.Size(w.components.storages[t])
              && GetComponent(w, e, t) == Ok(Some(w.components.storages[t].items[loc.component]))
  {
    var k := ArchetypeOf(w, e);
    assert Entity(e.id) == e;
  }

  /** Storages only growing and archetypes only being added keep a fitting location list fitting. */
  lemma FitsGrow<V>(ls: seq<EntityLocation>, l: Layout, cs: Storages.ComponentStorages<V>,
                    cs': Storages.ComponentStorages<V>, n: nat, n': nat)
    requires Fits(ls, l, cs.storages, n)
    requires Storages.Extends(cs, cs') && n <= n'
    ensures Fits(ls, l, cs'.storages, n')
  {
  }

  /** Every member id of a valid world is below the entity counter. */
  lemma MembersBelowCounter<V>(w: World<V>)
    requires Valid(w)
    ensures forall k, x :: 0 <= k < Len(w.archetypes) && x in w.archetypes.archetypes[k].entities ==> x < w.entityId
  {
    forall k, x | 0 <= k < Len(w.archetypes) && x in w.archetypes.archetypes[k].entities
      ensures x < w.entityId
    {
      assert Entity(x) in w.locations.locations;
      assert Entity(x).id == x;
    }
  }

  /** Appending a fitting location for a new type `t` keeps a location list fitting the extended layout. */
  lemma FitsAppend<V>(ls: seq<EntityLocation>, l: Layout, st: map<TypeTok, Storages.VecStorage<V>>, n: nat,
                      t: TypeTok, loc: EntityLocation)
    requires Fits(ls, l, st, n)
    requires t in st && loc.component < Storages.Size(st[t]) && loc.archetype < n
    ensures Fits(ls + [loc], Register(l, t), st, n)
  {
    var ls', l' := ls + [loc], Register(l, t);
    forall k | 0 <= k < |ls'|
      ensures l'.components[k] in st
      ensures ls'[k].component < Storages.Size(st[l'.components[k]])
      ensures ls'[k].archetype < n
    {
      if k < |ls| {
        assert ls'[k] == ls[k] && l'.components[k] == l.components[k];
      }
    }
  }

  /** Every located entity is below the counter and a member of some archetype. */
  ghost predicate LocatedAreMembers<V>(w: World<V>) {
    forall e :: e in w.locations.locations ==> e.id < w.entityId && IsMember(w.archetypes, e.id)
  }

  /** Every member is located, with a location list that fits its archetype's layout. */
  ghost predicate MembersFit<V>(w: World<V>) {
    forall k, x :: 0 <= k < Len(w.archetypes) && x in w.archetypes.archetypes[k].entities ==>
      && Entity(x) in w.locations.locations
      && Fits(w.locations.locations[Entity(x)], w.archetypes.archetypes[k].layout,
              w.components.storages, Len(w.archetypes))
  }

  /** Placing one entity as the member of archetype `j` keeps every located entity a member. */
  lemma PlacedLocated<V>(w: World<V>, w': World<V>, e: Entity, j: nat)
    requires LocatedAreMembers(w)
    requires w.entityId <= w'.entityId && e.id < w'.entityId
    requires PlacedIn(w.archetypes, w'.archetypes, e.id, j)
    requires w'.locations.locations.Keys == w.locations.locations.Keys + {e}
    ensures LocatedAreMembers(w')
  {
    forall e' | e' in w'.locations.locations
      ensures e'.id < w'.entityId && IsMember(w'.archetypes, e'.id)
    {
      if e' == e {
        assert e.id in w'.archetypes.archetypes[j].entities;
      } else {
        var k :| 0 <= k < Len(w.archetypes) && e'.id in w.archetypes.archetypes[k].entities;
        assert e'.id in w'.archetypes.archetypes[k].entities;
      }
    }
  }

  /** Placing one entity, with a fitting location list, keeps every member's list fitting. */
  lemma PlacedMembersFit<V>(w: World<V>, w': World<V>, e: Entity, j: nat)
    requires MembersFit(w)
    requires PlacedIn(w.archetypes, w'.archetypes, e.id, j)
    requires Storages.Extends(w.components, w'.components)
    requires e in w'.locations.locations
    requires forall e' :: e' != e && e' in w.locations.locations ==>
               e' in w'.locations.locations && w'.locations.locations[e'] == w.locations.locations[e']
    requires Fits(w'.locations.locations[e], w'.archetypes.archetypes[j].layout, w'.components.storages, Len(w'.archetypes))
    ensures MembersFit(w')
  {
    forall k, x | 0 <= k < Len(w'.archetypes) && x in w'.archetypes.archetypes[k].entities
      ensures Entity(x) in w'.locations.locations
      ensures Fits(w'.locations.locations[Entity(x)], w'.archetypes.archetypes[k].layout,
                   w'.components.storages, Len(w'.archetypes))
    {
      if x == e.id {
        assert Entity(x) == e;
      } else {
        assert k < Len(w.archetypes) && x in w.archetypes.archetypes[k].entities;
        FitsGrow(w.locations.locations[Entity(x)], w.archetypes.archetypes[k].layout,
                 w.components, w'.components, Len(w.archetypes), Len(w'.archetypes));
      }
    }
  }

  /**
   * Placing one entity keeps a world valid: `w'` is `w` with `e` the member
   * of archetype `j` only, every other membership, layout, location list and
   * stored value kept, and a location list for `e` that fits its layout.
   */
  lemma PlacedValid<V>(w: World<V>, w': World<V>, e: Entity, j: nat)
    requires Valid(w)
    requires w.entityId <= w'.entityId && e.id < w'.entityId
    requires PlacedIn(w.archetypes, w'.archetypes, e.id, j)
    requires Storages.Extends(w.components, w'.components)
    requires w'.locations.locations.Keys == w.locations.locations.Keys + {e}
    requires forall e' :: e' != e && e' in w.locations.locations ==> w'.locations.locations[e'] == w.locations.locations[e']
    requires Fits(w'.locations.locations[e], w'.archetypes.archetypes[j].layout, w'.components.storages, Len(w'.archetypes))
    ensures Valid(w')
  {
    PlacedLocated(w, w', e, j);
    PlacedMembersFit(w, w', e, j);
  }

  /**
   * The pieces `spawn` assembles, named so that proofs can refer to them; in
   * a well-indexed registry the `index` field `spawn` records is the
   * archetype's position.
   */
  lemma SpawnParts<V>(w: World<V>, t: TypeTok, c: V)
    ensures var layout := Register(NewLayout(), t);
            var placed := FindOrCreate(w.archetypes, layout);
            var pushed := Storages.PushComponentOf(w.components, t, c);
            var e := Entity(w.entityId);
            && layout == Layout([t])
            && Spawn(w, t, c).0 == World(w.entityId + 1,
                 Insert(w.locations, e, [EntityLocation(placed.0.archetypes[placed.1].index, pushed.1)]),
                 AssignAt(placed.0, placed.1, e),
                 pushed.0)
            && (WellIndexed(w.archetypes) && LayoutsDistinct(w.archetypes) ==>
                  placed.0.archetypes[placed.1].index == placed.1)
  {
    var layout := Register(NewLayout(), t);
    assert layout == Layout([t]);
    if WellIndexed(w.archetypes) && LayoutsDistinct(w.archetypes) {
      FindOrCreateInvariants(w.archetypes, layout);
    }
  }

  /** `spawn` keeps the bookkeeping invariant. */
  lemma SpawnPreservesValid<V>(w: World<V>, t: TypeTok, c: V)
    requires Valid(w)
    ensures Valid(Spawn(w, t, c).0)
  {
    SpawnParts(w, t, c);
    var w' := Spawn(w, t, c).0;
    var e := Entity(w.entityId);
    var layout := Register(NewLayout(), t);
    var placed := FindOrCreate(w.archetypes, layout);
    var pushed := Storages.PushComponentOf(w.components, t, c);
    MembersBelowCounter(w);
    AttachEntity(w.archetypes, e, layout);
    FitsAppend([], NewLayout(), w'.components.storages, Len(w'.archetypes), t, EntityLocation(placed.1, pushed.1));
    assert [] + [EntityLocation(placed.1, pushed.1)] == w'.locations.locations[e];
    PlacedValid(w, w', e, placed.1);
  }

  /**
   * Reads survive growth: when an entity's layout and location list only grow
   * at the end and storages only grow, every type already in its layout reads
   * back the same value.
   */
  lemma GetComponentStable<V>(w: World<V>, w': World<V>, e: Entity, u: TypeTok)
    requires Valid(w) && Valid(w')
    requires e in w.locations.locations && e in w'.locations.locations
    requires LayoutOf(w, e).components <= LayoutOf(w', e).components
    requires w.locations.locations[e] <= w'.locations.locations[e]
    requires Storages.Extends(w.components, w'.components)
    requires u in LayoutOf(w, e).components
    ensures GetComponent(w', e, u) == GetComponent(w, e, u)
  {
    var l, l' := LayoutOf(w, e), LayoutOf(w', e);
    GetComponentValid(w, e, u);
    GetComponentValid(w', e, u);
    FirstPositionInPrefix(l, l', u);
    var p := FirstPosition(l, u).value;
    var i := w.locations.locations[e][p].component;
    assert w'.locations.locations[e][p].component == i;
    Storages.ExtendsAt(w.components, w'.components, u, i);
  }

  /** An entity whose layout and location list are unchanged reads back the same for every type. */
  lemma GetComponentUnchanged<V>(w: World<V>, w': World<V>, e: Entity)
    requires Valid(w) && Valid(w')
    requires e in w.locations.locations && e in w'.locations.locations
    requires LayoutOf(w', e) == LayoutOf(w, e)
    requires w'.locations.locations[e] == w.locations.locations[e]
    requires Storages.Extends(w.components, w'.components)
    ensures forall u :: GetComponent(w', e, u) == GetComponent(w, e, u)
  {
    forall u
      ensures GetComponent(w', e, u) == GetComponent(w, e, u)
    {
      GetComponentValid(w, e, u);
      GetComponentValid(w', e, u);
      if u in LayoutOf(w, e).components {
        GetComponentStable(w, w', e, u);
      }
    }
  }

  /** After `spawn(c)` of type `t`, the new entity reads back `c` for `t` and nothing for any other type. */
  lemma SpawnThenGet<V>(w: World<V>, t: TypeTok, c: V)
    requires Valid(w)
    ensures GetComponent(Spawn(w, t, c).0, Spawn(w, t, c).1, t) == Ok(Some(c))
    ensures forall u :: u != t ==> GetComponent(Spawn(w, t, c).0, Spawn(w, t, c).1, u) == Ok(None)
  {
    SpawnParts(w, t, c);
    SpawnPreservesValid(w, t, c);
    var (w', e) := Spawn(w, t, c);
    var layout := Register(NewLayout(), t);
    var placed := FindOrCreate(w.archetypes, layout);
    FindOrCreateMembers(w.archetypes, layout);
    FindFromEntityUnique(w'.archetypes, e, placed.1);
    assert LayoutOf(w', e) == Layout([t]);
    forall u
      ensures GetComponent(w', e, u) == (if u == t then Ok(Some(c)) else Ok(None))
    {
      GetComponentValid(w', e, u);
    }
  }

  /** `spawn` changes no other entity's reads. */
  lemma SpawnKeepsOthers<V>(w: World<V>, t: TypeTok, c: V, e: Entity, u: TypeTok)
    requires Valid(w)
    requires e != Spawn(w, t, c).1
    ensures GetComponent(Spawn(w, t, c).0, e, u) == GetComponent(w, e, u)
  {
    if e in w.locations.locations {
      SpawnKeepsPlacement(w, t, c, e);
      var w' := Spawn(w, t, c).0;
      assert Get(w'.locations, e) == Get(w.locations, e);
      GetComponentUnchanged(w, w', e);
    }
  }

  /** Successive spawns hand out distinct entities, numbered by the counter. */
  lemma SpawnsDistinct<V>(w: World<V>, t: TypeTok, c: V, t': TypeTok, c': V)
    requires Valid(w)
    ensures var (w1, e1) := Spawn(w, t, c);
            var (w2, e2) := Spawn(w1, t', c');
            e1 == Entity(w.entityId) && e2 == Entity(w.entityId + 1) && e1 != e2 &&
            e1 !in w.locations.locations && e2 !in w1.locations.locations
  {
    SpawnPreservesValid(w, t, c);
  }

  /** The layouts the registry holds. */
  ghost function LayoutSet(r: Registry): set<Layout> {
    set k | 0 <= k < Len(r) :: r.archetypes[k].layout
  }

  /** Spawns each (type, value) pair of `spawns` in turn. */
  function SpawnAll<V>(w: World<V>, spawns: seq<(TypeTok, V)>): World<V>
    decreases |spawns|
  {
    if |spawns| == 0 then w else SpawnAll(Spawn(w, spawns[0].0, spawns[0].1).0, spawns[1..])
  }

  /** Over a sequence of spawns the counter advances by exactly one per spawn. */
  lemma {:induction false} SpawnAllCounter<V>(w: World<V>, spawns: seq<(TypeTok, V)>)
    ensures SpawnAll(w, spawns).entityId == w.entityId + |spawns|
    decreases |spawns|
  {
    if |spawns| > 0 {
      SpawnAllCounter(Spawn(w, spawns[0].0, spawns[0].1).0, spawns[1..]);
    }
  }

  /**
   * The `i`-th spawn of a sequence returns `Entity(n + i)`, where `n` is the
   * counter at the start, so the spawned entities are pairwise distinct.
   */
  lemma SpawnAllIds<V>(w: World<V>, spawns: seq<(TypeTok, V)>)
    ensures forall i :: 0 <= i < |spawns| ==>
              Spawn(SpawnAll(w, spawns[..i]), spawns[i].0, spawns[i].1).1 == Entity(w.entityId + i)
    ensures forall i, j :: 0 <= i < j < |spawns| ==>
              Spawn(SpawnAll(w, spawns[..i]), spawns[i].0, spawns[i].1).1 !=
              Spawn(SpawnAll(w, spawns[..j]), spawns[j].0, spawns[j].1).1
  {
    forall i | 0 <= i < |spawns|
      ensures Spawn(SpawnAll(w, spawns[..i]), spawns[i].0, spawns[i].1).1 == Entity(w.entityId + i)
    {
      SpawnAllCounter(w, spawns[..i]);
    }
  }

  /** The single-type layouts a sequence of spawns asks for. */
  ghost function InducedLayouts<V>(spawns: seq<(TypeTok, V)>): set<Layout> {
    set i | 0 <= i < |spawns| :: Layout([spawns[i].0])
  }

  /**
   * `spawn` adds layout `[t]` to the registry's layouts, creating an archetype
   * exactly when no archetype has that layout yet.
   */
  lemma SpawnLayouts<V>(w: World<V>, t: TypeTok, c: V)
    ensures LayoutSet(Spawn(w, t, c).0.archetypes) == LayoutSet(w.archetypes) + {Layout([t])}
    ensures Len(Spawn(w, t, c).0.archetypes) ==
              Len(w.archetypes) + (if Layout([t]) in LayoutSet(w.archetypes) then 0 else 1)
  {
    SpawnParts(w, t, c);
    var r := w.archetypes;
    var r' := Spawn(w, t, c).0.archetypes;
    var layout := Layout([t]);
    var placed := FindOrCreate(r, layout);
    assert forall k :: 0 <= k < Len(r') ==> r'.archetypes[k].layout == placed.0.archetypes[k].layout;
    assert r'.archetypes[placed.1].layout == layout;
    forall l | l in LayoutSet(r')
      ensures l in LayoutSet(r) + {layout}
    {
      var k :| 0 <= k < Len(r') && r'.archetypes[k].layout == l;
      if k < Len(r) {
        assert r.archetypes[k].layout == l;
      }
    }
    forall l | l in LayoutSet(r) + {layout}
      ensures l in LayoutSet(r')
    {
      if l == layout {
        assert r'.archetypes[placed.1].layout == l;
      } else {
        var k :| 0 <= k < Len(r) && r.archetypes[k].layout == l;
        assert r'.archetypes[k].layout == l;
      }
    }
    if layout in LayoutSet(r) {
      var k :| 0 <= k < Len(r) && r.archetypes[k].layout == layout;
      assert FindFromLayout(r, layout).Some?;
    }
  }

  /** The layouts induced by a non-empty sequence of spawns: its first, and those of the rest. */
  lemma InducedLayoutsCons<V>(spawns: seq<(TypeTok, V)>)
    requires |spawns| > 0
    ensures InducedLayouts(spawns) == {Layout([spawns[0].0])} + InducedLayouts(spawns[1..])
  {
    forall l | l in InducedLayouts(spawns)
      ensures l in {Layout([spawns[0].0])} + InducedLayouts(spawns[1..])
    {
      var i :| 0 <= i < |spawns| && l == Layout([spawns[i].0]);
      if i > 0 {
        assert spawns[1..][i - 1] == spawns[i];
      }
    }
    forall l | l in InducedLayouts(spawns[1..])
      ensures l in InducedLayouts(spawns)
    {
      var i :| 0 <= i < |spawns[1..]| && l == Layout([spawns[1..][i].0]);
      assert spawns[i + 1] == spawns[1..][i];
    }
  }

  /** One spawn keeps the archetypes in one-to-one correspondence with their layouts. */
  lemma SpawnKeepsLayoutCount<V>(w: World<V>, t: TypeTok, c: V)
    requires Len(w.archetypes) == |LayoutSet(w.archetypes)|
    ensures Len(Spawn(w, t, c).0.archetypes) == |LayoutSet(Spawn(w, t, c).0.archetypes)|
  {
    SpawnLayouts(w, t, c);
  }

  /** One spawn of a sequence: what it does to the layouts, and what is left to spawn. */
  lemma SpawnAllStep<V>(w: World<V>, spawns: seq<(TypeTok, V)>)
    requires |spawns| > 0
    requires Len(w.archetypes) == |LayoutSet(w.archetypes)|
    ensures var w1 := Spawn(w, spawns[0].0, spawns[0].1).0;
            && LayoutSet(w1.archetypes) == LayoutSet(w.archetypes) + {Layout([spawns[0].0])}
            && Len(w1.archetypes) == |LayoutSet(w1.archetypes)|
            && SpawnAll(w, spawns) == SpawnAll(w1, spawns[1..])
            && InducedLayouts(spawns) == {Layout([spawns[0].0])} + InducedLayouts(spawns[1..])
  {
    SpawnLayouts(w, spawns[0].0, spawns[0].1);
    SpawnKeepsLayoutCount(w, spawns[0].0, spawns[0].1);
    InducedLayoutsCons(spawns);
  }

  /**
   * Over any sequence of spawns, the registry gains exactly the induced
   * layouts, and its archetypes stay in one-to-one correspondence with its
   * layouts.
   */
  lemma {:induction false} SpawnAllLayouts<V>(w: World<V>, spawns: seq<(TypeTok, V)>)
    requires Len(w.archetypes) == |LayoutSet(w.archetypes)|
    ensures LayoutSet(SpawnAll(w, spawns).archetypes) == LayoutSet(w.archetypes) + InducedLayouts(spawns)
    ensures Len(SpawnAll(w, spawns).archetypes) == |LayoutSet(SpawnAll(w, spawns).archetypes)|
    decreases |spawns|
  {
    if |spawns| == 0 {
      assert InducedLayouts(spawns) == {};
    } else {
      SpawnAllStep(w, spawns);
      SpawnAllLayouts(Spawn(w, spawns[0].0, spawns[0].1).0, spawns[1..]);
    }
  }

  /**
   * Starting from a new world, the number of archetypes equals the number of
   * distinct single-type layouts the spawns induce.
   */
  lemma ArchetypeCountAfterSpawns<V>(spawns: seq<(TypeTok, V)>)
    ensures Len(SpawnAll(NewWorld<V>(), spawns).archetypes) == |InducedLayouts(spawns)|
  {
    var w := NewWorld<V>();
    assert LayoutSet(w.archetypes) == {};
    SpawnAllLayouts(w, spawns);
  }

  /** Reading a type whose first occurrence in the entity's layout is at position `p`. */
  lemma GetComponentAt<V>(w: World<V>, e: Entity, u: TypeTok, p: nat)
    requires Valid(w) && e in w.locations.locations
    requires p < |LayoutOf(w, e).components| && LayoutOf(w, e).components[p] == u
    requires forall k :: 0 <= k < p ==> LayoutOf(w, e).components[k] != u
    ensures p < |w.locations.locations[e]| && u in w.components.storages
    ensures w.locations.locations[e][p].component < Storages.Size(w.components.storages[u])
    ensures GetComponent(w, e, u) == Ok(Some(w.components.storages[u].items[w.locations.locations[e][p].component]))
  {
    GetComponentValid(w, e, u);
    assert FirstPosition(LayoutOf(w, e), u).value == p;
  }

  /** A located entity of a valid world has one location per position of its layout. */
  lemma LocationsMatchLayout<V>(w: World<V>, e: Entity)
    requires Valid(w) && e in w.locations.locations
    ensures |w.locations.locations[e]| == |LayoutOf(w, e).components|
  {
    var k := ArchetypeOf(w, e);
    assert Entity(e.id) == e;
  }

  /**
   * Reading a type that was appended to an entity's layout, together with a
   * location for it: the value at the appended location's slot comes back.
   */
  lemma GetAfterAppend<V>(w: World<V>, w': World<V>, e: Entity, t: TypeTok, loc: EntityLocation)
    requires Valid(w) && Valid(w')
    requires e in w.locations.locations && e in w'.locations.locations
    requires t !in LayoutOf(w, e).components
    requires LayoutOf(w', e) == Register(LayoutOf(w, e), t)
    requires w'.locations.locations[e] == w.locations.locations[e] + [loc]
    ensures t in w'.components.storages && loc.component < Storages.Size(w'.components.storages[t])
    ensures GetComponent(w', e, t) == Ok(Some(w'.components.storages[t].items[loc.component]))
  {
    var l := LayoutOf(w, e);
    LocationsMatchLayout(w, e);
    assert w'.locations.locations[e][|l.components|] == loc;
    GetComponentAt(w', e, t, |l.components|);
  }

  /**
   * Archetypes are keyed by layout: two located entities of a valid world
   * share an archetype exactly when they have the same layout.
   */
  lemma SameArchetypeIffSameLayout<V>(w: World<V>, a: Entity, b: Entity)
    requires Valid(w) && a in w.locations.locations && b in w.locations.locations
    ensures ArchetypeOf(w, a) == ArchetypeOf(w, b) <==> LayoutOf(w, a) == LayoutOf(w, b)
  {
    var i, j := ArchetypeOf(w, a), ArchetypeOf(w, b);
    if i < j {
      assert w.archetypes.archetypes[i].layout != w.archetypes.archetypes[j].layout;
    } else if j < i {
      assert w.archetypes.archetypes[j].layout != w.archetypes.archetypes[i].layout;
    }
  }

  /**
   * Where `spawn` puts the new entity: in the existing archetype with layout
   * [t], or in a new one at the end; its location list is the single pair
   * (that archetype, the size of `t`'s storage before the push), and that
   * slot holds `c`.
   */
  lemma SpawnLocation<V>(w: World<V>, t: TypeTok, c: V)
    requires Valid(w)
    ensures var (w', e) := Spawn(w, t, c);
            var slot := if t in w.components.storages then Storages.Size(w.components.storages[t]) else 0;
            && Valid(w') && e in w'.locations.locations
            && LayoutOf(w', e) == Layout([t])
            && (FindFromLayout(w.archetypes, Layout([t])).Some? ==>
                  ArchetypeOf(w', e) == FindFromLayout(w.archetypes, Layout([t])).value)
            && (FindFromLayout(w.archetypes, Layout([t])).None? ==> ArchetypeOf(w', e) == Len(w.archetypes))
            && w'.locations.locations[e] == [EntityLocation(ArchetypeOf(w', e), slot)]
            && slot < Storages.Size(w'.components.storages[t])
            && w'.components.storages[t].items[slot] == c
  {
    SpawnParts(w, t, c);
    SpawnPreservesValid(w, t, c);
    var (w', e) := Spawn(w, t, c);
    var layout := Register(NewLayout(), t);
    var placed := FindOrCreate(w.archetypes, layout);
    MembersBelowCounter(w);
    AttachEntity(w.archetypes, e, layout);
    FindFromEntityUnique(w'.archetypes, e, placed.1);
  }

  /** `spawn` leaves every existing entity in its archetype, with its layout and location list. */
  lemma SpawnKeepsPlacement<V>(w: World<V>, t: TypeTok, c: V, e: Entity)
    requires Valid(w) && e in w.locations.locations
    ensures Valid(Spawn(w, t, c).0)
    ensures e in Spawn(w, t, c).0.locations.locations
    ensures ArchetypeOf(Spawn(w, t, c).0, e) == ArchetypeOf(w, e)
    ensures LayoutOf(Spawn(w, t, c).0, e) == LayoutOf(w, e)
    ensures Spawn(w, t, c).0.locations.locations[e] == w.locations.locations[e]
  {
    SpawnParts(w, t, c);
    SpawnPreservesValid(w, t, c);
    var w' := Spawn(w, t, c).0;
    FindOrCreateMembers(w.archetypes, Register(NewLayout(), t));
    MembersBelowCounter(w);
    var k := ArchetypeOf(w, e);
    assert e.id in w'.archetypes.archetypes[k].entities;
    FindFromEntityUnique(w'.archetypes, e, k);
  }
}
