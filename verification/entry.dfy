/**
 * Entity entries (ecs/src/entry.rs): the read accessor `EntryRef`, and the
 * operations of the mutable accessor `EntryMut` as functions over the world.
 * `EntryMut::add_component` is the migration that `World::extend` stands for.
 */
module Entries {
  import opened Outcomes
  import opened Archetypes
  import opened ArchetypeRegistry
  import Storages
  import opened Locations
  import opened Worlds

  /** `EntryRef`: one entity's archetype, the storages it may read, and its location list. */
  datatype EntryRef<V> = EntryRef(
    entity: Entity,
    archetype: Archetype,
    components: map<TypeTok, Storages.VecStorage<V>>,
    locations: seq<EntityLocation>)

  /**
   * `EntryRef::get_component`: the first position of `t` in the archetype's
   * layout, then the location there, then the slot in `t`'s storage. Unlike
   * the world's read, a type missing from the layout aborts.
   */
  function RefGetComponent<V>(en: EntryRef<V>, t: TypeTok): (r: Outcome<V>)
    ensures t !in en.archetype.layout.components ==> r == Panic(TypeNotInLayout)
    ensures r.Ok? ==> t in en.components
  {
    match FirstPosition(en.archetype.layout, t)
    case None => Panic(TypeNotInLayout)
    case Some(k) =>
      if k >= |en.locations| then Panic(LocationOutOfRange)
      else if t !in en.components then Panic(MissingStorage)
      else Storages.GetComponent(en.components[t], en.locations[k].component)
  }

  /**
   * `EntryMut::get_component`: the entity's archetype, the first position of
   * `t` in its layout, the location there, and the slot in `t`'s storage.
   * A missing archetype, a type missing from the layout and a missing
   * location list all abort.
   */
  function MutGetComponent<V>(w: World<V>, e: Entity, t: TypeTok): (r: Outcome<V>)
    ensures !IsMember(w.archetypes, e.id) ==> r == Panic(NoArchetype)
    ensures IsMember(w.archetypes, e.id) && e !in w.locations.locations ==> r.Panic?
  {
    match FindFromEntity(w.archetypes, e)
    case None => Panic(NoArchetype)
    case Some(i) =>
      match FirstPosition(w.archetypes.archetypes[i].layout, t)
      case None => Panic(TypeNotInLayout)
      case Some(k) =>
        match Get(w.locations, e)
        case Panic(f) => Panic(f)
        case Ok(ls) =>
          if k >= |ls| then Panic(LocationOutOfRange)
          else
            var (_, s) := Storages.GetStorage(w.components, t);
            Storages.GetComponent(s, ls[k].component)
  }

  /**
   * `EntryMut::add_component`: aborts when the entity has no location list or
   * no archetype; otherwise detaches the entity from its archetype, attaches
   * it to the archetype whose layout is the old one with `t` appended
   * (creating it when there is none), pushes `c` onto `t`'s storage, and
   * appends (archetype index, slot) to the entity's location list.
   */
  function AddComponent<V>(w: World<V>, e: Entity, t: TypeTok, c: V): (r: Outcome<World<V>>)
    ensures e !in w.locations.locations ==> r == Panic(MissingLocation)
    ensures e in w.locations.locations && !IsMember(w.archetypes, e.id) ==> r == Panic(NoArchetype)
    ensures e in w.locations.locations && IsMember(w.archetypes, e.id) ==> r.Ok?
    ensures r.Ok? ==> r.value.entityId == w.entityId
    ensures r.Ok? ==> forall e' :: Get(r.value.locations, e').Ok? <==> Get(w.locations, e').Ok?
  {
    if e !in w.locations.locations then Panic(MissingLocation)
    else
      match FindFromEntity(w.archetypes, e)
      case None => Panic(NoArchetype)
      case Some(i) =>
        var layout := Register(w.archetypes.archetypes[i].layout, t);
        match UnassignAt(w.archetypes, i, e)
        case Panic(f) => Panic(f)
        case Ok(detached) =>
          var (placed, j) := FindOrCreate(detached, layout);
          var archetypes := AssignAt(placed, j, e);
          var (components, slot) := Storages.PushComponentOf(w.components, t, c);
          match Append(w.locations, e, EntityLocation(placed.archetypes[j].index, slot))
          case Panic(f) => Panic(f)
          case Ok(locations) => Ok(World(w.entityId, locations, archetypes, components))
  }

  /** The world `add_component` produces for a located member of a valid world. */
  ghost function Migrated<V>(w: World<V>, e: Entity, t: TypeTok, c: V): World<V>
    requires Valid(w) && e in w.locations.locations
  {
    var (archetypes, j) := Moved(w.archetypes, ArchetypeOf(w, e), e, Register(LayoutOf(w, e), t));
    var (components, slot) := Storages.PushComponentOf(w.components, t, c);
    World(w.entityId, Insert(w.locations, e, w.locations.locations[e] + [EntityLocation(j, slot)]),
          archetypes, components)
  }

  /** `add_component` on a located member of a valid world succeeds with `Migrated`. */
  lemma AddComponentParts<V>(w: World<V>, e: Entity, t: TypeTok, c: V)
    requires Valid(w) && e in w.locations.locations
    ensures AddComponent(w, e, t, c) == Ok(Migrated(w, e, t, c))
  {
    var i := ArchetypeOf(w, e);
    var layout := Register(LayoutOf(w, e), t);
    MoveEntity(w.archetypes, i, e, layout);
    var placed := FindOrCreate(UnassignAt(w.archetypes, i, e).value, layout);
    assert AssignAt(placed.0, placed.1, e).archetypes[placed.1].index == placed.0.archetypes[placed.1].index;
  }

  /** The moved entity's extended location list fits its extended layout. */
  lemma MigratedFits<V>(w: World<V>, e: Entity, t: TypeTok, c: V)
    requires Valid(w) && e in w.locations.locations
    ensures var w' := Migrated(w, e, t, c);
            var j := Moved(w.archetypes, ArchetypeOf(w, e), e, Register(LayoutOf(w, e), t)).1;
            j < Len(w'.archetypes) &&
            Fits(w'.locations.locations[e], w'.archetypes.archetypes[j].layout,
                 w'.components.storages, Len(w'.archetypes))
  {
    var w' := Migrated(w, e, t, c);
    var layout := Register(LayoutOf(w, e), t);
    MoveEntity(w.archetypes, ArchetypeOf(w, e), e, layout);
    var j := Moved(w.archetypes, ArchetypeOf(w, e), e, layout).1;
    var pushed := Storages.PushComponentOf(w.components, t, c);
    var ls := w.locations.locations[e];
    assert Entity(e.id) == e;
    FitsGrow(ls, LayoutOf(w, e), w.components, w'.components, Len(w.archetypes), Len(w'.archetypes));
    FitsAppend(ls, LayoutOf(w, e), w'.components.storages, Len(w'.archetypes), t, EntityLocation(j, pushed.1));
  }

  /** In the registry, the move only re-places the moved entity. */
  lemma MigratedPlaces<V>(w: World<V>, e: Entity, t: TypeTok, c: V)
    requires Valid(w) && e in w.locations.locations
    ensures PlacedIn(w.archetypes, Migrated(w, e, t, c).archetypes, e.id,
                     Moved(w.archetypes, ArchetypeOf(w, e), e, Register(LayoutOf(w, e), t)).1)
  {
    var moved := Moved(w.archetypes, ArchetypeOf(w, e), e, Register(LayoutOf(w, e), t));
    MoveEntity(w.archetypes, ArchetypeOf(w, e), e, Register(LayoutOf(w, e), t));
    assert Migrated(w, e, t, c).archetypes == moved.0;
  }

  /** The move only rewrites the moved entity's location list, and only adds stored values. */
  lemma MigratedRelocates<V>(w: World<V>, e: Entity, t: TypeTok, c: V)
    requires Valid(w) && e in w.locations.locations
    ensures var w' := Migrated(w, e, t, c);
            && w'.entityId == w.entityId
            && Storages.Extends(w.components, w'.components)
            && w'.locations.locations.Keys == w.locations.locations.Keys + {e}
            && forall e' :: e' != e && e' in w.locations.locations ==> w'.locations.locations[e'] == w.locations.locations[e']
  {
  }

  /** The move keeps the bookkeeping invariant. */
  lemma MigratedValid<V>(w: World<V>, e: Entity, t: TypeTok, c: V)
    requires Valid(w) && e in w.locations.locations
    ensures Valid(Migrated(w, e, t, c))
  {
    MigratedPlaces(w, e, t, c);
    MigratedRelocates(w, e, t, c);
    MigratedFits(w, e, t, c);
    PlacedValid(w, Migrated(w, e, t, c), e, Moved(w.archetypes, ArchetypeOf(w, e), e, Register(LayoutOf(w, e), t)).1);
  }

  /** `add_component` keeps the bookkeeping invariant. */
  lemma AddComponentPreservesValid<V>(w: World<V>, e: Entity, t: TypeTok, c: V)
    requires Valid(w) && e in w.locations.locations
    ensures AddComponent(w, e, t, c).Ok?
    ensures Valid(AddComponent(w, e, t, c).value)
  {
    AddComponentParts(w, e, t, c);
    MigratedValid(w, e, t, c);
  }

  /** What the move does to the moved entity, stated on `Migrated`. */
  lemma MigratedMoves<V>(w: World<V>, e: Entity, t: TypeTok, c: V)
    requires Valid(w) && e in w.locations.locations
    ensures var w' := Migrated(w, e, t, c);
            var layout := Register(LayoutOf(w, e), t);
            var slot := if t in w.components.storages then Storages.Size(w.components.storages[t]) else 0;
            && Valid(w') && e in w'.locations.locations
            && LayoutOf(w', e) == layout
            && e.id !in w'.archetypes.archetypes[ArchetypeOf(w, e)].entities
            && (FindFromLayout(w.archetypes, layout).Some? ==>
                  ArchetypeOf(w', e) == FindFromLayout(w.archetypes, layout).value &&
                  Len(w'.archetypes) == Len(w.archetypes))
            && (FindFromLayout(w.archetypes, layout).None? ==>
                  ArchetypeOf(w', e) == Len(w.archetypes) &&
                  Len(w'.archetypes) == Len(w.archetypes) + 1)
            && w'.locations.locations[e] == w.locations.locations[e] + [EntityLocation(ArchetypeOf(w', e), slot)]
            && (forall e' :: e' != e ==> Get(w'.locations, e') == Get(w.locations, e'))
            && Storages.Extends(w.components, w'.components)
            && t in w'.components.storages && slot < Storages.Size(w'.components.storages[t])
            && w'.components.storages[t].items[slot] == c
  {
    MigratedValid(w, e, t, c);
    var w' := Migrated(w, e, t, c);
    var i := ArchetypeOf(w, e);
    var layout := Register(LayoutOf(w, e), t);
    MoveEntity(w.archetypes, i, e, layout);
    var j := Moved(w.archetypes, i, e, layout).1;
    FindFromEntityUnique(w'.archetypes, e, j);
    assert w'.archetypes.archetypes[i].layout == LayoutOf(w, e);
  }

  /** After `add_component` the entity's layout is its old one with `t` appended. */
  lemma AddComponentLayout<V>(w: World<V>, e: Entity, t: TypeTok, c: V)
    requires Valid(w) && e in w.locations.locations
    ensures AddComponent(w, e, t, c).Ok?
    ensures Valid(AddComponent(w, e, t, c).value) && e in AddComponent(w, e, t, c).value.locations.locations
    ensures LayoutOf(AddComponent(w, e, t, c).value, e) == Register(LayoutOf(w, e), t)
  {
    AddComponentParts(w, e, t, c);
    MigratedMoves(w, e, t, c);
  }

  /**
   * What `add_component` does to the moved entity: its layout is the old one
   * with `t` appended; it has left its old archetype for the existing
   * archetype with the new layout, or for a new one at the end; its location
   * list grew by exactly (new archetype, slot of `c`); the world's other
   * location lists are unchanged and stored values keep their slots.
   */
  lemma AddComponentMoves<V>(w: World<V>, e: Entity, t: TypeTok, c: V)
    requires Valid(w) && e in w.locations.locations
    ensures AddComponent(w, e, t, c).Ok?
    ensures var w' := AddComponent(w, e, t, c).value;
            var layout := Register(LayoutOf(w, e), t);
            var slot := if t in w.components.storages then Storages.Size(w.components.storages[t]) else 0;
            && Valid(w') && e in w'.locations.locations
            && LayoutOf(w', e) == layout
            && e.id !in w'.archetypes.archetypes[ArchetypeOf(w, e)].entities
            && (FindFromLayout(w.archetypes, layout).Some? ==>
                  ArchetypeOf(w', e) == FindFromLayout(w.archetypes, layout).value &&
                  Len(w'.archetypes) == Len(w.archetypes))
            && (FindFromLayout(w.archetypes, layout).None? ==>
                  ArchetypeOf(w', e) == Len(w.archetypes) &&
                  Len(w'.archetypes) == Len(w.archetypes) + 1)
            && w'.locations.locations[e] == w.locations.locations[e] + [EntityLocation(ArchetypeOf(w', e), slot)]
            && (forall e' :: e' != e ==> Get(w'.locations, e') == Get(w.locations, e'))
            && Storages.Extends(w.components, w'.components)
  {
    AddComponentParts(w, e, t, c);
    MigratedMoves(w, e, t, c);
  }

  /** A type already in the moved entity's layout reads back as before the move. */
  lemma MigratedGetOld<V>(w: World<V>, e: Entity, t: TypeTok, c: V, u: TypeTok)
    requires Valid(w) && e in w.locations.locations
    requires u in LayoutOf(w, e).components
    ensures GetComponent(Migrated(w, e, t, c), e, u) == GetComponent(w, e, u)
  {
    MigratedMoves(w, e, t, c);
    var w' := Migrated(w, e, t, c);
    assert LayoutOf(w, e).components <= LayoutOf(w', e).components;
    GetComponentStable(w, w', e, u);
  }

  /** The added type, when it is new to the layout, reads back the added value. */
  lemma MigratedGetAdded<V>(w: World<V>, e: Entity, t: TypeTok, c: V)
    requires Valid(w) && e in w.locations.locations
    requires t !in LayoutOf(w, e).components
    ensures GetComponent(Migrated(w, e, t, c), e, t) == Ok(Some(c))
  {
    MigratedMoves(w, e, t, c);
    var w' := Migrated(w, e, t, c);
    var slot := if t in w.components.storages then Storages.Size(w.components.storages[t]) else 0;
    GetAfterAppend(w, w', e, t, EntityLocation(ArchetypeOf(w', e), slot));
  }

  /**
   * Reads of the moved entity after `add_component`: a type already in its
   * layout reads back as before (the first registered value wins), the
   * added type otherwise reads back `c`, and any other type reads nothing.
   */
  lemma AddComponentThenGet<V>(w: World<V>, e: Entity, t: TypeTok, c: V, u: TypeTok)
    requires Valid(w) && e in w.locations.locations
    ensures AddComponent(w, e, t, c).Ok?
    ensures GetComponent(AddComponent(w, e, t, c).value, e, u) ==
              if u in LayoutOf(w, e).components then GetComponent(w, e, u)
              else if u == t then Ok(Some(c))
              else Ok(None)
  {
    AddComponentParts(w, e, t, c);
    if u in LayoutOf(w, e).components {
      MigratedGetOld(w, e, t, c, u);
    } else if u == t {
      MigratedGetAdded(w, e, t, c);
    } else {
      MigratedMoves(w, e, t, c);
      GetComponentValid(Migrated(w, e, t, c), e, u);
    }
  }

  /** The move changes no other entity's reads. */
  lemma MigratedKeepsOthers<V>(w: World<V>, e: Entity, t: TypeTok, c: V, e': Entity)
    requires Valid(w) && e in w.locations.locations
    requires e' != e && e' in w.locations.locations
    ensures forall u :: GetComponent(Migrated(w, e, t, c), e', u) == GetComponent(w, e', u)
  {
    MigratedMoves(w, e, t, c);
    var w' := Migrated(w, e, t, c);
    var k := ArchetypeOf(w, e');
    MoveEntity(w.archetypes, ArchetypeOf(w, e), e, Register(LayoutOf(w, e), t));
    assert e'.id in w'.archetypes.archetypes[k].entities;
    FindFromEntityUnique(w'.archetypes, e', k);
    assert Get(w'.locations, e') == Get(w.locations, e');
    GetComponentUnchanged(w, w', e');
  }

  /** `add_component` changes no other entity's reads. */
  lemma AddComponentKeepsOthers<V>(w: World<V>, e: Entity, t: TypeTok, c: V, e': Entity, u: TypeTok)
    requires Valid(w) && e in w.locations.locations
    requires e' != e
    ensures AddComponent(w, e, t, c).Ok?
    ensures GetComponent(AddComponent(w, e, t, c).value, e', u) == GetComponent(w, e', u)
  {
    AddComponentParts(w, e, t, c);
    MigratedMoves(w, e, t, c);
    if e' in w.locations.locations {
      MigratedKeepsOthers(w, e, t, c, e');
    } else {
      assert Get(Migrated(w, e, t, c).locations, e') == Get(w.locations, e');
    }
  }

  /** Whatever any entity could read before `add_component`, it reads the same afterwards. */
  lemma AddComponentRetains<V>(w: World<V>, e: Entity, t: TypeTok, c: V, e': Entity, u: TypeTok)
    requires Valid(w) && e in w.locations.locations
    requires GetComponent(w, e', u).Ok? && GetComponent(w, e', u).value.Some?
    ensures AddComponent(w, e, t, c).Ok?
    ensures GetComponent(AddComponent(w, e, t, c).value, e', u) == GetComponent(w, e', u)
  {
    if e' == e {
      GetComponentValid(w, e, u);
      AddComponentThenGet(w, e, t, c, u);
    } else {
      AddComponentKeepsOthers(w, e, t, c, e', u);
    }
  }

  /** The read entry of a located entity of a valid world, holding the world's storages. */
  ghost function EntryOf<V>(w: World<V>, e: Entity): EntryRef<V>
    requires Valid(w) && e in w.locations.locations
  {
    EntryRef(e, w.archetypes.archetypes[ArchetypeOf(w, e)], w.components.storages, w.locations.locations[e])
  }

  /**
   * An entry agrees with the world's read on every type in the entity's
   * layout, and aborts on a type outside it where the world answers None.
   */
  lemma RefGetMatchesWorld<V>(w: World<V>, e: Entity, t: TypeTok)
    requires Valid(w) && e in w.locations.locations
    ensures t in LayoutOf(w, e).components ==>
              RefGetComponent(EntryOf(w, e), t).Ok? &&
              GetComponent(w, e, t) == Ok(Some(RefGetComponent(EntryOf(w, e), t).value))
    ensures t !in LayoutOf(w, e).components ==>
              RefGetComponent(EntryOf(w, e), t) == Panic(TypeNotInLayout) &&
              GetComponent(w, e, t) == Ok(None)
  {
    GetComponentValid(w, e, t);
  }

  /**
   * The mutable entry's read agrees with the world's read on every type in
   * the entity's layout, and aborts on a type outside it where the world
   * answers None.
   */
  lemma MutGetMatchesWorld<V>(w: World<V>, e: Entity, t: TypeTok)
    requires Valid(w) && e in w.locations.locations
    ensures t in LayoutOf(w, e).components ==>
              MutGetComponent(w, e, t).Ok? &&
              GetComponent(w, e, t) == Ok(Some(MutGetComponent(w, e, t).value))
    ensures t !in LayoutOf(w, e).components ==>
              MutGetComponent(w, e, t) == Panic(TypeNotInLayout) &&
              GetComponent(w, e, t) == Ok(None)
  {
    GetComponentValid(w, e, t);
  }

  /** `add_component` leaves every other entity in its archetype, with its layout. */
  lemma AddComponentKeepsPlacement<V>(w: World<V>, e: Entity, t: TypeTok, c: V, e': Entity)
    requires Valid(w) && e in w.locations.locations
    requires e' != e && e' in w.locations.locations
    ensures AddComponent(w, e, t, c).Ok? && Valid(AddComponent(w, e, t, c).value)
    ensures e' in AddComponent(w, e, t, c).value.locations.locations
    ensures ArchetypeOf(AddComponent(w, e, t, c).value, e') == ArchetypeOf(w, e')
    ensures LayoutOf(AddComponent(w, e, t, c).value, e') == LayoutOf(w, e')
  {
    AddComponentParts(w, e, t, c);
    MigratedMoves(w, e, t, c);
    var w' := Migrated(w, e, t, c);
    var k := ArchetypeOf(w, e');
    MoveEntity(w.archetypes, ArchetypeOf(w, e), e, Register(LayoutOf(w, e), t));
    assert e'.id in w'.archetypes.archetypes[k].entities;
    FindFromEntityUnique(w'.archetypes, e', k);
    assert Get(w'.locations, e') == Get(w.locations, e');
  }
}
