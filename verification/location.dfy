/**
 * The location map (ecs/src/location.rs): for each entity, the list of
 * (archetype index, storage position) pairs of its components, in the order
 * of its layout.
 */
module Locations {
  import opened Outcomes
  import opened Archetypes

  /** `EntityLocation(archetype, component)`: where one component value lives. */
  datatype EntityLocation = EntityLocation(archetype: nat, component: nat)

  datatype LocationMap = LocationMap(locations: map<Entity, seq<EntityLocation>>)

  /** `LocationMap::new`: no entries. */
  function NewLocationMap(): (m: LocationMap)
    ensures forall e :: Get(m, e) == Panic(MissingLocation)
  {
    LocationMap(map[])
  }

  /** `get` / `get_mut`: the entity's list; an entity without an entry aborts. */
  function Get(m: LocationMap, e: Entity): (r: Outcome<seq<EntityLocation>>)
    ensures r.Ok? <==> e in m.locations
    ensures r.Panic? ==> r.fault == MissingLocation
    ensures r.Ok? ==> r.value == m.locations[e]
  {
    if e in m.locations then Ok(m.locations[e]) else Panic(MissingLocation)
  }

  /** `insert`: sets the entity's list, replacing any earlier one; other entities are unchanged. */
  function Insert(m: LocationMap, e: Entity, ls: seq<EntityLocation>): (r: LocationMap)
    ensures Get(r, e) == Ok(ls)
    ensures forall e' :: e' != e ==> Get(r, e') == Get(m, e')
  {
    LocationMap(m.locations[e := ls])
  }

  /**
   * Pushing onto the list `get_mut` returns: the entity's list grows by the
   * location at its end, other entities are unchanged; without an entry it aborts.
   */
  function Append(m: LocationMap, e: Entity, loc: EntityLocation): (r: Outcome<LocationMap>)
    ensures r.Ok? <==> e in m.locations
    ensures r.Panic? ==> r.fault == MissingLocation
    ensures r.Ok? ==> Get(r.value, e) == Ok(m.locations[e] + [loc])
    ensures r.Ok? ==> forall e' :: e' != e ==> Get(r.value, e') == Get(m, e')
  {
    match Get(m, e)
    case Panic(f) => Panic(f)
    case Ok(ls) => Ok(Insert(m, e, ls + [loc]))
  }
}
