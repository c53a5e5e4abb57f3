/**
 * Entities, entity layouts and archetypes (ecs/src/archetype.rs).
 *
 * A component type is identified by an abstract token standing for Rust's
 * `TypeId`. A layout is the ordered list of an archetype's component types;
 * an archetype pairs a registry index and a layout with its member entities.
 */
module Archetypes {
  import opened Outcomes
  import Seqs

  /** The identity of a component type. */
  type TypeTok = nat

  /** An entity is only its numeric id. */
  datatype Entity = Entity(id: nat)

  /** The ordered component types of an entity; order matters and duplicates stay. */
  datatype Layout = Layout(components: seq<TypeTok>)

  /** An archetype: its registry index, its member entity ids and its layout. */
  datatype Archetype = Archetype(index: nat, entities: seq<nat>, layout: Layout)

  /** `EntityLayout::new`: a layout with no component types. */
  function NewLayout(): (l: Layout)
    ensures |l.components| == 0
  {
    Layout([])
  }

  /** `register_component::<T>`: `t` goes at the end; earlier types stay put. */
  function Register(l: Layout, t: TypeTok): (r: Layout)
    ensures |r.components| == |l.components| + 1
    ensures r.components[|l.components|] == t
    ensures forall k :: 0 <= k < |l.components| ==> r.components[k] == l.components[k]
    ensures forall u :: u in r.components <==> u in l.components || u == t
  {
    Layout(l.components + [t])
  }

  /** Registering `u` on the one-type layout [t] gives [t, u]. */
  lemma RegisterOnSingle(t: TypeTok, u: TypeTok)
    ensures Register(Layout([t]), u) == Layout([t, u])
  {
    assert [t] + [u] == [t, u];
  }

  /** `containes_type_id`: a linear scan of the layout. */
  function ContainsType(l: Layout, t: TypeTok): (b: bool)
    ensures b <==> t in l.components
  {
    Seqs.IndexOf(l.components, t).Some?
  }

  /** The position of the first occurrence of `t` in the layout, if any. */
  function FirstPosition(l: Layout, t: TypeTok): (r: Option<nat>)
    ensures r.Some? <==> ContainsType(l, t)
    ensures r.Some? ==> r.value < |l.components| && l.components[r.value] == t
    ensures r.Some? ==> forall k :: 0 <= k < r.value ==> l.components[k] != t
  {
    Seqs.IndexOf(l.components, t)
  }

  /** A type's first position is unchanged by growing the layout at the end. */
  lemma FirstPositionInPrefix(l: Layout, l': Layout, t: TypeTok)
    requires l.components <= l'.components && t in l.components
    ensures FirstPosition(l', t) == FirstPosition(l, t)
  {
    var p := FirstPosition(l, t).value;
    assert l'.components[p] == t;
    assert forall k :: 0 <= k < p ==> l'.components[k] == l.components[k];
  }

  /** `PartialEq for EntityLayout`: element-wise comparison of the type lists. */
  function LayoutEq(a: Layout, b: Layout): (r: bool)
    ensures r <==> |a.components| == |b.components| &&
                   forall k :: 0 <= k < |a.components| ==> a.components[k] == b.components[k]
    ensures r <==> a == b
  {
    Seqs.ElementwiseEq(a.components, b.components)
  }

  /** Two layouts holding the same two distinct types in opposite orders differ. */
  lemma LayoutOrderMatters(x: TypeTok, y: TypeTok)
    requires x != y
    ensures !LayoutEq(Register(Register(NewLayout(), x), y), Register(Register(NewLayout(), y), x))
  {
    var a := Register(Register(NewLayout(), x), y);
    assert a.components[0] == x;
  }

  /** `Archetype::new`: the given index and members, and an empty layout. */
  function NewArchetype(index: nat, entities: seq<nat>): (a: Archetype)
    ensures a.index == index && a.entities == entities
    ensures |a.layout.components| == 0
  {
    Archetype(index, entities, NewLayout())
  }

  /** `assigne_entity`: the id goes at the end of the members, with no duplicate check. */
  function Assign(a: Archetype, e: Entity): (r: Archetype)
    ensures r.index == a.index && r.layout == a.layout
    ensures |r.entities| == |a.entities| + 1
    ensures r.entities[|a.entities|] == e.id
    ensures forall k :: 0 <= k < |a.entities| ==> r.entities[k] == a.entities[k]
    ensures forall x :: x in r.entities <==> x in a.entities || x == e.id
  {
    a.(entities := a.entities + [e.id])
  }

  /**
   * `unassigne_entity`: removes the first occurrence of the entity's id and
   * aborts when the entity is not a member.
   */
  function Unassign(a: Archetype, e: Entity): (r: Outcome<Archetype>)
    ensures r.Ok? <==> e.id in a.entities
    ensures r.Panic? ==> r.fault == NotAMember
    ensures r.Ok? ==> r.value.index == a.index && r.value.layout == a.layout
    ensures r.Ok? ==> |r.value.entities| == |a.entities| - 1
  {
    match Seqs.IndexOf(a.entities, e.id)
    case None => Panic(NotAMember)
    case Some(k) => Ok(a.(entities := Seqs.RemoveAt(a.entities, k)))
  }

  /** Unassigning an entity just assigned to an archetype it was not in gives the archetype back. */
  lemma AssignThenUnassign(a: Archetype, e: Entity)
    requires e.id !in a.entities
    ensures Unassign(Assign(a, e), e) == Ok(a)
  {
    var r := Assign(a, e);
    assert Seqs.IndexOf(r.entities, e.id) == Some(|a.entities|);
    assert Seqs.RemoveAt(r.entities, |a.entities|) == a.entities;
  }

  /**
   * When an archetype lists each member once, unassigning an entity removes
   * exactly that entity and keeps the list duplicate-free.
   */
  lemma UnassignMembers(a: Archetype, e: Entity)
    requires e.id in a.entities
    requires Seqs.NoDup(a.entities)
    ensures Unassign(a, e).Ok?
    ensures Seqs.NoDup(Unassign(a, e).value.entities)
    ensures e.id !in Unassign(a, e).value.entities
    ensures forall x :: x != e.id ==> (x in Unassign(a, e).value.entities <==> x in a.entities)
  {
    var k := Seqs.IndexOf(a.entities, e.id).value;
    Seqs.RemoveAtMembers(a.entities, k);
  }
}
