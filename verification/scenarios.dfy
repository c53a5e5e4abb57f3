/**
 * The unit tests of ecs/src/world.rs and the host program of
 * sandbox/src/main.rs, stated for arbitrary component values.
 */
module Scenarios {
  import opened Outcomes
  import opened Archetypes
  import opened ArchetypeRegistry
  import opened Worlds
  import opened Entries

  const Health: TypeTok := 0
  const Stamina: TypeTok := 1
  const Transform: TypeTok := 2

  /** `spawn_entity_with_single_compenent`: a spawned Health reads back. */
  lemma SpawnEntityWithSingleComponent<V>(health: V)
    ensures GetComponent(Spawn(NewWorld<V>(), Health, health).0, Spawn(NewWorld<V>(), Health, health).1, Health)
            == Ok(Some(health))
  {
    NewWorldValid<V>();
    SpawnThenGet(NewWorld<V>(), Health, health);
  }

  /** `spawn_entitys_check_archetypes`: Health, Stamina, Health, Stamina make two archetypes. */
  lemma SpawnEntitiesCheckArchetypes<V>(h1: V, s1: V, h2: V, s2: V)
    ensures Len(SpawnAll(NewWorld<V>(), [(Health, h1), (Stamina, s1), (Health, h2), (Stamina, s2)]).archetypes) == 2
  {
    var spawns := [(Health, h1), (Stamina, s1), (Health, h2), (Stamina, s2)];
    ArchetypeCountAfterSpawns(spawns);
    assert InducedLayouts(spawns) == {Layout([Health]), Layout([Stamina])} by {
      assert Layout([spawns[0].0]) == Layout([Health]);
      assert Layout([spawns[1].0]) == Layout([Stamina]);
    }
    assert Layout([Health]) != Layout([Stamina]);
  }

  /** Spawning with a `t` in a valid world: the new entity's layout is [t]. */
  lemma SpawnLayout<V>(w: World<V>, t: TypeTok, c: V)
    requires Valid(w)
    ensures Valid(Spawn(w, t, c).0) && Spawn(w, t, c).1 in Spawn(w, t, c).0.locations.locations
    ensures LayoutOf(Spawn(w, t, c).0, Spawn(w, t, c).1) == Layout([t])
  {
    var (w1, p) := Spawn(w, t, c);
    SpawnPreservesValid(w, t, c);
    SpawnThenGet(w, t, c);
    GetComponentValid(w1, p, t);
    assert LayoutOf(w1, p) == Layout([t]) by {
      forall u | u != t
        ensures u !in LayoutOf(w1, p).components
      {
        GetComponentValid(w1, p, u);
      }
    }
  }

  /**
   * Extending an entity of layout [t] with a `u != t`: its layout becomes
   * [t, u] and both values read back.
   */
  lemma ExtendSingle<V>(w: World<V>, p: Entity, t: TypeTok, u: TypeTok, d: V)
    requires Valid(w) && p in w.locations.locations
    requires LayoutOf(w, p) == Layout([t]) && t != u
    ensures AddComponent(w, p, u, d).Ok?
    ensures Valid(AddComponent(w, p, u, d).value) && p in AddComponent(w, p, u, d).value.locations.locations
    ensures LayoutOf(AddComponent(w, p, u, d).value, p) == Layout([t, u])
    ensures GetComponent(AddComponent(w, p, u, d).value, p, u) == Ok(Some(d))
    ensures GetComponent(AddComponent(w, p, u, d).value, p, t) == GetComponent(w, p, t)
  {
    ExtendSingleLayout(w, p, t, u, d);
    AddComponentThenGet(w, p, u, d, t);
    AddComponentThenGet(w, p, u, d, u);
  }

  /** The layout half of `ExtendSingle`. */
  lemma ExtendSingleLayout<V>(w: World<V>, p: Entity, t: TypeTok, u: TypeTok, d: V)
    requires Valid(w) && p in w.locations.locations
    requires LayoutOf(w, p) == Layout([t])
    ensures AddComponent(w, p, u, d).Ok?
    ensures Valid(AddComponent(w, p, u, d).value) && p in AddComponent(w, p, u, d).value.locations.locations
    ensures LayoutOf(AddComponent(w, p, u, d).value, p) == Layout([t, u])
  {
    AddComponentLayout(w, p, u, d);
    RegisterOnSingle(t, u);
  }

  /**
   * The sandbox program's two players, spawned with a Transform and extended
   * with a Health, share the archetype [Transform, Health]. A third entity,
   * which the program does not build and which is added here to illustrate
   * the ordering hint at sandbox/src/main.rs:30, is given the same two types
   * in the other order and lands in a different archetype, [Health, Transform].
   */
  lemma ExtendOrderMatters<V>(t1: V, h1: V, t2: V, h2: V, h3: V, t3: V)
    ensures
      var w0 := NewWorld<V>();
      var (w1, p1) := Spawn(w0, Transform, t1);
      var w2 := AddComponent(w1, p1, Health, h1).value;
      var (w3, p2) := Spawn(w2, Transform, t2);
      var w4 := AddComponent(w3, p2, Health, h2).value;
      var (w5, p3) := Spawn(w4, Health, h3);
      var w6 := AddComponent(w5, p3, Transform, t3).value;
      && Valid(w6)
      && p1 in w6.locations.locations && p2 in w6.locations.locations && p3 in w6.locations.locations
      && LayoutOf(w6, p1) == Layout([Transform, Health])
      && LayoutOf(w6, p3) == Layout([Health, Transform])
      && ArchetypeOf(w6, p1) == ArchetypeOf(w6, p2)
      && ArchetypeOf(w6, p1) != ArchetypeOf(w6, p3)
      && GetComponent(w6, p2, Health) == Ok(Some(h2))
      && GetComponent(w6, p3, Transform) == Ok(Some(t3))
  {
    var w0 := NewWorld<V>();
    NewWorldValid<V>();
    var (w1, p1) := Spawn(w0, Transform, t1);
    SpawnLayout(w0, Transform, t1);
    ExtendSingle(w1, p1, Transform, Health, h1);
    var w2 := AddComponent(w1, p1, Health, h1).value;
    PlayerTwo(w2, p1, t2, h2);
    var (w3, p2) := Spawn(w2, Transform, t2);
    var w4 := AddComponent(w3, p2, Health, h2).value;
    ThirdEntity(w4, p1, p2, h2, h3, t3);
  }

  /** The second player joins the archetype the first player's layout already has. */
  lemma PlayerTwo<V>(w2: World<V>, p1: Entity, t2: V, h2: V)
    requires Valid(w2) && p1 in w2.locations.locations
    requires LayoutOf(w2, p1) == Layout([Transform, Health])
    ensures var (w3, p2) := Spawn(w2, Transform, t2);
            && AddComponent(w3, p2, Health, h2).Ok?
            && var w4 := AddComponent(w3, p2, Health, h2).value;
               && Valid(w4) && p1 in w4.locations.locations && p2 in w4.locations.locations
               && LayoutOf(w4, p1) == Layout([Transform, Health])
               && ArchetypeOf(w4, p1) == ArchetypeOf(w4, p2)
               && GetComponent(w4, p2, Health) == Ok(Some(h2))
  {
    var (w3, p2) := Spawn(w2, Transform, t2);
    SpawnLayout(w2, Transform, t2);
    SpawnKeepsPlacement(w2, Transform, t2, p1);
    assert p1 != p2;
    ExtendSingle(w3, p2, Transform, Health, h2);
    AddComponentKeepsPlacement(w3, p2, Health, h2, p1);
    var w4 := AddComponent(w3, p2, Health, h2).value;
    SameArchetypeIffSameLayout(w4, p1, p2);
  }

  /**
   * A third entity spawned with a Health and extended with a Transform has
   * layout [Health, Transform], and so lands in a different archetype from
   * an entity of layout [Transform, Health]; the players keep their
   * placement and reads.
   */
  lemma ThirdEntity<V>(w4: World<V>, p1: Entity, p2: Entity, h2: V, h3: V, t3: V)
    requires Valid(w4) && p1 in w4.locations.locations && p2 in w4.locations.locations
    requires LayoutOf(w4, p1) == Layout([Transform, Health])
    requires ArchetypeOf(w4, p1) == ArchetypeOf(w4, p2)
    requires GetComponent(w4, p2, Health) == Ok(Some(h2))
    ensures var (w5, p3) := Spawn(w4, Health, h3);
            && AddComponent(w5, p3, Transform, t3).Ok?
            && var w6 := AddComponent(w5, p3, Transform, t3).value;
               && Valid(w6)
               && p1 in w6.locations.locations && p2 in w6.locations.locations && p3 in w6.locations.locations
               && LayoutOf(w6, p1) == Layout([Transform, Health])
               && LayoutOf(w6, p3) == Layout([Health, Transform])
               && ArchetypeOf(w6, p1) == ArchetypeOf(w6, p2)
               && ArchetypeOf(w6, p1) != ArchetypeOf(w6, p3)
               && GetComponent(w6, p2, Health) == Ok(Some(h2))
               && GetComponent(w6, p3, Transform) == Ok(Some(t3))
  {
    var (w5, p3) := Spawn(w4, Health, h3);
    SpawnLayout(w4, Health, h3);
    SpawnKeepsPlacement(w4, Health, h3, p1);
    SpawnKeepsPlacement(w4, Health, h3, p2);
    assert p1 != p3 && p2 != p3;
    SpawnKeepsOthers(w4, Health, h3, p2, Health);
    ExtendSingle(w5, p3, Health, Transform, t3);
    AddComponentKeepsPlacement(w5, p3, Transform, t3, p1);
    AddComponentKeepsPlacement(w5, p3, Transform, t3, p2);
    AddComponentKeepsOthers(w5, p3, Transform, t3, p2, Health);
    var w6 := AddComponent(w5, p3, Transform, t3).value;
    SameArchetypeIffSameLayout(w6, p1, p3);
  }
}
