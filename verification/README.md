# Archetype bookkeeping of a small entity-component store

This project models the core of the `ecs` crate in Dafny. The crate is a
Rust entity-component store that groups entities by *archetype*: the ordered
list of component types an entity carries, called its *layout*. Four tables
have to change together:

- the **registry** of archetypes. Each archetype has an index, a layout and a
  list of member entity ids.
- the **per-type storages**. Each one is an append-only vector of values of
  one component type.
- the **location map**. For each entity it holds a list of
  (archetype index, storage slot) pairs, one per position of the entity's
  layout.
- the **entity counter**, which hands out ids.

The model covers:

- `World::new`, `spawn` and `get_component`;
- `EntryMut::add_component`, the archetype migration that the host program
  calls `extend`;
- the two `get_component` accessors of `EntryRef` and `EntryMut`;
- the storages, layouts, archetypes, location map and query builder they are
  built from.

Every operation is a pure function on immutable values. An abort in the
Rust code (`unwrap`, `expect`, an out-of-range index) becomes a `Panic(fault)`
result, so the error paths are stated and proved rather than assumed away.

The global invariant is `Worlds.Valid`. It requires all of the following:

- archetype `k` has index `k`;
- no two archetypes share a layout;
- every entity id is a member of at most one archetype, and is listed there
  once;
- every located entity is below the counter and is a member of some
  archetype;
- every member has a location list as long as its archetype's layout;
- the slot at position `i` of that list is in range of the storage for the
  layout's `i`-th type.

`spawn` and `add_component` preserve `Valid`. In a valid world,
`World::get_component` of a located (spawned) entity never aborts. The two
entry reads still abort with `TypeNotInLayout` on a type outside the
entity's layout. Each operation's effect on reads is stated exactly.

Files: `outcomes.dfy` (result types), `seqs.dfy` (sequence helpers),
`archetype.dfy`, `registry.dfy`, `storage.dfy`, `location.dfy`, `query.dfy`,
`world.dfy`, `entry.dfy`, and `scenarios.dfy` (the crate's unit tests and its
host program, for arbitrary component values).

Two points where the model has to choose a reading of the code:

- `VecStorage::get_component` unwraps (ecs/src/storage.rs:124), so an
  out-of-range slot aborts with `SlotOutOfRange` instead of returning an
  `Option`.
- `spawn` records the location pair (the archetype's `index` field, slot),
  as `location.rs` and `entry.rs` do (ecs/src/entry.rs:145). It does not record the bare slot of ecs/src/world.rs:56,
  which does not match the `Vec<EntityLocation>` that
  ecs/src/location.rs:46 takes.

ecs/src/archetype.rs defines neither `ArchetypeManager` (used at
ecs/src/world.rs:2, 17) nor `ArchetypeStorage` (used at ecs/src/entry.rs:7,
67). The registry's operations are therefore modelled from their call sites
in ecs/src/world.rs and ecs/src/entry.rs, which get back an `Option` or a
handle:

- `find_from_layout` and `find_from_entity` return the first match;
- `add` and `create_from_layout` append an empty archetype with the next
  index;
- `unassigne_entity` removes the first occurrence of the id and aborts when
  there is none.

Scanning for the first match is this model's choice. The model also proves
the invariants `LayoutsDistinct` and `Partitioned`. Under them the first
match is the only match, so the choice does not affect any result.

## Model

| member | source | states |
|---|---|---|
| Archetypes.NewLayout | ecs/src/archetype.rs:47-51 | a new layout has no component types |
| Archetypes.Register | ecs/src/archetype.rs:53-59 | the type goes at the end, duplicates are kept, earlier positions are unchanged, and the types of the result are exactly the old ones plus the new one |
| Archetypes.ContainsType | ecs/src/archetype.rs:61-63 | true exactly when the type occurs in the layout |
| Archetypes.FirstPosition | ecs/src/world.rs:78-84 | the type's position is found exactly when the layout contains it; it is the first occurrence, and no earlier position holds the type |
| Archetypes.FirstPositionInPrefix | ecs/src/entry.rs:125-126 | appending to a layout never changes the first position of a type already in it |
| Archetypes.LayoutEq | ecs/src/archetype.rs:66-70 | element-wise equality of the type lists, which is exactly equality of layouts |
| Archetypes.LayoutOrderMatters | ecs/src/archetype.rs:66-70 | registering two distinct types in opposite orders gives layouts that compare unequal |
| Archetypes.NewArchetype | ecs/src/archetype.rs:24-30 | the given index and members, and an empty layout |
| Archetypes.Assign | ecs/src/archetype.rs:32-34 | the id is appended without a duplicate check: one longer, earlier members kept, index and layout unchanged |
| Archetypes.Unassign | ecs/src/entry.rs:128 | succeeds exactly when the entity is a member, else aborts with NotAMember; index and layout are kept and the list shrinks by one |
| Archetypes.UnassignMembers | ecs/src/entry.rs:128 | on a duplicate-free member list, only the entity is removed and the list stays duplicate-free |
| Archetypes.AssignThenUnassign | ecs/src/archetype.rs:32-34 | unassigning an entity that was just assigned, and was not a member before, gives back the original archetype |
| ArchetypeRegistry.NewRegistry | ecs/src/world.rs:26 | a new registry has no archetypes |
| ArchetypeRegistry.Create | ecs/src/entry.rs:135-138 | appends an empty archetype with the given layout at the next index; existing archetypes are untouched |
| ArchetypeRegistry.FindFromLayout | ecs/src/world.rs:39 | finds nothing exactly when no archetype has the layout; otherwise the first archetype that has it |
| ArchetypeRegistry.FindFromLayoutUnique | ecs/src/world.rs:38-47 | when layouts are distinct, the archetype holding a layout is the one found for it |
| ArchetypeRegistry.FindFromEntity | ecs/src/world.rs:69-72 | finds nothing exactly when the entity is a member of no archetype; otherwise the first archetype listing it |
| ArchetypeRegistry.FindFromEntityUnique | ecs/src/entry.rs:119-122 | in a partitioned registry, the archetype listing an entity is the one found for it |
| ArchetypeRegistry.AssignAt | ecs/src/world.rs:41-45 | only archetype `k` gains the entity; indices, layouts and all other memberships are unchanged |
| ArchetypeRegistry.UnassignAt | ecs/src/entry.rs:128 | aborts with NotAMember exactly when the entity is not in archetype `k`; no other archetype changes |
| ArchetypeRegistry.FindOrCreate | ecs/src/world.rs:39-47 | the registry is unchanged when an archetype with the layout exists, and that archetype is used; otherwise exactly one archetype is appended at the end |
| ArchetypeRegistry.FindOrCreateInvariants | ecs/src/world.rs:39-47 | find-or-create keeps indices dense and layouts distinct |
| ArchetypeRegistry.FindOrCreateMembers | ecs/src/world.rs:39-47 | find-or-create adds no member, keeps existing archetypes, and keeps the registry partitioned |
| ArchetypeRegistry.AssignFreshPartitioned | ecs/src/world.rs:41-45 | assigning an entity that is in no archetype keeps every entity in at most one archetype |
| ArchetypeRegistry.DetachEntity | ecs/src/entry.rs:128 | unassigning a member from its archetype succeeds, leaves it in no archetype, keeps the invariants and changes no other membership or layout |
| ArchetypeRegistry.AttachEntity | ecs/src/entry.rs:130-140 | attaching a detached entity places it in exactly the archetype for the new layout: the existing one, or a new one at the end |
| ArchetypeRegistry.MoveEntity | ecs/src/entry.rs:128-140 | the whole move: the entity ends up in exactly one archetype, the one for the new layout; the registry grows by at most one and nothing else changes |
| Storages.NewStorage | ecs/src/storage.rs:103-110 | a new storage is empty |
| Storages.PushComponent | ecs/src/storage.rs:112-117 | returns the size before the push; the size grows by one; the returned slot reads back the pushed value; earlier slots keep their values |
| Storages.GetComponent | ecs/src/storage.rs:123-125 | succeeds exactly when the slot is below the size, with the value stored there; otherwise aborts with SlotOutOfRange |
| Storages.PushesKeepPositions | ecs/src/storage.rs:112-125 | after any number of pushes every earlier slot still holds its value, and the size grew by the number of pushes |
| Storages.NewStorages | ecs/src/storage.rs:39-43 | no storage for any type |
| Storages.GetStorage | ecs/src/storage.rs:45-83 | the storage for the type, created empty on first use; an existing storage is returned unchanged; no other type's entry changes |
| Storages.GetStorageIdempotent | ecs/src/storage.rs:45-63 | a second request returns the same storage and the same storages map |
| Storages.GetStorageRaw | ecs/src/storage.rs:85-90 | succeeds exactly when the type already has a storage, and returns that storage; otherwise aborts with MissingStorage |
| Storages.PushComponentOf | ecs/src/world.rs:49-53 | the value lands in the type's storage at the returned slot, which is the old size (0 for a new storage); every other stored value stays where it was |
| Locations.NewLocationMap | ecs/src/location.rs:32-36 | every lookup in a new map aborts with MissingLocation |
| Locations.Get | ecs/src/location.rs:38-44 | the entity's list when it has one; otherwise aborts with MissingLocation |
| Locations.Insert | ecs/src/location.rs:46-48 | a lookup of the entity gives the inserted list, replacing any earlier one; other entities' lookups are unchanged |
| Locations.Append | ecs/src/location.rs:42-44 | pushing onto the list from `get_mut` extends only that entity's list, by one location at the end; without a list it aborts |
| Queries.NewBuilder | ecs/src/query.rs:19-29 | a new builder has no types |
| Queries.With | ecs/src/query.rs:31-34 | the type goes at the end; earlier types and duplicates are kept |
| Queries.Build | ecs/src/query.rs:36-40 | the query holds the builder's list unchanged |
| Queries.WithAllLists | ecs/src/query.rs:31-40 | any chain of `with` calls followed by `build` lists exactly the chained types, in call order, after the builder's own |
| Queries.TwoTypeQuery | ecs/src/query.rs:31-40 | `builder().with::<A>().with::<B>().build()` lists exactly `[A, B]` |
| Worlds.NewWorld | ecs/src/world.rs:22-29 | counter 0, and no locations, archetypes or storages |
| Worlds.NewWorldValid | ecs/src/world.rs:22-29 | a new world satisfies the bookkeeping invariant |
| Worlds.Spawn | ecs/src/world.rs:32-61 | returns `Entity(counter)` and increments the counter by one; adds an archetype exactly when none has layout `[t]`; `t`'s storage grows by one; no other entity's location list changes |
| Worlds.SpawnPreservesValid | ecs/src/world.rs:32-61 | `spawn` keeps the bookkeeping invariant |
| Worlds.SpawnLocation | ecs/src/world.rs:49-56 | the new entity has layout `[t]` and sits in the existing archetype for it or in a new one at the end; its location list is the single pair (that archetype, the storage size before the push); that slot holds the spawned value |
| Worlds.SpawnThenGet | ecs/src/world.rs:119-129 | after `spawn(c)`, reading `c`'s type returns `c`, and reading any other type returns None |
| Worlds.SpawnKeepsOthers | ecs/src/world.rs:32-61 | `spawn` changes no other entity's reads |
| Worlds.SpawnKeepsPlacement | ecs/src/world.rs:39-47 | `spawn` leaves every existing entity in its archetype, with its layout and its location list |
| Worlds.SpawnsDistinct | ecs/src/world.rs:33-60 | two successive spawns return `Entity(n)` and `Entity(n + 1)`, distinct and not located before |
| Worlds.SpawnAllCounter | ecs/src/world.rs:58 | over any sequence of spawns the counter advances by exactly the number of spawns |
| Worlds.SpawnAllIds | ecs/src/world.rs:33-60 | the `i`-th spawn of a sequence returns `Entity(n + i)` for the starting counter `n`, so all spawned entities are pairwise distinct |
| Worlds.GetComponent | ecs/src/world.rs:63-96 | aborts with MissingLocation for an entity without a location list, and with NoArchetype for one in no archetype; a value comes only from a storage that exists |
| Worlds.GetComponentValid | ecs/src/world.rs:74-95 | in a valid world a located entity's read never aborts; it is None exactly when the type is not in the layout, and otherwise the value at the slot recorded for the type's first position |
| Worlds.GetComponentAt | ecs/src/world.rs:79-92 | a type whose first position is `p` reads the value at the slot of location `p` |
| Worlds.GetComponentStable | ecs/src/world.rs:79-92 | when the layout and location list only grow at the end and storages only grow, every type already in the layout reads back the same value |
| Worlds.GetComponentUnchanged | ecs/src/world.rs:63-96 | an entity whose layout and location list are unchanged reads back the same for every type while storages only grow |
| Worlds.LocationsMatchLayout | ecs/src/world.rs:84-87 | a located entity of a valid world has exactly one location per position of its layout |
| Worlds.SameArchetypeIffSameLayout | ecs/src/world.rs:39-47 | two located entities share an archetype exactly when they have the same layout |
| Worlds.SpawnLayouts | ecs/src/world.rs:35-47 | after `spawn` the set of layouts is the old set plus `[t]`; the archetype count grows exactly when `[t]` was not there |
| Worlds.SpawnKeepsLayoutCount | ecs/src/world.rs:35-47 | `spawn` keeps the archetype count equal to the number of distinct layouts |
| Worlds.SpawnAllLayouts | ecs/src/world.rs:35-47 | after any sequence of spawns the layouts are the old ones plus one `[t]` per spawned type, and there is one archetype per layout |
| Worlds.ArchetypeCountAfterSpawns | ecs/src/world.rs:35-47 | from a new world, the archetype count equals the number of distinct spawned types |
| Entries.RefGetComponent | ecs/src/entry.rs:42-62 | a type outside the archetype's layout aborts with TypeNotInLayout, where the world's read answers None; a value comes only from a storage the entry holds |
| Entries.RefGetMatchesWorld | ecs/src/entry.rs:42-62 | an entry built from a valid world returns the world's value for every type in the layout, and aborts on every type outside it |
| Entries.MutGetComponent | ecs/src/entry.rs:96-112 | aborts with NoArchetype when the entity is in no archetype, and aborts when it has no location list |
| Entries.MutGetMatchesWorld | ecs/src/entry.rs:96-112 | in a valid world it returns the world's value for every type in the layout, and aborts with TypeNotInLayout on every type outside it |
| Entries.AddComponent | ecs/src/entry.rs:115-147 | aborts with MissingLocation without a location list and with NoArchetype without an archetype; otherwise succeeds; the counter and the set of located entities are unchanged |
| Entries.AddComponentPreservesValid | ecs/src/entry.rs:115-147 | `add_component` keeps the bookkeeping invariant |
| Entries.AddComponentLayout | ecs/src/entry.rs:125-126 | the entity's new layout is its old one with the type appended |
| Entries.AddComponentMoves | ecs/src/entry.rs:125-146 | the entity has left its old archetype for the existing archetype with the new layout, or for a new one at the end. Its location list grows by exactly (new archetype, slot of the value). Other lists and all stored values are unchanged |
| Entries.AddComponentThenGet | ecs/src/entry.rs:125-146 | afterwards a type already in the layout reads as before (the first registered value wins), the added type otherwise reads the added value, and any other type reads None |
| Entries.AddComponentKeepsOthers | ecs/src/entry.rs:142-146 | `add_component` changes no other entity's reads |
| Entries.AddComponentKeepsPlacement | ecs/src/entry.rs:128-140 | `add_component` leaves every other entity in its archetype, with its layout |
| Entries.AddComponentRetains | ecs/src/entry.rs:142-146 | every value that could be read before `add_component` reads back the same afterwards, for every entity |
| Scenarios.SpawnEntityWithSingleComponent | ecs/src/world.rs:119-129 | in a new world, a spawned Health reads back |
| Scenarios.SpawnEntitiesCheckArchetypes | ecs/src/world.rs:131-141 | spawning Health, Stamina, Health, Stamina makes exactly two archetypes |
| Scenarios.SpawnLayout | ecs/src/world.rs:35-36 | a spawned entity's layout is the one-type layout `[t]` |
| Scenarios.ExtendSingle | sandbox/src/main.rs:34-35 | extending a one-type entity with another type gives layout `[t, u]`; the new value reads back and the old one is unchanged |
| Scenarios.PlayerTwo | sandbox/src/main.rs:37-38 | the second player, spawned with a Transform and extended with a Health, joins the first player's archetype |
| Scenarios.ThirdEntity | sandbox/src/main.rs:30 | added to illustrate the ordering hint (the program itself builds no such entity): an entity given Health then Transform gets layout `[Health, Transform]` and a different archetype from `[Transform, Health]` |
| Scenarios.ExtendOrderMatters | sandbox/src/main.rs:30-38 | the host program's two players share archetype `[Transform, Health]`; a third entity, added to illustrate the ordering hint at line 30 and not built by the program, takes the other order and gets a different archetype |

## Left out

- Integer widths: entity ids and archetype indices are `u32`, and slots are `usize`. The model uses unbounded naturals. Overflow of the entity counter after 2^32 spawns, which panics in a debug build and wraps in a release build, is not modelled.
- Type erasure: `TypeId::of`, `Box<dyn Any>` and `downcast_ref`/`downcast_mut` are replaced by a map keyed by a type token. Their failure branches (`unreachable!`, and the `None` arm of `EntryRef::get_component`) cannot happen in this form and are not modelled.
- The `Component` and `Storage` traits, the `Debug` derives, and the borrows and lifetimes of `EntryRef` and `EntryMut`. An entry is modelled by its fields (`Entries.EntryRef`), or as a function of the world.
- `Entity::id`, `Archetype::index`, `EntityLocation::new`, `EntityLocation::archetype`/`component` and `Query::components` are datatype constructors and fields here. `EntryRef::new`, `EntryRef::entity` and `EntryRef::archetype` are the constructor and fields of `Entries.EntryRef`. The model has no `EntryMut` datatype: `EntryMut::new` and `EntryMut::entity` correspond to the world and the entity passed to `Entries.MutGetComponent` and `Entries.AddComponent`. `EntryMut::archetype` is the registry lookup inside those two functions.
- `get_storage` and `get_storage_mut` are both `Storages.GetStorage`. Read paths that call `get_storage` could insert an empty storage, but they do so only when they then abort, so reads return no updated world.
- ecs/src/archetype.rs defines neither `ArchetypeManager` nor `ArchetypeStorage`, so how their lookups treat several matches is unknown. The model scans for the first match and proves `LayoutsDistinct` and `Partitioned`, under which there is never more than one.
- `VecStorage::size` (ecs/src/storage.rs:119-121) and `ArchetypeManager::len` are the length functions `Storages.Size` and `ArchetypeRegistry.Len` over the stored sequence, with no contract of their own. `len` is used only by the assertion at ecs/src/world.rs:140, which `Scenarios.SpawnEntitiesCheckArchetypes` states through `Len`.
- Entries.MutGetComponent: returns the value or aborts, rather than an `Option`, because `VecStorage::get_component` returns the value itself and aborts out of range.
- ecs/src/lib.rs is an older copy of the storage code and is not part of this model.
- The `f32` payloads of the test components are one abstract value type.
- `World::query` and `World::extend` (sandbox/src/main.rs:35, 40) are not defined in ecs/src/world.rs, and no code iterates a query over archetypes. `extend` is taken to be `EntryMut::add_component`. No file of the crate deletes entities, removes components or recycles ids.
