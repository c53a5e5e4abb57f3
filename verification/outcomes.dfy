/**
 * The result shapes shared by the whole store: `Option` for the absences the
 * store reports as values, and `Outcome` for operations that may abort with a
 * fatal fault (a Rust panic: `unwrap`, `expect`, an out-of-range index).
 */
module Outcomes {

  /** An optional value, as Rust's `Option`. */
  datatype Option<+T> = None | Some(value: T)

  /** The fatal faults of the store, named after the broken expectation. */
  datatype Fault =
    | MissingLocation     // the location map has no entry for the entity
    | NoArchetype         // "Entity has no archetype!"
    | NotAMember          // removing an entity from an archetype it is not in
    | TypeNotInLayout     // an entry looked up a type its layout does not hold
    | LocationOutOfRange  // indexing past the end of an entity's location list
    | SlotOutOfRange      // reading past the end of a type's storage
    | MissingStorage      // no storage has been created for the type

  /** Either a value, or the fault that aborted the operation. */
  datatype Outcome<+T> = Ok(value: T) | Panic(fault: Fault)
}
