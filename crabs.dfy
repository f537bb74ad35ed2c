/**
 * The crab record as the beach sees it. Its colour and diet are owned by
 * collaborators whose definitions are not part of this model, so they are
 * abstract types here; colour crossing is passed in as a function wherever
 * breeding needs it, and a freshly drawn diet is passed in as a value.
 */
module Crabs {

  /** The colour of a crab; only equality is observed by the beach. */
  type Color(==)

  /** The diet of a crab; only equality is observed by the beach. */
  type Diet(==)

  /** A crab: name, speed, colour and diet, immutable once built. */
  datatype Crab = Crab(name: string, speed: nat, color: Color, diet: Diet)
}
