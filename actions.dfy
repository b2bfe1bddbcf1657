/**
 * `generateID` from `src/actions`, modelled as a consecutive counter. Its
 * source is not part of this model. The form needs only that no value is
 * returned twice; the order of the counter's values records the order of the
 * calls, not anything about the real identifiers.
 */
module Actions {
  import opened Types

  class IdSource {
    /** The next identifier to hand out; every earlier one is below it. */
    var next: nat

    constructor (start: nat)
      ensures next == start
    {
      next := start;
    }

    method Generate() returns (id: Id)
      modifies this
      ensures id == old(next) && next == old(next) + 1
    {
      id := next;
      next := next + 1;
    }
  }
}
