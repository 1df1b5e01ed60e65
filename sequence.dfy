/**
  The shared `long` cell through which producer and consumer publish their
  progress. Only its sequential behaviour is modelled: `set` and `lazySet`
  differ in memory-ordering strength alone, so both are a plain store here.
 */
module Sequences {
  import opened Numerics

  class Sequence {
    /** The one field of the cell; −1 means "nothing produced or consumed yet". */
    var value: Long

    /** A cell that starts at −1. */
    constructor ()
      ensures value == -1
    {
      value := -1;
    }

    /** A cell that starts at `initial`. */
    constructor WithValue(initial: Long)
      ensures value == initial
    {
      value := initial;
    }

    method Get() returns (v: Long)
      ensures v == value
    {
      v := value;
    }

    /** A store; no monotonicity is enforced, so the value may go down. */
    method Set(v: Long)
      modifies this
      ensures value == v
    {
      value := v;
    }

    /** The ordered store; sequentially the same effect as `Set`. */
    method LazySet(v: Long)
      modifies this
      ensures value == v
    {
      value := v;
    }
  }
}
