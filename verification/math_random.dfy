/** What both engines assume of `Math.random()`: every value it returns lies in [0, 1). */
module MathRandom {

  /** Every draw lies in [0, 1), as `Math.random()` promises. */
  predicate UnitDraws(draws: seq<real>) {
    forall k :: 0 <= k < |draws| ==> 0.0 <= draws[k] < 1.0
  }
}
