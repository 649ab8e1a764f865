/** Math.random as the games see it: the sequence rand(0), rand(1), ... of the values it
    returns. A game that has used the first n values gets rand(n) next. */
module Random {

  /** The successive results of Math.random. */
  type Rolls = nat -> real

  /** Every result lies in [0, 1). */
  ghost predicate UnitRolls(rand: Rolls) {
    forall k: nat :: 0.0 <= rand(k) < 1.0
  }
}
