/** A proof device: a fact about x stated `forall k :: Look(x, k) ==> ...` stays folded until a proof asserts
    `Look(x, 0)`. */
module Folding {
  predicate Look<T>(x: T, k: nat) { true }
}
