/**
  A predicate whose body is a quantifier over a seal, triggered by Broken, names a fact that a proof unfolds
  only where it says `assert Broken(Seal);`.
 */
module Seals {
  datatype Seal = Seal

  predicate Broken(seal: Seal) {
    true
  }
}
