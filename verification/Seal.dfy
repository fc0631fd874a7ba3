/** Sealed facts.

    A sealed fact is written `forall k: int :: Opens(k) ==> fact`. Since `Opens` always
    holds, that is the fact itself; but the verifier looks inside only in proofs that
    mention `Opens`, so a proof that merely passes the fact on stays small. */
module Seal {
  ghost predicate Opens(k: int) { true }
}
