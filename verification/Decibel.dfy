/** Carrier-to-noise densities as doubles: minus infinity, a finite value, or anything else. */
module Decibel {
  datatype Cn0 = NegativeInfinity | Finite(value: real) | NotUsable

  predicate Below(cn0: Cn0, threshold: real) { cn0.NegativeInfinity? || (cn0.Finite? && cn0.value < threshold) }
}
