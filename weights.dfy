/** Weight policies handed to the weighted reduction of a sliding window. */
module Weights {

  /** A weight policy. `EqualWeight` is Go's `nil` policy: every sample
      weighs 1. `Fn` wraps a caller-supplied function of
      (position in the window, number of samples present). */
  datatype WeightFn = EqualWeight | Fn(f: (int, int) -> real)

  /** The weight policy `w` gives to position `i` of a population of `n`:
      the `nil` policy weighs every position 1 and never consults a function,
      any other policy is its function applied to `(i, n)`. */
  function Weight(w: WeightFn, i: int, n: int): real
  {
    match w
    case EqualWeight => 1.0
    case Fn(f) => f(i, n)
  }

  /** The oldest sample weighs 1, every newer one 1 more than the one before.
      The `+ 1` keeps the oldest sample in the average and keeps the
      denominator of a one-sample window away from zero. */
  function PositionBasedWeight(i: int, n: int): (r: real)
    ensures 0 <= i ==> 1.0 <= r
    ensures i < n ==> r <= n as real
  {
    (i + 1) as real
  }

  /** The positional policy as a value that can be handed to a reduction. */
  const PositionBased: WeightFn := Fn(PositionBasedWeight)

  /** Position `i` weighs `i + 1` under the positional policy value. */
  lemma PositionBasedWeightAt(i: int, n: int)
    ensures Weight(PositionBased, i, n) == (i + 1) as real
  {
  }
}
