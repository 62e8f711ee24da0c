/** The abstract meaning of a sliding window: which samples are present, and
    what a weighted reduction over them computes. */
module WindowSpec {
  import opened Weights

  /** The pair a reduction returns; dividing is left to the caller. */
  datatype Totals = Totals(sum: real, denominator: real)

  /** The outcome of `sum / denominator`. `DivisionByZero` stands for the
      IEEE infinity or NaN that float64 division by zero produces. */
  datatype Quotient = Value(v: real) | DivisionByZero

  /** The last `n` elements of `xs` (all of them when there are fewer). */
  function LastN(xs: seq<real>, n: nat): seq<real>
  {
    if |xs| <= n then xs else xs[|xs| - n..]
  }

  /** The samples a ring buffer `w` holds, oldest first, given its write
      cursor `head` and whether it has wrapped: from `head` round the ring
      when full, otherwise the first `head` slots. */
  function Visit(w: seq<real>, head: int, full: bool): seq<real>
    requires 0 <= head <= |w|
  {
    if full then w[head..] + w[..head] else w[..head]
  }

  /** The `i`-th sample of `Visit` sits at slot `(offset + i) % |w|`, where
      `offset` is `head` for a full ring and 0 otherwise. */
  lemma VisitAt(w: seq<real>, head: int, full: bool, i: int)
    requires 0 <= head < |w|
    requires 0 <= i < |Visit(w, head, full)|
    ensures 0 <= ((if full then head else 0) + i) % |w| < |w|
    ensures Visit(w, head, full)[i] == w[((if full then head else 0) + i) % |w|]
  {
    if full && head + i >= |w| {
      ModOnce(head + i, |w|);
    } else {
      ModBelow((if full then head else 0) + i, |w|);
    }
  }

  /** Overwriting slot `head` with `val` and advancing the cursor modulo the
      capacity appends `val` to the samples held, evicting the oldest one
      when the ring was already full. */
  lemma VisitStep(w: seq<real>, head: int, full: bool, val: real)
    requires 0 <= head < |w|
    ensures 0 <= (head + 1) % |w| < |w|
    ensures Visit(w[head := val], (head + 1) % |w|, full || (head + 1) % |w| == 0)
         == if full then Visit(w, head, full)[1..] + [val] else Visit(w, head, full) + [val]
  {
    CursorStep(head, |w|);
    if head + 1 < |w| {
      VisitStepInside(w, head, full, val);
    } else {
      VisitStepWrap(w, head, full, val);
    }
  }

  /** The cursor moves on without wrapping. */
  lemma VisitStepInside(w: seq<real>, head: int, full: bool, val: real)
    requires 0 <= head && head + 1 < |w|
    ensures Visit(w[head := val], head + 1, full)
         == if full then Visit(w, head, full)[1..] + [val] else Visit(w, head, full) + [val]
  {
  }

  /** The cursor wraps from the last slot back to slot 0, so the ring is full. */
  lemma VisitStepWrap(w: seq<real>, head: int, full: bool, val: real)
    requires 0 <= head && head + 1 == |w|
    ensures Visit(w[head := val], 0, true)
         == if full then Visit(w, head, full)[1..] + [val] else Visit(w, head, full) + [val]
  {
  }

  /** The invariant of a ring buffer with slots `w`, write cursor `head` and
      fullness flag `full`, after the samples `hist` have been added: the
      cursor is in range, the flag is set exactly when `|w|` samples have
      been added, an unwrapped cursor counts the samples, and the samples
      held are the last `|w|` of `hist`, oldest first. */
  ghost predicate RingInv(w: seq<real>, head: int, full: bool, hist: seq<real>)
  {
    2 <= |w| &&
    0 <= head < |w| &&
    (full <==> |hist| >= |w|) &&
    (!full ==> head == |hist|) &&
    Visit(w, head, full) == LastN(hist, |w|)
  }

  /** One insertion keeps the invariant, and the samples held afterwards are
      the last `|w|` of those held before followed by `val`. */
  lemma RingAdd(w: seq<real>, head: int, full: bool, hist: seq<real>, val: real)
    requires RingInv(w, head, full, hist)
    ensures 0 <= (head + 1) % |w| < |w|
    ensures RingInv(w[head := val], (head + 1) % |w|, full || (head + 1) % |w| == 0, hist + [val])
    ensures Visit(w[head := val], (head + 1) % |w|, full || (head + 1) % |w| == 0)
         == LastN(Visit(w, head, full) + [val], |w|)
  {
    CursorStep(head, |w|);
    VisitStep(w, head, full, val);
    LastNSnoc(hist, val, |w|);
    LastNSlides(hist, val, |w|);
  }

  /** Advancing a cursor in `[0, n)` by one modulo `n` wraps only at the end. */
  lemma CursorStep(h: int, n: int)
    requires 0 <= h < n
    ensures (h + 1) % n == if h + 1 < n then h + 1 else 0
  {
  }

  /** A value already in `[0, n)` is its own remainder. */
  lemma ModBelow(x: int, n: int)
    requires 0 <= x < n
    ensures x % n == x
  {
  }

  /** A value in `[n, 2n)` wraps around exactly once. */
  lemma ModOnce(x: int, n: int)
    requires 0 < n <= x < 2 * n
    ensures x % n == x - n
  {
  }

  /** The plain arithmetic sum, folded from the front. */
  function SumOf(vals: seq<real>): real
  {
    if vals == [] then 0.0 else vals[0] + SumOf(vals[1..])
  }

  /** Sum of `Weight(w, i, n) * vals[i]` and of `Weight(w, i, n)` over the
      positions `i` of `vals`, accumulated from the oldest sample on; `n` is
      the population handed to the weight function. */
  function WeightedTotals(vals: seq<real>, w: WeightFn, n: int): Totals
  {
    if vals == [] then Totals(0.0, 0.0)
    else
      var k := |vals| - 1;
      var prev := WeightedTotals(vals[..k], w, n);
      var wt := Weight(w, k, n);
      Totals(prev.sum + wt * vals[k], prev.denominator + wt)
  }

  /** Extending a prefix of `vals` by one sample adds that sample's weighted
      value and weight to the totals. */
  lemma WeightedTotalsStep(vals: seq<real>, w: WeightFn, n: int, i: int, term: real, wt: real)
    requires 0 <= i < |vals|
    requires wt == Weight(w, i, n) && term == wt * vals[i]
    ensures WeightedTotals(vals[..i + 1], w, n)
         == Totals(WeightedTotals(vals[..i], w, n).sum + term,
                   WeightedTotals(vals[..i], w, n).denominator + wt)
  {
    assert vals[..i + 1][..i] == vals[..i];
  }

  /** The reduction of a whole window: the population is the number of samples. */
  function Reduced(vals: seq<real>, w: WeightFn): Totals
  {
    WeightedTotals(vals, w, |vals|)
  }

  /** The weighted mean of a window: 0 for an empty window, otherwise the
      quotient of the reduction's two totals. */
  function Mean(vals: seq<real>, w: WeightFn): Quotient
  {
    if |vals| == 0 then Value(0.0)
    else
      var t := Reduced(vals, w);
      if t.denominator == 0.0 then DivisionByZero else Value(t.sum / t.denominator)
  }

  /** Appending one sample and keeping the last `n` only depends on the samples
      kept before: a window that was full loses its oldest sample. */
  lemma LastNSnoc(xs: seq<real>, x: real, n: nat)
    requires n > 0
    ensures LastN(xs + [x], n) == if |xs| < n then xs + [x] else LastN(xs, n)[1..] + [x]
  {
    if |xs| >= n {
      var ys := xs + [x];
      assert ys[|ys| - n..] == xs[|xs| - n..][1..] + [x];
    }
  }

  /** Sliding a kept window forward gives the same result as sliding the full
      history forward. */
  lemma {:induction false} LastNSlides(xs: seq<real>, x: real, n: nat)
    requires n > 0
    ensures LastN(LastN(xs, n) + [x], n) == LastN(xs + [x], n)
  {
    LastNSnoc(xs, x, n);
    LastNSnoc(LastN(xs, n), x, n);
  }

  lemma {:induction false} SumOfAppend(a: seq<real>, b: seq<real>)
    ensures SumOf(a + b) == SumOf(a) + SumOf(b)
  {
    if a != [] {
      assert (a + b)[1..] == a[1..] + b;
      SumOfAppend(a[1..], b);
    } else {
      assert a + b == b;
    }
  }

  /** The sum does not depend on where the ring starts. */
  lemma {:induction false} SumOfRotate(a: seq<real>, b: seq<real>)
    ensures SumOf(a + b) == SumOf(b + a)
  {
    SumOfAppend(a, b);
    SumOfAppend(b, a);
  }

  /** Under the equal-weight policy the reduction is the plain sum and the
      number of samples. */
  lemma {:induction false} EqualWeightTotals(vals: seq<real>, n: int)
    ensures WeightedTotals(vals, EqualWeight, n) == Totals(SumOf(vals), |vals| as real)
  {
    if vals != [] {
      var k := |vals| - 1;
      EqualWeightTotals(vals[..k], n);
      assert vals == vals[..k] + [vals[k]];
      SumOfAppend(vals[..k], [vals[k]]);
    }
  }

  /** The `nil` policy means what its name says: reducing with it gives the
      same totals as reducing with a caller's function that weighs every
      position 1, even though it never calls a function. */
  lemma {:induction false} EqualWeightIsUnitWeight(vals: seq<real>, n: int)
    ensures WeightedTotals(vals, EqualWeight, n) == WeightedTotals(vals, Fn((i: int, m: int) => 1.0), n)
  {
    if vals != [] {
      EqualWeightIsUnitWeight(vals[..|vals| - 1], n);
    }
  }

  /** Under the positional policy the denominator is 1 + 2 + ... + |vals|. */
  lemma {:induction false} PositionalDenominator(vals: seq<real>, n: int)
    ensures WeightedTotals(vals, PositionBased, n).denominator == (|vals| * (|vals| + 1)) as real / 2.0
  {
    if vals != [] {
      var k := |vals| - 1;
      var m := |vals|;
      PositionalDenominator(vals[..k], n);
      assert m * (m + 1) == k * (k + 1) + 2 * m;
      assert (k * (k + 1) + 2 * m) as real == (k * (k + 1)) as real + 2.0 * m as real;
    }
  }

  /** Weights that are positive at every position give a positive denominator. */
  lemma {:induction false} PositiveWeightsDenominator(vals: seq<real>, w: WeightFn, n: int)
    requires vals != []
    requires forall i :: 0 <= i < |vals| ==> Weight(w, i, n) > 0.0
    ensures WeightedTotals(vals, w, n).denominator > 0.0
  {
    var k := |vals| - 1;
    if k > 0 {
      PositiveWeightsDenominator(vals[..k], w, n);
    }
  }

  /** The equal-weight mean of a non-empty window is its sum over its count. */
  lemma EqualMean(vals: seq<real>)
    requires vals != []
    ensures Mean(vals, EqualWeight) == Value(SumOf(vals) / |vals| as real)
  {
    EqualWeightTotals(vals, |vals|);
  }

  /** The positional mean of a non-empty window is always defined, and is the
      positional weighted sum over 1 + 2 + ... + |vals|. */
  lemma PositionalMean(vals: seq<real>)
    requires vals != []
    ensures Mean(vals, PositionBased)
         == Value(Reduced(vals, PositionBased).sum / ((|vals| * (|vals| + 1)) as real / 2.0))
  {
    PositionalDenominator(vals, |vals|);
  }

  /** In a full window, adding the value that the evicted oldest sample held
      leaves the sum unchanged. */
  lemma OverwriteOldestKeepsSum(c: seq<real>, x: real, n: nat)
    requires |c| == n > 0 && x == c[0]
    ensures SumOf(LastN(c + [x], n)) == SumOf(c)
  {
    LastNSnoc(c, x, n);
    assert c == [c[0]] + c[1..];
    SumOfRotate([c[0]], c[1..]);
  }
}
