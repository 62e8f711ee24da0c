/** The older revision of the ring buffer: the `slidingWindow` struct, which
    also derives the sum and the plain and weighted averages. */
module LegacyWindow {
  import opened Weights
  import opened WindowSpec

  /** A fixed-capacity ring of samples. `head` is the slot the next `Digest`
      overwrites; `windowFull` records that the ring has wrapped once. */
  class SlidingWindow {
    var window: array<real>
    var size: int
    var head: int
    var windowFull: bool
    /** Every value ever passed to `Digest`, oldest first. */
    ghost var history: seq<real>

    /** The logically present samples in the order `Reduce` visits them. */
    ghost function Contents(): seq<real>
      reads this, window
      requires 0 <= head <= window.Length
    {
      Visit(window[..], head, windowFull)
    }

    ghost predicate Valid()
      reads this, window
    {
      window.Length == size && RingInv(window[..], head, windowFull, history)
    }

    /** `New`: capacities below 2 are raised to 2; every slot starts at 0. */
    constructor (windowSize: int)
      ensures Valid() && fresh(window)
      ensures size == (if windowSize < 2 then 2 else windowSize)
      ensures window.Length == size
      ensures forall j :: 0 <= j < size ==> window[j] == 0.0
      ensures head == 0 && !windowFull
      ensures history == [] && Contents() == []
    {
      var n := windowSize;
      if n < 2 {
        n := 2;
      }
      size := n;
      window := new real[n](_ => 0.0);
      head := 0;
      windowFull := false;
      history := [];
    }

    /** Overwrites the slot at `head`, advances `head` round the ring and
        hands back the same window so that calls can be chained. */
    method Digest(val: real) returns (r: SlidingWindow)
      requires Valid()
      modifies this, window
      ensures r == this
      ensures Valid()
      ensures window == old(window) && size == old(size)
      ensures history == old(history) + [val]
      ensures window[..] == old(window[..])[old(head) := val]
      ensures head == (old(head) + 1) % size
      ensures windowFull == (old(windowFull) || head == 0)
      ensures Contents() == LastN(old(Contents()) + [val], size)
      ensures Contents() == if old(windowFull) then old(Contents())[1..] + [val] else old(Contents()) + [val]
    {
      ghost var w0 := window[..];
      RingAdd(w0, head, windowFull, history, val);
      window[head] := val;
      assert window[..] == w0[old(head) := val];
      head := (head + 1) % size;
      if head == 0 {
        windowFull := true;
      }
      history := history + [val];
      r := this;
    }

    /** Number of logically present samples: `size` once full, else `head`. */
    function Count(): (c: int)
      reads this, window
      requires Valid()
      ensures c == |Contents()|
      ensures c == if |history| < size then |history| else size
      ensures 0 <= c <= size
    {
      if windowFull then Size() else head
    }

    /** The capacity fixed at construction. */
    function Size(): (s: int)
      reads this, window
      requires Valid()
      ensures s == window.Length && 2 <= s
    {
      size
    }

    /** Weighted reduction over the present samples, oldest to newest; step
        `i` uses weight `weightFn(i, Count())`, or 1 for `EqualWeight`. */
    method Reduce(weightFn: WeightFn) returns (sum: real, denominator: real)
      requires Valid()
      ensures Totals(sum, denominator) == Reduced(Contents(), weightFn)
    {
      var count := Count();
      var offset := head;
      var steps := size;
      if !windowFull {
        offset := 0;
        steps := head;
      }
      ghost var w := window[..];
      ghost var present := Visit(w, head, windowFull);
      assert steps == |present| == count && offset == (if windowFull then head else 0);
      var weight := 1.0;
      sum, denominator := 0.0, 0.0;
      for i := 0 to steps
        invariant weightFn.EqualWeight? ==> weight == 1.0
        invariant Totals(sum, denominator) == WeightedTotals(present[..i], weightFn, count)
      {
        VisitAt(w, head, windowFull, i);
        var val := window[(offset + i) % size];
        assert val == present[i];
        match weightFn {
          case Fn(f) => weight := f(i, count);
          case EqualWeight =>
        }
        assert weight == Weight(weightFn, i, count);
        WeightedTotalsStep(present, weightFn, count, i, weight * val, weight);
        sum := sum + weight * val;
        denominator := denominator + weight;
      }
      assert present[..steps] == present;
    }

    /** The plain sum of the present samples (0 for an empty window). */
    method Sum() returns (s: real)
      requires Valid()
      ensures s == SumOf(Contents())
      ensures s == Reduced(Contents(), EqualWeight).sum
    {
      var sum, _ := Reduce(EqualWeight);
      EqualWeightTotals(Contents(), Count());
      s := sum;
    }

    /** The plain average: the sum over the count, or 0 for an empty window. */
    method Avg() returns (a: real)
      requires Valid()
      ensures Count() == 0 ==> a == 0.0
      ensures Count() > 0 ==> a == SumOf(Contents()) / Count() as real
    {
      var q := WeightedAvg(EqualWeight);
      if Count() > 0 {
        EqualMean(Contents());
      }
      a := q.v;
    }

    /** The weighted average: 0 for an empty window, otherwise the quotient of
        the two totals of `Reduce(weightFn)`. */
    method WeightedAvg(weightFn: WeightFn) returns (q: Quotient)
      requires Valid()
      ensures q == Mean(Contents(), weightFn)
      ensures Count() == 0 ==> q == Value(0.0)
    {
      if Count() == 0 {
        return Value(0.0);
      }
      var sum, denominator := Reduce(weightFn);
      if denominator == 0.0 {
        q := DivisionByZero;
      } else {
        q := Value(sum / denominator);
      }
    }
  }
}
