/** The behaviour the repository's tests expect, replayed against the model. */
module Scenarios {
  import opened Weights
  import opened WindowSpec
  import opened CoreWindow
  import opened LegacyWindow

  /** The totals of the windows the tests inspect. */
  lemma TwoSampleTotals()
    ensures SumOf([1.0, 2.0]) == 3.0
    ensures Reduced([1.0, 2.0], EqualWeight) == Totals(3.0, 2.0)
    ensures Reduced([1.0, 2.0], PositionBased) == Totals(5.0, 3.0)
  {
    assert [1.0, 2.0][1..] == [2.0];
    assert [1.0, 2.0][..1] == [1.0];
    assert [1.0][..0] == [];
    EqualWeightTotals([1.0, 2.0], 2);
    PositionBasedWeightAt(0, 2);
    PositionBasedWeightAt(1, 2);
    assert WeightedTotals([], PositionBased, 2) == Totals(0.0, 0.0);
    assert WeightedTotals([1.0], PositionBased, 2) == Totals(1.0, 1.0);
  }

  lemma ThreeSampleTotals()
    ensures SumOf([2.0, 3.0, 4.0]) == 9.0
    ensures Reduced([2.0, 3.0, 4.0], EqualWeight) == Totals(9.0, 3.0)
    ensures Reduced([2.0, 3.0, 4.0], PositionBased) == Totals(20.0, 6.0)
  {
    assert [2.0, 3.0, 4.0][1..] == [3.0, 4.0];
    assert [3.0, 4.0][1..] == [4.0];
    assert [2.0, 3.0, 4.0][..2] == [2.0, 3.0];
    assert [2.0, 3.0][..1] == [2.0];
    assert [2.0][..0] == [];
    EqualWeightTotals([2.0, 3.0, 4.0], 3);
    PositionBasedWeightAt(0, 3);
    PositionBasedWeightAt(1, 3);
    PositionBasedWeightAt(2, 3);
    assert WeightedTotals([], PositionBased, 3) == Totals(0.0, 0.0);
    assert WeightedTotals([2.0], PositionBased, 3) == Totals(2.0, 1.0);
    assert WeightedTotals([2.0, 3.0], PositionBased, 3) == Totals(8.0, 3.0);
  }

  lemma PairSums()
    ensures SumOf([2.0, 3.0]) == 5.0 && SumOf([3.0, 2.0]) == 5.0
  {
    assert [2.0, 3.0][1..] == [3.0];
    assert [3.0, 2.0][1..] == [2.0];
  }

  lemma TailSum(x: real)
    ensures SumOf([3.0, 4.0, x]) == 7.0 + x
  {
    assert [3.0, 4.0, x][1..] == [4.0, x];
    assert [4.0, x][1..] == [x];
    assert [x][1..] == [];
    assert SumOf([x]) == x;
    assert SumOf([4.0, x]) == 4.0 + x;
  }

  /** A freshly made window of any requested capacity is empty: it reports
      no samples, a capacity of at least 2 (so `New(1)` reports 2), a cursor
      at slot 0, and a sum and averages of 0. */
  method EmptyWindow(windowSize: int) returns (count: int, size: int, head: int, full: bool,
                                               sum: real, avg: real, wavg: Quotient)
    ensures count == 0 && size == (if windowSize < 2 then 2 else windowSize)
    ensures head == 0 && !full
    ensures sum == 0.0 && avg == 0.0 && wavg == Value(0.0)
  {
    var s := new SlidingWindow(windowSize);
    count, size, head, full := s.Count(), s.Size(), s.head, s.windowFull;
    sum := s.Sum();
    avg := s.Avg();
    wavg := s.WeightedAvg(PositionBased);
  }

  /** What one round of queries on a window reports. */
  datatype Reading = Reading(count: int, sum: real, avg: real, wavg: Quotient)

  /** The queries change nothing, so asking twice with no insertion in
      between gives the same answers, and both are the answers the
      specification gives for the samples present. */
  method RepeatedQueriesAgree(s: SlidingWindow, weightFn: WeightFn) returns (first: Reading, second: Reading)
    requires s.Valid()
    ensures first == second
    ensures first.count == |s.Contents()| && first.sum == SumOf(s.Contents())
    ensures first.wavg == Mean(s.Contents(), weightFn)
  {
    var count1 := s.Count();
    var sum1 := s.Sum();
    var avg1 := s.Avg();
    var wavg1 := s.WeightedAvg(weightFn);
    first := Reading(count1, sum1, avg1, wavg1);
    var count2 := s.Count();
    var sum2 := s.Sum();
    var avg2 := s.Avg();
    var wavg2 := s.WeightedAvg(weightFn);
    second := Reading(count2, sum2, avg2, wavg2);
  }

  /** `New(3)` fed 1 and 2 by chained calls. */
  method OneTwo() returns (s: SlidingWindow)
    ensures fresh(s) && fresh(s.window)
    ensures s.Valid() && s.size == 3 && s.head == 2 && !s.windowFull
    ensures s.Contents() == [1.0, 2.0]
  {
    s := new SlidingWindow(3);
    var r := s.Digest(1.0);
    r := r.Digest(2.0);
  }

  /** Two samples in a window of three. */
  method NotYetFullWindow() returns (count: int, size: int, head: int, full: bool,
                                     sum: real, avg: real, wavg: Quotient)
    ensures count == 2 && size == 3 && head == 2 && !full
    ensures sum == 3.0 && avg == 1.5 && wavg == Value(5.0 / 3.0)
  {
    var s := OneTwo();
    TwoSampleTotals();
    count, size, head, full := s.Count(), s.Size(), s.head, s.windowFull;
    sum := s.Sum();
    avg := s.Avg();
    wavg := s.WeightedAvg(PositionBased);
  }

  /** `New(3)` over-filled with 1, 2, 3, 4 by chained calls: the 1 and 2 of
      `OneTwo`, then 3 and 4. */
  method OneToFour() returns (s: SlidingWindow)
    ensures fresh(s) && fresh(s.window)
    ensures s.Valid() && s.size == 3 && s.head == 1 && s.windowFull
    ensures s.Contents() == [2.0, 3.0, 4.0]
  {
    s := OneTwo();
    var r := s.Digest(3.0);
    assert s.Contents() == [1.0, 2.0, 3.0];
    r := r.Digest(4.0);
    assert s.Contents() == [2.0, 3.0, 4.0];
  }

  /** Four samples in a window of three: the first one is evicted. */
  method FullWindow() returns (count: int, size: int, head: int, full: bool,
                               sum: real, avg: real, wavg: Quotient)
    ensures count == 3 && size == 3 && head == 1 && full
    ensures sum == 9.0 && avg == 3.0 && wavg == Value(20.0 / 6.0)
  {
    var s := OneToFour();
    ThreeSampleTotals();
    count, size, head, full := s.Count(), s.Size(), s.head, s.windowFull;
    sum := s.Sum();
    avg := s.Avg();
    wavg := s.WeightedAvg(PositionBased);
  }

  /** `New(3)` fed 1, 2, 3, 4 and then any fifth value. */
  method OneToFourThen(x: real) returns (s: SlidingWindow)
    ensures fresh(s) && fresh(s.window)
    ensures s.Valid() && s.size == 3 && s.head == 2 && s.windowFull
    ensures s.Contents() == [3.0, 4.0, x]
  {
    s := OneToFour();
    var r := s.Digest(x);
    assert s.Contents() == [3.0, 4.0, x];
  }

  /** A fifth sample of any value in the full window of three: the count and
      capacity stay 3, the cursor moves on to slot 2, the window stays full,
      and 2 is evicted, leaving 3, 4 and the new value. */
  method FullWindowThenAny(x: real) returns (count: int, size: int, head: int, full: bool,
                                             sum: real, avg: real)
    ensures count == 3 && size == 3 && head == 2 && full
    ensures sum == 7.0 + x && avg == (7.0 + x) / 3.0
  {
    var s := OneToFourThen(x);
    TailSum(x);
    count, size, head, full := s.Count(), s.Size(), s.head, s.windowFull;
    sum := s.Sum();
    avg := s.Avg();
  }

  /** `newCore(3)` over-filled with 1, 2, 3, 4. */
  method CoreOneToFour() returns (c: Core)
    ensures fresh(c) && fresh(c.window)
    ensures c.Valid() && c.size == 3 && c.head == 1 && c.windowFull
    ensures c.Contents() == [2.0, 3.0, 4.0]
  {
    c := new Core(3);
    c.Add(1.0);
    c.Add(2.0);
    assert c.Contents() == [1.0, 2.0];
    c.Add(3.0);
    assert c.Contents() == [1.0, 2.0, 3.0];
    c.Add(4.0);
  }

  /** The same four samples in the current core: the ring visits 2, 3, 4 and
      the cursor has wrapped round to slot 1. */
  method CoreFullWindow() returns (count: int, head: int, full: bool,
                                   plain: Totals, positional: Totals)
    ensures count == 3 && head == 1 && full
    ensures plain == Totals(9.0, 3.0) && positional == Totals(20.0, 6.0)
  {
    var c := CoreOneToFour();
    ThreeSampleTotals();
    count, head, full := c.Count(), c.head, c.windowFull;
    var sum, denominator := c.Reduce(EqualWeight);
    plain := Totals(sum, denominator);
    sum, denominator := c.Reduce(PositionBased);
    positional := Totals(sum, denominator);
  }

  /** What a reader of a window of two holding 2 and 3, in either order,
      observes: sum 5 and average 2.5. */
  method Observe(s: SlidingWindow) returns (sum: real, avg: real)
    requires s.Valid()
    requires s.Contents() == [2.0, 3.0] || s.Contents() == [3.0, 2.0]
    ensures sum == 5.0 && avg == 2.5
  {
    PairSums();
    sum := s.Sum();
    avg := s.Avg();
  }

  /** A ring of two slots holding 2 then 3 has 2 in slot `head`, whichever
      slot that is. */
  lemma PairSlots(w: seq<real>, head: int, full: bool, hist: seq<real>)
    requires RingInv(w, head, full, hist) && |w| == 2
    requires Visit(w, head, full) == [2.0, 3.0]
    ensures w == if head == 0 then [2.0, 3.0] else [3.0, 2.0]
  {
    assert full;
    if head == 0 {
      assert w[0..] + w[..0] == w;
    } else {
      assert Visit(w, head, full) == [w[1], w[0]];
      assert w == [w[0], w[1]];
    }
  }

  /** One round of the writer: re-adds 2 and then 3, and reports the sum and
      average observed after each of the two insertions. */
  method FeedPair(s: SlidingWindow) returns (sums: seq<real>, avgs: seq<real>)
    requires s.Valid() && s.size == 2 && s.Contents() == [2.0, 3.0]
    modifies s, s.window
    ensures s.Valid() && s.size == 2 && s.Contents() == [2.0, 3.0]
    ensures s.window == old(s.window) && s.head == old(s.head)
    ensures s.window[..] == old(s.window[..])
    ensures sums == [5.0, 5.0] && avgs == [2.5, 2.5]
  {
    PairSlots(s.window[..], s.head, s.windowFull, s.history);
    var r := s.Digest(2.0);
    assert s.Contents() == [3.0, 2.0];
    var sum1, avg1 := Observe(s);
    r := r.Digest(3.0);
    assert s.Contents() == [2.0, 3.0];
    var sum2, avg2 := Observe(s);
    sums, avgs := [sum1, sum2], [avg1, avg2];
  }

  /** `New(2)` fed 2 and 3. */
  method TwoThree() returns (s: SlidingWindow)
    ensures fresh(s) && fresh(s.window)
    ensures s.Valid() && s.size == 2 && s.Contents() == [2.0, 3.0]
  {
    s := new SlidingWindow(2);
    var r := s.Digest(2.0);
    r := r.Digest(3.0);
    assert s.Contents() == [2.0, 3.0];
  }

  /** A window of two holding 2 and 3, fed 2 and 3 over and over: the sums
      and averages observed after the initial fill and after every later
      insertion are all 5 and 2.5. */
  method SameValueOverwrites(iterations: nat) returns (sums: seq<real>, avgs: seq<real>)
    ensures |sums| == |avgs| == 2 * iterations + 1
    ensures forall k :: 0 <= k < |sums| ==> sums[k] == 5.0
    ensures forall k :: 0 <= k < |avgs| ==> avgs[k] == 2.5
  {
    var s := TwoThree();
    var sum, avg := Observe(s);
    sums, avgs := [sum], [avg];
    for i := 0 to iterations
      invariant s.Valid() && fresh(s.window) && s.size == 2
      invariant s.Contents() == [2.0, 3.0]
      invariant |sums| == |avgs| == 2 * i + 1
      invariant forall k :: 0 <= k < |sums| ==> sums[k] == 5.0
      invariant forall k :: 0 <= k < |avgs| ==> avgs[k] == 2.5
    {
      var roundSums, roundAvgs := FeedPair(s);
      sums, avgs := sums + roundSums, avgs + roundAvgs;
    }
  }
}
