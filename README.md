# Sliding window over numeric samples

A Dafny model of `go-sliding-window`, a fixed-capacity ring buffer that keeps
the most recent `size` samples and reports their sum, plain average and
weighted average. The repository has two revisions of the same buffer, and
both are modelled:

- `core.go`: the current `core` struct (`newCore`, `Add`, `Count`, `Size`,
  `reduce`). Modelled by the class `CoreWindow.Core` in `core.dfy`.
- `slidingWindow.go`: the older `slidingWindow` struct (`New`, `Digest`,
  `Count`, `Size`, `reduce`, `Sum`, `Avg`, `WeightedAvg`), together with the
  weight policies `EqualWeight` and `PositionBasedWeight`. Modelled by the
  class `LegacyWindow.SlidingWindow` in `sliding_window.dfy`.

Both classes share the same fields: the slice `window` (an `array<real>`),
`size`, the write cursor `head` and the `windowFull` flag. Each class also
has a ghost field, `history`, which holds every value ever inserted, oldest
first. `Valid()` is the object invariant. It is stated over sequences by
`WindowSpec.RingInv` and says five things:

- the capacity is at least 2;
- the cursor lies in `[0, size)`;
- `windowFull` holds exactly when at least `size` values have been inserted;
- while the window is not full, `head` counts the inserted values;
- the samples that `reduce` visits (`Contents()`, from `head` round the ring
  when full, else the first `head` slots) are exactly the last `size` values
  of `history`, oldest first.

The pure module `WindowSpec` (`window_spec.dfy`) defines what a reduction
means:

- `WeightedTotals` gives `(Σ wᵢ·vᵢ, Σ wᵢ)` accumulated from the oldest
  sample on, where `wᵢ = weightFn(i, count)`;
- `SumOf` is an independent plain sum;
- `Mean` is the guarded quotient.

Both `Reduce` methods are proved, loop invariant by loop invariant, to
compute `WeightedTotals` over `Contents()`.

`Weights` (`weights.dfy`) models the weight policies:

- `WeightFn` is a datatype whose `EqualWeight` constructor stands for the
  source's `nil` policy. It has the same meaning as weight 1.
- `Fn(f)` wraps a caller's function `(int, int) -> real`.
- `PositionBased` is `Fn(PositionBasedWeight)`, with `i ↦ i + 1`.

Go's `float64` samples and weights are modelled as `real`, so sums and
averages are exact and the tests' expected values `5.0/3.0` and `20.0/6.0`
hold exactly. Go's integer arithmetic is modelled on `int`. Every `%` in the
source has non-negative operands, where Go's remainder and Dafny's agree.

`Scenarios` (`scenarios.dfy`) replays the test cases of
`slidingWindow_test.go` as client methods of the two classes. The test file
calls an API that neither modelled file defines: `New(size, synchronized)`,
`Add`/`AddInt` on a wrapper, the field `slidingWindowCore` and
`PositionalWeight`. The scenarios make the same calls on `Core` and
`SlidingWindow` directly, and use `PositionBased` in place of
`PositionalWeight`.

Where the older revision divides `sum / denominator`, a zero denominator
gives an IEEE infinity or NaN in Go. This can only happen with a caller's
weight function whose weights add up to zero. `WeightedAvg` therefore
returns a `Quotient`, and `DivisionByZero` stands for that non-finite
result. The lemmas show that it never happens under `EqualWeight`, under
`PositionBased`, or under any policy whose weights are positive.

## Model

| member | source | states |
|---|---|---|
| `CoreWindow.Core.constructor` | core.go:19-29 | a requested size below 2 becomes 2; `window` has `size` fresh slots, all 0; `head == 0`, `windowFull` is false, nothing is present |
| `CoreWindow.Core.Add` | core.go:31-40 | writes `val` into slot `old(head)` only; `head` becomes `(old(head) + 1) % size`; `windowFull` becomes `old(windowFull)` or `head == 0`, so it is set exactly on wrap-around and never reset; the invariant is kept; the present samples become the last `size` of (the old samples followed by `val`), that is, `val` appended, with the oldest sample dropped when the window was already full |
| `CoreWindow.Core.Count` | core.go:42-48 | the count is the number of present samples, lies in `[0, size]`, and equals `min(number of Adds, size)` |
| `CoreWindow.Core.Size` | core.go:50-52 | the capacity equals the length of `window` and is at least 2 |
| `CoreWindow.Core.Reduce` | core.go:54-81 | returns `(Σ wᵢ·vᵢ, Σ wᵢ)` over the present samples oldest first, with `wᵢ = weightFn(i, Count())`, or 1 for `EqualWeight`; changes no field |
| `LegacyWindow.SlidingWindow.constructor` | slidingWindow.go:33-43 | a requested size below 2 becomes 2; `size` slots that start at 0; `head == 0`, not full, empty |
| `LegacyWindow.SlidingWindow.Digest` | slidingWindow.go:45-56 | as `Core.Add`: only slot `old(head)` is overwritten, the cursor advances modulo `size`, `windowFull` is set on wrap-around and kept, and the present samples change as for `Add`; also returns the same window |
| `LegacyWindow.SlidingWindow.Count` | slidingWindow.go:58-64 | the count is the number of present samples, lies in `[0, size]`, and equals `min(number of Digests, size)` |
| `LegacyWindow.SlidingWindow.Size` | slidingWindow.go:66-68 | the capacity equals the length of `window` and is at least 2 |
| `LegacyWindow.SlidingWindow.Reduce` | slidingWindow.go:70-97 | the weighted totals over the present samples, oldest first, with `wᵢ = weightFn(i, Count())`; changes no field |
| `LegacyWindow.SlidingWindow.Sum` | slidingWindow.go:99-103 | the sum of the present samples; this is the first total of `Reduce(EqualWeight)`, and 0 for an empty window |
| `LegacyWindow.SlidingWindow.Avg` | slidingWindow.go:105-107 | 0 for an empty window, otherwise the sum of the present samples divided by `Count()` |
| `LegacyWindow.SlidingWindow.WeightedAvg` | slidingWindow.go:109-118 | 0 when `Count() == 0`, otherwise the first total of `Reduce(weightFn)` divided by the second |
| `Weights.PositionBasedWeight` | slidingWindow.go:20-24 | every position of a window weighs at least 1 (the oldest sample is never dropped) and at most the number of samples |
| `Weights.PositionBasedWeightAt` | slidingWindow.go:20-24 | helper: position `i` weighs `i + 1` under the policy value `PositionBased` handed to `Reduce` |
| `WindowSpec.EqualWeightIsUnitWeight` | core.go:65-74 | the `nil` fast path (`weight` starts at 1 and the function is called only when one is given) gives the same totals as a function that weighs every position 1, so `EqualWeight` (slidingWindow.go:18) means weight 1 |
| `WindowSpec.PositionalDenominator` | slidingWindow.go:20-24 | under positional weights the denominator over `k` samples is `k(k+1)/2` |
| `WindowSpec.PositionalMean` | slidingWindow.go:20-24 | the positional mean of a non-empty window is always defined: `Σ (i+1)·vᵢ / (k(k+1)/2)` |
| `WindowSpec.PositiveWeightsDenominator` | core.go:72-77 | weights positive at every position give a positive denominator for a non-empty window |
| `WindowSpec.EqualWeightTotals` | core.go:65-78 | under `EqualWeight` (weight 1) the totals are the plain sum of the samples and their number |
| `WindowSpec.EqualMean` | slidingWindow.go:105-107 | the equal-weight mean of a non-empty window is its sum divided by its count |
| `WindowSpec.WeightedTotalsStep` | core.go:72-77 | one loop step adds `w·v` to the sum and `w` to the denominator |
| `WindowSpec.VisitAt` | core.go:57-68 | the `i`-th visited sample is `window[(offset + i) % size]`, where `offset` is `head` when full and 0 otherwise |
| `WindowSpec.VisitStep` | core.go:31-39 | overwriting slot `head` and advancing the cursor appends the value to the visited samples, and drops the oldest one when the window was full |
| `WindowSpec.CursorStep` | core.go:34-39 | the cursor advanced modulo the capacity wraps to 0 only from the last slot |
| `WindowSpec.RingAdd` | core.go:31-40 | one insertion keeps the ring invariant, and the present samples become the last `size` of (the old samples followed by the new value) |
| `WindowSpec.LastNSnoc` | core.go:31-39 | keeping the last `n` of the history plus one value either appends the value or evicts the oldest kept sample |
| `WindowSpec.LastNSlides` | core.go:31-39 | the window after an insertion depends only on the window before it, not on older history |
| `WindowSpec.SumOfRotate` | slidingWindow.go:99-103 | the sum does not depend on where the ring starts (it is order-independent under rotation) |
| `WindowSpec.OverwriteOldestKeepsSum` | slidingWindow.go:45-56 | in a full window, inserting the value the evicted slot held leaves the sum unchanged |
| `Scenarios.EmptyWindow` | slidingWindow_test.go:12-29 | a fresh window of any requested size has count 0, capacity `max(size, 2)` (2 for `New(1)`), cursor 0, not full, sum, average and positional average 0 |
| `Scenarios.OneTwo` | slidingWindow_test.go:31-39 | a freshly allocated `New(3)` fed 1 and 2 has cursor 2, is not full and holds `[1, 2]` |
| `Scenarios.NotYetFullWindow` | slidingWindow_test.go:31-49 | window of 3 after 1, 2: count 2, size 3, head 2, not full, sum 3, average 1.5, positional average 5/3 |
| `Scenarios.OneToFour` | slidingWindow_test.go:51-60 | a freshly allocated `New(3)` fed 1, 2, 3, 4 has cursor 1, is full and holds `[2, 3, 4]` |
| `Scenarios.FullWindow` | slidingWindow_test.go:51-69 | window of 3 after 1, 2, 3, 4: count 3, size 3, head 1, full, sum 9, average 3, positional average 20/6 |
| `Scenarios.OneToFourThen` | slidingWindow_test.go:71-72 | the window of `OneToFour` fed any fifth value `x` is freshly allocated, has cursor 2, is full and holds `[3, 4, x]` |
| `Scenarios.FullWindowThenAny` | slidingWindow_test.go:71-77 | a fifth sample of any value in that window: count 3, size 3, head 2, still full; 2 is evicted, so the sum is `7 + x` and the average `(7 + x) / 3` |
| `Scenarios.CoreOneToFour` | slidingWindow_test.go:51-65 | a freshly allocated `newCore(3)` fed 1, 2, 3, 4 visits `[2, 3, 4]`, with `head == 1` and the window full |
| `Scenarios.CoreFullWindow` | slidingWindow_test.go:51-65 | the core after 1, 2, 3, 4: count 3, head 1, full, equal-weight totals (9, 3), positional totals (20, 6) |
| `Scenarios.Observe` | slidingWindow_test.go:108-111 | the sum and average read from a window of two holding 2 and 3, in either order, are 5 and 2.5 |
| `Scenarios.TwoThree` | slidingWindow_test.go:93-96 | a freshly allocated `New(2)` fed 2 and 3 holds `[2, 3]` |
| `Scenarios.PairSlots` | slidingWindow_test.go:93-96 | a ring of two slots holding 2 then 3 has 2 in slot `head`: its slots are `[2, 3]` when `head` is 0 and `[3, 2]` when it is 1 |
| `Scenarios.FeedPair` | slidingWindow_test.go:98-105 | re-adding 2 then 3 to a window holding `[2, 3]`: the sums read after the two insertions are `[5, 5]`, the averages `[2.5, 2.5]`, and the window ends with the same array, the same slot contents and the cursor back where it was |
| `Scenarios.SameValueOverwrites` | slidingWindow_test.go:84-118 | over any number of rounds of re-adding 2 and 3, one sum and one average are read after the fill and after each insertion (`2·rounds + 1` of each), and every sum is 5 and every average 2.5 |
| `Scenarios.RepeatedQueriesAgree` | slidingWindow.go:58-118 | `Count`, `Sum`, `Avg` and `WeightedAvg` change nothing: two rounds of them return identical readings, which are the number, the sum and the weighted mean of the present samples |

## Left out

- The `sync.RWMutex` wrappers `synchronizedCore` (core.go:83-115) and `synchronizedSlidingWindow` with `NewSynchronized` (slidingWindow.go:120-169): they only take a lock and delegate, adding no meaning. Locking, goroutines and the concurrent stress test are not modelled; `SameValueOverwrites` checks sum and average after every insertion of one sequential schedule, which covers every point at which a locked reader can observe the window.
- The interfaces `slidingWindowCore` (core.go:5-10) and `SlidingWindow` (slidingWindow.go:7-14): Dafny traits are not used; each class offers the interface's operations directly.
- IEEE floating point: rounding, NaN and infinities are not modelled, since samples are exact reals. The NaN checks on sum and averages in the full-window test (slidingWindow_test.go:79-81) are therefore out; the count, size, cursor and fullness checks after that insertion (lines 72-77) do not depend on the value and are covered by `Scenarios.FullWindowThenAny`. A zero-denominator division in `WeightedAvg` is reported as `DivisionByZero` instead of an infinity or NaN.
- The `nil`-weight fast path (core.go:70-74) is modelled only for its meaning. With `EqualWeight`, `weight` stays 1 and the callback is never called.
- The wrapper API the tests call (`New(size, synchronized)`, `Add`, `AddInt`, `slidingWindowCore`, `PositionalWeight`) is not part of this model. The scenarios call the plain structures instead.
- The benchmarks (slidingWindow_test.go:121-149) are not modelled.
- Go's `int` is 64-bit. `size`, `head` and the loop index never exceed the capacity, so they are modelled as unbounded `int` without wrap-around.
