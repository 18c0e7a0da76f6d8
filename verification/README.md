# Runtime oracle explorer: a Dafny model of its analysis core

The explorer shows how an algorithm's running time grows with its input size.
It has two parts.

- The analysis service generates a synthetic measurement table (`runAlgorithm`).
  - It walks the sizes `n = step, 2·step, …, ≤ maxN`.
  - For each size it computes a theoretical cost from the declared complexity (`n`, `n·log2 n` or `n²`).
  - It multiplies that cost by a noisy factor to get an "empirical" runtime, and forms the ratio of the two.
  - It keeps the largest ratio seen so far, `c1`, and predicts each row's runtime as `c1 · theoreticalRT`.
- The service also classifies a table (`estimateComplexity`).
  - It fits a least-squares line to the points (ln n, ln empiricalRT).
  - It maps the slope to `O(n)`, `O(n log n)` or `O(n²)`.
  - A table with fewer than two rows is reported as "Insufficient data".

The settings form accepts an edit of one field (`handleInputChange`). The
complexity assumption is always written. A numeric field is written only when
its text parses to a positive integer. Every other field is carried over.

The model is made of these modules:

- `Wrappers`: `Option`.
- `JsNumber`: the four kinds of value JavaScript division can produce (finite, +∞, −∞, NaN). It defines `Div`, and the `<` and `>` comparisons, which are false on NaN.
- `RealArith`: the named products (`Square`, `Product`) and the small sign and monotonicity facts the proofs need.
- `LeastSquares`: the regression sums as folds over sequences.
  - It proves that the slope denominator is never negative, and is zero exactly when all abscissae coincide.
  - It proves that least squares recovers the slope of points lying exactly on a line.
- `AlgorithmService`: the generator, as a recursive function (`RunAlgorithm`) and as the source's loop (`RunAlgorithmLoop`), and the estimator.
- `SettingsPanel`: the settings record and its update rule.

`Math.random` is replaced by a sequence of draws, one per emitted row.
`Math.log`, `Math.log2`, `Math.sin` and `Math.exp` are supplied as a `MathFns`
record of functions on reals. The lemmas that need facts about those functions
state them in `HostMath`, for example that sine lies in [−1, 1] and that `log`
is strictly increasing. Arithmetic is exact over `real`.

A fit over rows that all share one size has the slope 0/0 in exact
arithmetic. NaN fails both `slope < 1.2` and `slope < 1.8`, so such a fit is
labelled `O(n²)` (`DegenerateFitIsQuadratic`). In IEEE-754 doubles the
numerator of that quotient can round to a nonzero value, giving ±∞. With three
or more rows the denominator can round to a nonzero value as well, giving a
finite slope. With two rows it cannot: m·Σx² and (Σx)² are then both exactly
four times the rounded x². Both callers (src/pages/Index.tsx:33-44 and
src/pages/AlgorithmAnalyzer.tsx:39-48) pass the rows of a generated run, whose
sizes are distinct.

## Model

| member | source | states |
|---|---|---|
| `AlgorithmService.RunAlgorithm` | src/services/AlgorithmService.ts:11-70 | The run has no rows when maxN < step and ⌊maxN/step⌋ rows otherwise. Row i has size (i+1)·step, with 0 < size ≤ maxN. It carries the theoretical cost, noisy runtime and ratio of its own size and draw. Its prediction is its cost times the largest ratio up to and including it. |
| `AlgorithmService.Rows` | src/services/AlgorithmService.ts:35-65 | The rows emitted from iteration k on: their number is the remaining iteration count, row j has size (k+j+1)·step, and every size lies in (0, maxN]. |
| `AlgorithmService.RunAlgorithmLoop` | src/services/AlgorithmService.ts:21-67 | The imperative loop emits exactly the rows of `RunAlgorithm`. It updates `c1` with `ratio > c1` and appends `{n, theoreticalRT, empiricalRT, ratio, c1·theoreticalRT}`. |
| `AlgorithmService.LoopGuard` | src/services/AlgorithmService.ts:35 | The guard `n ≤ maxN` at the k-th size `(k+1)·step` holds exactly when k is below the iteration count (0 if maxN < step, else ⌊maxN/step⌋). |
| `AlgorithmService.RowMeasured` | src/services/AlgorithmService.ts:37-52 | Each emitted row holds the theoretical cost, runtime and ratio computed for its own size and its own draw. |
| `AlgorithmService.RowPredicted` | src/services/AlgorithmService.ts:54-63 | Each emitted row's prediction is its theoretical cost times the running maximum over the rows up to and including it. |
| `AlgorithmService.SizesCoverRange` | src/services/AlgorithmService.ts:35 | Consecutive sizes differ by exactly `step`. The first size is `step`. The last size is the largest multiple of `step` not above `maxN`. |
| `AlgorithmService.EmptyRunExample` | src/services/AlgorithmService.ts:35 | With maxN = 500 and step = 1000 the loop body never runs. |
| `AlgorithmService.QuadraticRunExample` | src/services/AlgorithmService.ts:25-35 | With maxN = 5000, step = 1000 and `n2`, there are five rows, at sizes 1000…5000, with theoretical costs 10⁶, 4·10⁶, 9·10⁶, 16·10⁶ and 25·10⁶. |
| `AlgorithmService.TheoreticalRTMonotone` | src/services/AlgorithmService.ts:25-31 | Under every tag the theoretical cost is non-negative and non-decreasing in n ≥ 1. |
| `AlgorithmService.TheoreticalRTSign` | src/services/AlgorithmService.ts:25-31 | `n` and `n2` costs are at least n. The `nlogn` cost, and the cost under any unrecognised tag, is positive exactly when log2(n) is positive, and zero exactly when log2(n) is zero. |
| `AlgorithmService.RatioIsScaledNoise` | src/services/AlgorithmService.ts:51-52 | A row's ratio is 0.01 times its noise factor whenever its theoretical cost is nonzero. When the cost is zero, the runtime is 0 and the ratio is NaN (0/0). The ratio is never infinite. |
| `AlgorithmService.NoiseFactorBounds` | src/services/AlgorithmService.ts:40-49 | For a draw in [0, 1), the base factor lies in [0.8, 1.2). An unrecognised tag leaves it unchanged. Under `n` the factor stays ≥ 0.8, under `nlogn` in [0.76, 1.26], and under `n2` in [0.72, 1.2]. |
| `AlgorithmService.DriftBounds` | src/services/AlgorithmService.ts:41-48 | The non-linearity multiplier is ≥ 1 under `n` (n/step ≥ 1), lies in [0.95, 1.05] under `nlogn`, and in [0.9, 1.0] under `n2`. It is exactly 1 under an unrecognised tag. |
| `AlgorithmService.RatioPositive` | src/services/AlgorithmService.ts:40-52 | With draws in [0, 1), every row with a nonzero theoretical cost has a finite, positive ratio. |
| `AlgorithmService.ScaleIsMaximum` | src/services/AlgorithmService.ts:54-56 | The running maximum after some rows is at least its start value and at least every finite ratio among them. It equals either the start value or one of those ratios. |
| `AlgorithmService.ScaleAppend` | src/services/AlgorithmService.ts:54-56 | Folding the maximum over `a + b` is folding it over `a` and then over `b`. |
| `AlgorithmService.ScaleNeverDecreases` | src/services/AlgorithmService.ts:54-63 | The scale factor used for predictions never decreases from one row to a later one. |
| `AlgorithmService.PredictedNeverDecreases` | src/services/AlgorithmService.ts:54-63 | Along a run the predictions are non-negative and non-decreasing. |
| `AlgorithmService.Classify` | src/services/AlgorithmService.ts:93-99 | Exact if-and-only-if characterisation of each label in terms of the slope. `O(n)` ⇔ a finite slope < 1.2 or −∞. `O(n log n)` ⇔ a finite slope in [1.2, 1.8). `O(n²)` ⇔ a finite slope ≥ 1.8, +∞ or NaN. |
| `AlgorithmService.EstimateComplexity` | src/services/AlgorithmService.ts:72-100 | The result is always one of the four labels. It is "Insufficient data" exactly when there are fewer than two rows. |
| `AlgorithmService.DegenerateFitIsQuadratic` | src/services/AlgorithmService.ts:84-99 | In exact arithmetic, at least two rows that all share one size give the slope 0/0. NaN is classified `O(n²)`. |
| `AlgorithmService.RuntimesPositive` | src/services/AlgorithmService.ts:25-51 | With draws in [0, 1), every runtime of a run is positive, so `Math.log` at :81 gets a positive argument. This needs step ≥ 2 or the `n`/`n2` tag; otherwise size 1 has n·log2(n) = 0. |
| `AlgorithmService.GeneratedFitIsFinite` | src/services/AlgorithmService.ts:76-99 | Take a generated run with at least two rows and draws in [0, 1), under step ≥ 2 or the `n`/`n2` tag. Every runtime is positive, and the slope denominator is positive. The slope is a finite number, and the label is the threshold classification of it. |
| `AlgorithmService.SlopeOfLine` | src/services/AlgorithmService.ts:84-90 | Over at least two distinct abscissae, points on y = k·x + b have slope exactly k. |
| `AlgorithmService.PowerLawIsClassified` | src/services/AlgorithmService.ts:72-99 | Suppose ln empiricalRT = k·ln n + b on every row, over two distinct sizes. Then the estimator's slope is exactly k, and the label is the one the thresholds assign to k. |
| `LeastSquares.SpreadZeroIffConstant` | src/services/AlgorithmService.ts:88-90 | The denominator m·Σx² − (Σx)² is never negative, and is zero exactly when all abscissae are equal. |
| `LeastSquares.CoSpreadZeroWhenConstant` | src/services/AlgorithmService.ts:85-90 | Over a constant abscissa the numerator m·Σxy − Σx·Σy is zero too. |
| `LeastSquares.CoSpreadOfLine` | src/services/AlgorithmService.ts:85-90 | For points on y = k·x + b, the numerator is k times the denominator. |
| `LeastSquares.LineSum` | src/services/AlgorithmService.ts:86 | For points on y = k·x + b, Σy = k·Σx + m·b. |
| `LeastSquares.LineSumProducts` | src/services/AlgorithmService.ts:87 | For points on y = k·x + b, Σxy = k·Σx² + b·Σx. |
| `LeastSquares.AllOnLinePointwise` | src/services/AlgorithmService.ts:84-90 | The front-to-back statement "every point lies on the line" is the pointwise one. |
| `LeastSquares.SquaredDeviationNonNegative` | src/services/AlgorithmService.ts:88-90 | Σ(x − a)² is non-negative, and is zero exactly when every x equals a. |
| `LeastSquares.SquaredDeviationExpands` | src/services/AlgorithmService.ts:88 | Σ(x − a)² = m·a² − 2a·Σx + Σx². |
| `LeastSquares.SpreadStep` | src/services/AlgorithmService.ts:88-90 | Adding a point in front raises the denominator by the others' squared deviation from it. |
| `JsNumber.Div` | src/services/AlgorithmService.ts:52 | JavaScript division: a finite quotient q with q·b = a exactly when b ≠ 0. Otherwise +∞ for a > 0, −∞ for a < 0, and NaN for 0/0. |
| `SettingsPanel.HandleInputChange` | src/components/SettingsPanel.tsx:31-40 | The complexity key is always written with the given value. A numeric key is written exactly when the parse succeeds with a value > 0, and then holds that value. No other field changes. Positive sizes stay positive. |
| `SettingsPanel.SettingsAfter` | src/components/SettingsPanel.tsx:35-38 | A rejected numeric edit leaves the settings as they were. Positive sizes stay positive after any edit. |

## Left out

- The `setTimeout`/`Promise` wrapper of `runAlgorithm` (src/services/AlgorithmService.ts:18-20, 68) only delays the result. The model returns the rows directly.
- `Math.random` is replaced by a sequence of draws, one per row. The lemmas that need it assume the draws lie in [0, 1).
- `Math.log`, `Math.log2`, `Math.sin` and `Math.exp` are not computed. They are parameters, constrained only by the `HostMath` facts a lemma asks for. Concrete labels on concrete data therefore depend on them and are not derived.
- IEEE-754 rounding, overflow and the left-to-right evaluation order of the sums are not modelled: arithmetic is exact over `real`. Division by zero is the only floating-point behaviour kept.
- `LogSizes`, `LogRuntimes`: `Math.log` of 0 or of a negative number (−∞ or NaN in JavaScript) is the supplied function's real value, not an infinity or NaN.
  - A runtime of 0 arises only where the theoretical cost is 0 (see `RatioIsScaledNoise`). That happens at step 1 under `nlogn` (the default tag) or an unrecognised tag, where size 1 costs 1·log2(1) = 0.
  - In the program such a run with two or more rows (maxN ≥ 2) always has a NaN slope, because `0 · −∞` is NaN at :87, so it is labelled `O(n²)`. The model does not reproduce this. A one-row run (maxN = 1) stops at :73 with "Insufficient data" and never takes the logarithm.
  - `GeneratedFitIsFinite` therefore excludes this case, and `RuntimesPositive` shows that outside it every logarithm's argument is positive.
- `RunAlgorithm` requires `step > 0` and integer sizes. All the program's callers meet this, since `handleInputChange` only accepts positive integers (`SettingsAfter`). The source loop at src/services/AlgorithmService.ts:35 never terminates when step ≤ 0 ≤ maxN (for example step = 0, maxN = 10000); the model does not describe that run.
- The `!results` guard of `estimateComplexity` is not modelled: a Dafny sequence is never null or undefined.
- `algorithmCode` and `runs` are accepted by `RunAlgorithm` and ignored, as in the source.
- `parseInt` is not reimplemented. Its result is an `Option<int>` argument of `HandleInputChange`, with `None` standing for NaN.
- The `min`/`max` attributes of the number inputs (src/components/SettingsPanel.tsx:54, 64, 74-75) are browser hints that the handler does not enforce, so they are not part of the update rule.
- The React rendering, the pages, the chart, the results table, the code editor, the icons and the algorithm templates have no algorithmic content.
