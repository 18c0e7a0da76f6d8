/** The analysis service: the synthetic sample generator (`runAlgorithm`) and
    the log-log complexity estimator (`estimateComplexity`).

    `Math.random` becomes a sequence of draws, one per emitted row, and the
    host's `Math.log`, `Math.log2`, `Math.sin` and `Math.exp` are supplied as a
    `MathFns` record of otherwise unconstrained functions. Numbers are exact
    reals; the only IEEE-754 behaviour kept is what division by zero yields. */
module AlgorithmService {
  import opened JsNumber
  import opened RealArith
  import opened LeastSquares

  /** The host's transcendental functions: natural log, base-2 log, sine, exponential. */
  datatype MathFns = MathFns(log: real -> real, log2: real -> real, sin: real -> real, exp: real -> real)

  /** `Math.PI`. */
  const PI: real := 3.141592653589793

  /** One row of the result table. `ratio` is a JavaScript number because the
      generator can divide 0 by 0. */
  datatype ResultData = ResultData(n: int, theoreticalRT: real, empiricalRT: real, ratio: Number, predictedRT: real)

  /** Facts the real Math library satisfies; only the lemmas that need them ask for them. */
  ghost predicate HostMath(m: MathFns)
  {
    (forall x :: -1.0 <= m.sin(x) <= 1.0)
    && (forall x :: x <= 0.0 ==> 0.0 < m.exp(x) <= 1.0)
    && (forall x :: 1.0 <= x ==> 0.0 <= m.log(x))
    && (forall x, y :: 0.0 < x < y ==> m.log(x) < m.log(y))
    && (forall x, y :: 1.0 <= x <= y ==> 0.0 <= m.log2(x) <= m.log2(y))
    && (forall x :: 1.0 < x ==> 0.0 < m.log2(x))
  }

  // ---------------------------------------------------------------------------
  // One iteration of the generator loop
  // ---------------------------------------------------------------------------

  /** The closed-form cost of the declared complexity at size `n`; an
      unrecognised tag falls back to the n·log2(n) formula. */
  function TheoreticalRT(complexityType: string, m: MathFns, n: int): real
  {
    if complexityType == "n" then n as real
    else if complexityType == "nlogn" then n as real * m.log2(n as real)
    else if complexityType == "n2" then (n as real) * (n as real)
    else n as real * m.log2(n as real)
  }

  /** The uniform part of the noise, `0.8 + Math.random() * 0.4`. */
  function BaseNoise(draw: real): real
  {
    0.8 + draw * 0.4
  }

  /** The drift multiplier that depends on the declared complexity; no drift
      for an unrecognised tag. */
  function Drift(complexityType: string, m: MathFns, maxN: int, step: int, n: int): real
    requires step > 0 && maxN > 0
  {
    if complexityType == "n" then 1.0 + 0.1 * m.log(n as real / step as real)
    else if complexityType == "nlogn" then 1.0 + 0.05 * m.sin(n as real / maxN as real * PI)
    else if complexityType == "n2" then 1.0 - 0.1 * m.exp(-(n as real) / maxN as real)
    else 1.0
  }

  /** `randomFactor` after both of its assignments. */
  function NoiseFactor(complexityType: string, m: MathFns, maxN: int, step: int, n: int, draw: real): real
    requires step > 0 && maxN > 0
  {
    BaseNoise(draw) * Drift(complexityType, m, maxN, step, n)
  }

  /** `if (ratio > c1) c1 = ratio`. A NaN ratio never replaces the running
      maximum; an infinite ratio cannot arise (see `RatioIsScaledNoise`). */
  function Bump(c1: real, ratio: Number): real
  {
    if ratio.Finite? && Greater(ratio, c1) then ratio.v else c1
  }

  /** The running maximum `c1` after the rows `rows` have been folded into `c`. */
  function Scale(c: real, rows: seq<ResultData>): real
  {
    if |rows| == 0 then c else Bump(Scale(c, rows[..|rows| - 1]), rows[|rows| - 1].ratio)
  }

  /** The three numbers one loop iteration computes before it looks at `c1`. */
  datatype Measurement = Measurement(theoreticalRT: real, empiricalRT: real, ratio: Number)

  /** One iteration's `theoreticalRT`, `empiricalRT` and `ratio` for size `n` and draw `draw`. */
  function Measure(complexityType: string, m: MathFns, maxN: int, step: int, n: int, draw: real): Measurement
    requires step > 0 && maxN > 0
  {
    var theoreticalRT := TheoreticalRT(complexityType, m, n);
    var empiricalRT := theoreticalRT * NoiseFactor(complexityType, m, maxN, step, n, draw) * 0.01;
    Measurement(theoreticalRT, empiricalRT, Div(empiricalRT, theoreticalRT))
  }

  /** `row` holds what one loop iteration computes for its size and its draw. */
  predicate Measured(complexityType: string, m: MathFns, maxN: int, step: int, draw: real, row: ResultData)
    requires step > 0 && maxN > 0
  {
    Measure(complexityType, m, maxN, step, row.n, draw) == Measurement(row.theoreticalRT, row.empiricalRT, row.ratio)
  }

  // ---------------------------------------------------------------------------
  // The generator loop
  // ---------------------------------------------------------------------------

  /** How many times `for (n = step; n <= maxN; n += step)` runs its body. */
  function SampleCount(maxN: int, step: int): nat
    requires step > 0
  {
    if maxN < step then 0 else maxN / step
  }

  lemma IntMultiplyMonotone(a: int, b: int, c: int)
    requires a <= b && c >= 0
    ensures a * c <= b * c
  {
  }

  lemma NextMultiple(k: int, step: int)
    ensures (k + 2) * step == (k + 1) * step + step
  {
  }

  /** The loop guard holds at iteration `k` (size `(k+1)·step`) exactly when `k`
      is below the sample count. */
  lemma LoopGuard(maxN: int, step: int, k: nat)
    requires step > 0
    ensures (k + 1) * step <= maxN <==> k < SampleCount(maxN, step)
  {
    if maxN < step {
      IntMultiplyMonotone(1, k + 1, step);
    } else {
      var q, r := maxN / step, maxN % step;
      assert maxN == q * step + r && 0 <= r < step;
      if k < q {
        IntMultiplyMonotone(k + 1, q, step);
      } else {
        IntMultiplyMonotone(q + 1, k + 1, step);
      }
    }
  }

  /** The rows the loop emits from its `k`-th iteration on, entered with running
      maximum `c1`. */
  function Rows(complexityType: string, m: MathFns, maxN: int, step: int, draws: seq<real>, k: nat, c1: real): (rows: seq<ResultData>)
    requires step > 0
    requires k <= SampleCount(maxN, step) <= |draws|
    decreases SampleCount(maxN, step) - k
    ensures |rows| == SampleCount(maxN, step) - k
    ensures forall j :: 0 <= j < |rows| ==> rows[j].n == (k + j + 1) * step
    ensures forall j :: 0 <= j < |rows| ==> 0 < rows[j].n <= maxN
  {
    var n := (k + 1) * step;
    LoopGuard(maxN, step, k);
    if n > maxN then
      []
    else
      IntMultiplyMonotone(1, k + 1, step);
      var me := Measure(complexityType, m, maxN, step, n, draws[k]);
      var c := Bump(c1, me.ratio);
      var row := ResultData(n, me.theoreticalRT, me.empiricalRT, me.ratio, Product(c, me.theoreticalRT));
      [row] + Rows(complexityType, m, maxN, step, draws, k + 1, c)
  }

  /** Iteration `k` of the loop, when its guard holds, emits one row built
      from its measurement and the updated maximum, and hands that maximum on. */
  lemma RowsStep(complexityType: string, m: MathFns, maxN: int, step: int, draws: seq<real>, k: nat, c1: real)
    requires step > 0
    requires k < SampleCount(maxN, step) <= |draws|
    ensures var n := (k + 1) * step;
      var me := Measure(complexityType, m, maxN, step, n, draws[k]);
      var c := Bump(c1, me.ratio);
      Rows(complexityType, m, maxN, step, draws, k, c1)
        == [ResultData(n, me.theoreticalRT, me.empiricalRT, me.ratio, Product(c, me.theoreticalRT))]
           + Rows(complexityType, m, maxN, step, draws, k + 1, c)
  {
    LoopGuard(maxN, step, k);
    IntMultiplyMonotone(1, k + 1, step);
  }

  /** `RowsStep` with the rows already emitted in front: one iteration moves
      one row from the rows still to come to the rows emitted. */
  lemma LoopStep(results: seq<ResultData>, complexityType: string, m: MathFns, maxN: int, step: int, draws: seq<real>, k: nat, c1: real)
    requires step > 0
    requires k < SampleCount(maxN, step) <= |draws|
    ensures var n := (k + 1) * step;
      var me := Measure(complexityType, m, maxN, step, n, draws[k]);
      var c := Bump(c1, me.ratio);
      results + Rows(complexityType, m, maxN, step, draws, k, c1)
        == (results + [ResultData(n, me.theoreticalRT, me.empiricalRT, me.ratio, Product(c, me.theoreticalRT))])
           + Rows(complexityType, m, maxN, step, draws, k + 1, c)
  {
    RowsStep(complexityType, m, maxN, step, draws, k, c1);
    var rows := Rows(complexityType, m, maxN, step, draws, k, c1);
    assert results + rows == (results + [rows[0]]) + rows[1..];
  }

  /** The `j`-th row emitted from iteration `k` on holds the measurement of its
      own size and draw. */
  lemma {:induction false} RowMeasured(complexityType: string, m: MathFns, maxN: int, step: int, draws: seq<real>, k: nat, c1: real, j: nat)
    requires step > 0
    requires k <= SampleCount(maxN, step) <= |draws|
    requires j < SampleCount(maxN, step) - k
    ensures Measured(complexityType, m, maxN, step, draws[k + j], Rows(complexityType, m, maxN, step, draws, k, c1)[j])
    decreases j
  {
    RowsStep(complexityType, m, maxN, step, draws, k, c1);
    if j > 0 {
      var me := Measure(complexityType, m, maxN, step, (k + 1) * step, draws[k]);
      RowMeasured(complexityType, m, maxN, step, draws, k + 1, Bump(c1, me.ratio), j - 1);
    }
  }

  /** The `j`-th row emitted from iteration `k` on predicts its theoretical
      cost scaled by the running maximum over the rows up to and including it. */
  lemma {:induction false} RowPredicted(complexityType: string, m: MathFns, maxN: int, step: int, draws: seq<real>, k: nat, c1: real, j: nat)
    requires step > 0
    requires k <= SampleCount(maxN, step) <= |draws|
    requires j < SampleCount(maxN, step) - k
    ensures var rows := Rows(complexityType, m, maxN, step, draws, k, c1);
      rows[j].predictedRT == Product(Scale(c1, rows[..j + 1]), rows[j].theoreticalRT)
    decreases j
  {
    RowsStep(complexityType, m, maxN, step, draws, k, c1);
    var me := Measure(complexityType, m, maxN, step, (k + 1) * step, draws[k]);
    var c := Bump(c1, me.ratio);
    var rows := Rows(complexityType, m, maxN, step, draws, k, c1);
    var rest := Rows(complexityType, m, maxN, step, draws, k + 1, c);
    assert rows[..j + 1] == [rows[0]] + rest[..j];
    ScaleAppend(c1, [rows[0]], rest[..j]);
    assert [rows[0]][..0] == [];
    if j > 0 {
      RowPredicted(complexityType, m, maxN, step, draws, k + 1, c, j - 1);
      assert rest[..j] == rest[..(j - 1) + 1];
    }
  }

  /** `RowMeasured` and `RowPredicted` for every row of the whole run. */
  lemma RowsFromStart(complexityType: string, m: MathFns, maxN: int, step: int, draws: seq<real>)
    requires step > 0
    requires SampleCount(maxN, step) <= |draws|
    ensures var rows := Rows(complexityType, m, maxN, step, draws, 0, 0.0);
      (forall i :: 0 <= i < |rows| ==> Measured(complexityType, m, maxN, step, draws[i], rows[i]))
      && (forall i :: 0 <= i < |rows| ==> rows[i].predictedRT == Product(Scale(0.0, rows[..i + 1]), rows[i].theoreticalRT))
  {
    var rows := Rows(complexityType, m, maxN, step, draws, 0, 0.0);
    forall i | 0 <= i < |rows|
      ensures Measured(complexityType, m, maxN, step, draws[i], rows[i])
      ensures rows[i].predictedRT == Product(Scale(0.0, rows[..i + 1]), rows[i].theoreticalRT)
    {
      RowMeasured(complexityType, m, maxN, step, draws, 0, 0.0, i);
      RowPredicted(complexityType, m, maxN, step, draws, 0, 0.0, i);
    }
  }

  /** `runAlgorithm`: the sizes step, 2·step, … up to maxN, each with its
      theoretical cost, noisy measurement, ratio and prediction scaled by the
      largest ratio seen so far. `algorithmCode` and `runs` do not influence
      the rows. */
  function RunAlgorithm(algorithmCode: string, maxN: int, step: int, runs: int, complexityType: string, m: MathFns, draws: seq<real>): (results: seq<ResultData>)
    requires step > 0
    requires |draws| >= SampleCount(maxN, step)
    ensures maxN < step ==> results == []
    ensures maxN >= step ==> |results| == maxN / step
    ensures forall i :: 0 <= i < |results| ==> results[i].n == (i + 1) * step
    ensures forall i :: 0 <= i < |results| ==> 0 < results[i].n <= maxN
    ensures forall i :: 0 <= i < |results| ==> Measured(complexityType, m, maxN, step, draws[i], results[i])
    ensures forall i :: 0 <= i < |results| ==> results[i].predictedRT == Product(Scale(0.0, results[..i + 1]), results[i].theoreticalRT)
  {
    RowsFromStart(complexityType, m, maxN, step, draws);
    Rows(complexityType, m, maxN, step, draws, 0, 0.0)
  }

  /** The same rows computed by the source's imperative loop, with `c1` kept
      in a variable. */
  method RunAlgorithmLoop(algorithmCode: string, maxN: int, step: int, runs: int, complexityType: string, m: MathFns, draws: seq<real>)
    returns (results: seq<ResultData>)
    requires step > 0
    requires |draws| >= SampleCount(maxN, step)
    ensures results == RunAlgorithm(algorithmCode, maxN, step, runs, complexityType, m, draws)
  {
    results := [];
    var c1 := 0.0;
    var n := step;
    var k := 0;
    while n <= maxN
      invariant n == (k + 1) * step
      invariant k <= SampleCount(maxN, step)
      invariant results + Rows(complexityType, m, maxN, step, draws, k, c1) == Rows(complexityType, m, maxN, step, draws, 0, 0.0)
      decreases SampleCount(maxN, step) - k
    {
      LoopGuard(maxN, step, k);
      LoopStep(results, complexityType, m, maxN, step, draws, k, c1);
      var Measurement(theoreticalRT, empiricalRT, ratio) := Measure(complexityType, m, maxN, step, n, draws[k]);
      if ratio.Finite? && Greater(ratio, c1) {
        c1 := ratio.v;
      }
      var row := ResultData(n, theoreticalRT, empiricalRT, ratio, Product(c1, theoreticalRT));
      results := results + [row];
      NextMultiple(k, step);
      n := n + step;
      k := k + 1;
    }
    LoopGuard(maxN, step, k);
  }

  // ---------------------------------------------------------------------------
  // The running maximum
  // ---------------------------------------------------------------------------

  /** Folding `a + b` is folding `a` and then `b`. */
  lemma {:induction false} ScaleAppend(c: real, a: seq<ResultData>, b: seq<ResultData>)
    ensures Scale(c, a + b) == Scale(Scale(c, a), b)
    decreases |b|
  {
    if |b| == 0 {
      assert a + b == a;
    } else {
      var b' := b[..|b| - 1];
      assert (a + b)[..|a + b| - 1] == a + b';
      ScaleAppend(c, a, b');
    }
  }

  /** `Scale(c, rows)` is the maximum of `c` and of the finite ratios in `rows`:
      it bounds them all and is one of them. */
  lemma {:induction false} ScaleIsMaximum(c: real, rows: seq<ResultData>)
    ensures Scale(c, rows) >= c
    ensures forall i :: 0 <= i < |rows| && rows[i].ratio.Finite? ==> rows[i].ratio.v <= Scale(c, rows)
    ensures Scale(c, rows) == c || exists i :: 0 <= i < |rows| && rows[i].ratio == Finite(Scale(c, rows))
    decreases |rows|
  {
    if |rows| > 0 {
      var init := rows[..|rows| - 1];
      ScaleIsMaximum(c, init);
      forall i | 0 <= i < |rows| && rows[i].ratio.Finite?
        ensures rows[i].ratio.v <= Scale(c, rows)
      {
        if i < |rows| - 1 {
          assert rows[i] == init[i];
        }
      }
      if Scale(c, rows) != c && Scale(c, rows) == Scale(c, init) {
        var i :| 0 <= i < |init| && init[i].ratio == Finite(Scale(c, init));
        assert rows[i] == init[i];
      }
    }
  }

  /** The scale factor used for predictions never decreases from row to row. */
  lemma {:induction false} ScaleNeverDecreases(c: real, rows: seq<ResultData>, i: nat, j: nat)
    requires i <= j <= |rows|
    ensures Scale(c, rows[..i]) <= Scale(c, rows[..j])
    decreases j - i
  {
    if i < j {
      ScaleNeverDecreases(c, rows, i, j - 1);
      assert rows[..j][..j - 1] == rows[..j - 1];
    }
  }

  // ---------------------------------------------------------------------------
  // Properties of one run
  // ---------------------------------------------------------------------------

  /** The sizes are step, 2·step, …, evenly spaced, and the last one is the
      largest multiple of `step` that does not exceed `maxN`. */
  lemma SizesCoverRange(algorithmCode: string, maxN: int, step: int, runs: int, complexityType: string, m: MathFns, draws: seq<real>)
    requires step > 0
    requires |draws| >= SampleCount(maxN, step)
    ensures var results := RunAlgorithm(algorithmCode, maxN, step, runs, complexityType, m, draws);
      (forall i :: 0 <= i < |results| - 1 ==> results[i + 1].n == results[i].n + step)
      && (|results| > 0 ==> results[0].n == step && maxN < results[|results| - 1].n + step)
  {
    var results := RunAlgorithm(algorithmCode, maxN, step, runs, complexityType, m, draws);
    forall i | 0 <= i < |results| - 1
      ensures results[i + 1].n == results[i].n + step
    {
      NextMultiple(i, step);
    }
    if |results| > 0 {
      var last := |results| - 1;
      LoopGuard(maxN, step, |results|);
      NextMultiple(last, step);
      assert results[last].n + step == (|results| + 1) * step;
    }
  }

  /** A row's ratio is its noise factor scaled by 0.01 whenever its theoretical
      cost is nonzero, and NaN (0/0) otherwise; it is never infinite. */
  lemma RatioIsScaledNoise(complexityType: string, m: MathFns, maxN: int, step: int, draw: real, row: ResultData)
    requires step > 0 && maxN > 0
    requires Measured(complexityType, m, maxN, step, draw, row)
    ensures row.theoreticalRT != 0.0 ==> row.ratio == Finite(NoiseFactor(complexityType, m, maxN, step, row.n, draw) * 0.01)
    ensures row.theoreticalRT == 0.0 ==> row.ratio == NaN && row.empiricalRT == 0.0
    ensures !row.ratio.PosInf? && !row.ratio.NegInf?
  {
  }

  /** The noise factor: the uniform part lies in [0.8, 1.2), and each drift
      multiplier moves it only within the bounds the Math library allows. */
  lemma NoiseFactorBounds(complexityType: string, m: MathFns, maxN: int, step: int, n: int, draw: real)
    requires 0 < step <= n <= maxN
    requires 0.0 <= draw < 1.0
    requires HostMath(m)
    ensures 0.8 <= BaseNoise(draw) < 1.2
    ensures complexityType !in {"n", "nlogn", "n2"} ==> NoiseFactor(complexityType, m, maxN, step, n, draw) == BaseNoise(draw)
    ensures complexityType == "n" ==> 0.8 <= NoiseFactor(complexityType, m, maxN, step, n, draw)
    ensures complexityType == "nlogn" ==> 0.76 <= NoiseFactor(complexityType, m, maxN, step, n, draw) <= 1.26
    ensures complexityType == "n2" ==> 0.72 <= NoiseFactor(complexityType, m, maxN, step, n, draw) <= 1.2
  {
    var b := BaseNoise(draw);
    var d := Drift(complexityType, m, maxN, step, n);
    DriftBounds(complexityType, m, maxN, step, n);
    assert NoiseFactor(complexityType, m, maxN, step, n, draw) == Product(b, d);
    if complexityType == "n" {
      ProductMonotone(0.8, b, 1.0, d);
    } else if complexityType == "nlogn" {
      ProductMonotone(0.8, b, 0.95, d);
      ProductMonotone(b, 1.2, d, 1.05);
    } else if complexityType == "n2" {
      ProductMonotone(0.8, b, 0.9, d);
      ProductMonotone(b, 1.2, d, 1.0);
    }
  }

  /** The drift factor's range under each tag, from the sign of `log` above 1,
      the range of `sin` and the range of `exp` on non-positive arguments. */
  lemma DriftBounds(complexityType: string, m: MathFns, maxN: int, step: int, n: int)
    requires 0 < step <= n <= maxN
    requires HostMath(m)
    ensures complexityType !in {"n", "nlogn", "n2"} ==> Drift(complexityType, m, maxN, step, n) == 1.0
    ensures complexityType == "n" ==> 1.0 <= Drift(complexityType, m, maxN, step, n)
    ensures complexityType == "nlogn" ==> 0.95 <= Drift(complexityType, m, maxN, step, n) <= 1.05
    ensures complexityType == "n2" ==> 0.9 <= Drift(complexityType, m, maxN, step, n) <= 1.0
  {
    if complexityType == "n" {
      assert n as real / step as real >= 1.0;
    } else if complexityType == "n2" {
      assert -(n as real) / maxN as real <= 0.0;
    }
  }

  /** Under every declared complexity the theoretical cost is non-negative and
      grows with `n`. */
  lemma TheoreticalRTMonotone(complexityType: string, m: MathFns, n1: int, n2: int)
    requires 1 <= n1 <= n2
    requires HostMath(m)
    ensures 0.0 <= TheoreticalRT(complexityType, m, n1) <= TheoreticalRT(complexityType, m, n2)
  {
    var x1, x2 := n1 as real, n2 as real;
    if complexityType == "n2" {
      ProductMonotone(x1, x2, x1, x2);
      ProductNonNegative(x1, x1);
    } else if complexityType != "n" {
      ProductMonotone(x1, x2, m.log2(x1), m.log2(x2));
      ProductNonNegative(x1, m.log2(x1));
    }
  }

  /** The linear and quadratic costs are at least `n`; the n·log2(n) cost is
      positive exactly when log2(n) is, so it is 0 at n = 1, where the row's
      ratio becomes 0/0. */
  lemma TheoreticalRTSign(complexityType: string, m: MathFns, n: int)
    requires n >= 1
    requires HostMath(m)
    ensures complexityType in {"n", "n2"} ==> TheoreticalRT(complexityType, m, n) >= n as real
    ensures complexityType !in {"n", "n2"} ==>
      (TheoreticalRT(complexityType, m, n) > 0.0 <==> m.log2(n as real) > 0.0)
      && (TheoreticalRT(complexityType, m, n) == 0.0 <==> m.log2(n as real) == 0.0)
  {
    var x := n as real;
    if complexityType == "n2" {
      ProductMonotone(1.0, x, x, x);
      assert Product(x, x) == x * x;
    } else if complexityType != "n" {
      assert 0.0 <= m.log2(1.0) <= m.log2(x);
      if m.log2(x) > 0.0 {
        ProductPositive(x, m.log2(x));
      }
      assert m.log2(x) == 0.0 ==> TheoreticalRT(complexityType, m, n) == 0.0;
    }
  }

  /** Every row with a nonzero theoretical cost has a finite, positive ratio,
      when the draws are in [0, 1) as `Math.random` returns them. */
  lemma RatioPositive(algorithmCode: string, maxN: int, step: int, runs: int, complexityType: string, m: MathFns, draws: seq<real>)
    requires step > 0
    requires |draws| >= SampleCount(maxN, step)
    requires forall i :: 0 <= i < |draws| ==> 0.0 <= draws[i] < 1.0
    requires HostMath(m)
    ensures var results := RunAlgorithm(algorithmCode, maxN, step, runs, complexityType, m, draws);
      forall i :: 0 <= i < |results| && results[i].theoreticalRT != 0.0 ==>
        results[i].ratio.Finite? && results[i].ratio.v > 0.0
  {
    var results := RunAlgorithm(algorithmCode, maxN, step, runs, complexityType, m, draws);
    forall i | 0 <= i < |results| && results[i].theoreticalRT != 0.0
      ensures results[i].ratio.Finite? && results[i].ratio.v > 0.0
    {
      var row := results[i];
      IntMultiplyMonotone(1, i + 1, step);
      assert 0 < step <= row.n <= maxN;
      assert Measured(complexityType, m, maxN, step, draws[i], row);
      RatioIsScaledNoise(complexityType, m, maxN, step, draws[i], row);
      NoiseFactorBounds(complexityType, m, maxN, step, row.n, draws[i]);
    }
  }

  /** A concrete quadratic run: maxN = 5000 and step = 1000 give five rows at
      n = 1000, …, 5000 whose theoretical costs are n². */
  lemma QuadraticRunExample(algorithmCode: string, runs: int, m: MathFns, draws: seq<real>)
    requires |draws| >= 5
    ensures var results := RunAlgorithm(algorithmCode, 5000, 1000, runs, "n2", m, draws);
      |results| == 5
      && results[0].n == 1000 && results[0].theoreticalRT == 1000000.0
      && results[1].n == 2000 && results[1].theoreticalRT == 4000000.0
      && results[2].n == 3000 && results[2].theoreticalRT == 9000000.0
      && results[3].n == 4000 && results[3].theoreticalRT == 16000000.0
      && results[4].n == 5000 && results[4].theoreticalRT == 25000000.0
  {
    var results := RunAlgorithm(algorithmCode, 5000, 1000, runs, "n2", m, draws);
    assert |results| == 5;
    assert results[0].n == 1000 && Measured("n2", m, 5000, 1000, draws[0], results[0]);
    assert results[1].n == 2000 && Measured("n2", m, 5000, 1000, draws[1], results[1]);
    assert results[2].n == 3000 && Measured("n2", m, 5000, 1000, draws[2], results[2]);
    assert results[3].n == 4000 && Measured("n2", m, 5000, 1000, draws[3], results[3]);
    assert results[4].n == 5000 && Measured("n2", m, 5000, 1000, draws[4], results[4]);
  }

  /** A maximum size below the step gives no rows at all. */
  lemma EmptyRunExample(algorithmCode: string, runs: int, complexityType: string, m: MathFns, draws: seq<real>)
    ensures RunAlgorithm(algorithmCode, 500, 1000, runs, complexityType, m, draws) == []
  {
  }

  /** `predictedRT` never decreases along a run: both the running maximum and
      the theoretical cost are non-decreasing and non-negative. */
  lemma PredictedNeverDecreases(algorithmCode: string, maxN: int, step: int, runs: int, complexityType: string, m: MathFns, draws: seq<real>, i: nat, j: nat)
    requires step > 0
    requires |draws| >= SampleCount(maxN, step)
    requires HostMath(m)
    requires i <= j < |RunAlgorithm(algorithmCode, maxN, step, runs, complexityType, m, draws)|
    ensures var results := RunAlgorithm(algorithmCode, maxN, step, runs, complexityType, m, draws);
      0.0 <= results[i].predictedRT <= results[j].predictedRT
  {
    var results := RunAlgorithm(algorithmCode, maxN, step, runs, complexityType, m, draws);
    var ri, rj := results[i], results[j];
    IntMultiplyMonotone(i + 1, j + 1, step);
    assert 1 <= ri.n <= rj.n;
    assert Measured(complexityType, m, maxN, step, draws[i], ri);
    assert Measured(complexityType, m, maxN, step, draws[j], rj);
    TheoreticalRTMonotone(complexityType, m, ri.n, rj.n);
    var si, sj := Scale(0.0, results[..i + 1]), Scale(0.0, results[..j + 1]);
    ScaleNeverDecreases(0.0, results, i + 1, j + 1);
    ScaleIsMaximum(0.0, results[..i + 1]);
    ProductMonotone(si, sj, ri.theoreticalRT, rj.theoreticalRT);
    ProductNonNegative(si, ri.theoreticalRT);
  }

  // ---------------------------------------------------------------------------
  // The complexity estimator
  // ---------------------------------------------------------------------------

  const InsufficientData: string := "Insufficient data"
  const LinearLabel: string := "O(n)"
  const LinearithmicLabel: string := "O(n log n)"
  const QuadraticLabel: string := "O(n²)"

  /** ln n for every row. */
  function LogSizes(results: seq<ResultData>, m: MathFns): (xs: seq<real>)
  {
    seq(|results|, i requires 0 <= i < |results| => m.log(results[i].n as real))
  }

  /** ln empiricalRT for every row. */
  function LogRuntimes(results: seq<ResultData>, m: MathFns): (ys: seq<real>)
  {
    seq(|results|, i requires 0 <= i < |results| => m.log(results[i].empiricalRT))
  }

  /** The least-squares slope of ys against xs, as the JavaScript division yields it. */
  function Slope(xs: seq<real>, ys: seq<real>): Number
    requires |xs| == |ys|
  {
    Div(CoSpread(xs, ys), Spread(xs))
  }

  /** The threshold classifier; comparisons with NaN are false, so a NaN slope
      falls through to the last branch. */
  function Classify(slope: Number): (estimate: string)
    ensures estimate == LinearLabel <==> (slope.Finite? && slope.v < 1.2) || slope.NegInf?
    ensures estimate == LinearithmicLabel <==> slope.Finite? && 1.2 <= slope.v < 1.8
    ensures estimate == QuadraticLabel <==> (slope.Finite? && 1.8 <= slope.v) || slope.PosInf? || slope.NaN?
  {
    if Less(slope, 1.2) then LinearLabel
    else if Less(slope, 1.8) then LinearithmicLabel
    else QuadraticLabel
  }

  /** `estimateComplexity`: fewer than two rows are reported as insufficient;
      otherwise the log-log slope is classified. */
  function EstimateComplexity(results: seq<ResultData>, m: MathFns): (estimate: string)
    ensures estimate in {InsufficientData, LinearLabel, LinearithmicLabel, QuadraticLabel}
    ensures estimate == InsufficientData <==> |results| < 2
  {
    if |results| < 2 then InsufficientData
    else Classify(Slope(LogSizes(results, m), LogRuntimes(results, m)))
  }

  /** When every row has the same size the slope is 0/0 = NaN, and the NaN
      falls through the thresholds to the quadratic label. */
  lemma DegenerateFitIsQuadratic(results: seq<ResultData>, m: MathFns)
    requires |results| >= 2
    requires forall i :: 0 <= i < |results| ==> results[i].n == results[0].n
    ensures EstimateComplexity(results, m) == QuadraticLabel
  {
    var xs, ys := LogSizes(results, m), LogRuntimes(results, m);
    assert Constant(xs);
    SpreadZeroIffConstant(xs);
    CoSpreadZeroWhenConstant(xs, ys);
  }

  /** Every row's runtime is positive, so `Math.log` is applied only where it
      is finite, unless a size of 1 gives the n·log2(n) cost 0 (step 1 under
      `nlogn` or an unrecognised tag). */
  lemma RuntimesPositive(algorithmCode: string, maxN: int, step: int, runs: int, complexityType: string, m: MathFns, draws: seq<real>)
    requires step > 0
    requires |draws| >= SampleCount(maxN, step)
    requires forall i :: 0 <= i < |draws| ==> 0.0 <= draws[i] < 1.0
    requires HostMath(m)
    requires step >= 2 || complexityType in {"n", "n2"}
    ensures var results := RunAlgorithm(algorithmCode, maxN, step, runs, complexityType, m, draws);
      forall i :: 0 <= i < |results| ==> results[i].empiricalRT > 0.0
  {
    var results := RunAlgorithm(algorithmCode, maxN, step, runs, complexityType, m, draws);
    forall i | 0 <= i < |results|
      ensures results[i].empiricalRT > 0.0
    {
      IntMultiplyMonotone(1, i + 1, step);
      RowRuntimePositive(complexityType, m, maxN, step, draws[i], results[i]);
    }
  }

  /** `RuntimesPositive` for one row. */
  lemma RowRuntimePositive(complexityType: string, m: MathFns, maxN: int, step: int, draw: real, row: ResultData)
    requires 0 < step <= row.n <= maxN
    requires 0.0 <= draw < 1.0
    requires HostMath(m)
    requires step >= 2 || complexityType in {"n", "n2"}
    requires Measured(complexityType, m, maxN, step, draw, row)
    ensures row.empiricalRT > 0.0
  {
    TheoreticalRTSign(complexityType, m, row.n);
    assert complexityType !in {"n", "n2"} ==> m.log2(row.n as real) > 0.0;
    assert row.theoreticalRT > 0.0;
    RatioIsScaledNoise(complexityType, m, maxN, step, draw, row);
    NoiseFactorBounds(complexityType, m, maxN, step, row.n, draw);
    ProductPositive(row.ratio.v, row.theoreticalRT);
  }

  /** On a run with at least two rows, where every runtime is positive, the
      sizes differ, so with a strictly increasing logarithm the slope is a
      finite number and the label is decided by the thresholds alone. */
  lemma GeneratedFitIsFinite(algorithmCode: string, maxN: int, step: int, runs: int, complexityType: string, m: MathFns, draws: seq<real>)
    requires step > 0
    requires |draws| >= SampleCount(maxN, step)
    requires forall i :: 0 <= i < |draws| ==> 0.0 <= draws[i] < 1.0
    requires maxN >= 2 * step
    requires HostMath(m)
    requires step >= 2 || complexityType in {"n", "n2"}
    ensures var results := RunAlgorithm(algorithmCode, maxN, step, runs, complexityType, m, draws);
      var slope := Slope(LogSizes(results, m), LogRuntimes(results, m));
      (forall i :: 0 <= i < |results| ==> results[i].empiricalRT > 0.0)
      && slope.Finite? && Spread(LogSizes(results, m)) > 0.0
      && EstimateComplexity(results, m) == Classify(slope)
  {
    var results := RunAlgorithm(algorithmCode, maxN, step, runs, complexityType, m, draws);
    RuntimesPositive(algorithmCode, maxN, step, runs, complexityType, m, draws);
    LoopGuard(maxN, step, 1);
    var xs := LogSizes(results, m);
    assert results[0].n < results[1].n;
    assert xs[0] < xs[1];
    SpreadZeroIffConstant(xs);
  }

  /** Least squares on the log-log points recovers an exact power law: when
      every row satisfies ln empiricalRT = k·ln n + b over at least two
      distinct sizes, the slope is exactly k and the label is k's. */
  lemma PowerLawIsClassified(results: seq<ResultData>, m: MathFns, k: real, b: real)
    requires HostMath(m)
    requires |results| >= 2
    requires 0 < results[0].n < results[1].n
    requires forall i :: 0 <= i < |results| ==>
      m.log(results[i].empiricalRT) == OnLine(k, m.log(results[i].n as real), b)
    ensures Slope(LogSizes(results, m), LogRuntimes(results, m)) == Finite(k)
    ensures EstimateComplexity(results, m) == Classify(Finite(k))
    ensures k < 1.2 ==> EstimateComplexity(results, m) == LinearLabel
    ensures 1.2 <= k < 1.8 ==> EstimateComplexity(results, m) == LinearithmicLabel
    ensures 1.8 <= k ==> EstimateComplexity(results, m) == QuadraticLabel
  {
    var xs, ys := LogSizes(results, m), LogRuntimes(results, m);
    assert xs[0] < xs[1];
    AllOnLinePointwise(xs, ys, k, b);
    SlopeOfLine(xs, ys, k, b);
  }

  /** The slope of points on y = k·x + b, over at least two distinct abscissae, is k. */
  lemma SlopeOfLine(xs: seq<real>, ys: seq<real>, k: real, b: real)
    requires |xs| == |ys|
    requires !Constant(xs)
    requires AllOnLine(xs, ys, k, b)
    ensures Slope(xs, ys) == Finite(k)
  {
    SpreadZeroIffConstant(xs);
    CoSpreadOfLine(xs, ys, k, b);
    var den := Spread(xs);
    CancelFactor(Slope(xs, ys).v, k, den);
  }
}
