/** The sums behind an ordinary least-squares line fit, written as folds over
    sequences of reals, and the facts about them that decide whether the fitted
    slope is a finite number.

    For points (x_i, y_i), i < m, the fitted slope is
      (m·Σx_i·y_i − Σx_i·Σy_i) / (m·Σx_i² − (Σx_i)²);
    the numerator is `CoSpread(xs, ys)` and the denominator `Spread(xs)`. */
module LeastSquares {
  import opened RealArith

  /** Σ xs[i]. */
  function Sum(xs: seq<real>): real
  {
    if |xs| == 0 then 0.0 else xs[0] + Sum(xs[1..])
  }

  /** Σ xs[i]². */
  function SumSquares(xs: seq<real>): real
  {
    if |xs| == 0 then 0.0 else Square(xs[0]) + SumSquares(xs[1..])
  }

  /** Σ xs[i]·ys[i]. */
  function SumProducts(xs: seq<real>, ys: seq<real>): real
    requires |xs| == |ys|
  {
    if |xs| == 0 then 0.0 else Product(xs[0], ys[0]) + SumProducts(xs[1..], ys[1..])
  }

  /** Σ (xs[i] − a)²: the squared deviation of the points from `a`. */
  function SquaredDeviation(xs: seq<real>, a: real): real
  {
    if |xs| == 0 then 0.0 else Square(xs[0] - a) + SquaredDeviation(xs[1..], a)
  }

  /** The slope denominator m·Σx² − (Σx)². */
  function Spread(xs: seq<real>): real
  {
    Product(|xs| as real, SumSquares(xs)) - Square(Sum(xs))
  }

  /** The slope numerator m·Σxy − Σx·Σy. */
  function CoSpread(xs: seq<real>, ys: seq<real>): real
    requires |xs| == |ys|
  {
    Product(|xs| as real, SumProducts(xs, ys)) - Product(Sum(xs), Sum(ys))
  }

  /** All points share one abscissa. */
  predicate Constant(xs: seq<real>)
  {
    forall i :: 0 <= i < |xs| ==> xs[i] == xs[0]
  }

  lemma {:induction false} SquaredDeviationNonNegative(xs: seq<real>, a: real)
    ensures SquaredDeviation(xs, a) >= 0.0
    ensures SquaredDeviation(xs, a) == 0.0 <==> forall i :: 0 <= i < |xs| ==> xs[i] == a
    decreases |xs|
  {
    if |xs| > 0 {
      SquaredDeviationNonNegative(xs[1..], a);
      SquareSign(xs[0] - a);
      if forall i :: 0 <= i < |xs[1..]| ==> xs[1..][i] == a {
        if xs[0] == a {
          forall i | 0 <= i < |xs| ensures xs[i] == a {
            if i > 0 { assert xs[i] == xs[1..][i - 1]; }
          }
        }
      } else {
        var i :| 0 <= i < |xs[1..]| && xs[1..][i] != a;
        assert xs[i + 1] != a;
      }
    }
  }

  /** Σ(x − a)² expands to m·a² − 2a·Σx + Σx². */
  lemma {:induction false} SquaredDeviationExpands(xs: seq<real>, a: real)
    ensures SquaredDeviation(xs, a) == Product(|xs| as real, Square(a)) - Product(2.0 * a, Sum(xs)) + SumSquares(xs)
    decreases |xs|
  {
    if |xs| > 0 {
      var rest := xs[1..];
      SquaredDeviationExpands(rest, a);
      SquaredDeviationStep(xs[0], a, |rest| as real, Sum(rest), SumSquares(rest), SquaredDeviation(rest, a),
                           |xs| as real, Sum(xs), SumSquares(xs), SquaredDeviation(xs, a));
    } else {
      MultiplyZero(Square(a), |xs| as real);
      MultiplyZero(2.0 * a, Sum(xs));
    }
  }

  /** One step of `SquaredDeviationExpands`, over plain reals: `m`, `s`, `q`,
      `e` count, sum, sum the squares of and give the squared deviation of the
      points after the first point `x`; `n`, `tx`, `txx`, `d` do so for all of them. */
  lemma SquaredDeviationStep(x: real, a: real, m: real, s: real, q: real, e: real,
                             n: real, tx: real, txx: real, d: real)
    requires e == Product(m, Square(a)) - Product(2.0 * a, s) + q
    requires d == Square(x - a) + e
    requires n == m + 1.0 && tx == x + s && txx == Square(x) + q
    ensures d == Product(n, Square(a)) - Product(2.0 * a, tx) + txx
  {
    assert Square(x - a) == x * x - 2.0 * a * x + a * a;
    Distribute(Square(a), n, m, 1.0);
    Distribute(2.0 * a, tx, x, s);
  }

  /** The arithmetic of `SpreadStep` over plain reals: `m`, `s`, `q` count and
      sum the points after the first, `n`, `tx`, `txx` all of them, and `dev`
      is the others' squared deviation from the first point `a`. */
  lemma SpreadStepArith(a: real, m: real, s: real, q: real, n: real, tx: real, txx: real, dev: real)
    requires n == m + 1.0 && tx == a + s && txx == Square(a) + q
    requires dev == Product(m, Square(a)) - Product(2.0 * a, s) + q
    ensures Product(n, txx) - Square(tx) == (Product(m, q) - Square(s)) + dev
  {
    calc {
      n * txx - tx * tx;
      (m + 1.0) * (a * a + q) - (a + s) * (a + s);
      (m * q - s * s) + (m * a * a - 2.0 * a * s + q);
    }
  }

  /** Putting a point `xs[0]` in front of the others raises the spread by the
      squared deviation of the others from it. */
  lemma SpreadStep(xs: seq<real>)
    requires |xs| > 0
    ensures Spread(xs) == Spread(xs[1..]) + SquaredDeviation(xs[1..], xs[0])
  {
    var rest := xs[1..];
    SquaredDeviationExpands(rest, xs[0]);
    SpreadStepArith(xs[0], |rest| as real, Sum(rest), SumSquares(rest),
                    |xs| as real, Sum(xs), SumSquares(xs), SquaredDeviation(rest, xs[0]));
  }

  /** The slope denominator is never negative, and it is zero exactly when every
      abscissa is the same: a fit over two distinct sizes always has a finite slope. */
  lemma {:induction false} SpreadZeroIffConstant(xs: seq<real>)
    ensures Spread(xs) >= 0.0
    ensures Spread(xs) == 0.0 <==> Constant(xs)
    decreases |xs|
  {
    if |xs| == 0 {
      assert Spread(xs) == 0.0;
    } else {
      var rest := xs[1..];
      SpreadStep(xs);
      SpreadZeroIffConstant(rest);
      SquaredDeviationNonNegative(rest, xs[0]);
      if Constant(xs) {
        forall i | 0 <= i < |rest| ensures rest[i] == xs[0] {
          assert rest[i] == xs[i + 1];
        }
        if |rest| > 0 {
          forall i | 0 <= i < |rest| ensures rest[i] == rest[0] {
            assert rest[i] == xs[0];
          }
        }
        assert Constant(rest);
      } else {
        var i :| 0 <= i < |xs| && xs[i] != xs[0];
        assert rest[i - 1] != xs[0];
        assert SquaredDeviation(rest, xs[0]) > 0.0;
      }
    }
  }

  /** Over a constant abscissa the slope numerator vanishes too, so the slope is 0/0. */
  lemma {:induction false} CoSpreadZeroWhenConstant(xs: seq<real>, ys: seq<real>)
    requires |xs| == |ys|
    requires Constant(xs)
    ensures CoSpread(xs, ys) == 0.0
  {
    if |xs| > 0 {
      ConstantSums(xs, ys, xs[0]);
      var m := |xs| as real;
      calc {
        CoSpread(xs, ys);
        m * (xs[0] * Sum(ys)) - (m * xs[0]) * Sum(ys);
        0.0;
      }
    }
  }

  /** Sums over points that all sit at abscissa `a`. */
  lemma {:induction false} ConstantSums(xs: seq<real>, ys: seq<real>, a: real)
    requires |xs| == |ys|
    requires forall i :: 0 <= i < |xs| ==> xs[i] == a
    ensures Sum(xs) == |xs| as real * a
    ensures SumProducts(xs, ys) == a * Sum(ys)
    decreases |xs|
  {
    if |xs| > 0 {
      assert forall i :: 0 <= i < |xs[1..]| ==> xs[1..][i] == xs[i + 1];
      ConstantSums(xs[1..], ys[1..], a);
      assert |xs| as real == |xs[1..]| as real + 1.0;
    }
  }

  /** One step of `LineSum`, over plain reals: `s`, `sy` sum the points after
      the first, `tx`, `ty` sum all of them, and `m`, `n` count them. */
  lemma LineSumStep(x: real, y: real, k: real, b: real, s: real, m: real, sy: real, tx: real, n: real, ty: real)
    requires y == OnLine(k, x, b)
    requires sy == Product(k, s) + Product(m, b)
    requires tx == x + s && n == m + 1.0
    requires ty == y + sy
    ensures ty == Product(k, tx) + Product(n, b)
  {
    Distribute(b, n, m, 1.0);
    Distribute(k, tx, x, s);
  }

  /** One step of `LineSumProducts`, over plain reals: `s`, `q`, `sxy` are the
      sums of x, x² and x·y over the points after the first, `tx`, `txx`, `txy`
      the sums over all of them. */
  lemma LineSumProductsStep(x: real, y: real, k: real, b: real, s: real, q: real, sxy: real, tx: real, txx: real, txy: real)
    requires y == OnLine(k, x, b)
    requires sxy == Product(k, q) + Product(b, s)
    requires tx == x + s && txx == Square(x) + q
    requires txy == Product(x, y) + sxy
    ensures txy == Product(k, txx) + Product(b, tx)
  {
    Distribute(x, y, k * x, b);
    Distribute(k, txx, x * x, q);
    Distribute(b, tx, x, s);
  }

  /** The ordinate of abscissa `x` on the line y = k·x + b. */
  function OnLine(k: real, x: real, b: real): real
  {
    k * x + b
  }

  /** Every point (xs[i], ys[i]) lies on the line y = k·x + b, stated point
      by point from the front so that induction over the points can use it. */
  predicate AllOnLine(xs: seq<real>, ys: seq<real>, k: real, b: real)
    requires |xs| == |ys|
  {
    |xs| == 0 || (ys[0] == OnLine(k, xs[0], b) && AllOnLine(xs[1..], ys[1..], k, b))
  }

  /** `AllOnLine` is the pointwise statement. */
  lemma {:induction false} AllOnLinePointwise(xs: seq<real>, ys: seq<real>, k: real, b: real)
    requires |xs| == |ys|
    ensures AllOnLine(xs, ys, k, b) <==> forall i :: 0 <= i < |xs| ==> ys[i] == OnLine(k, xs[i], b)
    decreases |xs|
  {
    if |xs| > 0 {
      AllOnLinePointwise(xs[1..], ys[1..], k, b);
      if forall i :: 0 <= i < |xs| ==> ys[i] == OnLine(k, xs[i], b) {
        forall i | 0 <= i < |xs[1..]| ensures ys[1..][i] == OnLine(k, xs[1..][i], b) {
          assert ys[1..][i] == ys[i + 1] && xs[1..][i] == xs[i + 1];
        }
      }
      if AllOnLine(xs, ys, k, b) {
        forall i | 0 <= i < |xs| ensures ys[i] == OnLine(k, xs[i], b) {
          if i > 0 {
            assert ys[1..][i - 1] == ys[i] && xs[1..][i - 1] == xs[i];
          }
        }
      }
    }
  }

  /** The ordinates of points on the line y = k·x + b sum to k·Σx + m·b. */
  lemma {:induction false} LineSum(xs: seq<real>, ys: seq<real>, k: real, b: real)
    requires |xs| == |ys|
    requires AllOnLine(xs, ys, k, b)
    ensures Sum(ys) == Product(k, Sum(xs)) + Product(|xs| as real, b)
    decreases |xs|
  {
    if |xs| > 0 {
      LineSum(xs[1..], ys[1..], k, b);
      LineSumStep(xs[0], ys[0], k, b, Sum(xs[1..]), |xs[1..]| as real, Sum(ys[1..]),
                  Sum(xs), |xs| as real, Sum(ys));
    } else {
      MultiplyZero(k, Sum(xs));
      MultiplyZero(b, |xs| as real);
    }
  }

  /** For points on the line y = k·x + b, Σx·y = k·Σx² + b·Σx. */
  lemma {:induction false} LineSumProducts(xs: seq<real>, ys: seq<real>, k: real, b: real)
    requires |xs| == |ys|
    requires AllOnLine(xs, ys, k, b)
    ensures SumProducts(xs, ys) == Product(k, SumSquares(xs)) + Product(b, Sum(xs))
    decreases |xs|
  {
    if |xs| > 0 {
      LineSumProducts(xs[1..], ys[1..], k, b);
      LineSumProductsStep(xs[0], ys[0], k, b, Sum(xs[1..]), SumSquares(xs[1..]), SumProducts(xs[1..], ys[1..]),
                          Sum(xs), SumSquares(xs), SumProducts(xs, ys));
    } else {
      MultiplyZero(k, SumSquares(xs));
      MultiplyZero(b, Sum(xs));
    }
  }

  /** The slope numerator over a line, over plain reals. */
  lemma CoSpreadOfLineStep(k: real, b: real, m: real, s: real, q: real, sy: real, sxy: real, num: real, den: real)
    requires sy == Product(k, s) + Product(m, b) && sxy == Product(k, q) + Product(b, s)
    requires num == Product(m, sxy) - Product(s, sy) && den == Product(m, q) - Square(s)
    ensures num == Product(k, den)
  {
    Distribute(m, sxy, k * q, b * s);
    Distribute(s, sy, k * s, m * b);
    Distribute(k, den, m * q, -(s * s));
  }

  /** Least squares recovers an exact line: when every point lies on
      y = k·x + b, the slope numerator is k times the denominator. */
  lemma CoSpreadOfLine(xs: seq<real>, ys: seq<real>, k: real, b: real)
    requires |xs| == |ys|
    requires AllOnLine(xs, ys, k, b)
    ensures CoSpread(xs, ys) == Product(k, Spread(xs))
  {
    var n, s, q, sy, sxy := |xs| as real, Sum(xs), SumSquares(xs), Sum(ys), SumProducts(xs, ys);
    assert sy == Product(k, s) + Product(n, b) by { LineSum(xs, ys, k, b); }
    assert sxy == Product(k, q) + Product(b, s) by { LineSumProducts(xs, ys, k, b); }
    CoSpreadOfLineStep(k, b, n, s, q, sy, sxy, CoSpread(xs, ys), Spread(xs));
  }
}
