/** detectors/zscore.py without the square root: a score beyond the threshold is a squared deviation
    beyond threshold^2 times the variance. */
module ZScore {
  import opened Wrappers
  import opened Windows

  datatype Params = Params(threshold: real, windowSize: nat, minSamples: nat) {
    predicate Valid() {
      threshold > 0.0 && windowSize > 1 && minSamples >= 2
    }
  }

  function Square(x: real): real { x * x }

  /** The squared deviations from `m`. */
  function Deviations(xs: seq<real>, m: real): (ds: seq<real>)
    ensures |ds| == |xs| && forall i | 0 <= i < |xs| :: ds[i] == Square(xs[i] - m)
  {
    seq(|xs|, i requires 0 <= i < |xs| => Square(xs[i] - m))
  }

  function Variance(xs: seq<real>): real
    requires xs != []
  {
    Mean(Deviations(xs, Mean(xs)))
  }

  function Squares(xs: seq<real>): (ys: seq<real>)
    ensures |ys| == |xs| && forall i | 0 <= i < |xs| :: ys[i] == Square(xs[i])
  {
    seq(|xs|, i requires 0 <= i < |xs| => Square(xs[i]))
  }

  lemma SquareOfDifference(x: real, m: real)
    ensures Square(x - m) == Square(x) - 2.0 * (m * x) + Square(m)
  {
  }

  /** The sum of (x - m)^2 over n values with sum `s` and sum of squares `squares`. */
  function Spread(squares: real, s: real, n: real, m: real): real {
    squares - 2.0 * (m * s) + n * Square(m)
  }

  lemma SpreadNext(squares: real, s: real, n: real, m: real, x: real)
    ensures Spread(squares + Square(x), s + x, n + 1.0, m) == Spread(squares, s, n, m) + Square(x - m)
  {
    SquareOfDifference(x, m);
    assert m * (s + x) == m * s + m * x;
    assert (n + 1.0) * Square(m) == n * Square(m) + Square(m);
  }

  lemma {:induction false} SumOfDeviations(xs: seq<real>, m: real)
    ensures Sum(Deviations(xs, m)) == Spread(Sum(Squares(xs)), Sum(xs), |xs| as real, m)
  {
    if xs == [] {
      assert m * Sum(xs) == 0.0;
    } else {
      var n := |xs| - 1;
      assert Deviations(xs, m)[..n] == Deviations(xs[..n], m) && Squares(xs)[..n] == Squares(xs[..n]);
      SumOfDeviations(xs[..n], m);
      SpreadNext(Sum(Squares(xs[..n])), Sum(xs[..n]), n as real, m, xs[n]);
    }
  }

  lemma SpreadOfMean(squares: real, s: real, n: real, m: real)
    requires n > 0.0 && n * m == s
    ensures Spread(squares, s, n, m) == squares - n * Square(m)
  {
    assert m * (n * m) == n * (m * m);
  }

  lemma MeanOfSpread(squares: real, n: real, m2: real)
    requires n > 0.0
    ensures (squares - n * m2) / n == squares / n - m2
  {
    var q := squares / n;
    assert squares == n * q;
    assert squares - n * m2 == n * (q - m2);
  }

  lemma SpreadOverCount(squares: real, s: real, n: real, m: real)
    requires n > 0.0 && n * m == s
    ensures Spread(squares, s, n, m) / n == squares / n - Square(m)
  {
    SpreadOfMean(squares, s, n, m);
    MeanOfSpread(squares, n, Square(m));
  }

  lemma MeanOfDeviations(xs: seq<real>, m: real)
    requires xs != [] && |xs| as real * m == Sum(xs)
    ensures Mean(Deviations(xs, m)) == Mean(Squares(xs)) - Square(m)
  {
    SumOfDeviations(xs, m);
    SpreadOverCount(Sum(Squares(xs)), Sum(xs), |xs| as real, m);
  }

  /** The variance is the mean of the squares less the square of the mean. */
  lemma VarianceIs(xs: seq<real>)
    requires xs != []
    ensures Variance(xs) == Mean(Squares(xs)) - Square(Mean(xs))
  {
    QuotientTimes(Sum(xs), |xs| as real);
    MeanOfDeviations(xs, Mean(xs));
  }

  /** The decision from the numbers it depends on. */
  predicate Beyond(deviation2: real, threshold2: real, variance: real) {
    variance != 0.0 && deviation2 > threshold2 * variance
  }

  /** The decision on `v` against the window before it. */
  predicate Fires(params: Params, window: seq<real>, v: real) {
    && |window| >= params.minSamples && window != []
    && Beyond(Square(v - Mean(window)), Square(params.threshold), Variance(window))
  }

  /** `score` is |z|, with `root` the standard deviation. */
  predicate IsScore(window: seq<real>, v: real, root: real, score: real) {
    window != [] && root > 0.0 && score == Abs((v - Mean(window)) / root)
  }

  lemma SquareOfPositive(x: real)
    requires x > 0.0
    ensures Square(x) > 0.0
  {
    calc {
      Square(x);
    ==
      x * x;
    >  { ProductStrict(0.0, x, x); }
      0.0;
    }
  }

  lemma SquarePositive(x: real)
    ensures Square(x) >= 0.0
    ensures x != 0.0 ==> Square(x) > 0.0
  {
    if x > 0.0 { SquareOfPositive(x); }
    if x < 0.0 { SquareOfPositive(-x); assert Square(-x) == Square(x); }
  }

  /** |d / root| > t for a positive root is d^2 > t^2 * root^2. */
  lemma ScoreSquared(d: real, root: real, t: real)
    requires root > 0.0 && t > 0.0
    ensures Abs(d / root) > t <==> Square(d) > Square(t) * Square(root)
  {
    var z := Abs(d / root);
    assert z * root == Abs(d) by { assert (d / root) * root == d; }
    SquareOrder(Abs(d), t * root);
    assert Square(Abs(d)) == Square(d);
    assert Square(t * root) == Square(t) * Square(root) by { assert (t * root) * (t * root) == (t * t) * (root * root); }
    Cancels(z, t, root);
  }

  lemma DifferenceOfSquares(x: real, y: real)
    ensures Square(x) - Square(y) == (x - y) * (x + y)
  {
  }

  lemma SquareGrows(x: real, y: real)
    requires x > y >= 0.0
    ensures Square(x) > Square(y)
  {
    DifferenceOfSquares(x, y);
    var d, t := x - y, x + y;
    ProductStrict(0.0, d, t);
    assert Square(x) - Square(y) == d * t;
  }

  lemma SquareOrder(x: real, y: real)
    requires x >= 0.0 && y >= 0.0
    ensures x > y <==> Square(x) > Square(y)
  {
    if x > y { SquareGrows(x, y); }
    if x < y { SquareGrows(y, x); }
  }

  lemma Cancels(x: real, y: real, k: real)
    requires k > 0.0
    ensures x > y <==> x * k > y * k
  {
    if x > y { ProductStrict(y, x, k); } else { ProductOrder(x, y, k); }
  }

  class ZScoreDetector {
    const params: Params
    var window: seq<real>
    /** Every numeric value since construction or the last reset. */
    ghost var history: seq<real>

    ghost predicate Valid()
      reads this
    {
      params.Valid() && window == LastN(history, params.windowSize)
    }

    constructor (params: Params)
      requires params.Valid()
      ensures Valid() && this.params == params && history == []
    {
      this.params := params;
      window, history := [], [];
    }

    method Reset()
      requires Valid()
      modifies this
      ensures Valid() && history == []
    {
      window, history := [], [];
    }

    /** `_z_score`; `root` is what `math.sqrt` returns for the window's variance. */
    method Score(value: real, root: real) returns (score: Option<real>)
      requires Valid()
      requires |window| >= params.minSamples ==> root >= 0.0 && Square(root) == Variance(window)
      ensures score.Some? <==> |window| >= params.minSamples && Variance(window) != 0.0
      ensures score.Some? ==> root > 0.0 && score.value == (value - Mean(window)) / root
    {
      if |window| < params.minSamples {
        return None;
      }
      SquarePositive(root);
      if root == 0.0 {
        return None;
      }
      return Some((value - Mean(window)) / root);
    }

    /** `detect`: the window is always the last `window_size` numeric values, and the decision on a value
        depends only on the values before it. The event is the severity |z|. */
    method Detect(value: Option<real>, root: real) returns (event: Option<real>)
      requires Valid()
      requires |window| >= params.minSamples ==> root >= 0.0 && Square(root) == Variance(window)
      modifies this
      ensures Valid()
      ensures value.None? ==> event.None? && history == old(history)
      ensures value.Some? ==>
                && history == old(history) + [value.value]
                && (event.Some? <==> Fires(params, LastN(old(history), params.windowSize), value.value))
      ensures event.Some? ==>
                IsScore(LastN(old(history), params.windowSize), value.value, root, event.value)
                && event.value > params.threshold
    {
      if value.None? {
        return None;
      }
      var score := Score(value.value, root);
      if score.Some? { ScoreSquared(value.value - Mean(window), root, params.threshold); }
      LastNAppend(history, params.windowSize, value.value);
      window := (if |window| == params.windowSize then window[1..] else window) + [value.value];
      history := history + [value.value];
      if score.None? || Abs(score.value) <= params.threshold {
        return None;
      }
      return Some(Abs(score.value));
    }
  }

  // ---------- changes of unit ----------

  /** `ys` is `xs` in another unit. */
  predicate Mapped(xs: seq<real>, ys: seq<real>, a: real, b: real) {
    |ys| == |xs| && forall i | 0 <= i < |xs| :: ys[i] == a * xs[i] + b
  }

  lemma {:induction false} SumMapped(xs: seq<real>, ys: seq<real>, a: real, b: real)
    requires Mapped(xs, ys, a, b)
    ensures Sum(ys) == a * Sum(xs) + |xs| as real * b
  {
    if xs == [] {
    } else {
      var n := |xs| - 1;
      SumMapped(xs[..n], ys[..n], a, b);
      SumStep(a, b, Sum(xs[..n]), xs[n], n);
    }
  }

  lemma SumStep(a: real, b: real, s: real, x: real, n: nat)
    ensures (a * s + n as real * b) + (a * x + b) == a * (s + x) + (n + 1) as real * b
  {
  }

  lemma DivideLine(a: real, b: real, s: real, n: real)
    requires n > 0.0
    ensures (a * s + n * b) / n == a * (s / n) + b
  {
    var m := s / n;
    assert s == m * n;
    assert a * s + n * b == (a * m + b) * n;
  }

  lemma MeanMapped(xs: seq<real>, ys: seq<real>, a: real, b: real)
    requires Mapped(xs, ys, a, b) && xs != []
    ensures Mean(ys) == a * Mean(xs) + b
  {
    SumMapped(xs, ys, a, b);
    DivideLine(a, b, Sum(xs), |xs| as real);
  }

  lemma SquareLine(a: real, b: real, x: real, m: real)
    ensures Square((a * x + b) - (a * m + b)) == Square(a) * Square(x - m)
  {
    assert (a * x + b) - (a * m + b) == a * (x - m);
    assert (a * (x - m)) * (a * (x - m)) == (a * a) * ((x - m) * (x - m));
  }

  lemma DeviationMapped(x: real, y: real, m: real, m1: real, a: real, b: real)
    requires y == a * x + b && m1 == a * m + b
    ensures Square(y - m1) == Square(a) * Square(x - m) + 0.0
  {
    SquareLine(a, b, x, m);
  }

  lemma DeviationsMapped(xs: seq<real>, ys: seq<real>, m: real, m1: real, a: real, b: real)
    requires Mapped(xs, ys, a, b) && m1 == a * m + b
    ensures Mapped(Deviations(xs, m), Deviations(ys, m1), Square(a), 0.0)
  {
    forall i | 0 <= i < |xs| ensures Square(ys[i] - m1) == Square(a) * Square(xs[i] - m) + 0.0 {
      DeviationMapped(xs[i], ys[i], m, m1, a, b);
    }
    DeviationsScaled(xs, ys, m, m1, Square(a));
  }

  lemma DeviationsScaled(xs: seq<real>, ys: seq<real>, m: real, m1: real, k: real)
    requires |ys| == |xs| && forall i | 0 <= i < |xs| :: Square(ys[i] - m1) == k * Square(xs[i] - m) + 0.0
    ensures Mapped(Deviations(xs, m), Deviations(ys, m1), k, 0.0)
  {
    var ds, ds1 := Deviations(xs, m), Deviations(ys, m1);
    forall i | 0 <= i < |xs| ensures ds1[i] == k * ds[i] + 0.0 {
      assert ds1[i] == Square(ys[i] - m1) && ds[i] == Square(xs[i] - m);
    }
  }

  lemma VarianceMapped(xs: seq<real>, ys: seq<real>, a: real, b: real)
    requires Mapped(xs, ys, a, b) && xs != []
    ensures Variance(ys) == Square(a) * Variance(xs)
  {
    MeanMapped(xs, ys, a, b);
    DeviationsMapped(xs, ys, Mean(xs), Mean(ys), a, b);
    MeanScaled(Deviations(xs, Mean(xs)), Deviations(ys, Mean(ys)), Square(a));
  }

  lemma MeanScaled(xs: seq<real>, ys: seq<real>, k: real)
    requires Mapped(xs, ys, k, 0.0) && xs != []
    ensures Mean(ys) == k * Mean(xs)
  {
    MeanMapped(xs, ys, k, 0.0);
  }

  lemma BeyondScaled(k: real, deviation2: real, threshold2: real, variance: real)
    requires k > 0.0
    ensures Beyond(k * deviation2, threshold2, k * variance) <==> Beyond(deviation2, threshold2, variance)
  {
    assert threshold2 * (k * variance) == (threshold2 * variance) * k;
    Cancels(deviation2, threshold2 * variance, k);
    if variance > 0.0 { ProductStrict(0.0, variance, k); }
    if variance < 0.0 { ProductStrict(variance, 0.0, k); }
  }

  lemma BeyondMapped(xs: seq<real>, ys: seq<real>, v: real, t2: real, a: real, b: real)
    requires Mapped(xs, ys, a, b) && xs != [] && a != 0.0
    ensures Beyond(Square(v - Mean(xs)), t2, Variance(xs))
       <==> Beyond(Square(a * v + b - Mean(ys)), t2, Variance(ys))
  {
    MeanMapped(xs, ys, a, b);
    VarianceMapped(xs, ys, a, b);
    SquareLine(a, b, v, Mean(xs));
    SquarePositive(a);
    BeyondScaled(Square(a), Square(v - Mean(xs)), t2, Variance(xs));
  }

  lemma FiresMapped(params: Params, xs: seq<real>, ys: seq<real>, v: real, a: real, b: real)
    requires Mapped(xs, ys, a, b) && xs != [] && a != 0.0
    ensures Fires(params, xs, v) <==> Fires(params, ys, a * v + b)
  {
    BeyondMapped(xs, ys, v, Square(params.threshold), a, b);
  }

  /** Every decision is unchanged when the whole stream is mapped by x -> a*x + b with a != 0. */
  lemma FiringIsScaleFree(params: Params, history: seq<real>, mapped: seq<real>, v: real, a: real, b: real)
    requires a != 0.0 && Mapped(history, mapped, a, b)
    ensures Fires(params, LastN(history, params.windowSize), v)
       <==> Fires(params, LastN(mapped, params.windowSize), a * v + b)
  {
    var window := LastN(history, params.windowSize);
    if window != [] { FiresMapped(params, window, LastN(mapped, params.windowSize), v, a, b); }
  }
}
