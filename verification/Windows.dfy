/** Sums, sliding windows and changes of unit of streams of reals, shared by the numeric modules. */
module Windows {
  function Sum(xs: seq<real>): real {
    if xs == [] then 0.0 else Sum(xs[..|xs| - 1]) + xs[|xs| - 1]
  }

  function Mean(xs: seq<real>): real
    requires xs != []
  {
    Sum(xs) / |xs| as real
  }

  lemma {:induction false} SumAppend(xs: seq<real>, ys: seq<real>)
    ensures Sum(xs + ys) == Sum(xs) + Sum(ys)
  {
    if ys == [] {
      assert xs + ys == xs;
    } else {
      var n := |ys| - 1;
      assert (xs + ys)[..|xs + ys| - 1] == xs + ys[..n];
      SumAppend(xs, ys[..n]);
    }
  }

  /** The differences from `m`. */
  function Differences(xs: seq<real>, m: real): (ds: seq<real>)
    ensures |ds| == |xs| && forall i | 0 <= i < |xs| :: ds[i] == xs[i] - m
  {
    seq(|xs|, i requires 0 <= i < |xs| => xs[i] - m)
  }

  lemma {:induction false} SumOfDifferences(xs: seq<real>, m: real)
    ensures Sum(Differences(xs, m)) == Sum(xs) - |xs| as real * m
  {
    if xs == [] {
    } else {
      var n := |xs| - 1;
      assert Differences(xs, m)[..n] == Differences(xs[..n], m);
      SumOfDifferences(xs[..n], m);
      assert |xs| as real * m == n as real * m + m;
    }
  }

  lemma QuotientTimes(s: real, n: real)
    requires n != 0.0
    ensures n * (s / n) == s
  {
  }

  /** The values balance around their mean, and around nothing else. */
  lemma MeanBalances(xs: seq<real>, m: real)
    requires xs != []
    ensures Sum(Differences(xs, m)) == 0.0 <==> m == Mean(xs)
  {
    SumOfDifferences(xs, m);
    SumOfDifferences(xs, Mean(xs));
    QuotientTimes(Sum(xs), |xs| as real);
    if m < Mean(xs) { ProductStrict(m, Mean(xs), |xs| as real); }
    if m > Mean(xs) { ProductStrict(Mean(xs), m, |xs| as real); }
  }

  /** The last `w` values of a stream, or all of them. */
  function LastN(history: seq<real>, w: nat): seq<real> {
    if |history| <= w then history else history[|history| - w..]
  }

  /** `deque(maxlen=w)` after one more append. */
  lemma LastNAppend(history: seq<real>, w: nat, v: real)
    requires w > 0
    ensures var window := LastN(history, w);
      LastN(history + [v], w) == (if |window| == w then window[1..] else window) + [v]
  {
  }

  /** A product grows with its first factor. */
  lemma ProductOrder(x: real, y: real, k: real)
    requires x <= y && k >= 0.0
    ensures x * k <= y * k
  {
    assert (y - x) * k >= 0.0;
  }

  /** ... and strictly so when the second is positive. */
  lemma ProductStrict(x: real, y: real, k: real)
    requires x < y && k > 0.0
    ensures x * k < y * k
  {
    assert (y - x) * k > 0.0;
  }

  function Max(a: real, b: real): real { if a >= b then a else b }

  function Abs(a: real): real { if a < 0.0 then -a else a }

  /** A stream in another unit. */
  function Map(f: real -> real, xs: seq<real>): (ys: seq<real>)
    ensures |ys| == |xs| && forall i | 0 <= i < |xs| :: ys[i] == f(xs[i])
  {
    seq(|xs|, i requires 0 <= i < |xs| => f(xs[i]))
  }

  lemma MapOfSlice(f: real -> real, xs: seq<real>, i: nat, j: nat)
    requires i <= j <= |xs|
    ensures Map(f, xs)[i..j] == Map(f, xs[i..j])
  {
  }

  lemma MapOfWindow(f: real -> real, history: seq<real>, w: nat)
    ensures LastN(Map(f, history), w) == Map(f, LastN(history, w))
  {
    var n := |history|;
    if n > w {
      MapOfSlice(f, history, n - w, n);
      assert history[n - w..n] == history[n - w..] && Map(f, history)[n - w..n] == Map(f, history)[n - w..];
    }
  }
}
