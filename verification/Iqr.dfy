/** detectors/iqr.py: a sorted list kept beside the window, against sorting the window afresh. */
module Iqr {
  import opened Wrappers
  import opened Windows

  datatype Params = Params(k: real, windowSize: nat, minSamples: nat) {
    predicate Valid() {
      k > 0.0 && windowSize > 1 && minSamples >= 4
    }
  }

  // ---------- sorted lists ----------

  predicate Sorted(xs: seq<real>) {
    forall i, j | 0 <= i < j < |xs| :: xs[i] <= xs[j]
  }

  /** `bisect_left`: where the values that are at least `v` begin. */
  function BisectLeft(xs: seq<real>, v: real): (i: nat)
    ensures i <= |xs| && (forall j | 0 <= j < i :: xs[j] < v) && (i < |xs| ==> xs[i] >= v)
  {
    if xs == [] || xs[0] >= v then 0 else 1 + BisectLeft(xs[1..], v)
  }

  /** `bisect_right`: where the values greater than `v` begin. */
  function BisectRight(xs: seq<real>, v: real): (i: nat)
    ensures i <= |xs| && (forall j | 0 <= j < i :: xs[j] <= v) && (i < |xs| ==> xs[i] > v)
  {
    if xs == [] || xs[0] > v then 0 else 1 + BisectRight(xs[1..], v)
  }

  /** `bisect.insort`. */
  function Insort(xs: seq<real>, v: real): seq<real> {
    var i := BisectRight(xs, v);
    xs[..i] + [v] + xs[i..]
  }

  lemma InsortSorted(xs: seq<real>, v: real)
    requires Sorted(xs)
    ensures Sorted(Insort(xs, v))
  {
  }

  lemma InsortAdds(xs: seq<real>, v: real)
    ensures multiset(Insort(xs, v)) == multiset(xs) + multiset{v} && |Insort(xs, v)| == |xs| + 1
  {
    var i := BisectRight(xs, v);
    assert xs == xs[..i] + xs[i..];
  }

  /** Insertion sort from scratch, the reference. */
  function Sort(xs: seq<real>): seq<real> {
    if xs == [] then [] else Insort(Sort(xs[..|xs| - 1]), xs[|xs| - 1])
  }

  lemma {:induction false} SortKeeps(xs: seq<real>)
    ensures multiset(Sort(xs)) == multiset(xs) && |Sort(xs)| == |xs|
  {
    if xs == [] {
    } else {
      var n := |xs| - 1;
      SortKeeps(xs[..n]);
      InsortAdds(Sort(xs[..n]), xs[n]);
      assert xs == xs[..n] + [xs[n]];
    }
  }

  lemma {:induction false} SortOrders(xs: seq<real>)
    ensures Sorted(Sort(xs))
  {
    if xs == [] {
    } else {
      var n := |xs| - 1;
      SortOrders(xs[..n]);
      InsortSorted(Sort(xs[..n]), xs[n]);
    }
  }

  /** Sorting gives an ascending permutation. */
  lemma SortSorts(xs: seq<real>)
    ensures Sorted(Sort(xs)) && multiset(Sort(xs)) == multiset(xs) && |Sort(xs)| == |xs|
  {
    SortKeeps(xs);
    SortOrders(xs);
  }

  lemma BisectRightFinds(xs: seq<real>, v: real)
    requires Sorted(xs) && v in xs
    ensures var i := BisectRight(xs, v); i > 0 && xs[i - 1] == v
  {
    var j :| 0 <= j < |xs| && xs[j] == v;
    var i := BisectRight(xs, v);
    assert j < i;
    assert xs[j] <= xs[i - 1];
  }

  /** `bisect_right` is the only place with nothing greater before it and something greater, or nothing, at it. */
  lemma BisectRightIs(xs: seq<real>, v: real, k: nat)
    requires k <= |xs| && (forall j | 0 <= j < k :: xs[j] <= v) && (k < |xs| ==> xs[k] > v)
    ensures BisectRight(xs, v) == k
  {
  }

  lemma WithoutLastCopy(xs: seq<real>, v: real, i: nat)
    requires Sorted(xs) && i == BisectRight(xs, v) && i > 0
    ensures BisectRight(xs[..i - 1] + xs[i..], v) == i - 1
  {
    var rest := xs[..i - 1] + xs[i..];
    assert forall j | 0 <= j < i - 1 :: rest[j] == xs[j];
    if i < |xs| { assert rest[i - 1] == xs[i]; }
    BisectRightIs(rest, v, i - 1);
  }

  /** Taking out the last copy of `v` and inserting it again changes nothing. */
  lemma InsortRestores(xs: seq<real>, v: real, i: nat)
    requires Sorted(xs) && i == BisectRight(xs, v) && i > 0 && xs[i - 1] == v
    ensures Insort(xs[..i - 1] + xs[i..], v) == xs
  {
    var rest := xs[..i - 1] + xs[i..];
    WithoutLastCopy(xs, v, i);
    assert rest[..i - 1] == xs[..i - 1] && rest[i - 1..] == xs[i..];
    assert xs == xs[..i - 1] + [v] + xs[i..];
  }

  /** An ascending arrangement of a list is what sorting makes of the list. */
  lemma {:induction false} AscendingIsSort(xs: seq<real>, list: seq<real>)
    requires Sorted(xs) && multiset(xs) == multiset(list)
    ensures xs == Sort(list)
  {
    if list == [] {
      assert |multiset(xs)| == |xs|;
    } else {
      var n := |list| - 1;
      var v := list[n];
      assert list == list[..n] + [v];
      assert v in multiset(xs);
      BisectRightFinds(xs, v);
      var i := BisectRight(xs, v);
      var rest := RemoveAt(xs, i - 1);
      AscendingIsSort(rest, list[..n]);
      InsortRestores(xs, v, i);
    }
  }

  /** A sorted list without one of its elements. */
  lemma RemoveAt(xs: seq<real>, i: nat) returns (rest: seq<real>)
    requires Sorted(xs) && i < |xs|
    ensures rest == xs[..i] + xs[i + 1..] && Sorted(rest) && multiset(rest) == multiset(xs) - multiset{xs[i]}
  {
    rest := xs[..i] + xs[i + 1..];
    assert xs == xs[..i] + [xs[i]] + xs[i + 1..];
  }

  // ---------- percentiles ----------

  function Floor(x: real): int { x.Floor }

  function Interpolate(x: real, y: real, t: real): real { x + t * (y - x) }

  /** Where percentile `p` falls among positions 0 to `last`. */
  function Rank(p: real, last: nat): real { p * last as real }

  lemma FloorOrder(x: real, y: real, n: nat)
    requires 0.0 <= x <= y <= n as real
    ensures 0 <= Floor(x) <= Floor(y) <= n
  {
  }

  lemma RankOrder(p: real, q: real, last: nat)
    requires p <= q
    ensures Rank(p, last) <= Rank(q, last)
  {
    ProductOrder(p, q, last as real);
  }

  lemma RankEnds(last: nat)
    ensures Rank(0.0, last) == 0.0 && Rank(1.0, last) == last as real
  {
  }

  lemma RankInRange(p: real, q: real, last: nat)
    requires 0.0 <= p <= q <= 1.0
    ensures 0.0 <= Rank(p, last) <= Rank(q, last) <= last as real
    ensures 0 <= Floor(Rank(p, last)) <= Floor(Rank(q, last)) <= last
  {
    RankOrder(0.0, p, last);
    RankOrder(p, q, last);
    RankOrder(q, 1.0, last);
    RankEnds(last);
    FloorOrder(Rank(p, last), Rank(q, last), last);
  }

  /** The position after `lo`, or the last one. */
  function Next(lo: nat, n: nat): nat
    requires lo < n
  {
    if lo + 1 <= n - 1 then lo + 1 else n - 1
  }

  /** `_percentile`, by linear interpolation on a sorted list. */
  function Percentile(xs: seq<real>, p: real): real
    requires xs != [] && 0.0 <= p <= 1.0
  {
    var n := |xs|;
    if n == 1 then xs[0] else
    RankInRange(p, p, n - 1);
    var lo := Floor(Rank(p, n - 1));
    Interpolate(xs[lo], xs[Next(lo, n)], Rank(p, n - 1) - lo as real)
  }

  lemma InterpolateMonotone(x: real, y: real, t: real, u: real)
    requires x <= y && t <= u
    ensures Interpolate(x, y, t) <= Interpolate(x, y, u)
  {
    assert (u - t) * (y - x) >= 0.0;
    assert u * (y - x) == t * (y - x) + (u - t) * (y - x);
  }

  lemma Interpolates(x: real, y: real, t: real)
    requires x <= y && 0.0 <= t <= 1.0
    ensures x <= Interpolate(x, y, t) <= y
  {
    InterpolateMonotone(x, y, 0.0, t);
    InterpolateMonotone(x, y, t, 1.0);
  }

  /** Where a percentile lies: between the two neighbours of its rank. */
  lemma PercentileBetween(xs: seq<real>, p: real, lo: nat)
    requires xs != [] && Sorted(xs) && 0.0 <= p <= 1.0 && lo < |xs| && lo == Floor(Rank(p, |xs| - 1))
    ensures xs[lo] <= Percentile(xs, p) <= xs[Next(lo, |xs|)]
  {
    assert xs[lo] <= xs[Next(lo, |xs|)];
    Interpolates(xs[lo], xs[Next(lo, |xs|)], Rank(p, |xs| - 1) - lo as real);
  }

  lemma PercentileInRange(xs: seq<real>, p: real)
    requires xs != [] && Sorted(xs) && 0.0 <= p <= 1.0
    ensures xs[0] <= Percentile(xs, p) <= xs[|xs| - 1]
  {
    RankInRange(p, p, |xs| - 1);
    PercentileBetween(xs, p, Floor(Rank(p, |xs| - 1)));
  }

  /** A higher percentile is never lower. */
  lemma PercentileMonotone(xs: seq<real>, p: real, q: real)
    requires xs != [] && Sorted(xs) && 0.0 <= p <= q <= 1.0
    ensures Percentile(xs, p) <= Percentile(xs, q)
  {
    var n := |xs|;
    RankInRange(p, q, n - 1);
    var i, j := Floor(Rank(p, n - 1)), Floor(Rank(q, n - 1));
    if i == j {
      assert xs[i] <= xs[Next(i, n)];
      InterpolateMonotone(xs[i], xs[Next(i, n)], Rank(p, n - 1) - i as real, Rank(q, n - 1) - i as real);
    } else {
      PercentileBetween(xs, p, i);
      PercentileBetween(xs, q, j);
      assert Next(i, n) <= j;
    }
  }

  // ---------- what a percentile is ----------

  lemma FloorIs(x: real, lo: int)
    requires lo as real <= x < lo as real + 1.0
    ensures Floor(x) == lo
  {
  }

  /** At a rank from `lo` to `lo + 1` it lies on the line between those two values. */
  lemma PercentileOnLine(xs: seq<real>, p: real, lo: nat)
    requires 0.0 <= p <= 1.0 && lo + 1 < |xs| && lo as real <= p * (|xs| - 1) as real <= lo as real + 1.0
    ensures Percentile(xs, p) == xs[lo] + (p * (|xs| - 1) as real - lo as real) * (xs[lo + 1] - xs[lo])
  {
    var rank := Rank(p, |xs| - 1);
    RankInRange(p, p, |xs| - 1);
    if rank < lo as real + 1.0 {
      FloorIs(rank, lo);
    } else {
      FloorIs(rank, lo + 1);
      LineEnds(xs[lo + 1], xs[Next(lo + 1, |xs|)]);
      LineEnds(xs[lo], xs[lo + 1]);
    }
  }

  lemma LineEnds(x: real, y: real)
    ensures Interpolate(x, y, 0.0) == x && Interpolate(x, y, 1.0) == y
  {
  }

  /** A rank always lies between two neighbouring positions. */
  lemma Neighbours(p: real, last: nat) returns (lo: nat)
    requires 0.0 <= p <= 1.0 && last > 0
    ensures lo < last && lo as real <= p * last as real <= lo as real + 1.0
  {
    RankInRange(p, p, last);
    var i := Floor(Rank(p, last));
    lo := if i < last then i else last - 1;
  }

  /** At a whole rank it is the value there. */
  lemma PercentileAtRank(xs: seq<real>, p: real, i: nat)
    requires 0.0 <= p <= 1.0 && i < |xs| && p * (|xs| - 1) as real == i as real
    ensures Percentile(xs, p) == xs[i]
  {
    if |xs| > 1 {
      FloorIs(Rank(p, |xs| - 1), i);
      LineEnds(xs[i], xs[Next(i, |xs|)]);
    }
  }

  predicate EvenlySpaced(xs: seq<real>, a: real, d: real) {
    forall i | 0 <= i < |xs| :: xs[i] == a + i as real * d
  }

  /** From the first to the last of `n` values `d` apart. */
  function Span(n: nat, d: real): real { (n - 1) as real * d }

  lemma LineOfEven(a: real, d: real, lo: real, rank: real)
    ensures (a + lo * d) + (rank - lo) * ((a + (lo + 1.0) * d) - (a + lo * d)) == a + rank * d
  {
    assert (a + (lo + 1.0) * d) - (a + lo * d) == d;
  }

  lemma RankTimes(p: real, last: real, d: real)
    ensures (p * last) * d == p * (last * d)
  {
  }

  /** On evenly spaced values it is that share of the way from the first to the last. */
  lemma PercentileOfEven(xs: seq<real>, p: real, a: real, d: real)
    requires xs != [] && 0.0 <= p <= 1.0 && EvenlySpaced(xs, a, d)
    ensures Percentile(xs, p) == a + p * Span(|xs|, d)
  {
    if |xs| == 1 {
      assert xs[0] == a + 0 as real * d;
    } else {
      var lo := Neighbours(p, |xs| - 1);
      PercentileOnLine(xs, p, lo);
      LineOfEven(a, d, lo as real, p * (|xs| - 1) as real);
      RankTimes(p, (|xs| - 1) as real, d);
    }
  }

  /** The list read from the other end and negated; ascending again. */
  function Mirror(xs: seq<real>): seq<real> {
    seq(|xs|, i requires 0 <= i < |xs| => -xs[|xs| - 1 - i])
  }

  lemma LineMirrored(x: real, y: real, t: real)
    ensures Interpolate(-y, -x, 1.0 - t) == -Interpolate(x, y, t)
  {
    assert (1.0 - t) * (y - x) == (y - x) - t * (y - x);
  }

  lemma RankMirrored(p: real, last: nat)
    ensures (1.0 - p) * last as real == last as real - p * last as real
  {
  }

  lemma MirrorAt(xs: seq<real>, i: nat, lo: nat)
    requires i + lo + 2 == |xs|
    ensures Mirror(xs)[i] == -xs[lo + 1] && Mirror(xs)[i + 1] == -xs[lo]
  {
  }

  /** The line between `lo` and `lo + 1`, at share `t`. */
  lemma PercentileAtShare(xs: seq<real>, p: real, lo: nat, t: real)
    requires 0.0 <= p <= 1.0 && lo + 1 < |xs| && 0.0 <= t <= 1.0 && p * (|xs| - 1) as real == lo as real + t
    ensures Percentile(xs, p) == Interpolate(xs[lo], xs[lo + 1], t)
  {
    PercentileOnLine(xs, p, lo);
  }

  /** From the other end it is the percentile at 1 - p. */
  lemma PercentileMirror(xs: seq<real>, p: real)
    requires xs != [] && 0.0 <= p <= 1.0
    ensures Percentile(Mirror(xs), 1.0 - p) == -Percentile(xs, p)
  {
    var last := |xs| - 1;
    if last > 0 {
      var lo := Neighbours(p, last);
      var i, t := last - 1 - lo, p * last as real - lo as real;
      RankMirrored(p, last);
      PercentileAtShare(xs, p, lo, t);
      PercentileAtShare(Mirror(xs), 1.0 - p, i, 1.0 - t);
      MirrorAt(xs, i, lo);
      LineMirrored(xs[lo], xs[lo + 1], t);
    }
  }

  // ---------- changes of unit ----------

  ghost predicate Increasing(f: real -> real) {
    forall x, y :: x < y ==> f(x) < f(y)
  }

  /** `f` keeps proportions, as x -> a*x + b does. */
  ghost predicate KeepsProportions(f: real -> real) {
    forall x, y, t :: f(Interpolate(x, y, t)) == Interpolate(f(x), f(y), t)
  }

  /** Percentiles commute with a change of unit. */
  lemma PercentileMap(xs: seq<real>, p: real, f: real -> real)
    requires xs != [] && 0.0 <= p <= 1.0 && KeepsProportions(f)
    ensures Percentile(Map(f, xs), p) == f(Percentile(xs, p))
  {
    var n := |xs|;
    if n > 1 {
      RankInRange(p, p, n - 1);
      var lo := Floor(Rank(p, n - 1));
      assert Map(f, xs)[lo] == f(xs[lo]) && Map(f, xs)[Next(lo, n)] == f(xs[Next(lo, n)]);
    }
  }

  // ---------- the decision ----------

  /** First and third quartile of a sorted window; irrelevant when it is empty. */
  function Quartiles(sorted: seq<real>): (real, real) {
    if sorted == [] then (0.0, 0.0) else (Percentile(sorted, 0.25), Percentile(sorted, 0.75))
  }

  function LowerFence(q1: real, q3: real, k: real): real { q1 - k * (q3 - q1) }

  function UpperFence(q1: real, q3: real, k: real): real { q3 + k * (q3 - q1) }

  /** `_bounds` on a window of `n` values with quartiles `q`. */
  function Bounds(params: Params, n: nat, q: (real, real)): Option<(real, real)> {
    if n < params.minSamples then None else
    if q.1 - q.0 == 0.0 then None
    else Some((LowerFence(q.0, q.1, params.k), UpperFence(q.0, q.1, params.k)))
  }

  datatype Side = Below | Above

  datatype Outlier = Outlier(severity: real, side: Side)

  /** What a value is judged against two fences. */
  function JudgeFences(bounds: Option<(real, real)>, value: real): Option<Outlier> {
    if bounds.None? || bounds.value.0 <= value <= bounds.value.1 then None
    else if value < bounds.value.0 then Some(Outlier(bounds.value.0 - value, Below))
    else Some(Outlier(value - bounds.value.1, Above))
  }

  /** What a value is judged against a window of `n` values with quartiles `q`. */
  function Judge(params: Params, n: nat, q: (real, real), value: real): Option<Outlier> {
    JudgeFences(Bounds(params, n, q), value)
  }

  /** The same, sorting the window from scratch. */
  function JudgeWindow(params: Params, window: seq<real>, value: real): Option<Outlier> {
    Judge(params, |Sort(window)|, Quartiles(Sort(window)), value)
  }

  class IQRDetector {
    const params: Params
    var window: seq<real>
    var sorted: seq<real>
    /** Every value since construction or the last reset. */
    ghost var history: seq<real>

    ghost predicate Valid()
      reads this
    {
      params.Valid() && window == LastN(history, params.windowSize) && sorted == Sort(window)
    }

    constructor (params: Params)
      requires params.Valid()
      ensures Valid() && this.params == params && history == []
    {
      this.params := params;
      window, sorted, history := [], [], [];
    }

    method Reset()
      requires Valid()
      modifies this
      ensures Valid() && history == []
    {
      window, sorted, history := [], [], [];
    }

    /** `_add`: the guard before the deletion always finds the oldest value. */
    method Add(value: real)
      requires Valid()
      modifies this
      ensures Valid() && history == old(history) + [value]
    {
      SortSorts(window);
      if |window| == params.windowSize {
        var oldest := window[0];
        var idx := BisectLeft(sorted, oldest);
        EvictionFinds(window, sorted, idx);
        if idx < |sorted| && sorted[idx] == oldest {
          sorted := sorted[..idx] + sorted[idx + 1..];
        }
        window := window[1..];
      }
      LastNAppend(history, params.windowSize, value);
      InsertNext(window, value);
      window := window + [value];
      sorted := Insort(sorted, value);
      history := history + [value];
    }

    /** `detect` judges a value against sorting the last `window_size` earlier values from scratch. */
    method Detect(value: Option<real>) returns (event: Option<Outlier>)
      requires Valid()
      modifies this
      ensures Valid()
      ensures value.None? ==> event.None? && history == old(history)
      ensures value.Some? ==>
                && history == old(history) + [value.value]
                && event == JudgeWindow(params, LastN(old(history), params.windowSize), value.value)
    {
      if value.None? {
        return None;
      }
      var bounds := Bounds(params, |sorted|, Quartiles(sorted));
      Add(value.value);
      if bounds.None? {
        return None;
      }
      var lower, upper := bounds.value.0, bounds.value.1;
      if lower <= value.value <= upper {
        return None;
      }
      if value.value < lower {
        event := Some(Outlier(lower - value.value, Below));
      } else {
        event := Some(Outlier(value.value - upper, Above));
      }
    }
  }

  /** The oldest value of a full window is in the sorted list where `bisect_left` looks, and deleting it
      there leaves the rest of the window sorted. */
  lemma EvictionFinds(window: seq<real>, sorted: seq<real>, idx: nat)
    requires window != [] && Sorted(sorted) && multiset(sorted) == multiset(window)
    requires idx == BisectLeft(sorted, window[0])
    ensures idx < |sorted| && sorted[idx] == window[0]
    ensures sorted[..idx] + sorted[idx + 1..] == Sort(window[1..])
  {
    assert window[0] in multiset(sorted);
    BisectFinds(sorted, window[0]);
    var rest := RemoveAt(sorted, idx);
    WithoutFirst(window);
    AscendingIsSort(rest, window[1..]);
  }

  lemma WithoutFirst(window: seq<real>)
    requires window != []
    ensures multiset(window[1..]) == multiset(window) - multiset{window[0]}
  {
    assert window == [window[0]] + window[1..];
  }

  lemma BisectFinds(xs: seq<real>, v: real)
    requires Sorted(xs) && v in xs
    ensures BisectLeft(xs, v) < |xs| && xs[BisectLeft(xs, v)] == v
  {
    var j :| 0 <= j < |xs| && xs[j] == v;
    assert BisectLeft(xs, v) <= j;
  }

  lemma InsertNext(window: seq<real>, value: real)
    ensures Insort(Sort(window), value) == Sort(window + [value])
  {
    assert (window + [value])[..|window|] == window;
  }

  // ---------- what the decision means ----------

  lemma JudgeBetween(params: Params, n: nat, q: (real, real), value: real)
    requires params.k > 0.0 && q.0 <= q.1
    ensures q.0 <= value <= q.1 ==> Judge(params, n, q, value).None?
    ensures Judge(params, n, q, value).Some? ==> Judge(params, n, q, value).value.severity > 0.0
  {
    FencesOutside(q.0, q.1, params.k);
  }

  lemma FencesOutside(q1: real, q3: real, k: real)
    requires q1 <= q3 && k > 0.0
    ensures LowerFence(q1, q3, k) <= q1 && q3 <= UpperFence(q1, q3, k)
  {
    assert k * (q3 - q1) >= 0.0;
  }

  /** A value between the quartiles is never an outlier, and every reported severity is positive. */
  lemma BetweenQuartilesIsNormal(params: Params, window: seq<real>, value: real)
    requires params.Valid()
    ensures var q := Quartiles(Sort(window));
      && q.0 <= q.1
      && (q.0 <= value <= q.1 ==> JudgeWindow(params, window, value).None?)
      && (JudgeWindow(params, window, value).Some? ==> JudgeWindow(params, window, value).value.severity > 0.0)
  {
    SortSorts(window);
    if window != [] { PercentileMonotone(Sort(window), 0.25, 0.75); }
    JudgeBetween(params, |Sort(window)|, Quartiles(Sort(window)), value);
  }

  lemma QuarterRanks(m: nat, r: nat, last: nat)
    requires last == 4 * m + r
    ensures 0.25 * last as real == m as real + r as real / 4.0
    ensures 0.75 * last as real == (last - m - 1) as real + (1.0 - r as real / 4.0)
  {
  }

  lemma LineBackwards(x: real, y: real, t: real)
    ensures x + (1.0 - t) * (y - x) == y - t * (y - x)
  {
  }

  /** `r` quarters of the way from the value at `m` to the next, and the same counted from the other end. */
  function FromBelow(xs: seq<real>, m: nat, r: nat): real
    requires m + 1 < |xs|
  {
    xs[m] + r as real / 4.0 * (xs[m + 1] - xs[m])
  }

  function FromAbove(xs: seq<real>, m: nat, r: nat): real
    requires m + 1 < |xs|
  {
    var i := |xs| - 1 - m; xs[i] - r as real / 4.0 * (xs[i] - xs[i - 1])
  }

  /** With n - 1 = 4m + r, the quartiles lie r quarters beyond the value at m, counted from either end. */
  lemma QuartilesAre(sorted: seq<real>, m: nat, r: nat)
    requires |sorted| >= 2 && |sorted| - 1 == 4 * m + r && r < 4
    ensures Quartiles(sorted) == (FromBelow(sorted, m, r), FromAbove(sorted, m, r))
  {
    FirstQuartile(sorted, m, r);
    ThirdQuartile(sorted, m, r);
  }

  lemma FirstQuartile(sorted: seq<real>, m: nat, r: nat)
    requires |sorted| >= 2 && |sorted| - 1 == 4 * m + r && r < 4
    ensures Percentile(sorted, 0.25) == FromBelow(sorted, m, r)
  {
    QuarterRanks(m, r, |sorted| - 1);
    PercentileOnLine(sorted, 0.25, m);
  }

  lemma ThirdQuartile(sorted: seq<real>, m: nat, r: nat)
    requires |sorted| >= 2 && |sorted| - 1 == 4 * m + r && r < 4
    ensures Percentile(sorted, 0.75) == FromAbove(sorted, m, r)
  {
    var i := |sorted| - 1 - m;
    QuarterRanks(m, r, |sorted| - 1);
    PercentileOnLine(sorted, 0.75, i - 1);
    LineBackwards(sorted[i - 1], sorted[i], r as real / 4.0);
  }

  /** What lies beyond two fences, by how much and on which side. */
  function Beyond(lower: real, upper: real, value: real): Option<Outlier> {
    if value < lower then Some(Outlier(lower - value, Below))
    else if value > upper then Some(Outlier(value - upper, Above))
    else None
  }

  /** What is more than `k` times their distance outside two quartiles. */
  function Outside(q1: real, q3: real, k: real, value: real): Option<Outlier> {
    Beyond(q1 - k * (q3 - q1), q3 + k * (q3 - q1), value)
  }

  lemma JudgeIs(params: Params, n: nat, q1: real, q3: real, value: real)
    ensures Judge(params, n, (q1, q3), value)
         == if n < params.minSamples || q1 == q3 then None else Outside(q1, q3, params.k, value)
  {
  }

  /** The decision on every window, from any ascending arrangement `s` of it: none below `minSamples` values or
      with equal quartiles, and otherwise what lies more than k times their distance outside them. */
  lemma DecisionIs(params: Params, window: seq<real>, s: seq<real>, m: nat, r: nat, value: real)
    requires params.Valid() && Sorted(s) && multiset(s) == multiset(window) && |s| - 1 == 4 * m + r && r < 4
    ensures |s| == |window|
    ensures JudgeWindow(params, window, value) ==
      if |s| < params.minSamples then None
      else var q1, q3 := FromBelow(s, m, r), FromAbove(s, m, r);
        if q1 == q3 then None else Outside(q1, q3, params.k, value)
  {
    AscendingIsSort(s, window);
    SortSorts(window);
    JudgeIs(params, |s|, Quartiles(s).0, Quartiles(s).1, value);
    if |s| >= params.minSamples { QuartilesAre(s, m, r); }
  }

  /** The fences of evenly spaced values: half of `k` widths beyond the quarter points. */
  function EvenLower(a: real, width: real, k: real): real { a + (0.25 - 0.5 * k) * width }

  function EvenUpper(a: real, width: real, k: real): real { a + (0.75 + 0.5 * k) * width }

  lemma EvenOutside(a: real, width: real, k: real, value: real)
    ensures Outside(a + 0.25 * width, a + 0.75 * width, k, value)
         == Beyond(EvenLower(a, width, k), EvenUpper(a, width, k), value)
  {
    assert k * ((a + 0.75 * width) - (a + 0.25 * width)) == (0.5 * k) * width;
  }

  lemma SpacedOrder(xs: seq<real>, a: real, d: real, i: nat, j: nat)
    requires d > 0.0 && i < j < |xs| && xs[i] == a + i as real * d && xs[j] == a + j as real * d
    ensures xs[i] <= xs[j]
  {
    ProductOrder(i as real, j as real, d);
  }

  lemma SpacedSorted(xs: seq<real>, a: real, d: real)
    requires d > 0.0 && EvenlySpaced(xs, a, d)
    ensures Sorted(xs)
  {
    forall i, j | 0 <= i < j < |xs| ensures xs[i] <= xs[j] { SpacedOrder(xs, a, d, i, j); }
  }

  /** A window of values `d` apart, in any order: where the fences are, and what is flagged beyond them. */
  lemma EvenWindow(params: Params, window: seq<real>, xs: seq<real>, a: real, d: real, value: real)
    requires params.Valid() && d > 0.0 && EvenlySpaced(xs, a, d) && multiset(xs) == multiset(window)
    requires |xs| >= params.minSamples
    ensures var width, k := Span(|xs|, d), params.k;
      JudgeWindow(params, window, value) == Beyond(EvenLower(a, width, k), EvenUpper(a, width, k), value)
  {
    SpacedSorted(xs, a, d);
    JudgeSorted(params, window, xs, value);
    EvenJudged(params, xs, a, d, value);
  }

  lemma JudgeSorted(params: Params, window: seq<real>, xs: seq<real>, value: real)
    requires Sorted(xs) && multiset(xs) == multiset(window)
    ensures JudgeWindow(params, window, value) == Judge(params, |xs|, Quartiles(xs), value)
  {
    AscendingIsSort(xs, window);
  }

  lemma EvenJudged(params: Params, xs: seq<real>, a: real, d: real, value: real)
    requires params.Valid() && d > 0.0 && EvenlySpaced(xs, a, d) && |xs| >= params.minSamples
    ensures var width, k := Span(|xs|, d), params.k;
      Judge(params, |xs|, Quartiles(xs), value)
        == Beyond(EvenLower(a, width, k), EvenUpper(a, width, k), value)
  {
    var width := Span(|xs|, d);
    EvenQuartiles(xs, a, d);
    ProductStrict(0.0, (|xs| - 1) as real, d);
    JudgeEven(params, |xs|, a, width, value);
  }

  lemma JudgeEven(params: Params, n: nat, a: real, width: real, value: real)
    requires n >= params.minSamples && width > 0.0
    ensures var k := params.k;
      Judge(params, n, (a + 0.25 * width, a + 0.75 * width), value)
        == Beyond(EvenLower(a, width, k), EvenUpper(a, width, k), value)
  {
    JudgeIs(params, n, a + 0.25 * width, a + 0.75 * width, value);
    EvenOutside(a, width, params.k, value);
  }

  lemma EvenQuartiles(xs: seq<real>, a: real, d: real)
    requires xs != [] && EvenlySpaced(xs, a, d)
    ensures var width := Span(|xs|, d); Quartiles(xs) == (a + 0.25 * width, a + 0.75 * width)
  {
    PercentileOfEven(xs, 0.25, a, d);
    PercentileOfEven(xs, 0.75, a, d);
  }

  /** Too few values, or all equal: nothing is flagged. */
  lemma NoSpread(params: Params, window: seq<real>, x: real, value: real)
    requires params.Valid() && (|window| < params.minSamples || forall i | 0 <= i < |window| :: window[i] == x)
    ensures JudgeWindow(params, window, value).None?
  {
    SortSorts(window);
    if |window| >= params.minSamples {
      var s := Sort(window);
      forall i | 0 <= i < |s| ensures s[i] == x + i as real * 0.0 { assert s[i] in multiset(window); }
      EvenQuartiles(s, x, 0.0);
      JudgeIs(params, |s|, x, x, value);
    }
  }

  lemma {:induction false} BisectMap(xs: seq<real>, v: real, f: real -> real)
    requires Increasing(f)
    ensures BisectRight(Map(f, xs), f(v)) == BisectRight(xs, v)
  {
    if xs == [] {
    } else {
      MapOfSlice(f, xs, 1, |xs|);
      BisectMap(xs[1..], v, f);
    }
  }

  lemma InsortMap(xs: seq<real>, v: real, f: real -> real)
    requires Increasing(f)
    ensures Insort(Map(f, xs), f(v)) == Map(f, Insort(xs, v))
  {
    BisectMap(xs, v, f);
  }

  /** Sorting commutes with every increasing map. */
  lemma {:induction false} SortMap(xs: seq<real>, f: real -> real)
    requires Increasing(f)
    ensures Sort(Map(f, xs)) == Map(f, Sort(xs))
  {
    if xs == [] {
    } else {
      var n := |xs| - 1;
      MapOfSlice(f, xs, 0, n);
      SortMap(xs[..n], f);
      InsortMap(Sort(xs[..n]), xs[n], f);
    }
  }

  lemma FencesInterpolate(q1: real, q3: real, k: real)
    ensures LowerFence(q1, q3, k) == Interpolate(q1, q3, -k)
    ensures UpperFence(q1, q3, k) == Interpolate(q3, q1, -k)
  {
  }

  lemma FenceMap(q1: real, q3: real, k: real, f: real -> real)
    requires KeepsProportions(f)
    ensures LowerFence(f(q1), f(q3), k) == f(LowerFence(q1, q3, k))
    ensures UpperFence(f(q1), f(q3), k) == f(UpperFence(q1, q3, k))
  {
    FencesInterpolate(q1, q3, k);
    FencesInterpolate(f(q1), f(q3), k);
    assert f(Interpolate(q1, q3, -k)) == Interpolate(f(q1), f(q3), -k);
    assert f(Interpolate(q3, q1, -k)) == Interpolate(f(q3), f(q1), -k);
  }

  function MapFences(bounds: Option<(real, real)>, f: real -> real): Option<(real, real)> {
    if bounds.None? then None else Some((f(bounds.value.0), f(bounds.value.1)))
  }

  lemma FencesMap(params: Params, n: nat, q: (real, real), f: real -> real)
    requires Increasing(f) && KeepsProportions(f)
    ensures Bounds(params, n, (f(q.0), f(q.1))) == MapFences(Bounds(params, n, q), f)
  {
    FenceMap(q.0, q.1, params.k, f);
    if q.0 < q.1 { assert f(q.0) < f(q.1); }
    if q.1 < q.0 { assert f(q.1) < f(q.0); }
  }

  lemma JudgeFencesMap(bounds: Option<(real, real)>, value: real, f: real -> real)
    requires Increasing(f)
    ensures var plain := JudgeFences(bounds, value); var mapped := JudgeFences(MapFences(bounds, f), f(value));
      plain.Some? == mapped.Some? && (plain.Some? ==> mapped.value.side == plain.value.side)
  {
  }

  /** A change of unit changes no decision and no side ... */
  lemma JudgeMap(params: Params, history: seq<real>, value: real, f: real -> real)
    requires Increasing(f) && KeepsProportions(f)
    ensures var plain := JudgeWindow(params, LastN(history, params.windowSize), value);
            var mapped := JudgeWindow(params, LastN(Map(f, history), params.windowSize), f(value));
      plain.Some? == mapped.Some? && (plain.Some? ==> mapped.value.side == plain.value.side)
  {
    var window := LastN(history, params.windowSize);
    MapOfWindow(f, history, params.windowSize);
    SortMap(window, f);
    SortSorts(window);
    JudgeFencesMap(Bounds(params, |Sort(window)|, Quartiles(Sort(window))), value, f);
    if window == [] {
      assert Map(f, window) == [];
    } else {
      QuartilesMap(Sort(window), f);
      FencesMap(params, |Sort(window)|, Quartiles(Sort(window)), f);
    }
  }

  lemma QuartilesMap(sorted: seq<real>, f: real -> real)
    requires sorted != [] && KeepsProportions(f)
    ensures Quartiles(Map(f, sorted)) == (f(Quartiles(sorted).0), f(Quartiles(sorted).1))
  {
    PercentileMap(sorted, 0.25, f);
    PercentileMap(sorted, 0.75, f);
  }

  lemma AffineIsUnitChange(a: real, b: real, f: real -> real)
    requires a > 0.0 && forall x :: f(x) == a * x + b
    ensures Increasing(f) && KeepsProportions(f)
  {
    forall x, y | x < y ensures f(x) < f(y) { assert a * (y - x) > 0.0; }
    forall x, y, t ensures f(Interpolate(x, y, t)) == Interpolate(f(x), f(y), t) { Proportion(a, b, x, y, t); }
  }

  lemma Proportion(a: real, b: real, x: real, y: real, t: real)
    ensures a * (x + t * (y - x)) + b == (a * x + b) + t * ((a * y + b) - (a * x + b))
  {
    assert (a * y + b) - (a * x + b) == a * (y - x);
    assert t * (a * (y - x)) == a * (t * (y - x));
  }

  /** ... so every decision is unchanged when the metric is mapped by x -> a*x + b with a > 0. */
  lemma FlaggingIsScaleFree(params: Params, history: seq<real>, value: real, a: real, b: real)
    requires a > 0.0
    ensures var f := (x: real) => a * x + b;
            var plain := JudgeWindow(params, LastN(history, params.windowSize), value);
            var mapped := JudgeWindow(params, LastN(Map(f, history), params.windowSize), f(value));
      plain.Some? == mapped.Some? && (plain.Some? ==> mapped.value.side == plain.value.side)
  {
    var f := (x: real) => a * x + b;
    AffineIsUnitChange(a, b, f);
    JudgeMap(params, history, value, f);
  }
}
