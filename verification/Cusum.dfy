/** detectors/cusum.py: the two-sided CUSUM recursion against maximum suffix sums. */
module Cusum {
  import opened Wrappers
  import opened Windows

  datatype Params = Params(threshold: real, slack: real, warmupSamples: nat) {
    predicate Valid() {
      threshold > 0.0 && slack >= 0.0 && warmupSamples >= 2
    }
  }

  // ---------- suffix sums ----------

  /** The sum of the last |xs| - k values. */
  function SuffixSum(xs: seq<real>, k: nat): real
    requires k <= |xs|
  {
    Sum(xs[k..])
  }

  /** `m` is the largest suffix sum; the empty suffix makes it at least 0. */
  ghost predicate IsMaxSuffix(m: real, xs: seq<real>) {
    && (forall k: nat | k <= |xs| :: SuffixSum(xs, k) <= m)
    && (exists k: nat :: k <= |xs| && SuffixSum(xs, k) == m)
  }

  lemma SuffixAppend(xs: seq<real>, x: real, k: nat)
    requires k <= |xs|
    ensures SuffixSum(xs + [x], k) == SuffixSum(xs, k) + x
  {
    var all := (xs + [x])[k..];
    assert all[..|all| - 1] == xs[k..];
  }

  /** The recursion keeps the maximum suffix sum. */
  lemma MaxSuffixNext(m: real, xs: seq<real>, x: real)
    requires IsMaxSuffix(m, xs)
    ensures IsMaxSuffix(Max(0.0, m + x), xs + [x])
  {
    var all := xs + [x];
    var m' := Max(0.0, m + x);
    forall k: nat | k <= |all| ensures SuffixSum(all, k) <= m' {
      if k <= |xs| { SuffixAppend(xs, x, k); } else { assert all[k..] == []; }
    }
    var k: nat :| k <= |xs| && SuffixSum(xs, k) == m;
    SuffixAppend(xs, x, k);
    assert all[|all|..] == [];
    assert SuffixSum(all, |all|) == 0.0;
    assert SuffixSum(all, if m + x > 0.0 then k else |all|) == m';
  }

  /** A value exceeds the maximum suffix sum never, and the maximum exceeds a bound exactly when some
      suffix sum does. */
  lemma MaxSuffixExceeds(m: real, xs: seq<real>, bound: real)
    requires IsMaxSuffix(m, xs)
    ensures m > bound <==> exists k: nat :: k <= |xs| && SuffixSum(xs, k) > bound
  {
  }

  // ---------- the detector ----------

  /** The deviations above and below, less the slack. */
  function Highs(devs: seq<real>, slack: real): (xs: seq<real>) {
    if devs == [] then [] else Highs(devs[..|devs| - 1], slack) + [devs[|devs| - 1] - slack]
  }

  function Lows(devs: seq<real>, slack: real): (xs: seq<real>) {
    if devs == [] then [] else Lows(devs[..|devs| - 1], slack) + [-devs[|devs| - 1] - slack]
  }

  ghost predicate Drifted(xs: seq<real>, threshold: real) {
    exists k: nat :: k <= |xs| && SuffixSum(xs, k) > threshold
  }

  datatype Direction = Up | Down

  datatype Alarm = Alarm(score: real, direction: Direction)

  function Deviation(target: real, sigma: real, value: real): real
    requires sigma > 0.0
  {
    (value - target) / sigma
  }

  lemma DeviationTimes(target: real, sigma: real, value: real)
    requires sigma > 0.0
    ensures Deviation(target, sigma, value) * sigma == value - target
  {
  }

  /** `count` standard deviations from the target. */
  function Mark(target: real, sigma: real, count: real): real { target + count * sigma }

  /** A deviation counts standard deviations from the target. */
  lemma DeviationOrder(target: real, sigma: real, value: real, bound: real)
    requires sigma > 0.0
    ensures Deviation(target, sigma, value) > bound <==> value > Mark(target, sigma, bound)
    ensures Deviation(target, sigma, value) < bound <==> value < Mark(target, sigma, bound)
  {
    var deviation := Deviation(target, sigma, value);
    DeviationTimes(target, sigma, value);
    if deviation > bound { ProductStrict(bound, deviation, sigma); }
    if deviation < bound { ProductStrict(deviation, bound, sigma); }
  }

  /** The value lies on the alarm's side of the target, more than the slack away. */
  predicate OnSide(direction: Direction, target: real, sigma: real, slack: real, value: real) {
    if direction == Up then value > Mark(target, sigma, slack) else value < Mark(target, sigma, -slack)
  }

  lemma SideOfDeviation(target: real, sigma: real, value: real, slack: real, direction: Direction)
    requires sigma > 0.0
    ensures OnSide(direction, target, sigma, slack, value)
       <==> if direction == Up then Deviation(target, sigma, value) > slack else Deviation(target, sigma, value) < -slack
  {
    DeviationOrder(target, sigma, value, slack);
    DeviationOrder(target, sigma, value, -slack);
  }

  /** What `devs`, the deviations since the last alarm or calibration, lead to: an alarm when one side has
      drifted, never both, which names that side and forgets the deviations. */
  ghost predicate Outcome(params: Params, devs: seq<real>, alarm: Option<Alarm>, since: seq<real>) {
    var up := Drifted(Highs(devs, params.slack), params.threshold);
    var down := Drifted(Lows(devs, params.slack), params.threshold);
    && (alarm.Some? <==> up || down) && !(up && down)
    && since == (if alarm.Some? then [] else devs)
    && (alarm.Some? ==>
          && (alarm.value.direction == if up then Up else Down)
          && IsMaxSuffix(alarm.value.score, if up then Highs(devs, params.slack) else Lows(devs, params.slack)))
  }

  class CUSUMDetector {
    const params: Params
    var warmup: seq<real>
    var target: Option<real>
    var sigma: Option<real>
    var sHigh: real
    var sLow: real
    /** The deviations since the last alarm, calibration or reset. */
    ghost var since: seq<real>

    ghost predicate Valid()
      reads this
    {
      && params.Valid()
      && target.Some? == sigma.Some? && (sigma.Some? ==> sigma.value > 0.0)
      && (target.None? ==> |warmup| < params.warmupSamples && since == [])
      && IsMaxSuffix(sHigh, Highs(since, params.slack)) && IsMaxSuffix(sLow, Lows(since, params.slack))
      && 0.0 <= sHigh <= params.threshold && 0.0 <= sLow <= params.threshold
    }

    constructor (params: Params)
      requires params.Valid()
      ensures Valid() && this.params == params && warmup == [] && target == None && since == []
    {
      this.params := params;
      warmup, target, sigma, sHigh, sLow, since := [], None, None, 0.0, 0.0, [];
      new;
      EmptySuffix();
    }

    /** Calibrated, and the value lies more than the slack from the target on that side. */
    ghost predicate Beside(direction: Direction, value: real)
      reads this
    {
      target.Some? && sigma.Some? && OnSide(direction, target.value, sigma.value, params.slack, value)
    }

    method Reset()
      requires Valid()
      modifies this
      ensures Valid() && warmup == [] && target == None && sigma == None && since == []
    {
      warmup, target, sigma, sHigh, sLow, since := [], None, None, 0.0, 0.0, [];
      EmptySuffix();
    }

    /** The calibrated half of `detect`: it fires exactly when some suffix of the deviations since the last
        alarm or calibration drifts beyond the threshold, and then forgets them. */
    method Accumulate(deviation: real) returns (alarm: Option<Alarm>)
      requires Valid() && target.Some?
      modifies this
      ensures Valid() && target == old(target) && sigma == old(sigma) && warmup == old(warmup)
      ensures Outcome(params, old(since) + [deviation], alarm, since)
      ensures alarm.Some? ==>
                if alarm.value.direction == Up then deviation > params.slack else deviation < -params.slack
    {
      var high := Max(0.0, sHigh + deviation - params.slack);
      var low := Max(0.0, sLow - deviation - params.slack);
      ghost var devs := since + [deviation];
      Accumulates(params, since, deviation, sHigh, sLow, devs, high, low);
      if high > params.threshold || low > params.threshold {
        var direction := if high > params.threshold then Up else Down;
        alarm := Some(Alarm(Max(high, low), direction));
        EmptySuffix();
        sHigh, sLow, since := 0.0, 0.0, [];
      } else {
        alarm := None;
        sHigh, sLow, since := high, low, devs;
      }
    }

    /** `detect`; `value` is None when the metric is no number, and `root` stands for `variance**0.5`. */
    method Detect(value: Option<real>, root: real) returns (alarm: Option<Alarm>)
      requires Valid()
      modifies this
      ensures Valid()
      ensures value.None? ==> alarm.None? && since == old(since) && warmup == old(warmup)
                              && target == old(target) && sigma == old(sigma)
      ensures value.Some? && old(target).None? ==>
                && alarm.None? && since == [] && warmup == old(warmup) + [value.value]
                && (target.Some? <==> |warmup| == params.warmupSamples)
                && (target.Some? ==> target.value == Mean(warmup) && sigma == Some(Max(root, 0.000000000001)))
      ensures value.Some? && old(target).Some? ==>
                && target == old(target) && sigma == old(sigma) && warmup == old(warmup)
                && Outcome(params, old(since) + [Deviation(old(target).value, old(sigma).value, value.value)], alarm, since)
      ensures alarm.Some? ==> value.Some? && Beside(alarm.value.direction, value.value)
    {
      if value.None? {
        return None;
      }
      if target.None? || sigma.None? {
        warmup := warmup + [value.value];
        if |warmup| < params.warmupSamples {
          return None;
        }
        target := Some(Mean(warmup));
        sigma := Some(Max(root, 0.000000000001));
        return None;
      }
      alarm := Accumulate(Deviation(target.value, sigma.value, value.value));
      if alarm.Some? {
        SideOfDeviation(target.value, sigma.value, value.value, params.slack, alarm.value.direction);
      }
    }
  }

  lemma EmptySuffix()
    ensures IsMaxSuffix(0.0, [])
  {
    assert SuffixSum([], 0) == 0.0;
  }

  lemma DeviationNext(since: seq<real>, deviation: real, slack: real)
    ensures Highs(since + [deviation], slack) == Highs(since, slack) + [deviation - slack]
    ensures Lows(since + [deviation], slack) == Lows(since, slack) + [-deviation - slack]
  {
    assert (since + [deviation])[..|since|] == since;
  }

  /** The recursion as the code writes it. */
  lemma MaxSuffixGrows(m: real, xs: seq<real>, x: real, grown: seq<real>, next: real)
    requires IsMaxSuffix(m, xs) && grown == xs + [x] && next == Max(0.0, m + x)
    ensures IsMaxSuffix(next, grown)
  {
    MaxSuffixNext(m, xs, x);
  }

  lemma GrowHigh(since: seq<real>, deviation: real, slack: real, high: real)
    requires IsMaxSuffix(high, Highs(since, slack))
    ensures IsMaxSuffix(Max(0.0, high + deviation - slack), Highs(since + [deviation], slack))
  {
    DeviationNext(since, deviation, slack);
    MaxSuffixGrows(high, Highs(since, slack), deviation - slack, Highs(since + [deviation], slack),
                   Max(0.0, high + deviation - slack));
  }

  lemma GrowLow(since: seq<real>, deviation: real, slack: real, low: real)
    requires IsMaxSuffix(low, Lows(since, slack))
    ensures IsMaxSuffix(Max(0.0, low - deviation - slack), Lows(since + [deviation], slack))
  {
    DeviationNext(since, deviation, slack);
    MaxSuffixGrows(low, Lows(since, slack), -deviation - slack, Lows(since + [deviation], slack),
                   Max(0.0, low - deviation - slack));
  }

  lemma Grow(since: seq<real>, deviation: real, slack: real, high: real, low: real)
    requires IsMaxSuffix(high, Highs(since, slack)) && IsMaxSuffix(low, Lows(since, slack))
    ensures IsMaxSuffix(Max(0.0, high + deviation - slack), Highs(since + [deviation], slack))
    ensures IsMaxSuffix(Max(0.0, low - deviation - slack), Lows(since + [deviation], slack))
  {
    GrowHigh(since, deviation, slack, high);
    GrowLow(since, deviation, slack, low);
  }

  /** The two sums after one more deviation, and the alarm they lead to. */
  lemma Accumulates(params: Params, since: seq<real>, deviation: real, high: real, low: real,
                    devs: seq<real>, h: real, l: real)
    requires params.Valid() && 0.0 <= high <= params.threshold && 0.0 <= low <= params.threshold
    requires IsMaxSuffix(high, Highs(since, params.slack)) && IsMaxSuffix(low, Lows(since, params.slack))
    requires devs == since + [deviation]
    requires h == Max(0.0, high + deviation - params.slack) && l == Max(0.0, low - deviation - params.slack)
    ensures IsMaxSuffix(h, Highs(devs, params.slack)) && IsMaxSuffix(l, Lows(devs, params.slack))
    ensures if h > params.threshold || l > params.threshold
            then Outcome(params, devs, Some(Alarm(Max(h, l), if h > params.threshold then Up else Down)), [])
            else Outcome(params, devs, None, devs)
  {
    Grow(since, deviation, params.slack, high, low);
    MaxSuffixExceeds(h, Highs(devs, params.slack), params.threshold);
    MaxSuffixExceeds(l, Lows(devs, params.slack), params.threshold);
  }

  // ---------- how fast it fires, and when it never does ----------

  /** No alarm at the i-th of the deviations `devs` that come in after `since`, the ones since the last alarm. */
  ghost predicate SilentAt(p: Params, since: seq<real>, devs: seq<real>, i: nat)
    requires i <= |devs|
  {
    !Drifted(Highs(since + devs[..i], p.slack), p.threshold) && !Drifted(Lows(since + devs[..i], p.slack), p.threshold)
  }

  /** ... and none at any of the first `n`. */
  ghost predicate SilentTo(p: Params, since: seq<real>, devs: seq<real>, n: nat)
    requires n <= |devs|
  {
    forall i | 0 < i <= n :: SilentAt(p, since, devs, i)
  }

  ghost predicate Silent(p: Params, since: seq<real>, devs: seq<real>) {
    SilentTo(p, since, devs, |devs|)
  }

  lemma SilentNext(p: Params, since: seq<real>, devs: seq<real>, n: nat)
    requires n < |devs| && SilentTo(p, since, devs, n)
    ensures SilentAt(p, since, devs, n + 1) ==> SilentTo(p, since, devs, n + 1)
    ensures !SilentAt(p, since, devs, n + 1) ==> !Silent(p, since, devs)
  {
  }

  lemma {:induction false} HighsSum(devs: seq<real>, slack: real, d: real)
    requires forall i | 0 <= i < |devs| :: devs[i] >= slack + d
    ensures |Highs(devs, slack)| == |devs| && Sum(Highs(devs, slack)) >= |devs| as real * d
  {
    if devs == [] {
    } else {
      var n := |devs| - 1;
      HighsSum(devs[..n], slack, d);
      assert Highs(devs, slack)[..n] == Highs(devs[..n], slack);
      assert |devs| as real * d == n as real * d + d;
      assert Sum(Highs(devs, slack)) == Sum(Highs(devs[..n], slack)) + (devs[n] - slack);
    }
  }

  function Negated(xs: seq<real>): (ys: seq<real>)
    ensures |ys| == |xs| && forall i | 0 <= i < |xs| :: ys[i] == -xs[i]
  {
    seq(|xs|, i requires 0 <= i < |xs| => -xs[i])
  }

  lemma {:induction false} LowsMirror(devs: seq<real>, slack: real)
    ensures Lows(devs, slack) == Highs(Negated(devs), slack)
  {
    if devs == [] {
    } else {
      var n := |devs| - 1;
      LowsMirror(devs[..n], slack);
      assert Negated(devs)[..n] == Negated(devs[..n]);
    }
  }

  lemma WholeSumDrifts(xs: seq<real>, threshold: real)
    requires Sum(xs) > threshold
    ensures Drifted(xs, threshold)
  {
    assert xs[0..] == xs;
    assert SuffixSum(xs, 0) > threshold;
  }

  lemma DriftIsNotSilent(p: Params, devs: seq<real>)
    requires devs != [] && (Drifted(Highs(devs, p.slack), p.threshold) || Drifted(Lows(devs, p.slack), p.threshold))
    ensures !Silent(p, [], devs)
  {
    assert [] + devs[..|devs|] == devs;
    assert !SilentAt(p, [], devs, |devs|);
  }

  lemma LowsSum(devs: seq<real>, slack: real, d: real)
    requires forall i | 0 <= i < |devs| :: devs[i] <= -slack - d
    ensures Sum(Lows(devs, slack)) >= |devs| as real * d
  {
    var up := Negated(devs);
    LowsMirror(devs, slack);
    HighsSum(up, slack, d);
    assert |up| == |devs|;
  }

  /** All deviations reach `margin` on one side. */
  predicate Reach(side: Direction, devs: seq<real>, margin: real) {
    forall i | 0 <= i < |devs| :: if side == Up then devs[i] >= margin else devs[i] <= -margin
  }

  /** From zeroed sums, a stream that stays at least `d` beyond the slack on one side cannot be silent for
      more than threshold / d samples. */
  lemma FiresWithin(p: Params, side: Direction, devs: seq<real>, d: real)
    requires p.Valid() && d > 0.0 && |devs| as real * d > p.threshold && Reach(side, devs, p.slack + d)
    ensures !Silent(p, [], devs)
  {
    if side == Up {
      HighsSum(devs, p.slack, d);
      WholeSumDrifts(Highs(devs, p.slack), p.threshold);
    } else {
      LowsSum(devs, p.slack, d);
      WholeSumDrifts(Lows(devs, p.slack), p.threshold);
    }
    DriftIsNotSilent(p, devs);
  }

  /** All deviations are at most `margin` to either side. */
  predicate Quiet(devs: seq<real>, margin: real) {
    forall i | 0 <= i < |devs| :: -margin <= devs[i] <= margin
  }

  lemma QuietNext(since: seq<real>, deviation: real, slack: real, high: real, grown: seq<real>) returns (high': real)
    requires deviation <= slack && grown == since + [deviation] && IsMaxSuffix(high, Highs(since, slack))
    ensures IsMaxSuffix(high', Highs(grown, slack)) && high' <= Max(0.0, high)
  {
    GrowHigh(since, deviation, slack, high);
    high' := Max(0.0, high + deviation - slack);
  }

  /** While the deviations stay within the slack the sums do not grow: the upper one ... */
  lemma {:induction false} QuietHighs(slack: real, since: seq<real>, devs: seq<real>, high: real) returns (high': real)
    requires Quiet(devs, slack) && IsMaxSuffix(high, Highs(since, slack))
    ensures IsMaxSuffix(high', Highs(since + devs, slack)) && high' <= Max(0.0, high)
  {
    if devs == [] {
      assert since + devs == since;
      high' := high;
    } else {
      var n := |devs| - 1;
      var h := QuietHighs(slack, since, devs[..n], high);
      high' := QuietNext(since + devs[..n], devs[n], slack, h, since + devs);
    }
  }

  /** ... and, seen from the other side, the lower one. */
  lemma QuietLows(slack: real, since: seq<real>, devs: seq<real>, low: real) returns (low': real)
    requires Quiet(devs, slack) && IsMaxSuffix(low, Lows(since, slack))
    ensures IsMaxSuffix(low', Lows(since + devs, slack)) && low' <= Max(0.0, low)
  {
    LowsMirror(since, slack);
    LowsMirror(since + devs, slack);
    assert Negated(since + devs) == Negated(since) + Negated(devs);
    low' := QuietHighs(slack, Negated(since), Negated(devs), low);
  }

  /** Deviations within the slack never raise an alarm, from any state the detector can be in. */
  lemma NeverFiresWithinSlack(p: Params, since: seq<real>, devs: seq<real>, high: real, low: real)
    requires p.Valid() && Quiet(devs, p.slack)
    requires IsMaxSuffix(high, Highs(since, p.slack)) && IsMaxSuffix(low, Lows(since, p.slack))
    requires high <= p.threshold && low <= p.threshold
    ensures Silent(p, since, devs)
  {
    forall i | 0 < i <= |devs| ensures SilentAt(p, since, devs, i)
    {
      var h := QuietHighs(p.slack, since, devs[..i], high);
      var l := QuietLows(p.slack, since, devs[..i], low);
      MaxSuffixExceeds(h, Highs(since + devs[..i], p.slack), p.threshold);
      MaxSuffixExceeds(l, Lows(since + devs[..i], p.slack), p.threshold);
    }
  }

  // ---------- the detector over a stream ----------

  function Deviations(target: real, sigma: real, values: seq<real>): (devs: seq<real>)
    requires sigma > 0.0
    ensures |devs| == |values| && forall i | 0 <= i < |values| :: devs[i] == Deviation(target, sigma, values[i])
  {
    seq(|values|, i requires 0 <= i < |values| => Deviation(target, sigma, values[i]))
  }

  /** One sample of a stream, after `i` silent ones. */
  method FeedNext(detector: CUSUMDetector, value: real, ghost before: seq<real>, ghost devs: seq<real>, ghost i: nat)
    returns (alarm: Option<Alarm>)
    requires detector.Valid() && detector.target.Some? && i < |devs| && detector.since == before + devs[..i]
    requires devs[i] == Deviation(detector.target.value, detector.sigma.value, value)
    modifies detector
    ensures detector.Valid() && detector.target == old(detector.target) && detector.sigma == old(detector.sigma)
    ensures alarm.None? <==> SilentAt(detector.params, before, devs, i + 1)
    ensures alarm.None? ==> detector.since == before + devs[..i + 1]
    ensures alarm.Some? ==> detector.Beside(alarm.value.direction, value)
  {
    ghost var grown := before + devs[..i + 1];
    assert detector.since + [devs[i]] == grown;
    alarm := detector.Detect(Some(value), 0.0);
  }

  /** Feeds a calibrated detector until it fires: the result is the number of silent samples before the first
      alarm, if there is one, and that alarm. */
  method FeedUntilAlarm(detector: CUSUMDetector, values: seq<real>, ghost devs: seq<real>)
    returns (first: Option<nat>, alarm: Option<Alarm>)
    requires detector.Valid() && detector.target.Some?
    requires devs == Deviations(detector.target.value, detector.sigma.value, values)
    modifies detector
    ensures detector.Valid()
    ensures first.None? <==> Silent(detector.params, old(detector.since), devs)
    ensures first.Some? ==>
              && first.value < |values| && !SilentAt(detector.params, old(detector.since), devs, first.value + 1)
              && SilentTo(detector.params, old(detector.since), devs, first.value)
    ensures detector.target == old(detector.target) && detector.sigma == old(detector.sigma)
    ensures alarm.Some? <==> first.Some?
    ensures first.Some? ==> detector.Beside(alarm.value.direction, values[first.value])
  {
    ghost var before := detector.since;
    assert before == before + devs[..0];
    for i := 0 to |values|
      invariant detector.Valid() && detector.target == old(detector.target) && detector.sigma == old(detector.sigma)
      invariant detector.since == before + devs[..i]
      invariant SilentTo(detector.params, before, devs, i)
    {
      SilentNext(detector.params, before, devs, i);
      alarm := FeedNext(detector, values[i], before, devs, i);
      if alarm.Some? {
        return Some(i), alarm;
      }
    }
    return None, None;
  }

  /** All values at least `margin` standard deviations from the target on one side. */
  predicate DriftsTo(side: Direction, values: seq<real>, target: real, sigma: real, margin: real) {
    forall i | 0 <= i < |values| ::
      if side == Up then values[i] >= Mark(target, sigma, margin) else values[i] <= Mark(target, sigma, -margin)
  }

  /** In the detector's measure that is a deviation of `margin`. */
  lemma DeviationsReach(side: Direction, target: real, sigma: real, values: seq<real>, margin: real)
    requires sigma > 0.0
    ensures Reach(side, Deviations(target, sigma, values), margin) <==> DriftsTo(side, values, target, sigma, margin)
  {
    forall i | 0 <= i < |values|
      ensures Deviation(target, sigma, values[i]) >= margin <==> values[i] >= Mark(target, sigma, margin)
      ensures Deviation(target, sigma, values[i]) <= -margin <==> values[i] <= Mark(target, sigma, -margin)
    {
      DeviationOrder(target, sigma, values[i], margin);
      DeviationOrder(target, sigma, values[i], -margin);
    }
  }

  /** All values at most `margin` standard deviations from the target. */
  predicate Near(values: seq<real>, target: real, sigma: real, margin: real) {
    forall i | 0 <= i < |values| :: Mark(target, sigma, -margin) <= values[i] <= Mark(target, sigma, margin)
  }

  lemma DeviationsNear(target: real, sigma: real, values: seq<real>, margin: real)
    requires sigma > 0.0
    ensures Quiet(Deviations(target, sigma, values), margin) <==> Near(values, target, sigma, margin)
  {
    var devs := Deviations(target, sigma, values);
    forall i | 0 <= i < |values|
      ensures -margin <= devs[i] <= margin <==> Mark(target, sigma, -margin) <= values[i] <= Mark(target, sigma, margin)
    {
      DeviationOrder(target, sigma, values[i], margin);
      DeviationOrder(target, sigma, values[i], -margin);
    }
  }

  lemma DriftSide(side: Direction, target: real, sigma: real, slack: real, d: real, value: real, direction: Direction)
    requires sigma > 0.0 && slack >= 0.0 && d > 0.0 && OnSide(direction, target, sigma, slack, value)
    requires var deviation := Deviation(target, sigma, value);
      if side == Up then deviation >= slack + d else deviation <= -(slack + d)
    ensures direction == side
  {
    SideOfDeviation(target, sigma, value, slack, direction);
  }

  /** When deviations that reach beyond the slack on one side are not silent, the first alarm names that side. */
  method FirstAlarm(detector: CUSUMDetector, values: seq<real>, ghost devs: seq<real>, ghost side: Direction, ghost d: real)
    returns (first: nat, alarm: Alarm)
    requires detector.Valid() && detector.target.Some?
    requires devs == Deviations(detector.target.value, detector.sigma.value, values)
    requires d > 0.0 && Reach(side, devs, detector.params.slack + d)
    requires !Silent(detector.params, detector.since, devs)
    modifies detector
    ensures detector.Valid() && first < |values| && alarm.direction == side
  {
    ghost var target, sigma := detector.target.value, detector.sigma.value;
    var found, fired := FeedUntilAlarm(detector, values, devs);
    first, alarm := found.value, fired.value;
    assert devs[first] == Deviation(target, sigma, values[first]);
    DriftSide(side, target, sigma, detector.params.slack, d, values[first], alarm.direction);
  }

  /** A calibrated detector with zeroed sums fires within any n > threshold / d samples of a stream that stays at
      least `d` beyond the slack on one side, and names that side. */
  method DriftFires(detector: CUSUMDetector, values: seq<real>, ghost devs: seq<real>, ghost side: Direction, ghost d: real)
    returns (first: nat, alarm: Alarm)
    requires detector.Valid() && detector.target.Some? && detector.since == []
    requires devs == Deviations(detector.target.value, detector.sigma.value, values)
    requires d > 0.0 && Reach(side, devs, detector.params.slack + d)
    requires |devs| as real * d > detector.params.threshold
    modifies detector
    ensures detector.Valid() && first < |values| && alarm.direction == side
  {
    FiresWithin(detector.params, side, devs, d);
    first, alarm := FirstAlarm(detector, values, devs, side, d);
  }

  /** No calibrated detector, whatever it has accumulated, fires on a stream that stays within the slack. */
  method QuietStaysSilent(detector: CUSUMDetector, values: seq<real>, ghost devs: seq<real>) returns (first: Option<nat>)
    requires detector.Valid() && detector.target.Some?
    requires devs == Deviations(detector.target.value, detector.sigma.value, values)
    requires Quiet(devs, detector.params.slack)
    modifies detector
    ensures detector.Valid() && first.None?
  {
    NeverFiresWithinSlack(detector.params, detector.since, devs, detector.sHigh, detector.sLow);
    var found, alarm := FeedUntilAlarm(detector, values, devs);
    first := found;
  }
}
