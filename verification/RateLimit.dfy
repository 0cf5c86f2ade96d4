/** stages/validation/rate_limit_validator.py: a token bucket per source. */
module RateLimit {

  datatype Params = Params(capacity: int, refill: real) {
    predicate Valid() {
      capacity > 0 && refill > 0.0
    }
  }

  datatype Bucket = Bucket(tokens: real, last: real)

  /** One call of `validate`: the record's source and the clock it reads. */
  datatype Call = Call(source: string, now: real)

  function KeyOf(source: string): string {
    if source == "" then "<unknown>" else source
  }

  function Min(x: real, y: real): real { if y < x then y else x }

  /** Tokens earned between two clock readings; a clock that steps back earns nothing. */
  function Gain(params: Params, from: real, to: real): (g: real)
    requires params.Valid()
    ensures g >= 0.0
  {
    (if to > from then to - from else 0.0) * params.refill
  }

  /** The clock readings of one key's calls, in order. */
  function TimesOf(calls: seq<Call>, key: string): seq<real> {
    if calls == [] then []
    else
      var last := calls[|calls| - 1];
      TimesOf(calls[..|calls| - 1], key) + if KeyOf(last.source) == key then [last.now] else []
  }

  // ---------- one bucket ----------

  /** What call `k` of a key finds in its bucket. */
  function Level(params: Params, times: seq<real>, k: nat): (level: real)
    requires params.Valid() && k < |times|
    ensures 0.0 <= level <= params.capacity as real
    decreases k, 0
  {
    if k == 0 then params.capacity as real
    else Min(params.capacity as real, Left(params, times, k - 1) + Gain(params, times[k - 1], times[k]))
  }

  predicate Accepts(params: Params, times: seq<real>, k: nat)
    requires params.Valid() && k < |times|
  {
    Level(params, times, k) >= 1.0
  }

  /** What call `k` leaves behind. */
  function Left(params: Params, times: seq<real>, k: nat): (left: real)
    requires params.Valid() && k < |times|
    ensures 0.0 <= left <= params.capacity as real
    decreases k, 1
  {
    var level := Level(params, times, k);
    if level >= 1.0 then level - 1.0 else level
  }

  /** How many of the calls i, ..., j-1 are accepted. */
  function Accepted(params: Params, times: seq<real>, i: nat, j: nat): nat
    requires params.Valid() && i <= j <= |times|
  {
    if i == j then 0
    else Accepted(params, times, i, j - 1) + if Accepts(params, times, j - 1) then 1 else 0
  }

  /** Tokens earned from call `i` to call `j`. */
  function Refill(params: Params, times: seq<real>, i: nat, j: nat): real
    requires params.Valid() && i <= j < |times|
  {
    if i == j then 0.0
    else Refill(params, times, i, j - 1) + Gain(params, times[j - 1], times[j])
  }

  /** What the window of calls that starts at `i` still allows at call `j`. */
  function Allowance(params: Params, times: seq<real>, i: nat, j: nat): real
    requires params.Valid() && i <= j < |times|
  {
    params.capacity as real + Refill(params, times, i, j) - Accepted(params, times, i, j) as real
  }

  lemma {:induction false} LevelWithinAllowance(params: Params, times: seq<real>, i: nat, j: nat)
    requires params.Valid() && i <= j < |times|
    ensures Level(params, times, j) <= Allowance(params, times, i, j)
  {
    if i == j {
    } else {
      LevelWithinAllowance(params, times, i, j - 1);
    }
  }

  lemma {:induction false} LevelIsSomeAllowance(params: Params, times: seq<real>, j: nat) returns (i: nat)
    requires params.Valid() && j < |times|
    ensures i <= j && Level(params, times, j) == Allowance(params, times, i, j)
  {
    i := j;
    if Level(params, times, j) < params.capacity as real {
      i := LevelIsSomeAllowance(params, times, j - 1);
    }
  }

  /** The bucket is the greedy filter for the rate bound: a call is accepted exactly when accepting it keeps
      every window of calls that ends with it within capacity + tokens earned, whatever the clock does. */
  lemma AcceptedIffEveryWindowAllows(params: Params, times: seq<real>, j: nat)
    requires params.Valid() && j < |times|
    ensures Accepts(params, times, j)
       <==> forall i: nat | i <= j ::
              Accepted(params, times, i, j) as real + 1.0 <= params.capacity as real + Refill(params, times, i, j)
  {
    if Accepts(params, times, j) {
      forall i: nat | i <= j
        ensures Accepted(params, times, i, j) as real + 1.0 <= params.capacity as real + Refill(params, times, i, j)
      {
        LevelWithinAllowance(params, times, i, j);
      }
    } else {
      var i := LevelIsSomeAllowance(params, times, j);
      assert Accepted(params, times, i, j) as real + 1.0 > params.capacity as real + Refill(params, times, i, j);
    }
  }

  /** The bound itself, over the calls i, ..., j. */
  lemma AcceptedWithinRefill(params: Params, times: seq<real>, i: nat, j: nat)
    requires params.Valid() && i <= j < |times|
    ensures Accepted(params, times, i, j + 1) as real <= params.capacity as real + Refill(params, times, i, j)
  {
    LevelWithinAllowance(params, times, i, j);
  }

  predicate NonDecreasing(times: seq<real>, i: nat, j: nat)
    requires i <= j < |times|
  {
    forall k | i < k <= j :: times[k - 1] <= times[k]
  }

  lemma GainsAdd(params: Params, a: real, b: real, c: real)
    requires params.Valid() && b <= c
    ensures (b - a) * params.refill + Gain(params, b, c) == (c - a) * params.refill
  {
  }

  lemma {:induction false} RefillIsElapsed(params: Params, times: seq<real>, i: nat, j: nat)
    requires params.Valid() && i <= j < |times| && NonDecreasing(times, i, j)
    ensures Refill(params, times, i, j) == (times[j] - times[i]) * params.refill
  {
    if i == j {
    } else {
      RefillIsElapsed(params, times, i, j - 1);
      GainsAdd(params, times[i], times[j - 1], times[j]);
    }
  }

  /** With a clock that does not step back, the calls from t1 to t2 have at most capacity + refill * (t2 - t1)
      accepted among them. */
  lemma RateBound(params: Params, times: seq<real>, i: nat, j: nat)
    requires params.Valid() && i <= j < |times| && NonDecreasing(times, i, j)
    ensures Accepted(params, times, i, j + 1) as real
         <= params.capacity as real + (times[j] - times[i]) * params.refill
  {
    AcceptedWithinRefill(params, times, i, j);
    RefillIsElapsed(params, times, i, j);
  }

  predicate NeverForward(times: seq<real>, i: nat, j: nat)
    requires i <= j < |times|
  {
    forall k | i < k <= j :: times[k] <= times[k - 1]
  }

  /** While the clock stands still or steps back nothing is earned, so at most `capacity` calls are accepted. */
  lemma {:induction false} NothingEarnedBackwards(params: Params, times: seq<real>, i: nat, j: nat)
    requires params.Valid() && i <= j < |times| && NeverForward(times, i, j)
    ensures Refill(params, times, i, j) == 0.0 && Accepted(params, times, i, j + 1) <= params.capacity
  {
    AcceptedWithinRefill(params, times, i, j);
    if i == j {
    } else {
      NothingEarnedBackwards(params, times, i, j - 1);
    }
  }

  /** The bound by elapsed time for one limiter and one window of the key's calls. */
  predicate WithinElapsed(params: Params, times: seq<real>, i: nat, j: nat) {
    params.Valid() && i <= j < |times| ==>
      Accepted(params, times, i, j + 1) as real <= params.capacity as real + (times[j] - times[i]) * params.refill
  }

  predicate ClockMonotone(times: seq<real>) {
    forall k | 0 < k < |times| :: times[k - 1] <= times[k]
  }

  lemma PositiveQuotient(d: real)
    requires d > 0.0
    ensures 2.0 / d > 0.0
  {
  }

  lemma TwiceOver(d: real, x: real)
    requires d > 0.0 && x == -d
    ensures x * (2.0 / d) == -2.0
  {
    var q := 2.0 / d;
    assert d * q == 2.0;
    assert x * q == -(d * q);
  }

  /** A clock that steps back by d breaks it: with capacity 1 and 2/d tokens a second the window of the two
      calls around the step would allow -1 calls. */
  lemma SteppingBackBreaksTheBound(times: seq<real>, k: nat) returns (params: Params)
    requires 0 < k < |times| && times[k] < times[k - 1]
    ensures params.Valid() && !WithinElapsed(params, times, k - 1, k)
  {
    var d := times[k - 1] - times[k];
    PositiveQuotient(d);
    params := Params(1, 2.0 / d);
    TwiceOver(d, times[k] - times[k - 1]);
  }

  /** The bound by elapsed time holds, for every limiter and every window, if and only if the key's clock
      readings never step back. */
  lemma BoundedIffClockMonotone(times: seq<real>)
    ensures (forall params: Params, i: nat, j: nat :: WithinElapsed(params, times, i, j)) <==> ClockMonotone(times)
  {
    if ClockMonotone(times) {
      forall params: Params, i: nat, j: nat ensures WithinElapsed(params, times, i, j) {
        if params.Valid() && i <= j < |times| { RateBound(params, times, i, j); }
      }
    } else {
      var k: nat :| 0 < k < |times| && times[k] < times[k - 1];
      var params := SteppingBackBreaksTheBound(times, k);
      assert !WithinElapsed(params, times, k - 1, k);
    }
  }

  lemma GainOfSpaced(params: Params, from: real, to: real)
    requires params.Valid() && to - from >= 1.0 / params.refill
    ensures Gain(params, from, to) >= 1.0
  {
    var k := params.refill;
    var surplus := to - from - 1.0 / k;
    assert surplus * k >= 0.0;
    assert (1.0 / k) * k == 1.0;
    assert (to - from) * k == surplus * k + (1.0 / k) * k;
  }

  /** A first call, and one at least 1/refill after the key's previous call, is never rejected. */
  lemma SpacedCallsAreAccepted(params: Params, times: seq<real>, k: nat)
    requires params.Valid() && k < |times|
    requires k == 0 || times[k] - times[k - 1] >= 1.0 / params.refill
    ensures Accepts(params, times, k)
  {
    if k > 0 {
      GainOfSpaced(params, times[k - 1], times[k]);
      assert Left(params, times, k - 1) + Gain(params, times[k - 1], times[k]) >= 1.0;
    }
  }

  // ---------- all the buckets ----------

  /** No source in the record, or the text that stands for none. */
  predicate Unnamed(source: string) { source == "" || source == "<unknown>" }

  /** Sources share a bucket only when they are equal, or when neither names one. */
  lemma KeysShared(a: string, b: string)
    ensures KeyOf(a) == KeyOf(b) <==> a == b || (Unnamed(a) && Unnamed(b))
  {
  }

  /** The clock readings of the calls with this source, in order; unnamed sources count as one. */
  function SourceTimes(calls: seq<Call>, source: string): seq<real> {
    if calls == [] then []
    else
      var last := calls[|calls| - 1];
      SourceTimes(calls[..|calls| - 1], source)
        + if last.source == source || (Unnamed(last.source) && Unnamed(source)) then [last.now] else []
  }

  lemma {:induction false} TimesAreSourceTimes(calls: seq<Call>, source: string)
    ensures TimesOf(calls, KeyOf(source)) == SourceTimes(calls, source)
  {
    if calls == [] {
    } else {
      TimesAreSourceTimes(calls[..|calls| - 1], source);
      KeysShared(calls[|calls| - 1].source, source);
    }
  }

  lemma {:induction false} LevelOfPrefix(params: Params, times: seq<real>, more: seq<real>, k: nat)
    requires params.Valid() && k < |times|
    ensures Level(params, times + more, k) == Level(params, times, k)
  {
    if k == 0 {
    } else {
      LevelOfPrefix(params, times, more, k - 1);
    }
  }

  /** A key's bucket after the calls `times`: none before the first. */
  ghost predicate Holds(params: Params, buckets: map<string, Bucket>, key: string, times: seq<real>)
    requires params.Valid()
  {
    if times == [] then key !in buckets
    else
      && key in buckets
      && buckets[key] == Bucket(Left(params, times, |times| - 1), times[|times| - 1])
  }

  ghost predicate AllHold(params: Params, buckets: map<string, Bucket>, calls: seq<Call>)
    requires params.Valid()
  {
    forall key :: Holds(params, buckets, key, TimesOf(calls, key))
  }

  lemma TimesAppend(calls: seq<Call>, call: Call, key: string)
    ensures TimesOf(calls + [call], key)
         == TimesOf(calls, key) + if KeyOf(call.source) == key then [call.now] else []
  {
    assert (calls + [call])[..|calls|] == calls;
  }

  /** A call touches its own key's bucket only. */
  lemma OthersUntouched(params: Params, buckets: map<string, Bucket>, calls: seq<Call>, call: Call, bucket: Bucket)
    requires params.Valid() && AllHold(params, buckets, calls)
    requires Holds(params, buckets[KeyOf(call.source) := bucket], KeyOf(call.source),
                   TimesOf(calls + [call], KeyOf(call.source)))
    ensures AllHold(params, buckets[KeyOf(call.source) := bucket], calls + [call])
  {
    forall key ensures Holds(params, buckets[KeyOf(call.source) := bucket], key, TimesOf(calls + [call], key)) {
      TimesAppend(calls, call, key);
      assert Holds(params, buckets, key, TimesOf(calls, key));
      if KeyOf(call.source) != key { assert TimesOf(calls + [call], key) == TimesOf(calls, key); }
    }
  }

  /** The bucket of the key after one more call at `now`. */
  lemma LevelNext(params: Params, times: seq<real>, now: real)
    requires params.Valid() && times != []
    ensures Level(params, times + [now], |times|)
         == Min(params.capacity as real,
                Left(params, times, |times| - 1) + Gain(params, times[|times| - 1], now))
  {
    LevelOfPrefix(params, times, [now], |times| - 1);
  }

  /** The tokens that the code computes, from the key's bucket or a new full one. */
  lemma TokensAreLevel(params: Params, buckets: map<string, Bucket>, key: string, times: seq<real>, bucket: Bucket,
                       now: real)
    requires params.Valid() && Holds(params, buckets, key, times)
    requires if key in buckets then bucket == buckets[key] else bucket.tokens == params.capacity as real
    ensures Min(params.capacity as real, bucket.tokens + Gain(params, bucket.last, now))
         == Level(params, times + [now], |times|)
  {
    if times != [] { LevelNext(params, times, now); }
  }

  /** The call's decision, and what it leaves in the buckets. */
  lemma DecidesAndHolds(params: Params, buckets: map<string, Bucket>, calls: seq<Call>, call: Call, bucket: Bucket,
                        tokens: real)
    requires params.Valid() && AllHold(params, buckets, calls)
    requires if KeyOf(call.source) in buckets then bucket == buckets[KeyOf(call.source)]
             else bucket.tokens == params.capacity as real
    requires tokens == Min(params.capacity as real, bucket.tokens + Gain(params, bucket.last, call.now))
    ensures var times := SourceTimes(calls + [call], call.source);
      times != [] && (tokens >= 1.0 <==> Accepts(params, times, |times| - 1))
    ensures var left := Bucket(if tokens >= 1.0 then tokens - 1.0 else tokens, call.now);
      AllHold(params, buckets[KeyOf(call.source) := left], calls + [call])
  {
    var key := KeyOf(call.source);
    var before := TimesOf(calls, key);
    assert Holds(params, buckets, key, before);
    TimesAppend(calls, call, key);
    TokensAreLevel(params, buckets, key, before, bucket, call.now);
    TimesAreSourceTimes(calls + [call], call.source);
    OthersUntouched(params, buckets, calls, call, Bucket(if tokens >= 1.0 then tokens - 1.0 else tokens, call.now));
  }

  class RateLimitValidator {
    const params: Params
    var buckets: map<string, Bucket>
    /** Every call so far. */
    ghost var calls: seq<Call>

    ghost predicate Valid()
      reads this
    {
      params.Valid() && AllHold(params, buckets, calls)
    }

    constructor (params: Params)
      requires params.Valid()
      ensures Valid() && this.params == params && calls == []
    {
      this.params := params;
      buckets, calls := map[], [];
    }

    /** `validate`. `created` is the clock reading of the bucket factory, taken after `now`, the first time the
        key is seen. The decision is that of the calls with the same source and of no others, except that
        a missing source and "<unknown>" count as one. */
    method Validate(source: string, now: real, created: real) returns (valid: bool)
      requires Valid()
      modifies this
      ensures Valid() && calls == old(calls) + [Call(source, now)]
      ensures var times := SourceTimes(calls, source);
              times != [] && (valid <==> Accepts(params, times, |times| - 1))
    {
      var key := KeyOf(source);
      var bucket := if key in buckets then buckets[key] else Bucket(params.capacity as real, created);
      var tokens := Min(params.capacity as real, bucket.tokens + Gain(params, bucket.last, now));
      valid := tokens >= 1.0;
      DecidesAndHolds(params, buckets, calls, Call(source, now), bucket, tokens);
      buckets := buckets[key := Bucket(if valid then tokens - 1.0 else tokens, now)];
      calls := calls + [Call(source, now)];
    }
  }
}
