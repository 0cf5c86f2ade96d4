/** stages/decorators/retry.py: retries with capped exponential backoff. */
module Retry {
  import opened Windows

  datatype Params = Params(maxRetries: int, base: real, cap: real, factor: real) {
    predicate Valid() {
      maxRetries >= 0 && base >= 0.0
    }
  }

  /** How one call of the inner stage ends: only a transient failure is retried. */
  datatype Outcome<R> = Returned(record: R) | Transient(message: string) | Failed(message: string)

  function Power(x: real, n: nat): real {
    if n == 0 then 1.0 else x * Power(x, n - 1)
  }

  function Backoff(params: Params, k: nat): real {
    params.base * Power(params.factor, k)
  }

  /** The sleep after failed call `k`, counted from zero. */
  function Delay(params: Params, k: nat): real {
    if Backoff(params, k) < params.cap then Backoff(params, k) else params.cap
  }

  function Times(n: int, x: real): real { n as real * x }

  /** `process`, for any sequence of inner outcomes: it stops at the first call that does not fail transiently
      or at call max_retries + 1, whichever is first, and ends as that call did. */
  method Process<R>(params: Params, inner: int -> Outcome<R>)
    returns (outcome: Outcome<R>, calls: int, sleeps: seq<real>)
    requires params.Valid()
    ensures 1 <= calls <= params.maxRetries + 1
    ensures outcome == inner(calls - 1)
    ensures forall k | 0 <= k < calls - 1 :: inner(k).Transient?
    ensures outcome.Transient? ==> calls == params.maxRetries + 1
    ensures |sleeps| == calls - 1
    ensures forall k | 0 <= k < |sleeps| :: sleeps[k] == Delay(params, k)
    ensures BacksOff(params, sleeps)
    ensures params.cap >= 0.0 ==> Sum(sleeps) <= Times(params.maxRetries, params.cap)
  {
    var attempt := 0;
    calls, sleeps := 0, [];
    while true
      invariant 0 <= attempt == calls == |sleeps| <= params.maxRetries
      invariant forall k | 0 <= k < calls :: inner(k).Transient?
      invariant forall k | 0 <= k < |sleeps| :: sleeps[k] == Delay(params, k)
      decreases params.maxRetries - attempt
    {
      outcome := inner(calls);
      calls := calls + 1;
      if !outcome.Transient? {
        break;
      }
      attempt := attempt + 1;
      if attempt > params.maxRetries {
        break;
      }
      sleeps := sleeps + [Delay(params, attempt - 1)];
    }
    TotalBound(params, sleeps, params.maxRetries);
    DelaysBackOff(params, sleeps);
  }

  /** It starts at `base` and grows by the factor, up to `cap`. */
  predicate BacksOff(params: Params, sleeps: seq<real>) {
    && (sleeps != [] ==> sleeps[0] == AtMost(params.base, params.cap))
    && forall k | 0 < k < |sleeps| && sleeps[k - 1] < params.cap ::
         sleeps[k] == AtMost(params.factor * sleeps[k - 1], params.cap)
  }

  lemma DelaysBackOff(params: Params, sleeps: seq<real>)
    requires forall k | 0 <= k < |sleeps| :: sleeps[k] == Delay(params, k)
    ensures BacksOff(params, sleeps)
  {
    FirstDelay(params);
    forall k | 0 < k < |sleeps| && sleeps[k - 1] < params.cap
      ensures sleeps[k] == AtMost(params.factor * sleeps[k - 1], params.cap)
    {
      DelayNext(params, k - 1);
    }
  }

  function AtMost(x: real, bound: real): real { if x <= bound then x else bound }

  lemma FirstDelay(params: Params)
    ensures Delay(params, 0) == AtMost(params.base, params.cap)
  {
  }

  lemma TimesCommute(x: real, y: real, z: real)
    ensures x * (y * z) == y * (x * z)
  {
  }

  /** A delay below the cap is followed by `factor` times itself, or the cap. */
  lemma DelayNext(params: Params, k: nat)
    requires Delay(params, k) < params.cap
    ensures Delay(params, k + 1) == AtMost(params.factor * Delay(params, k), params.cap)
  {
    TimesCommute(params.base, params.factor, Power(params.factor, k));
  }

  lemma {:induction false} TotalOfCapped(params: Params, sleeps: seq<real>)
    requires forall k | 0 <= k < |sleeps| :: sleeps[k] == Delay(params, k)
    ensures Sum(sleeps) <= Times(|sleeps|, params.cap)
  {
    if sleeps == [] {
    } else {
      TotalOfCapped(params, sleeps[..|sleeps| - 1]);
    }
  }

  lemma TimesGrows(m: int, n: int, x: real)
    requires m <= n && x >= 0.0
    ensures Times(m, x) <= Times(n, x)
  {
    ProductOrder(m as real, n as real, x);
  }

  lemma TotalBound(params: Params, sleeps: seq<real>, most: int)
    requires |sleeps| <= most
    requires forall k | 0 <= k < |sleeps| :: sleeps[k] == Delay(params, k)
    ensures params.cap >= 0.0 ==> Sum(sleeps) <= Times(most, params.cap)
  {
    TotalOfCapped(params, sleeps);
    if params.cap >= 0.0 { TimesGrows(|sleeps|, most, params.cap); }
  }

  lemma {:induction false} PowerGrows(x: real, k: nat)
    requires x >= 1.0
    ensures 0.0 <= Power(x, k) <= Power(x, k + 1)
  {
    if k == 0 {
    } else {
      PowerGrows(x, k - 1);
    }
    ProductOrder(1.0, x, Power(x, k));
  }

  lemma BackoffGrows(params: Params, k: nat)
    requires params.Valid() && params.factor >= 1.0
    ensures Backoff(params, k) <= Backoff(params, k + 1)
  {
    PowerGrows(params.factor, k);
    ProductOrder(Power(params.factor, k), Power(params.factor, k + 1), params.base);
  }

  /** With a factor of at least one the delays never decrease. */
  lemma {:induction false} DelaysNeverDecrease(params: Params, i: nat, j: nat)
    requires params.Valid() && params.factor >= 1.0 && i <= j
    ensures Delay(params, i) <= Delay(params, j)
    decreases j
  {
    if i == j {
    } else {
      DelaysNeverDecrease(params, i, j - 1);
      BackoffGrows(params, j - 1);
    }
  }
}
