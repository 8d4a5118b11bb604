/** Retrying with exponential backoff and jitter. */
module Backoff {
  import opened Bounds

  /** A duration scaled by a factor. */
  function Scaled(delay: real, factor: real): real { delay * factor }

  function Power(x: real, k: nat): real {
    if k == 0 then 1.0 else x * Power(x, k - 1)
  }

  /** The delay before jitter after the k-th failure, counted from 1: capped from the second on, not before. */
  function DelayAt(initial: real, multiplier: real, maxDelay: real, k: nat): real
    requires k > 0
  {
    if k == 1 then initial else MinReal(Scaled(DelayAt(initial, multiplier, maxDelay, k - 1), multiplier), maxDelay)
  }

  /** The initial delay grown `k` times, never capped. */
  function Grown(initial: real, multiplier: real, k: nat): real {
    if k == 0 then initial else Scaled(Grown(initial, multiplier, k - 1), multiplier)
  }

  lemma {:induction false} GrownIsPower(initial: real, multiplier: real, k: nat)
    ensures Grown(initial, multiplier, k) == Scaled(initial, Power(multiplier, k))
  {
    if k > 0 {
      GrownIsPower(initial, multiplier, k - 1);
      var p := Power(multiplier, k - 1);
      assert initial * p * multiplier == initial * (multiplier * p);
    }
  }

  lemma {:induction false} GrownNonNegative(initial: real, multiplier: real, k: nat)
    requires initial >= 0.0 && multiplier >= 1.0
    ensures Grown(initial, multiplier, k) >= 0.0
  {
    if k > 0 {
      GrownNonNegative(initial, multiplier, k - 1);
    }
  }

  lemma {:induction false} DelayIsCappedGrowth(initial: real, multiplier: real, maxDelay: real, k: nat)
    requires k >= 2 && multiplier >= 1.0 && initial >= 0.0 && maxDelay >= 0.0
    ensures DelayAt(initial, multiplier, maxDelay, k) == MinReal(Grown(initial, multiplier, k - 1), maxDelay)
  {
    hide Scaled;
    if k > 2 {
      DelayIsCappedGrowth(initial, multiplier, maxDelay, k - 1);
      GrownNonNegative(initial, multiplier, k - 2);
      CapCommutes(Grown(initial, multiplier, k - 2), multiplier, maxDelay);
    } else {
      assert Grown(initial, multiplier, 1) == Scaled(Grown(initial, multiplier, 0), multiplier);
    }
  }

  /**
   * For a multiplier of at least one the delays are the initial one times a power of the multiplier, capped from
   * the second on.
   */
  lemma DelayClosedForm(initial: real, multiplier: real, maxDelay: real, k: nat)
    requires k > 0 && multiplier >= 1.0 && initial >= 0.0 && maxDelay >= 0.0
    ensures
      var grown := Scaled(initial, Power(multiplier, k - 1));
      DelayAt(initial, multiplier, maxDelay, k) == if k == 1 then grown else MinReal(grown, maxDelay)
  {
    hide Scaled;
    GrownIsPower(initial, multiplier, k - 1);
    if k > 1 {
      DelayIsCappedGrowth(initial, multiplier, maxDelay, k);
    } else {
      assert Grown(initial, multiplier, 0) == initial;
    }
  }

  /** Growing a capped delay and capping it again is the same as capping the grown one. */
  lemma CapCommutes(full: real, multiplier: real, cap: real)
    requires full >= 0.0 && multiplier >= 1.0 && cap >= 0.0
    ensures MinReal(Scaled(MinReal(full, cap), multiplier), cap) == MinReal(Scaled(full, multiplier), cap)
  {
    assert cap * multiplier >= cap && full * multiplier >= full;
  }

  /** The jitter factor drawn from a clock reading: from 0.75 in steps up to just under 1.25. */
  function Jitter(seed: nat): (j: real)
    ensures 0.75 <= j < 1.25
  {
    0.75 + (seed % 1000) as real / 2000.0
  }

  /** From one clock reading to the next the factor grows by a two-thousandth, back to 0.75 every thousand. */
  lemma JitterSteps(seed: nat)
    ensures Jitter(0) == 0.75
    ensures Jitter(seed + 1) == if (seed + 1) % 1000 == 0 then 0.75 else Jitter(seed) + 0.0005
  {
    var m := seed % 1000;
    assert (seed + 1) % 1000 == if m == 999 then 0 else m + 1;
  }

  /** The attempts made when attempt `n` succeeds as `succeeds(n)` says: up to the first success or the limit. */
  predicate IsLastAttempt(succeeds: nat -> bool, maxAttempts: nat, calls: nat) {
    && calls >= 1
    && (forall n: nat :: 1 <= n < calls ==> !succeeds(n) && n < maxAttempts)
    && (succeeds(calls) || calls >= maxAttempts)
  }

  /**
   * Calls the function until it succeeds or the attempts run out, sleeping between calls. The attempts are
   * numbered from 1, and `slept` lists the jittered delays in order.
   */
  method RetryWithBackoff(succeeds: nat -> bool, maxAttempts: nat, initial: real, multiplier: real, maxDelay: real,
                          seeds: nat -> nat)
    returns (ok: bool, calls: nat, slept: seq<real>)
    ensures IsLastAttempt(succeeds, maxAttempts, calls) && ok == succeeds(calls)
    ensures calls <= (if maxAttempts > 1 then maxAttempts else 1)
    ensures |slept| == calls - 1
    ensures forall i :: 0 <= i < |slept| ==>
              slept[i] == Scaled(DelayAt(initial, multiplier, maxDelay, i + 1), Jitter(seeds(i)))
  {
    hide MinReal, Scaled;
    calls, slept := 0, [];
    var delay := initial;
    while true
      invariant calls == |slept| && (calls > 0 ==> calls < maxAttempts)
      invariant forall n: nat :: 1 <= n <= calls ==> !succeeds(n)
      invariant delay == DelayAt(initial, multiplier, maxDelay, calls + 1)
      invariant forall i :: 0 <= i < |slept| ==>
        slept[i] == Scaled(DelayAt(initial, multiplier, maxDelay, i + 1), Jitter(seeds(i)))
      decreases maxAttempts - calls
    {
      calls := calls + 1;
      if succeeds(calls) {
        return true, calls, slept;
      }
      if calls >= maxAttempts {
        return false, calls, slept;
      }
      slept := slept + [Scaled(delay, Jitter(seeds(calls - 1)))];
      delay := MinReal(Scaled(delay, multiplier), maxDelay);
    }
  }

  lemma LastAttemptUnique(succeeds: nat -> bool, maxAttempts: nat, m: nat, n: nat)
    requires IsLastAttempt(succeeds, maxAttempts, m) && IsLastAttempt(succeeds, maxAttempts, n)
    ensures m == n
  {
    NotBothLast(succeeds, maxAttempts, m, n);
    NotBothLast(succeeds, maxAttempts, n, m);
  }

  lemma NotBothLast(succeeds: nat -> bool, maxAttempts: nat, m: nat, n: nat)
    requires IsLastAttempt(succeeds, maxAttempts, m) && IsLastAttempt(succeeds, maxAttempts, n)
    ensures m >= n
  {
    var ok := succeeds(m);
    assert 1 <= m < n ==> !ok && m < maxAttempts;
  }

  // The Postgres source connects this way, over a counter that makes the first two attempts of a process fail.

  const OUTAGES: nat := 2

  class Connector {
    var attempts: nat

    constructor ()
      ensures attempts == 0
    {
      attempts := 0;
    }

    /** Connecting always succeeds in the end, and the failures are over once and for all. */
    method Connect(seeds: nat -> nat) returns (ok: bool, calls: nat, slept: seq<real>)
      modifies this
      ensures ok && attempts == old(attempts) + calls && attempts > OUTAGES
      ensures calls == if old(attempts) < OUTAGES then OUTAGES - old(attempts) + 1 else 1
      ensures |slept| == calls - 1
      ensures |slept| > 0 ==> slept[0] == 0.05 * Jitter(seeds(0))
      ensures |slept| > 1 ==> slept[1] == 0.1 * Jitter(seeds(1))
    {
      var before := attempts;
      var succeeds := (n: nat) => n > 0 && before + n - 1 >= OUTAGES;
      ok, calls, slept := RetryWithBackoff(succeeds, 5, 0.05, 2.0, 0.5, seeds);
      var expected := if before < OUTAGES then OUTAGES - before + 1 else 1;
      LastAttemptUnique(succeeds, 5, calls, expected);
      attempts := before + calls;
    }
  }
}
