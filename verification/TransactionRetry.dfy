/** TransactionManager.execute_with_retry. */
module TransactionRetry {
  import opened Prelude
  import opened Backoff

  /** What one run of the operation does. */
  datatype Attempt = Success(value: int) | Retryable(error: int, deadlock: bool) | Fatal(error: int)

  datatype Reason = Exhausted(retries: int) | NonRetryable | NeverTried

  datatype Outcome = Returned(value: int) | TransactionError(reason: Reason, original: Option<int>)

  /** `max_retries or self.max_retries`: 0 counts as not given. */
  function EffectiveRetries(maxRetries: Option<int>): int {
    if maxRetries.None? || maxRetries.value == 0 then 3 else maxRetries.value
  }

  function EffectiveDelay(retryDelay: Option<real>): real {
    if retryDelay.None? || retryDelay.value == 0.0 then 0.5 else retryDelay.value
  }

  const DEADLOCK_DELAY := 1.0

  function Base(a: Attempt, delay: real): real {
    if a.Retryable? && a.deadlock then DEADLOCK_DELAY else delay
  }

  /** The sleeps after attempts 0 to k - 1. */
  function Slept(attempts: nat -> Attempt, delay: real, k: nat): real {
    if k == 0 then 0.0 else Slept(attempts, delay, k - 1) + Base(attempts(k - 1), delay) * Power(2.0, k - 1)
  }

  ghost predicate AllRetryable(attempts: nat -> Attempt, k: nat) {
    forall i :: 0 <= i < k ==> attempts(i).Retryable?
  }

  /**
   * With n retries: every attempt before the last one made failed retryably, and that one
   * succeeded, failed for good, or was attempt n + 1.
   */
  ghost predicate RetryMeaning(attempts: nat -> Attempt, n: int, delay: real,
                               outcome: Outcome, tried: nat, slept: real) {
    if n < 0 then
      outcome == TransactionError(NeverTried, None) && tried == 0 && slept == 0.0
    else
      && 1 <= tried <= n + 1 && AllRetryable(attempts, tried - 1) && slept == Slept(attempts, delay, tried - 1)
      && match attempts(tried - 1)
         case Success(v) => outcome == Returned(v)
         case Fatal(e) => outcome == TransactionError(NonRetryable, Some(e))
         case Retryable(e, _) => tried == n + 1 && outcome == TransactionError(Exhausted(n), Some(e))
  }

  class TransactionManager {
    method ExecuteWithRetry(attempts: nat -> Attempt, maxRetries: Option<int>, retryDelay: Option<real>)
      returns (outcome: Outcome, tried: nat, slept: real)
      ensures RetryMeaning(attempts, if maxRetries.None? || maxRetries.value == 0 then 3 else maxRetries.value,
                           if retryDelay.None? || retryDelay.value == 0.0 then 0.5 else retryDelay.value, outcome, tried, slept)
    {
      outcome, tried, slept := TryAll(attempts, EffectiveRetries(maxRetries), EffectiveDelay(retryDelay));
    }

    /** The loop over the attempts. */
    method TryAll(attempts: nat -> Attempt, n: int, base: real) returns (outcome: Outcome, tried: nat, slept: real)
      ensures RetryMeaning(attempts, n, base, outcome, tried, slept)
    {
      tried, slept := 0, 0.0;
      while tried < n + 1
        invariant tried == 0 || tried < n + 1
        invariant AllRetryable(attempts, tried) && slept == Slept(attempts, base, tried)
        decreases n + 1 - tried
      {
        var attempt := attempts(tried);
        tried := tried + 1;
        match attempt {
          case Success(value) =>
            return Returned(value), tried, slept;
          case Retryable(error, deadlock) =>
            if tried - 1 == n {
              return TransactionError(Exhausted(n), Some(error)), tried, slept;
            }
            var seconds := if deadlock then DEADLOCK_DELAY else base;
            slept := slept + seconds * Power(2.0, tried - 1);
          case Fatal(error) =>
            return TransactionError(NonRetryable, Some(error)), tried, slept;
        }
      }
      return TransactionError(NeverTried, None), tried, slept;
    }
  }

  /** After attempt k a deadlock waits 2^k seconds and any other failure the delay times 2^k. */
  lemma SleepAfter(attempts: nat -> Attempt, delay: real, k: nat)
    ensures Slept(attempts, delay, k + 1) - Slept(attempts, delay, k)
            == if attempts(k).Retryable? && attempts(k).deadlock then Power(2.0, k) else delay * Power(2.0, k)
  {
  }

  // ---------- The bounds ----------

  function Worst(delay: real): real {
    if delay > DEADLOCK_DELAY then delay else DEADLOCK_DELAY
  }

  lemma {:induction false} SleepBound(attempts: nat -> Attempt, delay: real, k: nat)
    ensures Slept(attempts, delay, k) <= Worst(delay) * (Power(2.0, k) - 1.0)
  {
    if k > 0 {
      SleepBound(attempts, delay, k - 1);
      SleepBoundStep(attempts, delay, k);
    }
  }

  lemma SleepBoundStep(attempts: nat -> Attempt, delay: real, k: nat)
    requires k > 0 && Slept(attempts, delay, k - 1) <= Worst(delay) * (Power(2.0, k - 1) - 1.0)
    ensures Slept(attempts, delay, k) <= Worst(delay) * (Power(2.0, k) - 1.0)
  {
    PowerMonotone(k - 1, k - 1);
    var before, base, p := Slept(attempts, delay, k - 1), Base(attempts(k - 1), delay), Power(2.0, k - 1);
    assert Slept(attempts, delay, k) == before + base * p;
    assert Power(2.0, k) == 2.0 * p;
    OneMoreSleep(before, base, Worst(delay), p, Power(2.0, k));
  }

  lemma OneMoreSleep(before: real, base: real, worst: real, p: real, doubled: real)
    requires before <= worst * (p - 1.0) && base <= worst && p >= 0.0 && doubled == 2.0 * p
    ensures before + base * p <= worst * (doubled - 1.0)
  {
    Scale(base, worst, p);
    Doubling(worst, p);
  }

  lemma Doubling(w: real, p: real)
    ensures w * (p - 1.0) + w * p == w * (2.0 * p - 1.0)
  {
  }

  lemma Scale(a: real, b: real, c: real)
    requires a <= b && c >= 0.0
    ensures a * c <= b * c
  {
  }

  lemma SleepBoundUpTo(attempts: nat -> Attempt, delay: real, k: nat, n: nat)
    requires k <= n
    ensures Slept(attempts, delay, k) <= Worst(delay) * (Power(2.0, n) - 1.0)
  {
    SleepBound(attempts, delay, k);
    PowerMonotone(k, n);
    Scale(Power(2.0, k) - 1.0, Power(2.0, n) - 1.0, Worst(delay));
  }

  /** The bound is met when every failed attempt waits the longer of the two delays. */
  lemma {:induction false} SleepBoundIsMet(attempts: nat -> Attempt, delay: real, k: nat)
    requires forall i :: 0 <= i < k ==> Base(attempts(i), delay) == Worst(delay)
    ensures Slept(attempts, delay, k) == Worst(delay) * (Power(2.0, k) - 1.0)
  {
    if k > 0 {
      SleepBoundIsMet(attempts, delay, k - 1);
      Doubling(Worst(delay), Power(2.0, k - 1));
    }
  }

  /**
   * The operation runs at most n + 1 times; the call returns exactly when some attempt succeeds
   * after retryable failures only; and it sleeps at most the longer delay times 2^n - 1.
   */
  lemma RetryIsBounded(attempts: nat -> Attempt, n: int, delay: real, outcome: Outcome, tried: nat, slept: real)
    requires n >= 0 && RetryMeaning(attempts, n, delay, outcome, tried, slept)
    ensures 1 <= tried <= n + 1
    ensures outcome.Returned? <==> exists i :: 0 <= i <= n && attempts(i).Success? && AllRetryable(attempts, i)
    ensures outcome.TransactionError? && outcome.reason.Exhausted? <==> AllRetryable(attempts, n + 1)
    ensures slept <= Worst(delay) * (Power(2.0, n) - 1.0)
  {
    SleepBoundUpTo(attempts, delay, tried - 1, n);
    if outcome.Returned? {
      assert attempts(tried - 1).Success? && AllRetryable(attempts, tried - 1);
    } else if outcome.reason.NonRetryable? {
      assert attempts(tried - 1).Fatal?;
    }
  }

  /** A negative number of retries never runs the operation. */
  lemma NegativeRetriesNeverRun(attempts: nat -> Attempt, maxRetries: Option<int>, delay: real,
                                outcome: Outcome, tried: nat, slept: real)
    requires RetryMeaning(attempts, if maxRetries.None? || maxRetries.value == 0 then 3 else maxRetries.value, delay,
                          outcome, tried, slept)
    ensures tried == 0 <==> maxRetries.Some? && maxRetries.value < 0
    ensures tried == 0 ==> outcome == TransactionError(NeverTried, None)
  {
  }
}
