/** Calls with retries, and the node queries built on them. */
module Rpc {
  import opened Decimals
  import opened Wrappers

  const NANOS_PER_SECOND: int := 1_000_000_000

  /** The largest attempt number whose back-off still fits in a `time.Duration`. */
  const LAST_EXACT_ATTEMPT: nat := 4_611_686_018

  function Int64(x: int): int {
    var m := x % TWO_TO_THE_64;
    if m < TWO_TO_THE_64 / 2 then m else m - TWO_TO_THE_64
  }

  /** `time.Duration(2 * attempt) * time.Second`; a non-positive sleep returns at once. */
  function BackoffNanos(attempt: nat): nat {
    var d := Int64(Int64(2 * attempt) * NANOS_PER_SECOND);
    if d < 0 then 0 else d
  }

  function TotalBackoff(k: nat): nat {
    if k == 0 then 0 else TotalBackoff(k - 1) + BackoffNanos(k)
  }

  lemma PronicStep(k: int)
    ensures (k - 1) * k + 2 * k == k * (k + 1)
  {
  }

  lemma BackoffIsExact(attempt: nat)
    requires attempt <= LAST_EXACT_ATTEMPT
    ensures BackoffNanos(attempt) == 2 * attempt * NANOS_PER_SECOND
  {
  }

  /** Within the Duration range, `k` failures cost exactly `k * (k + 1)` seconds. */
  lemma {:induction false} TotalBackoffIsQuadratic(k: nat)
    requires k <= LAST_EXACT_ATTEMPT
    ensures TotalBackoff(k) == k * (k + 1) * NANOS_PER_SECOND
  {
    if k > 0 {
      TotalBackoffIsQuadratic(k - 1);
      BackoffIsExact(k);
      PronicStep(k);
    }
  }

  /** A sleep is never longer than meant, and shorter from the first overflow on. */
  lemma BackoffIsBounded(attempt: nat)
    ensures BackoffNanos(attempt) <= 2 * attempt * NANOS_PER_SECOND
    ensures attempt == LAST_EXACT_ATTEMPT + 1 ==> BackoffNanos(attempt) == 0
  {
  }

  lemma {:induction false} TotalBackoffFallsShort(k: nat)
    ensures TotalBackoff(k) <= k * (k + 1) * NANOS_PER_SECOND
    ensures k > LAST_EXACT_ATTEMPT ==> TotalBackoff(k) < k * (k + 1) * NANOS_PER_SECOND
  {
    if k > 0 {
      TotalBackoffFallsShort(k - 1);
      BackoffIsBounded(k);
      PronicStep(k);
      assert k * (k + 1) * NANOS_PER_SECOND == (k - 1) * k * NANOS_PER_SECOND + 2 * k * NANOS_PER_SECOND;
    }
  }

  /** The back-off is what it is meant to be exactly up to the last attempt whose sleep fits. */
  lemma TotalBackoffIsExactIff(k: nat)
    ensures TotalBackoff(k) == k * (k + 1) * NANOS_PER_SECOND <==> k <= LAST_EXACT_ATTEMPT
  {
    if k <= LAST_EXACT_ATTEMPT {
      TotalBackoffIsQuadratic(k);
    }
    TotalBackoffFallsShort(k);
  }

  /** What the attempts at times `t, t + 1, ...` yield: the first success, or the last error. */
  function Retried<T>(attempt: nat -> Result<T, string>, t: nat, n: nat): Result<T, string>
    requires n > 0
    decreases n
  {
    if attempt(t).Success? || n == 1 then attempt(t) else Retried(attempt, t + 1, n - 1)
  }

  /** How many attempts that takes. */
  function AttemptsMade<T>(attempt: nat -> Result<T, string>, t: nat, n: nat): (k: nat)
    requires n > 0
    ensures 1 <= k <= n
    decreases n
  {
    if attempt(t).Success? || n == 1 then 1 else 1 + AttemptsMade(attempt, t + 1, n - 1)
  }

  /** All attempts but the last fail; the last fails only when the limit is reached. */
  lemma {:induction false} RetriedIsFirstSuccess<T>(attempt: nat -> Result<T, string>, t: nat, n: nat)
    requires n > 0
    ensures var k := AttemptsMade(attempt, t, n);
            && Retried(attempt, t, n) == attempt(t + k - 1)
            && (forall i :: t <= i < t + k - 1 ==> attempt(i).Failure?)
            && (attempt(t + k - 1).Failure? ==> k == n)
    decreases n
  {
    if attempt(t).Failure? && n > 1 {
      RetriedIsFirstSuccess(attempt, t + 1, n - 1);
    }
  }

  function Wrapped(maxRetries: nat, message: string): string {
    "Failed after " + Decimal(maxRetries) + " retries: " + message
  }

  /** What a call comes to whose first attempt is number `calls`. */
  function CallOutcome<T>(lookup: Option<string>, attempt: nat -> Result<T, string>, calls: nat, maxRetries: nat,
    zero: T): Result<T, string>
  {
    if lookup.Some? then Failure(lookup.value)
    else if maxRetries == 0 then Success(zero)
    else
      match Retried(attempt, calls, maxRetries)
      case Success(v) => Success(v)
      case Failure(e) => Failure(Wrapped(maxRetries, e))
  }

  /** How many attempts it takes. */
  function CallAttempts<T>(lookup: Option<string>, attempt: nat -> Result<T, string>, calls: nat,
    maxRetries: nat): nat
  {
    if lookup.Some? || maxRetries == 0 then 0 else AttemptsMade(attempt, calls, maxRetries)
  }

  /**
   What a call is to give, and where the counter is to be afterwards. The method must be found; then
   attempts are made until one succeeds, whose result is returned as it is, or the limit is reached,
   and then the last error is returned with its message after a prefix.
   */
  ghost predicate IsCall<T>(lookup: Option<string>, attempt: nat -> Result<T, string>, calls: nat, maxRetries: nat,
    zero: T, r: Result<T, string>, after: nat)
  {
    match lookup
    case Some(message) => r == Failure(message) && after == calls
    case None =>
      if maxRetries == 0 then r == Success(zero) && after == calls
      else
        && calls < after <= calls + maxRetries
        && (forall t :: calls <= t < after - 1 ==> attempt(t).Failure?)
        && match attempt(after - 1)
           case Success(v) => r == Success(v)
           case Failure(e) =>
             after == calls + maxRetries && r == Failure("Failed after " + Decimal(maxRetries) + " retries: " + e)
  }

  lemma CallIs<T>(lookup: Option<string>, attempt: nat -> Result<T, string>, calls: nat, maxRetries: nat, zero: T)
    ensures IsCall(lookup, attempt, calls, maxRetries, zero, CallOutcome(lookup, attempt, calls, maxRetries, zero),
                   calls + CallAttempts(lookup, attempt, calls, maxRetries))
  {
    if lookup.None? && maxRetries > 0 {
      RetriedIsFirstSuccess(attempt, calls, maxRetries);
    }
  }

  /** There is only one such outcome. */
  lemma CallIsUnique<T>(lookup: Option<string>, attempt: nat -> Result<T, string>, calls: nat, maxRetries: nat, zero: T,
    r: Result<T, string>, after: nat)
    requires IsCall(lookup, attempt, calls, maxRetries, zero, r, after)
    ensures r == CallOutcome(lookup, attempt, calls, maxRetries, zero)
    ensures after == calls + CallAttempts(lookup, attempt, calls, maxRetries)
  {
    if lookup.None? && maxRetries > 0 {
      RetriedIsFirstSuccess(attempt, calls, maxRetries);
      var last := calls + AttemptsMade(attempt, calls, maxRetries) - 1;
      assert attempt(last).Success? || attempt(after - 1).Success? || last == after - 1;
    }
  }

  /** Without a retry limit of at least one, a call succeeds with nothing; otherwise a success is an attempt's. */
  lemma CallSucceedsIff<T>(lookup: Option<string>, attempt: nat -> Result<T, string>, calls: nat, maxRetries: nat,
    zero: T)
    ensures CallOutcome(lookup, attempt, calls, maxRetries, zero).Success? <==>
              lookup.None? && (maxRetries == 0 || exists t :: calls <= t < calls + maxRetries && attempt(t).Success?)
  {
    if lookup.None? && maxRetries > 0 {
      RetriedIsFirstSuccess(attempt, calls, maxRetries);
      var last := calls + AttemptsMade(attempt, calls, maxRetries) - 1;
      assert attempt(last).Success? || forall t :: calls <= t < calls + maxRetries ==> attempt(t).Failure?;
    }
  }

  /** A connection's call counter and the time spent in back-off. */
  class Channel {
    var calls: nat
    ghost var slept: nat  // nanoseconds

    constructor ()
      ensures calls == 0 && slept == 0
    {
      calls, slept := 0, 0;
    }

    /**
     `lookup` is the outcome of resolving the method. With no retries allowed, no call is made and
     the zero value is returned as a success, because the error that gets wrapped is nil.
     */
    method RetryGRPCCall<T>(lookup: Option<string>, attempt: nat -> Result<T, string>, maxRetries: nat, zero: T)
      returns (r: Result<T, string>)
      requires maxRetries < TWO_TO_THE_64 - 1
      modifies this
      ensures r == CallOutcome(lookup, attempt, old(calls), maxRetries, zero)
      ensures calls == old(calls) + CallAttempts(lookup, attempt, old(calls), maxRetries)
      ensures var failed := calls - old(calls) - (if r.Success? && calls > old(calls) then 1 else 0);
              slept == old(slept) + TotalBackoff(failed)
    {
      if lookup.Some? {
        return Failure(lookup.value);
      }
      ghost var start := calls;
      var result := Success(zero);
      var k := 1;
      while k <= maxRetries
        invariant 1 <= k <= maxRetries + 1
        invariant calls == start + k - 1 && slept == old(slept) + TotalBackoff(k - 1)
        invariant k == 1 ==> result == Success(zero)
        invariant k > 1 ==> result.Failure? && result == attempt(calls - 1)
        invariant 1 < k ==> forall i :: start <= i < calls ==> attempt(i).Failure?
      {
        result := attempt(calls);
        calls := calls + 1;
        if result.Success? {
          FirstSuccessAfter(attempt, start, maxRetries, k);
          return result;
        }
        slept := slept + BackoffNanos(k);
        k := k + 1;
      }
      if maxRetries > 0 {
        AllFail(attempt, start, maxRetries);
      }
      match result {
        case Success(v) => return Success(v);
        case Failure(e) => return Failure(Wrapped(maxRetries, e));
      }
    }
  }

  lemma {:induction false} FirstSuccessAfter<T>(attempt: nat -> Result<T, string>, t: nat, n: nat, k: nat)
    requires 1 <= k <= n && attempt(t + k - 1).Success?
    requires forall i :: t <= i < t + k - 1 ==> attempt(i).Failure?
    ensures Retried(attempt, t, n) == attempt(t + k - 1) && AttemptsMade(attempt, t, n) == k
    decreases k
  {
    if k > 1 {
      assert attempt(t).Failure?;
      FirstSuccessAfter(attempt, t + 1, n - 1, k - 1);
    }
  }

  lemma {:induction false} AllFail<T>(attempt: nat -> Result<T, string>, t: nat, n: nat)
    requires n > 0 && forall i :: t <= i < t + n ==> attempt(i).Failure?
    ensures Retried(attempt, t, n) == attempt(t + n - 1) && AttemptsMade(attempt, t, n) == n
    decreases n
  {
    assert attempt(t).Failure?;
    if n > 1 {
      AllFail(attempt, t + 1, n - 1);
    }
  }
}
