/** The bounded retry around one perfquery execution. */
module Retry {
  /** How one attempt ends; `Deadline` is the local timeout, `Failure` any other error. */
  datatype Attempt = Success(out: string) | Deadline(out: string) | Failure(out: string)

  function MaxRetries(flag: int): nat {
    if flag < 0 then 0 else flag
  }

  /** The loop gives up after attempt `k`, the `k`-th retry. */
  predicate Last(attempt: nat -> Attempt, flag: int, k: nat) {
    !attempt(k).Failure? || k >= flag
  }

  /** The number of retries consumed: those of the first attempt after which the loop gives up. */
  function RetriesFrom(attempt: nat -> Attempt, flag: int, k: nat): (r: nat)
    ensures r >= k && Last(attempt, flag, r) && forall j | k <= j < r :: !Last(attempt, flag, j)
    ensures r <= k || r <= MaxRetries(flag)
    decreases flag - k
  {
    if Last(attempt, flag, k) then k else RetriesFrom(attempt, flag, k + 1)
  }

  function Retries(attempt: nat -> Attempt, flag: int): (r: nat)
    ensures r <= MaxRetries(flag) && Last(attempt, flag, r)
  {
    RetriesFrom(attempt, flag, 0)
  }

  /** At most `retries + 1` calls; the outcome of the last one; no call after a success or a deadline. */
  method PerfqueryWithRetry(attempt: nat -> Attempt, maxRetries: int) returns (out: Attempt, retries: nat, calls: nat)
    ensures retries == Retries(attempt, maxRetries) && out == attempt(retries)
    ensures calls == retries + 1 <= MaxRetries(maxRetries) + 1
    ensures forall k | 0 <= k < retries :: attempt(k).Failure?
    ensures out.Failure? ==> retries == MaxRetries(maxRetries)
  {
    var attempts := 0;
    calls := 0;
    while true
      invariant attempts == calls <= MaxRetries(maxRetries)
      invariant forall k | 0 <= k < attempts :: attempt(k).Failure?
      invariant RetriesFrom(attempt, maxRetries, attempts) == Retries(attempt, maxRetries)
      decreases MaxRetries(maxRetries) - attempts
    {
      out := attempt(attempts);
      calls := calls + 1;
      if out.Success? {
        return out, attempts, calls;
      }
      if out.Deadline? {
        return out, attempts, calls;
      }
      if attempts >= maxRetries {
        return out, attempts, calls;
      }
      attempts := attempts + 1;
    }
  }

  /** Time spent in attempts `0 .. calls - 1`, with a pause before each retry. */
  function Elapsed(duration: nat -> nat, delay: nat, calls: nat): nat {
    if calls == 0 then 0
    else Elapsed(duration, delay, calls - 1) + duration(calls - 1) + (if calls == 1 then 0 else delay)
  }

  lemma {:induction false} ElapsedBound(duration: nat -> nat, delay: nat, timeout: nat, calls: nat)
    requires forall k: nat :: duration(k) <= timeout
    ensures calls >= 1 ==> Elapsed(duration, delay, calls) <= calls * timeout + (calls - 1) * delay
  {
    if calls > 1 {
      ElapsedBound(duration, delay, timeout, calls - 1);
      assert calls * timeout == (calls - 1) * timeout + timeout;
      assert (calls - 1) * delay == (calls - 2) * delay + delay;
    } else if calls == 1 {
      assert Elapsed(duration, delay, 0) == 0;
    }
  }

  /** The longest one query can take. */
  function Budget(flag: int, timeout: nat, delay: nat): nat {
    (MaxRetries(flag) + 1) * timeout + MaxRetries(flag) * delay
  }

  /** Whatever the outcomes, a query ends within its budget. */
  lemma QueryWithinBudget(attempt: nat -> Attempt, duration: nat -> nat, flag: int, timeout: nat, delay: nat)
    requires forall k: nat :: duration(k) <= timeout
    ensures Elapsed(duration, delay, Retries(attempt, flag) + 1) <= Budget(flag, timeout, delay)
  {
    var r, m := Retries(attempt, flag), MaxRetries(flag);
    ElapsedBound(duration, delay, timeout, r + 1);
    assert (r + 1) * timeout <= (m + 1) * timeout;
    assert r * delay <= m * delay;
  }

  lemma {:induction false} ElapsedOfEqual(duration: nat -> nat, delay: nat, timeout: nat, calls: nat)
    requires forall k: nat :: duration(k) == timeout
    ensures calls >= 1 ==> Elapsed(duration, delay, calls) == calls * timeout + (calls - 1) * delay
  {
    if calls > 1 {
      ElapsedOfEqual(duration, delay, timeout, calls - 1);
      assert calls * timeout == (calls - 1) * timeout + timeout;
      assert (calls - 1) * delay == (calls - 2) * delay + delay;
    } else if calls == 1 {
      assert Elapsed(duration, delay, 0) == 0;
    }
  }

  /** The budget is used up by a query whose every attempt fails as late as it can. */
  lemma BudgetIsTight(attempt: nat -> Attempt, duration: nat -> nat, flag: int, timeout: nat, delay: nat)
    requires forall k: nat :: attempt(k).Failure? && duration(k) == timeout
    ensures Retries(attempt, flag) == MaxRetries(flag)
    ensures Elapsed(duration, delay, Retries(attempt, flag) + 1) == (MaxRetries(flag) + 1) * timeout
      + MaxRetries(flag) * delay
  {
    ElapsedOfEqual(duration, delay, timeout, Retries(attempt, flag) + 1);
  }
}
