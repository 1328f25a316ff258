/** How long a whole scrape can take, from the retry loop and the fan-out together. */
module ScrapeTime {
  import opened Retry
  import opened FanOut
  import opened FanOutClock

  /** One perfquery call: how its attempts end, and how long each takes. */
  datatype Query = Query(attempt: nat -> Attempt, duration: nat -> nat)

  /** A goroutine makes its queries one after the other: the base query, then one for each port. */
  function JobTime(queries: seq<Query>, flag: int, delay: nat): nat {
    if queries == [] then 0
    else
      var q := queries[|queries| - 1];
      JobTime(queries[..|queries| - 1], flag, delay) + Elapsed(q.duration, delay, Retries(q.attempt, flag) + 1)
  }

  ghost predicate WithinTimeout(queries: seq<Query>, timeout: nat) {
    forall i, k: nat | 0 <= i < |queries| :: queries[i].duration(k) <= timeout
  }

  lemma {:induction false} JobWithinBudget(queries: seq<Query>, flag: int, timeout: nat, delay: nat)
    requires WithinTimeout(queries, timeout)
    ensures JobTime(queries, flag, delay) <= |queries| * Budget(flag, timeout, delay)
  {
    hide Budget, Elapsed, Retries;
    if queries != [] {
      var n := |queries| - 1;
      JobWithinBudget(queries[..n], flag, timeout, delay);
      QueryWithinBudget(queries[n].attempt, queries[n].duration, flag, timeout, delay);
      assert (n + 1) * Budget(flag, timeout, delay) == n * Budget(flag, timeout, delay) + Budget(flag, timeout, delay);
    }
  }

  /** And that is what it can take: a goroutine whose every attempt fails as late as it can uses up all its budgets. */
  lemma {:induction false} JobBudgetIsTight(queries: seq<Query>, flag: int, timeout: nat, delay: nat)
    requires forall i, k: nat | 0 <= i < |queries| ::
      queries[i].attempt(k).Failure? && queries[i].duration(k) == timeout
    ensures JobTime(queries, flag, delay) == |queries| * Budget(flag, timeout, delay)
  {
    hide Budget, Elapsed, Retries;
    if queries != [] {
      var n := |queries| - 1;
      JobBudgetIsTight(queries[..n], flag, timeout, delay);
      BudgetIsTight(queries[n].attempt, queries[n].duration, flag, timeout, delay);
      BudgetIs(flag, timeout, delay);
      assert (n + 1) * Budget(flag, timeout, delay) == n * Budget(flag, timeout, delay) + Budget(flag, timeout, delay);
    }
  }

  lemma BudgetIs(flag: int, timeout: nat, delay: nat)
    ensures Budget(flag, timeout, delay) == (MaxRetries(flag) + 1) * timeout + MaxRetries(flag) * delay
  {
  }

  /**
   * In every finished timed run of a scrape with `limit` tokens and at most `most` queries a device, if no goroutine
   * holds its token for longer than its queries take, device `i` starts within `i / limit` rounds of `most` query
   * budgets, and the whole scrape ends within as many rounds as it takes to serve all devices.
   */
  lemma ScrapeWithinBudget<R(!new), V(!new)>(progs: seq<Program<R, V>>, limit: nat, shared: Shared<R, V>,
    ticks: seq<Tick>, jobs: seq<seq<Query>>, most: nat, flag: int, timeout: nat, delay: nat, i: nat)
    requires limit >= 1 && CanRunTimed(progs, limit, Start(|progs|, shared), ticks)
    requires |jobs| == |progs| && forall j | 0 <= j < |jobs| :: |jobs[j]| <= most && WithinTimeout(jobs[j], timeout)
    requires
      var c := FanOutClock.Last(progs, limit, Start(|progs|, shared), ticks);
      && c.state.main.Returned?
      && forall j | 0 <= j < |c.start| && j < |jobs| && j in c.end ::
           c.end[j] - c.start[j] <= JobTime(jobs[j], flag, delay)
    requires i < |progs|
    ensures
      var c := FanOutClock.Last(progs, limit, Start(|progs|, shared), ticks);
      && |c.start| == |progs| && i in c.end
      && c.start[i] <= i / limit * (most * Budget(flag, timeout, delay))
      && c.end[i] <= (|progs| + limit - 1) / limit * (most * Budget(flag, timeout, delay))
  {
    hide Budget, JobTime, WithinTimeout, CanRunTimed, FanOutClock.Last;
    var longest := most * Budget(flag, timeout, delay);
    forall j | 0 <= j < |jobs| ensures JobTime(jobs[j], flag, delay) <= longest {
      JobWithinBudget(jobs[j], flag, timeout, delay);
    }
    var dur := TimedRunIsASchedule(progs, limit, shared, ticks);
    TimedFanOutWithinBound(progs, limit, shared, ticks, longest, i);
  }
}
