/** When the jobs of a fan-out start, with `limit` tokens and jobs of bounded length. */
module Schedule {
  /** Of the first `i` jobs, how many have started by then but not ended at time `t`. */
  function Unfinished(start: seq<nat>, dur: seq<nat>, i: nat, t: int): (n: nat)
    requires i <= |start| && i <= |dur|
    ensures n <= i
  {
    if i == 0 then 0 else Unfinished(start, dur, i - 1, t) + (if start[i - 1] + dur[i - 1] > t then 1 else 0)
  }

  function ReadyAt(start: seq<nat>, i: nat): nat
    requires i <= |start|
  {
    if i == 0 then 0 else start[i - 1]
  }

  /**
   * The loop sends the token of job `i` as soon as it can: after job `i - 1`, at the first moment at which
   * fewer than `limit` of the earlier jobs hold theirs.
   */
  ghost predicate Started(start: seq<nat>, dur: seq<nat>, limit: nat, i: nat)
    requires |start| == |dur| && i < |start|
  {
    && ReadyAt(start, i) <= start[i] && Unfinished(start, dur, i, start[i]) < limit
    && forall t: nat | ReadyAt(start, i) <= t < start[i] :: Unfinished(start, dur, i, t) >= limit
  }

  ghost predicate Valid(start: seq<nat>, dur: seq<nat>, limit: nat) {
    |start| == |dur| && forall i | 0 <= i < |start| :: Started(start, dur, limit, i)
  }

  lemma {:induction false} FewUnfinished(start: seq<nat>, dur: seq<nat>, i: nat, m: nat, t: int)
    requires m <= i <= |start| && |start| == |dur| && forall j | 0 <= j < m :: start[j] + dur[j] <= t
    ensures Unfinished(start, dur, i, t) <= i - m
  {
    if i > m {
      FewUnfinished(start, dur, i - 1, m, t);
    } else if i > 0 {
      FewUnfinished(start, dur, i - 1, m - 1, t);
    }
  }

  lemma {:induction false} ManyUnfinished(start: seq<nat>, dur: seq<nat>, i: nat, a: nat, b: nat, t: int)
    requires a <= b <= i <= |start| && |start| == |dur| && forall j | a <= j < b :: start[j] + dur[j] > t
    ensures Unfinished(start, dur, i, t) >= b - a
  {
    if i > b {
      ManyUnfinished(start, dur, i - 1, a, b, t);
    } else if b > a {
      ManyUnfinished(start, dur, i - 1, a, b - 1, t);
    }
  }

  lemma Monotone(a: nat, b: nat, c: nat)
    requires a <= b
    ensures c * a <= c * b
  {
  }

  lemma DivFacts(j: nat, c: nat, q: nat)
    requires c >= 1
    ensures c * (j / c) <= j < c * (j / c) + c
    ensures j < c * q ==> j / c < q
    ensures c * q <= j ==> q <= j / c
  {
    assert j == c * (j / c) + j % c;
    if j / c >= q {
      Monotone(q, j / c, c);
    } else {
      Monotone(j / c + 1, q, c);
    }
  }

  lemma Scale(a: nat, b: nat, longest: nat)
    requires a <= b
    ensures a * longest <= b * longest
    ensures a < b ==> a * longest + longest <= b * longest
  {
    if a < b {
      assert (a + 1) * longest <= b * longest;
    }
  }

  lemma StartedBy(start: seq<nat>, dur: seq<nat>, limit: nat, i: nat, t: nat)
    requires |start| == |dur| && i < |start| && Started(start, dur, limit, i)
    requires ReadyAt(start, i) <= t && Unfinished(start, dur, i, t) < limit
    ensures start[i] <= t
  {
  }

  /** A job of an earlier round starts, and ends, before round `i / limit` begins. */
  lemma RoundOf(j: nat, i: nat, limit: nat, longest: nat)
    requires limit >= 1 && j <= i
    ensures j / limit * longest <= i / limit * longest
    ensures j < limit * (i / limit) ==> j / limit * longest + longest <= i / limit * longest
  {
    DivFacts(j, limit, i / limit);
    DivFacts(i, limit, j / limit);
    DivFacts(j, limit, 0);
    Scale(j / limit, i / limit, longest);
  }

  /** Job `i` starts within `i / limit` rounds of the longest job. */
  lemma {:induction false} StartBound(start: seq<nat>, dur: seq<nat>, limit: nat, longest: nat, i: nat)
    requires Valid(start, dur, limit) && limit >= 1 && i < |start|
    requires forall j | 0 <= j < |dur| :: dur[j] <= longest
    ensures start[i] <= i / limit * longest
  {
    hide Unfinished, Started;
    var t, first := i / limit * longest, limit * (i / limit);
    DivFacts(i, limit, 0);
    forall j | 0 <= j < i
      ensures start[j] <= t && (j < first ==> start[j] + dur[j] <= t)
    {
      StartBound(start, dur, limit, longest, j);
      RoundOf(j, i, limit, longest);
    }
    FewUnfinished(start, dur, i, first, t);
    StartedBy(start, dur, limit, i, t);
  }

  /** The whole fan-out ends within `n / limit` rounds, rounded up. */
  lemma FanOutWithinBound(start: seq<nat>, dur: seq<nat>, limit: nat, longest: nat, i: nat)
    requires Valid(start, dur, limit) && limit >= 1 && i < |start|
    requires forall j | 0 <= j < |dur| :: dur[j] <= longest
    ensures start[i] + dur[i] <= (|start| + limit - 1) / limit * longest
  {
    StartBound(start, dur, limit, longest, i);
    DivFacts(i, limit, 0);
    DivFacts(|start| + limit - 1, limit, i / limit + 1);
    Scale(i / limit, (|start| + limit - 1) / limit, longest);
  }

  lemma Quotient(a: nat, c: nat, q: nat)
    requires c >= 1 && c * q <= a < c * q + c
    ensures a / c == q
  {
    DivFacts(a, c, q);
    DivFacts(a, c, q + 1);
  }

  /** If a whole round is unfinished before `t`, no later job starts before `t`. */
  lemma NotBefore(start: seq<nat>, dur: seq<nat>, limit: nat, i: nat, a: nat, t: nat)
    requires |start| == |dur| && i < |start| && a + limit <= i && Started(start, dur, limit, i)
    requires forall j | a <= j < a + limit :: start[j] + dur[j] >= t
    ensures start[i] >= t
  {
    if start[i] < t {
      ManyUnfinished(start, dur, i, a, a + limit, start[i]);
    }
  }

  lemma PreviousRound(i: nat, limit: nat, longest: nat) returns (a: nat)
    requires limit >= 1 && i / limit >= 1
    ensures a + limit <= i
    ensures forall j | a <= j < a + limit :: j / limit * longest + longest == i / limit * longest
  {
    var q := i / limit;
    a := limit * (q - 1);
    assert limit * q == a + limit;
    DivFacts(i, limit, 0);
    forall j | a <= j < a + limit ensures j / limit * longest + longest == q * longest {
      Quotient(j, limit, q - 1);
      assert (q - 1) * longest + longest == q * longest;
    }
  }

  /** The bound is reached: jobs that all take the same time start exactly in rounds. */
  lemma {:induction false} BoundIsTight(start: seq<nat>, dur: seq<nat>, limit: nat, longest: nat, i: nat)
    requires Valid(start, dur, limit) && limit >= 1 && i < |start|
    requires forall j | 0 <= j < |dur| :: dur[j] == longest
    ensures start[i] == i / limit * longest
  {
    hide Unfinished, Started;
    StartBound(start, dur, limit, longest, i);
    if i / limit >= 1 {
      var a := PreviousRound(i, limit, longest);
      forall j | a <= j < a + limit ensures start[j] + dur[j] == i / limit * longest {
        BoundIsTight(start, dur, limit, longest, j);
      }
      NotBefore(start, dur, limit, i, a, i / limit * longest);
    } else {
      assert i / limit == 0;
    }
  }

  // ---------------------------------------------------------------- every job list has a schedule

  lemma {:induction false} SamePrefix(a: seq<nat>, b: seq<nat>, dur: seq<nat>, i: nat, t: int)
    requires i <= |a| && i <= |b| && i <= |dur| && a[..i] == b[..i]
    ensures Unfinished(a, dur, i, t) == Unfinished(b, dur, i, t)
  {
    if i > 0 {
      assert a[i - 1] == a[..i][i - 1] && b[i - 1] == b[..i][i - 1];
      assert a[..i - 1] == a[..i][..i - 1] && b[..i - 1] == b[..i][..i - 1];
      SamePrefix(a, b, dur, i - 1, t);
    }
  }

  lemma {:induction false} SameDurations(start: seq<nat>, a: seq<nat>, b: seq<nat>, i: nat, t: int)
    requires i <= |a| && i <= |b| && i <= |start| && a[..i] == b[..i]
    ensures Unfinished(start, a, i, t) == Unfinished(start, b, i, t)
  {
    if i > 0 {
      assert a[i - 1] == a[..i][i - 1] && b[i - 1] == b[..i][i - 1];
      assert a[..i - 1] == a[..i][..i - 1] && b[..i - 1] == b[..i][..i - 1];
      SameDurations(start, a, b, i - 1, t);
    }
  }

  /** The first moment from `t` on with a token free. */
  lemma FirstFree(start: seq<nat>, dur: seq<nat>, limit: nat, t: nat, end: nat) returns (s: nat)
    requires |start| == |dur| && limit >= 1 && t <= end && forall j | 0 <= j < |start| :: start[j] + dur[j] <= end
    ensures t <= s && Unfinished(start, dur, |start|, s) < limit
    ensures forall k: nat | t <= k < s :: Unfinished(start, dur, |start|, k) >= limit
  {
    s := t;
    FewUnfinished(start, dur, |start|, |start|, end);
    while Unfinished(start, dur, |start|, s) >= limit
      invariant t <= s <= end
      invariant forall k: nat | t <= k < s :: Unfinished(start, dur, |start|, k) >= limit
      decreases end - s
    {
      s := s + 1;
    }
  }

  lemma {:induction false} ScheduleExists(dur: seq<nat>, limit: nat) returns (start: seq<nat>, end: nat)
    requires limit >= 1
    ensures Valid(start, dur, limit)
    ensures forall j | 0 <= j < |dur| :: start[j] + dur[j] <= end
  {
    if dur == [] {
      start, end := [], 0;
    } else {
      var n := |dur| - 1;
      var front, e := ScheduleExists(dur[..n], limit);
      var ready := ReadyAt(front, n);
      var s := FirstFree(front, dur[..n], limit, ready, if e < ready then ready else e);
      start := front + [s];
      end := if e < s + dur[n] then s + dur[n] else e;
      forall i, t: int | 0 <= i <= n ensures Unfinished(start, dur, i, t) == Unfinished(front, dur[..n], i, t) {
        assert start[..i] == front[..i] && dur[..i] == dur[..n][..i];
        SamePrefix(start, front, dur, i, t);
        SameDurations(front, dur, dur[..n], i, t);
      }
      forall i | 0 <= i < |start| ensures Started(start, dur, limit, i) {
        if i < n {
          assert Started(front, dur[..n], limit, i);
        }
      }
    }
  }
}
