/** The fan-out under a clock: what its step relation says of when the jobs start. */
module FanOutClock {
  import opened FanOut
  import opened FanOutProofs
  import opened Schedule

  // ---------------------------------------------------------------- timed runs

  /** A state, the time, and when the jobs so far got their tokens and gave them back. */
  datatype Clock<R, V> = Clock(state: State<R, V>, now: nat, start: seq<nat>, end: map<nat, nat>)

  datatype Tick = Pass | Happens(event: Event)

  /** The loop has something to do. */
  predicate LoopCanGo<R, V>(progs: seq<Program<R, V>>, limit: nat, s: State<R, V>) {
    Enabled(progs, limit, s, Send) || Enabled(progs, limit, s, WgAdd) || Enabled(progs, limit, s, Spawn)
  }

  /** Events take no time. Time passes only while the loop waits; the goroutines may take as long as they like. */
  predicate CanTick<R, V>(progs: seq<Program<R, V>>, limit: nat, c: Clock<R, V>, tick: Tick) {
    match tick
    case Pass => !LoopCanGo(progs, limit, c.state)
    case Happens(e) => Enabled(progs, limit, c.state, e)
  }

  predicate Releases<R, V>(s: State<R, V>, after: State<R, V>, e: Event) {
    e.Go? && e.i < |s.gs| && e.i < |after.gs| && s.gs[e.i].Running? && after.gs[e.i].Released?
  }

  function Ticked<R, V>(progs: seq<Program<R, V>>, limit: nat, c: Clock<R, V>, tick: Tick): Clock<R, V>
    requires CanTick(progs, limit, c, tick)
  {
    match tick
    case Pass => c.(now := c.now + 1)
    case Happens(e) =>
      var after := After(progs, limit, c.state, e);
      Clock(after, c.now,
        if e.Send? then c.start + [c.now] else c.start,
        if Releases(c.state, after, e) then c.end[e.i := c.now] else c.end)
  }

  ghost predicate CanRunTimed<R, V>(progs: seq<Program<R, V>>, limit: nat, c: Clock<R, V>, ticks: seq<Tick>)
    decreases ticks
  {
    ticks == []
    || (CanTick(progs, limit, c, ticks[0]) && CanRunTimed(progs, limit, Ticked(progs, limit, c, ticks[0]), ticks[1..]))
  }

  function Last<R, V>(progs: seq<Program<R, V>>, limit: nat, c: Clock<R, V>, ticks: seq<Tick>): Clock<R, V>
    requires CanRunTimed(progs, limit, c, ticks)
    decreases ticks
  {
    if ticks == [] then c else Last(progs, limit, Ticked(progs, limit, c, ticks[0]), ticks[1..])
  }

  function Start<R, V>(n: nat, shared: Shared<R, V>): Clock<R, V> {
    Clock(Init(n, shared), 0, [], map[])
  }

  // ---------------------------------------------------------------- what a clock shows

  /** How many of the first `i` jobs had not given back their token by time `t`. */
  function Pending(end: map<nat, nat>, i: nat, t: nat): (n: nat) {
    if i == 0 then 0 else Pending(end, i - 1, t) + (if i - 1 in end && end[i - 1] <= t then 0 else 1)
  }

  /** The jobs that have got their token. */
  function Sent<R, V>(s: State<R, V>): nat {
    match s.main
    case AtSend(i) => i
    case AtAdd(i) => i + 1
    case AtSpawn(i) => i + 1
    case _ => |s.gs|
  }

  /** Until `t`, the token of job `i` could not be sent. */
  ghost predicate Waited(start: seq<nat>, end: map<nat, nat>, limit: nat, i: nat, t: nat)
    requires i <= |start|
  {
    ReadyAt(start, i) <= t && forall u: nat | ReadyAt(start, i) <= u < t :: Pending(end, i, u) >= limit
  }

  ghost predicate Began(start: seq<nat>, end: map<nat, nat>, limit: nat, i: nat)
    requires i < |start|
  {
    Waited(start, end, limit, i, start[i]) && Pending(end, i, start[i]) < limit
  }

  ghost predicate Times<R(!new), V(!new)>(c: Clock<R, V>) {
    && |c.start| == Sent(c.state) <= |c.state.gs|
    && (forall j | 0 <= j < |c.start| :: c.start[j] <= c.now)
    && (forall j | j in c.end :: j < |c.start| && c.start[j] <= c.end[j] <= c.now)
    && (forall j | 0 <= j < |c.state.gs| :: j in c.end <==> c.state.gs[j].Released? || c.state.gs[j].Finished?)
    && (c.state.main.AtAdd? || c.state.main.AtSpawn? ==> c.start[|c.start| - 1] == c.now)
  }

  ghost predicate OnTime<R(!new), V(!new)>(limit: nat, c: Clock<R, V>) {
    && (forall j | 0 <= j < |c.start| :: Began(c.start, c.end, limit, j))
    && (c.state.main.AtSend? ==> c.state.main.i == |c.start| && Waited(c.start, c.end, limit, |c.start|, c.now))
  }

  ghost predicate Punctual<R(!new), V(!new)>(progs: seq<Program<R, V>>, limit: nat, c: Clock<R, V>) {
    Control(progs, limit, c.state) && Times(c) && OnTime(limit, c)
  }

  // ---------------------------------------------------------------- tokens and pending jobs

  lemma {:induction false} PendingCount<R(!new), V(!new)>(gs: seq<Goroutine<R, V>>, end: map<nat, nat>, i: nat,
    now: nat)
    requires i <= |gs| && (forall j | j in end :: end[j] <= now)
    requires forall j | 0 <= j < i :: (gs[j].Running? <==> j !in end) && !gs[j].Idle?
    requires forall j | i <= j < |gs| :: gs[j].Idle?
    ensures Count(gs, Holds) == Pending(end, i, now)
    decreases |gs|
  {
    if |gs| > i {
      PendingCount(gs[..|gs| - 1], end, i, now);
    } else if i > 0 {
      PendingCount(gs[..i - 1], end, i - 1, now);
    }
  }

  lemma {:induction false} PendingAfter(end: map<nat, nat>, j: nat, now: nat, i: nat, t: nat)
    requires j !in end
    ensures Pending(end[j := now], i, t) <= Pending(end, i, t)
    ensures t < now ==> Pending(end[j := now], i, t) == Pending(end, i, t)
  {
    if i > 0 {
      PendingAfter(end, j, now, i - 1, t);
    }
  }

  /** A job that gives back its token now changes nothing of what was before. */
  lemma ReleaseKeepsWaited(start: seq<nat>, end: map<nat, nat>, limit: nat, j: nat, now: nat, i: nat, t: nat)
    requires j !in end && i <= |start| && t <= now && Waited(start, end, limit, i, t)
    ensures Waited(start, end[j := now], limit, i, t)
  {
    hide Pending, ReadyAt;
    var after := end[j := now];
    forall u: nat | ReadyAt(start, i) <= u < t ensures Pending(after, i, u) >= limit {
      PendingAfter(end, j, now, i, u);
    }
  }

  lemma ReleaseKeepsBegan(start: seq<nat>, end: map<nat, nat>, limit: nat, j: nat, now: nat, i: nat)
    requires j !in end && i < |start| && start[i] <= now && Began(start, end, limit, i)
    ensures Began(start, end[j := now], limit, i)
  {
    hide Pending, Waited;
    ReleaseKeepsWaited(start, end, limit, j, now, i, start[i]);
    PendingAfter(end, j, now, i, start[i]);
  }

  lemma SendKeepsTimes(start: seq<nat>, end: map<nat, nat>, limit: nat, s: nat, i: nat)
    requires i < |start| && Began(start, end, limit, i)
    ensures Began(start + [s], end, limit, i)
  {
    hide Pending;
  }

  /** The tokens in the channel are those of the pending jobs. */
  lemma TokensArePending<R(!new), V(!new)>(progs: seq<Program<R, V>>, limit: nat, c: Clock<R, V>)
    requires Punctual(progs, limit, c) && c.state.main.AtSend?
    ensures c.state.tokens == Pending(c.end, |c.start|, c.now)
  {
    hide Pending, Count, OnTime;
    PendingCount(c.state.gs, c.end, |c.start|, c.now);
  }

  // ---------------------------------------------------------------- every step keeps the times

  lemma PassKeeps<R(!new), V(!new)>(progs: seq<Program<R, V>>, limit: nat, c: Clock<R, V>)
    requires Punctual(progs, limit, c) && CanTick(progs, limit, c, Pass)
    ensures Punctual(progs, limit, Ticked(progs, limit, c, Pass))
  {
    hide Pending, Count, ReadyAt;
    if c.state.main.AtSend? {
      TokensArePending(progs, limit, c);
    }
  }

  lemma SendKeeps<R(!new), V(!new)>(progs: seq<Program<R, V>>, limit: nat, c: Clock<R, V>)
    requires Punctual(progs, limit, c) && CanTick(progs, limit, c, Happens(Send))
    ensures Punctual(progs, limit, Ticked(progs, limit, c, Happens(Send)))
  {
    hide Pending, Count, ReadyAt, Control, Began;
    StepControl(progs, limit, c.state, Send);
    TokensArePending(progs, limit, c);
    NewBegins(c.start, c.end, limit, c.now);
    forall j | 0 <= j < |c.start| ensures Began(c.start + [c.now], c.end, limit, j) {
      SendKeepsTimes(c.start, c.end, limit, c.now, j);
    }
    FewerThanAll(progs, limit, c);
  }

  lemma FewerThanAll<R(!new), V(!new)>(progs: seq<Program<R, V>>, limit: nat, c: Clock<R, V>)
    requires Control(progs, limit, c.state) && c.state.main.AtSend?
    ensures c.state.main.i < |c.state.gs|
  {
  }

  lemma NewBegins(start: seq<nat>, end: map<nat, nat>, limit: nat, now: nat)
    requires Waited(start, end, limit, |start|, now) && Pending(end, |start|, now) < limit
    ensures Began(start + [now], end, limit, |start|)
  {
    hide Pending;
  }

  lemma SpawnKeeps<R(!new), V(!new)>(progs: seq<Program<R, V>>, limit: nat, c: Clock<R, V>)
    requires Punctual(progs, limit, c) && CanTick(progs, limit, c, Happens(Spawn))
    ensures Punctual(progs, limit, Ticked(progs, limit, c, Happens(Spawn)))
  {
    hide Pending, Count, Began;
    StepControl(progs, limit, c.state, Spawn);
  }

  lemma GoKeepsTimes<R(!new), V(!new)>(progs: seq<Program<R, V>>, limit: nat, c: Clock<R, V>, i: nat)
    requires Control(progs, limit, c.state) && Times(c) && CanTick(progs, limit, c, Happens(Go(i)))
    ensures Times(Ticked(progs, limit, c, Happens(Go(i))))
  {
    hide Control, After;
    GoMoves(progs, limit, c.state, i);
  }

  lemma GoKeepsOnTime<R(!new), V(!new)>(progs: seq<Program<R, V>>, limit: nat, c: Clock<R, V>, i: nat)
    requires Control(progs, limit, c.state) && Times(c) && OnTime(limit, c) && CanTick(progs, limit, c, Happens(Go(i)))
    ensures OnTime(limit, Ticked(progs, limit, c, Happens(Go(i))))
  {
    hide Control, After, Waited, Began;
    GoMoves(progs, limit, c.state, i);
    if Releases(c.state, After(progs, limit, c.state, Go(i)), Go(i)) {
      var end := c.end[i := c.now];
      forall j | 0 <= j < |c.start| ensures Began(c.start, end, limit, j) {
        ReleaseKeepsBegan(c.start, c.end, limit, i, c.now, j);
      }
      if c.state.main.AtSend? {
        ReleaseKeepsWaited(c.start, c.end, limit, i, c.now, |c.start|, c.now);
      }
    }
  }

  lemma GoKeeps<R(!new), V(!new)>(progs: seq<Program<R, V>>, limit: nat, c: Clock<R, V>, i: nat)
    requires Punctual(progs, limit, c) && CanTick(progs, limit, c, Happens(Go(i)))
    ensures Punctual(progs, limit, Ticked(progs, limit, c, Happens(Go(i))))
  {
    hide Control, Times, OnTime, After, Enabled;
    StepControl(progs, limit, c.state, Go(i));
    GoKeepsTimes(progs, limit, c, i);
    GoKeepsOnTime(progs, limit, c, i);
  }

  /** A goroutine's step moves itself, and only once its token has been sent. */
  lemma GoMoves<R(!new), V(!new)>(progs: seq<Program<R, V>>, limit: nat, s: State<R, V>, i: nat)
    requires Control(progs, limit, s) && Enabled(progs, limit, s, Go(i))
    ensures
      var after := After(progs, limit, s, Go(i));
      && after.main == s.main && |after.gs| == |s.gs| && i < Sent(s) <= |s.gs|
      && (forall j | 0 <= j < |s.gs| && j != i :: after.gs[j] == s.gs[j])
      && ((s.gs[i].Running? && (after.gs[i].Running? || after.gs[i].Released?))
        || (s.gs[i].Released? && after.gs[i].Finished?))
  {
    hide Count;
  }

  lemma TickKeeps<R(!new), V(!new)>(progs: seq<Program<R, V>>, limit: nat, c: Clock<R, V>, tick: Tick)
    requires Punctual(progs, limit, c) && CanTick(progs, limit, c, tick)
    ensures Punctual(progs, limit, Ticked(progs, limit, c, tick))
  {
    match tick
    case Pass => PassKeeps(progs, limit, c);
    case Happens(Send) => SendKeeps(progs, limit, c);
    case Happens(Spawn) => SpawnKeeps(progs, limit, c);
    case Happens(Go(i)) => GoKeeps(progs, limit, c, i);
    case Happens(e) => OtherKeeps(progs, limit, c, e);
  }

  lemma OtherKeeps<R(!new), V(!new)>(progs: seq<Program<R, V>>, limit: nat, c: Clock<R, V>, e: Event)
    requires Punctual(progs, limit, c) && CanTick(progs, limit, c, Happens(e)) && (e.WgAdd? || e.Wait? || e.Close?)
    ensures Punctual(progs, limit, Ticked(progs, limit, c, Happens(e)))
  {
    hide Pending, Count, Began;
    StepControl(progs, limit, c.state, e);
  }

  lemma {:induction false} RunKeepsTimes<R(!new), V(!new)>(progs: seq<Program<R, V>>, limit: nat, c: Clock<R, V>,
    ticks: seq<Tick>)
    requires Punctual(progs, limit, c) && CanRunTimed(progs, limit, c, ticks)
    ensures Punctual(progs, limit, Last(progs, limit, c, ticks))
    decreases ticks
  {
    hide Punctual, Ticked;
    if ticks != [] {
      TickKeeps(progs, limit, c, ticks[0]);
      RunKeepsTimes(progs, limit, Ticked(progs, limit, c, ticks[0]), ticks[1..]);
    }
  }

  // ---------------------------------------------------------------- the schedule of a run

  /** How long each job held its token. */
  ghost predicate Held(start: seq<nat>, end: map<nat, nat>, dur: seq<nat>) {
    |dur| == |start| && forall j | 0 <= j < |start| :: j in end && start[j] + dur[j] == end[j]
  }

  lemma {:induction false} PendingIsUnfinished(start: seq<nat>, end: map<nat, nat>, dur: seq<nat>, i: nat, t: nat)
    requires Held(start, end, dur) && i <= |start|
    ensures Pending(end, i, t) == Unfinished(start, dur, i, t)
  {
    if i > 0 {
      PendingIsUnfinished(start, end, dur, i - 1, t);
    }
  }

  lemma BeganIsStarted(start: seq<nat>, end: map<nat, nat>, dur: seq<nat>, limit: nat, i: nat)
    requires Held(start, end, dur) && i < |start| && Began(start, end, limit, i)
    ensures Started(start, dur, limit, i)
  {
    hide Pending, Unfinished, Held;
    HeldLength(start, end, dur);
    forall t: nat ensures Pending(end, i, t) == Unfinished(start, dur, i, t) {
      PendingIsUnfinished(start, end, dur, i, t);
    }
  }

  lemma HeldLength(start: seq<nat>, end: map<nat, nat>, dur: seq<nat>)
    requires Held(start, end, dur)
    ensures |dur| == |start|
  {
  }

  lemma StartIsPunctual<R(!new), V(!new)>(progs: seq<Program<R, V>>, limit: nat, shared: Shared<R, V>)
    ensures Punctual(progs, limit, Start<R, V>(|progs|, shared))
  {
    hide Count;
    InitHolds(progs, limit, shared);
  }

  lemma AllHaveEnded<R(!new), V(!new)>(progs: seq<Program<R, V>>, limit: nat, c: Clock<R, V>)
    requires Punctual(progs, limit, c) && c.state.main.Returned?
    ensures |c.start| == |progs| && forall j | 0 <= j < |c.start| :: j in c.end && c.start[j] <= c.end[j]
  {
    CountZero(c.state.gs, Awaited);
  }

  /**
   * The start times of a fan-out: whatever the interleaving and however long its goroutines take, the times at which
   * a finished run sends its tokens are the schedule of the times for which the jobs held them.
   */
  lemma TimedRunIsASchedule<R(!new), V(!new)>(progs: seq<Program<R, V>>, limit: nat, shared: Shared<R, V>,
    ticks: seq<Tick>)
    returns (dur: seq<nat>)
    requires CanRunTimed(progs, limit, Start(|progs|, shared), ticks)
    requires Last(progs, limit, Start(|progs|, shared), ticks).state.main.Returned?
    ensures
      var c := Last(progs, limit, Start(|progs|, shared), ticks);
      |c.start| == |progs| && Held(c.start, c.end, dur) && Valid(c.start, dur, limit)
  {
    hide Punctual, Held, Started, Began;
    var c := Last(progs, limit, Start(|progs|, shared), ticks);
    StartIsPunctual(progs, limit, shared);
    RunKeepsTimes(progs, limit, Start(|progs|, shared), ticks);
    AllHaveEnded(progs, limit, c);
    dur := seq(|c.start|, j requires 0 <= j < |c.start| => c.end[j] - c.start[j]);
    DurationsAreHeld(c.start, c.end, dur);
    forall i | 0 <= i < |c.start| ensures Started(c.start, dur, limit, i) {
      AllBegan(progs, limit, c, i);
      BeganIsStarted(c.start, c.end, dur, limit, i);
    }
  }

  lemma DurationsAreHeld(start: seq<nat>, end: map<nat, nat>, dur: seq<nat>)
    requires |dur| == |start| && forall j | 0 <= j < |start| :: j in end && start[j] + dur[j] == end[j]
    ensures Held(start, end, dur)
  {
  }

  lemma AllBegan<R(!new), V(!new)>(progs: seq<Program<R, V>>, limit: nat, c: Clock<R, V>, i: nat)
    requires Punctual(progs, limit, c) && i < |c.start|
    ensures Began(c.start, c.end, limit, i)
  {
    hide Began, Control, Times;
  }

  /**
   * A timed fan-out ends in rounds: if no job holds its token for longer than `longest`, job `i` starts within
   * `i / limit` rounds of that length, and the last token is back within as many rounds as it takes to serve all jobs.
   */
  lemma TimedFanOutWithinBound<R(!new), V(!new)>(progs: seq<Program<R, V>>, limit: nat, shared: Shared<R, V>,
    ticks: seq<Tick>, longest: nat, i: nat)
    requires limit >= 1 && CanRunTimed(progs, limit, Start(|progs|, shared), ticks)
    requires
      var c := Last(progs, limit, Start(|progs|, shared), ticks);
      c.state.main.Returned? && forall j | 0 <= j < |c.start| && j in c.end :: c.end[j] - c.start[j] <= longest
    requires i < |progs|
    ensures
      var c := Last(progs, limit, Start(|progs|, shared), ticks);
      && |c.start| == |progs| && i in c.end
      && c.start[i] <= i / limit * longest
      && c.end[i] <= (|progs| + limit - 1) / limit * longest
  {
    hide Valid, CanRunTimed, Last;
    var dur := TimedRunIsASchedule(progs, limit, shared, ticks);
    var c := Last(progs, limit, Start(|progs|, shared), ticks);
    StartBound(c.start, dur, limit, longest, i);
    FanOutWithinBound(c.start, dur, limit, longest, i);
  }
}
