/** The fan-out of goroutines that first look something up in the shared table and then act on what they found. */
module FanOutLoads {
  import opened Wrappers
  import opened FanOut
  import opened FanOutProofs

  /** A goroutine: the key it looks up, and its effects, given what it found there. */
  datatype Job<R, !V> = Job(key: string, plan: Option<V> -> Program<R, V>)

  /** `loads[i]` is what goroutine `i` found, once it has looked. */
  datatype Loading<R, V> = Loading(base: State<R, V>, loads: seq<Option<Option<V>>>)

  datatype Step = Plain(event: Event) | Load(i: nat)

  /** The programs decided so far; a goroutine that has not looked yet has done nothing. */
  function Planned<R, V>(jobs: seq<Job<R, V>>, loads: seq<Option<Option<V>>>): seq<Program<R, V>> {
    seq(|jobs|, i requires 0 <= i < |jobs| =>
      if i < |loads| && loads[i].Some? then jobs[i].plan(loads[i].value) else [])
  }

  function Begin<R, V>(n: nat, shared: Shared<R, V>): Loading<R, V> {
    Loading(Init(n, shared), seq(n, _ => None))
  }

  /** A goroutine looks once, before its first effect; until then it cannot go on. */
  predicate CanStep<R(!new), V(!new)>(jobs: seq<Job<R, V>>, limit: int, s: Loading<R, V>, e: Step) {
    match e
    case Load(i) => i < |jobs| && i < |s.loads| && i < |s.base.gs| && s.base.gs[i] == Running(0, Outside)
      && s.loads[i].None?
    case Plain(event) =>
      && (event.Go? ==> event.i < |s.loads| && s.loads[event.i].Some?)
      && Enabled(Planned(jobs, s.loads), limit, s.base, event)
  }

  function Take<R(!new), V(!new)>(jobs: seq<Job<R, V>>, limit: int, s: Loading<R, V>, e: Step): Loading<R, V>
    requires CanStep(jobs, limit, s, e)
  {
    match e
    case Load(i) => s.(loads := s.loads[i := Some(Lookup(s.base.shared.table, jobs[i].key))])
    case Plain(event) => s.(base := After(Planned(jobs, s.loads), limit, s.base, event))
  }

  ghost predicate IsRun<R(!new), V(!new)>(jobs: seq<Job<R, V>>, limit: int, s: Loading<R, V>, steps: seq<Step>)
    decreases |steps|, 0
  {
    steps == [] ||
    var n := |steps| - 1;
    IsRun(jobs, limit, s, steps[..n]) && CanStep(jobs, limit, Last(jobs, limit, s, steps[..n]), steps[n])
  }

  ghost function Last<R(!new), V(!new)>(jobs: seq<Job<R, V>>, limit: int, s: Loading<R, V>,
    steps: seq<Step>): Loading<R, V>
    requires IsRun(jobs, limit, s, steps)
    decreases |steps|, 1
  {
    if steps == [] then s
    else Take(jobs, limit, Last(jobs, limit, s, steps[..|steps| - 1]), steps[|steps| - 1])
  }

  /** Each job writes its own key only, and no two jobs have the same. */
  ghost predicate OwnPlans<R(!new), V(!new)>(jobs: seq<Job<R, V>>) {
    && (forall i, j | 0 <= i < j < |jobs| :: jobs[i].key != jobs[j].key)
    && (forall i, v, k | 0 <= i < |jobs| && 0 <= k < |jobs[i].plan(v)| && jobs[i].plan(v)[k].Put? ::
          jobs[i].plan(v)[k].key == jobs[i].key)
  }

  function KeysOf<R, V>(jobs: seq<Job<R, V>>): seq<string> {
    seq(|jobs|, i requires 0 <= i < |jobs| => jobs[i].key)
  }

  lemma PlannedOwnKeys<R(!new), V(!new)>(jobs: seq<Job<R, V>>, loads: seq<Option<Option<V>>>)
    requires OwnPlans(jobs)
    ensures OwnKeys(Planned(jobs, loads), KeysOf(jobs))
  {
  }

  // ---------------------------------------------------------------- the same run, with the programs known beforehand

  function Erased(steps: seq<Step>): seq<Event> {
    if steps == [] then []
    else
      var last := steps[|steps| - 1];
      Erased(steps[..|steps| - 1]) + (if last.Plain? then [last.event] else [])
  }

  /** A step looks at no program but that of the goroutine that goes. */
  lemma StepIsLocal<R(!new), V(!new)>(p: seq<Program<R, V>>, q: seq<Program<R, V>>, limit: int, s: State<R, V>,
    e: Event)
    requires |p| == |q| && Enabled(p, limit, s, e) && (e.Go? ==> p[e.i] == q[e.i])
    ensures Enabled(q, limit, s, e) && After(q, limit, s, e) == After(p, limit, s, e)
  {
    hide StepGoroutine;
  }

  lemma {:induction false} RunSnoc<R(!new), V(!new)>(progs: seq<Program<R, V>>, limit: int, s: State<R, V>,
    events: seq<Event>, e: Event)
    requires CanRun(progs, limit, s, events) && Enabled(progs, limit, End(progs, limit, s, events), e)
    ensures CanRun(progs, limit, s, events + [e])
    ensures End(progs, limit, s, events + [e]) == After(progs, limit, End(progs, limit, s, events), e)
    decreases events
  {
    hide Enabled, After;
    if events == [] {
      assert events + [e] == [e] && [e][1..] == [];
    } else {
      assert (events + [e])[0] == events[0] && (events + [e])[1..] == events[1..] + [e];
      RunSnoc(progs, limit, After(progs, limit, s, events[0]), events[1..], e);
    }
  }

  /** Programs that agree on every goroutine that went give the same run. */
  lemma {:induction false} RunIsLocal<R(!new), V(!new)>(p: seq<Program<R, V>>, q: seq<Program<R, V>>, limit: int,
    s: State<R, V>, events: seq<Event>)
    requires |p| == |q| && CanRun(p, limit, s, events)
    requires forall k | 0 <= k < |events| && events[k].Go? :: events[k].i < |p| ==> p[events[k].i] == q[events[k].i]
    ensures CanRun(q, limit, s, events) && End(q, limit, s, events) == End(p, limit, s, events)
    decreases events
  {
    hide After;
    if events != [] {
      GoesInRange(p, limit, s, events[0]);
      hide Enabled;
      StepIsLocal(p, q, limit, s, events[0]);
      assert forall k | 0 <= k < |events[1..]| :: events[1..][k] == events[k + 1];
      RunIsLocal(p, q, limit, After(p, limit, s, events[0]), events[1..]);
    }
  }

  lemma GoesInRange<R(!new), V(!new)>(p: seq<Program<R, V>>, limit: int, s: State<R, V>, e: Event)
    requires Enabled(p, limit, s, e)
    ensures e.Go? ==> e.i < |p|
  {
  }

  /** Only goroutines that have looked have gone. */
  ghost predicate Erases<R(!new), V(!new)>(jobs: seq<Job<R, V>>, limit: int, start: State<R, V>, s: Loading<R, V>,
    events: seq<Event>)
  {
    && |s.loads| == |jobs| && |s.base.gs| == |jobs|
    && CanRun(Planned(jobs, s.loads), limit, start, events)
      && End(Planned(jobs, s.loads), limit, start, events) == s.base
    && (forall k | 0 <= k < |events| && events[k].Go? && events[k].i < |jobs| :: s.loads[events[k].i].Some?)
    && (forall i | 0 <= i < |jobs| && s.loads[i].None? :: s.base.gs[i].Idle? || s.base.gs[i] == Running(0, Outside))
  }

  lemma LoadErases<R(!new), V(!new)>(jobs: seq<Job<R, V>>, limit: int, start: State<R, V>, s: Loading<R, V>,
    events: seq<Event>, i: nat)
    requires Erases(jobs, limit, start, s, events) && CanStep(jobs, limit, s, Load(i))
    ensures Erases(jobs, limit, start, Take(jobs, limit, s, Load(i)), events)
  {
    hide CanRun, End;
    var next := Take(jobs, limit, s, Load(i));
    RunIsLocal(Planned(jobs, s.loads), Planned(jobs, next.loads), limit, start, events);
  }

  lemma PlainErases<R(!new), V(!new)>(jobs: seq<Job<R, V>>, limit: int, start: State<R, V>, s: Loading<R, V>,
    events: seq<Event>, e: Event)
    requires Erases(jobs, limit, start, s, events) && CanStep(jobs, limit, s, Plain(e))
    ensures Erases(jobs, limit, start, Take(jobs, limit, s, Plain(e)), events + [e])
  {
    hide CanRun, End, Planned;
    RunSnoc(Planned(jobs, s.loads), limit, start, events, e);
    OthersStay(Planned(jobs, s.loads), limit, s.base, e);
  }

  /** A goroutine that does not go stays where it is, unless it is spawned. */
  lemma OthersStay<R(!new), V(!new)>(progs: seq<Program<R, V>>, limit: int, s: State<R, V>, e: Event)
    requires Enabled(progs, limit, s, e)
    ensures
      var next := After(progs, limit, s, e);
      && |next.gs| == |s.gs|
      && forall j | 0 <= j < |s.gs| && !(e.Go? && e.i == j) ::
           next.gs[j] == s.gs[j] || next.gs[j] == Running(0, Outside)
  {
  }

  lemma {:induction false} RunErases<R(!new), V(!new)>(jobs: seq<Job<R, V>>, limit: int, shared0: Shared<R, V>,
    steps: seq<Step>)
    requires IsRun(jobs, limit, Begin(|jobs|, shared0), steps)
    ensures Erases(jobs, limit, Init(|jobs|, shared0), Last(jobs, limit, Begin(|jobs|, shared0), steps), Erased(steps))
    decreases steps
  {
    hide CanStep, Take, Planned;
    if steps != [] {
      hide Erases;
      var n := |steps| - 1;
      RunErases(jobs, limit, shared0, steps[..n]);
      var s := Last(jobs, limit, Begin(|jobs|, shared0), steps[..n]);
      match steps[n]
      case Load(i) =>
        LoadErases(jobs, limit, Init(|jobs|, shared0), s, Erased(steps[..n]), i);
        assert Erased(steps) == Erased(steps[..n]);
      case Plain(e) =>
        PlainErases(jobs, limit, Init(|jobs|, shared0), s, Erased(steps[..n]), e);
    }
  }

  lemma ReachableLoading<R(!new), V(!new)>(jobs: seq<Job<R, V>>, limit: int, shared0: Shared<R, V>, steps: seq<Step>)
    requires OwnPlans(jobs) && IsRun(jobs, limit, Begin(|jobs|, shared0), steps)
    ensures
      var s := Last(jobs, limit, Begin(|jobs|, shared0), steps);
      && |s.loads| == |jobs| && |s.base.gs| == |jobs|
      && Inv(Planned(jobs, s.loads), KeysOf(jobs), limit, shared0, s.base)
  {
    hide CanStep, Take, Planned, Inv, CanRun, End, IsRun, Last;
    var s := Last(jobs, limit, Begin(|jobs|, shared0), steps);
    RunErases(jobs, limit, shared0, steps);
    PlannedOwnKeys(jobs, s.loads);
    PlannedLength(jobs, s.loads);
    Reachable(Planned(jobs, s.loads), KeysOf(jobs), limit, shared0, Erased(steps));
  }

  lemma PlannedLength<R(!new), V(!new)>(jobs: seq<Job<R, V>>, loads: seq<Option<Option<V>>>)
    ensures |Planned(jobs, loads)| == |jobs|
  {
  }

  // ---------------------------------------------------------------- what a goroutine finds

  lemma {:induction false} LastPutOfNone<R(!new), V(!new)>(prog: Program<R, V>, before: Option<V>)
    requires forall k | 0 <= k < |prog| :: !prog[k].Put?
    ensures LastPut(prog, before) == before
  {
    if prog != [] {
      LastPutOfNone(prog[..|prog| - 1], before);
    }
  }

  /**
   * In every reachable state, until a goroutine has completed its own put, the table holds under its key what it
   * held before the fan-out, whatever the others have done.
   */
  lemma OwnEntryUntouched<R(!new), V(!new)>(jobs: seq<Job<R, V>>, limit: int, shared0: Shared<R, V>, steps: seq<Step>,
    i: nat)
    requires OwnPlans(jobs) && IsRun(jobs, limit, Begin(|jobs|, shared0), steps) && i < |jobs|
    ensures
      var s := Last(jobs, limit, Begin(|jobs|, shared0), steps);
      && |s.base.gs| == |jobs| == |Planned(jobs, s.loads)|
      && var prog := Planned(jobs, s.loads)[i];
      (forall k | 0 <= k < Done(prog, s.base.gs[i]) :: !prog[k].Put?) ==>
        Lookup(s.base.shared.table, jobs[i].key) == Lookup(shared0.table, jobs[i].key)
  {
    hide IsRun, Last, Planned, Control, Exclusive, MutexHolderRuns, Lookup, Begin;
    var s := Last(jobs, limit, Begin(|jobs|, shared0), steps);
    ReachableLoading(jobs, limit, shared0, steps);
    PlannedLength(jobs, s.loads);
    var prog := Planned(jobs, s.loads)[i];
    assert KeysOf(jobs)[i] == jobs[i].key;
    if forall k | 0 <= k < Done(prog, s.base.gs[i]) :: !prog[k].Put? {
      LastPutOfNone(prog[..Done(prog, s.base.gs[i])], Lookup(shared0.table, jobs[i].key));
    }
  }

  /** Every lookup, whenever it happens, finds what the table held before the fan-out. */
  lemma {:induction false} LoadsSeeTheStart<R(!new), V(!new)>(jobs: seq<Job<R, V>>, limit: int, shared0: Shared<R, V>,
    steps: seq<Step>)
    requires OwnPlans(jobs) && IsRun(jobs, limit, Begin(|jobs|, shared0), steps)
    ensures
      var s := Last(jobs, limit, Begin(|jobs|, shared0), steps);
      && |s.loads| == |jobs|
      && forall i | 0 <= i < |jobs| && s.loads[i].Some? :: s.loads[i].value == Lookup(shared0.table, jobs[i].key)
    decreases steps
  {
    hide OwnPlans, Lookup, Enabled, After;
    if steps != [] {
      var n := |steps| - 1;
      LoadsSeeTheStart(jobs, limit, shared0, steps[..n]);
      if steps[n].Load? {
        OwnEntryUntouched(jobs, limit, shared0, steps[..n], steps[n].i);
      }
    }
  }

  // ---------------------------------------------------------------- main results

  /** The programs the jobs follow when each looks before any other has written. */
  function FromStart<R, V>(jobs: seq<Job<R, V>>, table: map<string, V>): seq<Program<R, V>> {
    seq(|jobs|, i requires 0 <= i < |jobs| => jobs[i].plan(Lookup(table, jobs[i].key)))
  }

  /**
   * Schedule independence with lookups: whatever the interleaving of lookups and effects, a finished fan-out leaves
   * what the jobs done one after the other would leave, each acting on what the table held at the start.
   */
  lemma LoadingFanOutIsSequential<R(!new), V(!new)>(jobs: seq<Job<R, V>>, limit: int, shared0: Shared<R, V>,
    steps: seq<Step>)
    requires OwnPlans(jobs) && IsRun(jobs, limit, Begin(|jobs|, shared0), steps)
    requires Last(jobs, limit, Begin(|jobs|, shared0), steps).base.main.Returned?
    ensures SameShared(Last(jobs, limit, Begin(|jobs|, shared0), steps).base.shared,
              Sequential(FromStart(jobs, shared0.table), shared0))
    ensures OwnKeys(FromStart(jobs, shared0.table), KeysOf(jobs))
  {
    hide IsRun, Last, Sequential, CanRun, End, SameShared, OwnKeys, Lookup, Begin;
    var s := Last(jobs, limit, Begin(|jobs|, shared0), steps);
    RunErases(jobs, limit, shared0, steps);
    LoadsSeeTheStart(jobs, limit, shared0, steps);
    AllHaveLooked(jobs, limit, shared0, steps);
    assert Planned(jobs, s.loads) == FromStart(jobs, shared0.table);
    PlannedOwnKeys(jobs, s.loads);
    FanOutIsSequential(Planned(jobs, s.loads), KeysOf(jobs), limit, shared0, Erased(steps));
  }

  lemma AllHaveLooked<R(!new), V(!new)>(jobs: seq<Job<R, V>>, limit: int, shared0: Shared<R, V>, steps: seq<Step>)
    requires OwnPlans(jobs) && IsRun(jobs, limit, Begin(|jobs|, shared0), steps)
    requires Last(jobs, limit, Begin(|jobs|, shared0), steps).base.main.Returned?
    ensures
      var s := Last(jobs, limit, Begin(|jobs|, shared0), steps);
      |s.loads| == |jobs| && forall i | 0 <= i < |jobs| :: s.loads[i].Some?
  {
    hide IsRun, Last, Planned, CanRun, End, Content, Exclusive, Begin;
    var s := Last(jobs, limit, Begin(|jobs|, shared0), steps);
    RunErases(jobs, limit, shared0, steps);
    ReachableLoading(jobs, limit, shared0, steps);
    CountZero(s.base.gs, Awaited);
  }

  /** No deadlock: until it has returned, and if the limit is at least 1, something can happen. */
  lemma LoadingNeverDeadlocks<R(!new), V(!new)>(jobs: seq<Job<R, V>>, limit: int, shared0: Shared<R, V>,
    steps: seq<Step>)
    returns (next: Step)
    requires OwnPlans(jobs) && IsRun(jobs, limit, Begin(|jobs|, shared0), steps) && limit >= 1
    requires !Last(jobs, limit, Begin(|jobs|, shared0), steps).base.main.Returned?
    ensures CanStep(jobs, limit, Last(jobs, limit, Begin(|jobs|, shared0), steps), next)
  {
    hide IsRun, Last, Planned, CanRun, End, Content, Control, Exclusive, MutexHolderRuns, Begin;
    var s := Last(jobs, limit, Begin(|jobs|, shared0), steps);
    RunErases(jobs, limit, shared0, steps);
    ReachableLoading(jobs, limit, shared0, steps);
    PlannedLength(jobs, s.loads);
    var e := SomeStep(Planned(jobs, s.loads), limit, s.base);
    next := if e.Go? && s.loads[e.i].None? then Load(e.i) else Plain(e);
  }

  // ---------------------------------------------------------------- termination

  /** How many goroutines have looked. */
  function Looked<V>(loads: seq<Option<Option<V>>>): (k: nat)
    ensures k <= |loads|
  {
    if loads == [] then 0 else Looked(loads[..|loads| - 1]) + if loads[|loads| - 1].Some? then 1 else 0
  }

  lemma {:induction false} LookedOnce<V>(loads: seq<Option<Option<V>>>, i: nat, found: Option<V>)
    requires i < |loads| && loads[i].None?
    ensures Looked(loads[i := Some(found)]) == Looked(loads) + 1
  {
    var n := |loads| - 1;
    if i < n {
      LookedOnce(loads[..n], i, found);
      assert loads[i := Some(found)][..n] == loads[..n][i := Some(found)];
    } else {
      assert loads[i := Some(found)][..n] == loads[..n];
    }
  }

  lemma {:induction false} NoneLooked<V>(n: nat)
    ensures Looked<V>(seq(n, _ => None)) == 0
  {
    if n > 0 {
      NoneLooked<V>(n - 1);
      var all: seq<Option<Option<V>>> := seq(n, _ => None);
      assert all[..n - 1] == seq(n - 1, _ => None);
    }
  }

  /** A run is its events and one lookup for each goroutine that has looked. */
  lemma {:induction false} StepsAreEventsAndLoads<R(!new), V(!new)>(jobs: seq<Job<R, V>>, limit: int,
    shared0: Shared<R, V>, steps: seq<Step>)
    requires IsRun(jobs, limit, Begin(|jobs|, shared0), steps)
    ensures |steps| == |Erased(steps)| + Looked(Last(jobs, limit, Begin(|jobs|, shared0), steps).loads)
    decreases steps
  {
    hide Lookup, Enabled, After, Planned;
    if steps == [] {
      NoneLooked<V>(|jobs|);
    } else {
      var n := |steps| - 1;
      StepsAreEventsAndLoads(jobs, limit, shared0, steps[..n]);
      var s := Last(jobs, limit, Begin(|jobs|, shared0), steps[..n]);
      if steps[n].Load? {
        var i := steps[n].i;
        LookedOnce(s.loads, i, Lookup(s.base.shared.table, jobs[i].key));
      }
    }
  }

  lemma {:induction false} FewerEffects<R(!new), V(!new)>(p: seq<Program<R, V>>, q: seq<Program<R, V>>)
    requires |p| == |q| && forall i | 0 <= i < |p| :: |p[i]| <= |q[i]|
    ensures Effects(p) <= Effects(q)
  {
    if p != [] {
      FewerEffects(p[..|p| - 1], q[..|p| - 1]);
    }
  }

  /** Every run is finite, of a length known beforehand: that of a run without lookups, and a lookup for each job. */
  lemma LoadingTerminates<R(!new), V(!new)>(jobs: seq<Job<R, V>>, limit: int, shared0: Shared<R, V>, steps: seq<Step>)
    requires OwnPlans(jobs) && IsRun(jobs, limit, Begin(|jobs|, shared0), steps)
    ensures |steps| <= 4 * Effects(FromStart(jobs, shared0.table)) + 6 * |jobs| + 2
  {
    hide IsRun, Last, Planned, CanRun, End, OwnPlans, OwnKeys, Lookup, Begin, Effects;
    var s := Last(jobs, limit, Begin(|jobs|, shared0), steps);
    RunErases(jobs, limit, shared0, steps);
    PlannedOwnKeys(jobs, s.loads);
    PlannedLength(jobs, s.loads);
    FanOutTerminates(Planned(jobs, s.loads), KeysOf(jobs), limit, shared0, Erased(steps));
    StepsAreEventsAndLoads(jobs, limit, shared0, steps);
    LoadsSeeTheStart(jobs, limit, shared0, steps);
    PlannedIsShorter(jobs, s.loads, shared0.table);
    FewerEffects(Planned(jobs, s.loads), FromStart(jobs, shared0.table));
  }

  lemma PlannedIsShorter<R(!new), V(!new)>(jobs: seq<Job<R, V>>, loads: seq<Option<Option<V>>>, table: map<string, V>)
    requires |loads| == |jobs|
    requires forall i | 0 <= i < |jobs| && loads[i].Some? :: loads[i].value == Lookup(table, jobs[i].key)
    ensures
      var p, q := Planned(jobs, loads), FromStart(jobs, table);
      |p| == |q| && forall i | 0 <= i < |p| :: |p[i]| <= |q[i]|
  {
    hide Lookup;
  }
}
