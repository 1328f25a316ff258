/** The process-wide topology cache, used by any number of scrapes at once. */
module TopologyCache {
  import opened Wrappers
  import Ibnetdiscover
  import FanOutProofs

  type Topology = Ibnetdiscover.Topology
  type Devices = seq<Ibnetdiscover.Device>

  /** How ibnetdiscover and the parse of its output ended. */
  datatype Collected = Success(topology: Topology) | Timeout | Error

  /** The cache: two lists, nil before the first success, and the time of the last store (None: zero). */
  datatype Cache = Cache(switches: Option<Devices>, hcas: Option<Devices>, refresh: Option<nat>)

  const EMPTY := Cache(None, None, None)

  predicate IsFresh(refresh: Option<nat>, now: nat, ttl: int) {
    refresh.Some? && now - refresh.value < ttl
  }

  /** What GetPorts gives back. */
  datatype Return = Pair(switches: Option<Devices>, hcas: Option<Devices>) | Failed

  // ---------------------------------------------------------------- one call at a time

  function Call(c: Cache, ttl: int, checkedAt: nat, collected: Collected, storedAt: nat): (Cache, Return) {
    if ttl > 0 && IsFresh(c.refresh, checkedAt, ttl) then (c, Pair(c.switches, c.hcas))
    else
      match collected
      case Success(t) =>
        (if ttl > 0 then Cache(Some(t.switches), Some(t.hcas), Some(storedAt)) else c,
          Pair(Some(t.switches), Some(t.hcas)))
      case _ => (c, Failed)
  }

  class Holder {
    var switches: Option<Devices>
    var hcas: Option<Devices>
    var refresh: Option<nat>

    function Contents(): Cache
      reads this
    {
      Cache(switches, hcas, refresh)
    }

    constructor ()
      ensures Contents() == EMPTY
    {
      switches, hcas, refresh := None, None, None;
    }

    method GetPorts(ttl: int, checkedAt: nat, collected: Collected, storedAt: nat) returns (r: Return)
      modifies this
      ensures (Contents(), r) == Call(old(Contents()), ttl, checkedAt, collected, storedAt)
      ensures
        var young := ttl > 0 && old(refresh).Some? && checkedAt - old(refresh).value < ttl;
        && (young ==> r == Pair(old(switches), old(hcas)) && Contents() == old(Contents()))
        && (!young && collected.Success? ==>
              && r == Pair(Some(collected.topology.switches), Some(collected.topology.hcas))
              && if ttl > 0 then switches == r.switches && hcas == r.hcas && refresh == Some(storedAt)
                 else Contents() == old(Contents()))
        && (!young && !collected.Success? ==> r == Failed && Contents() == old(Contents()))
    {
      if ttl > 0 {
        var valid := refresh.Some? && checkedAt - refresh.value < ttl;
        var sw, hc := switches, hcas;
        if valid {
          return Pair(sw, hc);
        }
      }
      r := match collected case Success(t) => Pair(Some(t.switches), Some(t.hcas)) case _ => Failed;
      if collected.Success? && ttl > 0 {
        switches := r.switches;
        hcas := r.hcas;
        refresh := Some(storedAt);
      }
    }
  }

  // ---------------------------------------------------------------- any number of calls at once

  /** Where a call to GetPorts stands. Between Locked and Read, and between Storing and Stored, it holds the mutex. */
  datatype Caller =
    | Start
    | Locked
    | Checked(valid: bool)
    | HasSwitches(valid: bool, sw: Option<Devices>)
    | Read(valid: bool, sw: Option<Devices>, hc: Option<Devices>)
    | Collecting
    | Ended(collected: Collected)
    | Storing(topology: Topology)
    | StoredSwitches(topology: Topology)
    | StoredHcas(topology: Topology)
    | Stored(topology: Topology)
    | Hit(sw: Option<Devices>, hc: Option<Devices>)
    | Ran(collected: Collected)

  datatype State = State(cache: Cache, mutex: Option<nat>, now: nat, callers: seq<Caller>, errors: nat, timeouts: nat)

  /** Time passes, or a caller takes its next step; `collected` is how its run ends, if that is the step. */
  datatype Event = Tick | Go(i: nat, collected: Collected)

  function Init(n: nat, now: nat): State {
    State(EMPTY, None, now, seq(n, _ => Start), 0, 0)
  }

  predicate Finished(c: Caller) {
    c.Hit? || c.Ran?
  }

  predicate Enabled(s: State, ttl: int, e: Event) {
    match e
    case Tick => true
    case Go(i, _) =>
      && i < |s.callers| && !Finished(s.callers[i])
      && (s.callers[i].Start? && ttl > 0 ==> s.mutex.None?)
      && (s.callers[i].Ended? && s.callers[i].collected.Success? && ttl > 0 ==> s.mutex.None?)
  }

  function After(s: State, ttl: int, e: Event): State
    requires Enabled(s, ttl, e)
  {
    match e
    case Tick => s.(now := s.now + 1)
    case Go(i, collected) =>
      match s.callers[i]
      case Start =>
        if ttl > 0 then To(s, i, Locked).(mutex := Some(i)) else To(s, i, Collecting)
      case Locked => To(s, i, Checked(IsFresh(s.cache.refresh, s.now, ttl)))
      case Checked(valid) => To(s, i, HasSwitches(valid, s.cache.switches))
      case HasSwitches(valid, sw) => To(s, i, Read(valid, sw, s.cache.hcas))
      case Read(valid, sw, hc) =>
        To(s, i, if valid then Hit(sw, hc) else Collecting).(mutex := None)
      case Collecting =>
        To(s, i, Ended(collected)).(
          errors := if collected.Error? then s.errors + 1 else s.errors,
          timeouts := if collected.Timeout? then s.timeouts + 1 else s.timeouts)
      case Ended(result) =>
        if result.Success? && ttl > 0 then To(s, i, Storing(result.topology)).(mutex := Some(i))
          else To(s, i, Ran(result))
      case Storing(t) => To(s, i, StoredSwitches(t)).(cache := s.cache.(switches := Some(t.switches)))
      case StoredSwitches(t) => To(s, i, StoredHcas(t)).(cache := s.cache.(hcas := Some(t.hcas)))
      case StoredHcas(t) => To(s, i, Stored(t)).(cache := s.cache.(refresh := Some(s.now)))
      case Stored(t) => To(s, i, Ran(Success(t))).(mutex := None)
  }

  function To(s: State, i: nat, c: Caller): State
    requires i < |s.callers|
  {
    s.(callers := s.callers[i := c])
  }

  ghost predicate CanRun(s: State, ttl: int, events: seq<Event>)
    decreases events
  {
    events == [] || (Enabled(s, ttl, events[0]) && CanRun(After(s, ttl, events[0]), ttl, events[1..]))
  }

  function End(s: State, ttl: int, events: seq<Event>): State
    requires CanRun(s, ttl, events)
    decreases events
  {
    if events == [] then s else End(After(s, ttl, events[0]), ttl, events[1..])
  }

  // ---------------------------------------------------------------- what an observer of a run sees

  /** A store: whose, and when its time stamp was taken. */
  datatype Store = Store(caller: nat, at: nat)

  /** A look at the time stamp: when, and how many stores had been made by then. */
  datatype Check = Check(at: nat, stores: nat)

  /**
   * Read off the events alone: when each call looked at the time stamp, how the run of ibnetdiscover that each call
   * made ended, and the stores, oldest first.
   */
  datatype Log = Log(checks: map<nat, Check>, runs: map<nat, Collected>, stores: seq<Store>)

  const NOTHING := Log(map[], map[], [])

  function Note(log: Log, s: State, e: Event): Log {
    if e.Tick? || e.i >= |s.callers| then log
    else
      match s.callers[e.i]
      case Locked => log.(checks := log.checks[e.i := Check(s.now, |log.stores|)])
      case Collecting => log.(runs := log.runs[e.i := e.collected])
      case StoredHcas(_) => log.(stores := log.stores + [Store(e.i, s.now)])
      case _ => log
  }

  function LogOf(log: Log, s: State, ttl: int, events: seq<Event>): Log
    requires CanRun(s, ttl, events)
    decreases events
  {
    if events == [] then log else LogOf(Note(log, s, events[0]), After(s, ttl, events[0]), ttl, events[1..])
  }

  /** This call made a successful run, and it found this. */
  predicate Found(log: Log, i: nat, t: Topology) {
    i in log.runs && log.runs[i] == Success(t)
  }

  // ---------------------------------------------------------------- invariants

  predicate Holds(c: Caller) {
    c.Locked? || c.Checked? || c.HasSwitches? || c.Read? || c.Storing? || c.StoredSwitches? || c.StoredHcas?
      || c.Stored?
  }

  ghost predicate Exclusive(s: State) {
    && (forall i | 0 <= i < |s.callers| && Holds(s.callers[i]) :: s.mutex == Some(i))
    && (s.mutex.Some? ==> s.mutex.value < |s.callers| && Holds(s.callers[s.mutex.value]))
  }

  /** The cache as the last completed store left it: both lists of one run, and the time of that store. */
  function LastStored(log: Log): Cache {
    if log.stores == [] then EMPTY
    else
      var last := log.stores[|log.stores| - 1];
      if last.caller in log.runs && log.runs[last.caller].Success? then
        var t := log.runs[last.caller].topology;
        Cache(Some(t.switches), Some(t.hcas), Some(last.at))
      else EMPTY
  }

  /** What the cache holds while this caller has the mutex. */
  function While(c: Caller, log: Log): Cache {
    var last := LastStored(log);
    match c
    case StoredSwitches(t) => last.(switches := Some(t.switches))
    case StoredHcas(t) => last.(switches := Some(t.switches), hcas := Some(t.hcas))
    case _ => last
  }

  ghost predicate StoresAreRuns(s: State, log: Log) {
    && (forall k | 0 <= k < |log.stores| ::
          log.stores[k].caller in log.runs && log.runs[log.stores[k].caller].Success?)
    && (forall i <- log.checks :: log.checks[i].stores <= |log.stores|)
  }

  /** A call looked after the stores it counted, and before all others. */
  ghost predicate InOrder(log: Log, i: nat)
    requires i in log.checks
  {
    && (forall k | 0 <= k < |log.stores| && k < log.checks[i].stores :: log.stores[k].at <= log.checks[i].at)
    && (forall k | log.checks[i].stores <= k < |log.stores| :: log.checks[i].at <= log.stores[k].at)
  }

  ghost predicate AllInOrder(s: State, log: Log) {
    && (forall k | 0 <= k < |log.stores| :: log.stores[k].at <= s.now)
    && (forall i <- log.checks :: log.checks[i].at <= s.now && log.checks[i].stores <= |log.stores| && InOrder(log, i))
  }

  ghost predicate CacheIsStored(s: State, log: Log) {
    s.cache ==
      if s.mutex.Some? && s.mutex.value < |s.callers| then While(s.callers[s.mutex.value], log) else LastStored(log)
  }

  /** This call looked at a moment when some store had been made and the last one was younger than the TTL. */
  predicate FoundYoung(log: Log, ttl: int, i: nat) {
    && i in log.checks && 0 < log.checks[i].stores <= |log.stores|
    && log.checks[i].at - log.stores[log.checks[i].stores - 1].at < ttl
  }

  /** The lists are those of the last store made before this call looked, one whole run's. */
  ghost predicate LastBefore(log: Log, i: nat, sw: Option<Devices>, hc: Option<Devices>) {
    && i in log.checks && 0 < log.checks[i].stores <= |log.stores|
    && exists t | Found(log, log.stores[log.checks[i].stores - 1].caller, t) ::
      sw == Some(t.switches) && hc == Some(t.hcas)
  }

  /** While the mutex is held: the check was made, of the last store, and passed if that was young enough. */
  ghost predicate Looked(s: State, log: Log, ttl: int, i: nat, valid: bool) {
    && ttl > 0 && i !in log.runs && i in log.checks && log.checks[i].stores == |log.stores|
    && (valid <==> FoundYoung(log, ttl, i))
  }

  /** The call had to make its own run: with the cache on, it looked and found no young store. */
  ghost predicate Missed(log: Log, ttl: int, i: nat) {
    ttl > 0 ==> i in log.checks && !FoundYoung(log, ttl, i)
  }

  /** What a caller has read, found or is about to store. */
  ghost predicate Honest(s: State, log: Log, ttl: int, i: nat, c: Caller) {
    match c
    case Start => i !in log.runs && i !in log.checks
    case Locked => ttl > 0 && i !in log.runs && i !in log.checks
    case Checked(valid) => Looked(s, log, ttl, i, valid)
    case HasSwitches(valid, sw) => Looked(s, log, ttl, i, valid) && sw == s.cache.switches
    case Read(valid, sw, hc) => Looked(s, log, ttl, i, valid) && sw == s.cache.switches && hc == s.cache.hcas
    case Collecting => i !in log.runs && Missed(log, ttl, i)
    case Hit(sw, hc) => ttl > 0 && FoundYoung(log, ttl, i) && LastBefore(log, i, sw, hc)
    case Ended(collected) => i in log.runs && log.runs[i] == collected && Missed(log, ttl, i)
    case Ran(collected) => i in log.runs && log.runs[i] == collected && Missed(log, ttl, i)
    case Storing(t) => Found(log, i, t) && ttl > 0 && Missed(log, ttl, i)
    case StoredSwitches(t) => Found(log, i, t) && ttl > 0 && Missed(log, ttl, i)
    case StoredHcas(t) => Found(log, i, t) && ttl > 0 && Missed(log, ttl, i)
    case Stored(t) => Found(log, i, t) && ttl > 0 && Missed(log, ttl, i)
  }

  ghost predicate AllHonest(s: State, log: Log, ttl: int) {
    forall i | 0 <= i < |s.callers| :: Honest(s, log, ttl, i, s.callers[i])
  }

  /** The calls whose run of ibnetdiscover ended like this. */
  function Ending(log: Log, how: Collected): set<nat> {
    set i | i in log.runs && log.runs[i] == how
  }

  ghost predicate Totals(s: State, log: Log) {
    s.errors == |Ending(log, Error)| && s.timeouts == |Ending(log, Timeout)|
  }

  ghost predicate Inv(s: State, log: Log, ttl: int) {
    && Exclusive(s) && StoresAreRuns(s, log) && AllInOrder(s, log) && CacheIsStored(s, log) && AllHonest(s, log, ttl)
    && Totals(s, log)
    && (ttl <= 0 ==> log.stores == [])
  }

  lemma StepExclusive(s: State, ttl: int, e: Event)
    requires Exclusive(s) && Enabled(s, ttl, e)
    ensures Exclusive(After(s, ttl, e))
  {
    hide IsFresh;
  }

  lemma StepStores(s: State, log: Log, ttl: int, e: Event)
    requires StoresAreRuns(s, log) && AllHonest(s, log, ttl) && Enabled(s, ttl, e)
    ensures StoresAreRuns(After(s, ttl, e), Note(log, s, e))
    ensures ttl <= 0 && log.stores == [] ==> Note(log, s, e).stores == []
  {
    hide IsFresh, FoundYoung, LastBefore;
    if e.Go? {
      assert Honest(s, log, ttl, e.i, s.callers[e.i]);
    }
  }

  lemma StepInOrder(s: State, log: Log, ttl: int, e: Event)
    requires AllInOrder(s, log) && Enabled(s, ttl, e)
    ensures AllInOrder(After(s, ttl, e), Note(log, s, e))
  {
    hide InOrder, After;
    NowAdvances(s, ttl, e);
    var next := Note(log, s, e);
    if next.stores != log.stores {
      assert next == log.(stores := log.stores + [Store(e.i, s.now)]);
      forall i | i in next.checks ensures InOrder(next, i) {
        StoreKeepsOrder(log, Store(e.i, s.now), i);
      }
    } else {
      forall i | i in next.checks ensures InOrder(next, i) {
        if i in log.checks && next.checks[i] == log.checks[i] {
          SameOrder(log, next, i);
        } else {
          CheckIsInOrder(s, next, i);
        }
      }
    }
  }

  lemma NowAdvances(s: State, ttl: int, e: Event)
    requires Enabled(s, ttl, e)
    ensures After(s, ttl, e).now >= s.now
  {
    hide IsFresh;
  }

  lemma StoreKeepsOrder(log: Log, store: Store, i: nat)
    requires i in log.checks && InOrder(log, i)
    requires log.checks[i].at <= store.at && log.checks[i].stores <= |log.stores|
    ensures InOrder(log.(stores := log.stores + [store]), i)
  {
  }

  lemma SameOrder(log: Log, next: Log, i: nat)
    requires i in log.checks && i in next.checks && next.checks[i] == log.checks[i] && next.stores == log.stores
    requires InOrder(log, i)
    ensures InOrder(next, i)
  {
  }

  lemma CheckIsInOrder(s: State, log: Log, i: nat)
    requires i in log.checks && log.checks[i] == Check(s.now, |log.stores|)
    requires forall k | 0 <= k < |log.stores| :: log.stores[k].at <= s.now
    ensures InOrder(log, i)
  {
  }

  /** Runs already made stay in the log. */
  lemma RunsStay(s: State, log: Log, ttl: int, e: Event, i: nat)
    requires AllHonest(s, log, ttl) && Enabled(s, ttl, e) && i in log.runs
    ensures i in Note(log, s, e).runs && Note(log, s, e).runs[i] == log.runs[i]
  {
    hide FoundYoung, LastBefore, Looked;
    if e.Go? {
      assert Honest(s, log, ttl, e.i, s.callers[e.i]);
    }
  }

  lemma LastStoredStays(s: State, log: Log, ttl: int, e: Event)
    requires AllHonest(s, log, ttl) && StoresAreRuns(s, log) && Enabled(s, ttl, e)
    ensures Note(log, s, e).stores == log.stores ==> LastStored(Note(log, s, e)) == LastStored(log)
  {
    hide AllHonest, Note;
    if log.stores != [] {
      RunsStay(s, log, ttl, e, log.stores[|log.stores| - 1].caller);
    }
  }

  lemma StepCache(s: State, log: Log, ttl: int, e: Event)
    requires Exclusive(s) && StoresAreRuns(s, log) && CacheIsStored(s, log) && AllHonest(s, log, ttl)
    requires Enabled(s, ttl, e)
    ensures CacheIsStored(After(s, ttl, e), Note(log, s, e))
  {
    hide IsFresh, FoundYoung, LastBefore, Looked, AllHonest, StoresAreRuns;
    LastStoredStays(s, log, ttl, e);
    if e.Go? {
      CallerIsHonest(s, log, ttl, e.i);
      if s.callers[e.i].StoredHcas? {
        hide LastStored;
        NextStore(s, log, e.i, s.callers[e.i].topology);
      } else {
        hide LastStored;
      }
    }
  }

  lemma CallerIsHonest(s: State, log: Log, ttl: int, i: nat)
    requires AllHonest(s, log, ttl) && i < |s.callers|
    ensures Honest(s, log, ttl, i, s.callers[i])
  {
  }

  lemma NextStore(s: State, log: Log, i: nat, t: Topology)
    requires Found(log, i, t)
    ensures LastStored(log.(stores := log.stores + [Store(i, s.now)]))
      == Cache(Some(t.switches), Some(t.hcas), Some(s.now))
  {
  }

  /** What a call found when it looked is not changed by later stores. */
  lemma StillFound(s: State, log: Log, ttl: int, e: Event, i: nat)
    requires AllHonest(s, log, ttl) && StoresAreRuns(s, log) && Enabled(s, ttl, e)
    requires i in log.checks && (e.Go? && e.i == i ==> !s.callers[i].Locked?)
    ensures
      var next := Note(log, s, e);
      && i in next.checks && next.checks[i] == log.checks[i]
      && (FoundYoung(next, ttl, i) <==> FoundYoung(log, ttl, i))
      && forall sw, hc | LastBefore(log, i, sw, hc) :: LastBefore(next, i, sw, hc)
  {
    hide AllHonest, After;
    var next := Note(log, s, e);
    assert next.stores == log.stores || (e.Go? && next.stores == log.stores + [Store(e.i, s.now)]);
    if 0 < log.checks[i].stores <= |log.stores| {
      var k := log.checks[i].stores - 1;
      assert next.stores[k] == log.stores[k];
      RunsStay(s, log, ttl, e, log.stores[k].caller);
    }
  }

  /** What another caller has read, found or is about to store stays so. */
  lemma OthersStayHonest(s: State, log: Log, ttl: int, e: Event, j: nat)
    requires j < |s.callers| && Exclusive(s) && AllHonest(s, log, ttl) && StoresAreRuns(s, log) && Enabled(s, ttl, e)
    requires e.Go? ==> e.i != j
    ensures Honest(After(s, ttl, e), Note(log, s, e), ttl, j, After(s, ttl, e).callers[j])
  {
    hide IsFresh, LastBefore, AllHonest, StoresAreRuns;
    CallerIsHonest(s, log, ttl, j);
    var next, seen := After(s, ttl, e), Note(log, s, e);
    var c := s.callers[j];
    assert next.callers[j] == c && next.now >= s.now;
    assert Holds(c) ==> next.cache == s.cache && seen.stores == log.stores;
    assert (j in seen.runs <==> j in log.runs) && (j in log.runs ==> seen.runs[j] == log.runs[j]);
    assert (j in seen.checks <==> j in log.checks) && (j in log.checks ==> seen.checks[j] == log.checks[j]);
    if j in log.checks {
      StillFound(s, log, ttl, e, j);
    }
  }

  /** A caller whose check passed returns the last store whole. */
  lemma HitIsFresh(s: State, log: Log, ttl: int, i: nat)
    requires i < |s.callers| && Exclusive(s) && StoresAreRuns(s, log) && CacheIsStored(s, log)
    requires s.callers[i].Read? && s.callers[i].valid && Honest(s, log, ttl, i, s.callers[i])
    ensures LastBefore(log, i, s.callers[i].sw, s.callers[i].hc)
  {
    var k := |log.stores| - 1;
    assert s.cache == LastStored(log);
    assert Found(log, log.stores[k].caller, log.runs[log.stores[k].caller].topology);
  }

  lemma CallerStaysHonest(s: State, log: Log, ttl: int, i: nat, collected: Collected)
    requires Exclusive(s) && StoresAreRuns(s, log) && CacheIsStored(s, log) && i < |s.callers|
    requires AllHonest(s, log, ttl) && Enabled(s, ttl, Go(i, collected))
    ensures
      var next := After(s, ttl, Go(i, collected));
      Honest(next, Note(log, s, Go(i, collected)), ttl, i, next.callers[i])
  {
    hide FoundYoung, LastBefore, StoresAreRuns, IsFresh, AllHonest;
    CallerIsHonest(s, log, ttl, i);
    if i in log.checks && !s.callers[i].Locked? {
      StillFound(s, log, ttl, Go(i, collected), i);
    }
    if s.callers[i].Read? && s.callers[i].valid {
      HitIsFresh(s, log, ttl, i);
    } else if s.callers[i].Locked? {
      CheckIsLooked(s, log, ttl, i);
    }
  }

  /** The check compares the clock with the stamp of the last store. */
  lemma CheckIsLooked(s: State, log: Log, ttl: int, i: nat)
    requires Exclusive(s) && StoresAreRuns(s, log) && CacheIsStored(s, log) && i < |s.callers| && s.callers[i].Locked?
    requires ttl > 0 && i !in log.runs
    ensures
      var seen := log.(checks := log.checks[i := Check(s.now, |log.stores|)]);
      Looked(s, seen, ttl, i, IsFresh(s.cache.refresh, s.now, ttl))
  {
  }

  lemma StepHonest(s: State, log: Log, ttl: int, e: Event)
    requires Exclusive(s) && StoresAreRuns(s, log) && CacheIsStored(s, log) && AllHonest(s, log, ttl)
    requires Enabled(s, ttl, e)
    ensures AllHonest(After(s, ttl, e), Note(log, s, e), ttl)
  {
    hide Honest, Exclusive, CacheIsStored, IsFresh, StoresAreRuns, Note;
    forall j | 0 <= j < |s.callers|
      ensures Honest(After(s, ttl, e), Note(log, s, e), ttl, j, After(s, ttl, e).callers[j])
    {
      if e.Go? && e.i == j {
        CallerStaysHonest(s, log, ttl, j, e.collected);
      } else {
        OthersStayHonest(s, log, ttl, e, j);
      }
    }
  }

  lemma StepTotals(s: State, log: Log, ttl: int, e: Event)
    requires Enabled(s, ttl, e) && Totals(s, log) && AllHonest(s, log, ttl)
    ensures Totals(After(s, ttl, e), Note(log, s, e))
  {
    hide IsFresh, Ending, AllHonest, FoundYoung;
    if e.Go? && s.callers[e.i].Collecting? {
      CallerIsHonest(s, log, ttl, e.i);
      OneMoreRun(log, e.i, e.collected, Error);
      OneMoreRun(log, e.i, e.collected, Timeout);
    } else {
      SameRuns(log, Note(log, s, e), Error);
      SameRuns(log, Note(log, s, e), Timeout);
    }
  }

  lemma OneMoreRun(log: Log, i: nat, collected: Collected, how: Collected)
    requires i !in log.runs
    ensures |Ending(log.(runs := log.runs[i := collected]), how)|
      == |Ending(log, how)| + if collected == how then 1 else 0
  {
    var next := log.(runs := log.runs[i := collected]);
    if collected == how {
      assert Ending(next, how) == Ending(log, how) + {i};
    } else {
      assert Ending(next, how) == Ending(log, how);
    }
  }

  lemma SameRuns(a: Log, b: Log, how: Collected)
    requires a.runs == b.runs
    ensures Ending(a, how) == Ending(b, how)
  {
  }

  lemma {:induction false} RunInv(s: State, log: Log, ttl: int, events: seq<Event>)
    requires Inv(s, log, ttl) && CanRun(s, ttl, events)
    ensures Inv(End(s, ttl, events), LogOf(log, s, ttl, events), ttl)
    decreases events
  {
    hide Exclusive, StoresAreRuns, AllInOrder, CacheIsStored, AllHonest, Totals, After, Note;
    if events != [] {
      var e := events[0];
      StepExclusive(s, ttl, e);
      StepStores(s, log, ttl, e);
      StepInOrder(s, log, ttl, e);
      StepCache(s, log, ttl, e);
      StepHonest(s, log, ttl, e);
      StepTotals(s, log, ttl, e);
      RunInv(After(s, ttl, e), Note(log, s, e), ttl, events[1..]);
    }
  }

  lemma Reached(n: nat, now: nat, ttl: int, events: seq<Event>)
    requires CanRun(Init(n, now), ttl, events)
    ensures Inv(End(Init(n, now), ttl, events), LogOf(NOTHING, Init(n, now), ttl, events), ttl)
  {
    hide CanRun, End, LogOf;
    assert Ending(NOTHING, Error) == {} && Ending(NOTHING, Timeout) == {};
    RunInv(Init(n, now), NOTHING, ttl, events);
  }

  /**
   * No torn or invented topology, whatever the interleaving of any number of calls. A call answered from the cache
   * returns both lists of one single successful run: that of the last store made before it looked, which at that
   * moment was younger than the TTL. Any other call returns what its own run of ibnetdiscover ended with.
   */
  lemma NoTornTopology(n: nat, now: nat, ttl: int, events: seq<Event>, i: nat)
    requires CanRun(Init(n, now), ttl, events) && i < |End(Init(n, now), ttl, events).callers|
    ensures
      var s, log := End(Init(n, now), ttl, events), LogOf(NOTHING, Init(n, now), ttl, events);
      match s.callers[i]
      case Hit(sw, hc) => ttl > 0 && FoundYoung(log, ttl, i) && LastBefore(log, i, sw, hc) && InOrder(log, i)
      case Ran(collected) => i in log.runs && log.runs[i] == collected
      case _ => true
  {
    hide CanRun, End, LogOf, LastBefore, InOrder, Totals, CacheIsStored, StoresAreRuns, Exclusive;
    Reached(n, now, ttl, events);
    var s, log := End(Init(n, now), ttl, events), LogOf(NOTHING, Init(n, now), ttl, events);
    assert Honest(s, log, ttl, i, s.callers[i]);
  }

  /**
   * When the cache answers, read off the log alone: whatever the interleaving, a call that has returned was answered
   * from the cache if and only if the cache is on and, when it looked, some store had been made and the last one was
   * younger than the TTL. With the cache on every call looks.
   */
  lemma AnsweredIffYoung(n: nat, now: nat, ttl: int, events: seq<Event>, i: nat)
    requires CanRun(Init(n, now), ttl, events) && i < |End(Init(n, now), ttl, events).callers|
    requires Finished(End(Init(n, now), ttl, events).callers[i])
    ensures
      var s, log := End(Init(n, now), ttl, events), LogOf(NOTHING, Init(n, now), ttl, events);
      && (ttl > 0 ==> i in log.checks && log.checks[i].stores <= |log.stores| && InOrder(log, i))
      && (s.callers[i].Hit? <==>
            && ttl > 0 && log.checks[i].stores > 0
            && log.checks[i].at - log.stores[log.checks[i].stores - 1].at < ttl)
  {
    hide CanRun, End, LogOf, LastBefore, Totals, CacheIsStored, Exclusive;
    Reached(n, now, ttl, events);
    var s, log := End(Init(n, now), ttl, events), LogOf(NOTHING, Init(n, now), ttl, events);
    assert Honest(s, log, ttl, i, s.callers[i]);
  }

  /**
   * Outside the mutex the cache is exactly the last completed store: both lists that the storing call's own run
   * found, and the time of that store; before any store it is untouched. With a TTL of zero it stays so.
   */
  lemma CacheIsOneStore(n: nat, now: nat, ttl: int, events: seq<Event>)
    requires CanRun(Init(n, now), ttl, events)
    ensures
      var s, log := End(Init(n, now), ttl, events), LogOf(NOTHING, Init(n, now), ttl, events);
      s.mutex.None? ==>
        if log.stores == [] then s.cache == EMPTY
        else
          var last := log.stores[|log.stores| - 1];
          && ttl > 0 && last.at <= s.now
          && exists t :: Found(log, last.caller, t) && s.cache == Cache(Some(t.switches), Some(t.hcas), Some(last.at))
  {
    hide CanRun, End, LogOf, AllHonest, Totals, Exclusive;
    Reached(n, now, ttl, events);
    var s, log := End(Init(n, now), ttl, events), LogOf(NOTHING, Init(n, now), ttl, events);
    if s.mutex.None? && log.stores != [] {
      var owner := log.stores[|log.stores| - 1].caller;
      assert Found(log, owner, log.runs[owner].topology);
    }
  }

  /** At every moment, the totals count the calls whose run has failed, and those whose run has timed out. */
  lemma TotalsCountFailures(n: nat, now: nat, ttl: int, events: seq<Event>)
    requires CanRun(Init(n, now), ttl, events)
    ensures
      var s, log := End(Init(n, now), ttl, events), LogOf(NOTHING, Init(n, now), ttl, events);
      s.errors == |Ending(log, Error)| && s.timeouts == |Ending(log, Timeout)|
  {
    hide CanRun, End, LogOf, AllHonest, Exclusive, CacheIsStored, StoresAreRuns;
    Reached(n, now, ttl, events);
  }

  /** Only a call whose own run succeeded, holding the mutex, changes the cache; one whose run failed never does. */
  lemma OnlySuccessStores(n: nat, now: nat, ttl: int, events: seq<Event>, e: Event)
    requires CanRun(Init(n, now), ttl, events) && Enabled(End(Init(n, now), ttl, events), ttl, e)
    ensures
      var s, log := End(Init(n, now), ttl, events), LogOf(NOTHING, Init(n, now), ttl, events);
      After(s, ttl, e).cache != s.cache ==>
        && ttl > 0 && e.Go? && s.mutex == Some(e.i)
        && (s.callers[e.i].Storing? || s.callers[e.i].StoredSwitches? || s.callers[e.i].StoredHcas?)
        && Found(log, e.i, s.callers[e.i].topology)
  {
    hide CanRun, End, LogOf, Totals, IsFresh, FoundYoung, LastBefore, CacheIsStored, StoresAreRuns;
    Reached(n, now, ttl, events);
    var s, log := End(Init(n, now), ttl, events), LogOf(NOTHING, Init(n, now), ttl, events);
    if e.Go? {
      assert Honest(s, log, ttl, e.i, s.callers[e.i]);
    }
  }

  // ---------------------------------------------------------------- liveness

  function StepsLeft(c: Caller): nat {
    match c
    case Start => 11
    case Locked => 10
    case Checked(_) => 9
    case HasSwitches(_, _) => 8
    case Read(_, _, _) => 7
    case Collecting => 6
    case Ended(_) => 5
    case Storing(_) => 4
    case StoredSwitches(_) => 3
    case StoredHcas(_) => 2
    case Stored(_) => 1
    case _ => 0
  }

  lemma StepAdvances(s: State, ttl: int, i: nat, collected: Collected)
    requires Enabled(s, ttl, Go(i, collected))
    ensures
      var next := After(s, ttl, Go(i, collected));
      next.callers == s.callers[i := next.callers[i]] && StepsLeft(next.callers[i]) < StepsLeft(s.callers[i])
  {
    hide IsFresh;
  }

  function Steps(events: seq<Event>): nat {
    if events == [] then 0 else (if events[0].Go? then 1 else 0) + Steps(events[1..])
  }

  lemma {:induction false} RunAdvances(s: State, ttl: int, events: seq<Event>)
    requires CanRun(s, ttl, events)
    ensures Steps(events) <= FanOutProofs.Count(s.callers, StepsLeft)
    decreases events
  {
    hide After, StepsLeft, FanOutProofs.Count;
    if events != [] {
      var next := After(s, ttl, events[0]);
      RunAdvances(next, ttl, events[1..]);
      if events[0].Go? {
        StepAdvances(s, ttl, events[0].i, events[0].collected);
        FanOutProofs.CountUpdate(s.callers, events[0].i, next.callers[events[0].i], StepsLeft);
      } else {
        TickKeepsCallers(s, ttl);
      }
    }
  }

  lemma TickKeepsCallers(s: State, ttl: int)
    ensures After(s, ttl, Tick).callers == s.callers
  {
  }

  lemma {:induction false} AllStepsAtStart(n: nat)
    ensures FanOutProofs.Count(seq(n, _ => Start), StepsLeft) == 11 * n
  {
    if n > 0 {
      AllStepsAtStart(n - 1);
      assert seq(n, _ => Start)[..n - 1] == seq(n - 1, _ => Start);
    }
  }

  /**
   * No call is ever stuck behind another: every run takes at most 11 steps per call, and ends only when all have
   * returned.
   */
  lemma CallsReturn(n: nat, now: nat, ttl: int, events: seq<Event>)
    requires CanRun(Init(n, now), ttl, events)
    ensures Steps(events) <= 11 * n
    ensures
      var s := End(Init(n, now), ttl, events);
      (forall i: nat :: !Enabled(s, ttl, Go(i, Error))) ==> forall i | 0 <= i < |s.callers| :: Finished(s.callers[i])
  {
    hide CanRun, End, LogOf, FanOutProofs.Count, AllHonest, CacheIsStored, StoresAreRuns;
    AllStepsAtStart(n);
    RunAdvances(Init(n, now), ttl, events);
    Reached(n, now, ttl, events);
    var s := End(Init(n, now), ttl, events);
    assert s.mutex.Some? ==> Enabled(s, ttl, Go(s.mutex.value, Error));
    if forall i: nat :: !Enabled(s, ttl, Go(i, Error)) {
      forall i | 0 <= i < |s.callers| ensures Finished(s.callers[i]) {
        assert !Enabled(s, ttl, Go(i, Error));
      }
    }
  }

  // ---------------------------------------------------------------- a call that meets no other

  /** What the rest of a call will do if it runs alone from here. */
  function Rest(s: State, ttl: int, c: Caller, collected: Collected): (Cache, Return) {
    match c
    case Start => Call(s.cache, ttl, s.now, collected, s.now)
    case Locked => Call(s.cache, ttl, s.now, collected, s.now)
    case Checked(valid) => if valid then (s.cache, Pair(s.cache.switches, s.cache.hcas)) else Collect(s, ttl, collected)
    case HasSwitches(valid, sw) => if valid then (s.cache, Pair(sw, s.cache.hcas)) else Collect(s, ttl, collected)
    case Read(valid, sw, hc) => if valid then (s.cache, Pair(sw, hc)) else Collect(s, ttl, collected)
    case Collecting => Collect(s, ttl, collected)
    case Ended(result) => Collect(s, ttl, result)
    case Storing(t) => (Cache(Some(t.switches), Some(t.hcas), Some(s.now)), Pair(Some(t.switches), Some(t.hcas)))
    case StoredSwitches(t) => (Cache(s.cache.switches, Some(t.hcas), Some(s.now)), Pair(Some(t.switches), Some(t.hcas)))
    case StoredHcas(t) => (s.cache.(refresh := Some(s.now)), Pair(Some(t.switches), Some(t.hcas)))
    case Stored(t) => (s.cache, Pair(Some(t.switches), Some(t.hcas)))
    case Hit(sw, hc) => (s.cache, Pair(sw, hc))
    case Ran(result) => (s.cache, match result case Success(t) => Pair(Some(t.switches), Some(t.hcas)) case _ => Failed)
  }

  /** The part of a call after a cache miss. */
  function Collect(s: State, ttl: int, collected: Collected): (Cache, Return) {
    match collected
    case Success(t) =>
      (if ttl > 0 then Cache(Some(t.switches), Some(t.hcas), Some(s.now)) else s.cache,
        Pair(Some(t.switches), Some(t.hcas)))
    case _ => (s.cache, Failed)
  }

  lemma SoloStep(s: State, ttl: int, i: nat, collected: Collected)
    requires i < |s.callers| && !Finished(s.callers[i])
    requires s.mutex == if Holds(s.callers[i]) then Some(i) else None
    requires s.callers[i].Locked? ==> ttl > 0
    ensures Enabled(s, ttl, Go(i, collected))
    ensures
      var next := After(s, ttl, Go(i, collected));
      && |next.callers| == |s.callers| && next.mutex == (if Holds(next.callers[i]) then Some(i) else None)
      && (next.callers[i].Locked? ==> ttl > 0)
      && Rest(next, ttl, next.callers[i], collected) == Rest(s, ttl, s.callers[i], collected)
  {
  }

  /** A call whose steps no other call and no tick interleaves with is the plain sequential call. */
  lemma {:induction false} SoloCallIsCall(s: State, ttl: int, i: nat, collected: Collected) returns (events: seq<Event>)
    requires i < |s.callers| && s.mutex == (if Holds(s.callers[i]) then Some(i) else None)
    requires s.callers[i].Locked? ==> ttl > 0
    ensures CanRun(s, ttl, events)
    ensures
      var last := End(s, ttl, events);
      && i < |last.callers| && Finished(last.callers[i])
      && Rest(last, ttl, last.callers[i], collected) == Rest(s, ttl, s.callers[i], collected)
    decreases StepsLeft(s.callers[i])
  {
    hide Rest, After, Enabled, StepsLeft;
    if Finished(s.callers[i]) {
      events := [];
    } else {
      SoloStep(s, ttl, i, collected);
      StepAdvances(s, ttl, i, collected);
      var more := SoloCallIsCall(After(s, ttl, Go(i, collected)), ttl, i, collected);
      events := [Go(i, collected)] + more;
    }
  }
}
