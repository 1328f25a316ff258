/** One scrape of the ibswinfo collector: the switches' turns, run by concurrent goroutines. */
module IbswinfoCollect {
  import opened Wrappers
  import opened Ibswinfo
  import opened StaticCache
  import FO = FanOut
  import FP = FanOutProofs
  import FL = FanOutLoads
  import Text
  import FullReport
  import Vitals

  type TurnProgram = FO.Program<Report, CacheEntry>

  /** What a turn stores in the cache. */
  function Stored(turn: Event, ttl: int): Option<CacheEntry>
    requires turn.Scraped?
  {
    if ttl > 0 && !turn.vitals && turn.outcome.report.Some?
    then Some(EntryOf(turn.outcome.report.value, turn.storedAt))
    else None
  }

  /** The goroutine body, as its effects on the shared state: totals, cache, reports. */
  function ProgramOf(turn: Event, ttl: int): TurnProgram
    requires turn.Scraped?
  {
    [FO.Add(turn.outcome.errors, turn.outcome.timeouts, 0)]
    + StoreEffects(turn, ttl) + ReportEffects(turn)
  }

  /**
   * One goroutine's surroundings: its switch, what the tool would answer in either mode, the two clock readings, and
   * the order in which ranging over a table of supplies happens to list them.
   */
  datatype Visit = Visit(guid: string, decidedAt: int, storedAt: int, exec: bool -> ExecResult,
                         listing: PsuTable -> seq<PowerSupply>)

  ghost predicate ValidVisit(v: Visit) {
    forall psus :: Enumerates(v.listing(psus), psus)
  }

  function OutcomeOf(v: Visit, cached: Option<CacheEntry>, result: ExecResult): Outcome {
    match result
    case Timeout => Outcome(None, 0, 1)
    case Failed => Outcome(None, 1, 0)
    case Output(text) =>
      match cached
      case Some(entry) =>
        var st := Vitals.VitalsScan(text);
        Outcome(Some(Merge(st.data.(powerSupplies := v.listing(st.psus)), entry)), 0, 0)
      case None =>
        match FullReport.FullScan(text)
        case Err => Outcome(None, 1, 0)
        case Ok(st) => Outcome(Some(st.data.(powerSupplies := v.listing(st.psus))), 0, 0)
  }

  /** The turn a goroutine takes when looking up its switch in the cache gives this. */
  function TurnOf(v: Visit, ttl: int, found: Option<CacheEntry>): (turn: Event)
    ensures turn.Scraped? && turn.guid == v.guid
  {
    var vitals := ttl > 0 && found.Some? && v.decidedAt - found.value.lastRefresh < ttl;
    var result := v.exec(vitals);
    Scraped(v.guid, vitals, v.decidedAt, v.storedAt, result, OutcomeOf(v, if vitals then found else None, result))
  }

  /** Such a turn is a step of the cache, from any cache in which the lookup gives this. */
  lemma TurnIsAStep(v: Visit, ttl: int, cache: Entries)
    requires ValidVisit(v)
    ensures
      var turn := TurnOf(v, ttl, FP.Lookup(cache, v.guid));
      Next(cache, turn, if Stored(turn, ttl).Some? then cache[v.guid := Stored(turn, ttl).value] else cache, ttl)
  {
    hide FullReport.FullScan, Vitals.VitalsScan, Merge, EntryOf, Enumerates;
    var turn := TurnOf(v, ttl, FP.Lookup(cache, v.guid));
    if turn.result.Output? && turn.vitals {
      var st := Vitals.VitalsScan(turn.result.text);
      assert Vitals.ReportOf(st.data.(powerSupplies := v.listing(st.psus)), st);
    }
  }

  /** The goroutines of one scrape: each looks its switch up, and acts on what it finds. */
  function Jobs(visits: seq<Visit>, ttl: int): seq<FL.Job<Report, CacheEntry>> {
    seq(|visits|, i requires 0 <= i < |visits| =>
      FL.Job(visits[i].guid, found => ProgramOf(TurnOf(visits[i], ttl, found), ttl)))
  }

  /** Distinct switches, as the map-keyed topology parser gives them. */
  ghost predicate ValidVisits(visits: seq<Visit>) {
    && (forall i | 0 <= i < |visits| :: ValidVisit(visits[i]))
    && (forall i, j | 0 <= i < j < |visits| :: visits[i].guid != visits[j].guid)
  }

  /** The turns taken when each lookup sees the cache as the scrape found it. */
  function TurnsFrom(visits: seq<Visit>, ttl: int, cache: Entries): (turns: seq<Event>)
    ensures |turns| == |visits| && forall i | 0 <= i < |turns| :: turns[i].Scraped? && turns[i].guid == visits[i].guid
  {
    seq(|visits|, i requires 0 <= i < |visits| => TurnOf(visits[i], ttl, FP.Lookup(cache, visits[i].guid)))
  }

  function Programs(turns: seq<Event>, ttl: int): seq<TurnProgram>
    requires forall i | 0 <= i < |turns| :: turns[i].Scraped?
  {
    seq(|turns|, i requires 0 <= i < |turns| => ProgramOf(turns[i], ttl))
  }

  function Guids(turns: seq<Event>): seq<string>
    requires forall i | 0 <= i < |turns| :: turns[i].Scraped?
  {
    seq(|turns|, i requires 0 <= i < |turns| => turns[i].guid)
  }

  /** The cache after the first turns, taken one by one. */
  function CacheAfter(turns: seq<Event>, before: Entries, ttl: int): Entries
    requires forall i | 0 <= i < |turns| :: turns[i].Scraped?
  {
    if turns == [] then before
    else
      var last := turns[|turns| - 1];
      var cache := CacheAfter(turns[..|turns| - 1], before, ttl);
      match Stored(last, ttl)
      case Some(entry) => cache[last.guid := entry]
      case None => cache
  }

  lemma {:induction false} CacheAfterAt(turns: seq<Event>, before: Entries, ttl: int, guid: string)
    requires forall i | 0 <= i < |turns| :: turns[i].Scraped?
    requires forall i, j | 0 <= i < j < |turns| :: turns[i].guid != turns[j].guid
    ensures forall i | 0 <= i < |turns| && turns[i].guid == guid ::
      FP.Lookup(CacheAfter(turns, before, ttl), guid) ==
        if Stored(turns[i], ttl).Some? then Stored(turns[i], ttl) else FP.Lookup(before, guid)
    ensures (forall i | 0 <= i < |turns| :: turns[i].guid != guid) ==>
      FP.Lookup(CacheAfter(turns, before, ttl), guid) == FP.Lookup(before, guid)
  {
    hide Stored;
    if turns != [] {
      CacheAfterAt(turns[..|turns| - 1], before, ttl, guid);
    }
  }

  lemma {:induction false} LastPutAppend(a: TurnProgram, b: TurnProgram, before: Option<CacheEntry>)
    ensures FP.LastPut(a + b, before) == FP.LastPut(b, FP.LastPut(a, before))
    decreases |b|
  {
    if b == [] {
      assert a + b == a;
    } else {
      assert (a + b)[..|a + b| - 1] == a + b[..|b| - 1];
      LastPutAppend(a, b[..|b| - 1], before);
    }
  }

  function StoreEffects(turn: Event, ttl: int): TurnProgram
    requires turn.Scraped?
  {
    match Stored(turn, ttl) case Some(entry) => [FO.Put(turn.guid, entry)] case None => []
  }

  function ReportEffects(turn: Event): TurnProgram
    requires turn.Scraped?
  {
    match turn.outcome.report case Some(r) => [FO.Append([r])] case None => []
  }

  lemma ProgramPuts(turn: Event, ttl: int, before: Option<CacheEntry>)
    requires turn.Scraped?
    ensures FP.LastPut(ProgramOf(turn, ttl), before) == if Stored(turn, ttl).Some? then Stored(turn, ttl) else before
    ensures forall k | 0 <= k < |ProgramOf(turn, ttl)| && ProgramOf(turn, ttl)[k].Put? ::
      ProgramOf(turn, ttl)[k].key == turn.guid
  {
    hide Stored;
    var a: TurnProgram := [FO.Add(turn.outcome.errors, turn.outcome.timeouts, 0)];
    LastPutAppend(a + StoreEffects(turn, ttl), ReportEffects(turn), before);
    LastPutAppend(a, StoreEffects(turn, ttl), before);
    assert FP.LastPut(a, before) == before;
  }

  lemma JobsOwnPlans(visits: seq<Visit>, ttl: int)
    requires ValidVisits(visits)
    ensures FL.OwnPlans(Jobs(visits, ttl))
  {
    hide ProgramOf, TurnOf, ValidVisit;
    forall i, found, k | 0 <= i < |visits| && 0 <= k < |ProgramOf(TurnOf(visits[i], ttl, found), ttl)|
      && ProgramOf(TurnOf(visits[i], ttl, found), ttl)[k].Put?
      ensures ProgramOf(TurnOf(visits[i], ttl, found), ttl)[k].key == visits[i].guid
    {
      ProgramPuts(TurnOf(visits[i], ttl, found), ttl, None);
    }
  }

  /** A finished run of the goroutines, for some interleaving of their lookups and effects. */
  ghost predicate Finished(visits: seq<Visit>, ttl: int, limit: int, before: FO.Shared<Report, CacheEntry>,
    steps: seq<FL.Step>, after: FO.Shared<Report, CacheEntry>)
  {
    && FL.IsRun(Jobs(visits, ttl), limit, FL.Begin(|visits|, before), steps)
    && var s := FL.Last(Jobs(visits, ttl), limit, FL.Begin(|visits|, before), steps).base;
       s.main.Returned? && s.shared == after
  }

  lemma SequentialTurns(visits: seq<Visit>, ttl: int, limit: int, before: FO.Shared<Report, CacheEntry>,
    steps: seq<FL.Step>, after: FO.Shared<Report, CacheEntry>)
    requires ValidVisits(visits) && Finished(visits, ttl, limit, before, steps, after)
    ensures
      var progs := Programs(TurnsFrom(visits, ttl, before.table), ttl);
      FO.SameShared(after, FO.Sequential(progs, before))
      && FO.OwnKeys(progs, Guids(TurnsFrom(visits, ttl, before.table)))
  {
    hide FL.IsRun, FL.Last, FO.Sequential, FO.SameShared, FO.OwnKeys, ProgramOf, TurnOf, FP.Lookup, ValidVisits;
    JobsOwnPlans(visits, ttl);
    FL.LoadingFanOutIsSequential(Jobs(visits, ttl), limit, before, steps);
    var turns := TurnsFrom(visits, ttl, before.table);
    assert Programs(turns, ttl) == FL.FromStart(Jobs(visits, ttl), before.table);
    assert Guids(turns) == FL.KeysOf(Jobs(visits, ttl));
  }

  /**
   * For every interleaving of the lookups and the stores, the cache ends up as if the switches had taken their turns
   * one by one, each turn decided by the entry its switch had when the scrape began.
   */
  lemma CacheOfScrape(visits: seq<Visit>, ttl: int, limit: int, before: FO.Shared<Report, CacheEntry>,
    steps: seq<FL.Step>, after: FO.Shared<Report, CacheEntry>)
    requires ValidVisits(visits) && Finished(visits, ttl, limit, before, steps, after)
    ensures after.table == CacheAfter(TurnsFrom(visits, ttl, before.table), before.table, ttl)
  {
    hide FO.Sequential, FO.OwnKeys, ProgramOf, FP.Plus, FP.Sum, FP.TallyOf, FP.ProgramTally, FP.LastPut, CacheAfter,
      Stored, Next, TurnOf, Finished;
    var turns := TurnsFrom(visits, ttl, before.table);
    var progs, guids := Programs(turns, ttl), Guids(turns);
    SequentialTurns(visits, ttl, limit, before, steps, after);
    FP.SequentialContent(progs, guids, before);
    var table := CacheAfter(turns, before.table, ttl);
    forall g ensures FP.Lookup(after.table, g) == FP.Lookup(table, g) {
      CacheAfterAt(turns, before.table, ttl, g);
      if i :| 0 <= i < |turns| && turns[i].guid == g {
        ProgramPuts(turns[i], ttl, FP.Lookup(before.table, g));
        assert guids[i] == g && progs[i] == ProgramOf(turns[i], ttl);
      } else {
        assert g !in guids;
      }
    }
    FP.SameTable(after.table, table);
  }

  /**
   * A concurrent scrape, followed by the eviction, continues any run of turns: there are states from the cache before
   * to the cache after, one turn each. So whatever holds over all runs of turns holds over all runs of scrapes.
   */
  lemma ConcurrentScrapeIsARun(earlier: seq<Entries>, past: seq<Event>, visits: seq<Visit>, ttl: int, limit: int,
    before: FO.Shared<Report, CacheEntry>, steps: seq<FL.Step>, after: FO.Shared<Report, CacheEntry>)
    returns (states: seq<Entries>, events: seq<Event>)
    requires IsRun(earlier, past, ttl) && earlier[|past|] == before.table
    requires ValidVisits(visits) && Finished(visits, ttl, limit, before, steps, after)
    ensures events == past + TurnsFrom(visits, ttl, before.table) + [EndOfScrape(VisitedGuids(visits))]
    ensures IsRun(states, events, ttl) && states[..|past| + 1] == earlier
    ensures states[|past| + |visits|] == after.table
    ensures Next(after.table, EndOfScrape(VisitedGuids(visits)), states[|events|], ttl)
  {
    hide FL.IsRun, FL.Last, Stored, Next, FP.Lookup, TurnOf, CacheAfter;
    var turns := TurnsFrom(visits, ttl, before.table);
    var last := EndOfScrape(VisitedGuids(visits));
    var inner := seq(|turns| + 1, k requires 0 <= k <= |turns| => CacheAfter(turns[..k], before.table, ttl));
    var kept := Evicted(after.table, VisitedGuids(visits), ttl);
    events := past + turns + [last];
    states := earlier + inner[1..] + [kept];
    CacheOfScrape(visits, ttl, limit, before, steps, after);
    assert turns[..0] == [] && turns[..|turns|] == turns;
    NoTurns(before.table, ttl);
    forall k | 0 <= k < |turns| ensures Next(inner[k], turns[k], inner[k + 1], ttl) {
      NextTurn(visits, ttl, before.table, k);
    }
    forall k | 0 <= k < |events| ensures Next(states[k], events[k], states[k + 1], ttl) {
      if k < |past| {
        assert Next(earlier[k], past[k], earlier[k + 1], ttl);
      } else if k < |past| + |turns| {
        assert states[k] == inner[k - |past|] && states[k + 1] == inner[k - |past| + 1];
      } else {
        assert states[k] == inner[|turns|] == after.table;
        EvictedIsNext(after.table, VisitedGuids(visits), ttl);
      }
    }
  }

  function VisitedGuids(visits: seq<Visit>): seq<string> {
    seq(|visits|, i requires 0 <= i < |visits| => visits[i].guid)
  }

  function Evicted(cache: Entries, guids: seq<string>, ttl: int): Entries {
    if ttl > 0 then map g | g in cache && g in guids :: cache[g] else cache
  }

  lemma EvictedIsNext(cache: Entries, guids: seq<string>, ttl: int)
    ensures Next(cache, EndOfScrape(guids), Evicted(cache, guids, ttl), ttl)
  {
  }

  lemma NoTurns(before: Entries, ttl: int)
    ensures CacheAfter([], before, ttl) == before
  {
  }

  lemma NextTurn(visits: seq<Visit>, ttl: int, before: Entries, k: nat)
    requires ValidVisits(visits) && k < |visits|
    ensures
      var turns := TurnsFrom(visits, ttl, before);
      Next(CacheAfter(turns[..k], before, ttl), turns[k], CacheAfter(turns[..k + 1], before, ttl), ttl)
  {
    hide Stored, Next, FP.Lookup, TurnOf, ValidVisit;
    var turns := TurnsFrom(visits, ttl, before);
    assert turns[..k + 1][..k] == turns[..k];
    CacheAfterAt(turns[..k], before, ttl, turns[k].guid);
    TurnIsAStep(visits[k], ttl, CacheAfter(turns[..k], before, ttl));
  }

  // ---------------------------------------------------------------- reports and totals

  function TurnTally(turn: Event): FP.Tally<Report>
    requires turn.Scraped?
  {
    FP.Tally(if turn.outcome.report.Some? then multiset{turn.outcome.report.value} else multiset{},
      turn.outcome.errors, turn.outcome.timeouts, 0)
  }

  lemma ProgramTallyOf(turn: Event, ttl: int)
    requires turn.Scraped?
    ensures FP.ProgramTally(ProgramOf(turn, ttl)) == TurnTally(turn)
  {
    hide FP.ProgramTally, Stored;
    var a: TurnProgram := [FO.Add(turn.outcome.errors, turn.outcome.timeouts, 0)];
    FP.TallyAppend(a + StoreEffects(turn, ttl), ReportEffects(turn));
    FP.TallyAppend(a, StoreEffects(turn, ttl));
    FP.TallyOne<Report, CacheEntry>(a[0]);
    FP.TallyNone<Report, CacheEntry>();
    if Stored(turn, ttl).Some? {
      FP.TallyOne<Report, CacheEntry>(StoreEffects(turn, ttl)[0]);
    }
    if turn.outcome.report.Some? {
      FP.TallyOne<Report, CacheEntry>(ReportEffects(turn)[0]);
    }
  }

  function TurnTallies(turns: seq<Event>): seq<FP.Tally<Report>>
    requires forall i | 0 <= i < |turns| :: turns[i].Scraped?
  {
    seq(|turns|, i requires 0 <= i < |turns| => TurnTally(turns[i]))
  }

  /** For every interleaving, a scrape adds one report per switch that has one, and counts each failure once. */
  lemma ScrapeCountsTurns(visits: seq<Visit>, ttl: int, limit: int, before: FO.Shared<Report, CacheEntry>,
    steps: seq<FL.Step>, after: FO.Shared<Report, CacheEntry>)
    requires ValidVisits(visits) && Finished(visits, ttl, limit, before, steps, after)
    ensures FP.TallyOf(after) == FP.Plus(FP.TallyOf(before), FP.Sum(TurnTallies(TurnsFrom(visits, ttl, before.table))))
  {
    hide FO.Sequential, FO.OwnKeys, ProgramOf, FP.Plus, FP.Sum, FP.ProgramTally, FP.LastPut, Next, TurnTally, TurnOf,
      Finished;
    var turns := TurnsFrom(visits, ttl, before.table);
    var progs, guids := Programs(turns, ttl), Guids(turns);
    SequentialTurns(visits, ttl, limit, before, steps, after);
    FP.SequentialContent(progs, guids, before);
    forall i | 0 <= i < |turns| ensures FP.ProgramTally(ProgramOf(turns[i], ttl)) == TurnTally(turns[i]) {
      ProgramTallyOf(turns[i], ttl);
    }
    assert FP.ProgramTallies(progs) == TurnTallies(turns);
  }

  // ---------------------------------------------------------------- the executions of a scrape, counted

  /** The execution succeeded in the full mode, and its text cannot be parsed. */
  ghost predicate Unreadable(turn: Event)
    requires turn.Scraped?
  {
    turn.result.Output? && !turn.vitals && FullReport.HasFatal(FullReport.Items(Text.Split(turn.result.text, '\n')))
  }

  ghost function FailedTurns(turns: seq<Event>): nat
    requires forall i | 0 <= i < |turns| :: turns[i].Scraped?
  {
    if turns == [] then 0
    else
      var last := turns[|turns| - 1];
      FailedTurns(turns[..|turns| - 1]) + if last.result.Failed? || Unreadable(last) then 1 else 0
  }

  function TimedOutTurns(turns: seq<Event>): nat
    requires forall i | 0 <= i < |turns| :: turns[i].Scraped?
  {
    if turns == [] then 0
    else TimedOutTurns(turns[..|turns| - 1]) + if turns[|turns| - 1].result.Timeout? then 1 else 0
  }

  ghost function ReportingTurns(turns: seq<Event>): nat
    requires forall i | 0 <= i < |turns| :: turns[i].Scraped?
  {
    if turns == [] then 0
    else
      var last := turns[|turns| - 1];
      ReportingTurns(turns[..|turns| - 1]) + if last.result.Output? && !Unreadable(last) then 1 else 0
  }

  lemma OutcomeIsCounted(v: Visit, ttl: int, cache: Entries)
    requires ValidVisit(v)
    ensures
      var turn := TurnOf(v, ttl, FP.Lookup(cache, v.guid));
      && TurnTally(turn).timeouts == (if turn.result.Timeout? then 1 else 0)
      && TurnTally(turn).errors == (if turn.result.Failed? || Unreadable(turn) then 1 else 0)
      && |TurnTally(turn).rows| == (if turn.result.Output? && !Unreadable(turn) then 1 else 0)
  {
    hide Next, TurnOf, FP.Lookup, FullReport.HasFatal, FullReport.Items, Text.Split, Stored, ValidVisit;
    var turn := TurnOf(v, ttl, FP.Lookup(cache, v.guid));
    TurnIsAStep(v, ttl, cache);
    var after := if Stored(turn, ttl).Some? then cache[v.guid := Stored(turn, ttl).value] else cache;
    TurnIsCounted(cache, turn, after, ttl);
  }

  lemma {:induction false} TurnsCounted(visits: seq<Visit>, ttl: int, cache: Entries)
    requires forall i | 0 <= i < |visits| :: ValidVisit(visits[i])
    ensures
      var turns := TurnsFrom(visits, ttl, cache);
      var sum := FP.Sum(TurnTallies(turns));
      && sum.errors == FailedTurns(turns) && sum.timeouts == TimedOutTurns(turns)
      && |sum.rows| == ReportingTurns(turns)
  {
    hide TurnOf, FP.Lookup, Unreadable, TurnTally, ValidVisit;
    if visits != [] {
      var n := |visits| - 1;
      TurnsCounted(visits[..n], ttl, cache);
      OutcomeIsCounted(visits[n], ttl, cache);
      var turns := TurnsFrom(visits, ttl, cache);
      assert turns[..n] == TurnsFrom(visits[..n], ttl, cache);
      assert TurnTallies(turns)[..n] == TurnTallies(turns[..n]);
    }
  }

  /**
   * For every interleaving, over the executions of a scrape: the error total rises by one for each that failed and each
   * full text with a fatal row, the timeout total by one for each that timed out, and there is one report for each of
   * the others.
   */
  lemma ScrapeCountsExecutions(visits: seq<Visit>, ttl: int, limit: int, before: FO.Shared<Report, CacheEntry>,
    steps: seq<FL.Step>, after: FO.Shared<Report, CacheEntry>)
    requires ValidVisits(visits) && Finished(visits, ttl, limit, before, steps, after)
    ensures
      var turns := TurnsFrom(visits, ttl, before.table);
      && after.errors == before.errors + FailedTurns(turns) && after.timeouts == before.timeouts + TimedOutTurns(turns)
      && |after.rows| == |before.rows| + ReportingTurns(turns)
  {
    hide Finished, FP.Sum, TurnTallies, TurnsFrom, FailedTurns, TimedOutTurns, ReportingTurns;
    ScrapeCountsTurns(visits, ttl, limit, before, steps, after);
    TurnsCounted(visits, ttl, before.table);
    assert |multiset(after.rows)| == |after.rows| && |multiset(before.rows)| == |before.rows|;
  }
}
