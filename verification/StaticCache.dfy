/** The cache of static and status fields, and the two ways of scraping one switch. */
module StaticCache {
  import opened Wrappers
  import opened Ibswinfo
  import Text
  import FullReport
  import Vitals

  datatype PsuStatus = PsuStatus(id: string, status: string, dcPower: string, fanStatus: string)

  datatype CacheEntry = CacheEntry(
    partNumber: string, serialNumber: string, psid: string, firmwareVersion: string,
    psuStatuses: seq<PsuStatus>, fanStatus: string, lastRefresh: int)

  function StatusOf(p: PowerSupply): PsuStatus {
    PsuStatus(p.id, p.status, p.dcPower, p.fanStatus)
  }

  function EntryOf(r: Report, now: int): CacheEntry {
    CacheEntry(r.partNumber, r.serialNumber, r.psid, r.firmwareVersion,
      seq(|r.powerSupplies|, i requires 0 <= i < |r.powerSupplies| => StatusOf(r.powerSupplies[i])), r.fanStatus, now)
  }

  /** The static and status part of a report. */
  predicate Projects(entry: CacheEntry, r: Report) {
    && entry.partNumber == r.partNumber && entry.serialNumber == r.serialNumber && entry.psid == r.psid
    && entry.firmwareVersion == r.firmwareVersion && entry.fanStatus == r.fanStatus
    && |entry.psuStatuses| == |r.powerSupplies|
    && forall i | 0 <= i < |r.powerSupplies| ::
      var p := r.powerSupplies[i];
      entry.psuStatuses[i] == PsuStatus(p.id, p.status, p.dcPower, p.fanStatus)
  }

  lemma EntryProjects(r: Report, now: int)
    ensures Projects(EntryOf(r, now), r) && EntryOf(r, now).lastRefresh == now
  {
  }

  /** An entry is the projection of its report and the time of its store, and nothing else. */
  lemma ProjectionIsEntry(entry: CacheEntry, r: Report, now: int)
    requires Projects(entry, r) && entry.lastRefresh == now
    ensures entry == EntryOf(r, now)
  {
    assert entry.psuStatuses == EntryOf(r, now).psuStatuses;
  }

  /** The last status listed under an id wins. */
  function StatusById(statuses: seq<PsuStatus>): map<string, PsuStatus> {
    if statuses == [] then map[]
    else
      var last := statuses[|statuses| - 1];
      StatusById(statuses[..|statuses| - 1])[last.id := last]
  }

  function WithStatus(p: PowerSupply, known: map<string, PsuStatus>): PowerSupply {
    if p.id in known then
      var c := known[p.id];
      p.(status := c.status, dcPower := c.dcPower, fanStatus := c.fanStatus)
    else p
  }

  /** The vitals report with the cached fields put back, power supplies matched by id. */
  function Merge(r: Report, cached: CacheEntry): Report {
    var known := StatusById(cached.psuStatuses);
    r.(partNumber := cached.partNumber, serialNumber := cached.serialNumber, psid := cached.psid,
       firmwareVersion := cached.firmwareVersion, fanStatus := cached.fanStatus,
       powerSupplies := seq(|r.powerSupplies|,
         i requires 0 <= i < |r.powerSupplies| => WithStatus(r.powerSupplies[i], known)))
  }

  /** How an execution of the tool ends. */
  datatype ExecResult = Output(text: string) | Timeout | Failed

  datatype Outcome = Outcome(report: Option<Report>, errors: nat, timeouts: nat)

  type Entries = map<string, CacheEntry>

  /** A fresh entry exists, so the lighter mode is enough. */
  predicate Fresh(entries: Entries, guid: string, ttl: int, now: int) {
    ttl > 0 && guid in entries && now - entries[guid].lastRefresh < ttl
  }

  /** What one device's turn does to the cache and reports. */
  ghost predicate DeviceStep(before: Entries, after: Entries, guid: string, ttl: int, decidedAt: int, storedAt: int,
    result: ExecResult, outcome: Outcome)
  {
    match result
    case Timeout => after == before && outcome == Outcome(None, 0, 1)
    case Failed => after == before && outcome == Outcome(None, 1, 0)
    case Output(text) =>
      if Fresh(before, guid, ttl, decidedAt) then
        && after == before
        && (exists r ::
          Vitals.ReportOf(r, Vitals.VitalsScan(text)) && outcome == Outcome(Some(Merge(r, before[guid])), 0, 0))
      else if FullReport.FullScan(text).Err? then after == before && outcome == Outcome(None, 1, 0)
      else
        && outcome.report.Some? && outcome.errors == 0 && outcome.timeouts == 0
        && FullReport.ReportOf(outcome.report.value, FullReport.FullScan(text).value)
        && after == if ttl > 0 then before[guid := EntryOf(outcome.report.value, storedAt)] else before
  }

  class Cache {
    var entries: Entries

    constructor ()
      ensures entries == map[]
    {
      entries := map[];
    }

    method UseVitalsForGUID(guid: string, ttl: int, now: int) returns (cached: Option<CacheEntry>, ok: bool)
      ensures ok <==> Fresh(entries, guid, ttl, now)
      ensures ok ==> cached == Some(entries[guid])
    {
      if ttl <= 0 {
        return None, false;
      }
      if guid !in entries {
        return None, false;
      }
      var entry := entries[guid];
      if now - entry.lastRefresh >= ttl {
        return Some(entry), false;
      }
      return Some(entry), true;
    }

    /** One goroutine body; `exec(vitals)` stands for running the tool in either mode. */
    method ScrapeDevice(guid: string, ttl: int, decidedAt: int, storedAt: int, exec: bool -> ExecResult)
      returns (outcome: Outcome)
      modifies this
      ensures DeviceStep(old(entries), entries, guid, ttl, decidedAt, storedAt,
                exec(Fresh(old(entries), guid, ttl, decidedAt)), outcome)
    {
      var cached, useVitals := UseVitalsForGUID(guid, ttl, decidedAt);
      var result := exec(useVitals);
      if result.Timeout? {
        return Outcome(None, 0, 1);
      } else if result.Failed? {
        return Outcome(None, 1, 0);
      }
      if useVitals {
        var data := Vitals.ParseVitals(result.text);
        var merged := Reattach(data, cached.value);
        return Outcome(Some(merged), 0, 0);
      }
      var parsed := FullReport.ParseIbswinfo(result.text);
      if parsed.Err? {
        return Outcome(None, 1, 0);
      }
      if ttl > 0 {
        var entry := MakeEntry(parsed.value, storedAt);
        entries := entries[guid := entry];
      }
      return Outcome(Some(parsed.value), 0, 0);
    }

    /** The end of a scrape: entries of switches no longer in the fabric go. */
    method Evict(ttl: int, guids: seq<string>)
      modifies this
      ensures entries == if ttl > 0 then map g | g in old(entries) && g in guids :: old(entries)[g] else old(entries)
    {
      if ttl > 0 {
        var seen: set<string> := {};
        for i := 0 to |guids|
          invariant seen == set g | g in guids[..i]
        {
          seen := seen + {guids[i]};
        }
        assert guids[..|guids|] == guids;
        var todo := entries.Keys;
        ghost var done: set<string> := {};
        while todo != {}
          invariant todo !! done && todo + done == old(entries).Keys
          invariant entries == map g | g in old(entries) && (g in todo || g in seen) :: old(entries)[g]
        {
          var k :| k in todo;
          todo := todo - {k};
          done := done + {k};
          if k !in seen {
            entries := entries - {k};
          }
        }
      }
    }
  }

  method MakeEntry(r: Report, now: int) returns (entry: CacheEntry)
    ensures entry == EntryOf(r, now) && Projects(entry, r) && entry.lastRefresh == now
  {
    var psuStatuses: seq<PsuStatus> := [];
    for i := 0 to |r.powerSupplies|
      invariant psuStatuses == EntryOf(r, now).psuStatuses[..i]
    {
      var p := r.powerSupplies[i];
      psuStatuses := psuStatuses + [PsuStatus(p.id, p.status, p.dcPower, p.fanStatus)];
    }
    entry := CacheEntry(r.partNumber, r.serialNumber, r.psid, r.firmwareVersion, psuStatuses, r.fanStatus, now);
  }

  method Reattach(r: Report, cached: CacheEntry) returns (merged: Report)
    ensures merged == Merge(r, cached)
  {
    var statusByID: map<string, PsuStatus> := map[];
    for i := 0 to |cached.psuStatuses|
      invariant statusByID == StatusById(cached.psuStatuses[..i])
    {
      assert cached.psuStatuses[..i + 1][..i] == cached.psuStatuses[..i];
      statusByID := statusByID[cached.psuStatuses[i].id := cached.psuStatuses[i]];
    }
    assert cached.psuStatuses[..|cached.psuStatuses|] == cached.psuStatuses;
    var supplies := r.powerSupplies;
    for i := 0 to |supplies|
      invariant |supplies| == |r.powerSupplies|
      invariant forall j | i <= j < |supplies| :: supplies[j] == r.powerSupplies[j]
      invariant forall j | 0 <= j < i :: supplies[j] == WithStatus(r.powerSupplies[j], statusByID)
    {
      var p := supplies[i];
      if p.id in statusByID {
        var cps := statusByID[p.id];
        supplies := supplies[i := p.(status := cps.status, dcPower := cps.dcPower, fanStatus := cps.fanStatus)];
      }
    }
    merged := r.(partNumber := cached.partNumber, serialNumber := cached.serialNumber, psid := cached.psid,
      firmwareVersion := cached.firmwareVersion, fanStatus := cached.fanStatus, powerSupplies := supplies);
  }

  // ---------------------------------------------------------------- runs of scrapes

  /** A device's turn, with the mode it ran in and how the execution ended; or the end of a scrape. */
  datatype Event =
    | Scraped(guid: string, vitals: bool, decidedAt: int, storedAt: int, result: ExecResult, outcome: Outcome)
    | EndOfScrape(guids: seq<string>)

  ghost predicate Next(before: Entries, event: Event, after: Entries, ttl: int) {
    match event
    case Scraped(guid, vitals, decidedAt, storedAt, result, outcome) =>
      vitals == Fresh(before, guid, ttl, decidedAt)
        && DeviceStep(before, after, guid, ttl, decidedAt, storedAt, result, outcome)
    case EndOfScrape(guids) =>
      after == if ttl > 0 then map g | g in before && g in guids :: before[g] else before
  }

  ghost predicate IsRun(states: seq<Entries>, events: seq<Event>, ttl: int) {
    && |states| == |events| + 1 && states[0] == map[]
    && forall k | 0 <= k < |events| :: Next(states[k], events[k], states[k + 1], ttl)
  }

  datatype FullParse = FullParse(text: string, at: int)

  /**
   * From the events alone: the last full report of this switch that parsed, unless a scrape ended without
   * the switch since.
   */
  function LastFullParse(events: seq<Event>, guid: string): Option<FullParse> {
    if events == [] then None
    else
      var n := |events| - 1;
      var earlier := LastFullParse(events[..n], guid);
      match events[n]
      case EndOfScrape(guids) => if guid in guids then earlier else None
      case Scraped(g, vitals, decidedAt, storedAt, result, outcome) =>
        if g == guid && !vitals && result.Output? && FullReport.FullScan(result.text).Ok?
        then Some(FullParse(result.text, storedAt))
        else earlier
  }

  /** The entry is the static and status part of that text's report, stamped with that time. */
  ghost predicate Reflects(entry: CacheEntry, parse: FullParse) {
    && FullReport.FullScan(parse.text).Ok?
    && entry.lastRefresh == parse.at
    && exists r :: FullReport.ReportOf(r, FullReport.FullScan(parse.text).value) && Projects(entry, r)
  }

  /**
   * In every run, the cache holds exactly the switches with a last full parse, each entry being the projection
   * of that parse: executions that fail, texts that do not parse and vitals scrapes change nothing.
   */
  lemma {:induction false} CacheIsCoherent(states: seq<Entries>, events: seq<Event>, ttl: int, guid: string)
    requires IsRun(states, events, ttl) && ttl > 0
    ensures
      var entries, last := states[|events|], LastFullParse(events, guid);
      && (guid in entries <==> last.Some?)
      && (guid in entries ==> Reflects(entries[guid], last.value))
    decreases |events|
  {
    hide FullReport.FullScan, Vitals.VitalsScan, Merge, EntryOf;
    if events != [] {
      var n := |events| - 1;
      assert IsRun(states[..n + 1], events[..n], ttl);
      CacheIsCoherent(states[..n + 1], events[..n], ttl, guid);
      assert Next(states[n], events[n], states[n + 1], ttl);
      if events[n].Scraped? && events[n].outcome.report.Some? {
        EntryProjects(events[n].outcome.report.value, events[n].storedAt);
      }
    }
  }

  /** With the cache disabled nothing is ever stored. */
  lemma {:induction false} DisabledCacheStaysEmpty(states: seq<Entries>, events: seq<Event>, ttl: int)
    requires IsRun(states, events, ttl) && ttl <= 0
    ensures states[|events|] == map[]
    decreases |events|
  {
    hide FullReport.FullScan, Vitals.VitalsScan, Merge, EntryOf;
    if events != [] {
      var n := |events| - 1;
      assert IsRun(states[..n + 1], events[..n], ttl);
      DisabledCacheStaysEmpty(states[..n + 1], events[..n], ttl);
      assert Next(states[n], events[n], states[n + 1], ttl);
    }
  }

  /**
   * Which mode a turn takes, read off the events alone: in every run, vitals exactly if the switch has a last full
   * parse and that was younger than the TTL when the mode was chosen; with the cache disabled, never.
   */
  lemma ModeIsDecided(states: seq<Entries>, events: seq<Event>, ttl: int, event: Event, after: Entries)
    requires IsRun(states, events, ttl) && event.Scraped? && Next(states[|events|], event, after, ttl)
    ensures event.vitals <==>
      ttl > 0 && LastFullParse(events, event.guid).Some?
        && event.decidedAt - LastFullParse(events, event.guid).value.at < ttl
  {
    hide FullReport.FullScan, Vitals.VitalsScan, Merge, EntryOf, IsRun, LastFullParse;
    if ttl > 0 {
      CacheIsCoherent(states, events, ttl, event.guid);
    }
  }

  /**
   * What a turn counts and reports, read off how the tool ended: a timeout or an error is one of either, a full text
   * with a fatal row is an error, and any other output is a report; a vitals text always is.
   */
  lemma TurnIsCounted(before: Entries, event: Event, after: Entries, ttl: int)
    requires event.Scraped? && Next(before, event, after, ttl)
    ensures
      var unreadable := match event.result
        case Output(text) => !event.vitals && FullReport.HasFatal(FullReport.Items(Text.Split(text, '\n')))
        case _ => false;
      && event.outcome.timeouts == (if event.result.Timeout? then 1 else 0)
      && event.outcome.errors == (if event.result.Failed? || unreadable then 1 else 0)
      && (event.outcome.report.Some? <==> event.result.Output? && !unreadable)
  {
    hide FullReport.Run, Vitals.VitalsScan, Merge, EntryOf, FullReport.HasFatal, FullReport.Items, Text.Split;
    if event.result.Output? {
      FullReport.RunFails(FullReport.START, FullReport.Items(Text.Split(event.result.text, '\n')));
    }
  }

  /** This report is the vitals report of one text with the cached part of another text's full report put back. */
  ghost predicate Merged(report: Report, vitalsText: string, parse: FullParse) {
    && FullReport.FullScan(parse.text).Ok?
    && exists full, vitals ::
         && FullReport.ReportOf(full, FullReport.FullScan(parse.text).value)
         && Vitals.ReportOf(vitals, Vitals.VitalsScan(vitalsText))
         && report == Merge(vitals, EntryOf(full, parse.at))
  }

  /**
   * A report produced in the vitals mode is its vitals merged with the last full parse of that switch, all cached
   * fields and the status of every supply, and when the mode was chosen that parse was younger than the TTL.
   */
  lemma WarmReportsAreFreshEnough(states: seq<Entries>, events: seq<Event>, ttl: int, event: Event, after: Entries)
    requires IsRun(states, events, ttl) && event.Scraped? && event.vitals && event.outcome.report.Some?
    requires Next(states[|events|], event, after, ttl)
    ensures
      var last := LastFullParse(events, event.guid);
      && last.Some? && event.decidedAt - last.value.at < ttl
      && event.result.Output? && Merged(event.outcome.report.value, event.result.text, last.value)
  {
    hide FullReport.FullScan, Vitals.VitalsScan, Merge;
    CacheIsCoherent(states, events, ttl, event.guid);
    var last := LastFullParse(events, event.guid).value;
    var entry := states[|events|][event.guid];
    var full :| FullReport.ReportOf(full, FullReport.FullScan(last.text).value) && Projects(entry, full);
    ProjectionIsEntry(entry, full, last.at);
    var vitals :| Vitals.ReportOf(vitals, Vitals.VitalsScan(event.result.text))
      && event.outcome == Outcome(Some(Merge(vitals, entry)), 0, 0);
  }
}
