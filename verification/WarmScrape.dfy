/** The vitals mode with the cache refines the full mode. */
module WarmScrape {
  import opened Wrappers
  import opened Text
  import opened Numbers
  import opened Ibswinfo
  import opened Hardware
  import opened Printed
  import opened StaticCache
  import opened VitalsRoundTrip
  import FullReport
  import FullRoundTrip
  import FullReportProofs
  import Vitals

  // ---------------------------------------------------------------- lists and tables

  /** Enumeration spelled out: own records only, no id twice, no record missed. */
  ghost predicate Lists(list: seq<PowerSupply>, psus: PsuTable) {
    && (forall i | 0 <= i < |list| :: list[i].id in psus && list[i] == psus[list[i].id].(id := list[i].id))
    && (forall i, j | 0 <= i < j < |list| :: list[i].id != list[j].id)
    && (forall id <- psus :: exists i | 0 <= i < |list| :: list[i].id == id)
  }

  lemma TwiceInMultiset(list: seq<PowerSupply>, i: nat, j: nat)
    requires i < j < |list| && list[i] == list[j]
    ensures multiset(list)[list[i]] >= 2
  {
    assert list == list[..j] + list[j..];
    assert list[i] in list[..j] && list[j] in list[j..];
  }

  lemma EnumeratesLists(list: seq<PowerSupply>, psus: PsuTable)
    requires Enumerates(list, psus)
    ensures Lists(list, psus)
  {
    forall i | 0 <= i < |list|
      ensures list[i].id in psus && list[i] == psus[list[i].id].(id := list[i].id)
    {
      assert list[i] in multiset(list);
      assert list[i] in WithIds(psus);
    }
    forall i, j | 0 <= i < j < |list| ensures list[i].id != list[j].id {
      if list[i].id == list[j].id {
        assert multiset(WithIds(psus))[list[i]] <= 1;
        TwiceInMultiset(list, i, j);
      }
    }
    forall id | id in psus ensures exists i | 0 <= i < |list| :: list[i].id == id {
      assert psus[id].(id := id) in WithIds(psus);
      assert psus[id].(id := id) in multiset(list);
    }
  }

  lemma {:induction false} OnceInMultiset(list: seq<PowerSupply>, p: PowerSupply)
    requires forall i, j | 0 <= i < j < |list| :: list[i].id != list[j].id
    ensures multiset(list)[p] == if p in list then 1 else 0
  {
    if list != [] {
      var n := |list| - 1;
      assert list == list[..n] + [list[n]];
      OnceInMultiset(list[..n], p);
    }
  }

  lemma ListsEnumerates(list: seq<PowerSupply>, psus: PsuTable)
    requires Lists(list, psus)
    ensures Enumerates(list, psus)
  {
    forall p | p in WithIds(psus) ensures p in list {
      var id :| id in psus && p == psus[id].(id := id);
      var i :| 0 <= i < |list| && list[i].id == id;
      assert list[i] == p;
    }
    forall p: PowerSupply ensures multiset(list)[p] == multiset(WithIds(psus))[p] {
      OnceInMultiset(list, p);
    }
  }

  lemma EqualLists(a: seq<PowerSupply>, ta: PsuTable, b: seq<PowerSupply>, tb: PsuTable)
    requires Enumerates(a, ta) && Enumerates(b, tb)
    ensures multiset(a) == multiset(b) <==> WithIds(ta) == WithIds(tb)
  {
    if multiset(a) == multiset(b) {
      forall p ensures p in WithIds(ta) <==> p in WithIds(tb) {
        assert p in multiset(WithIds(ta)) <==> p in multiset(WithIds(tb));
      }
    }
  }

  // ---------------------------------------------------------------- the cached statuses

  lemma {:induction false} StatusByIdOf(statuses: seq<PsuStatus>, id: string)
    requires forall i, j | 0 <= i < j < |statuses| :: statuses[i].id != statuses[j].id
    ensures id in StatusById(statuses) <==> exists i | 0 <= i < |statuses| :: statuses[i].id == id
    ensures forall i | 0 <= i < |statuses| && statuses[i].id == id ::
      id in StatusById(statuses) && StatusById(statuses)[id] == statuses[i]
  {
    if statuses != [] {
      StatusByIdOf(statuses[..|statuses| - 1], id);
    }
  }

  /** The statuses a full report of this table leaves in the cache. */
  function Statuses(psus: PsuTable): map<string, PsuStatus> {
    map id | id in psus :: StatusOf(psus[id].(id := id))
  }

  lemma StoredStatuses(r: Report, now: int)
    ensures
      var statuses := EntryOf(r, now).psuStatuses;
      && |statuses| == |r.powerSupplies|
      && forall i | 0 <= i < |statuses| ::
        statuses[i] == StatusOf(r.powerSupplies[i]) && statuses[i].id == r.powerSupplies[i].id
  {
  }

  lemma CachedStatuses(r: Report, psus: PsuTable, now: int)
    requires Enumerates(r.powerSupplies, psus)
    ensures StatusById(EntryOf(r, now).psuStatuses) == Statuses(psus)
  {
    hide StatusById, Enumerates, EntryOf, StatusOf;
    EnumeratesLists(r.powerSupplies, psus);
    StoredStatuses(r, now);
    var list, statuses := r.powerSupplies, EntryOf(r, now).psuStatuses;
    forall id ensures id in StatusById(statuses) <==> id in psus {
      StatusByIdOf(statuses, id);
      if id in psus {
        var i :| 0 <= i < |list| && list[i].id == id;
        assert statuses[i].id == id;
      }
    }
    forall id | id in psus ensures StatusById(statuses)[id] == Statuses(psus)[id] {
      StatusByIdOf(statuses, id);
      var i :| 0 <= i < |list| && list[i].id == id;
      assert statuses[i].id == id;
    }
  }

  // ---------------------------------------------------------------- merging

  function MergedTable(psus: PsuTable, known: map<string, PsuStatus>): PsuTable {
    map id | id in psus :: WithStatus(psus[id].(id := id), known)
  }

  lemma MergedSupplies(v: Report, cached: CacheEntry, i: nat)
    requires i < |v.powerSupplies|
    ensures
      var list := Merge(v, cached).powerSupplies;
      && |list| == |v.powerSupplies| && list[i] == WithStatus(v.powerSupplies[i], StatusById(cached.psuStatuses))
      && list[i].id == v.powerSupplies[i].id
  {
    hide StatusById;
  }

  lemma MergeEnumerates(v: Report, psus: PsuTable, cached: CacheEntry)
    requires Enumerates(v.powerSupplies, psus)
    ensures Enumerates(Merge(v, cached).powerSupplies, MergedTable(psus, StatusById(cached.psuStatuses)))
  {
    hide StatusById, Enumerates, Merge, WithStatus;
    EnumeratesLists(v.powerSupplies, psus);
    var known := StatusById(cached.psuStatuses);
    var list, table := Merge(v, cached).powerSupplies, MergedTable(psus, known);
    MergeKeepsLength(v, cached);
    forall i | 0 <= i < |list|
      ensures list[i].id == v.powerSupplies[i].id && list[i] == WithStatus(v.powerSupplies[i], known)
    {
      MergedSupplies(v, cached, i);
    }
    ListsMerged(v.powerSupplies, psus, list, known);
    ListsEnumerates(list, table);
  }

  lemma MergeKeepsLength(v: Report, cached: CacheEntry)
    ensures |Merge(v, cached).powerSupplies| == |v.powerSupplies|
  {
    hide StatusById;
  }

  lemma ListsMerged(before: seq<PowerSupply>, psus: PsuTable, list: seq<PowerSupply>, known: map<string, PsuStatus>)
    requires Lists(before, psus) && |list| == |before|
    requires forall i | 0 <= i < |list| :: list[i].id == before[i].id && list[i] == WithStatus(before[i], known)
    ensures Lists(list, MergedTable(psus, known))
  {
    var table := MergedTable(psus, known);
    forall id | id in table ensures exists i | 0 <= i < |list| :: list[i].id == id {
      var i :| 0 <= i < |before| && before[i].id == id;
      assert list[i].id == id;
    }
  }

  // ---------------------------------------------------------------- agreement

  /** The status strings the cache filled at state `before` holds for a power supply; none if it was not there. */
  function StatusAt(before: Switch, id: string): (string, string, string) {
    var t := Table(before.psus);
    if id in t then (t[id].status, t[id].dcPower, t[id].fanStatus) else ("", "", "")
  }

  /** The fields vitals does not carry are as they were when the cache was filled. */
  ghost predicate StaticFieldsUnchanged(before: Switch, now: Switch) {
    && Expected(before).partNumber == Expected(now).partNumber
      && Expected(before).serialNumber == Expected(now).serialNumber
    && Expected(before).psid == Expected(now).psid && Expected(before).firmwareVersion == Expected(now).firmwareVersion
    && Expected(before).fanStatus == Expected(now).fanStatus
  }

  /** Vitals lists every power supply, and each has the statuses the cache remembers. */
  ghost predicate SuppliesUnchanged(before: Switch, now: Switch, listed: set<string>) {
    forall i | 0 <= i < |now.psus| ::
      var p := now.psus[i];
      p.id in listed && StatusAt(before, p.id) == (Record(p).status, Record(p).dcPower, Record(p).fanStatus)
  }

  lemma MergedSupply(before: Switch, now: Switch, listed: set<string>, i: nat)
    requires Valid(before) && Valid(now) && i < |now.psus|
    ensures
      var p, known := now.psus[i], Statuses(Table(before.psus));
      var merged := MergedTable(PowerTable(now.psus, listed), known);
      && p.id in Table(now.psus) && Table(now.psus)[p.id] == Record(p)
      && (p.id in merged <==> p.id in listed)
      && (p.id in merged ==>
            var (status, dc, fan) := StatusAt(before, p.id);
            merged[p.id].(id := p.id) == PowerSupply(p.id, status, dc, fan, Record(p).powerW))
  {
    hide ParseFloat, ValidPsu, ValidFan;
    TableOf(now.psus, now.psus[i].id);
    PowerTableOf(now.psus, listed, now.psus[i].id);
  }

  lemma SameTables(before: Switch, now: Switch, listed: set<string>)
    requires Valid(before) && Valid(now)
    ensures
      var merged := MergedTable(PowerTable(now.psus, listed), Statuses(Table(before.psus)));
      WithIds(merged) == WithIds(Table(now.psus)) <==> SuppliesUnchanged(before, now, listed)
  {
    hide ParseFloat, ValidPsu, ValidFan, Table, PowerTable, MergedTable, StatusAt;
    var merged, full := MergedTable(PowerTable(now.psus, listed), Statuses(Table(before.psus))), Table(now.psus);
    if WithIds(merged) == WithIds(full) {
      forall i | 0 <= i < |now.psus|
        ensures now.psus[i].id in listed
        ensures StatusAt(before, now.psus[i].id) ==
          (Record(now.psus[i]).status, Record(now.psus[i]).dcPower, Record(now.psus[i]).fanStatus)
      {
        MergedSupply(before, now, listed, i);
        var id := now.psus[i].id;
        assert full[id].(id := id) in WithIds(merged);
        var k :| k in merged && full[id].(id := id) == merged[k].(id := k);
        assert k == id;
      }
    }
    if SuppliesUnchanged(before, now, listed) {
      MergedKeys(before, now, listed);
      forall id | id in full ensures id in merged && merged[id].(id := id) == full[id].(id := id) {
        TableOf(now.psus, id);
        var i :| 0 <= i < |now.psus| && now.psus[i].id == id;
        MergedSupply(before, now, listed, i);
      }
      assert forall p :: p in WithIds(merged) <==> p in WithIds(full);
    }
  }

  lemma MergedKeys(before: Switch, now: Switch, listed: set<string>)
    requires Valid(now)
    ensures MergedTable(PowerTable(now.psus, listed), Statuses(Table(before.psus))).Keys <= Table(now.psus).Keys
  {
    hide ParseFloat, ValidPsu, ValidFan, Table, PowerTable;
    forall id | id in PowerTable(now.psus, listed) ensures id in Table(now.psus) {
      TableOf(now.psus, id);
      PowerTableOf(now.psus, listed, id);
    }
  }

  /** What a full scrape of this text reports: nothing if it does not parse. */
  ghost predicate FullScrape(text: string, full: Option<Report>) {
    match FullReport.FullScan(text)
    case Err => full.None?
    case Ok(scan) => full.Some? && FullReport.ReportOf(full.value, scan)
  }

  /** The full scrape reports, and it reports this. */
  ghost predicate Agrees(warm: Report, full: Option<Report>) {
    full.Some? && SameReport(warm, full.value)
  }

  /**
   * A warm scrape reports what a full scrape would, exactly when every reading is a number, nothing vitals omits has
   * changed since the cache was filled and vitals lists every power supply.
   */
  lemma WarmScrapeRefinesFull(before: Switch, now: Switch, listed: set<string>, fullThen: string, fullNow: string,
    vitalsNow: string, filled: Report, full: Option<Report>, vitals: Report, at: int)
    requires Valid(before) && Valid(now)
    requires PrintsFull(fullThen, before) && PrintsFull(fullNow, now) && PrintsVitals(vitalsNow, now, listed)
    requires FullScrape(fullThen, Some(filled)) && FullScrape(fullNow, full)
    requires Vitals.ReportOf(vitals, Vitals.VitalsScan(vitalsNow))
    ensures Agrees(Merge(vitals, EntryOf(filled, at)), full) <==>
      Readable(now) && StaticFieldsUnchanged(before, now) && SuppliesUnchanged(before, now, listed)
  {
    hide PrintsFull, PrintsVitals, Valid, Readable, FullReport.FullScan, Vitals.VitalsScan, SuppliesUnchanged, Table,
      PowerTable, Enumerates, ParseFloat, StatusById, MergedTable;
    FullTextRoundTrip(fullThen, before);
    FullTextRoundTrip(fullNow, now);
    if Readable(now) {
      VitalsTextRoundTrip(vitalsNow, now, listed);
      var entry := EntryOf(filled, at);
      CachedStatuses(filled, Table(before.psus), at);
      MergeEnumerates(vitals, PowerTable(now.psus, listed), entry);
      var merged := MergedTable(PowerTable(now.psus, listed), Statuses(Table(before.psus)));
      EqualLists(Merge(vitals, entry).powerSupplies, merged, full.value.powerSupplies, Table(now.psus));
      SameTables(before, now, listed);
    }
  }

  /**
   * The fast path over all runs: whenever a scrape of a run takes the vitals mode and gets output, it reports, and
   * its report is what a full scrape of the switch as it is now would give, if and only if every reading is a
   * number, nothing that vitals omits has changed since the switch's last full parse and vitals lists every power
   * supply.
   */
  lemma WarmAgreesOverRuns(states: seq<Entries>, events: seq<Event>, ttl: int, event: Event, after: Entries,
    before: Switch, now: Switch, listed: set<string>, fullNow: string, full: Option<Report>)
    requires IsRun(states, events, ttl) && event.Scraped? && event.vitals && event.result.Output?
    requires Next(states[|events|], event, after, ttl)
    requires Valid(before) && Valid(now) && PrintsFull(fullNow, now) && PrintsVitals(event.result.text, now, listed)
    requires FullScrape(fullNow, full)
    requires var last := LastFullParse(events, event.guid); last.Some? ==> PrintsFull(last.value.text, before)
    ensures LastFullParse(events, event.guid).Some? && event.outcome.report.Some?
    ensures Agrees(event.outcome.report.value, full) <==>
      Readable(now) && StaticFieldsUnchanged(before, now) && SuppliesUnchanged(before, now, listed)
  {
    hide PrintsFull, PrintsVitals, Valid, FullReport.FullScan, Vitals.VitalsScan, SuppliesUnchanged, IsRun,
      LastFullParse, Merge, EntryOf, Agrees, Readable, FullReport.ReportOf, Vitals.ReportOf;
    WarmReportsAreFreshEnough(states, events, ttl, event, after);
    var last := LastFullParse(events, event.guid).value;
    var filled, vitals :|
      && FullReport.ReportOf(filled, FullReport.FullScan(last.text).value)
      && Vitals.ReportOf(vitals, Vitals.VitalsScan(event.result.text))
      && event.outcome.report.value == Merge(vitals, EntryOf(filled, last.at));
    WarmScrapeRefinesFull(before, now, listed, last.text, fullNow, event.result.text, filled, full, vitals, last.at);
  }

  /**
   * The full parser knows single-digit ids only. If vitals lists any other id, the two modes cannot agree,
   * whatever the texts and whatever the cache.
   */
  lemma LongIdsNeverAgree(fullText: string, vitalsText: string, full: Report, vitals: Report, cached: CacheEntry,
    id: string)
    requires FullReport.FullScan(fullText).Ok? && FullReport.ReportOf(full, FullReport.FullScan(fullText).value)
    requires Vitals.ReportOf(vitals, Vitals.VitalsScan(vitalsText))
    requires id in Vitals.VitalsScan(vitalsText).psus && |id| != 1
    ensures !SameReport(Merge(vitals, cached), full)
  {
    hide FullReport.Run, FullReport.Items, Vitals.VitalsScan, StatusById;
    var psus := FullReport.FullScan(fullText).value.psus;
    var merged := MergedTable(Vitals.VitalsScan(vitalsText).psus, StatusById(cached.psuStatuses));
    FullReportProofs.IdsAreSingleDigits(FullReport.Items(Split(fullText, '\n')));
    MergeEnumerates(vitals, Vitals.VitalsScan(vitalsText).psus, cached);
    EqualLists(Merge(vitals, cached).powerSupplies, merged, full.powerSupplies, psus);
    var p := merged[id].(id := id);
    assert p in WithIds(merged);
    assert p !in WithIds(psus);
  }

  /** `PSU10 status` opens no record, while vitals reads `psu10.power (W)`. */
  lemma TenthSupplyIsMissed()
    ensures FullReport.FindPsu("PSU10 status").None?
    ensures Vitals.PsuKey("psu10.power (W)") == Some("10")
  {
    var key := "PSU10 status";
    assert key[4] == '0' && |key| == 12;
    assert key[1..][0] == 'S' && |key[1..]| == 11;
    NumberedKey("psu", "10", ".power (W)");
    assert "psu" + "10" + ".power (W)" == "psu10.power (W)";
  }

  // ---------------------------------------------------------------- inputs on which the modes differ

  function FirmwareText(version: string): string {
    Cell(0, "firmware version", version)
  }

  lemma FirmwareScan(version: string)
    requires Clean(version)
    ensures FullReport.FullScan(FirmwareText(version)) ==
      Ok(FullReport.START.(data := EMPTY_REPORT.(firmwareVersion := version)))
  {
    hide FullReport.RowStep, FullReport.Items, FullRoundTrip.PlainKey, FullReport.Run;
    FullRoundTrip.FirmwareVersionName();
    CellsAreLines(0, "firmware version", Some(version));
    SameCell(0, "firmware version", version);
    assert '\n' !in [FirmwareText(version)][0];
    SplitSingle(FirmwareText(version), '\n');
    FullRoundTrip.RunCell(FullReport.START, 0, "firmware version", version);
    FullRoundTrip.PlainRow(FullReport.START, "firmware version", version);
  }

  /** A firmware upgrade since the cache was filled: the warm report still shows the old version. */
  lemma UpgradeIsMissed(at: int)
    ensures
      var filled, now := EMPTY_REPORT.(firmwareVersion := "1"), EMPTY_REPORT.(firmwareVersion := "2");
      && FullScrape(FirmwareText("1"), Some(filled)) && FullScrape(FirmwareText("2"), Some(now))
      && Vitals.ReportOf(EMPTY_REPORT, Vitals.VitalsScan(""))
      && Merge(EMPTY_REPORT, EntryOf(filled, at)).firmwareVersion == "1"
      && !Agrees(Merge(EMPTY_REPORT, EntryOf(filled, at)), Some(now))
  {
    hide FullReport.FullScan, FirmwareText;
    FirmwareScan("1");
    FirmwareScan("2");
    assert Vitals.VitalsScan("") == Vitals.START;
    assert WithIds(map[]) == {};
  }

  function FanText(f: FanReading): string {
    Cell(0, "fan#" + f.id + " (rpm)", f.rpm)
  }

  function SpeedText(f: FanReading): string {
    VitalsCell("fan#" + f.id + ".speed (rpm)", f.rpm)
  }

  /** A fan speed that is no number: the full scrape fails, while vitals reports the fan without a speed. */
  lemma UnreadableFanIsMissed()
    ensures
      var f := FanReading("1", "foo");
      && FullReport.FullScan(FanText(f)).Err?
      && Vitals.VitalsScan(SpeedText(f)) == Vitals.START.(data := EMPTY_REPORT.(fans := [Fan("1", None)]))
  {
    hide FullReport.FullScan, Vitals.VitalsScan, FanText, SpeedText, ParseFloat, ValidFan;
    FooIsNoNumber();
    FanTextFails(FanReading("1", "foo"));
    SpeedTextScan(FanReading("1", "foo"));
  }

  lemma FooIsNoNumber()
    ensures ParseFloat("foo").None? && ValidFan(FanReading("1", "foo")) && !ReadableFan(FanReading("1", "foo"))
  {
    SplitSingle("foo", '.');
  }

  lemma FanTextFails(f: FanReading)
    requires ValidFan(f) && !ReadableFan(f)
    ensures FullReport.FullScan(FanText(f)).Err?
  {
    hide FullReport.Run, FullReport.Fatal, FullReport.LineItems, FullReport.Items, Cell, Split;
    FullRoundTrip.FatalFan(f);
    FanLinesAreLines([f]);
    assert FanText(f) == FanLines([f])[0];
    SplitSingle(FanText(f), '\n');
    var row := FullReport.Row("fan#" + f.id + " (rpm)", f.rpm);
    ItemIsThere([FanText(f)], FanText(f), row);
    FullReport.RunFails(FullReport.START, FullReport.Items([FanText(f)]));
  }

  lemma SpeedTextScan(f: FanReading)
    requires ValidFan(f)
    ensures Vitals.VitalsScan(SpeedText(f)) ==
      Vitals.START.(data := EMPTY_REPORT.(fans := [Fan(f.id, ParseFloat(f.rpm))]))
  {
    hide Vitals.Run, Vitals.RowStep, VitalsCell, Split, ParseFloat;
    FanLinesAreLines([f]);
    assert SpeedText(f) == SpeedLines([f])[0];
    SplitSingle(SpeedText(f), '\n');
    FanKeyIs(f.id);
    RunCell(Vitals.START, "fan#" + f.id + ".speed (rpm)", f.rpm);
    FanRow(Vitals.START, f.id, f.rpm);
  }
}
