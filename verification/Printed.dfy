/** Whole texts: the lines that matter, between any lines the parsers do not react to. */
module Printed {
  import opened Wrappers
  import opened Text
  import opened Numbers
  import opened Hardware
  import opened FullRoundTrip
  import FullReport
  import FullReportProofs
  import Vitals
  import VitalsRoundTrip

  // ---------------------------------------------------------------- the full report

  /** A banner, a product name, a serial number of a power supply, an uptime that cannot be read, ... */
  predicate QuietLine(line: string) {
    var columns := Split(line, '|');
    !HasPrefix(line, "-----") && (|columns| == 2 ==> QuietRow(Trim(columns[0]), Trim(columns[1])))
  }

  predicate QuietRow(key: string, value: string) {
    FullReport.FieldOf(key).Other? && (PlainKey(key) || FullReport.Unreadable(FullReport.Row(key, value)))
  }

  lemma StepKeepsOpen(st: FullReport.Scan, item: FullReport.Item)
    requires Open(st) && FullReport.Step(st, item).Ok?
    ensures Open(FullReport.Step(st, item).value)
  {
    hide FullReport.RowStep;
    if item.Row? {
      var a, skipped := FullReportProofs.RowStepParts(st, item.key, item.value);
      PsuStepKeepsOpen(a, item.key, item.value);
    }
  }

  lemma PsuStepKeepsOpen(st: FullReport.Scan, key: string, value: string)
    requires Open(st)
    ensures FullReport.PsuStep(st, key, value).Ok? ==> Open(FullReport.PsuStep(st, key, value).value)
  {
    hide FullReport.FindPsu, ParseFloat, FullReport.FieldOf;
  }

  lemma {:induction false} RunKeepsOpen(st: FullReport.Scan, items: seq<FullReport.Item>)
    requires Open(st) && FullReport.Run(st, items).Ok?
    ensures Open(FullReport.Run(st, items).value)
    decreases items
  {
    hide FullReport.Step, Open;
    if items != [] {
      StepKeepsOpen(st, items[0]);
      RunKeepsOpen(FullReport.Step(st, items[0]).value, items[1..]);
    }
  }

  lemma LineKeepsOpen(st: FullReport.Scan, line: string)
    requires Open(st) && RunLines(st, [line]).Ok?
    ensures Open(RunLines(st, [line]).value)
  {
    hide FullReport.Run, FullReport.Items, Open;
    RunKeepsOpen(st, FullReport.Items([line]));
  }

  lemma QuietStep(st: FullReport.Scan, line: string)
    requires QuietLine(line) && Open(st)
    ensures RunLines(st, [line]) == Ok(st)
  {
    hide FullReport.RowStep, Split, Trim, PlainKey, FullReport.FieldOf;
    RunLine(st, line);
    var columns := Split(line, '|');
    if |columns| == 2 {
      QuietRowStep(st, Trim(columns[0]), Trim(columns[1]));
      assert FullReport.LineItems(line)[1..] == [];
    }
  }

  lemma QuietRowStep(st: FullReport.Scan, key: string, value: string)
    requires QuietRow(key, value) && Open(st)
    ensures FullReport.RowStep(st, key, value) == Ok(st)
  {
    if PlainKey(key) {
      hide FullReport.RowStep, PlainKey;
      PlainRow(st, key, value);
    }
  }

  lemma {:induction false} QuietLinesChangeNothing(st: FullReport.Scan, lines: seq<string>, kept: seq<string>)
    requires Interleaves(lines, kept, QuietLine) && Open(st)
    ensures RunLines(st, lines) == RunLines(st, kept)
    decreases lines
  {
    hide RunLines, QuietLine, Open;
    if lines != [] {
      var line, rest := lines[0], lines[1..];
      assert lines == [line] + rest;
      RunLinesAppend(st, [line], rest);
      if kept != [] && line == kept[0] && Interleaves(rest, kept[1..], QuietLine) {
        assert kept == [line] + kept[1..];
        RunLinesAppend(st, [line], kept[1..]);
        if RunLines(st, [line]).Ok? {
          LineKeepsOpen(st, line);
          QuietLinesChangeNothing(RunLines(st, [line]).value, rest, kept[1..]);
        }
      } else {
        QuietStep(st, line);
        QuietLinesChangeNothing(st, rest, kept);
      }
    }
  }

  predicate PrintsFull(out: string, s: Switch) {
    Interleaves(Split(out, '\n'), FullLines(s), QuietLine)
  }

  lemma {:induction false} KeptIsThere(lines: seq<string>, kept: seq<string>, quiet: string -> bool, line: string)
    requires Interleaves(lines, kept, quiet) && line in kept
    ensures line in lines
  {
    if kept != [] && lines[0] == kept[0] && Interleaves(lines[1..], kept[1..], quiet) {
      if line in kept[1..] {
        KeptIsThere(lines[1..], kept[1..], quiet, line);
      }
    } else {
      KeptIsThere(lines[1..], kept, quiet, line);
    }
  }

  lemma {:induction false} ItemIsThere(lines: seq<string>, line: string, item: FullReport.Item)
    requires line in lines && item in FullReport.LineItems(line)
    ensures item in FullReport.Items(lines)
  {
    hide FullReport.LineItems;
    if lines[0] != line {
      ItemIsThere(lines[1..], line, item);
    }
  }

  lemma UnreadableFails(out: string, s: Switch)
    requires Valid(s) && !Readable(s) && PrintsFull(out, s)
    ensures FullReport.FullScan(out).Err?
  {
    hide FullLines, Split, Valid, Readable, FullReport.Run, FullReport.Items, Interleaves, FullReport.LineItems,
      FullReport.Fatal;
    var line, item := UnreadablePrintsFatal(s);
    var lines := Split(out, '\n');
    KeptIsThere(lines, FullLines(s), QuietLine, line);
    ItemIsThere(lines, line, item);
    FullReport.RunFails(FullReport.START, FullReport.Items(lines));
  }

  /**
   * A printed report of the switch is parsed exactly when every reading is a number, and then to the switch's
   * state.
   */
  lemma FullTextRoundTrip(out: string, s: Switch)
    requires Valid(s) && PrintsFull(out, s)
    ensures FullReport.FullScan(out).Ok? <==> Readable(s)
    ensures Readable(s) ==>
      var scan := FullReport.FullScan(out).value;
      scan.data == Expected(s) && scan.psus == Table(s.psus)
  {
    hide FullLines, Split, Expected, Table, Valid, Readable, FullReport.Run, FullReport.Items, Interleaves;
    if Readable(s) {
      FullLinesRoundTrip(s);
      QuietLinesChangeNothing(FullReport.START, Split(out, '\n'), FullLines(s));
    } else {
      UnreadableFails(out, s);
    }
  }

  // ---------------------------------------------------------------- the vitals output

  /** A line with another key, or an uptime or temperature that is no number. */
  predicate QuietVitals(line: string) {
    var cut := FirstIndex(line, ':');
    cut >= 0 ==>
      var key, value := Trim(line[..cut]), Trim(line[cut + 1..]);
      if key == "uptime (sec)" || key == "cur.temp (C)" then ParseFloat(value).None?
      else Vitals.PsuKey(key).None? && Vitals.FanKey(key).None?
  }

  lemma {:induction false} QuietVitalsChangeNothing(st: Vitals.Scan, lines: seq<string>, kept: seq<string>)
    requires Interleaves(lines, kept, QuietVitals)
    ensures Vitals.Run(st, lines) == Vitals.Run(st, kept)
    decreases lines
  {
    hide Vitals.RowStep, Trim, Vitals.PsuKey, Vitals.FanKey, FirstIndex;
    if lines != [] {
      if kept != [] && lines[0] == kept[0] && Interleaves(lines[1..], kept[1..], QuietVitals) {
        QuietVitalsChangeNothing(Vitals.LineStep(st, lines[0]), lines[1..], kept[1..]);
      } else {
        QuietVitalsStep(st, lines[0]);
        QuietVitalsChangeNothing(st, lines[1..], kept);
      }
    }
  }

  lemma QuietVitalsStep(st: Vitals.Scan, line: string)
    requires QuietVitals(line)
    ensures Vitals.LineStep(st, line) == st
  {
    hide Trim, Vitals.PsuKey, Vitals.FanKey, ParseFloat;
  }

  predicate PrintsVitals(out: string, s: Switch, listed: set<string>) {
    Interleaves(Split(out, '\n'), VitalsLines(s, listed), QuietVitals)
  }

  /** Any vitals text of the switch parses to its readings, whether they are numbers or not. */
  lemma VitalsTextRoundTrip(out: string, s: Switch, listed: set<string>)
    requires Valid(s) && PrintsVitals(out, s, listed)
    ensures Vitals.VitalsScan(out) ==
      Vitals.Scan(VitalsRoundTrip.PowerTable(s.psus, listed), VitalsRoundTrip.ExpectedVitals(s))
  {
    hide VitalsLines, Split, Valid, Vitals.Run, Interleaves;
    VitalsRoundTrip.VitalsLinesRoundTrip(s, listed);
    QuietVitalsChangeNothing(Vitals.START, Split(out, '\n'), VitalsLines(s, listed));
  }

  // ---------------------------------------------------------------- such texts exist

  ghost predicate OneLineEach(lines: seq<string>) {
    forall i | 0 <= i < |lines| :: '\n' !in lines[i]
  }

  lemma CellsAreLines(indent: nat, key: string, value: Option<string>)
    requires '\n' !in key && (value.Some? ==> '\n' !in value.value)
    ensures OneLineEach(OptCell(indent, key, value)) && OneLineEach(OptVitals(key, value))
  {
  }

  lemma {:induction false} PsuLinesAreLines(psus: seq<Psu>, listed: set<string>)
    requires forall i | 0 <= i < |psus| :: ValidPsu(psus[i])
    ensures OneLineEach(AllPsuLines(psus)) && OneLineEach(PowerLines(psus, listed))
  {
    hide PsuLines, VitalsCell, ValidPsu;
    if psus != [] {
      var p := psus[|psus| - 1];
      PsuLinesAreLines(psus[..|psus| - 1], listed);
      OnePsuIsLines(p);
    }
  }

  lemma OnePsuIsLines(p: Psu)
    requires ValidPsu(p)
    ensures OneLineEach(PsuLines(p))
    ensures OneLineEach([VitalsCell("psu" + p.id + ".power (W)", p.power.GetOr(""))])
  {
    hide Cell, OptCell, OptVitals, VitalsCell;
    ValidPsuIsLine(p);
    CellsAreLines(0, "PSU" + p.id + " status", Some(p.status));
    SameCell(0, "PSU" + p.id + " status", p.status);
    CellsAreLines(5, "DC power", p.dcPower);
    CellsAreLines(5, "fan status", p.fanStatus);
    CellsAreLines(5, "power (W)", p.power);
    CellsAreLines(5, "psu" + p.id + ".power (W)", Some(p.power.GetOr("")));
    SameCell(5, "psu" + p.id + ".power (W)", p.power.GetOr(""));
  }

  lemma ValidPsuIsLine(p: Psu)
    requires ValidPsu(p)
    ensures '\n' !in p.id && '\n' !in p.status && (p.dcPower.Some? ==> '\n' !in p.dcPower.value)
    ensures (p.fanStatus.Some? ==> '\n' !in p.fanStatus.value) && (p.power.Some? ==> '\n' !in p.power.value)
  {
    hide ParseFloat;
  }

  lemma SameCell(indent: nat, key: string, value: string)
    ensures OptCell(indent, key, Some(value)) == [Cell(indent, key, value)]
    ensures OptVitals(key, Some(value)) == [VitalsCell(key, value)]
  {
  }

  lemma {:induction false} FanLinesAreLines(fans: seq<FanReading>)
    requires forall i | 0 <= i < |fans| :: ValidFan(fans[i])
    ensures OneLineEach(FanLines(fans)) && OneLineEach(SpeedLines(fans))
  {
    hide ParseFloat, Cell, OptCell, OptVitals, VitalsCell;
    if fans != [] {
      var f := fans[|fans| - 1];
      FanLinesAreLines(fans[..|fans| - 1]);
      assert '\n' !in f.id;
      CellsAreLines(0, "fan#" + f.id + " (rpm)", Some(f.rpm));
      CellsAreLines(0, "fan#" + f.id + ".speed (rpm)", Some(f.rpm));
      SameCell(0, "fan#" + f.id + " (rpm)", f.rpm);
      SameCell(0, "fan#" + f.id + ".speed (rpm)", f.rpm);
    }
  }

  lemma ValidIsLine(s: Switch)
    requires Valid(s)
    ensures forall v | v in [s.partNumber, s.serialNumber, s.psid, s.firmwareVersion, s.temp, s.fanStatus] && v.Some? ::
      '\n' !in v.value
  {
    hide ParseFloat, ValidPsu, ValidFan;
  }

  lemma OtherLinesAreLines(s: Switch)
    requires Valid(s)
    ensures OneLineEach(StaticLines(s)) && OneLineEach(UptimeLines(s))
    ensures OneLineEach(OptCell(0, "temperature (C)", s.temp)) && OneLineEach(OptCell(0, "fan status", s.fanStatus))
    ensures OneLineEach(OptVitals("uptime (sec)", if s.uptime.Some? then Some(Dec(s.uptime.value)) else None))
    ensures OneLineEach(OptVitals("cur.temp (C)", s.temp))
  {
    hide UptimeText, ParseFloat, FullReport.ParseUptime, OptCell, OptVitals, Valid;
    ValidIsLine(s);
    CellsAreLines(0, "part number", s.partNumber);
    CellsAreLines(0, "serial number", s.serialNumber);
    CellsAreLines(0, "PSID", s.psid);
    CellsAreLines(0, "firmware version", s.firmwareVersion);
    CellsAreLines(0, "temperature (C)", s.temp);
    CellsAreLines(0, "cur.temp (C)", s.temp);
    CellsAreLines(0, "fan status", s.fanStatus);
    var n := s.uptime.GetOr(0);
    UptimeRoundTrip(n);
    CellsAreLines(0, "uptime (d-h:m:s)", if s.uptime.Some? then Some(UptimeText(n)) else None);
    assert '\n' !in Dec(n);
    CellsAreLines(0, "uptime (sec)", if s.uptime.Some? then Some(Dec(n)) else None);
  }

  lemma LinesAreLines(s: Switch, listed: set<string>)
    requires Valid(s)
    ensures OneLineEach(FullLines(s)) && OneLineEach(VitalsLines(s, listed)) && FullLines(s) != []
  {
    hide ParseFloat, AllPsuLines, PowerLines, FanLines, SpeedLines, UptimeLines, StaticLines, OptCell, OptVitals, Dec,
      ValidPsu, ValidFan;
    PsuLinesAreLines(s.psus, listed);
    FanLinesAreLines(s.fans);
    OtherLinesAreLines(s);
    assert OneLineEach([Dashes()]);
  }

  lemma EmptyTextIsQuiet()
    ensures Join([], '\n') == "" && Interleaves(Split("", '\n'), [], QuietVitals)
  {
    assert QuietVitals("");
    assert [""][1..] == [];
  }

  /** The plain printing of a switch is such a text; with no vitals line it is the empty text. */
  lemma PrintedTextsExist(s: Switch, listed: set<string>)
    requires Valid(s)
    ensures PrintsFull(Join(FullLines(s), '\n'), s)
    ensures PrintsVitals(Join(VitalsLines(s, listed), '\n'), s, listed)
  {
    hide FullLines, VitalsLines, Valid, QuietLine, QuietVitals, Split, Join, Interleaves;
    LinesAreLines(s, listed);
    SplitJoin(FullLines(s), '\n');
    InterleavesItself(FullLines(s), QuietLine);
    var lines := VitalsLines(s, listed);
    if lines == [] {
      EmptyTextIsQuiet();
    } else {
      SplitJoin(lines, '\n');
      InterleavesItself(lines, QuietVitals);
    }
  }
}
