/** The parser of the full ibswinfo report. */
module FullReport {
  import opened Wrappers
  import opened Text
  import opened Numbers
  import opened Ibswinfo

  // ---------------------------------------------------------------- keys

  /** The keys the parser compares for equality. */
  datatype Field = PartNumber | SerialNumber | Psid | FirmwareVersion | DcPower | FanStatus | Power | Temperature
    | Other

  function FieldOf(key: string): Field {
    if key == "part number" then PartNumber
    else if key == "serial number" then SerialNumber
    else if key == "PSID" then Psid
    else if key == "firmware version" then FirmwareVersion
    else if key == "DC power" then DcPower
    else if key == "fan status" then FanStatus
    else if key == "power (W)" then Power
    else if key == "temperature (C)" then Temperature
    else Other
  }

  /** `PSU([0-9]) status`, searched anywhere in the key; gives the captured digit. */
  function FindPsu(key: string): Option<string> {
    if |key| < 11 then None
    else if HasPrefix(key, "PSU") && IsDigit(key[3]) && HasPrefix(key[4..], " status") then Some([key[3]])
    else FindPsu(key[1..])
  }

  /** `fan#([0-9]+)`, searched anywhere in the key; gives the captured digits. */
  function FindFan(key: string): Option<string> {
    if |key| < 5 then None
    else if HasPrefix(key, "fan#") && IsDigit(key[4]) then Some(LeadingDigits(key[4..]))
    else FindFan(key[1..])
  }

  // ---------------------------------------------------------------- uptime

  /** strings.Replace(s, "d", "", 1) */
  function WithoutFirstD(s: string): string {
    var i := FirstIndex(s, 'd');
    if i < 0 then s else s[..i] + s[i + 1..]
  }

  /** time.Parse("15:04:05", s) as seconds since midnight: one or two hour digits, a fraction allowed. */
  function ParseClock(s: string): Option<real> {
    var k := if |s| >= 2 && IsDigit(s[0]) && IsDigit(s[1]) then 2 else if |s| >= 1 && IsDigit(s[0]) then 1 else 0;
    var rest := s[k..];
    if k == 0 || |rest| < 6 || rest[0] != ':' || rest[3] != ':' then None
    else if !AllDigits(rest[1..3]) || !AllDigits(rest[4..6]) then None
    else
      var h, m, sec, frac := DigitsValue(s[..k]), DigitsValue(rest[1..3]), DigitsValue(rest[4..6]), rest[6..];
      if h >= 24 || m >= 60 || sec >= 60 then None
      else if frac == "" then Some((h * 3600 + m * 60 + sec) as real)
      else if |frac| >= 2 && (frac[0] == '.' || frac[0] == ',') && AllDigits(frac[1..]) then
        var nanos := if |frac| > 10 then frac[1..10] else frac[1..];
        Some((h * 3600 + m * 60 + sec) as real + DigitsValue(nanos) as real / Pow10(|nanos|) as real)
      else None
  }

  /** `Nd-H:M:S`, or `H:M:S` alone, in seconds. */
  function ParseUptime(value: string): Option<real> {
    var parts := Split(value, '-');
    if |parts| == 2 then
      match ParseFloat(WithoutFirstD(parts[0]))
      case None => None
      case Some(days) =>
        match ParseClock(parts[1])
        case None => None
        case Some(t) => Some(days * 86400.0 + t)
    else ParseClock(value)
  }

  // ---------------------------------------------------------------- scanning

  /** What a line contributes: it may count as a divider, and it may be a `key | value` row. */
  datatype Item = Divider | Row(key: string, value: string)

  function LineItems(line: string): seq<Item> {
    var columns := Split(line, '|');
    (if HasPrefix(line, "-----") then [Divider] else [])
    + (if |columns| == 2 then [Row(Trim(columns[0]), Trim(columns[1]))] else [])
  }

  function Items(lines: seq<string>): seq<Item> {
    if lines == [] then [] else LineItems(lines[0]) + Items(lines[1..])
  }

  /** The parser's variables. */
  datatype Scan = Scan(dividers: nat, psuId: string, psus: PsuTable, data: Report)

  const START := Scan(0, "", map[], EMPTY_REPORT)

  function StaticField(data: Report, field: Field, value: string): Report {
    match field
    case PartNumber => data.(partNumber := value)
    case SerialNumber => data.(serialNumber := value)
    case Psid => data.(psid := value)
    case FirmwareVersion => data.(firmwareVersion := value)
    case _ => data
  }

  const BLANK_PSU := PowerSupply("", "", "", "", None)

  function PsuStep(st: Scan, key: string, value: string): Result<Scan> {
    var header := FindPsu(key);
    var id := header.GetOr(st.psuId);
    var inPsus := id != "" && st.dividers < 4;
    var newPsu := if header.Some? then BLANK_PSU.(status := value) else BLANK_PSU;
    var base := if newPsu.status == "" && inPsus && id in st.psus then st.psus[id] else newPsu;
    var withDc := if FieldOf(key).DcPower? then base.(dcPower := value) else base;
    var withFan := if FieldOf(key).FanStatus? && st.dividers < 4 then withDc.(fanStatus := value) else withDc;
    if FieldOf(key).Power? && ParseFloat(value).None? then Err
    else
      var psu := if FieldOf(key).Power? then withFan.(powerW := ParseFloat(value)) else withFan;
      Ok(st.(psuId := id, psus := if inPsus then st.psus[id := psu] else st.psus))
  }

  function TempStep(st: Scan, key: string, value: string): Result<Scan> {
    if !FieldOf(key).Temperature? then Ok(st)
    else if ParseFloat(value).None? then Err
    else Ok(st.(data := st.data.(temp := ParseFloat(value))))
  }

  function FanStep(st: Scan, key: string, value: string): Result<Scan> {
    var data := if FieldOf(key).FanStatus? && st.dividers >= 4 then st.data.(fanStatus := value) else st.data;
    match FindFan(key)
    case None => Ok(st.(data := data))
    case Some(id) =>
      if value != "" && ParseFloat(value).None? then Err
      else
        var rpm := if value == "" then None else ParseFloat(value);
        Ok(st.(data := data.(fans := data.fans + [Fan(id, rpm)])))
  }

  function RowStep(st: Scan, key: string, value: string): Result<Scan> {
    var data := StaticField(st.data, FieldOf(key), value);
    if HasPrefix(key, "uptime") && ParseUptime(value).None? then Ok(st.(data := data))
    else
      var data' := if HasPrefix(key, "uptime") then data.(uptime := ParseUptime(value).value) else data;
      match PsuStep(st.(data := data'), key, value)
      case Err => Err
      case Ok(a) =>
        match TempStep(a, key, value)
        case Err => Err
        case Ok(b) => FanStep(b, key, value)
  }

  function Step(st: Scan, item: Item): Result<Scan> {
    match item
    case Divider => Ok(st.(dividers := st.dividers + 1))
    case Row(key, value) => RowStep(st, key, value)
  }

  function Run(st: Scan, items: seq<Item>): Result<Scan>
    decreases items
  {
    if items == [] then Ok(st)
    else
      match Step(st, items[0])
      case Err => Err
      case Ok(next) => Run(next, items[1..])
  }

  /** The parse of a whole text, power supplies still in their table. */
  function FullScan(out: string): Result<Scan> {
    Run(START, Items(Split(out, '\n')))
  }

  /** The uptime row that cannot be read; it is skipped whole. */
  predicate Unreadable(item: Item) {
    item.Row? && HasPrefix(item.key, "uptime") && ParseUptime(item.value).None?
  }

  /** The row that ends the parse: a power, temperature or fan speed that is not a number. */
  predicate Fatal(item: Item) {
    && item.Row? && !Unreadable(item) && ParseFloat(item.value).None?
    && (FieldOf(item.key) in {Power, Temperature} || (FindFan(item.key).Some? && item.value != ""))
  }

  lemma StepFails(st: Scan, item: Item)
    ensures Step(st, item).Err? <==> Fatal(item)
  {
    hide FieldOf, FindFan, FindPsu, ParseFloat, ParseUptime, HasPrefix, StaticField;
  }

  ghost predicate HasFatal(items: seq<Item>) {
    exists i | 0 <= i < |items| :: Fatal(items[i])
  }

  /** The parse fails exactly when some row is fatal, wherever it stands. */
  lemma {:induction false} RunFails(st: Scan, items: seq<Item>)
    ensures Run(st, items).Err? <==> HasFatal(items)
    decreases items
  {
    hide Step, Fatal;
    if items != [] {
      StepFails(st, items[0]);
      if Step(st, items[0]).Ok? {
        RunFails(Step(st, items[0]).value, items[1..]);
        assert forall i | 1 <= i < |items| :: items[i] == items[1..][i - 1];
      }
    }
  }

  ghost predicate ReportOf(r: Report, st: Scan) {
    r.(powerSupplies := []) == st.data.(powerSupplies := []) && Enumerates(r.powerSupplies, st.psus)
  }

  /** The power-supply part of the loop body; `Err` is the early return. */
  method ScanPsu(st: Scan, key: string, value: string) returns (r: Result<Scan>)
    ensures r == PsuStep(st, key, value)
  {
    hide FindPsu, ParseFloat;
    var psuID, psus := st.psuId, st.psus;
    var psu := BLANK_PSU;
    var matchesPSU := FindPsu(key);
    if matchesPSU.Some? {
      psuID := matchesPSU.value;
      psu := psu.(status := value);
    }
    if psu.status == "" && psuID != "" && st.dividers < 4 {
      if psuID in psus {
        psu := psus[psuID];
      }
    }
    if key == "DC power" {
      psu := psu.(dcPower := value);
    }
    if key == "fan status" && st.dividers < 4 {
      psu := psu.(fanStatus := value);
    }
    if key == "power (W)" {
      var powerW := ParseFloat(value);
      if powerW.None? {
        return Err;
      }
      psu := psu.(powerW := powerW);
    }
    if psuID != "" && st.dividers < 4 {
      psus := psus[psuID := psu];
    }
    r := Ok(st.(psuId := psuID, psus := psus));
  }

  /** The temperature and fan parts of the loop body. */
  method ScanTempAndFans(st: Scan, key: string, value: string) returns (r: Result<Scan>)
    ensures r == match TempStep(st, key, value) case Err => Err case Ok(next) => FanStep(next, key, value)
  {
    hide FindFan, ParseFloat;
    var data := st.data;
    if key == "temperature (C)" {
      var temp := ParseFloat(value);
      if temp.None? {
        return Err;
      }
      data := data.(temp := temp);
    }
    if key == "fan status" && st.dividers >= 4 {
      data := data.(fanStatus := value);
    }
    var matchesFan := FindFan(key);
    if matchesFan.Some? {
      var rpm := if value == "" then None else ParseFloat(value);
      if value != "" && rpm.None? {
        return Err;
      }
      data := data.(fans := data.fans + [Fan(matchesFan.value, rpm)]);
    }
    r := Ok(st.(data := data));
  }

  /** The loop body for a `key | value` row. */
  method ScanRow(st: Scan, key: string, value: string) returns (r: Result<Scan>)
    ensures r == RowStep(st, key, value)
  {
    hide PsuStep, TempStep, FanStep, ParseUptime, HasPrefix;
    var data := st.data;
    if key == "part number" {
      data := data.(partNumber := value);
    } else if key == "serial number" {
      data := data.(serialNumber := value);
    } else if key == "PSID" {
      data := data.(psid := value);
    } else if key == "firmware version" {
      data := data.(firmwareVersion := value);
    }
    if HasPrefix(key, "uptime") {
      var uptime := ParseUptime(value);
      if uptime.None? {
        return Ok(st.(data := data));
      }
      data := data.(uptime := uptime.value);
    }
    var afterPsu := ScanPsu(st.(data := data), key, value);
    if afterPsu.Err? {
      return Err;
    }
    r := ScanTempAndFans(afterPsu.value, key, value);
  }

  method ParseIbswinfo(out: string) returns (r: Result<Report>)
    ensures r.Err? <==> HasFatal(Items(Split(out, '\n')))
    ensures r.Ok? <==> FullScan(out).Ok?
    ensures r.Ok? ==> ReportOf(r.value, FullScan(out).value)
  {
    hide RowStep, HasFatal, Trim, HasPrefix;
    RunFails(START, Items(Split(out, '\n')));
    var lines := Split(out, '\n');
    var scan := START;
    var i := 0;
    while i < |lines|
      invariant 0 <= i <= |lines|
      invariant FullScan(out) == Run(scan, Items(lines[i..]))
    {
      var line := lines[i];
      assert lines[i..][1..] == lines[i + 1..];
      UnfoldLine(scan, line, Items(lines[i + 1..]));
      i := i + 1;
      if HasPrefix(line, "-----") {
        scan := scan.(dividers := scan.dividers + 1);
      }
      var l := Split(line, '|');
      if |l| != 2 {
        continue;
      }
      var next := ScanRow(scan, Trim(l[0]), Trim(l[1]));
      if next.Err? {
        return Err;
      }
      scan := next.value;
    }
    var powerSupplies := ListSupplies(scan.psus);
    r := Ok(scan.data.(powerSupplies := powerSupplies));
  }

  /** One line of the text is at most two steps of the scan. */
  lemma UnfoldLine(st: Scan, line: string, rest: seq<Item>)
    ensures
      var columns := Split(line, '|');
      var counted := if HasPrefix(line, "-----") then st.(dividers := st.dividers + 1) else st;
      Run(st, LineItems(line) + rest) ==
      if |columns| != 2 then Run(counted, rest)
      else
        match RowStep(counted, Trim(columns[0]), Trim(columns[1]))
        case Err => Err
        case Ok(next) => Run(next, rest)
  {
    hide RowStep;
    var columns := Split(line, '|');
    var counted := if HasPrefix(line, "-----") then st.(dividers := st.dividers + 1) else st;
    var row := if |columns| == 2 then [Row(Trim(columns[0]), Trim(columns[1]))] else [];
    assert row + rest == if |columns| == 2 then [Row(Trim(columns[0]), Trim(columns[1]))] + rest else rest;
    if HasPrefix(line, "-----") {
      assert LineItems(line) + rest == [Divider] + (row + rest);
    } else {
      assert LineItems(line) + rest == row + rest;
    }
  }
}
