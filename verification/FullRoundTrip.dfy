/** Parsing the full text of a switch gives the switch back. */
module FullRoundTrip {
  import opened Wrappers
  import opened Text
  import opened Numbers
  import opened Ibswinfo
  import opened FullReport
  import opened FullReportProofs
  import opened Hardware
  import Vitals

  // ---------------------------------------------------------------- uptime

  lemma ClockParts(a: string, b: string, c: string)
    requires |a| == |b| == |c| == 2
    ensures
      var s := a + ":" + b + ":" + c;
      && |s| == 8 && s[..2] == a && s[2] == ':' && s[3..5] == b && s[5] == ':' && s[6..8] == c
      && s[2..][0] == ':' && s[2..][1..3] == b && s[2..][3] == ':' && s[2..][4..6] == c && s[2..][6..] == ""
      && s[0] == a[0] && s[1] == a[1]
  {
  }

  lemma ParseClockOfText(h: nat, m: nat, sec: nat)
    requires h < 24 && m < 60 && sec < 60
    ensures
      var s := ClockText(h, m, sec);
      ParseClock(s) == Some((h * 3600 + m * 60 + sec) as real) && '-' !in s && |s| == 8
  {
    hide Dec2, DigitsValue;
    ClockParts(Dec2(h), Dec2(m), Dec2(sec));
  }

  lemma DaysOfText(d: nat)
    ensures ParseFloat(WithoutFirstD(Dec(d) + "d")) == Some(d as real)
    ensures '-' !in Dec(d) + "d"
  {
    var s := Dec(d);
    assert s + "d" == s + ['d'] + "";
    FirstIndexAt(s, 'd', "");
    assert WithoutFirstD(s + "d") == s;
    ParseFloatDigits(s);
  }

  lemma ParseDuration(days: nat, h: nat, m: nat, sec: nat)
    requires h < 24 && m < 60 && sec < 60
    ensures ParseUptime(DurationText(days, h, m, sec)) == Some((days * 86400 + (h * 3600 + m * 60 + sec)) as real)
  {
    hide ParseFloat, ParseClock, Split, WithoutFirstD, Dec, ClockText;
    DaysOfText(days);
    ParseClockOfText(h, m, sec);
    SplitCons(Dec(days) + "d", '-', ClockText(h, m, sec));
    SplitSingle(ClockText(h, m, sec), '-');
    assert days as real * 86400.0 == (days * 86400) as real;
  }

  lemma ClockIsClean(h: nat, m: nat, sec: nat)
    requires h < 24 && m < 60 && sec < 60
    ensures
      var c := ClockText(h, m, sec);
      |c| == 8 && IsDigit(c[7]) && forall i | 0 <= i < |c| :: IsDigit(c[i]) || c[i] == ':'
  {
  }

  lemma DurationIsClean(days: nat, h: nat, m: nat, sec: nat)
    requires h < 24 && m < 60 && sec < 60
    ensures Clean(DurationText(days, h, m, sec))
  {
    hide Dec, ClockText;
    var d, c := Dec(days), ClockText(h, m, sec);
    ClockIsClean(h, m, sec);
    var s := DurationText(days, h, m, sec);
    assert s[0] == d[0] && s[|s| - 1] == c[7];
  }

  lemma SecondsOf(n: nat)
    ensures n / 86400 * 86400 + (n % 86400 / 3600 * 3600 + n % 3600 / 60 * 60 + n % 60) == n
  {
    var hours, minutes := n / 3600, n / 60;
    assert n % 86400 / 3600 == hours % 24 && n / 86400 == hours / 24;
    assert n % 3600 / 60 == minutes % 60 && hours == minutes / 60;
  }

  /** The `d-h:m:s` form means the same number of seconds as the plain form, for every uptime. */
  lemma UptimeRoundTrip(n: nat)
    ensures ParseUptime(UptimeText(n)) == Some(n as real)
    ensures ParseFloat(Dec(n)) == Some(n as real)
    ensures Clean(UptimeText(n))
  {
    hide ParseFloat, ParseUptime, DurationText, Clean, Dec;
    SecondsOf(n);
    ParseDuration(n / 86400, n % 86400 / 3600, n % 3600 / 60, n % 60);
    DurationIsClean(n / 86400, n % 86400 / 3600, n % 3600 / 60, n % 60);
    DecRoundTrip(n);
  }

  // ---------------------------------------------------------------- lines

  function RunLines(st: Scan, lines: seq<string>): Result<Scan> {
    Run(st, Items(lines))
  }

  lemma {:induction false} ItemsAppend(a: seq<string>, b: seq<string>)
    ensures Items(a + b) == Items(a) + Items(b)
    decreases a
  {
    if a == [] {
      assert a + b == b;
    } else {
      assert (a + b)[1..] == a[1..] + b;
      ItemsAppend(a[1..], b);
    }
  }

  lemma RunLinesAppend(st: Scan, a: seq<string>, b: seq<string>)
    ensures RunLines(st, a + b) == match RunLines(st, a) case Err => Err case Ok(mid) => RunLines(mid, b)
  {
    hide Run, Items;
    ItemsAppend(a, b);
    RunAppend(st, Items(a), Items(b));
  }

  lemma CellItems(indent: nat, key: string, value: string)
    requires Clean(key) && key != "" && key[0] != '-' && Clean(value)
    ensures LineItems(Cell(indent, key, value)) == [Row(key, value)]
  {
    var width := indent + |key|;
    var gap := Spaces(if width < 19 then 19 - width else 1);
    var l, r := Spaces(indent) + key + gap, " " + value;
    assert Cell(indent, key, value) == l + ['|'] + r;
    assert Cell(indent, key, value)[0] != '-';
    SplitCons(l, '|', r);
    SplitSingle(r, '|');
    TrimPadded(Spaces(indent), key, gap);
    assert r == " " + value + "";
    TrimPadded(" ", value, "");
  }

  lemma RunLine(st: Scan, line: string)
    ensures RunLines(st, [line]) == Run(st, LineItems(line))
  {
    hide LineItems, Run;
    assert [line][1..] == [];
    assert Items([line]) == LineItems(line) + [];
    assert LineItems(line) + [] == LineItems(line);
  }

  lemma RunCell(st: Scan, indent: nat, key: string, value: string)
    requires Clean(key) && key != "" && key[0] != '-' && Clean(value)
    ensures RunLines(st, [Cell(indent, key, value)]) == RowStep(st, key, value)
  {
    hide RowStep;
    CellItems(indent, key, value);
    RunLine(st, Cell(indent, key, value));
    assert [Row(key, value)][1..] == [];
  }

  lemma DashItems()
    ensures LineItems(Dashes()) == [Divider]
  {
    hide Split, Dashes;
    var line := Dashes();
    assert line[..5] == "-----";
    SplitSingle(line, '|');
  }

  lemma RunDashes(st: Scan)
    ensures RunLines(st, [Dashes()]) == Ok(st.(dividers := st.dividers + 1))
  {
    hide LineItems, RowStep, RunLines, Dashes;
    DashItems();
    RunLine(st, Dashes());
    assert [Divider][1..] == [];
  }

  // ---------------------------------------------------------------- rows by kind

  lemma {:induction false} NoFanWithoutHash(key: string)
    requires '#' !in key
    ensures FindFan(key).None?
  {
    if |key| >= 5 {
      assert key[3] != '#';
      NoFanWithoutHash(key[1..]);
    }
  }

  /** Neither a header, nor a fan, nor an uptime row. */
  predicate PlainKey(key: string) {
    FindPsu(key).None? && FindFan(key).None? && !HasPrefix(key, "uptime")
  }

  lemma PlainIf(key: string)
    requires 'U' !in key && '#' !in key && key != "" && key[0] != 'u'
    ensures PlainKey(key)
  {
    NoPsuWithoutU(key);
    NoFanWithoutHash(key);
  }

  /** A field name as it stands in a row. */
  predicate NameOf(key: string, field: Field) {
    FieldOf(key) == field && PlainKey(key) && Clean(key) && key != "" && key[0] != '-'
  }

  lemma PartNumberName()
    ensures NameOf("part number", PartNumber)
  {
    hide FindPsu, FindFan;
    PlainIf("part number");
  }

  lemma SerialNumberName()
    ensures NameOf("serial number", SerialNumber)
  {
    hide FindPsu, FindFan;
    PlainIf("serial number");
  }

  lemma PsidName()
    ensures NameOf("PSID", Psid)
  {
    hide FindPsu, FindFan;
    PlainIf("PSID");
  }

  lemma FirmwareVersionName()
    ensures NameOf("firmware version", FirmwareVersion)
  {
    hide FindPsu, FindFan;
    PlainIf("firmware version");
  }

  lemma DcPowerName()
    ensures NameOf("DC power", DcPower)
  {
    hide FindPsu, FindFan;
    PlainIf("DC power");
  }

  lemma FanStatusName()
    ensures NameOf("fan status", FanStatus)
  {
    hide FindPsu, FindFan;
    PlainIf("fan status");
  }

  lemma PowerName()
    ensures NameOf("power (W)", Power)
  {
    hide FindPsu, FindFan;
    PlainIf("power (W)");
  }

  lemma TemperatureName()
    ensures NameOf("temperature (C)", Temperature)
  {
    hide FindPsu, FindFan;
    PlainIf("temperature (C)");
  }

  /** The open record exists: an invariant of the scan before the fourth divider. */
  predicate Open(st: Scan) {
    st.psuId != "" && st.dividers < 4 ==> st.psuId in st.psus
  }

  lemma PlainRow(st: Scan, key: string, value: string)
    requires PlainKey(key) && Open(st) && FieldOf(key) !in {DcPower, FanStatus, Power, Temperature}
    ensures RowStep(st, key, value) == Ok(st.(data := StaticField(st.data, FieldOf(key), value)))
  {
    hide FindPsu, FindFan, FieldOf, ParseFloat, ParseUptime, HasPrefix;
    if st.psuId != "" && st.dividers < 4 {
      assert st.psus[st.psuId := st.psus[st.psuId]] == st.psus;
    }
  }

  lemma PsuRow(st: Scan, key: string, value: string)
    requires PlainKey(key) && FieldOf(key) in {DcPower, FanStatus, Power} && Open(st) && st.psuId != ""
    requires st.dividers < 4
    requires FieldOf(key).Power? ==> ParseFloat(value).Some?
    ensures
      var psu := st.psus[st.psuId];
      RowStep(st, key, value) == Ok(st.(psus := st.psus[st.psuId :=
        if FieldOf(key).DcPower? then psu.(dcPower := value)
        else if FieldOf(key).FanStatus? then psu.(fanStatus := value)
        else psu.(powerW := ParseFloat(value))]))
  {
    hide FindPsu, FindFan, FieldOf, ParseFloat, ParseUptime, HasPrefix;
  }

  lemma TemperatureRow(st: Scan, key: string, value: string)
    requires PlainKey(key) && FieldOf(key).Temperature? && Open(st) && ParseFloat(value).Some?
    ensures RowStep(st, key, value) == Ok(st.(data := st.data.(temp := ParseFloat(value))))
  {
    hide FindPsu, FindFan, FieldOf, ParseFloat, ParseUptime, HasPrefix;
    if st.psuId != "" && st.dividers < 4 {
      assert st.psus[st.psuId := st.psus[st.psuId]] == st.psus;
    }
  }

  lemma ChassisFanRow(st: Scan, key: string, value: string)
    requires PlainKey(key) && FieldOf(key).FanStatus? && st.dividers >= 4
    ensures RowStep(st, key, value) == Ok(st.(data := st.data.(fanStatus := value)))
  {
    hide FindPsu, FindFan, FieldOf, ParseFloat, ParseUptime, HasPrefix;
  }

  lemma UptimeKey()
    ensures
      var key := "uptime (d-h:m:s)";
      && FindPsu(key).None? && FindFan(key).None? && HasPrefix(key, "uptime") && FieldOf(key).Other?
      && Clean(key) && key[0] != '-'
  {
    hide FindPsu, FindFan;
    var key := "uptime (d-h:m:s)";
    NoPsuWithoutU(key);
    NoFanWithoutHash(key);
    assert key[..6] == "uptime";
    OtherField(key);
  }

  /** No field name starts with any of these. */
  lemma OtherField(key: string)
    requires key != "" && key[0] in ['u', 'f'] && (key[0] == 'f' ==> |key| > 3 && key[3] == '#')
    ensures FieldOf(key).Other?
  {
  }

  lemma UptimeRow(st: Scan, n: nat)
    requires Open(st)
    ensures RowStep(st, "uptime (d-h:m:s)", UptimeText(n)) == Ok(st.(data := st.data.(uptime := n as real)))
  {
    hide FindPsu, FindFan, FieldOf, ParseFloat, ParseUptime, HasPrefix, UptimeText;
    var key := "uptime (d-h:m:s)";
    UptimeRoundTrip(n);
    UptimeKey();
    if st.psuId != "" && st.dividers < 4 {
      assert st.psus[st.psuId := st.psus[st.psuId]] == st.psus;
    }
  }

  lemma HeaderKey(id: string)
    requires |id| == 1 && IsDigit(id[0])
    ensures
      var key := "PSU" + id + " status";
      FindPsu(key) == Some(id) && FindFan(key).None? && !HasPrefix(key, "uptime") && Clean(key) && key[0] != '-'
  {
    var key := "PSU" + id + " status";
    assert key[0] == 'P' && key[3] == id[0] && [key[3]] == id && key[4..] == " status";
    NoFanWithoutHash(key);
  }

  lemma HeaderRow(st: Scan, id: string, status: string)
    requires |id| == 1 && IsDigit(id[0]) && id !in st.psus && st.dividers < 4
    ensures RowStep(st, "PSU" + id + " status", status) ==
      Ok(st.(psuId := id, psus := st.psus[id := BLANK_PSU.(status := status)]))
  {
    HeaderKey(id);
    var key := "PSU" + id + " status";
    assert key[0] == 'P';
  }

  lemma FanKeyIsClean(id: string)
    requires id != "" && AllDigits(id)
    ensures Clean("fan#" + id + " (rpm)")
  {
  }

  lemma FanKeyFound(id: string)
    requires id != "" && AllDigits(id)
    ensures
      var key := "fan#" + id + " (rpm)";
      FindFan(key) == Some(id) && FindPsu(key).None? && !HasPrefix(key, "uptime") && Clean(key) && key[0] != '-'
  {
    hide FindPsu, LeadingDigits, Clean;
    var key := "fan#" + id + " (rpm)";
    FanKeyIsClean(id);
    assert key[0] == 'f' && key[4..] == id + " (rpm)" && key[4] == id[0];
    LeadingDigitsAre(id, " (rpm)");
    NoPsuWithoutU(key);
  }

  lemma FanRow(st: Scan, f: FanReading)
    requires ValidFan(f) && ReadableFan(f) && st.dividers >= 4
    ensures RowStep(st, "fan#" + f.id + " (rpm)", f.rpm) ==
      Ok(st.(data := st.data.(fans := st.data.fans + [Fan(f.id, ParseFloat(f.rpm))])))
  {
    hide FindPsu, FindFan, FieldOf, ParseFloat, ParseUptime, HasPrefix;
    FanKeyFound(f.id);
    Vitals.EmptyIsNoNumber();
    var key := "fan#" + f.id + " (rpm)";
    assert key[3] == '#';
    OtherField(key);
  }

  // ---------------------------------------------------------------- sections

  lemma RunStaticCell(st: Scan, key: string, field: Field, value: Option<string>)
    requires NameOf(key, field) && field in {PartNumber, SerialNumber, Psid, FirmwareVersion}
    requires Open(st) && CleanOption(value)
    ensures RunLines(st, OptCell(0, key, value)) ==
      Ok(if value.Some? then st.(data := StaticField(st.data, field, value.value)) else st)
  {
    hide RowStep, PlainKey, FieldOf, Cell, Clean;
    if value.Some? {
      RunCell(st, 0, key, value.value);
      PlainRow(st, key, value.value);
    }
  }

  lemma RunStatics(st: Scan, s: Switch)
    requires Valid(s) && Open(st)
    ensures RunLines(st, StaticLines(s)) == Ok(st.(data := st.data.(
      partNumber := s.partNumber.GetOr(st.data.partNumber), serialNumber := s.serialNumber.GetOr(st.data.serialNumber),
      psid := s.psid.GetOr(st.data.psid), firmwareVersion := s.firmwareVersion.GetOr(st.data.firmwareVersion))))
  {
    hide RunLines, OptCell, NameOf, ValidPsu, ValidFan, CleanOption;
    PartNumberName();
    SerialNumberName();
    PsidName();
    FirmwareVersionName();
    var a, b, c, d := OptCell(0, "part number", s.partNumber), OptCell(0, "serial number", s.serialNumber),
      OptCell(0, "PSID", s.psid), OptCell(0, "firmware version", s.firmwareVersion);
    RunStaticCell(st, "part number", PartNumber, s.partNumber);
    var st1 := RunLines(st, a).value;
    RunStaticCell(st1, "serial number", SerialNumber, s.serialNumber);
    RunLinesAppend(st, a, b);
    var st2 := RunLines(st, a + b).value;
    RunStaticCell(st2, "PSID", Psid, s.psid);
    RunLinesAppend(st, a + b, c);
    RunStaticCell(RunLines(st, a + b + c).value, "firmware version", FirmwareVersion, s.firmwareVersion);
    RunLinesAppend(st, a + b + c, d);
  }

  lemma RunUptime(st: Scan, s: Switch)
    requires Open(st)
    ensures RunLines(st, UptimeLines(s)) ==
      Ok(if s.uptime.Some? then st.(data := st.data.(uptime := s.uptime.value as real)) else st)
  {
    hide RowStep, Cell, UptimeText, FindPsu, FindFan, FieldOf, HasPrefix, Clean;
    if s.uptime.Some? {
      var n := s.uptime.value;
      UptimeKey();
      UptimeRoundTrip(n);
      RunCell(st, 0, "uptime (d-h:m:s)", UptimeText(n));
      UptimeRow(st, n);
    }
  }

  lemma RunTemperature(st: Scan, value: Option<string>)
    requires Open(st) && CleanOption(value) && ReadableOption(value)
    ensures RunLines(st, OptCell(0, "temperature (C)", value)) ==
      Ok(if value.Some? then st.(data := st.data.(temp := ParseFloat(value.value))) else st)
  {
    hide RowStep, PlainKey, FieldOf, Cell, ParseFloat, Clean;
    if value.Some? {
      TemperatureName();
      RunCell(st, 0, "temperature (C)", value.value);
      TemperatureRow(st, "temperature (C)", value.value);
    }
  }

  lemma RunChassisFan(st: Scan, value: Option<string>)
    requires st.dividers >= 4 && CleanOption(value)
    ensures RunLines(st, OptCell(0, "fan status", value)) ==
      Ok(if value.Some? then st.(data := st.data.(fanStatus := value.value)) else st)
  {
    hide RowStep, PlainKey, FieldOf, Cell, Clean;
    if value.Some? {
      FanStatusName();
      RunCell(st, 0, "fan status", value.value);
      ChassisFanRow(st, "fan status", value.value);
    }
  }

  /** One optional row of a power supply that is open. */
  lemma RunPsuCell(st: Scan, key: string, field: Field, value: Option<string>)
    requires NameOf(key, field) && field in {DcPower, FanStatus, Power}
    requires st.psuId != "" && st.psuId in st.psus && st.dividers < 4
    requires CleanOption(value) && (field.Power? ==> ReadableOption(value))
    ensures
      var psu := st.psus[st.psuId];
      RunLines(st, OptCell(5, key, value)) == Ok(st.(psus := st.psus[st.psuId :=
        if value.None? then psu
        else if field.DcPower? then psu.(dcPower := value.value)
        else if field.FanStatus? then psu.(fanStatus := value.value)
        else psu.(powerW := ParseFloat(value.value))]))
  {
    hide RowStep, PlainKey, FieldOf, Cell, Clean, ParseFloat;
    if value.Some? {
      RunCell(st, 5, key, value.value);
      PsuRow(st, key, value.value);
    } else {
      assert st.psus == st.psus[st.psuId := st.psus[st.psuId]];
    }
  }

  lemma RunHeaderCell(st: Scan, p: Psu)
    requires ValidPsu(p) && p.id !in st.psus && st.dividers < 4
    ensures RunLines(st, [Cell(0, "PSU" + p.id + " status", p.status)]) ==
      Ok(st.(psuId := p.id, psus := st.psus[p.id := BLANK_PSU.(status := p.status)]))
  {
    hide RowStep, FindPsu, FindFan, HasPrefix, Cell, Clean;
    HeaderKey(p.id);
    RunCell(st, 0, "PSU" + p.id + " status", p.status);
    HeaderRow(st, p.id, p.status);
  }

  lemma RunPsu(st: Scan, p: Psu)
    requires ValidPsu(p) && ReadableOption(p.power) && p.id !in st.psus && st.dividers < 4
    ensures RunLines(st, PsuLines(p)) == Ok(st.(psuId := p.id, psus := st.psus[p.id := Record(p)]))
  {
    hide RunLines, OptCell, Cell, NameOf, CleanOption, ReadableOption, ParseFloat;
    DcPowerName();
    FanStatusName();
    PowerName();
    var h, a, b, c := [Cell(0, "PSU" + p.id + " status", p.status)], OptCell(5, "DC power", p.dcPower),
      OptCell(5, "fan status", p.fanStatus), OptCell(5, "power (W)", p.power);
    RunHeaderCell(st, p);
    RunPsuCell(RunLines(st, h).value, "DC power", DcPower, p.dcPower);
    RunLinesAppend(st, h, a);
    RunPsuCell(RunLines(st, h + a).value, "fan status", FanStatus, p.fanStatus);
    RunLinesAppend(st, h + a, b);
    RunPsuCell(RunLines(st, h + a + b).value, "power (W)", Power, p.power);
    RunLinesAppend(st, h + a + b, c);
    var end := RunLines(st, PsuLines(p)).value;
    assert end.psus == st.psus[p.id := Record(p)];
  }

  lemma {:induction false} RunPsus(st: Scan, psus: seq<Psu>)
    requires st.psus == map[] && st.psuId == "" && st.dividers < 4
    requires forall i | 0 <= i < |psus| :: ValidPsu(psus[i]) && ReadableOption(psus[i].power)
    requires forall i, j | 0 <= i < j < |psus| :: psus[i].id != psus[j].id
    ensures RunLines(st, AllPsuLines(psus)) ==
      Ok(st.(psuId := if psus == [] then "" else psus[|psus| - 1].id, psus := Table(psus)))
    ensures psus != [] ==> psus[|psus| - 1].id in Table(psus)
  {
    hide RunLines, PsuLines, ValidPsu, ReadableOption, Record;
    if psus == [] {
      RunNothing(st);
    } else {
      var n := |psus| - 1;
      RunPsus(st, psus[..n]);
      TableOf(psus[..n], psus[n].id);
      RunPsu(RunLines(st, AllPsuLines(psus[..n])).value, psus[n]);
      RunLinesAppend(st, AllPsuLines(psus[..n]), PsuLines(psus[n]));
    }
  }

  lemma RunNothing(st: Scan)
    ensures RunLines(st, []) == Ok(st)
  {
  }

  lemma {:induction false} RunFans(st: Scan, fans: seq<FanReading>)
    requires st.dividers >= 4 && forall i | 0 <= i < |fans| :: ValidFan(fans[i]) && ReadableFan(fans[i])
    ensures RunLines(st, FanLines(fans)) == Ok(st.(data := st.data.(fans := st.data.fans + FanList(fans))))
  {
    hide RunLines, Cell, ParseFloat;
    if fans == [] {
      RunNothing(st);
      assert st.data.fans + FanList([]) == st.data.fans;
    } else {
      var n := |fans| - 1;
      var f := fans[n];
      RunFans(st, fans[..n]);
      var mid := RunLines(st, FanLines(fans[..n])).value;
      var line := Cell(0, "fan#" + f.id + " (rpm)", f.rpm);
      RunFanCell(mid, f);
      RunLinesAppend(st, FanLines(fans[..n]), [line]);
      assert FanList(fans) == FanList(fans[..n]) + [Fan(f.id, ParseFloat(f.rpm))];
      assert st.data.fans + FanList(fans) == mid.data.fans + [Fan(f.id, ParseFloat(f.rpm))];
    }
  }

  lemma RunFanCell(st: Scan, f: FanReading)
    requires ValidFan(f) && ReadableFan(f) && st.dividers >= 4
    ensures RunLines(st, [Cell(0, "fan#" + f.id + " (rpm)", f.rpm)]) ==
      Ok(st.(data := st.data.(fans := st.data.fans + [Fan(f.id, ParseFloat(f.rpm))])))
  {
    hide RowStep, FindPsu, FindFan, HasPrefix, Cell, ParseFloat;
    FanKeyFound(f.id);
    RunCell(st, 0, "fan#" + f.id + " (rpm)", f.rpm);
    FanRow(st, f);
  }

  // ---------------------------------------------------------------- the round trip

  lemma HeadRoundTrip(s: Switch)
    requires Valid(s)
    ensures RunLines(START, HeadLines(s)) == Ok(START.(dividers := 2, data := EMPTY_REPORT.(
      partNumber := s.partNumber.GetOr(""), serialNumber := s.serialNumber.GetOr(""), psid := s.psid.GetOr(""),
      firmwareVersion := s.firmwareVersion.GetOr(""),
      uptime := if s.uptime.Some? then s.uptime.value as real else 0.0)))
  {
    hide RunLines, StaticLines, UptimeLines, OptCell, Dashes, ValidPsu, ValidFan, CleanOption;
    var line, a, b := [Dashes()], StaticLines(s), UptimeLines(s);
    RunStatics(START, s);
    RunDashes(RunLines(START, a).value);
    RunLinesAppend(START, a, line);
    RunUptime(RunLines(START, a + line).value, s);
    RunLinesAppend(START, a + line, b);
    RunDashes(RunLines(START, a + line + b).value);
    RunLinesAppend(START, a + line + b, line);
  }

  lemma TailRoundTrip(st: Scan, s: Switch)
    requires Valid(s) && Readable(s) && st.dividers == 3 && Open(st)
    ensures RunLines(st, TailLines(s)) == Ok(st.(dividers := 5, data := st.data.(
      temp := if s.temp.Some? then ParseFloat(s.temp.value) else st.data.temp,
      fanStatus := s.fanStatus.GetOr(st.data.fanStatus), fans := st.data.fans + FanList(s.fans))))
  {
    hide RunLines, FanLines, OptCell, Dashes, ParseFloat, ValidPsu, ValidFan, CleanOption, ReadableOption, FanList;
    var line, a, b, c := [Dashes()], OptCell(0, "temperature (C)", s.temp), OptCell(0, "fan status", s.fanStatus),
      FanLines(s.fans);
    RunTemperature(st, s.temp);
    RunDashes(RunLines(st, a).value);
    RunLinesAppend(st, a, line);
    RunChassisFan(RunLines(st, a + line).value, s.fanStatus);
    RunLinesAppend(st, a + line, b);
    RunFans(RunLines(st, a + line + b).value, s.fans);
    RunLinesAppend(st, a + line + b, c);
    RunDashes(RunLines(st, a + line + b + c).value);
    RunLinesAppend(st, a + line + b + c, line);
  }

  /** Parsing the printed report of any switch state whose readings are numbers gives exactly that state. */
  lemma FullLinesRoundTrip(s: Switch)
    requires Valid(s) && Readable(s)
    ensures
      var end := RunLines(START, FullLines(s));
      end.Ok? && end.value.data == Expected(s) && end.value.psus == Table(s.psus)
  {
    hide RunLines, HeadLines, AllPsuLines, TailLines, Dashes, ParseFloat, ValidPsu, ValidFan, CleanOption,
      ReadableOption, FanList, Table;
    var head, psus, line, tail := HeadLines(s), AllPsuLines(s.psus), [Dashes()], TailLines(s);
    HeadRoundTrip(s);
    var s1 := RunLines(START, head).value;
    RunPsus(s1, s.psus);
    var s2 := RunLines(s1, psus).value;
    RunDashes(s2);
    TailRoundTrip(RunLines(s2, line).value, s);
    RunLinesAppend(s2, line, tail);
    RunLinesAppend(s1, psus, line + tail);
    RunLinesAppend(START, head, psus + (line + tail));
    assert [] + FanList(s.fans) == FanList(s.fans);
  }

  // ---------------------------------------------------------------- readings that are no numbers

  lemma FatalTemperature(value: string)
    requires Clean(value) && ParseFloat(value).None?
    ensures LineItems(Cell(0, "temperature (C)", value)) == [Row("temperature (C)", value)]
    ensures Fatal(Row("temperature (C)", value))
  {
    hide LineItems, Clean, FindPsu, FindFan, ParseUptime, HasPrefix, ParseFloat, Cell;
    TemperatureName();
    CellItems(0, "temperature (C)", value);
  }

  lemma FatalPower(value: string)
    requires Clean(value) && ParseFloat(value).None?
    ensures LineItems(Cell(5, "power (W)", value)) == [Row("power (W)", value)] && Fatal(Row("power (W)", value))
  {
    hide LineItems, Clean, FindPsu, FindFan, ParseUptime, HasPrefix, ParseFloat, Cell;
    PowerName();
    CellItems(5, "power (W)", value);
  }

  lemma FatalFan(f: FanReading)
    requires ValidFan(f) && !ReadableFan(f)
    ensures
      var row := Row("fan#" + f.id + " (rpm)", f.rpm);
      LineItems(Cell(0, row.key, f.rpm)) == [row] && Fatal(row)
  {
    hide LineItems, Clean, FindPsu, FindFan, ParseUptime, HasPrefix, ParseFloat, Cell;
    FanKeyFound(f.id);
    CellItems(0, "fan#" + f.id + " (rpm)", f.rpm);
  }

  lemma {:induction false} PowerLineIn(psus: seq<Psu>, i: nat)
    requires i < |psus| && psus[i].power.Some?
    ensures Cell(5, "power (W)", psus[i].power.value) in AllPsuLines(psus)
  {
    hide Cell;
    var n := |psus| - 1;
    if i < n {
      PowerLineIn(psus[..n], i);
    } else {
      assert PsuLines(psus[n])[|PsuLines(psus[n])| - 1] == Cell(5, "power (W)", psus[i].power.value);
    }
  }

  lemma {:induction false} FanLineIn(fans: seq<FanReading>, i: nat)
    requires i < |fans|
    ensures Cell(0, "fan#" + fans[i].id + " (rpm)", fans[i].rpm) in FanLines(fans)
  {
    hide Cell;
    if i < |fans| - 1 {
      FanLineIn(fans[..|fans| - 1], i);
    }
  }

  /** A reading that is not a number is printed as a fatal row. */
  lemma UnreadablePrintsFatal(s: Switch) returns (line: string, item: Item)
    requires Valid(s) && !Readable(s)
    ensures line in FullLines(s) && LineItems(line) == [item] && Fatal(item)
  {
    hide LineItems, Fatal, Cell, ParseFloat, Clean, AllPsuLines, FanLines, HeadLines;
    if !ReadableOption(s.temp) {
      FatalTemperature(s.temp.value);
      line, item := Cell(0, "temperature (C)", s.temp.value), Row("temperature (C)", s.temp.value);
      assert line in OptCell(0, "temperature (C)", s.temp);
    } else if i :| 0 <= i < |s.psus| && !ReadableOption(s.psus[i].power) {
      var value := s.psus[i].power.value;
      assert ValidPsu(s.psus[i]);
      FatalPower(value);
      PowerLineIn(s.psus, i);
      line, item := Cell(5, "power (W)", value), Row("power (W)", value);
    } else {
      var i :| 0 <= i < |s.fans| && !ReadableFan(s.fans[i]);
      FatalFan(s.fans[i]);
      FanLineIn(s.fans, i);
      var key := "fan#" + s.fans[i].id + " (rpm)";
      line, item := Cell(0, key, s.fans[i].rpm), Row(key, s.fans[i].rpm);
    }
  }
}
