/** The parser of the lighter `ibswinfo -o vitals` output. */
module Vitals {
  import opened Wrappers
  import opened Text
  import opened Numbers
  import opened Ibswinfo

  /** `prefix` digits `suffix`, matching the whole key; gives the digits. */
  function Numbered(key: string, prefix: string, suffix: string): Option<string> {
    if |prefix| + |suffix| < |key| && HasPrefix(key, prefix) && HasSuffix(key, suffix)
       && AllDigits(key[|prefix|..|key| - |suffix|])
    then Some(key[|prefix|..|key| - |suffix|])
    else None
  }

  /** `^psu([0-9]+)\.power \(W\)$` */
  function PsuKey(key: string): Option<string> {
    Numbered(key, "psu", ".power (W)")
  }

  /** `^fan#([0-9]+)\.speed \(rpm\)$` */
  function FanKey(key: string): Option<string> {
    Numbered(key, "fan#", ".speed (rpm)")
  }

  datatype Scan = Scan(psus: PsuTable, data: Report)

  const START := Scan(map[], EMPTY_REPORT)

  function RowStep(st: Scan, key: string, value: string): Scan {
    if key == "uptime (sec)" then
      if ParseFloat(value).Some? then st.(data := st.data.(uptime := ParseFloat(value).value)) else st
    else if key == "cur.temp (C)" then
      if ParseFloat(value).Some? then st.(data := st.data.(temp := ParseFloat(value))) else st
    else if PsuKey(key).Some? then
      var id := PsuKey(key).value;
      st.(psus := st.psus[id := PowerSupply(id, "", "", "", ParseFloat(value))])
    else if FanKey(key).Some? then
      st.(data := st.data.(fans := st.data.fans + [Fan(FanKey(key).value, ParseFloat(value))]))
    else st
  }

  function LineStep(st: Scan, line: string): Scan {
    var cut := FirstIndex(line, ':');
    if cut < 0 then st else RowStep(st, Trim(line[..cut]), Trim(line[cut + 1..]))
  }

  function Run(st: Scan, lines: seq<string>): Scan
    decreases lines
  {
    if lines == [] then st else Run(LineStep(st, lines[0]), lines[1..])
  }

  function VitalsScan(out: string): Scan {
    Run(START, Split(out, '\n'))
  }

  ghost predicate ReportOf(r: Report, st: Scan) {
    r.(powerSupplies := []) == st.data.(powerSupplies := []) && Enumerates(r.powerSupplies, st.psus)
  }

  lemma EmptyIsNoNumber()
    ensures ParseFloat("").None?
  {
    SplitSingle("", '.');
  }

  method ParseVitals(out: string) returns (r: Report)
    ensures ReportOf(r, VitalsScan(out))
  {
    var data := EMPTY_REPORT;
    var psus: PsuTable := map[];
    var fans: seq<Fan> := [];
    var lines := Split(out, '\n');
    EmptyIsNoNumber();
    var i := 0;
    while i < |lines|
      invariant 0 <= i <= |lines|
      invariant VitalsScan(out) == Run(Scan(psus, data.(fans := fans)), lines[i..])
    {
      var line := lines[i];
      assert lines[i..][1..] == lines[i + 1..];
      i := i + 1;
      var cut := FirstIndex(line, ':');
      if cut < 0 {
        continue;
      }
      var key, value := Trim(line[..cut]), Trim(line[cut + 1..]);
      if key == "uptime (sec)" {
        var sec := ParseFloat(value);
        if sec.None? {
          continue;
        }
        data := data.(uptime := sec.value);
        continue;
      } else if key == "cur.temp (C)" {
        var temp := ParseFloat(value);
        if temp.None? {
          continue;
        }
        data := data.(temp := temp);
        continue;
      }
      var m := PsuKey(key);
      if m.Some? {
        var psu := PowerSupply(m.value, "", "", "", None);
        if value != "" {
          psu := psu.(powerW := ParseFloat(value));
        }
        psus := psus[m.value := psu];
        continue;
      }
      m := FanKey(key);
      if m.Some? {
        var fan := Fan(m.value, None);
        if value != "" {
          fan := fan.(rpm := ParseFloat(value));
        }
        fans := fans + [fan];
      }
    }
    var powerSupplies := ListSupplies(psus);
    r := data.(powerSupplies := powerSupplies, fans := fans);
  }
}
