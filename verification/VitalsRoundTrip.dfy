/** What the vitals parser makes of any text, and of the text a given switch state prints. */
module VitalsRoundTrip {
  import opened Wrappers
  import opened Text
  import opened Numbers
  import opened Ibswinfo
  import opened Vitals
  import opened Hardware

  lemma {:induction false} RunAppend(st: Scan, a: seq<string>, b: seq<string>)
    ensures Run(st, a + b) == Run(Run(st, a), b)
    decreases a
  {
    hide LineStep;
    if a == [] {
      assert a + b == b;
    } else {
      assert (a + b)[1..] == a[1..] + b;
      RunAppend(LineStep(st, a[0]), a[1..], b);
    }
  }

  lemma RunOne(st: Scan, line: string)
    ensures Run(st, [line]) == LineStep(st, line)
  {
    hide LineStep;
    assert [line][1..] == [];
  }

  // ---------------------------------------------------------------- any text

  /** The key and value of a line with a colon. */
  function KeyValue(line: string): Option<(string, string)> {
    var cut := FirstIndex(line, ':');
    if cut < 0 then None else Some((Trim(line[..cut]), Trim(line[cut + 1..])))
  }

  /** A power supply or a fan is listed by exactly these keys. */
  lemma KeysAreExact(key: string, id: string)
    ensures PsuKey(key) == Some(id) <==> id != "" && AllDigits(id) && key == "psu" + id + ".power (W)"
    ensures FanKey(key) == Some(id) <==> id != "" && AllDigits(id) && key == "fan#" + id + ".speed (rpm)"
  {
    hide Numbered;
    NumberedIff(key, "psu", id, ".power (W)");
    NumberedIff(key, "fan#", id, ".speed (rpm)");
  }

  lemma NumberedIff(key: string, prefix: string, id: string, suffix: string)
    ensures Numbered(key, prefix, suffix) == Some(id) <==> id != "" && AllDigits(id) && key == prefix + id + suffix
  {
    if Numbered(key, prefix, suffix) == Some(id) {
      assert key == key[..|prefix|] + key[|prefix|..|key| - |suffix|] + key[|key| - |suffix|..];
    }
    if id != "" && AllDigits(id) && key == prefix + id + suffix {
      NumberedKey(prefix, id, suffix);
    }
  }

  /** The last line with this key whose value is a number. */
  function LastNumber(lines: seq<string>, key: string): Option<real> {
    if lines == [] then None
    else
      var n := |lines| - 1;
      match KeyValue(lines[n])
      case Some((k, v)) => if k == key && ParseFloat(v).Some? then ParseFloat(v) else LastNumber(lines[..n], key)
      case None => LastNumber(lines[..n], key)
  }

  /** The value of the last line for this power supply. */
  function LastPower(lines: seq<string>, id: string): Option<string> {
    if lines == [] then None
    else
      var n := |lines| - 1;
      match KeyValue(lines[n])
      case Some((k, v)) => if PsuKey(k) == Some(id) then Some(v) else LastPower(lines[..n], id)
      case None => LastPower(lines[..n], id)
  }

  /** The fan lines, in order. */
  function FansIn(lines: seq<string>): seq<Fan> {
    if lines == [] then []
    else
      var n := |lines| - 1;
      FansIn(lines[..n])
      + (match KeyValue(lines[n])
         case Some((k, v)) => if FanKey(k).Some? then [Fan(FanKey(k).value, ParseFloat(v))] else []
         case None => [])
  }

  /** Each key belongs to one kind of line. */
  lemma KeysDiffer(key: string)
    ensures key == "uptime (sec)" || key == "cur.temp (C)" ==> PsuKey(key).None? && FanKey(key).None?
    ensures PsuKey(key).Some? ==> FanKey(key).None?
  {
    assert PsuKey(key).Some? ==> key[..3][0] == 'p';
    assert FanKey(key).Some? ==> key[..4][0] == 'f';
  }

  /** Any vitals text: uptime and temperature are the last numbers, a power supply its last line, the fans all lines. */
  lemma {:induction false} VitalsAreLastLines(lines: seq<string>)
    ensures
      var end := Run(START, lines);
      && end.data == EMPTY_REPORT.(uptime := LastNumber(lines, "uptime (sec)").GetOr(0.0),
           temp := LastNumber(lines, "cur.temp (C)"), fans := FansIn(lines))
      && (forall id :: id in end.psus <==> LastPower(lines, id).Some?)
      && forall id <- end.psus ::
           end.psus[id] == PowerSupply(id, "", "", "", ParseFloat(LastPower(lines, id).value))
  {
    hide Run, KeyValue, PsuKey, FanKey, ParseFloat, RowStep;
    if lines == [] {
      RunNothing(START);
    } else {
      var n := |lines| - 1;
      var line := lines[n];
      assert lines == lines[..n] + [line];
      VitalsAreLastLines(lines[..n]);
      RunAppend(START, lines[..n], [line]);
      RunOne(Run(START, lines[..n]), line);
      LineStepIs(Run(START, lines[..n]), line);
      if KeyValue(line).Some? {
        KeysDiffer(KeyValue(line).value.0);
        RowStepIs(Run(START, lines[..n]), KeyValue(line).value.0, KeyValue(line).value.1);
      }
    }
  }

  lemma LineStepIs(st: Scan, line: string)
    ensures LineStep(st, line) == match KeyValue(line) case None => st case Some((k, v)) => RowStep(st, k, v)
  {
    hide RowStep, Trim;
  }

  /** What one row does to each part. */
  lemma RowStepIs(st: Scan, key: string, value: string)
    ensures
      var next := RowStep(st, key, value);
      && next.psus == (if PsuKey(key).Some?
           then st.psus[PsuKey(key).value := PowerSupply(PsuKey(key).value, "", "", "", ParseFloat(value))]
           else st.psus)
      && next.data == st.data.(
           uptime := if key == "uptime (sec)" && ParseFloat(value).Some? then ParseFloat(value).value
             else st.data.uptime,
           temp := if key == "cur.temp (C)" && ParseFloat(value).Some? then ParseFloat(value) else st.data.temp,
           fans := st.data.fans + if FanKey(key).Some? then [Fan(FanKey(key).value, ParseFloat(value))] else [])
  {
    hide PsuKey, FanKey, ParseFloat;
    KeysDiffer(key);
  }

  // ---------------------------------------------------------------- printed lines

  lemma RunCell(st: Scan, key: string, value: string)
    requires Clean(key) && ':' !in key && Clean(value)
    ensures Run(st, [VitalsCell(key, value)]) == RowStep(st, key, value)
  {
    hide RowStep, Trim, Run;
    var gap := Spaces(if |key| < 19 then 19 - |key| else 1);
    var line := VitalsCell(key, value);
    RunOne(st, line);
    assert line == (key + gap) + [':'] + (" " + value);
    FirstIndexAt(key + gap, ':', " " + value);
    assert line[..|key + gap|] == "" + key + gap && line[|key + gap| + 1..] == " " + value + "";
    TrimPadded("", key, gap);
    TrimPadded(" ", value, "");
  }

  lemma NumberedKey(prefix: string, id: string, suffix: string)
    requires id != "" && AllDigits(id)
    ensures Numbered(prefix + id + suffix, prefix, suffix) == Some(id)
  {
    var key := prefix + id + suffix;
    assert key[..|prefix|] == prefix && key[|key| - |suffix|..] == suffix;
    assert key[|prefix|..|key| - |suffix|] == id;
  }

  lemma PsuKeyIs(id: string)
    requires id != "" && AllDigits(id)
    ensures
      var key := "psu" + id + ".power (W)";
      PsuKey(key) == Some(id) && Clean(key) && ':' !in key && key != "" && key[0] == 'p'
  {
    hide Numbered;
    NumberedKey("psu", id, ".power (W)");
  }

  lemma FanKeyIs(id: string)
    requires id != "" && AllDigits(id)
    ensures
      var key := "fan#" + id + ".speed (rpm)";
      FanKey(key) == Some(id) && PsuKey(key).None? && Clean(key) && ':' !in key && key != "" && key[0] == 'f'
  {
    NumberedKey("fan#", id, ".speed (rpm)");
    var key := "fan#" + id + ".speed (rpm)";
    assert key[0] == 'f';
  }

  lemma FanRow(st: Scan, id: string, value: string)
    requires id != "" && AllDigits(id)
    ensures RowStep(st, "fan#" + id + ".speed (rpm)", value) ==
      st.(data := st.data.(fans := st.data.fans + [Fan(id, ParseFloat(value))]))
  {
    hide PsuKey, FanKey, ParseFloat;
    FanKeyIs(id);
    var key := "fan#" + id + ".speed (rpm)";
    assert key[0] == 'f';
  }

  lemma RunUptime(st: Scan, n: nat)
    ensures Run(st, [VitalsCell("uptime (sec)", Dec(n))]) == st.(data := st.data.(uptime := n as real))
  {
    hide Run, VitalsCell, ParseFloat, PsuKey, FanKey, Dec, RowStep;
    DecRoundTrip(n);
    RunCell(st, "uptime (sec)", Dec(n));
    UptimeStep(st, Dec(n), n as real);
  }

  lemma UptimeStep(st: Scan, text: string, value: real)
    requires ParseFloat(text) == Some(value)
    ensures RowStep(st, "uptime (sec)", text) == st.(data := st.data.(uptime := value))
  {
    hide PsuKey, FanKey, ParseFloat;
  }

  lemma RunTemp(st: Scan, t: string)
    requires Clean(t) && st.data.temp.None?
    ensures Run(st, [VitalsCell("cur.temp (C)", t)]) == st.(data := st.data.(temp := ParseFloat(t)))
  {
    hide Run, VitalsCell, ParseFloat, PsuKey, FanKey, Clean;
    TempKey();
    RunCell(st, "cur.temp (C)", t);
    var key := "cur.temp (C)";
    assert key[0] == 'c';
  }

  lemma TempKey()
    ensures Clean("cur.temp (C)") && ':' !in "cur.temp (C)"
  {
  }

  /** The table the vitals text carries: the power readings of the listed supplies, a missing one not a number. */
  function PowerTable(psus: seq<Psu>, listed: set<string>): PsuTable {
    if psus == [] then map[]
    else
      var p := psus[|psus| - 1];
      var front := PowerTable(psus[..|psus| - 1], listed);
      if p.id in listed then front[p.id := PowerSupply(p.id, "", "", "", Number(p.power))] else front
  }

  lemma {:induction false} PowerTableOf(psus: seq<Psu>, listed: set<string>, id: string)
    requires forall i, j | 0 <= i < j < |psus| :: psus[i].id != psus[j].id
    ensures id in PowerTable(psus, listed) <==> id in listed && exists i | 0 <= i < |psus| :: psus[i].id == id
    ensures forall i | 0 <= i < |psus| && psus[i].id == id && id in listed ::
      id in PowerTable(psus, listed)
        && PowerTable(psus, listed)[id] == PowerSupply(id, "", "", "", Number(psus[i].power))
  {
    hide Number;
    if psus != [] {
      PowerTableOf(psus[..|psus| - 1], listed, id);
    }
  }

  lemma {:induction false} RunPowers(st: Scan, psus: seq<Psu>, listed: set<string>)
    requires st.psus == map[] && forall i | 0 <= i < |psus| :: ValidPsu(psus[i])
    ensures Run(st, PowerLines(psus, listed)) == st.(psus := PowerTable(psus, listed))
  {
    hide Run, VitalsCell, ParseFloat;
    if psus == [] {
      RunNothing(st);
    } else {
      var n := |psus| - 1;
      var p := psus[n];
      RunPowers(st, psus[..n], listed);
      var mid := Run(st, PowerLines(psus[..n], listed));
      var key, value := "psu" + p.id + ".power (W)", p.power.GetOr("");
      RunAppend(st, PowerLines(psus[..n], listed), OptVitals(key, if p.id in listed then Some(value) else None));
      if p.id in listed {
        PsuKeyIs(p.id);
        EmptyIsNoNumber();
        RunCell(mid, key, value);
      } else {
        RunNothing(mid);
      }
    }
  }

  lemma RunNothing(st: Scan)
    ensures Run(st, []) == st
  {
  }

  lemma {:induction false} RunSpeeds(st: Scan, fans: seq<FanReading>)
    requires forall i | 0 <= i < |fans| :: ValidFan(fans[i])
    ensures Run(st, SpeedLines(fans)) == st.(data := st.data.(fans := st.data.fans + FanList(fans)))
  {
    hide Run, VitalsCell, ParseFloat;
    if fans == [] {
      RunNothing(st);
      assert st.data.fans + FanList([]) == st.data.fans;
    } else {
      var n := |fans| - 1;
      var f := fans[n];
      RunSpeeds(st, fans[..n]);
      var mid := Run(st, SpeedLines(fans[..n]));
      var key := "fan#" + f.id + ".speed (rpm)";
      RunAppend(st, SpeedLines(fans[..n]), [VitalsCell(key, f.rpm)]);
      FanKeyIs(f.id);
      RunCell(mid, key, f.rpm);
      FanRow(mid, f.id, f.rpm);
      assert FanList(fans) == FanList(fans[..n]) + [Fan(f.id, ParseFloat(f.rpm))];
      assert st.data.fans + FanList(fans) == mid.data.fans + [Fan(f.id, ParseFloat(f.rpm))];
    }
  }

  function ExpectedVitals(s: Switch): Report {
    EMPTY_REPORT.(uptime := Expected(s).uptime, temp := Expected(s).temp, fans := Expected(s).fans)
  }

  lemma VitalsLinesRoundTrip(s: Switch, listed: set<string>)
    requires Valid(s)
    ensures Run(START, VitalsLines(s, listed)) == Scan(PowerTable(s.psus, listed), ExpectedVitals(s))
  {
    hide Run, VitalsCell, ParseFloat, PowerLines, SpeedLines, FanList, PowerTable, ValidPsu, ValidFan, Dec;
    var up := OptVitals("uptime (sec)", if s.uptime.Some? then Some(Dec(s.uptime.value)) else None);
    RunNothing(START);
    if s.uptime.Some? {
      RunUptime(START, s.uptime.value);
    }
    var s1 := Run(START, up);
    RunPowers(s1, s.psus, listed);
    var s2 := Run(s1, PowerLines(s.psus, listed));
    RunNothing(s2);
    if s.temp.Some? {
      RunTemp(s2, s.temp.value);
    }
    var temp := OptVitals("cur.temp (C)", s.temp);
    var s3 := Run(s2, temp);
    RunSpeeds(s3, s.fans);
    RunAppend(s2, temp, SpeedLines(s.fans));
    RunAppend(s1, PowerLines(s.psus, listed), temp + SpeedLines(s.fans));
    RunAppend(START, up, PowerLines(s.psus, listed) + (temp + SpeedLines(s.fans)));
    assert [] + FanList(s.fans) == FanList(s.fans);
  }
}
