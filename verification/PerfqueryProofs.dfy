/** Composition and round trip of the perfquery parser. */
module PerfqueryProofs {
  import opened Wrappers
  import opened Text
  import opened Numbers
  import opened Perfquery

  lemma {:induction false} RunAppend(device: Device, st: Scan, a: seq<string>, b: seq<string>)
    ensures Run(device, st, a + b) == Run(device, Run(device, st, a), b)
    decreases a
  {
    hide LineStep;
    if a == [] {
      assert a + b == b;
    } else {
      assert (a + b)[0] == a[0] && (a + b)[1..] == a[1..] + b;
      RunAppend(device, LineStep(device, st, a[0]), a[1..], b);
    }
  }

  /** Lines the parser does not react to: comments, and fields it does not know. */
  predicate Unknown(line: string) {
    NameValue(line).Some? ==> KindOf(NameValue(line).value.0).NoField?
  }

  lemma UnknownChangesNothing(device: Device, st: Scan, line: string)
    requires Unknown(line)
    ensures LineStep(device, st, line) == st
  {
    hide Split, WithoutDots, NoValues, ParseFloat, COUNTERS;
  }

  // ---------------------------------------------------------------- composition

  /** The first known line selects a port, so nothing is recorded under the port left over from before. */
  predicate OpensWithPort(lines: seq<string>) {
    lines == []
    || (Unknown(lines[0]) && OpensWithPort(lines[1..]))
    || (NameValue(lines[0]).Some? && NameValue(lines[0]).value.0 == "PortSelect")
  }

  /** The ports selected by these lines. */
  function Selected(lines: seq<string>): set<string> {
    if lines == [] then {}
    else
      (if NameValue(lines[0]).Some? && NameValue(lines[0]).value.0 == "PortSelect" then {NameValue(lines[0]).value.1}
        else {})
      + Selected(lines[1..])
  }

  /** `st` is `own` on top of the records and errors of earlier texts. */
  ghost predicate OnTop(st: Scan, own: Scan, base: Scan) {
    && st.port == own.port && st.errors == base.errors + own.errors
    && base.records.Keys !! own.records.Keys && st.records == base.records + own.records
  }

  lemma UpdateOnTop(base: map<string, Record>, own: map<string, Record>, port: string, r: Record)
    requires base.Keys !! own.Keys && port !in base
    ensures (base + own)[port := r] == base + own[port := r] && base.Keys !! own[port := r].Keys
  {
  }

  lemma FieldStepOnTop(device: Device, st: Scan, own: Scan, base: Scan, name: string, value: string)
    requires OnTop(st, own, base) && st.port !in base.records && (name == "PortSelect" ==> value !in base.records)
    ensures OnTop(FieldStep(device, st, name, value), FieldStep(device, own, name, value), base)
    ensures FieldStep(device, st, name, value).port !in base.records
  {
    hide KindOf, NoValues, ParseFloat, Scaled;
    var port := if name == "PortSelect" then value else st.port;
    assert Current(device, st, port) == Current(device, own, port);
    UpdateOnTop(base.records, own.records, port, Current(device, st, port));
    UpdateOnTop(base.records, own.records, port, Current(device, st, port).(portSelect := value));
    if KindOf(name).FloatField? && ParseFloat(value).Some? {
      var c := Current(device, st, port);
      UpdateOnTop(base.records, own.records, port,
        c.(values := c.values[name := Some(Scaled(name, ParseFloat(value).value))]));
    }
  }

  lemma StepOnTop(device: Device, st: Scan, own: Scan, base: Scan, line: string)
    requires OnTop(st, own, base) && st.port !in base.records
    requires Selected([line]) !! base.records.Keys
    ensures OnTop(LineStep(device, st, line), LineStep(device, own, line), base)
    ensures LineStep(device, st, line).port !in base.records
  {
    hide Split, WithoutDots, FieldStep, OnTop;
    assert [line][1..] == [];
    if NameValue(line).Some? {
      var (name, value) := NameValue(line).value;
      assert name == "PortSelect" ==> value in Selected([line]);
      FieldStepOnTop(device, st, own, base, name, value);
    }
  }

  lemma {:induction false} RunOnTop(device: Device, st: Scan, own: Scan, base: Scan, lines: seq<string>)
    requires OnTop(st, own, base) && st.port !in base.records && Selected(lines) !! base.records.Keys
    ensures OnTop(Run(device, st, lines), Run(device, own, lines), base)
    decreases lines
  {
    hide LineStep, OnTop, NameValue;
    if lines != [] {
      assert [lines[0]][1..] == [];
      StepOnTop(device, st, own, base, lines[0]);
      RunOnTop(device, LineStep(device, st, lines[0]), LineStep(device, own, lines[0]), base, lines[1..]);
    }
  }

  lemma {:induction false} RunAfter(device: Device, base: Scan, lines: seq<string>)
    requires OpensWithPort(lines) && Selected(lines) !! base.records.Keys
    ensures
      var both, alone := Run(device, base, lines), Run(device, START, lines);
      && both.errors == base.errors + alone.errors
      && base.records.Keys !! alone.records.Keys && both.records == base.records + alone.records
    decreases lines
  {
    hide LineStep, NameValue, KindOf;
    if lines != [] {
      var line := lines[0];
      if Unknown(line) && OpensWithPort(lines[1..]) {
        UnknownChangesNothing(device, base, line);
        UnknownChangesNothing(device, START, line);
        RunAfter(device, base, lines[1..]);
      } else {
        FirstPort(device, base, line);
        RunOnTop(device, LineStep(device, base, line), LineStep(device, START, line), base, lines[1..]);
      }
    }
  }

  lemma FirstPort(device: Device, base: Scan, line: string)
    requires NameValue(line).Some? && NameValue(line).value.0 == "PortSelect"
    requires NameValue(line).value.1 !in base.records
    ensures OnTop(LineStep(device, base, line), LineStep(device, START, line), base)
    ensures LineStep(device, base, line).port !in base.records
  {
    hide Split, WithoutDots, NoValues, ParseFloat, COUNTERS, Scaled;
  }

  function Ports(device: Device, out: string): set<string> {
    Parse(device, out).records.Keys
  }

  /**
   * For any two texts, if the second opens by selecting a port and selects none the first has recorded, parsing
   * them one after the other gives the union of their records and the sum of their errors.
   */
  lemma ParseComposes(device: Device, a: string, b: string)
    requires OpensWithPort(Split(b, '\n')) && Selected(Split(b, '\n')) !! Ports(device, a)
    ensures
      var both := Parse(device, a + ['\n'] + b);
      && Ports(device, a) !! Ports(device, b)
      && both.records == Parse(device, a).records + Parse(device, b).records
      && both.errors == Parse(device, a).errors + Parse(device, b).errors
  {
    hide Split, Run, OpensWithPort, Selected;
    SplitConcat(a, '\n', b);
    RunAppend(device, START, Split(a, '\n'), Split(b, '\n'));
    RunAfter(device, Parse(device, a), Split(b, '\n'));
  }

  /** Only mentioned counters are set, and only selected ports (or none) recorded. */
  lemma {:induction false} OnlyMentioned(device: Device, st: Scan, lines: seq<string>, p: string, f: string)
    requires p in Run(device, st, lines).records
    ensures p in st.records || p in Selected(lines) || p == st.port
    ensures
      var values := Run(device, st, lines).records[p].values;
      f in values && values[f].Some? ==>
        (p in st.records && f in st.records[p].values && st.records[p].values[f].Some?) || Mentions(lines, f)
    decreases lines
  {
    hide LineStep, NameValue;
    if lines != [] {
      var next := LineStep(device, st, lines[0]);
      OnlyMentioned(device, next, lines[1..], p, f);
      StepMentions(device, st, lines[0], p, f);
    }
  }

  /** The text has a line for this field. */
  predicate Mentions(lines: seq<string>, f: string) {
    exists i | 0 <= i < |lines| :: NameValue(lines[i]).Some? && NameValue(lines[i]).value.0 == f
  }

  lemma StepMentions(device: Device, st: Scan, line: string, p: string, f: string)
    ensures
      var next := LineStep(device, st, line);
      && (next.port == st.port
        || (NameValue(line).Some? && NameValue(line).value.0 == "PortSelect" && next.port == NameValue(line).value.1))
      && (p in next.records && p !in st.records ==> p == next.port)
      && (p in next.records && f in next.records[p].values && next.records[p].values[f].Some? ==>
            (p in st.records && f in st.records[p].values && st.records[p].values[f].Some?)
            || (NameValue(line).Some? && NameValue(line).value.0 == f))
  {
    hide Split, WithoutDots, ParseFloat, COUNTERS, Scaled;
  }

  // ---------------------------------------------------------------- scaling

  /** Exactly the two data counters are counted in words. */
  lemma OnlyDataIsScaled(f: string, x: real)
    requires f in COUNTERS
    ensures Scaled(f, x) == if f == "PortXmitData" || f == "PortRcvData" then 4.0 * x else x
  {
    if f == "PortXmitData" {
      assert f[|f| - 4..] == "Data";
    } else if f == "PortRcvData" {
      assert f[|f| - 4..] == "Data";
    } else {
      OthersDoNotEndInA(f);
      DataEndsInA(f);
    }
  }

  lemma OthersDoNotEndInA(f: string)
    requires f in COUNTERS && f != "PortXmitData" && f != "PortRcvData"
    ensures f[|f| - 1] != 'a'
  {
    hide COUNTERS;
    FirstCounters();
    OtherCounters();
    var i :| 0 <= i < |COUNTERS| && COUNTERS[i] == f;
  }

  lemma FirstCounters()
    ensures |COUNTERS| == 28 && COUNTERS[0] == "PortXmitData" && COUNTERS[1] == "PortRcvData"
    ensures forall i | 2 <= i < 14 :: COUNTERS[i] != "" && COUNTERS[i][|COUNTERS[i]| - 1] != 'a'
  {
  }

  lemma OtherCounters()
    ensures forall i | 14 <= i < 28 :: COUNTERS[i] != "" && COUNTERS[i][|COUNTERS[i]| - 1] != 'a'
  {
  }

  lemma DataEndsInA(f: string)
    ensures HasSuffix(f, "Data") ==> f[|f| - 1] == 'a'
  {
    if HasSuffix(f, "Data") {
      assert f[|f| - 4..][3] == f[|f| - 1];
    }
  }

  // ---------------------------------------------------------------- round trip of one block

  /** One printed counter: its name, the dots that align the column, its value. */
  datatype Reading = Reading(name: string, dots: nat, value: nat)

  function Dots(n: nat): (s: string)
    ensures |s| == n && forall i | 0 <= i < n :: s[i] == '.'
  {
    seq(n, _ => '.')
  }

  function ReadingLine(r: Reading): string {
    r.name + ":" + Dots(r.dots) + Dec(r.value)
  }

  function PortLine(port: string, dots: nat): string {
    "PortSelect:" + Dots(dots) + port
  }

  lemma {:induction false} DotsRemoved(n: nat, s: string)
    requires '.' !in s
    ensures WithoutDots(Dots(n) + s) == s
  {
    if n > 0 {
      assert (Dots(n) + s)[1..] == Dots(n - 1) + s;
      DotsRemoved(n - 1, s);
    } else {
      assert Dots(0) + s == s;
      NoDots(s);
    }
  }

  lemma {:induction false} NoDots(s: string)
    requires '.' !in s
    ensures WithoutDots(s) == s
  {
    if s != "" {
      NoDots(s[1..]);
    }
  }

  lemma NameValueOf(name: string, dots: nat, text: string)
    requires ':' !in name && ':' !in text && '.' !in text
    ensures NameValue(name + ":" + Dots(dots) + text) == Some((name, text))
  {
    hide WithoutDots;
    var value := Dots(dots) + text;
    assert name + ":" + Dots(dots) + text == name + [':'] + value;
    SplitCons(name, ':', value);
    SplitSingle(value, ':');
    DotsRemoved(dots, text);
  }

  ghost predicate ValidReadings(rs: seq<Reading>) {
    && (forall i | 0 <= i < |rs| :: KindOf(rs[i].name).FloatField? && ':' !in rs[i].name)
    && (forall i, j | 0 <= i < j < |rs| :: rs[i].name != rs[j].name)
  }

  function ReadingLines(rs: seq<Reading>): seq<string> {
    seq(|rs|, i requires 0 <= i < |rs| => ReadingLine(rs[i]))
  }

  function BlockLines(port: string, dots: nat, rs: seq<Reading>): seq<string> {
    [PortLine(port, dots)] + ReadingLines(rs)
  }

  /** The record the block describes: what was read, the two data counters in bytes; the rest not a number. */
  function BlockValues(rs: seq<Reading>): map<string, Option<real>> {
    if rs == [] then NoValues()
    else
      var r := rs[|rs| - 1];
      BlockValues(rs[..|rs| - 1])[r.name := Some(if IsData(r.name) then 4.0 * r.value as real else r.value as real)]
  }

  /** The counters of 4-byte words. */
  predicate IsData(name: string) {
    name == "PortXmitData" || name == "PortRcvData"
  }

  lemma ReadingStep(device: Device, st: Scan, r: Reading)
    requires KindOf(r.name).FloatField? && ':' !in r.name && st.port in st.records
    ensures LineStep(device, st, ReadingLine(r)) == st.(records := st.records[st.port :=
      st.records[st.port].(values := st.records[st.port].values[
        r.name := Some(if IsData(r.name) then 4.0 * r.value as real else r.value as real)])])
  {
    hide Split, WithoutDots, ParseFloat, COUNTERS, Scaled, NoValues, Dec;
    NameValueOf(r.name, r.dots, Dec(r.value));
    DecRoundTrip(r.value);
    OnlyDataIsScaled(r.name, r.value as real);
  }

  lemma PortStep(device: Device, port: string, dots: nat)
    requires ':' !in port && '.' !in port
    ensures LineStep(device, START, PortLine(port, dots))
      == Scan(port, 0, map[port := Record(device, port, NoValues())])
  {
    hide Split, WithoutDots, ParseFloat, COUNTERS, Scaled, NoValues;
    NameValueOf("PortSelect", dots, port);
    assert "PortSelect" + ":" + Dots(dots) + port == PortLine(port, dots);
  }

  lemma {:induction false} RunReadings(device: Device, port: string, dots: nat, rs: seq<Reading>)
    requires ':' !in port && '.' !in port && ValidReadings(rs)
    ensures Run(device, START, BlockLines(port, dots, rs)) ==
      Scan(port, 0, map[port := Record(device, port, BlockValues(rs))])
    decreases |rs|
  {
    hide LineStep, IsData, NoValues, KindOf, PortLine, ReadingLine;
    if rs == [] {
      PortStep(device, port, dots);
      assert BlockLines(port, dots, rs) == [PortLine(port, dots)] && [PortLine(port, dots)][1..] == [];
    } else {
      var n := |rs| - 1;
      RunReadings(device, port, dots, rs[..n]);
      var st := Run(device, START, BlockLines(port, dots, rs[..n]));
      assert BlockLines(port, dots, rs) == BlockLines(port, dots, rs[..n]) + [ReadingLine(rs[n])];
      RunAppend(device, START, BlockLines(port, dots, rs[..n]), [ReadingLine(rs[n])]);
      assert [ReadingLine(rs[n])][1..] == [];
      ReadingStep(device, st, rs[n]);
    }
  }

  /**
   * Each reading of the block is in the record, four times the value for the two data counters and the value itself for
   * all others; every other counter is not a number.
   */
  lemma {:induction false} BlockValuesAre(rs: seq<Reading>, f: string)
    requires ValidReadings(rs) && f in COUNTERS
    ensures f in BlockValues(rs)
    ensures forall i | 0 <= i < |rs| && rs[i].name == f ::
      BlockValues(rs)[f] ==
        Some(if f == "PortXmitData" || f == "PortRcvData" then 4.0 * rs[i].value as real else rs[i].value as real)
    ensures (forall i | 0 <= i < |rs| :: rs[i].name != f) ==> BlockValues(rs)[f] == None
  {
    hide COUNTERS, KindOf;
    if rs != [] {
      BlockValuesAre(rs[..|rs| - 1], f);
    }
  }

  // ---------------------------------------------------------------- any number of blocks

  datatype Block = Block(port: string, dots: nat, readings: seq<Reading>)

  ghost predicate ValidBlocks(blocks: seq<Block>) {
    && (forall i | 0 <= i < |blocks| ::
      ':' !in blocks[i].port && '.' !in blocks[i].port && ValidReadings(blocks[i].readings))
    && (forall i, j | 0 <= i < j < |blocks| :: blocks[i].port != blocks[j].port)
  }

  function AllLines(blocks: seq<Block>): seq<string> {
    if blocks == [] then []
    else
      var b := blocks[|blocks| - 1];
      AllLines(blocks[..|blocks| - 1]) + BlockLines(b.port, b.dots, b.readings)
  }

  function AllRecords(device: Device, blocks: seq<Block>): map<string, Record> {
    if blocks == [] then map[]
    else
      var b := blocks[|blocks| - 1];
      AllRecords(device, blocks[..|blocks| - 1])[b.port := Record(device, b.port, BlockValues(b.readings))]
  }

  lemma {:induction false} AllRecordsAre(device: Device, blocks: seq<Block>, port: string)
    requires ValidBlocks(blocks)
    ensures port in AllRecords(device, blocks) <==> exists i | 0 <= i < |blocks| :: blocks[i].port == port
    ensures forall i | 0 <= i < |blocks| && blocks[i].port == port ::
      port in AllRecords(device, blocks)
        && AllRecords(device, blocks)[port] == Record(device, port, BlockValues(blocks[i].readings))
  {
    hide ValidReadings, BlockValues;
    if blocks != [] {
      AllRecordsAre(device, blocks[..|blocks| - 1], port);
    }
  }

  lemma {:induction false} SelectedNone(lines: seq<string>)
    requires forall i | 0 <= i < |lines| :: NameValue(lines[i]).Some? && NameValue(lines[i]).value.0 != "PortSelect"
    ensures Selected(lines) == {}
  {
    hide NameValue;
    if lines != [] {
      SelectedNone(lines[1..]);
    }
  }

  lemma BlockSelects(b: Block)
    requires ':' !in b.port && '.' !in b.port && ValidReadings(b.readings)
    ensures
      var lines := BlockLines(b.port, b.dots, b.readings);
      OpensWithPort(lines) && Selected(lines) == {b.port}
  {
    hide NameValue, Dec;
    var lines := BlockLines(b.port, b.dots, b.readings);
    NameValueOf("PortSelect", b.dots, b.port);
    assert lines[0] == "PortSelect" + ":" + Dots(b.dots) + b.port;
    forall i | 0 <= i < |lines[1..]|
      ensures NameValue(lines[1..][i]).Some? && NameValue(lines[1..][i]).value.0 != "PortSelect"
    {
      var r := b.readings[i];
      assert '.' !in Dec(r.value) && ':' !in Dec(r.value);
      NameValueOf(r.name, r.dots, Dec(r.value));
    }
    SelectedNone(lines[1..]);
  }

  lemma {:induction false} RunBlocks(device: Device, blocks: seq<Block>)
    requires ValidBlocks(blocks)
    ensures
      var end := Run(device, START, AllLines(blocks));
      end.records == AllRecords(device, blocks) && end.errors == 0
    decreases |blocks|
  {
    hide LineStep, OpensWithPort, Selected, BlockLines, ValidReadings, BlockValues;
    if blocks != [] {
      var n := |blocks| - 1;
      var b := blocks[n];
      RunBlocks(device, blocks[..n]);
      AllRecordsAre(device, blocks[..n], b.port);
      BlockSelects(b);
      var base := Run(device, START, AllLines(blocks[..n]));
      RunAppend(device, START, AllLines(blocks[..n]), BlockLines(b.port, b.dots, b.readings));
      RunAfter(device, base, BlockLines(b.port, b.dots, b.readings));
      RunReadings(device, b.port, b.dots, b.readings);
    }
  }

  lemma {:induction false} UnknownLines(device: Device, st: Scan, lines: seq<string>, kept: seq<string>)
    requires Interleaves(lines, kept, Unknown)
    ensures Run(device, st, lines) == Run(device, st, kept)
    decreases lines
  {
    hide LineStep, Unknown;
    if lines != [] {
      if kept != [] && lines[0] == kept[0] && Interleaves(lines[1..], kept[1..], Unknown) {
        UnknownLines(device, LineStep(device, st, lines[0]), lines[1..], kept[1..]);
      } else {
        UnknownChangesNothing(device, st, lines[0]);
        UnknownLines(device, st, lines[1..], kept);
      }
    }
  }

  /**
   * Any text made of one block per port, with unknown lines anywhere, parses without error to one record per
   * block: what was read, the rest not a number.
   */
  lemma PerfqueryRoundTrip(device: Device, out: string, blocks: seq<Block>)
    requires ValidBlocks(blocks) && Interleaves(Split(out, '\n'), AllLines(blocks), Unknown)
    ensures Parse(device, out).errors == 0
    ensures Parse(device, out).records == AllRecords(device, blocks)
  {
    hide Run, Split, AllLines, Interleaves, ValidBlocks, Unknown;
    UnknownLines(device, START, Split(out, '\n'), AllLines(blocks));
    RunBlocks(device, blocks);
  }

  // ---------------------------------------------------------------- lines

  /** All dots go, and nothing else. */
  lemma {:induction false} DotsGo(a: string, b: string)
    ensures WithoutDots(a + b) == WithoutDots(a) + WithoutDots(b)
    ensures WithoutDots(".") == "" && forall c | c != '.' :: WithoutDots([c]) == [c]
  {
    assert WithoutDots("") == "";
    forall c: char ensures WithoutDots([c]) == if c == '.' then "" else [c] {
      assert [c][1..] == "";
    }
    if a == "" {
      assert a + b == b;
    } else {
      assert (a + b)[1..] == a[1..] + b;
      DotsGo(a[1..], b);
    }
  }

  /** A line has a name and a value exactly if it has one colon; the dots of the value are dropped. */
  lemma NameValueIff(line: string, name: string, value: string)
    ensures NameValue(line) == Some((name, value)) <==>
      exists raw :: ':' !in name && ':' !in raw && line == name + ":" + raw && value == WithoutDots(raw)
  {
    hide WithoutDots, Split;
    JoinSplit(line, ':');
    var items := Split(line, ':');
    if |items| == 2 {
      assert items[1..] == [items[1]];
      assert line == items[0] + ":" + items[1];
    }
    if raw :| ':' !in name && ':' !in raw && line == name + ":" + raw && value == WithoutDots(raw) {
      assert line == name + [':'] + raw;
      SplitCons(name, ':', raw);
      SplitSingle(raw, ':');
    }
  }

  // ---------------------------------------------------------------- any text

  /** The port selected last. */
  function PortAfter(lines: seq<string>): string {
    if lines == [] then ""
    else
      var n := |lines| - 1;
      match NameValue(lines[n])
      case Some((name, value)) => if name == "PortSelect" then value else PortAfter(lines[..n])
      case None => PortAfter(lines[..n])
  }

  /** A line that is recorded under the port it leaves selected: a selection, a device, a counter with a number. */
  predicate IsRecorded(line: string) {
    match NameValue(line)
    case None => false
    case Some((name, value)) => !KindOf(name).NoField? && !(KindOf(name).FloatField? && ParseFloat(value).None?)
  }

  /** By name: the port, the unexported device of a record, which reflection finds too, or a counter. */
  lemma RecordedIff(line: string)
    ensures IsRecorded(line) <==>
      && NameValue(line).Some?
      && var (name, value) := NameValue(line).value;
         name == "PortSelect" || name == "device" || (name in COUNTERS && ParseFloat(value).Some?)
  {
    hide Split, WithoutDots, ParseFloat, COUNTERS;
    NamesAreNoCounters();
  }

  lemma NamesAreNoCounters()
    ensures "PortSelect" !in COUNTERS && "device" !in COUNTERS
  {
  }

  function RecordedPorts(lines: seq<string>): set<string> {
    if lines == [] then {}
    else
      var n := |lines| - 1;
      RecordedPorts(lines[..n]) + if IsRecorded(lines[n]) then {PortAfter(lines)} else {}
  }

  /** The reading this line gives this counter; data are counted in 4-byte words. */
  function NumberIn(line: string, f: string): Option<real> {
    match NameValue(line)
    case None => None
    case Some((name, value)) =>
      if name != f || !KindOf(f).FloatField? then None
      else
        match ParseFloat(value)
        case None => None
        case Some(x) => Some(if f == "PortXmitData" || f == "PortRcvData" then 4.0 * x else x)
  }

  /** The last reading of a counter while a port was selected. */
  function LastReading(lines: seq<string>, port: string, f: string): Option<real> {
    if lines == [] then None
    else
      var n := |lines| - 1;
      if NumberIn(lines[n], f).Some? && PortAfter(lines) == port then NumberIn(lines[n], f)
      else LastReading(lines[..n], port, f)
  }

  /** What one line does to the port, the recorded ports and one counter of one port. */
  lemma LineRecords(device: Device, st: Scan, line: string, port: string, f: string)
    requires f in COUNTERS
    ensures
      var next := LineStep(device, st, line);
      && next.port == (if NameValue(line).Some? && NameValue(line).value.0 == "PortSelect" then NameValue(line).value.1
           else st.port)
      && (port in next.records <==> port in st.records || (IsRecorded(line) && next.port == port))
      && CounterOf(next, port, f) ==
           if NumberIn(line, f).Some? && next.port == port then NumberIn(line, f) else CounterOf(st, port, f)
  {
    hide Split, WithoutDots, ParseFloat, COUNTERS, Scaled;
    match NameValue(line)
    case None =>
    case Some((name, value)) =>
      if name == f && ParseFloat(value).Some? {
        OnlyDataIsScaled(f, ParseFloat(value).value);
      }
  }

  /** The counter as recorded so far; not a number if the port is not recorded. */
  function CounterOf(st: Scan, port: string, f: string): Option<real> {
    if port in st.records && f in st.records[port].values then st.records[port].values[f] else None
  }

  /** Any text: a counter of a port is its last reading while that port was selected. */
  lemma {:induction false} CountersAreLastReadings(device: Device, lines: seq<string>, port: string, f: string)
    requires f in COUNTERS
    ensures
      var end := Run(device, START, lines);
      && end.port == PortAfter(lines)
      && (port in end.records <==> port in RecordedPorts(lines))
      && CounterOf(end, port, f) == LastReading(lines, port, f)
  {
    hide Run, LineStep, ParseFloat, COUNTERS, IsRecorded, NumberIn, NameValue;
    if lines == [] {
      RunNothing(device, START);
    } else {
      var n := |lines| - 1;
      assert lines == lines[..n] + [lines[n]];
      CountersAreLastReadings(device, lines[..n], port, f);
      RunAppend(device, START, lines[..n], [lines[n]]);
      RunOne(device, Run(device, START, lines[..n]), lines[n]);
      LineRecords(device, Run(device, START, lines[..n]), lines[n], port, f);
    }
  }

  lemma RunOne(device: Device, st: Scan, line: string)
    ensures Run(device, st, [line]) == LineStep(device, st, line)
  {
    hide LineStep;
    assert [line][1..] == [];
  }

  lemma RunNothing(device: Device, st: Scan)
    ensures Run(device, st, []) == st
  {
  }
}
