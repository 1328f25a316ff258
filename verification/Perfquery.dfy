/** The parser of perfquery output: one record of counters per selected port. */
module Perfquery {
  import opened Wrappers
  import opened Text
  import opened Numbers

  /** The float fields of PerfQueryCounters. */
  const COUNTERS: seq<string> := [
    "PortXmitData", "PortRcvData", "PortXmitPkts", "PortRcvPkts", "PortUnicastXmitPkts", "PortUnicastRcvPkts",
    "PortMulticastXmitPkts", "PortMulticastRcvPkts", "SymbolErrorCounter", "LinkErrorRecoveryCounter",
    "LinkDownedCounter", "PortRcvErrors", "PortRcvRemotePhysicalErrors", "PortRcvSwitchRelayErrors",
    "PortXmitDiscards", "PortXmitConstraintErrors", "PortRcvConstraintErrors", "LocalLinkIntegrityErrors",
    "ExcessiveBufferOverrunErrors", "VL15Dropped", "PortXmitWait", "QP1Dropped",
    "PortLocalPhysicalErrors", "PortMalformedPktErrors", "PortBufferOverrunErrors", "PortDLIDMappingErrors",
    "PortVLMappingErrors", "PortLoopingErrors"]

  datatype Device = Device(guid: string, name: string)

  /** A counter that was not reported is `None` (NaN). */
  datatype Record = Record(device: Device, portSelect: string, values: map<string, Option<real>>)

  function NoValues(): map<string, Option<real>> {
    map f | f in COUNTERS :: None
  }

  /** What reflection finds under a name. */
  datatype Kind = StringField | FloatField | OtherField | NoField

  function KindOf(name: string): Kind {
    if name == "PortSelect" then StringField
    else if name in COUNTERS then FloatField
    else if name == "device" then OtherField
    else NoField
  }

  /** strings.ReplaceAll(s, ".", "") */
  function WithoutDots(s: string): string {
    if s == "" then ""
    else if s[0] == '.' then WithoutDots(s[1..])
    else [s[0]] + WithoutDots(s[1..])
  }

  /** Data counters count 4-byte words. */
  function Scaled(name: string, x: real): real {
    if HasSuffix(name, "Data") then x * 4.0 else x
  }

  datatype Scan = Scan(port: string, errors: nat, records: map<string, Record>)

  const START := Scan("", 0, map[])

  function Current(device: Device, st: Scan, port: string): Record {
    if port in st.records then st.records[port] else Record(device, "", NoValues())
  }

  function FieldStep(device: Device, st: Scan, name: string, value: string): Scan {
    var port := if name == "PortSelect" then value else st.port;
    var counter := Current(device, st, port);
    match KindOf(name)
    case NoField => st.(port := port)
    case StringField => st.(port := port, records := st.records[port := counter.(portSelect := value)])
    case OtherField => st.(port := port, records := st.records[port := counter])
    case FloatField =>
      match ParseFloat(value)
      case None => st.(port := port, errors := st.errors + 1)
      case Some(x) => st.(port := port,
        records := st.records[port := counter.(values := counter.values[name := Some(Scaled(name, x))])])
  }

  function LineStep(device: Device, st: Scan, line: string): Scan {
    var items := Split(line, ':');
    if |items| != 2 then st else FieldStep(device, st, items[0], WithoutDots(items[1]))
  }

  function Run(device: Device, st: Scan, lines: seq<string>): Scan
    decreases lines
  {
    if lines == [] then st else Run(device, LineStep(device, st, lines[0]), lines[1..])
  }

  /** The parse of a whole text, records still in their table. */
  function Parse(device: Device, out: string): Scan {
    Run(device, START, Split(out, '\n'))
  }

  /** The name and value of a `name:value` line. */
  function NameValue(line: string): Option<(string, string)> {
    var items := Split(line, ':');
    if |items| == 2 then Some((items[0], WithoutDots(items[1]))) else None
  }

  /** A line that names a counter and gives it no number. */
  predicate IsBad(line: string) {
    match NameValue(line)
    case None => false
    case Some((name, value)) => KindOf(name).FloatField? && ParseFloat(value).None?
  }

  /** The bad lines among these, in order. */
  function BadLines(lines: seq<string>): seq<string> {
    if lines == [] then [] else (if IsBad(lines[0]) then [lines[0]] else []) + BadLines(lines[1..])
  }

  /** The parse errors of a text: one for each bad line of it. */
  function ParseErrors(out: string): nat {
    |BadLines(Split(out, '\n'))|
  }

  /** Bad lines are counted, and nothing else is. */
  lemma {:induction false} ErrorsAreBadLines(device: Device, st: Scan, lines: seq<string>)
    ensures Run(device, st, lines).errors == st.errors + |BadLines(lines)|
    decreases lines
  {
    hide LineStep, IsBad;
    if lines != [] {
      StepCountsBad(device, st, lines[0]);
      ErrorsAreBadLines(device, LineStep(device, st, lines[0]), lines[1..]);
    }
  }

  /** The error count of a text does not depend on the device. */
  lemma ErrorsOfText(device: Device, out: string)
    ensures Parse(device, out).errors == ParseErrors(out)
  {
    hide Run, BadLines;
    ErrorsAreBadLines(device, START, Split(out, '\n'));
  }

  lemma StepCountsBad(device: Device, st: Scan, line: string)
    ensures LineStep(device, st, line).errors == st.errors + if IsBad(line) then 1 else 0
  {
    hide Split, WithoutDots, NoValues, ParseFloat, COUNTERS;
  }

  /** `list` holds each record once, in some order. */
  ghost predicate Enumerates(list: seq<Record>, records: map<string, Record>) {
    multiset(list) == multiset(records.Values)
  }

  method InitializeCounters() returns (values: map<string, Option<real>>)
    ensures values == NoValues()
  {
    hide COUNTERS;
    values := map[];
    for i := 0 to |COUNTERS|
      invariant values == map f | f in COUNTERS[..i] :: None
    {
      values := values[COUNTERS[i] := None];
    }
    assert COUNTERS[..|COUNTERS|] == COUNTERS;
  }

  method PerfqueryParse(device: Device, out: string) returns (counters: seq<Record>, errors: nat)
    ensures errors == ParseErrors(out) == Parse(device, out).errors
    ensures Enumerates(counters, Parse(device, out).records)
  {
    hide KindOf, Split, NoValues;
    var port := "";
    errors := 0;
    var portCounters: map<string, Record> := map[];
    var lines := Split(out, '\n');
    var i := 0;
    while i < |lines|
      invariant 0 <= i <= |lines|
      invariant Parse(device, out) == Run(device, Scan(port, errors, portCounters), lines[i..])
    {
      var line := lines[i];
      assert lines[i..][1..] == lines[i + 1..];
      i := i + 1;
      var items := Split(line, ':');
      if |items| != 2 {
        continue;
      }
      var value := WithoutDots(items[1]);
      if items[0] == "PortSelect" {
        port := value;
      }
      var counter;
      if port in portCounters {
        counter := portCounters[port];
      } else {
        var values := InitializeCounters();
        counter := Record(device, "", values);
      }
      var kind := KindOf(items[0]);
      if kind.NoField? {
        continue;
      }
      if kind.StringField? {
        counter := counter.(portSelect := value);
      } else if kind.FloatField? {
        var val := ParseFloat(value);
        if val.None? {
          errors := errors + 1;
          continue;
        }
        counter := counter.(values := counter.values[items[0] := Some(Scaled(items[0], val.value))]);
      }
      portCounters := portCounters[port := counter];
    }
    KeysArePorts(device, START, lines);
    ErrorsOfText(device, out);
    counters := ListRecords(portCounters);
  }

  lemma WithoutOne(records: map<string, Record>, p: string)
    requires p in records && forall q <- records :: records[q].portSelect == q
    ensures |records - {p}| < |records|
    ensures multiset(records.Values) == multiset{records[p]} + multiset((records - {p}).Values)
  {
    var rest := records - {p};
    assert rest.Keys == records.Keys - {p} && |rest.Keys| < |records.Keys|;
    assert records[p] !in rest.Values;
    forall v | v in records.Values ensures v in {records[p]} + rest.Values {
      var q :| q in records && records[q] == v;
      if q != p {
        assert q in rest && rest[q] == v;
      }
    }
    assert records.Values == {records[p]} + rest.Values;
  }

  method ListRecords(records: map<string, Record>) returns (list: seq<Record>)
    requires forall p <- records :: records[p].portSelect == p
    ensures Enumerates(list, records)
  {
    list := [];
    var todo := records;
    while todo != map[]
      invariant todo.Keys <= records.Keys && forall p <- todo :: todo[p] == records[p]
      invariant multiset(list) + multiset(todo.Values) == multiset(records.Values)
      decreases |todo|
    {
      var p :| p in todo;
      var rest := todo - {p};
      WithoutOne(todo, p);
      list := list + [todo[p]];
      todo := rest;
    }
  }

  /** Every record carries the port it is stored under. */
  lemma {:induction false} KeysArePorts(device: Device, st: Scan, lines: seq<string>)
    requires forall p <- st.records :: st.records[p].portSelect == p
    requires st.port == "" || st.port in st.records
    ensures forall p <- Run(device, st, lines).records :: Run(device, st, lines).records[p].portSelect == p
    decreases lines
  {
    hide KindOf, Split, NoValues, ParseFloat, WithoutDots, Scaled, LineStep;
    if lines != [] {
      StepKeysArePorts(device, st, lines[0]);
      KeysArePorts(device, LineStep(device, st, lines[0]), lines[1..]);
    }
  }

  lemma StepKeysArePorts(device: Device, st: Scan, line: string)
    requires forall p <- st.records :: st.records[p].portSelect == p
    requires st.port == "" || st.port in st.records
    ensures
      var next := LineStep(device, st, line);
      && (forall p <- next.records :: next.records[p].portSelect == p)
      && (next.port == "" || next.port in next.records)
  {
    hide Split, NoValues, ParseFloat, WithoutDots, Scaled, COUNTERS;
  }
}
