/** No series is emitted twice by one scrape. */
module Samples {
  import opened Wrappers
  import opened Text
  import opened Numbers
  import opened Retry
  import opened Perfquery
  import opened PerfqueryProofs
  import opened Emission
  import opened FanOut
  import opened FanOutProofs
  import opened PerfCollect

  // ---------------------------------------------------------------- from the text to the sample

  /**
   * The samples of a port are the counters of its text: whatever the output, a counter is emitted under its metric
   * with a value exactly if that is its last reading while the port was selected.
   */
  lemma LastReadingsAreEmitted(device: Device, out: string, port: string, i: nat, x: real)
    requires i < |SERIES| && port in Ports(device, out)
    ensures
      var (counter, metric) := SERIES[i];
      Sample(metric, device.guid, port, x) in EmittedBy(Parse(device, out).records[port], |DEFS|) <==>
        LastReading(Split(out, '\n'), port, counter) == Some(x)
  {
    hide DEFS, COUNTERS, SERIES, Run, Split, EmittedBy, LastReading;
    var lines := Split(out, '\n');
    EveryCounterHasItsSeries();
    MetricsDiffer();
    KeysArePorts(device, START, lines);
    RecordsCarryDevice(device, START, lines);
    CountersAreLastReadings(device, lines, port, COUNTERS[i]);
    var record := Parse(device, out).records[port];
    EmittedAre(record, |DEFS|, Sample(DEFS[i].metric, device.guid, port, x));
    assert ValueOf(record, COUNTERS[i]) == CounterOf(Parse(device, out), port, COUNTERS[i]);
  }

  // ---------------------------------------------------------------- one text in full

  /** Ten 4-byte words sent by port 1. */
  const TEN_WORDS := "PortSelect:1\nPortXmitData:....10"

  function WordsBlock(): Block {
    Block("1", 0, [Reading("PortXmitData", 4, 10)])
  }

  lemma TenIsPrinted()
    ensures Dec(10) == "10" && Dots(4) == "...." && Dots(0) == ""
  {
    assert Dec(1) == "1";
  }

  lemma WordLines()
    ensures AllLines([WordsBlock()]) == ["PortSelect:1", "PortXmitData:....10"]
  {
    hide Dec, Dots;
    TenIsPrinted();
    var b := WordsBlock();
    assert [b][..0] == [];
    assert AllLines([b]) == [] + BlockLines("1", 0, b.readings);
    assert ReadingLines(b.readings) == [ReadingLine(b.readings[0])];
    assert "PortSelect:" + "" + "1" == "PortSelect:1" && "PortXmitData" + ":" + "...." + "10" == "PortXmitData:....10";
  }

  lemma WordsAreJoined()
    ensures Join(["PortSelect:1", "PortXmitData:....10"], '\n') == TEN_WORDS
  {
    assert ["PortSelect:1", "PortXmitData:....10"][1..] == ["PortXmitData:....10"];
  }

  lemma WordsAreLines()
    ensures forall p <- ["PortSelect:1", "PortXmitData:....10"] :: '\n' !in p
  {
  }

  lemma DataIsTheFirstCounter()
    ensures KindOf("PortXmitData").FloatField? && ':' !in "PortXmitData"
    ensures |COUNTERS| == 28 && COUNTERS[0] == "PortXmitData"
    ensures forall i | 1 <= i < 28 :: COUNTERS[i] != "PortXmitData"
  {
    hide COUNTERS;
    FirstCounters();
    OtherCounters();
    var data := "PortXmitData";
    assert COUNTERS[0] == data && data[|data| - 1] == 'a' && COUNTERS[1] == "PortRcvData" && |COUNTERS[1]| != |data|;
    DataHasNoColon();
  }

  lemma DataHasNoColon()
    ensures ':' !in "PortXmitData" && "PortXmitData" != "PortSelect"
  {
  }

  lemma WordsRecord(device: Device)
    ensures
      var records := Parse(device, TEN_WORDS).records;
      && records.Keys == {"1"} && records["1"].device == device && records["1"].portSelect == "1"
      && ValueOf(records["1"], "PortXmitData") == Some(40.0)
      && forall f <- COUNTERS | f != "PortXmitData" :: ValueOf(records["1"], f) == None
  {
    hide Run, Split, COUNTERS, KindOf, AllLines, BlockValues, Join;
    var b := WordsBlock();
    WordLines();
    WordsAreJoined();
    WordsAreLines();
    DataIsTheFirstCounter();
    SplitJoin(["PortSelect:1", "PortXmitData:....10"], '\n');
    InterleavesItself(AllLines([b]), Unknown);
    PerfqueryRoundTrip(device, TEN_WORDS, [b]);
    assert AllRecords(device, [b]) == map["1" := Record(device, "1", BlockValues(b.readings))];
    assert b.readings[0].name == "PortXmitData" && "PortXmitData" in COUNTERS;
    forall f | f in COUNTERS
      ensures f in BlockValues(b.readings)
      ensures BlockValues(b.readings)[f] == if f == "PortXmitData" then Some(40.0) else None
    {
      BlockValuesAre(b.readings, f);
    }
  }

  lemma {:induction false} OnlyTheFirst(c: Record, k: nat, x: real)
    requires 1 <= k <= |DEFS| && ValueOf(c, DEFS[0].field) == Some(x)
    requires forall i | 1 <= i < |DEFS| :: ValueOf(c, DEFS[i].field) == None
    ensures EmittedBy(c, k) == [Sample(DEFS[0].metric, c.device.guid, c.portSelect, x)]
  {
    hide DEFS, ValueOf;
    if k > 1 {
      OnlyTheFirst(c, k - 1, x);
    } else {
      assert EmittedBy(c, 0) == [];
    }
  }

  /** Ten words sent are forty bytes transmitted, and nothing else is emitted. */
  lemma TenWordsAreFortyBytes(device: Device)
    ensures "1" in Ports(device, TEN_WORDS)
    ensures EmittedBy(Parse(device, TEN_WORDS).records["1"], |DEFS|)
      == [Sample("port_transmit_data_bytes_total", device.guid, "1", 40.0)]
  {
    hide DEFS, COUNTERS, SERIES, Run, Split, EmittedBy, ValueOf;
    WordsRecord(device);
    EveryCounterHasItsSeries();
    DataIsTheFirstCounter();
    FirstIsTransmitted();
    var c := Parse(device, TEN_WORDS).records["1"];
    forall i | 1 <= i < |DEFS| ensures ValueOf(c, DEFS[i].field) == None {
      assert COUNTERS[i] in COUNTERS;
    }
    OnlyTheFirst(c, |DEFS|, 40.0);
  }

  lemma FirstIsTransmitted()
    ensures |SERIES| == 28 && SERIES[0].1 == "port_transmit_data_bytes_total"
  {
  }

  // ---------------------------------------------------------------- the rows of a scrape, in device order

  function RcvErrRows(j: Job, port: string): seq<Record> {
    match j.rcvErr(port).result
    case Success(out) => j.listing(out)
    case _ => []
  }

  function AllRcvErrRows(j: Job, rows: seq<Record>): seq<Record> {
    if rows == [] then [] else AllRcvErrRows(j, rows[..|rows| - 1]) + RcvErrRows(j, rows[|rows| - 1].portSelect)
  }

  function JobRows(j: Job, flags: Flags): seq<Record> {
    match j.base.result
    case Success(out) =>
      (if flags.base then j.listing(out) else []) + (if flags.rcvErr then AllRcvErrRows(j, j.listing(out)) else [])
    case _ => []
  }

  function ScrapeRows(jobs: seq<Job>, flags: Flags): seq<Record> {
    if jobs == [] then [] else ScrapeRows(jobs[..|jobs| - 1], flags) + JobRows(jobs[|jobs| - 1], flags)
  }

  lemma {:induction false} RcvErrRowsCounted(j: Job, rows: seq<Record>)
    requires ValidJob(j)
    ensures multiset(AllRcvErrRows(j, rows)) == RcvErrAccounts(j, rows).rows
  {
    hide Parse;
    if rows != [] {
      var n := |rows| - 1;
      RcvErrRowsCounted(j, rows[..n]);
      var q := j.rcvErr(rows[n].portSelect);
      if q.result.Success? {
        assert Enumerates(j.listing(q.result.out), Parse(j.device, q.result.out).records);
      }
    }
  }

  lemma JobRowsCounted(j: Job, flags: Flags)
    requires ValidJob(j)
    ensures multiset(JobRows(j, flags)) == JobAccount(j, flags).rows
  {
    hide Parse, AllRcvErrRows, RcvErrAccounts;
    if j.base.result.Success? {
      var out := j.base.result.out;
      assert Enumerates(j.listing(out), Parse(j.device, out).records);
      RcvErrRowsCounted(j, j.listing(out));
    }
  }

  lemma {:induction false} ScrapeRowsCounted(jobs: seq<Job>, flags: Flags)
    requires forall i | 0 <= i < |jobs| :: ValidJob(jobs[i])
    ensures multiset(ScrapeRows(jobs, flags)) == Sum(Accounts(jobs, flags)).rows
  {
    hide JobRows, JobAccount, ValidJob;
    if jobs != [] {
      var n := |jobs| - 1;
      ScrapeRowsCounted(jobs[..n], flags);
      JobRowsCounted(jobs[n], flags);
      assert Accounts(jobs, flags) == Accounts(jobs[..n], flags) + [JobAccount(jobs[n], flags)];
    }
  }

  lemma {:induction false} RcvErrRowsAre(j: Job, rows: seq<Record>, r: Record)
    ensures r in AllRcvErrRows(j, rows) <==>
      exists p <- rows :: j.rcvErr(p.portSelect).result.Success? && r in j.listing(j.rcvErr(p.portSelect).result.out)
  {
    if rows != [] {
      var n := |rows| - 1;
      assert rows == rows[..n] + [rows[n]];
      RcvErrRowsAre(j, rows[..n], r);
    }
  }

  /** The record is of this device: of its base output, or of the output of a `-E` query of one of its ports. */
  ghost predicate IsRowOf(j: Job, flags: Flags, r: Record) {
    j.base.result.Success? &&
    var records := Parse(j.device, j.base.result.out).records;
    || (flags.base && r in records.Values)
    || (flags.rcvErr && exists p | p in records && j.rcvErr(p).result.Success? ::
          r in Parse(j.device, j.rcvErr(p).result.out).records.Values)
  }

  lemma ListedIsParsed(j: Job, out: string, r: Record)
    requires ValidJob(j)
    ensures r in j.listing(out) <==> r in Parse(j.device, out).records.Values
  {
    hide Parse;
    assert Enumerates(j.listing(out), Parse(j.device, out).records);
    assert r in j.listing(out) <==> r in multiset(j.listing(out));
  }

  lemma JobRowsAre(j: Job, flags: Flags, r: Record)
    requires ValidJob(j)
    ensures r in JobRows(j, flags) <==> IsRowOf(j, flags, r)
  {
    hide Parse, ValidJob, AllRcvErrRows;
    if j.base.result.Success? {
      var out := j.base.result.out;
      var records, rows := Parse(j.device, out).records, j.listing(out);
      ListedIsParsed(j, out, r);
      RcvErrRowsAre(j, rows, r);
      forall p | p in rows && j.rcvErr(p.portSelect).result.Success?
        ensures p.portSelect in records
        ensures r in j.listing(j.rcvErr(p.portSelect).result.out) <==>
          r in Parse(j.device, j.rcvErr(p.portSelect).result.out).records.Values
      {
        ListedPorts(j, out, p.portSelect);
        ListedIsParsed(j, j.rcvErr(p.portSelect).result.out, r);
      }
      forall p | p in records && j.rcvErr(p).result.Success?
        ensures exists q <- rows :: q.portSelect == p
        ensures r in j.listing(j.rcvErr(p).result.out) <==>
          r in Parse(j.device, j.rcvErr(p).result.out).records.Values
      {
        ListedPorts(j, out, p);
        ListedIsParsed(j, j.rcvErr(p).result.out, r);
      }
    }
  }

  lemma {:induction false} ScrapeRowsAre(jobs: seq<Job>, flags: Flags, r: Record)
    requires forall i | 0 <= i < |jobs| :: ValidJob(jobs[i])
    ensures r in ScrapeRows(jobs, flags) <==> exists i | 0 <= i < |jobs| :: IsRowOf(jobs[i], flags, r)
  {
    hide JobRows, IsRowOf, ValidJob;
    if jobs != [] {
      var n := |jobs| - 1;
      ScrapeRowsAre(jobs[..n], flags, r);
      JobRowsAre(jobs[n], flags, r);
    }
  }

  /**
   * Which records a scrape leaves, for every schedule: those of the base outputs if they are collected, and those of
   * the `-E` outputs of the ports that the base outputs list if those are, and no others.
   */
  lemma RowsOfScrape(jobs: seq<Job>, flags: Flags, limit: int, before: Shared<Record, Metrics>, events: seq<Event>,
    after: Shared<Record, Metrics>, r: Record)
    requires ValidJobs(jobs) && before.rows == [] && FinishedScrape(jobs, flags, limit, before, events, after)
    ensures r in after.rows <==> exists i | 0 <= i < |jobs| :: IsRowOf(jobs[i], flags, r)
  {
    hide IsRowOf, ValidJob, FinishedScrape, Sum, Accounts, ScrapeRows;
    ScrapeConservesAccounts(jobs, flags, limit, before, events, after);
    ScrapeRowsCounted(jobs, flags);
    ScrapeRowsAre(jobs, flags, r);
    assert multiset(after.rows) == multiset(ScrapeRows(jobs, flags));
    assert r in after.rows <==> r in multiset(after.rows);
    assert r in ScrapeRows(jobs, flags) <==> r in multiset(ScrapeRows(jobs, flags));
  }

  // ---------------------------------------------------------------- one query

  lemma {:induction false} EmittersAtMost(list: seq<Record>, r: Record, key: Key)
    requires forall i | 0 <= i < |list| :: Emits(list[i], key) ==> list[i] == r
    ensures Emitters(list, key) <= multiset(list)[r]
  {
    hide Emits;
    if list != [] {
      var n := |list| - 1;
      assert list == list[..n] + [list[n]];
      EmittersAtMost(list[..n], r, key);
    }
  }

  lemma {:induction false} RecordsCarryDevice(device: Device, st: Scan, lines: seq<string>)
    requires forall p <- st.records :: st.records[p].device == device
    ensures forall p <- Run(device, st, lines).records :: Run(device, st, lines).records[p].device == device
    decreases lines
  {
    hide LineStep;
    if lines != [] {
      StepCarriesDevice(device, st, lines[0]);
      RecordsCarryDevice(device, LineStep(device, st, lines[0]), lines[1..]);
    }
  }

  lemma StepCarriesDevice(device: Device, st: Scan, line: string)
    requires forall p <- st.records :: st.records[p].device == device
    ensures forall p <- LineStep(device, st, line).records :: LineStep(device, st, line).records[p].device == device
  {
    hide Split, NoValues, WithoutDots, Scaled, COUNTERS, KindOf;
  }

  /** The output sets the field of some port: a line of it names the field. */
  lemma SetFieldsAreMentioned(device: Device, out: string, p: string, f: string)
    requires p in Ports(device, out) && ValueOf(Parse(device, out).records[p], f).Some?
    ensures Mentions(Split(out, '\n'), f)
  {
    hide Split, Run, Mentions;
    OnlyMentioned(device, START, Split(out, '\n'), p, f);
  }

  /** One parsed output emits a series at most once, and only for its device, its ports and the counters it names. */
  lemma OneOutputEmitsOnce(device: Device, out: string, list: seq<Record>, key: Key)
    requires Enumerates(list, Parse(device, out).records)
    ensures Emitters(list, key) <= 1
    ensures Emitters(list, key) > 0 ==> key.guid == device.guid && key.port in Ports(device, out)
    ensures Emitters(list, key) > 0 ==>
      exists i | 0 <= i < |DEFS| :: DEFS[i].metric == key.metric && Mentions(Split(out, '\n'), DEFS[i].field)
  {
    hide Split, Run, Mentions, DEFS, ValueOf;
    var records := Parse(device, out).records;
    KeysArePorts(device, START, Split(out, '\n'));
    RecordsCarryDevice(device, START, Split(out, '\n'));
    forall i | 0 <= i < |list| && Emits(list[i], key)
      ensures key.port in records && list[i] == records[key.port]
    {
      assert list[i] in multiset(list);
      var p :| p in records && records[p] == list[i];
    }
    NoEmitters(list, key);
    if i :| 0 <= i < |list| && Emits(list[i], key) {
      EmittersAtMost(list, list[i], key);
      var d :| 0 <= d < |DEFS| && DEFS[d].metric == key.metric && ValueOf(list[i], DEFS[d].field).Some?;
      SetFieldsAreMentioned(device, out, key.port, DEFS[d].field);
    }
  }

  lemma {:induction false} NoEmitters(list: seq<Record>, key: Key)
    ensures Emitters(list, key) == 0 <==> forall i | 0 <= i < |list| :: !Emits(list[i], key)
  {
    hide Emits;
    if list != [] {
      NoEmitters(list[..|list| - 1], key);
    }
  }

  lemma PortIsListed(j: Job, out: string, port: string) returns (i: nat)
    requires ValidJob(j) && port in Ports(j.device, out)
    ensures i < |j.listing(out)| && j.listing(out)[i] == Parse(j.device, out).records[port]
    ensures j.listing(out)[i].portSelect == port && j.listing(out)[i].device == j.device
  {
    hide Run, Split;
    var records := Parse(j.device, out).records;
    assert Enumerates(j.listing(out), records);
    assert records[port] in multiset(j.listing(out));
    i :| 0 <= i < |j.listing(out)| && j.listing(out)[i] == records[port];
    KeysArePorts(j.device, START, Split(out, '\n'));
    RecordsCarryDevice(j.device, START, Split(out, '\n'));
  }

  /** The output reports this counter for this port. */
  ghost predicate Sets(j: Job, out: string, port: string, d: nat)
    requires d < |DEFS|
  {
    port in Ports(j.device, out) && ValueOf(Parse(j.device, out).records[port], DEFS[d].field).Some?
  }

  /** A series is emitted for an output iff the output sets its counter for its port. */
  lemma EmitsWhatItSets(j: Job, out: string, key: Key)
    requires ValidJob(j)
    ensures Emitters(j.listing(out), key) > 0 <==>
      key.guid == j.device.guid && exists d | 0 <= d < |DEFS| ::
        DEFS[d].metric == key.metric && Sets(j, out, key.port, d)
  {
    hide DEFS, Run, Split, ValueOf;
    var list, records := j.listing(out), Parse(j.device, out).records;
    assert Enumerates(list, records);
    KeysArePorts(j.device, START, Split(out, '\n'));
    RecordsCarryDevice(j.device, START, Split(out, '\n'));
    NoEmitters(list, key);
    forall i | 0 <= i < |list|
      ensures key.port == list[i].portSelect ==> key.port in records && list[i] == records[key.port]
    {
      assert list[i] in multiset(list);
      var p :| p in records && records[p] == list[i];
    }
    if key.port in records {
      var i := PortIsListed(j, out, key.port);
    }
  }

  // ---------------------------------------------------------------- one device

  /** No counter of a port is set by two outputs of the device: the `-x` output and the `-E` output of each port. */
  ghost predicate NoOverlap(j: Job) {
    j.base.result.Success? ==>
      var out := j.base.result.out;
      && (forall p, port, d | p in Ports(j.device, out) && j.rcvErr(p).result.Success? && 0 <= d < |DEFS| ::
            !(Sets(j, out, port, d) && Sets(j, j.rcvErr(p).result.out, port, d)))
      && (forall p, q, port, d |
            && p in Ports(j.device, out) && j.rcvErr(p).result.Success?
            && q in Ports(j.device, out) && j.rcvErr(q).result.Success? && p != q && 0 <= d < |DEFS| ::
            !(Sets(j, j.rcvErr(p).result.out, port, d) && Sets(j, j.rcvErr(q).result.out, port, d)))
  }

  /** The `-E` rows emit a series once iff no two of the queries do. */
  lemma {:induction false} RcvErrCounts(j: Job, rows: seq<Record>, key: Key)
    requires ValidJob(j)
    ensures
      var total := Emitters(AllRcvErrRows(j, rows), key);
      && (total == 0 <==> forall a | 0 <= a < |rows| :: Emitters(RcvErrRows(j, rows[a].portSelect), key) == 0)
      && (total <= 1 <==> forall a, b | 0 <= a < b < |rows| ::
            Emitters(RcvErrRows(j, rows[a].portSelect), key) == 0
              || Emitters(RcvErrRows(j, rows[b].portSelect), key) == 0)
  {
    hide Emits, Parse, RcvErrRows;
    if rows != [] {
      var n := |rows| - 1;
      RcvErrCounts(j, rows[..n], key);
      EmittersAppend(AllRcvErrRows(j, rows[..n]), RcvErrRows(j, rows[n].portSelect), key);
      OneQueryEmitsOnce(j, rows[n].portSelect, key);
      assert forall a | 0 <= a < n :: rows[..n][a] == rows[a];
    }
  }

  lemma OneQueryEmitsOnce(j: Job, port: string, key: Key)
    requires ValidJob(j)
    ensures Emitters(RcvErrRows(j, port), key) <= 1
  {
    hide Emits, Parse, Emitters;
    var q := j.rcvErr(port).result;
    if q.Success? {
      assert Enumerates(j.listing(q.out), Parse(j.device, q.out).records);
      OneOutputEmitsOnce(j.device, q.out, j.listing(q.out), key);
    } else {
      NothingEmits(key);
    }
  }

  lemma NothingEmits(key: Key)
    ensures Emitters([], key) == 0
  {
  }

  lemma ListingHasDistinctPorts(j: Job, out: string)
    requires ValidJob(j)
    ensures
      var rows := j.listing(out);
      && (forall a | 0 <= a < |rows| :: rows[a].portSelect in Ports(j.device, out))
      && (forall a, b | 0 <= a < b < |rows| :: rows[a].portSelect != rows[b].portSelect)
  {
    hide Run, Split;
    var rows, records := j.listing(out), Parse(j.device, out).records;
    KeysArePorts(j.device, START, Split(out, '\n'));
    assert Enumerates(rows, records);
    forall a | 0 <= a < |rows|
      ensures rows[a].portSelect in records && rows[a] == records[rows[a].portSelect]
    {
      assert rows[a] in multiset(rows);
      var p :| p in records && records[p] == rows[a];
    }
    forall a, b | 0 <= a < b < |rows| ensures rows[a].portSelect != rows[b].portSelect {
      assert rows == rows[..a] + [rows[a]] + rows[a + 1..b] + [rows[b]] + rows[b + 1..];
      assert multiset(rows)[rows[a]] <= 1;
    }
  }

  /** Two outputs that emit the same series set the same counter of the same port. */
  lemma SharedSeries(j: Job, a: string, b: string, key: Key)
    requires ValidJob(j) && Emitters(j.listing(a), key) > 0 && Emitters(j.listing(b), key) > 0
    ensures exists d | 0 <= d < |DEFS| :: Sets(j, a, key.port, d) && Sets(j, b, key.port, d)
  {
    hide DEFS, Sets, Emitters;
    MetricsDiffer();
    EmitsWhatItSets(j, a, key);
    EmitsWhatItSets(j, b, key);
  }

  /** A device whose outputs do not overlap emits a series at most once, and only under its own GUID. */
  lemma DeviceEmitsOnce(j: Job, flags: Flags, key: Key)
    requires ValidJob(j)
    ensures Emitters(JobRows(j, flags), key) > 0 ==> key.guid == j.device.guid
    ensures NoOverlap(j) ==> Emitters(JobRows(j, flags), key) <= 1
  {
    hide Emits, Parse, AllRcvErrRows, DEFS, Ports, Sets, Emitters;
    NothingEmits(key);
    if j.base.result.Success? {
      var out := j.base.result.out;
      var rows := j.listing(out);
      assert Enumerates(rows, Parse(j.device, out).records);
      OneOutputEmitsOnce(j.device, out, rows, key);
      ListingHasDistinctPorts(j, out);
      RcvErrCounts(j, rows, key);
      EmittersAppend(if flags.base then rows else [], if flags.rcvErr then AllRcvErrRows(j, rows) else [], key);
      forall a | 0 <= a < |rows| && Emitters(RcvErrRows(j, rows[a].portSelect), key) > 0
        ensures key.guid == j.device.guid
        ensures NoOverlap(j) ==> Emitters(rows, key) == 0
        ensures NoOverlap(j) ==>
          forall b | 0 <= b < |rows| && b != a :: Emitters(RcvErrRows(j, rows[b].portSelect), key) == 0
      {
        QueryEmitsAlone(j, rows, a, key);
      }
    }
  }

  lemma QueryEmitsAlone(j: Job, rows: seq<Record>, a: nat, key: Key)
    requires ValidJob(j) && j.base.result.Success? && rows == j.listing(j.base.result.out)
    requires a < |rows| && Emitters(RcvErrRows(j, rows[a].portSelect), key) > 0
    ensures key.guid == j.device.guid
    ensures NoOverlap(j) ==> Emitters(rows, key) == 0
    ensures NoOverlap(j) ==>
      forall b | 0 <= b < |rows| && b != a :: Emitters(RcvErrRows(j, rows[b].portSelect), key) == 0
  {
    hide Emits, Parse, DEFS, Ports, Sets, Emitters;
    NothingEmits(key);
    var out := j.base.result.out;
    ListingHasDistinctPorts(j, out);
    var q := j.rcvErr(rows[a].portSelect).result;
    EmitsWhatItSets(j, q.out, key);
    if Emitters(rows, key) > 0 {
      SharedSeries(j, out, q.out, key);
    }
    forall b | 0 <= b < |rows| && b != a && Emitters(RcvErrRows(j, rows[b].portSelect), key) > 0
      ensures !NoOverlap(j)
    {
      SharedSeries(j, q.out, j.rcvErr(rows[b].portSelect).result.out, key);
    }
  }

  /** Outputs that overlap emit the shared counter twice. */
  lemma OverlapIsEmittedTwice(j: Job) returns (key: Key)
    requires ValidJob(j) && !NoOverlap(j)
    ensures Emitters(JobRows(j, Flags(true, true)), key) >= 2
  {
    hide Emits, Parse, AllRcvErrRows, DEFS, Ports, Sets, Emitters;
    var out := j.base.result.out;
    var rows := j.listing(out);
    if p, port, d :| (p in Ports(j.device, out) && j.rcvErr(p).result.Success? && 0 <= d < |DEFS|
                      && Sets(j, out, port, d) && Sets(j, j.rcvErr(p).result.out, port, d))
    {
      key := Key(DEFS[d].metric, j.device.guid, port);
      EmitsWhatItSets(j, out, key);
      EmitsWhatItSets(j, j.rcvErr(p).result.out, key);
      var a := PortIsListed(j, out, p);
      assert Emitters(RcvErrRows(j, rows[a].portSelect), key) > 0;
    } else {
      var p, q, port, d :| p in Ports(j.device, out) && j.rcvErr(p).result.Success?
        && q in Ports(j.device, out) && j.rcvErr(q).result.Success? && p != q && 0 <= d < |DEFS|
        && Sets(j, j.rcvErr(p).result.out, port, d) && Sets(j, j.rcvErr(q).result.out, port, d);
      key := Key(DEFS[d].metric, j.device.guid, port);
      EmitsWhatItSets(j, j.rcvErr(p).result.out, key);
      EmitsWhatItSets(j, j.rcvErr(q).result.out, key);
      var a := PortIsListed(j, out, p);
      var b := PortIsListed(j, out, q);
      assert Emitters(RcvErrRows(j, rows[a].portSelect), key) > 0
        && Emitters(RcvErrRows(j, rows[b].portSelect), key) > 0;
    }
    RcvErrCounts(j, rows, key);
    EmittersAppend(rows, AllRcvErrRows(j, rows), key);
  }

  // ---------------------------------------------------------------- the whole scrape

  /** A series comes from the one device with its GUID. */
  lemma {:induction false} ScrapeCounts(jobs: seq<Job>, flags: Flags, key: Key)
    requires ValidJobs(jobs)
    ensures Emitters(ScrapeRows(jobs, flags), key) > 0 ==> exists i | 0 <= i < |jobs| :: jobs[i].device.guid == key.guid
    ensures forall i | 0 <= i < |jobs| && jobs[i].device.guid == key.guid ::
      Emitters(ScrapeRows(jobs, flags), key) == Emitters(JobRows(jobs[i], flags), key)
  {
    hide Emits, JobRows, ValidJob, NoOverlap;
    if jobs != [] {
      var n := |jobs| - 1;
      ScrapeCounts(jobs[..n], flags, key);
      DeviceEmitsOnce(jobs[n], flags, key);
      EmittersAppend(ScrapeRows(jobs[..n], flags), JobRows(jobs[n], flags), key);
      if Emitters(ScrapeRows(jobs[..n], flags), key) == 0 {
        forall i | 0 <= i < n && jobs[i].device.guid == key.guid
          ensures Emitters(JobRows(jobs[i], flags), key) == 0
        {
          assert jobs[..n][i] == jobs[i];
        }
      }
    }
  }

  lemma ScrapeEmitsOnce(jobs: seq<Job>, flags: Flags, key: Key)
    requires ValidJobs(jobs) && forall i | 0 <= i < |jobs| :: NoOverlap(jobs[i])
    ensures Emitters(ScrapeRows(jobs, flags), key) <= 1
  {
    hide Emits, JobRows, ValidJob, NoOverlap, ScrapeRows;
    ScrapeCounts(jobs, flags, key);
    if i :| 0 <= i < |jobs| && jobs[i].device.guid == key.guid {
      DeviceEmitsOnce(jobs[i], flags, key);
    }
  }

  lemma SamplesOfScrape(jobs: seq<Job>, flags: Flags, limit: int, before: Shared<Record, Metrics>, events: seq<Event>,
    after: Shared<Record, Metrics>, key: Key)
    requires ValidJobs(jobs) && before.rows == [] && FinishedScrape(jobs, flags, limit, before, events, after)
    ensures Occurrences(AllSamples(after.rows), key) == Emitters(ScrapeRows(jobs, flags), key)
  {
    hide Emits, ValidJob, FinishedScrape, Sum, Accounts, AllSamples;
    ScrapeConservesAccounts(jobs, flags, limit, before, events, after);
    ScrapeRowsCounted(jobs, flags);
    assert multiset(after.rows) == multiset(ScrapeRows(jobs, flags));
    EmittersPermuted(after.rows, ScrapeRows(jobs, flags), key);
    SamplesAreEmitters(after.rows, key);
  }

  /**
   * Sample uniqueness: whatever the schedule, no (metric, GUID, port) is emitted twice by a scrape of distinct GUIDs
   * with both queries on, if and only if no two outputs of a device set the same counter of the same port.
   */
  lemma SamplesAreUniqueIff(jobs: seq<Job>, limit: int, before: Shared<Record, Metrics>, events: seq<Event>,
    after: Shared<Record, Metrics>)
    requires ValidJobs(jobs) && before.rows == []
    requires FinishedScrape(jobs, Flags(true, true), limit, before, events, after)
    ensures (forall key :: Occurrences(AllSamples(after.rows), key) <= 1)
      <==> forall i | 0 <= i < |jobs| :: NoOverlap(jobs[i])
  {
    hide Emits, ValidJob, FinishedScrape, AllSamples, NoOverlap, JobRows, ScrapeRows, Emitters, Occurrences;
    var flags := Flags(true, true);
    if forall i | 0 <= i < |jobs| :: NoOverlap(jobs[i]) {
      forall key ensures Occurrences(AllSamples(after.rows), key) <= 1 {
        SamplesOfScrape(jobs, flags, limit, before, events, after, key);
        ScrapeEmitsOnce(jobs, flags, key);
      }
    } else {
      var i :| 0 <= i < |jobs| && !NoOverlap(jobs[i]);
      assert ValidJob(jobs[i]);
      var key := OverlapIsEmittedTwice(jobs[i]);
      DeviceEmitsOnce(jobs[i], flags, key);
      ScrapeCounts(jobs, flags, key);
      SamplesOfScrape(jobs, flags, limit, before, events, after, key);
    }
  }

  // ---------------------------------------------------------------- a condition on the texts

  ghost predicate SharesCounter(a: string, b: string) {
    exists d | 0 <= d < |DEFS| :: Mentions(Split(a, '\n'), DEFS[d].field) && Mentions(Split(b, '\n'), DEFS[d].field)
  }

  /**
   * Enough, and to be seen in the texts: `-E` reports only the port it was asked for, and no counter is named both
   * by the `-x` output and by an `-E` output.
   */
  ghost predicate Disjoint(j: Job) {
    j.base.result.Success? ==>
      forall p | p in Ports(j.device, j.base.result.out) && j.rcvErr(p).result.Success? ::
        && Ports(j.device, j.rcvErr(p).result.out) <= {p}
        && !SharesCounter(j.base.result.out, j.rcvErr(p).result.out)
  }

  lemma SetByBoth(j: Job, a: string, b: string, port: string, d: nat)
    requires d < |DEFS| && Sets(j, a, port, d) && Sets(j, b, port, d)
    ensures SharesCounter(a, b)
  {
    hide DEFS, Parse, Mentions, Split, ValueOf;
    SetFieldsAreMentioned(j.device, a, port, DEFS[d].field);
    SetFieldsAreMentioned(j.device, b, port, DEFS[d].field);
  }

  lemma DisjointDoesNotOverlap(j: Job)
    requires Disjoint(j)
    ensures NoOverlap(j)
  {
    hide DEFS, Parse, SharesCounter, ValueOf;
    if j.base.result.Success? {
      var out := j.base.result.out;
      forall p, port, d | p in Ports(j.device, out) && j.rcvErr(p).result.Success? && 0 <= d < |DEFS|
        ensures !(Sets(j, out, port, d) && Sets(j, j.rcvErr(p).result.out, port, d))
      {
        if Sets(j, out, port, d) && Sets(j, j.rcvErr(p).result.out, port, d) {
          SetByBoth(j, out, j.rcvErr(p).result.out, port, d);
        }
      }
    }
  }

  /** For any flags and every schedule, such texts never give a sample twice. */
  lemma SamplesAreUnique(jobs: seq<Job>, flags: Flags, limit: int, before: Shared<Record, Metrics>,
    events: seq<Event>, after: Shared<Record, Metrics>, key: Key)
    requires ValidJobs(jobs) && before.rows == [] && forall i | 0 <= i < |jobs| :: Disjoint(jobs[i])
    requires FinishedScrape(jobs, flags, limit, before, events, after)
    ensures Occurrences(AllSamples(after.rows), key) <= 1
  {
    hide Emits, ValidJob, FinishedScrape, AllSamples, NoOverlap, Disjoint, JobRows, ScrapeRows;
    forall i | 0 <= i < |jobs| ensures NoOverlap(jobs[i]) {
      DisjointDoesNotOverlap(jobs[i]);
    }
    ScrapeEmitsOnce(jobs, flags, key);
    SamplesOfScrape(jobs, flags, limit, before, events, after, key);
  }

  // ---------------------------------------------------------------- outputs that overlap

  /** An output that reports one counter of one port. */
  const PACKETS := "PortSelect:1\nPortXmitPkts:2"

  function PacketsBlock(): Block {
    Block("1", 0, [Reading("PortXmitPkts", 0, 2)])
  }

  lemma PacketLines()
    ensures
      var b := PacketsBlock();
      && AllLines([b]) == [PortLine("1", 0), ReadingLine(b.readings[0])]
      && PortLine("1", 0) == "PortSelect:1" && ReadingLine(b.readings[0]) == "PortXmitPkts:2"
  {
    hide Dec;
    TwoIsPrinted();
    var b := PacketsBlock();
    assert Dots(0) == "";
    assert [b][..0] == [];
    assert AllLines([b]) == [] + BlockLines("1", 0, b.readings);
    assert ReadingLines(b.readings) == [ReadingLine(b.readings[0])];
  }

  lemma PacketsIsABlock()
    ensures Split(PACKETS, '\n') == AllLines([PacketsBlock()]) && ValidBlocks([PacketsBlock()])
  {
    hide Split, PortLine, ReadingLine, AllLines, KindOf;
    PacketLines();
    PacketsIsJoined();
    PacketsIsACounter();
    SplitJoin(["PortSelect:1", "PortXmitPkts:2"], '\n');
  }

  lemma PacketsIsJoined()
    ensures Join(["PortSelect:1", "PortXmitPkts:2"], '\n') == PACKETS
    ensures forall p <- ["PortSelect:1", "PortXmitPkts:2"] :: '\n' !in p
  {
    assert ["PortSelect:1", "PortXmitPkts:2"][1..] == ["PortXmitPkts:2"];
  }

  lemma TwoIsPrinted()
    ensures Dec(2) == "2"
  {
  }

  lemma PacketsIsACounter()
    ensures KindOf("PortXmitPkts").FloatField? && "PortXmitPkts" in COUNTERS && ':' !in "PortXmitPkts"
    ensures |DEFS| > 2 && DEFS[2] == CounterDef("port_transmit_packets_total", "PortXmitPkts")
  {
    assert COUNTERS[2] == "PortXmitPkts";
  }

  lemma PacketsAreSet(j: Job)
    ensures |DEFS| > 2 && Sets(j, PACKETS, "1", 2)
  {
    hide Run, COUNTERS, DEFS, Scaled, Split, KindOf, BlockValues, ValidReadings;
    var b := PacketsBlock();
    PacketsIsABlock();
    InterleavesItself(AllLines([b]), Unknown);
    PerfqueryRoundTrip(j.device, PACKETS, [b]);
    AllRecordsAre(j.device, [b], "1");
    PacketsIsACounter();
    assert ValidReadings([b][0].readings);
    BlockValuesAre(b.readings, "PortXmitPkts");
    assert b.readings[0].name == "PortXmitPkts";
  }

  /** The records in some order. */
  ghost function Listed(records: map<string, Record>): (list: seq<Record>)
    ensures (forall p <- records :: records[p].portSelect == p) ==> Enumerates(list, records)
  {
    if records == map[] then []
    else
      var p :| p in records;
      if forall q <- records :: records[q].portSelect == q then
        WithoutOne(records, p);
        Listed(records - {p}) + [records[p]]
      else []
  }

  lemma ListedIsValid(j: Job)
    requires forall out :: j.listing(out) == Listed(Parse(j.device, out).records)
    ensures ValidJob(j)
  {
    hide Run, Split, Enumerates;
    forall out ensures Enumerates(j.listing(out), Parse(j.device, out).records) {
      KeysArePorts(j.device, START, Split(out, '\n'));
    }
  }

  /** A device whose two queries both report the packets of port 1: the sample is emitted twice. */
  lemma OverlapHappens() returns (j: Job, key: Key)
    ensures ValidJob(j) && j.base.result == Success(PACKETS) && j.rcvErr("1").result == Success(PACKETS)
    ensures !NoOverlap(j) && Emitters(JobRows(j, Flags(true, true)), key) >= 2
  {
    hide Parse, DEFS, Emits, JobRows, ValueOf, Emitters, ValidJob, Listed, Sets, NoOverlap;
    var query := Query(Success(PACKETS), 0, 0.0);
    j := Job(Device("0x1", "leaf"), query, _ => query, out => Listed(Parse(Device("0x1", "leaf"), out).records));
    ListedIsValid(j);
    PacketsAreSet(j);
    BothSetOverlap(j, "1", 2);
    key := OverlapIsEmittedTwice(j);
  }

  lemma BothSetOverlap(j: Job, port: string, d: nat)
    requires d < |DEFS| && Sets(j, PACKETS, port, d)
    requires j.base.result == Success(PACKETS) && j.rcvErr(port).result == Success(PACKETS)
    ensures !NoOverlap(j)
  {
    hide Parse, DEFS, ValueOf;
  }
}
