/** The metrics emitted for port counters. */
module Emission {
  import opened Wrappers
  import opened Text
  import opened Perfquery

  datatype CounterDef = CounterDef(metric: string, field: string)

  /** portCounterDefs: one metric per counter. */
  const DEFS: seq<CounterDef> := [
    CounterDef("port_transmit_data_bytes_total", "PortXmitData"),
    CounterDef("port_receive_data_bytes_total", "PortRcvData"),
    CounterDef("port_transmit_packets_total", "PortXmitPkts"),
    CounterDef("port_receive_packets_total", "PortRcvPkts"),
    CounterDef("port_unicast_transmit_packets_total", "PortUnicastXmitPkts"),
    CounterDef("port_unicast_receive_packets_total", "PortUnicastRcvPkts"),
    CounterDef("port_multicast_transmit_packets_total", "PortMulticastXmitPkts"),
    CounterDef("port_multicast_receive_packets_total", "PortMulticastRcvPkts"),
    CounterDef("port_symbol_error_total", "SymbolErrorCounter"),
    CounterDef("port_link_error_recovery_total", "LinkErrorRecoveryCounter"),
    CounterDef("port_link_downed_total", "LinkDownedCounter"),
    CounterDef("port_receive_errors_total", "PortRcvErrors"),
    CounterDef("port_receive_remote_physical_errors_total", "PortRcvRemotePhysicalErrors"),
    CounterDef("port_receive_switch_relay_errors_total", "PortRcvSwitchRelayErrors"),
    CounterDef("port_transmit_discards_total", "PortXmitDiscards"),
    CounterDef("port_transmit_constraint_errors_total", "PortXmitConstraintErrors"),
    CounterDef("port_receive_constraint_errors_total", "PortRcvConstraintErrors"),
    CounterDef("port_local_link_integrity_errors_total", "LocalLinkIntegrityErrors"),
    CounterDef("port_excessive_buffer_overrun_errors_total", "ExcessiveBufferOverrunErrors"),
    CounterDef("port_vl15_dropped_total", "VL15Dropped"),
    CounterDef("port_transmit_wait_total", "PortXmitWait"),
    CounterDef("port_qp1_dropped_total", "QP1Dropped"),
    CounterDef("port_local_physical_errors_total", "PortLocalPhysicalErrors"),
    CounterDef("port_malformed_packet_errors_total", "PortMalformedPktErrors"),
    CounterDef("port_buffer_overrun_errors_total", "PortBufferOverrunErrors"),
    CounterDef("port_dlid_mapping_errors_total", "PortDLIDMappingErrors"),
    CounterDef("port_vl_mapping_errors_total", "PortVLMappingErrors"),
    CounterDef("port_looping_errors_total", "PortLoopingErrors")]

  lemma MetricsDiffer0To12()
    ensures forall i, j | 0 <= i < j < 12 && 0 <= j :: DEFS[i].metric != DEFS[j].metric
  {
  }

  lemma MetricsDiffer12To20()
    ensures forall i, j | 0 <= i < j < 20 && 12 <= j :: DEFS[i].metric != DEFS[j].metric
  {
  }

  lemma MetricsDiffer20To28()
    ensures forall i, j | 0 <= i < j < 28 && 20 <= j :: DEFS[i].metric != DEFS[j].metric
  {
  }

  /** No two counters share a metric. */
  lemma MetricsDiffer()
    ensures forall i, j | 0 <= i < j < |DEFS| :: DEFS[i].metric != DEFS[j].metric
  {
    hide DEFS;
    MetricsDiffer0To12();
    MetricsDiffer12To20();
    MetricsDiffer20To28();
    assert |DEFS| == 28 by { DefsLength(); }
  }

  lemma DefsLength()
    ensures |DEFS| == 28
  {
  }

  // ---------------------------------------------------------------- emission

  datatype Sample = Sample(metric: string, guid: string, port: string, value: real)

  datatype Key = Key(metric: string, guid: string, port: string)

  function ValueOf(c: Record, field: string): Option<real> {
    if field in c.values then c.values[field] else None
  }

  /** The samples of the first `k` definitions. */
  function EmittedBy(c: Record, k: nat): seq<Sample>
    requires k <= |DEFS|
  {
    if k == 0 then []
    else
      var def := DEFS[k - 1];
      EmittedBy(c, k - 1)
      + (match ValueOf(c, def.field)
         case None => []
         case Some(x) => [Sample(def.metric, c.device.guid, c.portSelect, x)])
  }

  /** The samples are exactly the readings that are numbers, each under its own metric, with device and port. */
  lemma {:induction false} EmittedAre(c: Record, k: nat, s: Sample)
    requires k <= |DEFS|
    ensures s in EmittedBy(c, k) <==> exists i | 0 <= i < k ::
      ValueOf(c, DEFS[i].field) == Some(s.value) && s.metric == DEFS[i].metric && s.guid == c.device.guid
        && s.port == c.portSelect
  {
    hide DEFS, ValueOf;
    if k > 0 {
      EmittedAre(c, k - 1, s);
    }
  }

  // ---------------------------------------------------------------- the series

  /** Each counter of perfquery and the series it is published as. */
  const SERIES: seq<(string, string)> := [
    ("PortXmitData", "port_transmit_data_bytes_total"),
    ("PortRcvData", "port_receive_data_bytes_total"),
    ("PortXmitPkts", "port_transmit_packets_total"),
    ("PortRcvPkts", "port_receive_packets_total"),
    ("PortUnicastXmitPkts", "port_unicast_transmit_packets_total"),
    ("PortUnicastRcvPkts", "port_unicast_receive_packets_total"),
    ("PortMulticastXmitPkts", "port_multicast_transmit_packets_total"),
    ("PortMulticastRcvPkts", "port_multicast_receive_packets_total"),
    ("SymbolErrorCounter", "port_symbol_error_total"),
    ("LinkErrorRecoveryCounter", "port_link_error_recovery_total"),
    ("LinkDownedCounter", "port_link_downed_total"),
    ("PortRcvErrors", "port_receive_errors_total"),
    ("PortRcvRemotePhysicalErrors", "port_receive_remote_physical_errors_total"),
    ("PortRcvSwitchRelayErrors", "port_receive_switch_relay_errors_total"),
    ("PortXmitDiscards", "port_transmit_discards_total"),
    ("PortXmitConstraintErrors", "port_transmit_constraint_errors_total"),
    ("PortRcvConstraintErrors", "port_receive_constraint_errors_total"),
    ("LocalLinkIntegrityErrors", "port_local_link_integrity_errors_total"),
    ("ExcessiveBufferOverrunErrors", "port_excessive_buffer_overrun_errors_total"),
    ("VL15Dropped", "port_vl15_dropped_total"),
    ("PortXmitWait", "port_transmit_wait_total"),
    ("QP1Dropped", "port_qp1_dropped_total"),
    ("PortLocalPhysicalErrors", "port_local_physical_errors_total"),
    ("PortMalformedPktErrors", "port_malformed_packet_errors_total"),
    ("PortBufferOverrunErrors", "port_buffer_overrun_errors_total"),
    ("PortDLIDMappingErrors", "port_dlid_mapping_errors_total"),
    ("PortVLMappingErrors", "port_vl_mapping_errors_total"),
    ("PortLoopingErrors", "port_looping_errors_total")]

  lemma FirstSeries()
    ensures |DEFS| == |COUNTERS| == |SERIES| == 28
    ensures forall i | 0 <= i < 14 ::
      DEFS[i].field == COUNTERS[i] == SERIES[i].0 && DEFS[i].metric == SERIES[i].1
  {
  }

  lemma LastSeries()
    ensures |DEFS| == |COUNTERS| == |SERIES| == 28
    ensures forall i | 14 <= i < 28 ::
      DEFS[i].field == COUNTERS[i] == SERIES[i].0 && DEFS[i].metric == SERIES[i].1
  {
  }

  /** Every counter has its metric, in the order of the definitions. */
  lemma EveryCounterHasItsSeries()
    ensures |DEFS| == |COUNTERS| == |SERIES| == 28
    ensures forall i | 0 <= i < 28 ::
      DEFS[i].field == COUNTERS[i] == SERIES[i].0 && DEFS[i].metric == SERIES[i].1
  {
    hide DEFS, COUNTERS, SERIES;
    FirstSeries();
    LastSeries();
  }

  /** What a record emits, series by series. */
  lemma EmittedSeries(c: Record)
    ensures forall s :: s in EmittedBy(c, |DEFS|) <==>
      && s.guid == c.device.guid && s.port == c.portSelect
      && exists i | 0 <= i < |SERIES| :: s.metric == SERIES[i].1 && ValueOf(c, SERIES[i].0) == Some(s.value)
  {
    hide DEFS, COUNTERS, SERIES, ValueOf, EmittedBy;
    EveryCounterHasItsSeries();
    forall s: Sample
      ensures s in EmittedBy(c, |DEFS|) <==>
        && s.guid == c.device.guid && s.port == c.portSelect
        && exists i | 0 <= i < |SERIES| :: s.metric == SERIES[i].1 && ValueOf(c, SERIES[i].0) == Some(s.value)
    {
      EmittedAre(c, |DEFS|, s);
    }
  }

  /** The samples are the readings that are numbers, each in the series of its counter, and no others. */
  method EmitPortCounters(c: Record) returns (samples: seq<Sample>)
    ensures samples == EmittedBy(c, |DEFS|)
    ensures forall s :: s in samples <==>
      && s.guid == c.device.guid && s.port == c.portSelect
      && exists i | 0 <= i < |SERIES| :: s.metric == SERIES[i].1 && ValueOf(c, SERIES[i].0) == Some(s.value)
  {
    hide DEFS, SERIES;
    samples := [];
    for i := 0 to |DEFS|
      invariant samples == EmittedBy(c, i)
    {
      var def := DEFS[i];
      var val := ValueOf(c, def.field);
      if val.None? {
        continue;
      }
      samples := samples + [Sample(def.metric, c.device.guid, c.portSelect, val.value)];
    }
    EmittedSeries(c);
  }

  function Occurrences(samples: seq<Sample>, key: Key): nat {
    if samples == [] then 0
    else
      var s := samples[|samples| - 1];
      Occurrences(samples[..|samples| - 1], key) + (if Key(s.metric, s.guid, s.port) == key then 1 else 0)
  }

  lemma {:induction false} OccurrencesAppend(a: seq<Sample>, b: seq<Sample>, key: Key)
    ensures Occurrences(a + b, key) == Occurrences(a, key) + Occurrences(b, key)
    decreases |b|
  {
    if b == [] {
      assert a + b == a;
    } else {
      assert (a + b)[..|a + b| - 1] == a + b[..|b| - 1];
      OccurrencesAppend(a, b[..|b| - 1], key);
    }
  }

  /** The record has a reading for this metric, under this device and port. */
  ghost predicate Emits(c: Record, key: Key) {
    c.device.guid == key.guid && c.portSelect == key.port
    && exists i | 0 <= i < |DEFS| :: DEFS[i].metric == key.metric && ValueOf(c, DEFS[i].field).Some?
  }

  lemma NoneIn(key: Key)
    ensures Occurrences([], key) == 0
  {
  }

  lemma OneSample(s: Sample, key: Key)
    ensures Occurrences([s], key) == if Key(s.metric, s.guid, s.port) == key then 1 else 0
  {
    assert [s][..0] == [];
  }

  lemma {:induction false} EmittedOnce(c: Record, k: nat, key: Key)
    requires k <= |DEFS|
    ensures Occurrences(EmittedBy(c, k), key) ==
      if c.device.guid == key.guid && c.portSelect == key.port
         && exists i | 0 <= i < k :: DEFS[i].metric == key.metric && ValueOf(c, DEFS[i].field).Some?
      then 1 else 0
  {
    hide DEFS, Occurrences;
    MetricsDiffer();
    NoneIn(key);
    if k > 0 {
      EmittedOnce(c, k - 1, key);
      var def := DEFS[k - 1];
      if ValueOf(c, def.field).Some? {
        var s := Sample(def.metric, c.device.guid, c.portSelect, ValueOf(c, def.field).value);
        OneSample(s, key);
        OccurrencesAppend(EmittedBy(c, k - 1), [s], key);
      } else {
        assert EmittedBy(c, k - 1) + [] == EmittedBy(c, k - 1);
      }
    }
  }

  /** All samples of a list of records. */
  function AllSamples(rows: seq<Record>): seq<Sample> {
    if rows == [] then [] else AllSamples(rows[..|rows| - 1]) + EmittedBy(rows[|rows| - 1], |DEFS|)
  }

  /** How many of the records emit this key. */
  ghost function Emitters(rows: seq<Record>, key: Key): nat {
    if rows == [] then 0 else Emitters(rows[..|rows| - 1], key) + (if Emits(rows[|rows| - 1], key) then 1 else 0)
  }

  /** A key is sampled once by each record that emits it. */
  lemma {:induction false} SamplesAreEmitters(rows: seq<Record>, key: Key)
    ensures Occurrences(AllSamples(rows), key) == Emitters(rows, key)
  {
    hide DEFS, EmittedBy;
    if rows != [] {
      var n := |rows| - 1;
      SamplesAreEmitters(rows[..n], key);
      EmittedOnce(rows[n], |DEFS|, key);
      OccurrencesAppend(AllSamples(rows[..n]), EmittedBy(rows[n], |DEFS|), key);
    }
  }

  lemma {:induction false} EmittersAppend(a: seq<Record>, b: seq<Record>, key: Key)
    ensures Emitters(a + b, key) == Emitters(a, key) + Emitters(b, key)
    decreases |b|
  {
    hide Emits;
    if b == [] {
      assert a + b == a;
    } else {
      assert (a + b)[..|a + b| - 1] == a + b[..|b| - 1];
      EmittersAppend(a, b[..|b| - 1], key);
    }
  }

  /** The order of the records does not matter. */
  lemma {:induction false} EmittersPermuted(a: seq<Record>, b: seq<Record>, key: Key)
    requires multiset(a) == multiset(b)
    ensures Emitters(a, key) == Emitters(b, key)
    decreases |a|
  {
    hide Emits, Emitters;
    if a == [] {
      assert |multiset(b)| == |multiset(a)| == 0;
    } else {
      assert a[0] in multiset(b);
      var i :| 0 <= i < |b| && b[i] == a[0];
      SameWithout(a, b, i);
      EmittersPermuted(a[1..], b[..i] + b[i + 1..], key);
      EmittersAppend(b[..i], b[i + 1..], key);
      EmittersAppend(b[..i], [b[i]], key);
      EmittersAppend(b[..i] + [b[i]], b[i + 1..], key);
      EmittersAppend([a[0]], a[1..], key);
      assert a == [a[0]] + a[1..] && b == b[..i] + [b[i]] + b[i + 1..];
    }
  }
}
