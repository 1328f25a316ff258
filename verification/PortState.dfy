/** The port-state series of the switch collector. */
module PortState {
  import opened Text
  import opened Order
  import opened Ibnetdiscover
  import opened TopologyFold

  datatype Sample = Sample(guid: string, port: string, value: nat)

  /** How often a device contributes a sample. */
  function Contribution(d: Device, s: Sample): nat {
    Partly(d, s, d.uplinks.Keys, d.downPorts)
  }

  /** The same, for these uplinks and down ports only. */
  function Partly(d: Device, s: Sample, uplinks: set<string>, downPorts: seq<string>): nat {
    if s.guid != d.guid then 0
    else if s.value == 1 then (if s.port in uplinks then 1 else 0)
    else if s.value == 0 then multiset(downPorts)[s.port]
    else 0
  }

  function Total(devices: seq<Device>, s: Sample): nat {
    if devices == [] then 0 else Total(devices[..|devices| - 1], s) + Contribution(devices[|devices| - 1], s)
  }

  lemma NextUplink(d: Device, uplinks: set<string>, port: string)
    requires port !in uplinks
    ensures forall s ::
      Partly(d, s, uplinks + {port}, []) == Partly(d, s, uplinks, []) + (if s == Sample(d.guid, port, 1) then 1 else 0)
  {
  }

  lemma NextDownPort(d: Device, uplinks: set<string>, downPorts: seq<string>, port: string)
    ensures forall s ::
      Partly(d, s, uplinks, downPorts + [port])
        == Partly(d, s, uplinks, downPorts) + (if s == Sample(d.guid, port, 0) then 1 else 0)
  {
  }

  method EmitDevice(d: Device) returns (samples: seq<Sample>)
    ensures forall s :: multiset(samples)[s] == Contribution(d, s)
  {
    hide Partly;
    samples := [];
    var todo := d.uplinks.Keys;
    NothingYet(d);
    while todo != {}
      invariant todo <= d.uplinks.Keys
      invariant forall s :: multiset(samples)[s] == Partly(d, s, d.uplinks.Keys - todo, [])
    {
      var port :| port in todo;
      NextUplink(d, d.uplinks.Keys - todo, port);
      assert d.uplinks.Keys - (todo - {port}) == d.uplinks.Keys - todo + {port};
      todo := todo - {port};
      samples := samples + [Sample(d.guid, port, 1)];
    }
    assert d.uplinks.Keys - todo == d.uplinks.Keys;
    for i := 0 to |d.downPorts|
      invariant forall s :: multiset(samples)[s] == Partly(d, s, d.uplinks.Keys, d.downPorts[..i])
    {
      NextDownPort(d, d.uplinks.Keys, d.downPorts[..i], d.downPorts[i]);
      assert d.downPorts[..i + 1] == d.downPorts[..i] + [d.downPorts[i]];
      samples := samples + [Sample(d.guid, d.downPorts[i], 0)];
    }
    assert d.downPorts[..|d.downPorts|] == d.downPorts;
  }

  lemma NothingYet(d: Device)
    ensures d.uplinks.Keys - d.uplinks.Keys == {} && forall s :: Partly(d, s, {}, []) == 0
  {
  }

  method EmitPortState(devices: seq<Device>) returns (samples: seq<Sample>)
    ensures forall s :: multiset(samples)[s] == Total(devices, s)
  {
    hide Contribution;
    samples := [];
    for i := 0 to |devices|
      invariant forall s :: multiset(samples)[s] == Total(devices[..i], s)
    {
      assert devices[..i + 1][..i] == devices[..i];
      var more := EmitDevice(devices[i]);
      samples := samples + more;
    }
    assert devices[..|devices|] == devices;
  }

  /** The line is about a switch, and this sample is what it should yield. */
  predicate Yields(l: Line, s: Sample) {
    && (l.Down? || l.Link?) && l.kind == "SW"
    && ((s.value == 1 && IsUp(l, s.guid, s.port)) || (s.value == 0 && IsDown(l, s.guid, s.port)))
  }

  lemma {:induction false} TotalOf(devices: seq<Device>, s: Sample, k: int)
    requires forall i, j | 0 <= i < j < |devices| :: devices[i].guid != devices[j].guid
    requires -1 <= k < |devices| && (k >= 0 ==> devices[k].guid == s.guid)
    requires k == -1 ==> forall i | 0 <= i < |devices| :: devices[i].guid != s.guid
    ensures Total(devices, s) == if k >= 0 then Contribution(devices[k], s) else 0
  {
    if devices != [] {
      var n := |devices| - 1;
      TotalOf(devices[..n], s, if k < n then k else -1);
    }
  }

  lemma ContributionOf(lines: seq<Line>, d: Device, s: Sample)
    requires IsDeviceOf(lines, s.guid, d) && d.guid == s.guid && d.kind == "SW"
    ensures Contribution(d, s) == if exists l <- lines :: Yields(l, s) then 1 else 0
  {
    hide Named, Rated, Upstream;
    forall l | l in lines
      ensures Yields(l, s) <==> (s.value == 1 && IsUp(l, s.guid, s.port)) || (s.value == 0 && IsDown(l, s.guid, s.port))
    {
      assert IsUp(l, s.guid, s.port) || IsDown(l, s.guid, s.port) ==> Describes(l, s.guid);
    }
    assert s.value == 1 ==> (s.port in d.uplinks <==> exists l <- lines :: IsUp(l, s.guid, s.port));
    assert s.value == 0 ==>
      multiset(d.downPorts)[s.port] == if exists l <- lines :: IsDown(l, s.guid, s.port) then 1 else 0;
  }

  /**
   * Port-state exactness: if each (GUID, port) is on at most one line and the lines about a device agree, the samples
   * are exactly one with value 1 for each connected line of a switch and one with value 0 for each `???` line of one.
   */
  lemma PortStateIsExact(out: string, t: Topology, s: Sample)
    requires ParseDevices(out, true).Devices? && IsTopology(ParseDevices(out, true).devices, t)
    requires Consistent(ParseLines(Split(out, '\n'), true))
    ensures Total(t.switches, s) == if exists l <- ParseLines(Split(out, '\n'), true) :: Yields(l, s) then 1 else 0
  {
    hide Run, Consistent, IsDeviceOf, Split, ParseLine, Yields, Less, Contribution;
    var lines, devices := ParseLines(Split(out, '\n'), true), ParseDevices(out, true).devices;
    RunIsDescribed(lines);
    DescribedIs(lines, s.guid);
    forall i, j | 0 <= i < j < |t.switches| ensures t.switches[i].guid != t.switches[j].guid {
      LessTotal(t.switches[i].guid, t.switches[j].guid);
    }
    if k :| 0 <= k < |t.switches| && t.switches[k].guid == s.guid {
      TotalOf(t.switches, s, k);
      ContributionOf(lines, t.switches[k], s);
    } else {
      TotalOf(t.switches, s, -1);
      forall l | l in lines ensures !Yields(l, s) {
        if Yields(l, s) {
          YieldingIsSwitch(lines, l, s, devices);
        }
      }
    }
  }

  lemma YieldingIsSwitch(lines: seq<Line>, l: Line, s: Sample, devices: map<string, Device>)
    requires l in lines && Yields(l, s) && IsDeviceOf(lines, s.guid, Described(lines, s.guid))
    requires forall g :: g in devices <==> exists i | 0 <= i < |lines| :: Describes(lines[i], g)
    requires forall g | g in devices :: devices[g] == Described(lines, g)
    ensures s.guid in devices && devices[s.guid].kind == "SW"
  {
    hide Named, Rated, Upstream, Linked, Unplugged, Described;
    assert Describes(l, s.guid);
    var i :| 0 <= i < |lines| && lines[i] == l;
    assert Describes(lines[i], s.guid);
  }
}
