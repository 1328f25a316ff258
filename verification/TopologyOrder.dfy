/** The topology does not depend on the order of the lines. */
module TopologyOrder {
  import opened Text
  import opened Order
  import opened Ibnetdiscover
  import opened TopologyFold

  /** The same device, up to which uplink came last and the order of its down ports. */
  ghost predicate SameButOrder(a: Device, b: Device) {
    a.(switch := "", downPorts := []) == b.(switch := "", downPorts := [])
      && multiset(a.downPorts) == multiset(b.downPorts)
  }

  /** Lines about one device tell one name and, if it is an HCA, one pair of rates. */
  ghost predicate Uniform(lines: seq<Line>) {
    && (forall l, m | l in lines && m in lines && Naming(l) && Naming(m) && l.guid == m.guid :: NameOf(l) == NameOf(m))
    && (forall l, m | l in lines && m in lines && Rating(l) && Rating(m) && l.guid == m.guid :: l.rates == m.rates)
  }

  lemma DeviceIsDetermined(a: seq<Line>, b: seq<Line>, g: string, d: Device, e: Device)
    requires (forall l :: l in a <==> l in b) && Uniform(a)
    requires IsDeviceOf(a, g, d) && IsDeviceOf(b, g, e) && exists l <- a :: Describes(l, g)
    ensures SameButOrder(d, e)
  {
    hide Upstream, UplinkOf, Linked, Unplugged, Named, Rated, Uniform;
    SameUplinks(a, b, g, d, e);
    SameNamesAndRates(a, b, g, d, e);
    SameDownPorts(a, b, g, d, e);
    var l :| l in a && Describes(l, g);
  }

  lemma SameUplinks(a: seq<Line>, b: seq<Line>, g: string, d: Device, e: Device)
    requires forall l :: l in a <==> l in b
    requires Linked(a, g, d) && Linked(b, g, e)
    ensures d.uplinks == e.uplinks
  {
    hide UplinkOf;
    forall p ensures p in d.uplinks <==> p in e.uplinks {
      assert (exists l <- a :: IsUp(l, g, p)) <==> (exists l <- b :: IsUp(l, g, p));
    }
    forall p | p in d.uplinks ensures d.uplinks[p] == e.uplinks[p] {
      var l :| l in a && IsUp(l, g, p);
      assert Describes(l, g) && IsUp(l, g, l.port);
    }
  }

  lemma SameNamesAndRates(a: seq<Line>, b: seq<Line>, g: string, d: Device, e: Device)
    requires (forall l :: l in a <==> l in b) && Uniform(a)
    requires Named(a, g, d) && Named(b, g, e) && Rated(a, g, d) && Rated(b, g, e)
    ensures d.name == e.name && d.rate == e.rate && d.rawRate == e.rawRate
  {
    LastOfSame(a, b, g, Naming);
    LastOfSame(a, b, g, Rating);
  }

  lemma LastOfSame(a: seq<Line>, b: seq<Line>, g: string, tells: Line -> bool)
    requires forall l :: l in a <==> l in b
    ensures LastOf(a, g, tells).Some? <==> LastOf(b, g, tells).Some?
  {
  }

  lemma SameDownPorts(a: seq<Line>, b: seq<Line>, g: string, d: Device, e: Device)
    requires forall l :: l in a <==> l in b
    requires Unplugged(a, g, d) && Unplugged(b, g, e)
    ensures multiset(d.downPorts) == multiset(e.downPorts)
  {
    forall p ensures multiset(d.downPorts)[p] == multiset(e.downPorts)[p] {
      assert (exists l <- a :: IsDown(l, g, p)) <==> (exists l <- b :: IsDown(l, g, p));
    }
  }

  // ---------------------------------------------------------------- permuted lines

  lemma ParseLinesAppend(a: seq<string>, b: seq<string>, portState: bool)
    ensures ParseLines(a + b, portState) == ParseLines(a, portState) + ParseLines(b, portState)
  {
    hide ParseLine;
  }

  lemma {:induction false} MapPermuted(a: seq<string>, b: seq<string>, portState: bool)
    requires multiset(a) == multiset(b)
    ensures multiset(ParseLines(a, portState)) == multiset(ParseLines(b, portState))
    decreases |a|
  {
    hide ParseLine, ParseLines;
    if a == [] {
      assert |multiset(b)| == |multiset(a)| == 0;
    } else {
      assert a[0] in multiset(b);
      var i :| 0 <= i < |b| && b[i] == a[0];
      SameWithout(a, b, i);
      MapPermuted(a[1..], b[..i] + b[i + 1..], portState);
      ParseLinesAppend([a[0]], a[1..], portState);
      ParseLinesAppend(b[..i], b[i + 1..], portState);
      ParseLinesAppend(b[..i], [b[i]], portState);
      ParseLinesAppend(b[..i] + [b[i]], b[i + 1..], portState);
      assert a == [a[0]] + a[1..] && b == b[..i] + [b[i]] + b[i + 1..];
    }
  }

  lemma TwiceIn<T>(a: seq<T>, x: T) returns (i: nat, j: nat)
    requires multiset(a)[x] >= 2
    ensures i < j < |a| && a[i] == x == a[j]
  {
    assert x in a;
    i :| i < |a| && a[i] == x && x !in a[..i] by { FirstOf(a, x); }
    assert a == a[..i] + [x] + a[i + 1..];
    assert multiset(a)[x] == multiset(a[..i])[x] + 1 + multiset(a[i + 1..])[x];
    assert x in a[i + 1..];
    var k :| 0 <= k < |a[i + 1..]| && a[i + 1..][k] == x;
    j := i + 1 + k;
  }

  lemma {:induction false} FirstOf<T>(a: seq<T>, x: T)
    requires x in a
    ensures exists i: nat :: i < |a| && a[i] == x && x !in a[..i]
  {
    if a[0] == x {
      assert x !in a[..0];
    } else {
      FirstOf(a[1..], x);
      var i: nat :| i < |a[1..]| && a[1..][i] == x && x !in a[1..][..i];
      assert a[..i + 1] == [a[0]] + a[1..][..i];
      assert a[i + 1] == x && x !in a[..i + 1];
    }
  }

  lemma TwoOfSame<T>(b: seq<T>, i: nat, j: nat)
    requires i < j < |b| && b[i] == b[j]
    ensures multiset(b)[b[i]] >= 2
  {
    assert b == b[..i] + [b[i]] + b[i + 1..j] + [b[j]] + b[j + 1..];
  }

  lemma ConsistentPermuted(a: seq<Line>, b: seq<Line>)
    requires multiset(a) == multiset(b) && Consistent(a)
    ensures Consistent(b)
  {
    hide Agree;
    forall i, j | 0 <= i < j < |b| && (b[i].Down? || b[i].Link?) && Describes(b[j], b[i].guid)
      ensures Agree(b[i], b[j])
    {
      PairAgrees(a, b, i, j);
    }
  }

  lemma PairAgrees(a: seq<Line>, b: seq<Line>, i: nat, j: nat)
    requires multiset(a) == multiset(b) && Consistent(a)
    requires i < j < |b| && (b[i].Down? || b[i].Link?) && Describes(b[j], b[i].guid)
    ensures Agree(b[i], b[j])
  {
    hide Agree;
    if b[i] == b[j] {
      TwoOfSame(b, i, j);
      var k, m := TwiceIn(a, b[i]);
      assert Agree(a[k], a[m]);
    } else {
      assert b[i] in multiset(b) && b[j] in multiset(b);
      assert b[i] in a && b[j] in a;
      var k :| 0 <= k < |a| && a[k] == b[i];
      var m :| 0 <= m < |a| && a[m] == b[j];
      if m < k {
        assert Agree(a[m], a[k]);
        AgreeIsSymmetric(a[m], a[k]);
      } else {
        assert Agree(a[k], a[m]);
      }
    }
  }

  lemma AgreeIsSymmetric(l: Line, m: Line)
    requires (l.Down? || l.Link?) && (m.Down? || m.Link?) && Agree(l, m)
    ensures Agree(m, l)
  {
  }

  ghost predicate SameLists(a: seq<Device>, b: seq<Device>) {
    |a| == |b| && forall i | 0 <= i < |a| :: SameButOrder(a[i], b[i])
  }

  lemma ListsOfSameDevices(a: map<string, Device>, b: map<string, Device>, kind: string, x: seq<Device>, y: seq<Device>)
    requires a.Keys == b.Keys && forall g <- a :: SameButOrder(a[g], b[g])
    requires Lists(a, kind, x) && Lists(b, kind, y)
    ensures SameLists(x, y)
  {
    hide Less;
    forall g ensures g in GuidsOf(x) <==> g in GuidsOf(y) {
      if g in GuidsOf(x) {
        var i :| 0 <= i < |x| && GuidsOf(x)[i] == g;
        assert g in b && b[g].kind == kind;
        var j :| 0 <= j < |y| && y[j].guid == g;
        assert GuidsOf(y)[j] == g;
      }
      if g in GuidsOf(y) {
        var i :| 0 <= i < |y| && GuidsOf(y)[i] == g;
        assert g in a && a[g].kind == kind;
        var j :| 0 <= j < |x| && x[j].guid == g;
        assert GuidsOf(x)[j] == g;
      }
    }
    IncreasingIsUnique(GuidsOf(x), GuidsOf(y));
    forall i | 0 <= i < |x| ensures SameButOrder(x[i], y[i]) {
      assert GuidsOf(x)[i] == x[i].guid && GuidsOf(y)[i] == y[i].guid;
    }
  }

  lemma SameDevices(a: seq<Line>, b: seq<Line>)
    requires multiset(a) == multiset(b) && Consistent(a) && Uniform(a)
    ensures Run(map[], a).Devices? <==> Run(map[], b).Devices?
    ensures Run(map[], a).Devices? ==>
      var x, y := Run(map[], a).devices, Run(map[], b).devices;
      x.Keys == y.Keys && forall g <- x :: SameButOrder(x[g], y[g])
  {
    hide Run, Described, Consistent, Uniform, IsDeviceOf, SameButOrder;
    ConsistentPermuted(a, b);
    RunIsDescribed(a);
    RunIsDescribed(b);
    assert forall l :: l in a <==> l in multiset(a);
    assert forall l :: l in b <==> l in multiset(b);
    StopsPermuted(a, b);
    if Run(map[], a).Devices? {
      var x, y := Run(map[], a).devices, Run(map[], b).devices;
      forall g ensures g in x <==> g in y {
        DescribesPermuted(a, b, g);
      }
      forall g | g in x ensures SameButOrder(x[g], y[g]) {
        DescribedIs(a, g);
        DescribedIs(b, g);
        DeviceIsDetermined(a, b, g, x[g], y[g]);
      }
    }
  }

  lemma StopsPermuted(a: seq<Line>, b: seq<Line>)
    requires forall l :: l in a <==> l in b
    ensures (forall i | 0 <= i < |a| :: !Stops(a[i])) <==> (forall i | 0 <= i < |b| :: !Stops(b[i]))
  {
    hide Stops;
    assert (forall i | 0 <= i < |a| :: !Stops(a[i])) <==> (forall l <- a :: !Stops(l));
    assert (forall i | 0 <= i < |b| :: !Stops(b[i])) <==> (forall l <- b :: !Stops(l));
  }

  lemma DescribesPermuted(a: seq<Line>, b: seq<Line>, g: string)
    requires forall l :: l in a <==> l in b
    ensures (exists i | 0 <= i < |a| :: Describes(a[i], g)) <==> (exists i | 0 <= i < |b| :: Describes(b[i], g))
  {
    hide Describes;
    assert (exists i | 0 <= i < |a| :: Describes(a[i], g)) <==> (exists l <- a :: Describes(l, g));
    assert (exists i | 0 <= i < |b| :: Describes(b[i], g)) <==> (exists l <- b :: Describes(l, g));
  }

  /**
   * Line-order invariance: for any text in which each (GUID, port) is on at most one line and the lines about a
   * device tell one kind, LID, name and rate, permuting the lines changes neither whether it parses nor the topology,
   * except for Switch and the order of the down ports.
   */
  lemma LineOrderDoesNotMatter(a: string, b: string, portState: bool, x: Outcome, y: Outcome)
    requires multiset(Split(a, '\n')) == multiset(Split(b, '\n'))
    requires Consistent(ParseLines(Split(a, '\n'), portState)) && Uniform(ParseLines(Split(a, '\n'), portState))
    requires IsOutcome(ParseDevices(a, portState), x) && IsOutcome(ParseDevices(b, portState), y)
    ensures x.Parsed? <==> y.Parsed?
    ensures x.Parsed? ==>
      SameLists(x.topology.switches, y.topology.switches) && SameLists(x.topology.hcas, y.topology.hcas)
  {
    hide Run, Consistent, Uniform, Lists, SameLists, SameButOrder, Split, ParseLine;
    MapPermuted(Split(a, '\n'), Split(b, '\n'), portState);
    SameDevices(ParseLines(Split(a, '\n'), portState), ParseLines(Split(b, '\n'), portState));
    if x.Parsed? {
      var d, e := ParseDevices(a, portState).devices, ParseDevices(b, portState).devices;
      ListsOfSameDevices(d, e, "SW", x.topology.switches, y.topology.switches);
      ListsOfSameDevices(d, e, "CA", x.topology.hcas, y.topology.hcas);
    }
  }
}
