/** What the lines of an ibnetdiscover text say together, whatever their order. */
module TopologyFold {
  import opened Wrappers
  import opened Ibnetdiscover

  /** The line is about this device. */
  predicate Describes(l: Line, g: string) {
    (l.Down? || l.Link?) && l.guid == g
  }

  /** The device as the lines about it leave it. */
  function Described(lines: seq<Line>, g: string): Device {
    if lines == [] then NO_DEVICE
    else
      var l := lines[|lines| - 1];
      var d := Described(lines[..|lines| - 1], g);
      if Describes(l, g) then Update(d, l) else d
  }

  lemma {:induction false} RunSnoc(devices: map<string, Device>, lines: seq<Line>, l: Line)
    ensures Run(devices, lines + [l]) ==
      match Run(devices, lines)
      case Devices(ds) => if l.Failure? then Failed else if l.Panic? then Crashed else Devices(Apply(ds, l))
      case stopped => stopped
    decreases lines
  {
    hide Apply;
    if lines == [] {
      assert lines + [l] == [l] && [l][1..] == [];
    } else {
      assert (lines + [l])[0] == lines[0] && (lines + [l])[1..] == lines[1..] + [l];
      if !Stops(lines[0]) {
        RunSnoc(Apply(devices, lines[0]), lines[1..], l);
      }
    }
  }

  /** The parse fails exactly when some line does; otherwise each device is what the lines about it say. */
  lemma {:induction false} RunIsDescribed(lines: seq<Line>)
    ensures Run(map[], lines).Devices? <==> forall i | 0 <= i < |lines| :: !Stops(lines[i])
    ensures Run(map[], lines).Devices? ==>
      var devices := Run(map[], lines).devices;
      && (forall g :: g in devices <==> exists i | 0 <= i < |lines| :: Describes(lines[i], g))
      && (forall g | g in devices :: devices[g] == Described(lines, g))
      && (forall g | g !in devices :: Described(lines, g) == NO_DEVICE)
    decreases |lines|
  {
    hide Update;
    if lines != [] {
      var n := |lines| - 1;
      RunIsDescribed(lines[..n]);
      RunSnoc(map[], lines[..n], lines[n]);
      assert lines == lines[..n] + [lines[n]];
      assert forall i | 0 <= i < n :: lines[..n][i] == lines[i];
      if Run(map[], lines[..n]).Devices? && !Stops(lines[n]) {
        StepIsDescribed(Run(map[], lines[..n]).devices, lines);
      }
    }
  }

  lemma StepIsDescribed(before: map<string, Device>, lines: seq<Line>)
    requires lines != [] && !Stops(lines[|lines| - 1])
    requires forall g :: g in before <==> exists i | 0 <= i < |lines| - 1 :: Describes(lines[i], g)
    requires forall g | g in before :: before[g] == Described(lines[..|lines| - 1], g)
    requires forall g | g !in before :: Described(lines[..|lines| - 1], g) == NO_DEVICE
    ensures
      var devices := Apply(before, lines[|lines| - 1]);
      && (forall g :: g in devices <==> exists i | 0 <= i < |lines| :: Describes(lines[i], g))
      && (forall g | g in devices :: devices[g] == Described(lines, g))
      && (forall g | g !in devices :: Described(lines, g) == NO_DEVICE)
  {
    hide Update;
    var l := lines[|lines| - 1];
    var devices := Apply(before, l);
    forall g ensures g in devices <==> exists i | 0 <= i < |lines| :: Describes(lines[i], g) {
      assert g in devices <==> g in before || Describes(l, g);
    }
  }

  // ---------------------------------------------------------------- consistent lines

  /** The last line about the device that tells something. */
  function LastOf(lines: seq<Line>, g: string, tells: Line -> bool): (r: Option<Line>)
    ensures r.Some? ==> r.value in lines && Describes(r.value, g) && tells(r.value)
    ensures r.None? ==> forall l <- lines | Describes(l, g) :: !tells(l)
  {
    if lines == [] then None
    else
      var l := lines[|lines| - 1];
      if Describes(l, g) && tells(l) then Some(l) else LastOf(lines[..|lines| - 1], g, tells)
  }

  /** The line tells the name of its device: a `???` line may not. */
  predicate Naming(l: Line) {
    l.Link? || (l.Down? && l.tag.Some?)
  }

  function NameOf(l: Line): string
    requires Naming(l)
  {
    if l.Down? then l.tag.value else l.name
  }

  /** The device's rates are those of this line. */
  predicate Rating(l: Line) {
    l.Link? && l.kind == "CA"
  }

  predicate Linking(l: Line) {
    l.Link? && l.peer.Some?
  }

  /** A line with a peer on this port of the device. */
  predicate IsUp(l: Line, g: string, p: string) {
    l.Link? && l.guid == g && l.port == p && l.peer.Some?
  }

  predicate IsDown(l: Line, g: string, p: string) {
    l.Down? && l.guid == g && l.port == p
  }

  /** Two lines about one device are about the same kind of device, and about two of its ports. */
  predicate Agree(l: Line, m: Line)
    requires (l.Down? || l.Link?) && (m.Down? || m.Link?)
  {
    l.kind == m.kind && l.lid == m.lid && l.port != m.port
  }

  ghost predicate Consistent(lines: seq<Line>) {
    forall i, j | 0 <= i < j < |lines| ::
      (lines[i].Down? || lines[i].Link?) && Describes(lines[j], lines[i].guid) ==> Agree(lines[i], lines[j])
  }

  // ---------------------------------------------------------------- what a consistent set of lines determines

  ghost predicate Identified(lines: seq<Line>, g: string, d: Device) {
    forall l <- lines | Describes(l, g) :: d.guid == g && d.kind == l.kind && d.lid == l.lid
  }

  /** The name is that of the last line that tells one. */
  predicate Named(lines: seq<Line>, g: string, d: Device) {
    match LastOf(lines, g, Naming)
    case None => d.name == ""
    case Some(l) => d.name == NameOf(l)
  }

  /** The rates are those of the last connected line, if the device is an HCA. */
  predicate Rated(lines: seq<Line>, g: string, d: Device) {
    match LastOf(lines, g, Rating)
    case None => d.rate == d.rawRate == 0.0
    case Some(l) => d.rate == l.rates.effective && d.rawRate == l.rates.raw
  }

  /** Device.Switch is the peer of the last line that has one. */
  predicate Upstream(lines: seq<Line>, g: string, d: Device) {
    match LastOf(lines, g, Linking)
    case None => d.switch == ""
    case Some(l) => d.switch == l.peer.value.name
  }

  ghost predicate Linked(lines: seq<Line>, g: string, d: Device) {
    && (forall p :: p in d.uplinks <==> exists l <- lines :: IsUp(l, g, p))
    && (forall l <- lines | Describes(l, g) && IsUp(l, g, l.port) ::
      l.port in d.uplinks && d.uplinks[l.port] == UplinkOf(l.peer.value, l.rates))
  }

  ghost predicate Unplugged(lines: seq<Line>, g: string, d: Device) {
    forall p :: multiset(d.downPorts)[p] == if exists l <- lines :: IsDown(l, g, p) then 1 else 0
  }

  ghost predicate IsDeviceOf(lines: seq<Line>, g: string, d: Device) {
    && Identified(lines, g, d) && Named(lines, g, d) && Rated(lines, g, d)
    && Linked(lines, g, d) && Unplugged(lines, g, d) && Upstream(lines, g, d)
  }

  /** The line agrees with every earlier line about its device. */
  ghost predicate AgreesWith(front: seq<Line>, l: Line, g: string) {
    Describes(l, g) ==> forall m <- front | Describes(m, g) :: Agree(m, l)
  }

  lemma LastAgrees(lines: seq<Line>, g: string)
    requires lines != [] && Consistent(lines)
    ensures AgreesWith(lines[..|lines| - 1], lines[|lines| - 1], g)
    ensures Consistent(lines[..|lines| - 1])
    ensures lines == lines[..|lines| - 1] + [lines[|lines| - 1]]
  {
    hide Agree;
    forall m | m in lines[..|lines| - 1] && Describes(m, g) && Describes(lines[|lines| - 1], g)
      ensures Agree(m, lines[|lines| - 1])
    {
      var i :| 0 <= i < |lines| - 1 && lines[i] == m;
    }
  }

  function Next(d: Device, l: Line, g: string): Device {
    if Describes(l, g) then Update(d, l) else d
  }

  lemma IdentifiedNext(front: seq<Line>, l: Line, g: string, d: Device)
    requires AgreesWith(front, l, g) && Identified(front, g, d)
    ensures Identified(front + [l], g, Next(d, l, g))
  {
  }

  lemma LastOfNext(front: seq<Line>, l: Line, g: string, tells: Line -> bool)
    ensures LastOf(front + [l], g, tells) == if Describes(l, g) && tells(l) then Some(l) else LastOf(front, g, tells)
  {
    assert (front + [l])[..|front|] == front;
  }

  lemma LastsNext(front: seq<Line>, l: Line, g: string, d: Device)
    requires Named(front, g, d) && Rated(front, g, d) && Upstream(front, g, d)
    ensures Named(front + [l], g, Next(d, l, g)) && Rated(front + [l], g, Next(d, l, g))
    ensures Upstream(front + [l], g, Next(d, l, g))
  {
    hide LastOf, UplinkOf;
    LastOfNext(front, l, g, Naming);
    LastOfNext(front, l, g, Rating);
    LastOfNext(front, l, g, Linking);
  }

  lemma LinkedNext(front: seq<Line>, l: Line, g: string, d: Device)
    requires AgreesWith(front, l, g) && Linked(front, g, d)
    ensures Linked(front + [l], g, Next(d, l, g))
  {
    hide UplinkOf;
    var next := Next(d, l, g);
    forall p ensures p in next.uplinks <==> exists m <- front + [l] :: IsUp(m, g, p) {
      assert (exists m <- front + [l] :: IsUp(m, g, p)) <==> (exists m <- front :: IsUp(m, g, p)) || IsUp(l, g, p);
    }
    forall m | m in front + [l] && Describes(m, g) && IsUp(m, g, m.port)
      ensures m.port in next.uplinks && next.uplinks[m.port] == UplinkOf(m.peer.value, m.rates)
    {
    }
  }

  lemma UnpluggedNext(front: seq<Line>, l: Line, g: string, d: Device)
    requires AgreesWith(front, l, g) && Unplugged(front, g, d)
    ensures Unplugged(front + [l], g, Next(d, l, g))
  {
    hide UplinkOf;
    var next := Next(d, l, g);
    forall p ensures multiset(next.downPorts)[p] == if exists m <- front + [l] :: IsDown(m, g, p) then 1 else 0 {
      assert (exists m <- front + [l] :: IsDown(m, g, p))
        <==> (exists m <- front :: IsDown(m, g, p)) || IsDown(l, g, p);
      if m :| m in front && IsDown(m, g, p) {
        assert Describes(m, g);
      }
    }
  }

  lemma IsDeviceNext(front: seq<Line>, l: Line, g: string, d: Device)
    requires AgreesWith(front, l, g) && IsDeviceOf(front, g, d)
    ensures IsDeviceOf(front + [l], g, Next(d, l, g))
  {
    hide AgreesWith, Identified, Named, Rated, Linked, Unplugged, Upstream, Next;
    IdentifiedNext(front, l, g, d);
    LastsNext(front, l, g, d);
    LinkedNext(front, l, g, d);
    UnpluggedNext(front, l, g, d);
  }

  lemma {:induction false} DescribedIs(lines: seq<Line>, g: string)
    requires Consistent(lines)
    ensures IsDeviceOf(lines, g, Described(lines, g))
  {
    hide Update, AgreesWith;
    if lines != [] {
      hide IsDeviceOf, Consistent;
      var n := |lines| - 1;
      LastAgrees(lines, g);
      DescribedIs(lines[..n], g);
      IsDeviceNext(lines[..n], lines[n], g, Described(lines[..n], g));
    }
  }
}
