/** The parser of ibnetdiscover output. */
module Ibnetdiscover {
  import opened Wrappers
  import opened Text
  import opened Numbers
  import opened Order

  datatype Uplink = Uplink(kind: string, lid: string, portNumber: string, guid: string, name: string, rate: real,
                           rawRate: real)

  datatype Device = Device(kind: string, lid: string, guid: string, rate: real, rawRate: real, name: string,
                           uplinks: map<string, Uplink>, switch: string, downPorts: seq<string>)

  const NO_DEVICE := Device("", "", "", 0.0, 0.0, "", map[], "", [])

  // ---------------------------------------------------------------- rates

  /** laneRates: signalling and effective rate of one lane, in Gbps. */
  function LaneRate(speed: string): Option<(real, real)> {
    if speed == "SDR" then Some((2.5, 2.0))
    else if speed == "DDR" then Some((5.0, 4.0))
    else if speed == "QDR" then Some((10.0, 8.0))
    else if speed == "FDR10" then Some((10.3125, 10.0))
    else if speed == "FDR" then Some((14.0625, 13.64))
    else if speed == "EDR" then Some((25.78125, 25.0))
    else if speed == "HDR" then Some((50.0, 50.0))
    else if speed == "NDR" then Some((100.0, 100.0))
    else if speed == "XDR" then Some((250.0, 250.0))
    else None
  }

  /** The first match of the regular expression `[0-9]+`, or "". */
  function FirstDigits(s: string): (d: string)
    ensures AllDigits(d)
  {
    if s == "" then "" else if IsDigit(s[0]) then LeadingDigits(s) else FirstDigits(s[1..])
  }

  /** Raw and effective rate in bytes per second. */
  datatype Rates = Rates(raw: real, effective: real)

  /** What a lane rate of one Gbps amounts to on this many lanes, in bytes per second. */
  function PerGbps(lanes: nat): real {
    lanes as real * 1_000_000_000.0 / 8.0
  }

  function ParseRate(width: string, speed: string): Result<Rates> {
    var digits := FirstDigits(width);
    if digits == "" then Err
    else
      match LaneRate(speed)
      case None => Err
      case Some((raw, effective)) =>
        var base := PerGbps(DigitsValue(digits));
        Ok(Rates(raw * base, effective * base))
  }

  // ---------------------------------------------------------------- names

  datatype Names = Names(port: string, uplink: string)

  /** The two groups of the regular expression for `( '...' - '...' )`: where they begin and end. */
  datatype Match = NoMatch | Match(open: nat, mid: nat, close: nat)

  /** Leftmost start, then the longest first group, then the longest second one. */
  function FindPair(line: string): (m: Match)
    ensures m.Match? ==> m.open + 4 <= m.mid && m.mid + 6 <= m.close <= |line|
  {
    var open := Index(line, "( '");
    var close := LastIndex(line, "' )");
    if open < 0 || close < 1 then NoMatch
    else
      var mid := LastIndex(line[..close - 1], "' - '");
      if mid < open + 4 then NoMatch else Match(open, mid, close)
  }

  function ParseNames(line: string): Result<Names> {
    if '(' in line then
      match FindPair(line)
      case NoMatch => Err
      case Match(open, mid, close) =>
        Ok(Names(Trim(line[open + 3..mid]), Trim(line[mid + 5..close])))
    else
      var first := FirstIndex(line, '\'');
      if first < 0 then Err
      else
        var rest := Trim(line[first + 1..]);
        var second := FirstIndex(rest, '\'');
        if second < 0 then Err else Ok(Names(Trim(rest[..second]), ""))
  }

  // ---------------------------------------------------------------- rejoining a quoted name

  /** isPairedQuotesName */
  predicate Paired(name: string)
    requires name != ""
  {
    name != "'" && name[0] == name[|name| - 1] == '\''
  }

  function TrimQuotesLeft(s: string): string {
    if s != "" && s[0] == '\'' then TrimQuotesLeft(s[1..]) else s
  }

  function TrimQuotesRight(s: string): string {
    if s != "" && s[|s| - 1] == '\'' then TrimQuotesRight(s[..|s| - 1]) else s
  }

  /** strings.Trim(s, "'") */
  function TrimQuotes(s: string): string {
    TrimQuotesRight(TrimQuotesLeft(s))
  }

  /** The last field before the last one, but after the sixth, that opens a quote; -1 if none does. */
  function Opener(items: seq<string>, i: int): (r: int)
    requires i < |items|
    ensures r == -1 || (5 < r <= i && items[r] != "" && items[r][0] == '\'')
  {
    if i <= 5 then -1
    else if items[i] != "" && items[i][0] == '\'' then i
    else Opener(items, i - 1)
  }

  /** The fields, once those of a quoted name at the end of the line are one field again. */
  function Rejoined(items: seq<string>): (r: seq<string>)
    requires |items| >= 6
    ensures 6 <= |r| <= |items| && r[..5] == items[..5]
  {
    var n := |items|;
    var last := items[n - 1];
    if last == "" || last[|last| - 1] != '\'' then items
    else if Paired(last) then items[n - 1 := TrimQuotes(last)]
    else
      var i := Opener(items, n - 2);
      if i >= 0 then items[..i] + [TrimQuotes(Join(items[i..], ' '))]
      else items[n - 1 := TrimQuotes(if n >= 8 then Join(items[6..], ' ') else last)]
  }

  // ---------------------------------------------------------------- one line

  datatype Peer = Peer(kind: string, lid: string, port: string, guid: string, name: string)

  /** What one line says. `Failure` makes the whole parse fail, `Panic` is an index out of range. */
  datatype Line =
    | Skip
    | Down(kind: string, lid: string, port: string, guid: string, tag: Option<string>)
    | Link(kind: string, lid: string, port: string, guid: string, name: string, rates: Rates, peer: Option<Peer>)
    | Failure
    | Panic

  function ParseLine(line: string, portState: bool): Line {
    var items := Fields(line);
    if |items| < 5 then Skip
    else if |items| == 5 then Panic
    else if items[5] == "???" then
      if !portState then Skip
      else Down(items[0], items[1], items[2], items[3],
        match ParseNames(line) case Ok(names) => Some(names.port) case Err => None)
    else
      ParseLink(line, Rejoined(items))
  }

  function ParseLink(line: string, items: seq<string>): Line
    requires |items| >= 6
  {
    if items[5] == "SDR" && |items| == 7 then Skip
    else
      match ParseRate(items[4], items[5])
      case Err => Failure
      case Ok(rates) =>
        match ParseNames(line)
        case Err => Failure
        case Ok(names) =>
          if names.uplink == "" then Link(items[0], items[1], items[2], items[3], names.port, rates, None)
          else if |items| < 11 then Panic
          else Link(items[0], items[1], items[2], items[3], names.port, rates,
                    Some(Peer(items[7], items[8], items[9], items[10], names.uplink)))
  }

  // ---------------------------------------------------------------- all lines

  function UplinkOf(peer: Peer, rates: Rates): Uplink {
    Uplink(peer.kind, peer.lid, peer.port, peer.guid, peer.name, rates.effective, rates.raw)
  }

  /** The device, as one more line describes it. */
  function Update(d: Device, l: Line): Device
    requires l.Down? || l.Link?
  {
    match l
    case Down(kind, lid, port, guid, tag) =>
      d.(kind := kind, lid := lid, guid := guid, name := tag.GetOr(d.name), downPorts := d.downPorts + [port])
    case Link(kind, lid, port, guid, name, rates, peer) =>
      var rated := if kind == "CA" then d.(rate := rates.effective, rawRate := rates.raw) else d;
      var linked := match peer
                    case None => rated
                    case Some(p) => rated.(uplinks := rated.uplinks[port := UplinkOf(p, rates)], switch := p.name);
      linked.(kind := kind, lid := lid, guid := guid, name := name)
  }

  function Get(devices: map<string, Device>, guid: string): Device {
    if guid in devices then devices[guid] else NO_DEVICE
  }

  function Apply(devices: map<string, Device>, l: Line): map<string, Device> {
    if l.Down? || l.Link? then devices[l.guid := Update(Get(devices, l.guid), l)] else devices
  }

  datatype Progress = Devices(devices: map<string, Device>) | Failed | Crashed

  function Run(devices: map<string, Device>, lines: seq<Line>): Progress
    decreases lines
  {
    if lines == [] then Devices(devices)
    else if lines[0].Failure? then Failed
    else if lines[0].Panic? then Crashed
    else Run(Apply(devices, lines[0]), lines[1..])
  }

  predicate Stops(l: Line) {
    l.Failure? || l.Panic?
  }

  /** Line `i` is the first one that stops the parse. */
  ghost predicate FirstToStop(lines: seq<Line>, i: int) {
    0 <= i < |lines| && Stops(lines[i]) && forall j | 0 <= j < i :: !Stops(lines[j])
  }

  /** The first line that stops the parse decides how it ends. */
  lemma {:induction false} FirstStopDecides(devices: map<string, Device>, lines: seq<Line>)
    ensures Run(devices, lines).Failed? <==> exists i :: FirstToStop(lines, i) && lines[i].Failure?
    ensures Run(devices, lines).Crashed? <==> exists i :: FirstToStop(lines, i) && lines[i].Panic?
    ensures Run(devices, lines).Devices? <==> forall i :: !FirstToStop(lines, i)
    decreases lines
  {
    hide Apply;
    if lines == [] {
      assert forall i :: !FirstToStop(lines, i);
    } else if Stops(lines[0]) {
      assert FirstToStop(lines, 0);
      assert forall i :: FirstToStop(lines, i) ==> i == 0;
    } else {
      FirstStopDecides(Apply(devices, lines[0]), lines[1..]);
      assert forall i :: FirstToStop(lines, i) ==> FirstToStop(lines[1..], i - 1) && lines[1..][i - 1] == lines[i];
      assert forall i :: FirstToStop(lines[1..], i) ==> FirstToStop(lines, i + 1) && lines[i + 1] == lines[1..][i];
    }
  }

  function ParseLines(lines: seq<string>, portState: bool): seq<Line> {
    seq(|lines|, i requires 0 <= i < |lines| => ParseLine(lines[i], portState))
  }

  /** The devices a whole text describes. */
  function ParseDevices(out: string, portState: bool): Progress {
    Run(map[], ParseLines(Split(out, '\n'), portState))
  }

  // ---------------------------------------------------------------- the two lists

  datatype Topology = Topology(switches: seq<Device>, hcas: seq<Device>)

  /** `list` holds the devices of one kind, each once, by increasing GUID. */
  ghost predicate Lists(devices: map<string, Device>, kind: string, list: seq<Device>) {
    && (forall i, j | 0 <= i < j < |list| :: Less(list[i].guid, list[j].guid))
    && (forall i | 0 <= i < |list| ::
          list[i].guid in devices && devices[list[i].guid] == list[i] && list[i].kind == kind)
    && (forall g | g in devices && devices[g].kind == kind :: exists i | 0 <= i < |list| :: list[i].guid == g)
  }

  ghost predicate IsTopology(devices: map<string, Device>, t: Topology) {
    Lists(devices, "SW", t.switches) && Lists(devices, "CA", t.hcas)
  }

  ghost predicate Keyed(devices: map<string, Device>) {
    forall g <- devices :: devices[g].guid == g
  }

  datatype Outcome = Parsed(topology: Topology) | Rejected | Panicked

  ghost predicate IsOutcome(p: Progress, o: Outcome) {
    match p
    case Devices(devices) => o.Parsed? && IsTopology(devices, o.topology)
    case Failed => o.Rejected?
    case Crashed => o.Panicked?
  }

  // ---------------------------------------------------------------- the parser

  lemma JoinFrom(items: seq<string>, i: nat)
    requires i + 1 < |items| && items[i] != ""
    ensures Join(items[i..], ' ') == items[i] + " " + Join(items[i + 1..], ' ')
  {
    assert items[i..] == [items[i]] + items[i + 1..];
  }

  lemma JoinLast(items: seq<string>)
    requires items != []
    ensures Join(items[|items| - 1..], ' ') == items[|items| - 1]
  {
  }

  /** How far the backward loop looks: the name joined so far starts at field `i + 1`. */
  ghost predicate Joined(items: seq<string>, i: int, name: string)
    requires |items| >= 6
  {
    && 4 <= i <= |items| - 2 && (i >= 5 || i == |items| - 2)
    && name == Join(items[i + 1..], ' ') && name != "" && name[|name| - 1] == '\''
  }

  lemma LoopRejoins(items: seq<string>, i: int, name: string)
    requires |items| >= 6 && Joined(items, i, name)
    requires items[|items| - 1] != "" && items[|items| - 1][|items[|items| - 1]| - 1] == '\''
    requires !Paired(items[|items| - 1])
    ensures i <= 5 && Opener(items, |items| - 2) == -1 ==> Rejoined(items) == items[|items| - 1 := TrimQuotes(name)]
    ensures Opener(items, |items| - 2) == i + 1 > 5 ==> Rejoined(items) == items[..i + 1] + [TrimQuotes(name)]
  {
    hide TrimQuotes, Join, Opener;
    JoinLast(items);
  }

  lemma FoundAt(items: seq<string>, i: int)
    requires 5 < i < |items| && items[i] != ""
    ensures Opener(items, i) == if items[i][0] == '\'' then i else Opener(items, i - 1)
  {
  }

  method RejoinName(items: seq<string>) returns (r: seq<string>)
    requires |items| >= 6 && forall i | 0 <= i < |items| :: items[i] != ""
    ensures r == Rejoined(items)
  {
    hide TrimQuotes, Join, Opener, Rejoined;
    r := items;
    var name := items[|items| - 1];
    if name[|name| - 1] != '\'' || Paired(name) {
      NothingToJoin(items);
    }
    if name[|name| - 1] == '\'' {
      if !Paired(name) {
        var i := |items| - 2;
        JoinLast(items);
        while i > 5
          invariant r == items && Joined(items, i, name) && Opener(items, |items| - 2) == Opener(items, i)
        {
          JoinFrom(items, i);
          FoundAt(items, i);
          name := items[i] + " " + name;
          if Paired(name) {
            r := items[..i] + [name];
            LoopRejoins(items, i - 1, name);
            break;
          }
          i := i - 1;
        }
        if r == items {
          LoopRejoins(items, i, name);
        }
      }
      name := TrimQuotes(name);
      r := r[|r| - 1 := name];
    }
  }

  lemma NothingToJoin(items: seq<string>)
    requires |items| >= 6 && items[|items| - 1] != ""
    ensures items[|items| - 1][|items[|items| - 1]| - 1] != '\'' ==> Rejoined(items) == items
    ensures Paired(items[|items| - 1]) ==> Rejoined(items) == items[|items| - 1 := TrimQuotes(items[|items| - 1])]
  {
    hide TrimQuotes, Join, Opener;
  }

  lemma {:induction false} RunKeepsKeyed(devices: map<string, Device>, lines: seq<Line>)
    requires Keyed(devices)
    ensures Run(devices, lines).Devices? ==> Keyed(Run(devices, lines).devices)
    decreases lines
  {
    hide Update;
    if lines != [] && !lines[0].Failure? && !lines[0].Panic? {
      UpdateKeepsGuid(lines[0]);
      RunKeepsKeyed(Apply(devices, lines[0]), lines[1..]);
    }
  }

  lemma UpdateKeepsGuid(l: Line)
    ensures l.Down? || l.Link? ==> forall d :: Update(d, l).guid == l.guid
  {
  }

  /** The keys of the device table, in whatever order ranging over it visits them. */
  method ListGuids(devices: map<string, Device>) returns (keys: seq<string>)
    ensures forall i, j | 0 <= i < j < |keys| :: keys[i] != keys[j]
    ensures forall g :: g in keys <==> g in devices
  {
    keys := [];
    var todo := devices.Keys;
    while todo != {}
      invariant todo <= devices.Keys
      invariant forall i | 0 <= i < |keys| :: keys[i] in devices && keys[i] !in todo
      invariant forall i, j | 0 <= i < j < |keys| :: keys[i] != keys[j]
      invariant forall g | g in devices :: g in todo || g in keys
    {
      var g :| g in todo;
      todo := todo - {g};
      keys := keys + [g];
    }
  }

  /** `list` holds the devices of one kind among the first keys. */
  ghost predicate ListsFirst(devices: map<string, Device>, keys: seq<string>, kind: string, list: seq<Device>) {
    && (forall i, j | 0 <= i < j < |list| :: Less(list[i].guid, list[j].guid))
    && (forall i | 0 <= i < |list| ::
          list[i].guid in devices && devices[list[i].guid] == list[i] && list[i].kind == kind && list[i].guid in keys)
    && (forall g | g in keys && g in devices && devices[g].kind == kind ::
          exists i | 0 <= i < |list| :: list[i].guid == g)
  }

  lemma ListsNext(devices: map<string, Device>, keys: seq<string>, k: nat, kind: string, list: seq<Device>)
    requires Keyed(devices) && Increasing(keys) && k < |keys| && keys[k] in devices
    requires ListsFirst(devices, keys[..k], kind, list)
    ensures ListsFirst(devices, keys[..k + 1], kind,
      if devices[keys[k]].kind == kind then list + [devices[keys[k]]] else list)
  {
    hide Less;
    var d := devices[keys[k]];
    assert keys[..k + 1] == keys[..k] + [keys[k]];
    if d.kind == kind {
      var next := list + [d];
      assert next[|list|] == d && forall i | 0 <= i < |list| :: next[i] == list[i];
      forall i | 0 <= i < |list| ensures Less(next[i].guid, d.guid) {
        var j :| 0 <= j < k && keys[j] == list[i].guid;
      }
    }
  }

  method SplitDevices(devices: map<string, Device>) returns (t: Topology)
    requires Keyed(devices)
    ensures IsTopology(devices, t)
  {
    hide Less, ListsFirst, Sort;
    var keys := ListGuids(devices);
    SortSorts(keys);
    SameMembers(keys, Sort(keys));
    keys := Sort(keys);
    var switches, hcas := [], [];
    ListsNothing(devices, keys);
    for k := 0 to |keys|
      invariant ListsFirst(devices, keys[..k], "SW", switches)
      invariant ListsFirst(devices, keys[..k], "CA", hcas)
    {
      var device := devices[keys[k]];
      ListsNext(devices, keys, k, "SW", switches);
      ListsNext(devices, keys, k, "CA", hcas);
      if device.kind == "CA" {
        hcas := hcas + [device];
      } else if device.kind == "SW" {
        switches := switches + [device];
      }
    }
    assert keys[..|keys|] == keys;
    ListsAll(devices, keys, "SW", switches);
    ListsAll(devices, keys, "CA", hcas);
    t := Topology(switches, hcas);
  }

  lemma SameMembers(a: seq<string>, b: seq<string>)
    requires multiset(a) == multiset(b)
    ensures forall g :: g in a <==> g in b
  {
    forall g ensures g in a <==> g in b {
      assert g in a <==> g in multiset(a);
    }
  }

  lemma ListsNothing(devices: map<string, Device>, keys: seq<string>)
    ensures ListsFirst(devices, keys[..0], "SW", []) && ListsFirst(devices, keys[..0], "CA", [])
  {
  }

  lemma ListsAll(devices: map<string, Device>, keys: seq<string>, kind: string, list: seq<Device>)
    requires ListsFirst(devices, keys, kind, list) && forall g <- devices :: g in keys
    ensures Lists(devices, kind, list)
  {
    hide Less;
  }

  method IbnetdiscoverParse(out: string, portState: bool) returns (o: Outcome)
    ensures IsOutcome(ParseDevices(out, portState), o)
    ensures
      var lines := ParseLines(Split(out, '\n'), portState);
      && (o.Parsed? <==> forall i :: !FirstToStop(lines, i))
      && (o.Rejected? <==> exists i :: FirstToStop(lines, i) && lines[i].Failure?)
      && (o.Panicked? <==> exists i :: FirstToStop(lines, i) && lines[i].Panic?)
  {
    hide Fields, Split, ParseNames, ParseRate, Rejoined, Update, IsTopology, Keyed, Less, FirstToStop;
    var devices: map<string, Device> := map[];
    var lines := Split(out, '\n');
    ghost var all := ParseLines(lines, portState);
    FirstStopDecides(map[], all);
    assert all[0..] == all;
    var n := 0;
    while n < |lines|
      invariant 0 <= n <= |lines|
      invariant Run(devices, all[n..]) == ParseDevices(out, portState)
    {
      var line := lines[n];
      assert all[n..][1..] == all[n + 1..] && all[n..][0] == ParseLine(line, portState);
      n := n + 1;
      var items := Fields(line);
      if |items| < 5 {
        continue;
      }
      if |items| == 5 {
        return Panicked;
      }
      if items[5] == "???" {
        if !portState {
          continue;
        }
        var names := ParseNames(line);
        var tag := match names case Ok(names) => Some(names.port) case Err => None;
        devices := devices[items[3] := Update(Get(devices, items[3]),
          Down(items[0], items[1], items[2], items[3], tag))];
        continue;
      }
      FieldsAreWords(line);
      items := RejoinName(items);
      if items[5] == "SDR" && |items| == 7 {
        continue;
      }
      var rates := ParseRate(items[4], items[5]);
      if rates.Err? {
        return Rejected;
      }
      var names := ParseNames(line);
      if names.Err? {
        return Rejected;
      }
      var peer := None;
      if names.value.uplink != "" {
        if |items| < 11 {
          return Panicked;
        }
        peer := Some(Peer(items[7], items[8], items[9], items[10], names.value.uplink));
      }
      devices := devices[items[3] := Update(Get(devices, items[3]),
        Link(items[0], items[1], items[2], items[3], names.value.port, rates.value, peer))];
    }
    NothingKeyed();
    RunKeepsKeyed(map[], all);
    var t := SplitDevices(devices);
    o := Parsed(t);
  }

  lemma NothingKeyed()
    ensures Keyed(map[])
  {
  }

  lemma {:induction false} FieldsAreWords(s: string)
    ensures forall i | 0 <= i < |Fields(s)| :: Word(Fields(s)[i])
    decreases |s|
  {
    if s != "" {
      if IsSpace(s[0]) {
        FieldsAreWords(s[1..]);
      } else {
        FieldsAreWords(s[LeadingNonSpace(s)..]);
      }
    }
  }

  // ---------------------------------------------------------------- the lists are determined by the table

  function GuidsOf(list: seq<Device>): seq<string> {
    seq(|list|, i requires 0 <= i < |list| => list[i].guid)
  }

  lemma ListIsUnique(devices: map<string, Device>, kind: string, a: seq<Device>, b: seq<Device>)
    requires Lists(devices, kind, a) && Lists(devices, kind, b)
    ensures a == b
  {
    hide Less;
    forall g ensures g in GuidsOf(a) <==> g in GuidsOf(b) {
      if g in GuidsOf(a) {
        var i :| 0 <= i < |a| && GuidsOf(a)[i] == g;
        assert g in devices && devices[g].kind == kind;
        var j :| 0 <= j < |b| && b[j].guid == g;
        assert GuidsOf(b)[j] == g;
      }
      if g in GuidsOf(b) {
        var i :| 0 <= i < |b| && GuidsOf(b)[i] == g;
        assert g in devices && devices[g].kind == kind;
        var j :| 0 <= j < |a| && a[j].guid == g;
        assert GuidsOf(a)[j] == g;
      }
    }
    IncreasingIsUnique(GuidsOf(a), GuidsOf(b));
    assert forall i | 0 <= i < |a| :: GuidsOf(a)[i] == a[i].guid;
    assert forall i | 0 <= i < |b| :: GuidsOf(b)[i] == b[i].guid;
  }

  /**
   * Whatever order ranging over the device table has, the two lists are the same; no GUID is in both, and each is
   * strictly increasing.
   */
  lemma TopologyIsUnique(devices: map<string, Device>, a: Topology, b: Topology)
    requires IsTopology(devices, a) && IsTopology(devices, b)
    ensures a == b
    ensures forall i, j | 0 <= i < |a.switches| && 0 <= j < |a.hcas| :: a.switches[i].guid != a.hcas[j].guid
  {
    hide Less;
    ListIsUnique(devices, "SW", a.switches, b.switches);
    ListIsUnique(devices, "CA", a.hcas, b.hcas);
    assert "SW"[0] != "CA"[0];
  }
}
