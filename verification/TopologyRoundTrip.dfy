/** Lines that draw a fabric are read back as what they show. */
module TopologyRoundTrip {
  import opened Wrappers
  import opened Text
  import opened Order
  import opened Ibnetdiscover
  import opened TopologyFold
  import opened TopologyLines

  // ---------------------------------------------------------------- fabrics

  /** A port with a peer, a port whose line names none, an unplugged port. */
  datatype Port =
    | Cabled(width: string, speed: string, peer: Peer)
    | Lone(width: string, speed: string)
    | Open(width: string)

  datatype Node = Node(kind: string, lid: string, name: string, ports: map<string, Port>)

  type Fabric = map<string, Node>

  predicate PlainWord(w: string) {
    Word(w) && NoQuote(w) && NoParen(w)
  }

  predicate ValidPort(p: Port) {
    match p
    case Open(width) => PlainWord(width)
    case Lone(width, speed) => PlainWord(width) && PlainWord(speed) && speed != "???" && speed != "SDR"
    case Cabled(width, speed, peer) =>
      && PlainWord(width) && PlainWord(speed) && speed != "???"
      && PlainWord(peer.kind) && PlainWord(peer.lid) && PlainWord(peer.port) && PlainWord(peer.guid)
  }

  ghost predicate ValidNode(g: string, n: Node) {
    && PlainWord(g) && PlainWord(n.kind) && PlainWord(n.lid)
    && forall p <- n.ports :: PlainWord(p) && ValidPort(n.ports[p])
  }

  /** The port has a rate. */
  predicate Wired(p: Port) {
    !p.Open?
  }

  predicate HasPeer(p: Port) {
    p.Cabled?
  }

  function RatesOf(p: Port): Rates
    requires Wired(p)
  {
    match ParseRate(p.width, p.speed)
    case Ok(rates) => rates
    case Err => Rates(0.0, 0.0)
  }

  ghost predicate ValidFabric(f: Fabric) {
    forall g <- f :: ValidNode(g, f[g])
  }

  // ---------------------------------------------------------------- printing

  /** The white space of a line, and the dash before the peer. */
  datatype Layout = Layout(gaps: seq<string>, dash: string, tail: string)

  /** A line of the dump. `text` and `peerText` are the names as they are quoted there, padding and all. */
  datatype Item =
    | PortLine(guid: string, port: string, text: string, peerText: string, layout: Layout)
    | SplitLine(words: seq<string>, text: string, layout: Layout)
    | ShortLine(line: string)

  predicate ValidLayout(y: Layout, words: nat) {
    && |y.gaps| == words && (forall i | 0 <= i < |y.gaps| :: y.gaps[i] != "" && Blank(y.gaps[i]))
    && PlainWord(y.dash) && Blank(y.tail)
  }

  predicate ValidItem(f: Fabric, item: Item) {
    match item
    case ShortLine(line) => |Fields(line)| < 5
    case SplitLine(words, text, y) =>
      && |words| == 6 && (forall i | 0 <= i < |words| :: PlainWord(words[i])) && words[5] == "SDR"
      && NoQuote(text) && ValidLayout(y, 6)
    case PortLine(g, p, text, peerText, y) =>
      && g in f && p in f[g].ports && NoQuote(text)
      && (if f[g].ports[p].Cabled? then ValidLayout(y, 11) && text != "" && NoQuote(peerText) && Trim(peerText) != ""
          else ValidLayout(y, 6))
  }

  function CableWords(g: string, n: Node, p: string, dash: string): seq<string>
    requires p in n.ports && n.ports[p].Cabled?
  {
    var c := n.ports[p];
    [n.kind, n.lid, p, g, c.width, c.speed, dash, c.peer.kind, c.peer.lid, c.peer.port, c.peer.guid]
  }

  function LoneWords(g: string, n: Node, p: string): seq<string>
    requires p in n.ports && !n.ports[p].Cabled?
  {
    [n.kind, n.lid, p, g, n.ports[p].width, if n.ports[p].Open? then "???" else n.ports[p].speed]
  }

  function PrintPort(g: string, n: Node, p: string, text: string, peerText: string, y: Layout): string
    requires p in n.ports && |y.gaps| == if n.ports[p].Cabled? then 11 else 6
  {
    if n.ports[p].Cabled? then Spread(CableWords(g, n, p, y.dash), y.gaps) + PairText(text, peerText) + y.tail
    else LooseText(LoneWords(g, n, p), y.gaps, text, y.tail)
  }

  function PrintItem(f: Fabric, item: Item): string
    requires ValidItem(f, item)
  {
    match item
    case ShortLine(line) => line
    case SplitLine(words, text, y) => LooseText(words, y.gaps, text, y.tail)
    case PortLine(g, p, text, peerText, y) => PrintPort(g, f[g], p, text, peerText, y)
  }

  predicate IsLineOf(item: Item, g: string, p: string) {
    item.PortLine? && item.guid == g && item.port == p
  }

  /** The items print each port of the fabric on exactly one line, with any other quiet lines, in any order. */
  ghost predicate Prints(f: Fabric, items: seq<Item>) {
    && (forall i | 0 <= i < |items| :: ValidItem(f, items[i]))
    && (forall i, j | 0 <= i < j < |items| ::
          items[i].PortLine? && items[j].PortLine? ==> items[i].guid != items[j].guid || items[i].port != items[j].port)
    && (forall g, p | g in f && p in f[g].ports :: exists i | 0 <= i < |items| :: IsLineOf(items[i], g, p))
  }

  function PrintAll(f: Fabric, items: seq<Item>): seq<string>
    requires forall i | 0 <= i < |items| :: ValidItem(f, items[i])
  {
    seq(|items|, i requires 0 <= i < |items| => PrintItem(f, items[i]))
  }

  // ---------------------------------------------------------------- what the lines show

  function DrawnPort(port: Port, peerText: string): Port {
    if port.Cabled? then port.(peer := port.peer.(name := Trim(peerText))) else port
  }

  function WithPeer(n: Node, p: string, peerText: string): Node
    requires p in n.ports
  {
    n.(ports := n.ports[p := DrawnPort(n.ports[p], peerText)])
  }

  /** The line names the node, and the parser can read the name: on a `???` line not if it holds a parenthesis. */
  predicate ShowsName(f: Fabric, item: Item, g: string, portState: bool) {
    && item.PortLine? && item.guid == g && g in f && item.port in f[g].ports
    && (Wired(f[g].ports[item.port]) || (portState && NoParen(item.text)))
  }

  /** The text on the last line that names the node. */
  function TextShown(f: Fabric, items: seq<Item>, g: string, portState: bool): (r: Option<string>)
    ensures r.Some? ==> exists i | 0 <= i < |items| :: ShowsName(f, items[i], g, portState) && r == Some(items[i].text)
    ensures r.None? ==> forall i | 0 <= i < |items| :: !ShowsName(f, items[i], g, portState)
  {
    if items == [] then None
    else
      var n := |items| - 1;
      if ShowsName(f, items[n], g, portState) then Some(items[n].text)
      else
        var front := items[..n];
        assert forall i | 0 <= i < n :: front[i] == items[i];
        TextShown(f, front, g, portState)
  }

  /** The line of a port. */
  function LineOf(items: seq<Item>, g: string, p: string): (r: Option<Item>)
    ensures r.Some? ==> r.value in items && IsLineOf(r.value, g, p)
    ensures r.None? ==> forall item <- items :: !IsLineOf(item, g, p)
  {
    if items == [] then None
    else if IsLineOf(items[|items| - 1], g, p) then Some(items[|items| - 1])
    else LineOf(items[..|items| - 1], g, p)
  }

  lemma LineOfIs(f: Fabric, items: seq<Item>, i: nat)
    requires Prints(f, items) && i < |items| && items[i].PortLine?
    ensures LineOf(items, items[i].guid, items[i].port) == Some(items[i])
  {
    hide ValidItem;
    var r := LineOf(items, items[i].guid, items[i].port);
    assert IsLineOf(items[i], items[i].guid, items[i].port) && items[i] in items;
    var j :| 0 <= j < |items| && items[j] == r.value;
    assert !(i < j) && !(j < i);
  }

  function PeerTextShown(items: seq<Item>, g: string, p: string): string {
    match LineOf(items, g, p)
    case None => ""
    case Some(item) => item.peerText
  }

  function DrawnNode(f: Fabric, items: seq<Item>, g: string, portState: bool): Node
    requires g in f
  {
    var n := f[g];
    var name := match TextShown(f, items, g, portState) case None => "" case Some(text) => Trim(text);
    n.(name := name, ports := map p | p in n.ports :: DrawnPort(n.ports[p], PeerTextShown(items, g, p)))
  }

  /** The fabric with the names its lines show: the last readable one for a node, that of its own line for an uplink. */
  function Drawn(f: Fabric, items: seq<Item>, portState: bool): Fabric {
    map g | g in f :: DrawnNode(f, items, g, portState)
  }

  // ---------------------------------------------------------------- reading one line back

  /** What the line of a port says, if it can be read. */
  function PortSays(g: string, n: Node, p: string, text: string, portState: bool): Line
    requires p in n.ports
  {
    match n.ports[p]
    case Cabled(_, _, peer) => Link(n.kind, n.lid, p, g, Trim(text), RatesOf(n.ports[p]), Some(peer))
    case Lone(_, _) => Link(n.kind, n.lid, p, g, Trim(text), RatesOf(n.ports[p]), None)
    case Open(_) =>
      if portState then Down(n.kind, n.lid, p, g, if NoParen(text) then Some(Trim(text)) else None) else Skip
  }

  /** The line can be read: its rate is known, and without a peer its name holds no parenthesis. */
  predicate Legible(f: Fabric, item: Item)
    requires ValidItem(f, item)
  {
    item.PortLine? ==>
      match f[item.guid].ports[item.port]
      case Open(_) => true
      case Lone(width, speed) => ParseRate(width, speed).Ok? && NoParen(item.text)
      case Cabled(width, speed, _) => ParseRate(width, speed).Ok?
  }

  ghost predicate AllLegible(f: Fabric, items: seq<Item>)
    requires forall i | 0 <= i < |items| :: ValidItem(f, items[i])
  {
    forall i | 0 <= i < |items| :: Legible(f, items[i])
  }

  function ItemSays(f: Fabric, item: Item, portState: bool): Line
    requires ValidItem(f, item)
  {
    match item
    case PortLine(g, p, text, peerText, y) =>
      if Legible(f, item) then PortSays(g, WithPeer(f[g], p, peerText), p, text, portState) else Failure
    case _ => Skip
  }

  lemma CablePrintsBack(f: Fabric, item: Item, portState: bool)
    requires ValidFabric(f) && ValidItem(f, item) && item.PortLine? && f[item.guid].ports[item.port].Cabled?
    ensures ParseLine(PrintItem(f, item), portState) == ItemSays(f, item, portState)
  {
    hide ParseLine, Spread, PairText, ParseRate, Trim, NoQuote, NoParen, Blank, Word;
    var g, p, y := item.guid, item.port, item.layout;
    CableHead(g, f[g], p, y);
    ConnectedLine(CableWords(g, f[g], p, y.dash), y.gaps, item.text, item.peerText, y.tail, portState);
  }

  lemma CableHead(g: string, n: Node, p: string, y: Layout)
    requires ValidNode(g, n) && p in n.ports && n.ports[p].Cabled? && ValidLayout(y, 11)
    ensures Head(CableWords(g, n, p, y.dash), y.gaps)
  {
    hide NoQuote, NoParen, Blank, Word;
  }

  lemma LoneHead(g: string, n: Node, p: string, y: Layout)
    requires ValidNode(g, n) && p in n.ports && !n.ports[p].Cabled? && ValidLayout(y, 6)
    ensures Head(LoneWords(g, n, p), y.gaps)
  {
    hide NoQuote, NoParen, Blank, Word;
    UnpluggedIsPlain();
  }

  lemma LonePrintsBack(f: Fabric, item: Item, portState: bool)
    requires ValidFabric(f) && ValidItem(f, item) && item.PortLine? && !f[item.guid].ports[item.port].Cabled?
    ensures ParseLine(PrintItem(f, item), portState) == ItemSays(f, item, portState)
  {
    hide ParseLine, LooseText, ParseRate, NoQuote, NoParen, Blank, Word, Trim;
    var g, p, y := item.guid, item.port, item.layout;
    LoneHead(g, f[g], p, y);
    PeerlessLine(LoneWords(g, f[g], p), y.gaps, item.text, y.tail, portState);
  }

  lemma UnpluggedIsPlain()
    ensures PlainWord("???")
  {
  }

  lemma SplitPrintsNothing(words: seq<string>, text: string, y: Layout, portState: bool)
    requires |words| == 6 && (forall i | 0 <= i < |words| :: PlainWord(words[i])) && words[5] == "SDR"
    requires NoQuote(text) && ValidLayout(y, 6)
    ensures ParseLine(LooseText(words, y.gaps, text, y.tail), portState).Skip?
  {
    hide ParseLine, LooseText, ParseRate, NoQuote, NoParen, Blank, Word, Trim;
    PeerlessLine(words, y.gaps, text, y.tail, portState);
  }

  lemma ItemPrintsBack(f: Fabric, item: Item, portState: bool)
    requires ValidFabric(f) && ValidItem(f, item)
    ensures ParseLine(PrintItem(f, item), portState) == ItemSays(f, item, portState)
  {
    hide PortSays, ValidNode, LooseText, PlainWord, WithPeer, Trim, NoQuote, ValidLayout, Legible;
    match item
    case ShortLine(line) =>
    case SplitLine(words, text, y) => SplitPrintsNothing(words, text, y, portState);
    case PortLine(g, p, text, peerText, y) =>
      if f[g].ports[p].Cabled? {
        CablePrintsBack(f, item, portState);
      } else {
        LonePrintsBack(f, item, portState);
      }
  }

  function Says(f: Fabric, items: seq<Item>, portState: bool): seq<Line>
    requires forall i | 0 <= i < |items| :: ValidItem(f, items[i])
  {
    seq(|items|, i requires 0 <= i < |items| => ItemSays(f, items[i], portState))
  }

  lemma LinesPrintBack(f: Fabric, items: seq<Item>, portState: bool)
    requires ValidFabric(f) && forall i | 0 <= i < |items| :: ValidItem(f, items[i])
    ensures ParseLines(PrintAll(f, items), portState) == Says(f, items, portState)
  {
    hide ValidFabric, ValidItem, ParseLine, ItemSays, PrintItem;
    forall i | 0 <= i < |items|
      ensures ParseLine(PrintItem(f, items[i]), portState) == ItemSays(f, items[i], portState)
    {
      ItemPrintsBack(f, items[i], portState);
    }
  }

  // ---------------------------------------------------------------- all lines together

  lemma ItemIsAbout(f: Fabric, item: Item, portState: bool)
    requires ValidItem(f, item)
    ensures
      var l := ItemSays(f, item, portState);
      && !l.Panic? && (l.Failure? <==> !Legible(f, item))
      && (item.PortLine? ==> item.guid in f && item.port in f[item.guid].ports)
      && (l.Down? || l.Link? ==>
            && item.PortLine? && l.guid == item.guid && l.port == item.port
            && l.kind == f[item.guid].kind && l.lid == f[item.guid].lid
            && (portState || Wired(f[item.guid].ports[item.port])))
      && (item.PortLine? && Legible(f, item) && (portState || Wired(f[item.guid].ports[item.port])) ==>
            l.Down? || l.Link?)
  {
    hide PlainWord, ValidLayout, Fields, Trim, NoQuote, NoParen, ParseRate;
  }

  lemma SaysConsistently(f: Fabric, items: seq<Item>, portState: bool)
    requires Prints(f, items)
    ensures Consistent(Says(f, items, portState))
    ensures forall i | 0 <= i < |items| ::
      !Says(f, items, portState)[i].Panic? && (Says(f, items, portState)[i].Failure? <==> !Legible(f, items[i]))
  {
    hide ItemSays, ValidItem, Legible;
    var lines := Says(f, items, portState);
    forall i | 0 <= i < |lines| ensures !lines[i].Panic? && (lines[i].Failure? <==> !Legible(f, items[i])) {
      ItemIsAbout(f, items[i], portState);
    }
    forall i, j | 0 <= i < j < |lines| && (lines[i].Down? || lines[i].Link?) && Describes(lines[j], lines[i].guid)
      ensures Agree(lines[i], lines[j])
    {
      ItemIsAbout(f, items[i], portState);
      ItemIsAbout(f, items[j], portState);
    }
  }
  /** The devices that have a line of their own: without the port-state flag, unplugged ports are not looked at. */
  ghost predicate Visible(n: Node, portState: bool) {
    exists p <- n.ports :: portState || Wired(n.ports[p])
  }

  function UplinksOf(n: Node): map<string, Uplink> {
    map p | p in n.ports && n.ports[p].Cabled? ::
      var peer, rates := n.ports[p].peer, RatesOf(n.ports[p]);
      Uplink(peer.kind, peer.lid, peer.port, peer.guid, peer.name, rates.effective, rates.raw)
  }

  function OpenPorts(n: Node): set<string> {
    set p | p in n.ports && n.ports[p].Open?
  }

  /** The port with such a line that was drawn last. */
  function LastPort(f: Fabric, items: seq<Item>, g: string, uses: Port -> bool): (r: Option<string>)
    ensures r.Some? ==> g in f && r.value in f[g].ports && uses(f[g].ports[r.value])
    ensures r.None? ==> forall item <- items | item.PortLine? && item.guid == g && g in f && item.port in f[g].ports ::
      !uses(f[g].ports[item.port])
  {
    if items == [] then None
    else
      var item := items[|items| - 1];
      if item.PortLine? && item.guid == g && g in f && item.port in f[g].ports && uses(f[g].ports[item.port])
      then Some(item.port)
      else LastPort(f, items[..|items| - 1], g, uses)
  }

  /** The switch is that of the last port drawn with a peer, the rates of an HCA are those of the last that has some. */
  predicate FollowsLast(d: Device, f: Fabric, items: seq<Item>, g: string)
    requires g in f
  {
    && (match LastPort(f, items, g, HasPeer)
        case None => d.switch == ""
        case Some(p) => p in d.uplinks && d.switch == d.uplinks[p].name)
    && (match if f[g].kind == "CA" then LastPort(f, items, g, Wired) else None
        case None => d.rate == d.rawRate == 0.0
        case Some(p) => d.rate == RatesOf(f[g].ports[p]).effective && d.rawRate == RatesOf(f[g].ports[p]).raw)
  }

  /**
   * In whatever order the lines were drawn: the switch is that of some uplink, and an HCA has the rates of some port
   * that has some; if that port has a peer, the switch is its.
   */
  ghost predicate FollowsALine(d: Device, n: Node) {
    && (if UplinksOf(n) == map[] then d.switch == "" else exists p <- d.uplinks :: d.switch == d.uplinks[p].name)
    && (if n.kind == "CA" && exists p <- n.ports :: Wired(n.ports[p])
        then exists p <- n.ports ::
          && Wired(n.ports[p]) && d.rate == RatesOf(n.ports[p]).effective && d.rawRate == RatesOf(n.ports[p]).raw
          && (p in d.uplinks ==> d.switch == d.uplinks[p].name)
        else d.rate == d.rawRate == 0.0)
  }

  /** The device is this node of the fabric; a name with a parenthesis can be read on a connected line only. */
  ghost predicate IsNode(d: Device, g: string, n: Node, portState: bool) {
    && d.guid == g && d.kind == n.kind && d.lid == n.lid
    && d.name == (if NoParen(n.name) || UplinksOf(n) != map[] then n.name else "")
    && d.uplinks == UplinksOf(n)
    && multiset(d.downPorts) == (if portState then multiset(OpenPorts(n)) else multiset{})
    && FollowsALine(d, n)
  }

  /** The lines about a node are those of its ports. */
  ghost predicate LinesOf(lines: seq<Line>, g: string, n: Node, portState: bool) {
    && (forall p <- n.ports :: exists text :: PortSays(g, n, p, text, portState) in lines)
    && (forall l <- lines | Describes(l, g) :: exists p, text | p in n.ports :: l == PortSays(g, n, p, text, portState))
  }

  lemma PortSaysAsDrawn(f: Fabric, items: seq<Item>, i: nat, portState: bool)
    requires Prints(f, items) && i < |items| && items[i].PortLine? && Legible(f, items[i])
    ensures
      var item := items[i];
      && item.guid in f && item.port in DrawnNode(f, items, item.guid, portState).ports
      && ItemSays(f, item, portState) ==
        PortSays(item.guid, DrawnNode(f, items, item.guid, portState), item.port, item.text, portState)
  {
    hide LineOf, TextShown, ValidLayout, Fields, PlainWord, Trim, NoQuote, NoParen, ParseRate;
    LineOfIs(f, items, i);
  }

  lemma SaysLinesOf(f: Fabric, items: seq<Item>, g: string, portState: bool)
    requires Prints(f, items) && AllLegible(f, items) && g in f
    ensures LinesOf(Says(f, items, portState), g, DrawnNode(f, items, g, portState), portState)
  {
    hide PortSays, ItemSays, ValidItem, LineOf, TextShown, DrawnPort, PeerTextShown, Legible;
    var lines := Says(f, items, portState);
    var n := DrawnNode(f, items, g, portState);
    forall p | p in n.ports ensures exists text :: PortSays(g, n, p, text, portState) in lines {
      var i :| 0 <= i < |items| && IsLineOf(items[i], g, p);
      PortSaysAsDrawn(f, items, i, portState);
      assert lines[i] == PortSays(g, n, p, items[i].text, portState);
    }
    forall l | l in lines && Describes(l, g)
      ensures exists p, text | p in n.ports :: l == PortSays(g, n, p, text, portState)
    {
      var i :| 0 <= i < |lines| && lines[i] == l;
      PortSaysItsGuid(f, items[i], portState);
      PortSaysAsDrawn(f, items, i, portState);
      assert l == PortSays(g, n, items[i].port, items[i].text, portState);
    }
  }

  lemma PortSaysItsGuid(f: Fabric, item: Item, portState: bool)
    requires ValidItem(f, item)
    ensures
      var l := ItemSays(f, item, portState);
      l.Down? || l.Link? ==> item.PortLine? && l.guid == item.guid
  {
    hide ValidLayout, Fields, PlainWord, Trim, NoParen, NoQuote;
  }

  lemma SaysSnoc(f: Fabric, items: seq<Item>, portState: bool)
    requires (forall i | 0 <= i < |items| :: ValidItem(f, items[i])) && AllLegible(f, items)
    ensures |Says(f, items, portState)| == |items|
    ensures items != [] ==>
      var n := |items| - 1;
      && (forall i | 0 <= i < n :: ValidItem(f, items[..n][i])) && AllLegible(f, items[..n])
      && Says(f, items, portState)[..n] == Says(f, items[..n], portState)
      && Says(f, items, portState)[n] == ItemSays(f, items[n], portState)
  {
    hide ItemSays, ValidItem, Legible;
  }

  /** The last line that tells the name is the last one that shows it. */
  lemma {:induction false} NameIsShown(f: Fabric, items: seq<Item>, g: string, portState: bool)
    requires (forall i | 0 <= i < |items| :: ValidItem(f, items[i])) && AllLegible(f, items)
    ensures
      var l, text := LastOf(Says(f, items, portState), g, Naming), TextShown(f, items, g, portState);
      (l.Some? <==> text.Some?) && (l.Some? ==> NameOf(l.value) == Trim(text.value))
    decreases |items|
  {
    hide ItemSays, ValidItem, ShowsName, Legible, Says, Describes, Naming, Trim;
    SaysSnoc(f, items, portState);
    if items != [] {
      var n := |items| - 1;
      NameIsShown(f, items[..n], g, portState);
      ItemNames(f, items[n], g, portState);
    }
  }

  lemma ItemNames(f: Fabric, item: Item, g: string, portState: bool)
    requires ValidItem(f, item) && Legible(f, item)
    ensures
      var l := ItemSays(f, item, portState);
      (Describes(l, g) && Naming(l) <==> ShowsName(f, item, g, portState))
      && (ShowsName(f, item, g, portState) ==> NameOf(l) == Trim(item.text))
  {
    hide ValidLayout, Fields, PlainWord, Trim, NoParen, NoQuote, RatesOf;
  }

  lemma CabledPortIsUp(g: string, n: Node, p: string, text: string, portState: bool, q: string)
    requires p in n.ports
    ensures IsUp(PortSays(g, n, p, text, portState), g, q) <==> q == p && n.ports[p].Cabled?
    ensures IsUp(PortSays(g, n, p, text, portState), g, p) ==> Describes(PortSays(g, n, p, text, portState), g)
  {
    hide RatesOf, Trim, NoParen;
  }

  lemma NodeUplinkPorts(lines: seq<Line>, g: string, n: Node, portState: bool, d: Device, p: string)
    requires LinesOf(lines, g, n, portState) && Linked(lines, g, d)
    ensures p in d.uplinks <==> p in n.ports && n.ports[p].Cabled?
  {
    hide UplinkOf, PortSays;
    if p in n.ports && n.ports[p].Cabled? {
      var text :| PortSays(g, n, p, text, portState) in lines;
      CabledPortIsUp(g, n, p, text, portState, p);
    }
    if l :| l in lines && IsUp(l, g, p) {
      assert Describes(l, g);
      var q, text :| q in n.ports && l == PortSays(g, n, q, text, portState);
      CabledPortIsUp(g, n, q, text, portState, p);
    }
  }

  lemma CabledPortSays(g: string, n: Node, p: string, text: string, portState: bool)
    requires p in n.ports && n.ports[p].Cabled?
    ensures
      var l := PortSays(g, n, p, text, portState);
      l.Link? && l.port == p && l.peer.Some? && UplinkOf(l.peer.value, l.rates) == UplinksOf(n)[p]
  {
    hide RatesOf, Trim;
  }

  lemma NodeUplinkAt(lines: seq<Line>, g: string, n: Node, portState: bool, d: Device, p: string)
    requires LinesOf(lines, g, n, portState) && Linked(lines, g, d) && p in n.ports && n.ports[p].Cabled?
    ensures p in d.uplinks && d.uplinks[p] == UplinksOf(n)[p]
  {
    hide PortSays, UplinksOf, UplinkOf;
    var text :| PortSays(g, n, p, text, portState) in lines;
    var l := PortSays(g, n, p, text, portState);
    CabledPortIsUp(g, n, p, text, portState, p);
    CabledPortSays(g, n, p, text, portState);
    assert Describes(l, g) && IsUp(l, g, l.port);
  }

  lemma NodeUplinks(lines: seq<Line>, g: string, n: Node, portState: bool, d: Device)
    requires LinesOf(lines, g, n, portState) && Linked(lines, g, d)
    ensures d.uplinks == UplinksOf(n)
  {
    hide LinesOf, Linked, RatesOf;
    forall p ensures p in d.uplinks <==> p in UplinksOf(n) {
      NodeUplinkPorts(lines, g, n, portState, d, p);
    }
    forall p | p in d.uplinks ensures d.uplinks[p] == UplinksOf(n)[p] {
      NodeUplinkAt(lines, g, n, portState, d, p);
    }
  }

  lemma NodeDownPorts(lines: seq<Line>, g: string, n: Node, portState: bool, d: Device)
    requires LinesOf(lines, g, n, portState) && Unplugged(lines, g, d)
    ensures multiset(d.downPorts) == if portState then multiset(OpenPorts(n)) else multiset{}
  {
    hide UplinkOf, RatesOf, Trim, NoParen;
    var open := if portState then multiset(OpenPorts(n)) else multiset{};
    forall p ensures multiset(d.downPorts)[p] == open[p] {
      if portState && p in OpenPorts(n) {
        var text :| PortSays(g, n, p, text, portState) in lines;
        assert IsDown(PortSays(g, n, p, text, portState), g, p);
      }
      if l :| l in lines && IsDown(l, g, p) {
        assert Describes(l, g);
      }
    }
  }

  lemma NodeIdentity(lines: seq<Line>, g: string, n: Node, portState: bool, d: Device)
    requires LinesOf(lines, g, n, portState) && Identified(lines, g, d) && Visible(n, portState)
    ensures d.guid == g && d.kind == n.kind && d.lid == n.lid
  {
    hide UplinkOf, RatesOf, Trim, NoParen;
    var p :| p in n.ports && (portState || Wired(n.ports[p]));
    var text :| PortSays(g, n, p, text, portState) in lines;
    assert Describes(PortSays(g, n, p, text, portState), g);
  }

  lemma {:induction false} SameLast(lines: seq<Line>, g: string, a: Line -> bool, b: Line -> bool)
    requires forall l <- lines | Describes(l, g) :: a(l) <==> b(l)
    ensures LastOf(lines, g, a) == LastOf(lines, g, b)
  {
    hide Describes;
    if lines != [] {
      SameLast(lines[..|lines| - 1], g, a, b);
    }
  }

  /** The last line that tells something is that of the last port whose line does. */
  lemma {:induction false} LastPortSays(f: Fabric, items: seq<Item>, g: string, portState: bool, tells: Line -> bool,
    uses: Port -> bool) returns (i: int)
    requires (forall k | 0 <= k < |items| :: ValidItem(f, items[k])) && AllLegible(f, items) && g in f
    requires forall k | 0 <= k < |items| && items[k].PortLine? && items[k].guid == g ::
      tells(ItemSays(f, items[k], portState)) <==> uses(f[g].ports[items[k].port])
    requires forall port :: uses(port) ==> Wired(port)
    ensures
      var l, p := LastOf(Says(f, items, portState), g, tells), LastPort(f, items, g, uses);
      && (l.Some? <==> p.Some?)
      && (l.Some? ==>
            && 0 <= i < |items| && items[i].PortLine? && items[i].guid == g && items[i].port == p.value
            && l.value == ItemSays(f, items[i], portState))
    decreases |items|
  {
    hide ItemSays, ValidItem, Legible, Describes, Says;
    SaysSnoc(f, items, portState);
    i := -1;
    if items != [] {
      var n := |items| - 1;
      i := LastPortSays(f, items[..n], g, portState, tells, uses);
      ItemDescribes(f, items[n], g, portState);
      if items[n].PortLine? && items[n].guid == g && uses(f[g].ports[items[n].port]) {
        i := n;
      }
    }
  }

  /** A readable line with a rate is about its device; no other line is about that. */
  lemma ItemDescribes(f: Fabric, item: Item, g: string, portState: bool)
    requires ValidItem(f, item) && Legible(f, item)
    ensures
      var l := ItemSays(f, item, portState);
      && (item.PortLine? ==> item.guid in f && item.port in f[item.guid].ports)
      && (Describes(l, g) ==> item.PortLine? && item.guid == g)
      && (item.PortLine? && item.guid == g && Wired(f[item.guid].ports[item.port]) ==> Describes(l, g))
  {
    hide ValidLayout, Fields, PlainWord, Trim, NoParen, NoQuote, ParseRate;
  }

  lemma ItemTells(f: Fabric, item: Item, portState: bool)
    requires ValidItem(f, item) && Legible(f, item) && item.PortLine?
    ensures
      var l, n, port := ItemSays(f, item, portState), f[item.guid], f[item.guid].ports[item.port];
      && (Linking(l) <==> HasPeer(port)) && (Rating(l) <==> n.kind == "CA" && Wired(port))
      && (Linking(l) ==> l.peer.value.name == Trim(item.peerText))
      && (Wired(port) ==> l.Link? && l.rates == RatesOf(port))
  {
    hide ValidLayout, Fields, PlainWord, Trim, NoParen, NoQuote, ParseRate;
  }

  /** The device follows the last lines drawn. */
  lemma DeviceFollowsLast(f: Fabric, items: seq<Item>, g: string, portState: bool, d: Device)
    requires Prints(f, items) && AllLegible(f, items) && g in f
    requires
      var lines := Says(f, items, portState);
      Upstream(lines, g, d) && Rated(lines, g, d) && d.uplinks == UplinksOf(DrawnNode(f, items, g, portState))
    ensures FollowsLast(d, f, items, g)
  {
    hide RatesOf, LastOf, LastPort, ValidItem, Legible, Says, DrawnNode, UplinksOf, Upstream, Rated;
    DeviceFollowsSwitch(f, items, g, portState, d);
    DeviceFollowsRates(f, items, g, portState, d);
  }

  lemma DeviceFollowsSwitch(f: Fabric, items: seq<Item>, g: string, portState: bool, d: Device)
    requires Prints(f, items) && AllLegible(f, items) && g in f && Upstream(Says(f, items, portState), g, d)
    requires d.uplinks == UplinksOf(DrawnNode(f, items, g, portState))
    ensures match LastPort(f, items, g, HasPeer)
            case None => d.switch == ""
            case Some(p) => p in d.uplinks && d.switch == d.uplinks[p].name
  {
    hide RatesOf, LastOf, LastPort, Trim, ValidItem, Legible, ItemSays, DrawnNode, UplinksOf, Linking;
    forall k | 0 <= k < |items| && items[k].PortLine? && items[k].guid == g
      ensures items[k].port in f[g].ports
      ensures Linking(ItemSays(f, items[k], portState)) <==> HasPeer(f[g].ports[items[k].port])
    {
      ItemDescribes(f, items[k], g, portState);
      ItemTells(f, items[k], portState);
    }
    var i := LastPortSays(f, items, g, portState, Linking, HasPeer);
    if LastPort(f, items, g, HasPeer).Some? {
      ItemTells(f, items[i], portState);
      DrawnUplink(f, items, i, portState);
    }
  }

  lemma DrawnUplink(f: Fabric, items: seq<Item>, i: nat, portState: bool)
    requires Prints(f, items) && i < |items| && items[i].PortLine? && items[i].guid in f
    requires items[i].port in f[items[i].guid].ports && HasPeer(f[items[i].guid].ports[items[i].port])
    ensures
      var uplinks := UplinksOf(DrawnNode(f, items, items[i].guid, portState));
      items[i].port in uplinks && uplinks[items[i].port].name == Trim(items[i].peerText)
  {
    hide RatesOf, Trim, ValidItem, TextShown, LineOf;
    LineOfIs(f, items, i);
  }
  lemma DeviceFollowsRates(f: Fabric, items: seq<Item>, g: string, portState: bool, d: Device)
    requires Prints(f, items) && AllLegible(f, items) && g in f && Rated(Says(f, items, portState), g, d)
    ensures
      match if f[g].kind == "CA" then LastPort(f, items, g, Wired) else None
      case None => d.rate == d.rawRate == 0.0
      case Some(p) => d.rate == RatesOf(f[g].ports[p]).effective && d.rawRate == RatesOf(f[g].ports[p]).raw
  {
    hide RatesOf, LastOf, LastPort, Trim, ValidItem, Legible, ItemSays, Rating;
    forall k | 0 <= k < |items| && items[k].PortLine? && items[k].guid == g
      ensures items[k].port in f[g].ports
      ensures Rating(ItemSays(f, items[k], portState)) <==> f[g].kind == "CA" && Wired(f[g].ports[items[k].port])
    {
      ItemDescribes(f, items[k], g, portState);
      ItemTells(f, items[k], portState);
    }
    if f[g].kind == "CA" {
      var i := LastPortSays(f, items, g, portState, Rating, Wired);
      if LastPort(f, items, g, Wired).Some? {
        ItemTells(f, items[i], portState);
      }
    } else {
      NothingRates(f, items, g, portState);
    }
  }

  lemma NothingRates(f: Fabric, items: seq<Item>, g: string, portState: bool)
    requires Prints(f, items) && AllLegible(f, items) && g in f && f[g].kind != "CA"
    ensures LastOf(Says(f, items, portState), g, Rating).None?
  {
    hide ValidItem, Legible, ItemSays, Rating, Describes;
    var last := LastOf(Says(f, items, portState), g, Rating);
    if last.Some? {
      var i :| 0 <= i < |items| && last.value == ItemSays(f, items[i], portState);
      ItemDescribes(f, items[i], g, portState);
      ItemTells(f, items[i], portState);
    }
  }

  lemma {:induction false} LastOfBoth(f: Fabric, items: seq<Item>, g: string)
    ensures
      var p := LastPort(f, items, g, Wired);
      p.Some? && HasPeer(f[g].ports[p.value]) ==> LastPort(f, items, g, HasPeer) == p
  {
    if items != [] {
      LastOfBoth(f, items[..|items| - 1], g);
    }
  }

  lemma DrawnPortIs(f: Fabric, items: seq<Item>, g: string, portState: bool, p: string)
    requires Prints(f, items) && g in f && p in f[g].ports
    ensures
      var n := DrawnNode(f, items, g, portState);
      && p in n.ports && (Wired(n.ports[p]) <==> Wired(f[g].ports[p]))
      && (p in UplinksOf(n) <==> HasPeer(f[g].ports[p]))
      && (Wired(f[g].ports[p]) ==> RatesOf(n.ports[p]) == RatesOf(f[g].ports[p]))
    ensures exists item <- items :: IsLineOf(item, g, p)
  {
    hide RatesOf, ValidItem, TextShown, PeerTextShown, DrawnPort, Wired, HasPeer;
    DrawnKeepsWire(f[g].ports[p], PeerTextShown(items, g, p));
    var i :| 0 <= i < |items| && IsLineOf(items[i], g, p);
    assert items[i] in items;
  }

  lemma DrawnNodeIs(f: Fabric, items: seq<Item>, g: string, portState: bool)
    requires g in f
    ensures
      var n := DrawnNode(f, items, g, portState);
      n.kind == f[g].kind && n.ports.Keys == f[g].ports.Keys && UplinksOf(n).Keys <= n.ports.Keys
  {
    hide RatesOf, TextShown, PeerTextShown, DrawnPort;
  }

  /** So it follows some line, whatever the order. */
  lemma DeviceFollowsALine(f: Fabric, items: seq<Item>, g: string, portState: bool, d: Device)
    requires Prints(f, items) && g in f && FollowsLast(d, f, items, g)
    requires d.uplinks == UplinksOf(DrawnNode(f, items, g, portState))
    ensures FollowsALine(d, DrawnNode(f, items, g, portState))
  {
    hide RatesOf, LastPort, Prints, DrawnNode, UplinksOf, Wired, HasPeer;
    LastOfBoth(f, items, g);
    DrawnNodeIs(f, items, g, portState);
    forall p | p in f[g].ports
      ensures
        var n := DrawnNode(f, items, g, portState);
        && p in n.ports && (Wired(n.ports[p]) <==> Wired(f[g].ports[p])) && (p in d.uplinks <==> HasPeer(f[g].ports[p]))
        && (Wired(f[g].ports[p]) ==> RatesOf(n.ports[p]) == RatesOf(f[g].ports[p]))
      ensures exists item <- items :: IsLineOf(item, g, p)
    {
      DrawnPortIs(f, items, g, portState, p);
    }
  }

 lemma NodeIsRead(lines: seq<Line>, g: string, n: Node, portState: bool, d: Device)
    requires LinesOf(lines, g, n, portState) && IsDeviceOf(lines, g, d) && Visible(n, portState)
    requires d.name == n.name && (NoParen(n.name) || UplinksOf(n) != map[]) && FollowsALine(d, n)
    ensures IsNode(d, g, n, portState)
  {
    hide LinesOf, Linked, Unplugged, Identified, Named, Rated, Upstream, Visible, UplinksOf, OpenPorts, RatesOf,
      FollowsALine, NoParen;
    NodeUplinks(lines, g, n, portState, d);
    NodeDownPorts(lines, g, n, portState, d);
    NodeIdentity(lines, g, n, portState, d);
  }

  lemma TrimKeepsParens(s: string)
    ensures NoParen(Trim(s)) <==> NoParen(s)
  {
    var l, r := TrimParts(s);
    var t := Trim(s);
    assert s == l + t + r;
    forall i | 0 <= i < |s| ensures s[i] == '(' <==> |l| <= i < |l| + |t| && t[i - |l|] == '(' {
    }
    forall i | 0 <= i < |t| ensures t[i] == s[|l| + i] {
    }
  }

  lemma NameIsRead(f: Fabric, items: seq<Item>, g: string, portState: bool, d: Device)
    requires Prints(f, items) && AllLegible(f, items) && g in f && Named(Says(f, items, portState), g, d)
    ensures
      var n := DrawnNode(f, items, g, portState);
      d.name == n.name && (NoParen(n.name) || UplinksOf(n) != map[])
  {
    hide Trim, TextShown, LastOf, ValidItem, RatesOf, NoParen, PeerTextShown, Says, DrawnPort, Legible;
    NameIsShown(f, items, g, portState);
    var n := DrawnNode(f, items, g, portState);
    var text := TextShown(f, items, g, portState);
    if text.None? {
      EmptyHasNoParen();
    } else {
      var i :| 0 <= i < |items| && ShowsName(f, items[i], g, portState) && text == Some(items[i].text);
      TrimKeepsParens(text.value);
      LegibleName(f, items[i]);
      if f[g].ports[items[i].port].Cabled? {
        DrawnKeepsWire(f[g].ports[items[i].port], PeerTextShown(items, g, items[i].port));
        assert items[i].port in UplinksOf(n);
      }
    }
  }

  lemma EmptyHasNoParen()
    ensures NoParen("")
  {
  }

  lemma DrawnKeepsWire(port: Port, peerText: string)
    ensures
      var drawn := DrawnPort(port, peerText);
      && (drawn.Cabled? <==> HasPeer(port)) && (Wired(drawn) <==> Wired(port))
      && (Wired(port) ==> RatesOf(drawn) == RatesOf(port))
  {
    hide Trim;
  }

  lemma LegibleName(f: Fabric, item: Item)
    requires ValidItem(f, item) && Legible(f, item) && item.PortLine?
    ensures f[item.guid].ports[item.port].Lone? ==> NoParen(item.text)
  {
    hide ValidLayout, Fields, PlainWord, Trim, NoParen, NoQuote, ParseRate;
  }

  lemma VisibleAsDrawn(f: Fabric, items: seq<Item>, g: string, portState: bool)
    requires g in f
    ensures Visible(DrawnNode(f, items, g, portState), portState) <==> Visible(f[g], portState)
  {
    hide TextShown, PeerTextShown, Trim;
    var n := DrawnNode(f, items, g, portState);
    assert forall p :: p in n.ports <==> p in f[g].ports;
    assert forall p <- n.ports :: Wired(n.ports[p]) <==> Wired(f[g].ports[p]);
  }

  lemma VisibleNodes(f: Fabric, items: seq<Item>, g: string, portState: bool)
    requires Prints(f, items) && AllLegible(f, items)
    ensures
      var lines := Says(f, items, portState);
      (exists i | 0 <= i < |lines| :: Describes(lines[i], g)) <==> g in f && Visible(f[g], portState)
  {
    hide ItemSays, ValidItem, Legible, Wired;
    var lines := Says(f, items, portState);
    if i :| 0 <= i < |lines| && Describes(lines[i], g) {
      ItemIsAbout(f, items[i], portState);
    }
    if g in f && Visible(f[g], portState) {
      var p :| p in f[g].ports && (portState || Wired(f[g].ports[p]));
      var i :| 0 <= i < |items| && IsLineOf(items[i], g, p);
      ItemIsAbout(f, items[i], portState);
      assert Describes(lines[i], g);
    }
  }
  /** The list holds the visible nodes of one kind, each once, by increasing GUID. */
  ghost predicate ListsNodes(f: Fabric, kind: string, portState: bool, list: seq<Device>) {
    && (forall i, j | 0 <= i < j < |list| :: Less(list[i].guid, list[j].guid))
    && (forall i | 0 <= i < |list| ::
          && list[i].guid in f && Visible(f[list[i].guid], portState) && f[list[i].guid].kind == kind
          && IsNode(list[i], list[i].guid, f[list[i].guid], portState))
    && (forall g | g in f && Visible(f[g], portState) && f[g].kind == kind ::
          exists i | 0 <= i < |list| :: list[i].guid == g)
  }

  lemma ListOfNodes(f: Fabric, devices: map<string, Device>, kind: string, portState: bool, list: seq<Device>)
    requires forall g :: g in devices <==> g in f && Visible(f[g], portState)
    requires forall g | g in devices :: IsNode(devices[g], g, f[g], portState)
    requires Lists(devices, kind, list)
    ensures ListsNodes(f, kind, portState, list)
  {
    hide Visible, Less, UplinksOf, OpenPorts, RatesOf, NoParen, FollowsALine;
    forall g | g in f && Visible(f[g], portState) && f[g].kind == kind
      ensures exists i | 0 <= i < |list| :: list[i].guid == g
    {
      assert g in devices && devices[g].kind == kind;
    }
  }

  ghost predicate ReadsAs(o: Outcome, f: Fabric, portState: bool) {
    o.Parsed? && ListsNodes(f, "SW", portState, o.topology.switches) && ListsNodes(f, "CA", portState, o.topology.hcas)
  }

  /** Each device follows the last of its lines. */
  ghost predicate AllFollow(o: Outcome, f: Fabric, items: seq<Item>) {
    && o.Parsed?
    && forall d | d in o.topology.switches || d in o.topology.hcas :: d.guid in f && FollowsLast(d, f, items, d.guid)
  }

  /**
   * What a drawing says: any text that draws each port of a fabric on one line, in any order, with any white space, any
   * quiet lines in between and whatever names its lines show, is rejected if one of its lines cannot be read. Otherwise
   * it parses to the nodes of that fabric with those names: each switch and each HCA once, by increasing GUID, with its
   * uplinks and down ports, and with the switch and the rates of the last of its lines that has one.
   */
  lemma DrawingRoundTrip(f: Fabric, items: seq<Item>, out: string, portState: bool, o: Outcome)
    requires ValidFabric(f) && Prints(f, items) && Split(out, '\n') == PrintAll(f, items)
    requires IsOutcome(ParseDevices(out, portState), o)
    ensures
      if AllLegible(f, items) then ReadsAs(o, Drawn(f, items, portState), portState) && AllFollow(o, f, items)
      else o.Rejected?
  {
    hide Run, Split, ParseLine, Says, PrintAll, ValidFabric, Prints, AllLegible, IsOutcome, ReadsAs, Drawn, AllFollow;
    SaysLength(f, items, portState);
    LinesPrintBack(f, items, portState);
    if AllLegible(f, items) {
      LegibleIsRead(f, items, out, portState, o);
    } else {
      IllegibleIsRejected(f, items, out, portState, o);
    }
  }

  lemma IllegibleIsRejected(f: Fabric, items: seq<Item>, out: string, portState: bool, o: Outcome)
    requires Prints(f, items) && !AllLegible(f, items)
    requires ParseLines(Split(out, '\n'), portState) == Says(f, items, portState)
    requires IsOutcome(ParseDevices(out, portState), o)
    ensures o.Rejected?
  {
    hide Run, Split, ParseLine, Says, Legible, Prints, Consistent, IsTopology;
    SaysLength(f, items, portState);
    SaysConsistently(f, items, portState);
    var lines := Says(f, items, portState);
    var i :| 0 <= i < |items| && !Legible(f, items[i]);
    var k := FirstStopping(lines, i);
    FirstStopDecides(map[], lines);
  }

  lemma LegibleIsRead(f: Fabric, items: seq<Item>, out: string, portState: bool, o: Outcome)
    requires Prints(f, items) && AllLegible(f, items)
    requires ParseLines(Split(out, '\n'), portState) == Says(f, items, portState)
    requires IsOutcome(ParseDevices(out, portState), o)
    ensures ReadsAs(o, Drawn(f, items, portState), portState) && AllFollow(o, f, items)
  {
    hide Run, Split, ParseLine, Says, Legible, Prints, Consistent, LinesOf, IsDeviceOf, Described, FollowsLast,
      Visible, ListsNodes, Lists, IsNode, DrawnNode, NoParen, UplinksOf;
    SaysLength(f, items, portState);
    var lines, drawn := Says(f, items, portState), Drawn(f, items, portState);
    SaysConsistently(f, items, portState);
    RunIsDescribed(lines);
    var devices := ParseDevices(out, portState).devices;
    forall g ensures g in devices <==> g in drawn && Visible(drawn[g], portState) {
      VisibleNodes(f, items, g, portState);
      if g in f {
        VisibleAsDrawn(f, items, g, portState);
      }
    }
    forall g | g in devices ensures IsNode(devices[g], g, drawn[g], portState) && FollowsLast(devices[g], f, items, g) {
      DescribedIs(lines, g);
      DeviceIsNode(f, items, g, portState, devices[g]);
    }
    ListOfNodes(drawn, devices, "SW", portState, o.topology.switches);
    ListOfNodes(drawn, devices, "CA", portState, o.topology.hcas);
    ListedAreDevices(devices, "SW", o.topology.switches);
    ListedAreDevices(devices, "CA", o.topology.hcas);
  }

  lemma ListedAreDevices(devices: map<string, Device>, kind: string, list: seq<Device>)
    requires Lists(devices, kind, list)
    ensures forall d | d in list :: d.guid in devices && devices[d.guid] == d
  {
    hide Less;
  }

  lemma DeviceIsNode(f: Fabric, items: seq<Item>, g: string, portState: bool, d: Device)
    requires Prints(f, items) && AllLegible(f, items) && g in f
    requires Visible(DrawnNode(f, items, g, portState), portState) && IsDeviceOf(Says(f, items, portState), g, d)
    ensures IsNode(d, g, DrawnNode(f, items, g, portState), portState) && FollowsLast(d, f, items, g)
  {
    hide ValidItem, Says, LinesOf, Identified, Linked, Unplugged, Named, Rated, Upstream, Visible, DrawnNode, NoParen,
      UplinksOf, IsNode, Legible, FollowsLast, FollowsALine;
    var lines, n := Says(f, items, portState), DrawnNode(f, items, g, portState);
    SaysLinesOf(f, items, g, portState);
    NameIsRead(f, items, g, portState, d);
    NodeUplinks(lines, g, n, portState, d);
    DeviceFollowsLast(f, items, g, portState, d);
    DeviceFollowsALine(f, items, g, portState, d);
    NodeIsRead(lines, g, n, portState, d);
  }

  lemma SaysLength(f: Fabric, items: seq<Item>, portState: bool)
    requires Prints(f, items)
    ensures forall i | 0 <= i < |items| :: ValidItem(f, items[i])
    ensures |Says(f, items, portState)| == |items|
  {
  }

  // ---------------------------------------------------------------- fabrics whose names are shown

  /** Every line shows the names of the fabric, padded in any way. */
  ghost predicate ShowsNames(f: Fabric, items: seq<Item>) {
    forall i | 0 <= i < |items| && items[i].PortLine? :: ShowsNamesOf(f, items[i])
  }

  predicate ShowsNamesOf(f: Fabric, item: Item)
    requires item.PortLine?
  {
    && item.guid in f && item.port in f[item.guid].ports && Trim(item.text) == f[item.guid].name
    && var port := f[item.guid].ports[item.port];
       (port.Cabled? ==> Trim(item.peerText) == port.peer.name)
  }

  lemma DrawnPortsAreThose(f: Fabric, items: seq<Item>, g: string, portState: bool)
    requires Prints(f, items) && ShowsNames(f, items) && g in f
    ensures DrawnNode(f, items, g, portState).ports == f[g].ports
  {
    hide ValidItem, Trim, TextShown, LineOf;
    forall p | p in f[g].ports ensures DrawnPort(f[g].ports[p], PeerTextShown(items, g, p)) == f[g].ports[p] {
      var i :| 0 <= i < |items| && IsLineOf(items[i], g, p);
      LineOfIs(f, items, i);
      assert ShowsNamesOf(f, items[i]);
    }
  }

  lemma NodeIsThat(f: Fabric, items: seq<Item>, g: string, portState: bool, d: Device)
    requires Prints(f, items) && ShowsNames(f, items) && g in f && Visible(f[g], portState)
    requires IsNode(d, g, DrawnNode(f, items, g, portState), portState)
    ensures IsNode(d, g, f[g], portState)
  {
    hide ValidItem, Trim, TextShown, DrawnPort, PeerTextShown, NoParen, OpenPorts, RatesOf;
    DrawnPortsAreThose(f, items, g, portState);
    var n := f[g];
    var drawn := DrawnNode(f, items, g, portState);
    assert UplinksOf(drawn) == UplinksOf(n)
      && OpenPorts(drawn) == OpenPorts(n) by { hide DrawnNode; SamePorts(drawn, n); }
    var text := TextShown(f, items, g, portState);
    if text.Some? {
      var i :| 0 <= i < |items| && ShowsName(f, items[i], g, portState) && text == Some(items[i].text);
      assert ShowsNamesOf(f, items[i]);
    } else {
      EmptyHasNoParen();
      NothingShown(f, items, g, portState);
    }
  }

  lemma SamePorts(a: Node, b: Node)
    requires a.ports == b.ports
    ensures UplinksOf(a) == UplinksOf(b) && OpenPorts(a) == OpenPorts(b)
  {
    hide RatesOf;
  }

  /** A node whose name no line shows has no link, and a parenthesis in its name. */
  lemma NothingShown(f: Fabric, items: seq<Item>, g: string, portState: bool)
    requires Prints(f, items) && ShowsNames(f, items) && g in f && Visible(f[g], portState)
    requires TextShown(f, items, g, portState).None?
    ensures !NoParen(f[g].name) && UplinksOf(f[g]) == map[]
  {
    hide ValidItem, Trim, TextShown, RatesOf, NoParen;
    forall p | p in f[g].ports ensures f[g].ports[p].Open? && (portState ==> !NoParen(f[g].name)) {
      var i :| 0 <= i < |items| && IsLineOf(items[i], g, p);
      assert !ShowsName(f, items[i], g, portState) && ShowsNamesOf(f, items[i]);
      TrimKeepsParens(items[i].text);
    }
  }

  /**
   * Topology round trip: any text that prints each port of a well-formed fabric on one line, in any order, with any
   * white space and any quiet lines in between, is rejected if one of its lines cannot be read. Otherwise it parses to
   * the nodes of that fabric: each switch and each HCA once, by increasing GUID, with its uplinks, down ports, name and
   * LID, and with the switch and the rates of the last of its lines that has one.
   */
  lemma FabricRoundTrip(f: Fabric, items: seq<Item>, out: string, portState: bool, o: Outcome)
    requires ValidFabric(f) && Prints(f, items) && ShowsNames(f, items) && Split(out, '\n') == PrintAll(f, items)
    requires IsOutcome(ParseDevices(out, portState), o)
    ensures if AllLegible(f, items) then ReadsAs(o, f, portState) && AllFollow(o, f, items) else o.Rejected?
  {
    hide Split, PrintAll, ValidFabric, Prints, ShowsNames, IsOutcome, ListsNodes, Drawn, AllLegible, AllFollow;
    SaysLength(f, items, portState);
    DrawingRoundTrip(f, items, out, portState, o);
    if AllLegible(f, items) {
      ListsThose(f, items, "SW", portState, o.topology.switches);
      ListsThose(f, items, "CA", portState, o.topology.hcas);
    }
  }

  lemma ListsThose(f: Fabric, items: seq<Item>, kind: string, portState: bool, list: seq<Device>)
    requires Prints(f, items) && ShowsNames(f, items)
    requires ListsNodes(Drawn(f, items, portState), kind, portState, list)
    ensures ListsNodes(f, kind, portState, list)
  {
    hide Prints, ShowsNames, IsNode, Visible, DrawnNode, Less;
    var drawn := Drawn(f, items, portState);
    forall g | g in f
      ensures (Visible(drawn[g], portState) <==> Visible(f[g], portState)) && drawn[g].kind == f[g].kind
    {
      VisibleAsDrawn(f, items, g, portState);
      KindAsDrawn(f, items, g, portState);
    }
    forall i | 0 <= i < |list| ensures IsNode(list[i], list[i].guid, f[list[i].guid], portState) {
      NodeIsThat(f, items, list[i].guid, portState, list[i]);
    }
  }

  lemma KindAsDrawn(f: Fabric, items: seq<Item>, g: string, portState: bool)
    requires g in f
    ensures DrawnNode(f, items, g, portState).kind == f[g].kind
  {
  }
}
