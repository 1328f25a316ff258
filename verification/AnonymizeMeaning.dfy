/** Anonymising the drawing of a fabric, and what is left of its meaning. */
module AnonymizeMeaning {
  import opened Wrappers
  import opened Text
  import opened Order
  import opened Ibnetdiscover
  import opened TopologyLines
  import opened TopologyRoundTrip
  import opened Anonymize
  import opened AnonymizeGuids
  import opened AnonymizeNames
  import opened AnonymizeFabric
  import opened AnonymizeLines
  import opened AnonymizeHarvest
  import opened AnonymizeText

  // ---------------------------------------------------------------- one run of the script

  /** The tables of one run of the script, and the orders in which it goes through them. */
  datatype Script = Script(guids: map<string, string>, guidOrder: seq<string>,
                           names: Harvest, swOrder: seq<string>, hcaOrder: seq<string>)

  /** A run on this text: its GUIDs are numbered, and the names harvested once they have been replaced. */
  ghost predicate RunsOn(s: Script, text: string) {
    && NumbersGuids(s.guids) && (forall g :: g in s.guids <==> g in Guids(text))
    && IsOrder(s.guidOrder, s.guids)
    && (forall i | 0 <= i < |s.guidOrder| :: s.guidOrder[i] in s.guids && s.guidOrder[i] != "")
    && s.names == HarvestLines(ReadLines(InTurn(text, s.guidOrder, s.guids)))
    && IsOrder(s.swOrder, s.names.sw) && (forall i | 0 <= i < |s.swOrder| :: s.swOrder[i] in s.names.sw)
    && IsOrder(s.hcaOrder, s.names.hca) && (forall i | 0 <= i < |s.hcaOrder| :: s.hcaOrder[i] in s.names.hca)
  }

  ghost function Output(s: Script, text: string): string
    requires RunsOn(s, text)
  {
    Anonymized(text, s.guids, s.guidOrder, s.names.sw, s.swOrder, s.names.hca, s.hcaOrder)
  }

  lemma {:induction false} NumberingExists(guids: seq<string>) returns (m: map<string, string>, n: nat)
    requires |guids| < Pow16(16) && forall i | 0 <= i < |guids| :: IsGuid(guids[i])
    ensures NumbersGuids(m) && (forall g :: g in m <==> g in guids)
    ensures n <= |guids| && forall g <- m :: exists k | 1 <= k <= n :: m[g] == NumberedGuid(k)
  {
    hide IsGuid, Pow16, NumberedGuid;
    if guids == [] {
      m, n := map[], 0;
    } else {
      var last := guids[|guids| - 1];
      m, n := NumberingExists(guids[..|guids| - 1]);
      if last !in m {
        n := n + 1;
        NumberIsNew(m, n);
        m := m[last := NumberedGuid(n)];
      }
    }
  }

  lemma OrderExists(m: map<string, string>) returns (order: seq<string>)
    ensures IsOrder(order, m) && forall i | 0 <= i < |order| :: order[i] in m
  {
    order := [];
    var todo := m.Keys;
    while todo != {}
      invariant todo <= m.Keys
      invariant forall i | 0 <= i < |order| :: order[i] in m && order[i] !in todo
      invariant forall i, j | 0 <= i < j < |order| :: order[i] != order[j]
      invariant forall g | g in m :: g in todo || g in order
    {
      var g :| g in todo;
      todo := todo - {g};
      order := order + [g];
    }
  }

  lemma OrderedGuids(order: seq<string>, m: map<string, string>)
    requires IsOrder(order, m) && NumbersGuids(m)
    ensures forall i | 0 <= i < |order| :: order[i] in m && order[i] != ""
  {
    assert forall i | 0 <= i < |order| :: order[i] in order;
  }

  /** The script runs on every text with fewer GUIDs than there are numbers. */
  lemma ScriptExists(text: string) returns (s: Script)
    requires |Guids(text)| < Pow16(16)
    ensures RunsOn(s, text)
  {
    hide Guids, IsOrder, NumbersGuids, HarvestLines, ReadLines, InTurn, Pow16;
    var m, n := NumberingExists(Guids(text));
    var order := OrderExists(m);
    OrderedGuids(order, m);
    var h := HarvestLines(ReadLines(InTurn(text, order, m)));
    var sw := OrderExists(h.sw);
    var hca := OrderExists(h.hca);
    s := Script(m, order, h, sw, hca);
  }

  // ---------------------------------------------------------------- its output draws the renamed fabric

  lemma PortHasGuid(f: Fabric, items: seq<Item>, g: string, m: map<string, string>)
    requires PlainDrawing(f, items) && g in f
    ensures exists i | 0 <= i < |items| :: g in Guids(PrintAll(f, items)[i])
  {
    hide Guids, ValidFabric, PlainNode, ValidItem, PlainItem, PrintItem;
    var p :| p in f[g].ports;
    var i :| 0 <= i < |items| && IsLineOf(items[i], g, p);
    SelfRenaming(f);
    ItemHasGuids(f, items[i], map[]);
    assert g in Guids(PrintAll(f, items)[i]);
  }

  lemma SelfRenaming(f: Fabric)
    ensures Injective(f, map[]) && GuidsToGuids(map[])
  {
  }

  /** The GUIDs of a drawn fabric are numbered, so no two nodes get the same number. */
  lemma NodesStayApart(f: Fabric, items: seq<Item>, text: string, m: map<string, string>)
    requires PlainDrawing(f, items) && Split(text, '\n') == PrintAll(f, items)
    requires NumbersGuids(m) && forall g <- Guids(text) :: g in m
    ensures Injective(f, m) && GuidsToGuids(m)
  {
    hide PlainFabric, Prints, ValidItem, PlainItem, Guids, Split, Join, PrintItem;
    JoinSplit(text, '\n');
    assert |PrintAll(f, items)| > 0;
    GuidsOfLines(PrintAll(f, items));
    forall g | g in f ensures g in m {
      PortHasGuid(f, items, g, m);
    }
  }

  lemma PaddingIsSpace(l: string, t: string, r: string)
    requires Blank(l) && Blank(r)
    ensures
      var x := l + t + r;
      && (l != "" ==> IsSpace(x[0]))
      && (r != "" ==> IsSpace(x[|l| + |t|]))
  {
    var x := l + t + r;
    assert l != "" ==> x[0] == l[0];
    assert r != "" ==> x[|l| + |t|] == r[0];
  }

  lemma PaddedPrefix(l: string, t: string, r: string, p: string)
    requires Blank(l) && Blank(r) && NoSpace(p) && p != "" && HasPrefix(l + t + r, p)
    ensures HasPrefix(t, p)
  {
    hide IsSpace;
    var x := l + t + r;
    PaddingIsSpace(l, t, r);
    assert forall i | 0 <= i < |p| :: x[i] == p[i];
    assert l == "" && x == t + r;
    assert |p| <= |t|;
    assert x[..|p|] == t[..|p|];
  }

  lemma PaddedForeign(x: string)
    requires Foreign(Trim(x))
    ensures Foreign(x)
  {
    hide Trim, HasPrefix;
    var l, r := TrimParts(x);
    if HasPrefix(x, "sw-") {
      PaddedPrefix(l, Trim(x), r, "sw-");
    }
    if HasPrefix(x, "hca-") {
      PaddedPrefix(l, Trim(x), r, "hca-");
    }
  }

  lemma PartKeepsOut(a: string, b: string, c: string, x: char)
    requires x !in a + b + c
    ensures x !in b
  {
    forall i | 0 <= i < |b| ensures b[i] != x {
      assert (a + b + c)[|a| + i] == b[i];
    }
  }

  /** What a line gives is a plain text of one line. */
  lemma GivenIsPlain(f: Fabric, item: Item, x: string)
    requires ValidItem(f, item) && PlainItem(f, item) && GivesText(f, item, x) && '\n' !in PrintItem(f, item)
    ensures PlainText(x) && NoQuote(x) && '\n' !in x
  {
    hide Spread, PlainText, PlainWord, Fields, Trim, Blank, Bare;
    var n := f[item.guid];
    var head := Spread(CableWords(item.guid, n, item.port, item.layout.dash), item.layout.gaps);
    var a, b := item.text, item.peerText;
    var line := PrintItem(f, item);
    assert line == (head + "( '") + a + ("' - '" + b + "' )" + item.layout.tail);
    PartKeepsOut(head + "( '", a, "' - '" + b + "' )" + item.layout.tail, '\n');
    assert line == (head + "( '" + a + "' - '") + b + ("' )" + item.layout.tail);
    PartKeepsOut(head + "( '" + a + "' - '", b, "' )" + item.layout.tail, '\n');
  }

  lemma HarvestedIsPlain(f: Fabric, items: seq<Item>, text: string, x: string)
    requires PlainDrawing(f, items) && Split(text, '\n') == PrintAll(f, items) && HarvestedFrom(f, items, x)
    ensures Foreign(x) && PlainText(x) && x != " - " && '\n' !in x
  {
    hide PlainFabric, Prints, ValidItem, PlainItem, GivesText, PrintItem, Split, Bare, NoParen, Foreign, Trim;
    JoinSplit(text, '\n');
    var i :| 0 <= i < |items| - 1 && ValidItem(f, items[i]) && GivesText(f, items[i], x);
    assert '\n' !in PrintAll(f, items)[i];
    GivenIsPlain(f, items[i], x);
    PaddedForeign(x);
  }

  lemma ShortLines(f: Fabric, items: seq<Item>, m: map<string, string>)
    requires PlainDrawing(f, items)
    ensures ShortLinesArePlain(RenameItems(items, m, map[]))
  {
    hide PlainFabric, Prints, ValidItem, Bare, GuidsOrBare, PlainText, NoQuote;
    assert forall i | 0 <= i < |items| :: PlainItem(f, items[i]);
  }

  /** The two stages of the script, on the drawing. */
  lemma OutputDraws(f: Fabric, items: seq<Item>, text: string, s: Script)
    requires PlainDrawing(f, items) && Split(text, '\n') == PrintAll(f, items) && RunsOn(s, text) && NoChain(s.guids)
    ensures Injective(f, s.guids)
    ensures forall x :: x in Renaming(s.names) <==> HarvestedFrom(f, items, x)
    ensures Harvested(s.names) && NamesTexts(Renaming(s.names))
    ensures OneToOne(Renaming(s.names))
    ensures
      var r, after := RenameFabric(f, s.guids, map[]), RenameItems(items, s.guids, Renaming(s.names));
      ValidFabric(r) && Prints(r, after) && Split(Output(s, text), '\n') == PrintAll(r, after)
  {
    hide PlainDrawing, PrintAll, Prints, Split, NumbersGuids, NoChain, Guids, IsOrder, InTurn, HarvestLines,
      Injective, RenameFabric, NoCollision, Separated, Wide, Harvested, RenameGuids, RenameNames, NamesInTurn,
      RenameItems, GuidsToGuids, ValidFabric, NamesTexts, HarvestedFrom, ReadLines, ShortLinesArePlain, Renaming,
      Foreign, Apart;
    var m, h := s.guids, s.names;
    PrintsOf(f, items);
    NodesStayApart(f, items, text, m);
    DrawingHasGuids(f, items, text, m);
    InTurnIsSimultaneous(text, s.guidOrder, m);
    var mid := RenameGuids(text, m);
    var r, drawn := RenameFabric(f, m, map[]), RenameItems(items, m, map[]);
    forall x ensures x in Renaming(h) <==> HarvestedFrom(f, items, x) {
      HarvestOfDrawing(f, items, m, mid, x);
    }
    LinesHarvested(ReadLines(mid));
    SourcesArePlain(f, items, text, h);
    ForeignNamesDoNotCollide(h);
    ShortLines(f, items, m);
    DrawingHasTexts(r, drawn, mid, Renaming(h));
    RenamedTwice(items, m, Renaming(h));
    PrintsRenamed(f, items, m, Renaming(h));
    WideIsApart(mid, h.sw.Keys + h.hca.Keys);
    NamesAreSimultaneous(mid, h.sw, s.swOrder, h.hca, s.hcaOrder);
    BothTables(h);
  }

  lemma BothTables(h: Harvest)
    ensures Renaming(h) == h.hca + h.sw
  {
  }

  lemma PrintsOf(f: Fabric, items: seq<Item>)
    requires PlainDrawing(f, items)
    ensures Prints(f, items) && forall i | 0 <= i < |items| :: ValidItem(f, items[i])
  {
  }

  lemma SourcesArePlain(f: Fabric, items: seq<Item>, text: string, h: Harvest)
    requires PlainDrawing(f, items) && Split(text, '\n') == PrintAll(f, items)
    requires forall x :: x in Renaming(h) <==> HarvestedFrom(f, items, x)
    ensures forall x <- h.sw.Keys + h.hca.Keys :: Foreign(x) && x != " - " && '\n' !in x
  {
    hide PlainDrawing, PrintAll, Split, HarvestedFrom, Foreign, PlainText;
    forall x | x in h.sw.Keys + h.hca.Keys ensures Foreign(x) && x != " - " && '\n' !in x {
      assert x in Renaming(h);
      HarvestedIsPlain(f, items, text, x);
    }
  }

  lemma ItemLegibleAfter(f: Fabric, item: Item, m: map<string, string>, texts: map<string, string>)
    requires Injective(f, m) && NamesTexts(texts) && ValidItem(f, item) && PlainItem(f, item)
    requires ValidItem(RenameFabric(f, m, map[]), RenameItem(item, m, texts))
    ensures Legible(RenameFabric(f, m, map[]), RenameItem(item, m, texts)) <==> Legible(f, item)
  {
    hide ValidLayout, Fields, PlainWord, Trim, NoQuote, NoParen, ParseRate, PlainName, Bare, Foreign, Renamed,
      RenameFabric;
    if item.PortLine? {
      ItemIsPlain(f, item);
      TextStaysPlain(texts, item.text);
      NodeOfRenamed(f, m, item.guid);
    }
  }

  /** Whether the lines can be read does not change. */
  lemma LegibleAfter(f: Fabric, items: seq<Item>, m: map<string, string>, texts: map<string, string>)
    requires PlainDrawing(f, items) && Injective(f, m) && NamesTexts(texts)
    requires Prints(RenameFabric(f, m, map[]), RenameItems(items, m, texts))
    ensures forall i | 0 <= i < |items| :: ValidItem(f, items[i])
    ensures forall i | 0 <= i < |items| :: ValidItem(RenameFabric(f, m, map[]), RenameItems(items, m, texts)[i])
    ensures AllLegible(RenameFabric(f, m, map[]), RenameItems(items, m, texts)) <==> AllLegible(f, items)
  {
    hide ValidItem, PlainItem, Legible, Injective, NamesTexts, RenameFabric, RenameItem, PlainFabric;
    forall i | 0 <= i < |items|
      ensures Legible(RenameFabric(f, m, map[]), RenameItems(items, m, texts)[i]) <==> Legible(f, items[i])
    {
      assert ValidItem(RenameFabric(f, m, map[]), RenameItems(items, m, texts)[i]);
      ItemLegibleAfter(f, items[i], m, texts);
    }
  }

  /**
   * What the anonymised dump says: for any drawing of a fabric, whatever the orders of the substitutions, the
   * parser reads the drawing with its GUIDs and quoted texts renamed, no two nodes taking one GUID and no two texts
   * one name. The texts that are renamed are exactly those of the connected, terminated lines of switches and HCAs.
   */
  lemma AnonymisedDrawing(f: Fabric, items: seq<Item>, text: string, s: Script, portState: bool, o: Outcome)
    requires PlainDrawing(f, items) && Split(text, '\n') == PrintAll(f, items) && RunsOn(s, text) && NoChain(s.guids)
    requires IsOutcome(ParseDevices(Output(s, text), portState), o)
    ensures Injective(f, s.guids)
    ensures
      var r, after := RenameFabric(f, s.guids, map[]), RenameItems(items, s.guids, Renaming(s.names));
      if AllLegible(f, items) then ReadsAs(o, Drawn(r, after, portState), portState) && AllFollow(o, r, after)
      else o.Rejected?
    ensures forall x :: x in Renaming(s.names) <==> HarvestedFrom(f, items, x)
    ensures OneToOne(Renaming(s.names))
  {
    hide PlainDrawing, PrintAll, Prints, Split, RunsOn, Output, Injective, RenameFabric, RenameItems, ValidFabric,
      NamesTexts, HarvestedFrom, Renaming, Drawn, ReadsAs, IsOutcome, Harvested, AllLegible, AllFollow;
    OutputDraws(f, items, text, s);
    LegibleAfter(f, items, s.guids, Renaming(s.names));
    DrawingRoundTrip(RenameFabric(f, s.guids, map[]), RenameItems(items, s.guids, Renaming(s.names)), Output(s, text),
      portState, o);
  }

  // ---------------------------------------------------------------- is it the renamed fabric?

  /** The node is in one of the two lists. */
  ghost predicate Listed(n: Node, portState: bool) {
    (n.kind == "SW" || n.kind == "CA") && Visible(n, portState)
  }

  /** The result shows this text of the drawing: as the name of this device, or of one of its uplinks. */
  ghost predicate ShownBy(f: Fabric, items: seq<Item>, portState: bool, g: string, x: string) {
    && g in f && Listed(f[g], portState)
    && (TextShown(f, items, g, portState) == Some(x)
        || exists p | p in f[g].ports && f[g].ports[p].Cabled? :: PeerTextShown(items, g, p) == x)
  }

  ghost predicate Shown(f: Fabric, items: seq<Item>, portState: bool, x: string) {
    exists g :: ShownBy(f, items, portState, g, x)
  }

  /** No harvested name is shown with two paddings. */
  ghost predicate OnePadding(f: Fabric, items: seq<Item>, portState: bool, texts: map<string, string>) {
    forall x, y | Shown(f, items, portState, x) && Shown(f, items, portState, y) && x in texts && Trim(x) == Trim(y) ::
      x == y
  }

  /** The renaming of the names: that of the texts that show them. */
  ghost function ByName(f: Fabric, items: seq<Item>, portState: bool, texts: map<string, string>): map<string, string>
    requires OnePadding(f, items, portState, texts)
  {
    map x | x in texts && Shown(f, items, portState, x) :: Trim(x) := texts[x]
  }

  /** The names of the drawing as they are after the script. */
  ghost predicate Renames(names: map<string, string>, texts: map<string, string>, x: string) {
    Renamed(names, Trim(x)) == Trim(Renamed(texts, x))
  }

  /** A drawing the script can be used on, and a renaming of its texts such as the script makes. */
  ghost predicate Setting(f: Fabric, items: seq<Item>, m: map<string, string>, texts: map<string, string>) {
    && PlainDrawing(f, items) && ShowsNames(f, items) && Injective(f, m) && NamesTexts(texts)
    && Prints(RenameFabric(f, m, map[]), RenameItems(items, m, texts))
    && (forall x <- texts :: !Foreign(texts[x]))
    && OneToOne(texts)
  }

  // ---------------------------------------------------------------- what is shown, before and after

  lemma ItemIsPlain(f: Fabric, item: Item)
    requires ValidItem(f, item) && PlainItem(f, item) && item.PortLine?
    ensures item.guid in f && item.port in f[item.guid].ports && PlainText(item.text)
    ensures f[item.guid].ports[item.port].Cabled? ==> PlainText(item.peerText)
  {
    hide PlainText, ValidLayout, Trim, NoQuote;
  }

  lemma ShowsSameName(f: Fabric, item: Item, m: map<string, string>, texts: map<string, string>, g: string,
    portState: bool)
    requires ValidItem(f, item) && PlainItem(f, item) && Injective(f, m) && NamesTexts(texts) && g in f
    ensures
      var r, after := RenameFabric(f, m, map[]), RenameItem(item, m, texts);
      && (ShowsName(r, after, Renamed(m, g), portState) <==> ShowsName(f, item, g, portState))
      && (ShowsName(f, item, g, portState) ==> after.text == Renamed(texts, item.text))
  {
    hide ValidItem, PlainItem, NoParen, NoQuote, Trim, PlainName, Bare, Foreign, RenameFabric, Renamed, RenameNode;
    if item.PortLine? {
      ItemIsPlain(f, item);
      TextStaysPlain(texts, item.text);
      NodeOfRenamed(f, m, item.guid);
      assert item.guid == g <==> Renamed(m, item.guid) == Renamed(m, g);
    }
  }

  lemma TextStaysPlain(texts: map<string, string>, x: string)
    requires NamesTexts(texts) && NoParen(x)
    ensures NoParen(Renamed(texts, x))
  {
    hide NoParen;
  }

  lemma NodeOfRenamed(f: Fabric, m: map<string, string>, g: string)
    requires Injective(f, m) && g in f
    ensures
      var r := RenameFabric(f, m, map[]);
      && Renamed(m, g) in r && r[Renamed(m, g)].kind == f[g].kind && r[Renamed(m, g)].lid == f[g].lid
      && r[Renamed(m, g)].ports.Keys == f[g].ports.Keys
      && forall p <- f[g].ports :: r[Renamed(m, g)].ports[p] == RenamePort(f[g].ports[p], m, map[])
  {
    hide Renamed, RenamePort;
  }

  lemma {:induction false} TextShownAfter(f: Fabric, items: seq<Item>, m: map<string, string>,
    texts: map<string, string>, g: string, portState: bool)
    requires Injective(f, m) && NamesTexts(texts) && g in f
    requires forall i | 0 <= i < |items| :: ValidItem(f, items[i]) && PlainItem(f, items[i])
    ensures
      var x := TextShown(f, items, g, portState);
      TextShown(RenameFabric(f, m, map[]), RenameItems(items, m, texts), Renamed(m, g), portState)
        == if x.None? then None else Some(Renamed(texts, x.value))
    decreases |items|
  {
    hide ValidItem, PlainItem, RenameFabric, RenameItem, RenameItems, ShowsName, Injective, NamesTexts, Renamed;
    RenamedItemsAre(items, m, texts);
    if items != [] {
      var n := |items| - 1;
      TextShownAfter(f, items[..n], m, texts, g, portState);
      ShowsSameName(f, items[n], m, texts, g, portState);
      ShowingLine(f, items[n], g, portState);
      ShowingLine(RenameFabric(f, m, map[]), RenameItem(items[n], m, texts), Renamed(m, g), portState);
    }
  }

  lemma RenamedItemsAre(items: seq<Item>, m: map<string, string>, texts: map<string, string>)
    ensures
      var after := RenameItems(items, m, texts);
      && (forall i | 0 <= i < |items| :: after[i] == RenameItem(items[i], m, texts))
      && (items != [] ==> after[..|items| - 1] == RenameItems(items[..|items| - 1], m, texts))
  {
    hide RenameItem;
  }

  lemma ShowingLine(f: Fabric, item: Item, g: string, portState: bool)
    ensures ShowsName(f, item, g, portState) ==> item.PortLine? && item.guid == g
  {
  }

  lemma PeerTextAfter(f: Fabric, items: seq<Item>, m: map<string, string>, texts: map<string, string>, g: string,
    p: string)
    requires Setting(f, items, m, texts) && g in f && p in f[g].ports
    ensures LineOf(items, g, p).Some?
    ensures PeerTextShown(RenameItems(items, m, texts), Renamed(m, g), p) == Renamed(texts, PeerTextShown(items, g, p))
  {
    hide PlainFabric, ValidItem, PlainItem, ShowsNames, RenameFabric, LineOf, NamesTexts, Foreign;
    var i :| 0 <= i < |items| && IsLineOf(items[i], g, p);
    LineOfIs(f, items, i);
    LineOfIs(RenameFabric(f, m, map[]), RenameItems(items, m, texts), i);
  }

  /** What is shown of a node after the script. */
  lemma DrawnAfter(f: Fabric, items: seq<Item>, m: map<string, string>, texts: map<string, string>, g: string,
    portState: bool)
    requires Setting(f, items, m, texts) && g in f
    ensures
      var x := TextShown(f, items, g, portState);
      var n := DrawnNode(RenameFabric(f, m, map[]), RenameItems(items, m, texts), Renamed(m, g), portState);
      && n.kind == f[g].kind && n.lid == f[g].lid && n.ports.Keys == f[g].ports.Keys
      && n.name == (if x.None? then "" else Trim(Renamed(texts, x.value)))
      && forall p <- f[g].ports ::
           n.ports[p] == DrawnPort(RenamePort(f[g].ports[p], m, map[]), Renamed(texts, PeerTextShown(items, g, p)))
  {
    hide ValidItem, PlainItem, RenameFabric, TextShown, PeerTextShown, Trim, DrawnPort, RenamePort, Renamed, Setting;
    SettingItems(f, items, m, texts);
    TextShownAfter(f, items, m, texts, g, portState);
    NodeOfRenamed(f, m, g);
    forall p | p in f[g].ports
      ensures PeerTextShown(RenameItems(items, m, texts), Renamed(m, g), p)
        == Renamed(texts, PeerTextShown(items, g, p))
    {
      PeerTextAfter(f, items, m, texts, g, p);
    }
  }

  lemma SettingItems(f: Fabric, items: seq<Item>, m: map<string, string>, texts: map<string, string>)
    requires Setting(f, items, m, texts)
    ensures Injective(f, m) && NamesTexts(texts) && Prints(f, items) && ShowsNames(f, items)
    ensures forall i | 0 <= i < |items| :: ValidItem(f, items[i]) && PlainItem(f, items[i])
  {
  }

  /** The texts shown of a node are plain, and tell the names of the fabric. */
  lemma ShownOfNode(f: Fabric, items: seq<Item>, m: map<string, string>, texts: map<string, string>, g: string,
    portState: bool)
    requires Setting(f, items, m, texts) && g in f && Visible(f[g], portState)
    ensures
      var x := TextShown(f, items, g, portState);
      x.Some? && PlainText(x.value) && Trim(x.value) == f[g].name
  {
    hide ValidItem, PlainItem, RenameFabric, Trim, PlainText, Setting, TextShown, ShowsNamesOf;
    SettingItems(f, items, m, texts);
    SomeLineShows(f, items, m, texts, g, portState);
    var x := TextShown(f, items, g, portState);
    var i :| 0 <= i < |items| && ShowsName(f, items[i], g, portState) && x == Some(items[i].text);
    ItemIsPlain(f, items[i]);
    ShowsIts(f, items, i);
  }

  lemma ShowsIts(f: Fabric, items: seq<Item>, i: nat)
    requires ShowsNames(f, items) && i < |items| && items[i].PortLine?
    ensures items[i].guid in f && Trim(items[i].text) == f[items[i].guid].name
  {
    hide Trim;
    assert ShowsNamesOf(f, items[i]);
  }

  lemma SomeLineShows(f: Fabric, items: seq<Item>, m: map<string, string>, texts: map<string, string>, g: string,
    portState: bool)
    requires Setting(f, items, m, texts) && g in f && Visible(f[g], portState)
    ensures exists j | 0 <= j < |items| :: ShowsName(f, items[j], g, portState)
  {
    hide ValidItem, PlainItem, RenameFabric, Trim, PlainText, Setting, ShowsNames;
    SettingItems(f, items, m, texts);
    var p :| p in f[g].ports && (portState || Wired(f[g].ports[p]));
    var j :| 0 <= j < |items| && IsLineOf(items[j], g, p);
    ItemIsPlain(f, items[j]);
    PlainHasNoParen(items[j].text);
    assert ShowsName(f, items[j], g, portState);
  }

  lemma PlainHasNoParen(x: string)
    requires PlainText(x)
    ensures NoParen(x)
  {
  }

  lemma ShownOfPeer(f: Fabric, items: seq<Item>, m: map<string, string>, texts: map<string, string>, g: string,
    p: string)
    requires Setting(f, items, m, texts) && g in f && p in f[g].ports && f[g].ports[p].Cabled?
    ensures
      var x := PeerTextShown(items, g, p);
      PlainText(x) && Trim(x) == f[g].ports[p].peer.name
  {
    hide ValidItem, PlainItem, RenameFabric, Trim, PlainText, Setting, LineOf;
    SettingItems(f, items, m, texts);
    var i :| 0 <= i < |items| && IsLineOf(items[i], g, p);
    LineOfIs(f, items, i);
    ItemIsPlain(f, items[i]);
    assert ShowsNamesOf(f, items[i]);
  }

  lemma ShownIsPlain(f: Fabric, items: seq<Item>, m: map<string, string>, texts: map<string, string>, portState: bool,
    x: string)
    requires Setting(f, items, m, texts) && Shown(f, items, portState, x)
    ensures PlainText(x)
  {
    hide Setting, PlainText, TextShown, PeerTextShown, Visible;
    var g :| ShownBy(f, items, portState, g, x);
    ShownOfNode(f, items, m, texts, g, portState);
    if TextShown(f, items, g, portState) != Some(x) {
      var p :| p in f[g].ports && f[g].ports[p].Cabled? && PeerTextShown(items, g, p) == x;
      ShownOfPeer(f, items, m, texts, g, p);
    }
  }

  // ---------------------------------------------------------------- if every shown text is renamed by its name

  lemma PortIsRenamed(f: Fabric, items: seq<Item>, m: map<string, string>, texts: map<string, string>, g: string,
    p: string, names: map<string, string>)
    requires Setting(f, items, m, texts) && g in f && p in f[g].ports
    requires f[g].ports[p].Cabled? ==> Renames(names, texts, PeerTextShown(items, g, p))
    ensures DrawnPort(RenamePort(f[g].ports[p], m, map[]), Renamed(texts, PeerTextShown(items, g, p)))
      == RenamePort(f[g].ports[p], m, names)
  {
    hide Setting, Trim, PeerTextShown, Renamed, PlainText;
    if f[g].ports[p].Cabled? {
      ShownOfPeer(f, items, m, texts, g, p);
    }
  }

  lemma NodeIsRenamed(f: Fabric, items: seq<Item>, m: map<string, string>, texts: map<string, string>, g: string,
    portState: bool, names: map<string, string>)
    requires Setting(f, items, m, texts) && g in f && Listed(f[g], portState)
    requires forall x | ShownBy(f, items, portState, g, x) :: Renames(names, texts, x)
    ensures DrawnNode(RenameFabric(f, m, map[]), RenameItems(items, m, texts), Renamed(m, g), portState)
      == RenameNode(f[g], m, names)
  {
    hide Setting, Trim, PeerTextShown, TextShown, DrawnNode, RenameFabric, DrawnPort, RenamePort, PlainText, Visible,
      Renamed;
    DrawnAfter(f, items, m, texts, g, portState);
    ShownOfNode(f, items, m, texts, g, portState);
    assert ShownBy(f, items, portState, g, TextShown(f, items, g, portState).value);
    forall p | p in f[g].ports
      ensures DrawnPort(RenamePort(f[g].ports[p], m, map[]), Renamed(texts, PeerTextShown(items, g, p)))
        == RenamePort(f[g].ports[p], m, names)
    {
      if f[g].ports[p].Cabled? {
        assert ShownBy(f, items, portState, g, PeerTextShown(items, g, p));
      }
      PortIsRenamed(f, items, m, texts, g, p, names);
    }
  }

  /** Two fabrics with the same nodes of a kind have the same list of that kind. */
  lemma SameListed(a: Fabric, b: Fabric, kind: string, portState: bool, list: seq<Device>)
    requires a.Keys == b.Keys && ListsNodes(a, kind, portState, list)
    requires forall g <- a :: a[g].kind == b[g].kind && (Visible(a[g], portState) <==> Visible(b[g], portState))
    requires forall g <- a | a[g].kind == kind && Visible(a[g], portState) :: a[g] == b[g]
    ensures ListsNodes(b, kind, portState, list)
  {
    hide IsNode, Visible, Less;
  }

  lemma VisibleAfter(f: Fabric, m: map<string, string>, names: map<string, string>, g: string, portState: bool)
    requires g in f
    ensures Visible(RenameNode(f[g], m, names), portState) <==> Visible(f[g], portState)
  {
    hide Renamed;
    var n := RenameNode(f[g], m, names);
    assert forall p :: p in n.ports <==> p in f[g].ports;
    assert forall p <- n.ports :: Wired(n.ports[p]) <==> Wired(f[g].ports[p]);
  }

  lemma RenamedNodes(f: Fabric, items: seq<Item>, m: map<string, string>, texts: map<string, string>, portState: bool,
    names: map<string, string>)
    requires Setting(f, items, m, texts)
    requires forall x | Shown(f, items, portState, x) :: Renames(names, texts, x)
    ensures
      var a, b := Drawn(RenameFabric(f, m, map[]), RenameItems(items, m, texts), portState), RenameFabric(f, m, names);
      && a.Keys == b.Keys
      && (forall g <- a :: a[g].kind == b[g].kind && (Visible(a[g], portState) <==> Visible(b[g], portState)))
      && (forall g <- a | Listed(a[g], portState) :: a[g] == b[g])
  {
    hide Setting, DrawnNode, RenameNode, Visible, Renames, ShownBy;
    SettingItems(f, items, m, texts);
    var r, after := RenameFabric(f, m, map[]), RenameItems(items, m, texts);
    var a, b := Drawn(r, after, portState), RenameFabric(f, m, names);
    forall h | h in a
      ensures a[h].kind == b[h].kind && (Visible(a[h], portState) <==> Visible(b[h], portState))
      ensures Listed(a[h], portState) ==> a[h] == b[h]
    {
      var g :| g in f && Renamed(m, g) == h;
      VisibleAsDrawn(r, after, h, portState);
      VisibleAfter(f, m, map[], g, portState);
      VisibleAfter(f, m, names, g, portState);
      KindAfter(f, items, m, texts, g, portState, names);
      if Listed(a[h], portState) {
        forall x | ShownBy(f, items, portState, g, x) ensures Renames(names, texts, x) {
          assert Shown(f, items, portState, x);
        }
        NodeIsRenamed(f, items, m, texts, g, portState, names);
      }
    }
  }

  lemma KindAfter(f: Fabric, items: seq<Item>, m: map<string, string>, texts: map<string, string>, g: string,
    portState: bool, names: map<string, string>)
    requires Setting(f, items, m, texts) && g in f
    ensures Renamed(m, g) in RenameFabric(f, m, map[])
    ensures DrawnNode(RenameFabric(f, m, map[]), RenameItems(items, m, texts), Renamed(m, g), portState).kind
      == f[g].kind
    ensures RenameNode(f[g], m, names).kind == f[g].kind
  {
    hide Setting;
    SettingItems(f, items, m, texts);
    DrawnAfter(f, items, m, texts, g, portState);
  }

  lemma ReadsAsRenamed(f: Fabric, items: seq<Item>, m: map<string, string>, texts: map<string, string>,
    portState: bool, names: map<string, string>, o: Outcome)
    requires Setting(f, items, m, texts)
    requires forall x | Shown(f, items, portState, x) :: Renames(names, texts, x)
    requires ReadsAs(o, Drawn(RenameFabric(f, m, map[]), RenameItems(items, m, texts), portState), portState)
    ensures ReadsAs(o, RenameFabric(f, m, names), portState)
  {
    hide Setting, Drawn, RenameFabric, RenameItems, Visible, Shown, Renames, ListsNodes;
    SettingItems(f, items, m, texts);
    RenamedNodes(f, items, m, texts, portState, names);
    var a, b := Drawn(RenameFabric(f, m, map[]), RenameItems(items, m, texts), portState), RenameFabric(f, m, names);
    SameListed(a, b, "SW", portState, o.topology.switches);
    SameListed(a, b, "CA", portState, o.topology.hcas);
  }

  lemma ByNameRenames(f: Fabric, items: seq<Item>, m: map<string, string>, texts: map<string, string>,
    portState: bool, x: string)
    requires Setting(f, items, m, texts) && OnePadding(f, items, portState, texts) && Shown(f, items, portState, x)
    ensures Renames(ByName(f, items, portState, texts), texts, x)
  {
    hide Shown, Trim, PlainDrawing, ShowsNames, Injective, Prints, Foreign, PlainName;
    if x in texts {
      NameIsTrimmed(texts[x]);
      assert Trim(x) in ByName(f, items, portState, texts);
    }
  }

  // ---------------------------------------------------------------- if the result is a renamed fabric

  lemma ListedDevice(a: Fabric, b: Fabric, o: Outcome, portState: bool, h: string) returns (d: Device)
    requires ReadsAs(o, a, portState) && ReadsAs(o, b, portState) && h in a && Listed(a[h], portState)
    ensures h in b && IsNode(d, h, a[h], portState) && IsNode(d, h, b[h], portState)
  {
    hide IsNode, Visible, Less;
    var list := if a[h].kind == "SW" then o.topology.switches else o.topology.hcas;
    var i :| 0 <= i < |list| && list[i].guid == h;
    d := list[i];
  }

  lemma SameNames(d: Device, h: string, a: Node, b: Node, portState: bool)
    requires IsNode(d, h, a, portState) && IsNode(d, h, b, portState)
    ensures NoParen(a.name) && a.name != "" ==> a.name == b.name
    ensures forall p | p in a.ports && a.ports[p].Cabled? ::
      p in b.ports && b.ports[p].Cabled? && a.ports[p].peer.name == b.ports[p].peer.name
  {
    hide NoParen, RatesOf, OpenPorts, FollowsALine;
    forall p | p in a.ports && a.ports[p].Cabled?
      ensures p in b.ports && b.ports[p].Cabled? && a.ports[p].peer.name == b.ports[p].peer.name
    {
      assert p in UplinksOf(a) && UplinksOf(a)[p].name == a.ports[p].peer.name;
      assert p in UplinksOf(b) && UplinksOf(b)[p].name == b.ports[p].peer.name;
    }
  }

  lemma PlainAfter(texts: map<string, string>, x: string)
    requires NamesTexts(texts) && PlainText(x)
    ensures NoParen(Trim(Renamed(texts, x))) && Trim(Renamed(texts, x)) != ""
  {
    hide Trim, NoParen, Bare, Foreign;
    TrimKeepsParens(Renamed(texts, x));
    if x in texts {
      NameIsTrimmed(texts[x]);
    }
  }

  lemma NameIsRenamed(f: Fabric, items: seq<Item>, m: map<string, string>, texts: map<string, string>,
    portState: bool, names: map<string, string>, g: string)
    requires Setting(f, items, m, texts) && g in f && Listed(f[g], portState)
    requires
      var n := DrawnNode(RenameFabric(f, m, map[]), RenameItems(items, m, texts), Renamed(m, g), portState);
      NoParen(n.name) && n.name != "" ==> n.name == RenameNode(f[g], m, names).name
    ensures
      var x := TextShown(f, items, g, portState);
      x.Some? && Renames(names, texts, x.value)
  {
    hide Setting, DrawnNode, RenameFabric, RenameItems, Trim, TextShown, PlainText, NoParen, Visible, NamesTexts,
      Renamed;
    SettingItems(f, items, m, texts);
    DrawnAfter(f, items, m, texts, g, portState);
    ShownOfNode(f, items, m, texts, g, portState);
    PlainAfter(texts, TextShown(f, items, g, portState).value);
  }

  lemma PeerIsRenamed(f: Fabric, items: seq<Item>, m: map<string, string>, texts: map<string, string>,
    portState: bool, names: map<string, string>, g: string, p: string)
    requires Setting(f, items, m, texts) && g in f && p in f[g].ports && f[g].ports[p].Cabled?
    requires
      var a := DrawnNode(RenameFabric(f, m, map[]), RenameItems(items, m, texts), Renamed(m, g), portState);
      var b := RenameNode(f[g], m, names);
      forall q | q in a.ports && a.ports[q].Cabled? ::
        q in b.ports && b.ports[q].Cabled? && a.ports[q].peer.name == b.ports[q].peer.name
    ensures Renames(names, texts, PeerTextShown(items, g, p))
  {
    hide Setting, DrawnNode, RenameFabric, RenameItems, Trim, PeerTextShown, PlainText, RenamePort, DrawnPort, Renamed;
    DrawnAfter(f, items, m, texts, g, portState);
    ShownOfPeer(f, items, m, texts, g, p);
    PeerNames(f[g].ports[p], m, names, Renamed(texts, PeerTextShown(items, g, p)));
  }

  /** The device of a listed node is both the node as drawn and the node renamed. */
  lemma NodesAgree(f: Fabric, items: seq<Item>, m: map<string, string>, texts: map<string, string>, portState: bool,
    names: map<string, string>, o: Outcome, g: string)
    requires Setting(f, items, m, texts) && g in f && Listed(f[g], portState)
    requires ReadsAs(o, Drawn(RenameFabric(f, m, map[]), RenameItems(items, m, texts), portState), portState)
    requires ReadsAs(o, RenameFabric(f, m, names), portState)
    ensures
      var a := DrawnNode(RenameFabric(f, m, map[]), RenameItems(items, m, texts), Renamed(m, g), portState);
      var b := RenameNode(f[g], m, names);
      && (NoParen(a.name) && a.name != "" ==> a.name == b.name)
      && forall q | q in a.ports && a.ports[q].Cabled? ::
           q in b.ports && b.ports[q].Cabled? && a.ports[q].peer.name == b.ports[q].peer.name
  {
    hide Setting, ReadsAs, IsNode, DrawnNode, RenameNode, RenameItems, RenameFabric, Listed, NoParen;
    SettingItems(f, items, m, texts);
    NodeAfter(f, items, m, texts, g, portState);
    var r, after, h := RenameFabric(f, m, map[]), RenameItems(items, m, texts), Renamed(m, g);
    assert Drawn(r, after, portState)[h] == DrawnNode(r, after, h, portState);
    var d := ListedDevice(Drawn(r, after, portState), RenameFabric(f, m, names), o, portState, h);
    SameNames(d, h, DrawnNode(r, after, h, portState), RenameNode(f[g], m, names), portState);
  }

  lemma NodesShowRenamed(f: Fabric, items: seq<Item>, m: map<string, string>, texts: map<string, string>,
    portState: bool, names: map<string, string>, o: Outcome, g: string, x: string)
    requires Setting(f, items, m, texts) && ShownBy(f, items, portState, g, x)
    requires ReadsAs(o, Drawn(RenameFabric(f, m, map[]), RenameItems(items, m, texts), portState), portState)
    requires ReadsAs(o, RenameFabric(f, m, names), portState)
    ensures Renames(names, texts, x)
  {
    hide Setting, ReadsAs, Drawn, DrawnNode, RenameNode, RenameItems, RenameFabric, PeerTextShown, TextShown, Renames,
      NoParen, Listed, Injective;
    NodesAgree(f, items, m, texts, portState, names, o, g);
    NameIsRenamed(f, items, m, texts, portState, names, g);
    if p :| p in f[g].ports && f[g].ports[p].Cabled? && PeerTextShown(items, g, p) == x {
      PeerIsRenamed(f, items, m, texts, portState, names, g, p);
    }
  }

  lemma ShownIsRenamed(f: Fabric, items: seq<Item>, m: map<string, string>, texts: map<string, string>,
    portState: bool, names: map<string, string>, o: Outcome, x: string)
    requires Setting(f, items, m, texts) && Shown(f, items, portState, x)
    requires ReadsAs(o, Drawn(RenameFabric(f, m, map[]), RenameItems(items, m, texts), portState), portState)
    requires ReadsAs(o, RenameFabric(f, m, names), portState)
    ensures Renames(names, texts, x)
  {
    hide Setting, ReadsAs, Drawn, RenameItems, RenameFabric, Renames, ShownBy, Injective;
    var g :| ShownBy(f, items, portState, g, x);
    NodesShowRenamed(f, items, m, texts, portState, names, o, g, x);
  }

  lemma PeerNames(port: Port, m: map<string, string>, names: map<string, string>, text: string)
    requires port.Cabled?
    ensures DrawnPort(RenamePort(port, m, map[]), text).Cabled? && RenamePort(port, m, names).Cabled?
    ensures DrawnPort(RenamePort(port, m, map[]), text).peer.name == Trim(text)
    ensures RenamePort(port, m, names).peer.name == Renamed(names, port.peer.name)
  {
  }

  lemma NodeAfter(f: Fabric, items: seq<Item>, m: map<string, string>, texts: map<string, string>, g: string,
    portState: bool)
    requires Setting(f, items, m, texts) && g in f && Listed(f[g], portState)
    ensures
      var r := RenameFabric(f, m, map[]);
      Renamed(m, g) in r && Listed(DrawnNode(r, RenameItems(items, m, texts), Renamed(m, g), portState), portState)
  {
    hide Setting, DrawnNode, Visible;
    SettingItems(f, items, m, texts);
    KindAfter(f, items, m, texts, g, portState, map[]);
    VisibleAsDrawn(RenameFabric(f, m, map[]), RenameItems(items, m, texts), Renamed(m, g), portState);
    VisibleAfter(f, m, map[], g, portState);
  }

  lemma RenamedOnePadding(f: Fabric, items: seq<Item>, m: map<string, string>, texts: map<string, string>,
    portState: bool, names: map<string, string>)
    requires Setting(f, items, m, texts)
    requires forall x | Shown(f, items, portState, x) :: Renames(names, texts, x)
    ensures OnePadding(f, items, portState, texts)
  {
    hide Setting, Shown, Trim, PlainName, Foreign, Bare, NoParen;
    SettingTexts(f, items, m, texts);
    forall x, y | Shown(f, items, portState, x) && Shown(f, items, portState, y) && x in texts && Trim(x) == Trim(y)
      ensures x == y
    {
      NameIsTrimmed(texts[x]);
      ShownIsPlain(f, items, m, texts, portState, y);
      assert Renames(names, texts, x) && Renames(names, texts, y);
      if y in texts {
        NameIsTrimmed(texts[y]);
      }
    }
  }

  lemma SettingTexts(f: Fabric, items: seq<Item>, m: map<string, string>, texts: map<string, string>)
    requires Setting(f, items, m, texts)
    ensures NamesTexts(texts) && (forall x <- texts :: !Foreign(texts[x]))
    ensures OneToOne(texts)
  {
  }

  /** Names that do not look generated are renamed injectively, whether the script knows them or not. */
  lemma ByNameIsInjective(f: Fabric, items: seq<Item>, m: map<string, string>, texts: map<string, string>,
    portState: bool, a: string, b: string)
    requires Setting(f, items, m, texts) && OnePadding(f, items, portState, texts) && Foreign(a) && Foreign(b)
    requires
      var names := ByName(f, items, portState, texts);
      Renamed(names, a) == Renamed(names, b)
    ensures a == b
  {
    hide Setting, Shown, Trim, Foreign, NamesTexts;
    SettingTexts(f, items, m, texts);
  }

  lemma SettingOf(f: Fabric, items: seq<Item>, text: string, s: Script)
    requires PlainDrawing(f, items) && ShowsNames(f, items) && Split(text, '\n') == PrintAll(f, items)
    requires RunsOn(s, text) && NoChain(s.guids)
    ensures Injective(f, s.guids) && Setting(f, items, s.guids, Renaming(s.names))
  {
    hide PlainDrawing, ShowsNames, Split, PrintAll, RunsOn, NoChain, Injective, NamesTexts, Prints, RenameFabric,
      RenameItems, Foreign, Renaming, Output, HarvestedFrom, Harvested;
    OutputDraws(f, items, text, s);
    forall x | x in Renaming(s.names) ensures !Foreign(Renaming(s.names)[x]) {
      RenamingIs(s.names, x);
    }
  }

  /**
   * Anonymisation preserves meaning exactly when no harvested name is shown with two paddings. For any drawing of a
   * fabric whose numbering has no chain, and whatever the orders of the substitutions, the anonymised dump parses to
   * the fabric with its GUIDs renamed and its names renamed by some map if and only if no harvested name is shown
   * with two paddings. If so, the map never gives two names of the dump the same one.
   */
  lemma AnonymisedFabric(f: Fabric, items: seq<Item>, text: string, s: Script, portState: bool, o: Outcome)
    requires PlainDrawing(f, items) && ShowsNames(f, items) && Split(text, '\n') == PrintAll(f, items)
    requires RunsOn(s, text) && NoChain(s.guids) && IsOutcome(ParseDevices(Output(s, text), portState), o)
    ensures Injective(f, s.guids)
    ensures AllLegible(f, items) && OnePadding(f, items, portState, Renaming(s.names)) <==>
      exists names :: ReadsAs(o, RenameFabric(f, s.guids, names), portState)
    ensures AllLegible(f, items) && OnePadding(f, items, portState, Renaming(s.names)) ==>
      var names := ByName(f, items, portState, Renaming(s.names));
      && ReadsAs(o, RenameFabric(f, s.guids, names), portState)
      && forall a, b | Foreign(a) && Foreign(b) && Renamed(names, a) == Renamed(names, b) :: a == b
  {
    hide PlainDrawing, ShowsNames, Split, PrintAll, RunsOn, NoChain, IsOutcome, Output, Injective, RenameFabric,
      RenameItems, Setting, OnePadding, ByName, ReadsAs, Renaming, Foreign, Renamed, Shown, Drawn, HarvestedFrom,
      Renames;
    var m, texts := s.guids, Renaming(s.names);
    AnonymisedDrawing(f, items, text, s, portState, o);
    RejectedReadsAsNothing(o, portState);
    PrintsOf(f, items);
    SettingOf(f, items, text, s);
    if AllLegible(f, items) && OnePadding(f, items, portState, texts) {
      var names := ByName(f, items, portState, texts);
      forall x | Shown(f, items, portState, x) ensures Renames(names, texts, x) {
        ByNameRenames(f, items, m, texts, portState, x);
      }
      ReadsAsRenamed(f, items, m, texts, portState, names, o);
      forall a, b | Foreign(a) && Foreign(b) && Renamed(names, a) == Renamed(names, b) ensures a == b {
        ByNameIsInjective(f, items, m, texts, portState, a, b);
      }
    }
    if names :| ReadsAs(o, RenameFabric(f, m, names), portState) {
      forall x | Shown(f, items, portState, x) ensures Renames(names, texts, x) {
        ShownIsRenamed(f, items, m, texts, portState, names, o, x);
      }
      RenamedOnePadding(f, items, m, texts, portState, names);
    }
  }

  lemma RejectedReadsAsNothing(o: Outcome, portState: bool)
    ensures o.Rejected? ==> forall f :: !ReadsAs(o, f, portState)
  {
    hide ListsNodes;
  }

  /** Which texts survive the script: those on no connected, terminated line of a switch or HCA. */
  lemma SurvivingTexts(f: Fabric, items: seq<Item>, text: string, s: Script, x: string)
    requires PlainDrawing(f, items) && Split(text, '\n') == PrintAll(f, items) && RunsOn(s, text) && NoChain(s.guids)
    requires Foreign(x)
    ensures Renamed(Renaming(s.names), x) == x <==> !HarvestedFrom(f, items, x)
    ensures Foreign(Renamed(Renaming(s.names), x)) <==> !HarvestedFrom(f, items, x)
  {
    hide PlainDrawing, Split, PrintAll, RunsOn, NoChain, Injective, NamesTexts, Prints, RenameFabric, RenameItems,
      Foreign, Renaming, Output, HarvestedFrom, Harvested;
    OutputDraws(f, items, text, s);
    if x in Renaming(s.names) {
      RenamingIs(s.names, x);
    }
  }

}
