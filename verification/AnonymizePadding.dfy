/** A dump that prints one name with two paddings. */
module AnonymizePadding {
  import opened Wrappers
  import opened Text
  import opened Numbers
  import opened Ibnetdiscover
  import opened TopologyLines
  import opened TopologyRoundTrip
  import opened Anonymize
  import opened AnonymizeGuids
  import opened AnonymizeFabric
  import opened AnonymizeHarvest
  import opened AnonymizeText
  import opened AnonymizeMeaning
  import AnonymizeChain

  const HOST := "0x00000000000000ca"
  const LEAF := "0x00000000000000fe"

  /** A host and a switch, linked to each other. */
  function Hosts(): Fabric {
    map[HOST := Node("CA", "1", "host HCA-1", map["1" := Cabled("4x", "EDR", Peer("SW", "2", "1", LEAF, "leaf"))]),
        LEAF := Node("SW", "2", "leaf", map["1" := Cabled("4x", "EDR", Peer("CA", "1", "1", HOST, "host HCA-1"))])]
  }

  function Plain(): Layout {
    Layout([" ", " ", " ", " ", " ", " ", " ", " ", " ", " ", " "], "-", "")
  }

  /** The host's line pads the name of the switch, the switch's own line does not. */
  function Lines(): seq<Item> {
    [PortLine(HOST, "1", "host HCA-1", "leaf ", Plain()), PortLine(LEAF, "1", "leaf", "host HCA-1", Plain()),
      ShortLine("")]
  }

  lemma {:induction false} ShortIsBare(s: string)
    requires |s| < 18
    ensures Bare(s)
  {
    if s != "" {
      ShortIsBare(s[1..]);
    }
  }

  lemma GuidsAreGuids()
    ensures IsGuid(HOST) && IsGuid(LEAF) && HOST != LEAF
  {
    assert HOST[16] != LEAF[16];
  }

  lemma WordIsPlain(w: string)
    requires w in {"CA", "SW", "1", "2", "4x", "EDR", "-"}
    ensures PlainWord(w) && Bare(w) && w != "???"
  {
    ShortIsBare(w);
  }

  lemma FourLanes()
    ensures ParseRate("4x", "EDR").Ok?
  {
    assert LeadingDigits("4x") != "";
  }

  lemma ForeignStart(t: string)
    requires |t| > 1 && t[0] != 's' && t[1] != 'c'
    ensures Foreign(t)
  {
    PrefixAt(t, "sw-", 0);
    PrefixAt(t, "hca-", 1);
  }

  lemma PrefixAt(t: string, p: string, i: nat)
    requires i < |p| && i < |t|
    ensures HasPrefix(t, p) ==> t[i] == p[i]
  {
  }

  /** A text of one name, with a trailing space or without. */
  lemma TextIsPlain(name: string, pad: string)
    requires name in {"host HCA-1", "leaf"} && pad in {"", " "}
    ensures NoQuote(name + pad) && PlainText(name + pad) && Trim(name + pad) == name
  {
    hide Bare, Trim, Foreign;
    ShortIsBare(name + pad);
    ForeignStart(name);
    TrimPadded("", name, pad);
    assert "" + name + pad == name + pad;
    NameHasNoQuote(name, pad);
  }

  lemma NameHasNoQuote(name: string, pad: string)
    requires name in {"host HCA-1", "leaf"} && pad in {"", " "}
    ensures NoQuote(name + pad) && NoParen(name + pad) && name + pad != " - "
  {
    assert NoQuote(name) && NoParen(name) && name[0] != ' ';
  }

  lemma WordsArePlain()
    ensures forall w | w in {"CA", "SW", "1", "2", "4x", "EDR", "-", HOST, LEAF} :: PlainWord(w)
    ensures forall w | w in {"CA", "SW", "1", "2", "4x", "EDR", "-"} :: Bare(w) && w != "???"
    ensures IsGuid(HOST) && IsGuid(LEAF) && HOST != LEAF
  {
    hide PlainWord, Bare, IsGuid;
    GuidsAreGuids();
    GuidIsPlainWord(HOST);
    GuidIsPlainWord(LEAF);
    forall w | w in {"CA", "SW", "1", "2", "4x", "EDR", "-"} ensures PlainWord(w) && Bare(w) && w != "???" {
      WordIsPlain(w);
    }
  }

  lemma NodesArePlain()
    ensures forall g <- Hosts() :: ValidNode(g, Hosts()[g]) && PlainNode(g, Hosts()[g])
  {
    hide ParseRate, Bare, PlainWord, IsGuid;
    FourLanes();
    WordsArePlain();
  }

  lemma HostsArePlain()
    ensures PlainFabric(Hosts())
  {
    hide ValidNode, PlainNode;
    NodesArePlain();
    forall g | g in Hosts() ensures Hosts()[g].ports != map[] {
      assert "1" in Hosts()[g].ports;
    }
  }

  lemma PlainLayout()
    ensures ValidLayout(Plain(), 11) && Bare(Plain().dash) && Plain().gaps[0][0] == ' '
  {
    hide PlainWord, Bare;
    WordsArePlain();
    var gap := " ";
    assert Blank(gap) && forall i | 0 <= i < 11 :: Plain().gaps[i] == gap;
  }

  lemma ItemsArePlain()
    ensures forall item <- Lines() :: ValidItem(Hosts(), item) && PlainItem(Hosts(), item)
    ensures ShowsNamesOf(Hosts(), Lines()[0]) && ShowsNamesOf(Hosts(), Lines()[1])
  {
    hide Bare, PlainWord, IsGuid, PlainText, Trim, NoQuote, Fields, ValidLayout, Plain;
    PlainLayout();
    WordsArePlain();
    TextIsPlain("host HCA-1", "");
    TextIsPlain("leaf", "");
    TextIsPlain("leaf", " ");
    assert "host HCA-1" + "" == "host HCA-1" && "leaf" + "" == "leaf" && "leaf" + " " == "leaf ";
    EmptyLine();
  }

  lemma EmptyLine()
    ensures Bare("") && NoQuote("") && |Fields("")| < 5
  {
  }

  lemma LinesArePlain()
    ensures PlainDrawing(Hosts(), Lines()) && ShowsNames(Hosts(), Lines())
  {
    hide PlainFabric, ValidItem, PlainItem, ShowsNamesOf, IsGuid;
    HostsArePlain();
    ItemsArePlain();
    GuidsAreGuids();
    var items := Lines();
    assert forall i | 0 <= i < |items| :: items[i] in items;
    assert IsLineOf(items[0], HOST, "1") && IsLineOf(items[1], LEAF, "1");
  }

  lemma LinesGive()
    ensures ValidItem(Hosts(), Lines()[0]) && GivesText(Hosts(), Lines()[0], "leaf ")
    ensures ValidItem(Hosts(), Lines()[1]) && GivesText(Hosts(), Lines()[1], "leaf")
  {
    hide ValidItem, Plain, PlainItem, IsGuid, ShowsNamesOf;
    ItemsArePlain();
    PlainLayout();
    GuidsAreGuids();
    assert Lines()[0] in Lines() && Lines()[1] in Lines();
  }

  lemma LeafIsHarvested()
    ensures HarvestedFrom(Hosts(), Lines(), "leaf ") && HarvestedFrom(Hosts(), Lines(), "leaf")
  {
    hide ValidItem, GivesText, Hosts;
    LinesGive();
    assert |Lines()| == 3;
  }

  lemma HostShowsLeaf(portState: bool)
    ensures ShownBy(Hosts(), Lines(), portState, HOST, "leaf ")
  {
    hide ValidItem, PlainItem, PlainFabric, ShowsNames, NoParen, TextShown, LineOf;
    LinesArePlain();
    GuidsAreGuids();
    LineOfIs(Hosts(), Lines(), 0);
    assert Hosts()[HOST].ports["1"].Cabled? && PeerTextShown(Lines(), HOST, "1") == "leaf ";
  }

  lemma SwitchShowsLeaf(portState: bool)
    ensures ShownBy(Hosts(), Lines(), portState, LEAF, "leaf")
  {
    hide NoParen, TextShown, LineOf, IsGuid;
    GuidsAreGuids();
    var f, items := Hosts(), Lines();
    assert f[LEAF].ports["1"].Cabled? && ShowsName(f, items[1], LEAF, portState);
    var x := TextShown(f, items, LEAF, portState);
    var i :| 0 <= i < |items| && ShowsName(f, items[i], LEAF, portState) && x == Some(items[i].text);
    assert i == 1;
  }

  lemma LeafIsShown(portState: bool)
    ensures Shown(Hosts(), Lines(), portState, "leaf ") && Shown(Hosts(), Lines(), portState, "leaf")
  {
    hide ShownBy;
    HostShowsLeaf(portState);
    SwitchShowsLeaf(portState);
  }

  /** The text of the dump. */
  ghost predicate DrawnIn(text: string) {
    (forall item <- Lines() :: ValidItem(Hosts(), item)) && Split(text, '\n') == PrintAll(Hosts(), Lines())
  }

  lemma LeafHasTwoPaddings(texts: map<string, string>, portState: bool)
    requires forall x :: x in texts <==> HarvestedFrom(Hosts(), Lines(), x)
    ensures "leaf " in texts && "leaf" in texts && "leaf " != "leaf"
    ensures !OnePadding(Hosts(), Lines(), portState, texts)
  {
    hide HarvestedFrom, Shown, Hosts, Lines, Trim, PlainText, NoQuote;
    LeafIsHarvested();
    LeafIsShown(portState);
    TextIsPlain("leaf", "");
    TextIsPlain("leaf", " ");
    assert "leaf" + "" == "leaf" && "leaf" + " " == "leaf ";
    assert |"leaf "| != |"leaf"|;
  }

  lemma LeafIsLegible()
    ensures PlainDrawing(Hosts(), Lines()) && AllLegible(Hosts(), Lines())
  {
    hide PlainDrawing, ParseRate, IsGuid;
    LinesArePlain();
    FourLanes();
    GuidsAreGuids();
  }

  /**
   * Not every dump keeps its meaning: here the script takes `leaf ` and `leaf` for two switches, while the parser takes
   * them for one. However the rest goes, the result is the renamed fabric under no renaming.
   */
  lemma LeafTwice(text: string, s: Script, portState: bool, o: Outcome)
    requires DrawnIn(text) && RunsOn(s, text) && NoChain(s.guids)
    requires IsOutcome(ParseDevices(Output(s, text), portState), o)
    ensures PlainDrawing(Hosts(), Lines()) && ShowsNames(Hosts(), Lines()) && Injective(Hosts(), s.guids) && o.Parsed?
    ensures "leaf " in Renaming(s.names) && "leaf" in Renaming(s.names)
    ensures Renaming(s.names)["leaf "] != Renaming(s.names)["leaf"]
    ensures !exists names :: ReadsAs(o, RenameFabric(Hosts(), s.guids, names), portState)
  {
    hide PlainDrawing, ShowsNames, RunsOn, NoChain, Split, PrintAll, IsOutcome, Output, HarvestedFrom, Shown,
      Injective, Renaming, ReadsAs, Hosts, Lines, OnePadding, RenameFabric, ByName, Foreign, Drawn, RenameItems,
      Renamed;
    LinesArePlain();
    LeafIsLegible();
    AnonymisedDrawing(Hosts(), Lines(), text, s, portState, o);
    AnonymisedFabric(Hosts(), Lines(), text, s, portState, o);
    LeafHasTwoPaddings(Renaming(s.names), portState);
  }

  // ---------------------------------------------------------------- there is such a run

  lemma {:induction false} SpreadHasNoOther(words: seq<string>, gaps: seq<string>, rest: string, g: string)
    requires |words| == |gaps| && GuidsOrBare(words) && Bare(rest)
    requires forall i | 0 <= i < |gaps| :: gaps[i] != "" && Blank(gaps[i])
    ensures g in Guids(Spread(words, gaps) + rest) ==> g in words
  {
    hide Guids, IsGuid, Blank;
    if words == [] {
      assert Spread(words, gaps) + rest == rest;
    } else {
      var t := Spread(words[1..], gaps[1..]) + rest;
      assert Spread(words, gaps) + rest == words[0] + gaps[0] + t;
      GapByGap(words[0], gaps[0], t, map[]);
      SpreadHasNoOther(words[1..], gaps[1..], rest, g);
      if IsGuid(words[0]) {
        GuidIsRenamed(words[0], map[]);
      }
    }
  }

  lemma {:induction false} SpreadKeepsOut(words: seq<string>, gaps: seq<string>, c: char)
    requires |words| == |gaps| && forall i | 0 <= i < |words| :: c !in words[i] && c !in gaps[i]
    ensures c !in Spread(words, gaps)
  {
    if words != [] {
      SpreadKeepsOut(words[1..], gaps[1..], c);
    }
  }

  lemma CableTextIs(words: seq<string>, gaps: seq<string>, x: string, y: string)
    requires |words| == |gaps| && GuidsOrBare(words) && Bare(x) && Bare(y) && '\n' !in x && '\n' !in y
    requires forall i | 0 <= i < |gaps| :: gaps[i] == " " && '\n' !in words[i]
    ensures
      var line := Spread(words, gaps) + PairText(x, y) + "";
      '\n' !in line && forall g | g in Guids(line) :: g in words
  {
    hide Guids, IsGuid, Bare, GuidsOrBare;
    SpreadKeepsOut(words, gaps, '\n');
    var rest := PairText(x, y) + "";
    assert Spread(words, gaps) + PairText(x, y) + "" == Spread(words, gaps) + rest;
    PairIsBare(x, y, "");
    forall g | g in Guids(Spread(words, gaps) + rest) ensures g in words {
      SpreadHasNoOther(words, gaps, rest, g);
    }
  }

  /** The words of a drawn line of the dump. */
  function LeafWords(i: nat): (words: seq<string>)
    requires i < 2
    ensures |words| == 11
  {
    if i == 0 then ["CA", "1", "1", HOST, "4x", "EDR", "-", "SW", "2", "1", LEAF]
    else ["SW", "2", "1", LEAF, "4x", "EDR", "-", "CA", "1", "1", HOST]
  }

  lemma PlainIs()
    ensures Plain().dash == "-" && Plain().tail == "" && |Plain().gaps| == 11
    ensures forall i | 0 <= i < 11 :: Plain().gaps[i] == " "
  {
  }

  lemma LeafNodes()
    ensures HOST in Hosts() && "1" in Hosts()[HOST].ports && Hosts()[HOST].ports["1"].Cabled?
    ensures LEAF in Hosts() && "1" in Hosts()[LEAF].ports && Hosts()[LEAF].ports["1"].Cabled?
    ensures CableWords(HOST, Hosts()[HOST], "1", "-") == LeafWords(0)
    ensures CableWords(LEAF, Hosts()[LEAF], "1", "-") == LeafWords(1)
  {
    hide IsGuid;
    GuidsAreGuids();
  }

  lemma LinesAre()
    ensures |Lines()| == 3 && Lines()[2] == ShortLine("")
    ensures Lines()[0] == PortLine(HOST, "1", "host HCA-1", "leaf ", Plain())
    ensures Lines()[1] == PortLine(LEAF, "1", "leaf", "host HCA-1", Plain())
  {
    hide Plain;
  }

  lemma LeafLineIs(i: nat)
    requires i < 2 && i < |Lines()| && ValidItem(Hosts(), Lines()[i])
    ensures |Plain().gaps| == 11
    ensures PrintItem(Hosts(), Lines()[i]) == Spread(LeafWords(i), Plain().gaps)
      + (if i == 0 then PairText("host HCA-1", "leaf ") else PairText("leaf", "host HCA-1")) + ""
  {
    hide Spread, PairText, Plain, ValidItem, CableWords, Hosts, Lines, LeafWords;
    PlainIs();
    LinesAre();
    LeafNodes();
  }

  lemma NoNewline()
    ensures forall t | t in {"CA", "SW", "1", "2", "4x", "EDR", "-", "host HCA-1", "leaf", "leaf ", HOST, LEAF} ::
      '\n' !in t
  {
  }

  lemma LeafWordsArePlain(i: nat)
    requires i < 2
    ensures GuidsOrBare(LeafWords(i)) && forall k | 0 <= k < 11 :: '\n' !in LeafWords(i)[k]
    ensures forall g | g in LeafWords(i) && IsGuid(g) :: g in {HOST, LEAF}
  {
    hide PlainWord, Bare, IsGuid;
    WordsArePlain();
    NoNewline();
    forall w | Bare(w) ensures !IsGuid(w) {
      BareIsNoGuid(w);
    }
  }

  /** A drawn line of the dump is one line, with the two GUIDs only. */
  lemma LeafLine(i: nat)
    requires i < 2 && i < |Lines()| && ValidItem(Hosts(), Lines()[i])
    ensures
      var line := PrintItem(Hosts(), Lines()[i]);
      '\n' !in line && forall g | g in Guids(line) :: g in {HOST, LEAF}
  {
    hide Guids, IsGuid, Bare, PairText, GuidsOrBare, PrintItem, ValidItem, LeafWords, Hosts, Lines, Plain, Spread;
    LeafLineIs(i);
    PlainIs();
    LeafWordsArePlain(i);
    NoNewline();
    ShortIsBare("host HCA-1");
    ShortIsBare("leaf");
    ShortIsBare("leaf ");
    if i == 0 {
      CableTextIs(LeafWords(0), Plain().gaps, "host HCA-1", "leaf ");
    } else {
      CableTextIs(LeafWords(1), Plain().gaps, "leaf", "host HCA-1");
    }
  }

  lemma LeafGuids(lines: seq<string>)
    requires (forall item <- Lines() :: ValidItem(Hosts(), item)) && lines == PrintAll(Hosts(), Lines())
    ensures |lines| == 3 && forall i | 0 <= i < 3 :: '\n' !in lines[i]
    ensures forall g :: g in Guids(Join(lines, '\n')) <==> g in {HOST, LEAF}
  {
    hide Guids, IsGuid, ValidItem, Hosts, Lines, PrintItem, PlainDrawing, Join, Plain;
    LinesAre();
    assert forall i | 0 <= i < 3 :: Lines()[i] in Lines();
    LeafLine(0);
    LeafLine(1);
    EmptyPrints();
    GuidsOfLines(lines);
    DrawnGuids();
    assert HOST in Guids(lines[0]) && LEAF in Guids(lines[1]);
  }

  lemma EmptyPrints()
    ensures ValidItem(Hosts(), ShortLine("")) && PrintItem(Hosts(), ShortLine("")) == "" && Guids("") == []
  {
    hide Hosts;
    EmptyLine();
  }

  lemma DrawnGuids()
    requires |Lines()| == 3 && forall item <- Lines() :: ValidItem(Hosts(), item)
    ensures HOST in Guids(PrintItem(Hosts(), Lines()[0])) && LEAF in Guids(PrintItem(Hosts(), Lines()[1]))
  {
    hide Guids, ValidItem, PlainItem, Hosts, Lines, PlainFabric, PrintItem, ShowsNamesOf, Plain;
    HostsArePlain();
    ItemsArePlain();
    LinesAre();
    assert forall i | 0 <= i < 3 :: Lines()[i] in Lines();
    SelfRenaming(Hosts());
    ItemHasGuids(Hosts(), Lines()[0], map[]);
    ItemHasGuids(Hosts(), Lines()[1], map[]);
  }

  lemma TwoNumbers()
    ensures 2 < Pow16(16) && NumberedGuid(1) != NumberedGuid(2)
    ensures NumberedGuid(1) !in {HOST, LEAF} && NumberedGuid(2) !in {HOST, LEAF}
  {
    hide Pow16, Hex;
    AnonymizeChain.SmallNumbers();
    AnonymizeChain.LastDigits(1);
    AnonymizeChain.LastDigits(2);
    assert HOST[16] == 'c' && LEAF[16] == 'f';
    assert NumberedGuid(1)[2..] == Hex(1, 16) && NumberedGuid(2)[2..] == Hex(2, 16);
    assert NumberedGuid(1)[16] == Hex(1, 16)[14] && NumberedGuid(2)[16] == Hex(2, 16)[14];
    assert NumberedGuid(1)[17] == Hex(1, 16)[15] && NumberedGuid(2)[17] == Hex(2, 16)[15];
  }

  /** The dump exists, and on it the script numbers the two GUIDs in order and meets no chain. */
  lemma LeafTwiceHappens() returns (text: string, s: Script)
    ensures DrawnIn(text) && RunsOn(s, text) && NoChain(s.guids)
    ensures 2 < Pow16(16) && s.guids == map[HOST := NumberedGuid(1), LEAF := NumberedGuid(2)]
  {
    hide Pow16, NumberedGuid, IsGuid, ValidItem, PlainItem, PlainFabric, HarvestLines, ReadLines, InTurn, Guids, Hosts,
      PrintAll, Split, Join;
    LinesArePlain();
    var lines := PrintAll(Hosts(), Lines());
    LeafGuids(lines);
    SplitJoin(lines, '\n');
    text := Join(lines, '\n');
    TwoNumbers();
    GuidsAreGuids();
    var m, order := map[HOST := NumberedGuid(1), LEAF := NumberedGuid(2)], [HOST, LEAF];
    var h := HarvestLines(ReadLines(InTurn(text, order, m)));
    var sw := OrderExists(h.sw);
    var hca := OrderExists(h.hca);
    s := Script(m, order, h, sw, hca);
  }
}
