/** GUIDs renamed in a printed fabric. */
module AnonymizeFabric {
  import opened Text
  import opened Ibnetdiscover
  import opened TopologyLines
  import opened TopologyRoundTrip
  import opened Anonymize
  import opened AnonymizeGuids

  // ---------------------------------------------------------------- renaming part by part

  /** A character no GUID holds. */
  predicate Breaks(c: char) {
    !IsHex(c) && c != 'x'
  }

  /** A text without GUIDs. */
  predicate Bare(s: string) {
    Guids(s) == []
  }

  lemma FrontBefore(a: string, c: char, b: string)
    requires Breaks(c) && a != ""
    ensures GuidFirst(a + [c] + b) <==> GuidFirst(a)
    ensures GuidFirst(a) ==> (a + [c] + b)[..18] == a[..18] && (a + [c] + b)[18..] == a[18..] + [c] + b
  {
    var s := a + [c] + b;
    if |a| >= 18 {
      assert s[..18] == a[..18];
    } else if |s| >= 18 {
      assert s[..18][|a|] == c;
    }
  }

  /** Renaming, collecting and separating GUIDs go part by part. */
  lemma {:induction false} PartByPart(a: string, c: char, b: string, m: map<string, string>)
    requires Breaks(c)
    ensures RenameGuids(a + [c] + b, m) == RenameGuids(a, m) + [c] + RenameGuids(b, m)
    ensures Guids(a + [c] + b) == Guids(a) + Guids(b)
    ensures Separated(a + [c] + b) <==> Separated(a) && Separated(b)
    decreases |a|
  {
    var s := a + [c] + b;
    if a == "" {
      assert s[1..] == b;
      assert !GuidFirst(s) by {
        if GuidFirst(s) {
          GuidChars(s);
        }
      }
    } else {
      FrontBefore(a, c, b);
      if GuidFirst(a) {
        PartByPart(a[18..], c, b, m);
      } else {
        assert s[1..] == a[1..] + [c] + b;
        PartByPart(a[1..], c, b, m);
      }
    }
  }

  lemma {:induction false} BareStays(s: string, m: map<string, string>)
    requires Bare(s)
    ensures RenameGuids(s, m) == s && Separated(s)
  {
    if s != "" {
      BareStays(s[1..], m);
    }
  }

  lemma GuidIsRenamed(g: string, m: map<string, string>)
    requires IsGuid(g)
    ensures RenameGuids(g, m) == Renamed(m, g) && Guids(g) == [g] && Separated(g)
  {
    assert g[..18] == g && g[18..] == "";
  }

  lemma SpaceBreaks(c: char)
    requires IsSpace(c)
    ensures Breaks(c)
  {
  }

  // ---------------------------------------------------------------- a line

  lemma EmptyIsBare(m: map<string, string>)
    ensures RenameGuids("", m) == "" && Guids("") == [] && Separated("")
  {
  }

  /** A blank gap after a part. */
  lemma {:induction false} GapByGap(a: string, gap: string, b: string, m: map<string, string>)
    requires gap != "" && Blank(gap)
    ensures RenameGuids(a + gap + b, m) == RenameGuids(a, m) + gap + RenameGuids(b, m)
    ensures Guids(a + gap + b) == Guids(a) + Guids(b)
    ensures Separated(a + gap + b) <==> Separated(a) && Separated(b)
    decreases |gap|
  {
    hide RenameGuids, Guids, Separated;
    var c := gap[0];
    SpaceBreaks(c);
    if |gap| == 1 {
      assert gap == [c];
      PartByPart(a, c, b, m);
    } else {
      var t := gap[1..];
      assert a + gap + b == a + [c] + ("" + t + b);
      PartByPart(a, c, "" + t + b, m);
      GapByGap("", t, b, m);
      EmptyIsBare(m);
      assert "" + t + RenameGuids(b, m) == t + RenameGuids(b, m);
      assert RenameGuids(a, m) + [c] + (t + RenameGuids(b, m)) == RenameGuids(a, m) + gap + RenameGuids(b, m);
    }
  }

  /** The words of a line: GUIDs, or words without one. */
  ghost predicate GuidsOrBare(words: seq<string>) {
    forall i | 0 <= i < |words| :: IsGuid(words[i]) || Bare(words[i])
  }

  function RenameWords(words: seq<string>, m: map<string, string>): (r: seq<string>)
    ensures |r| == |words|
  {
    seq(|words|, i requires 0 <= i < |words| => Renamed(m, words[i]))
  }

  lemma WordIsRenamed(w: string, m: map<string, string>)
    requires (IsGuid(w) || Bare(w)) && GuidsToGuids(m)
    ensures RenameGuids(w, m) == Renamed(m, w) && Separated(w)
  {
    hide RenameGuids, Separated, IsGuid;
    if IsGuid(w) {
      GuidIsRenamed(w, m);
    } else {
      BareStays(w, m);
      BareIsNoGuid(w);
    }
  }

  lemma BareIsNoGuid(w: string)
    requires Bare(w)
    ensures !IsGuid(w)
  {
    assert |w| == 18 ==> w[..18] == w;
  }

  lemma {:induction false} SpreadRenamed(words: seq<string>, gaps: seq<string>, rest: string, m: map<string, string>)
    requires |words| == |gaps| && GuidsOrBare(words) && GuidsToGuids(m)
    requires forall i | 0 <= i < |gaps| :: gaps[i] != "" && Blank(gaps[i])
    ensures RenameGuids(Spread(words, gaps) + rest, m) == Spread(RenameWords(words, m), gaps) + RenameGuids(rest, m)
    ensures forall i | 0 <= i < |words| && IsGuid(words[i]) :: words[i] in Guids(Spread(words, gaps) + rest)
    ensures Separated(rest) ==> Separated(Spread(words, gaps) + rest)
  {
    hide RenameGuids, Guids, Separated, IsGuid, Bare, Renamed, Blank;
    if words == [] {
      assert Spread(words, gaps) + rest == rest;
    } else {
      var t := Spread(words[1..], gaps[1..]) + rest;
      SpreadRenamed(words[1..], gaps[1..], rest, m);
      GapByGap(words[0], gaps[0], t, m);
      WordIsRenamed(words[0], m);
      assert Spread(words, gaps) + rest == words[0] + gaps[0] + t;
      assert RenameWords(words, m)[1..] == RenameWords(words[1..], m);
      if IsGuid(words[0]) {
        GuidIsRenamed(words[0], m);
      }
      assert words == [words[0]] + words[1..];
    }
  }

  lemma {:induction false} NoXIsBare(s: string)
    requires forall i | 0 <= i < |s| :: s[i] != 'x'
    ensures Bare(s)
  {
    if s != "" {
      assert !GuidFirst(s) by {
        if GuidFirst(s) {
          GuidChars(s);
        }
      }
      NoXIsBare(s[1..]);
    }
  }

  lemma BlankIsBare(s: string)
    requires Blank(s)
    ensures Bare(s) && Bare(" )" + s)
  {
    assert forall i | 0 <= i < |s| :: IsSpace(s[i]);
    NoXIsBare(s);
    NoXIsBare(" )" + s);
  }

  lemma BareParts(a: string, c: char, b: string)
    requires Breaks(c) && Bare(a) && Bare(b)
    ensures Bare(a + [c] + b)
  {
    PartByPart(a, c, b, map[]);
  }

  lemma PairIsBare(x: string, y: string, tail: string)
    requires Bare(x) && Bare(y) && Blank(tail)
    ensures Bare(PairText(x, y) + tail)
  {
    hide Guids, Bare;
    var d := " )" + tail;
    BlankIsBare(tail);
    BareParts(y, '\'', d);
    var c := y + ['\''] + d;
    NoXIsBare(" - ");
    BareParts(" - ", '\'', c);
    var b := " - " + ['\''] + c;
    BareParts(x, '\'', b);
    NoXIsBare("( ");
    BareParts("( ", '\'', x + ['\''] + b);
    assert PairText(x, y) + tail == "( " + ['\''] + (x + ['\''] + b);
  }

  lemma NameIsBare(name: string, tail: string)
    requires Bare(name) && Blank(tail)
    ensures Bare("'" + name + "'" + tail)
  {
    hide Guids, Bare;
    BlankIsBare(tail);
    BareParts(name, '\'', tail);
    NoXIsBare("");
    BareParts("", '\'', name + ['\''] + tail);
    assert "'" + name + "'" + tail == "" + ['\''] + (name + ['\''] + tail);
  }

  // ---------------------------------------------------------------- fabrics

  function RenamePeer(p: Peer, m: map<string, string>, names: map<string, string>): Peer {
    p.(guid := Renamed(m, p.guid), name := Renamed(names, p.name))
  }

  function RenamePort(p: Port, m: map<string, string>, names: map<string, string>): Port {
    if p.Cabled? then p.(peer := RenamePeer(p.peer, m, names)) else p
  }

  function RenameNode(n: Node, m: map<string, string>, names: map<string, string>): Node {
    n.(name := Renamed(names, n.name), ports := map p | p in n.ports :: RenamePort(n.ports[p], m, names))
  }

  /** No two nodes get the same GUID. */
  ghost predicate Injective(f: Fabric, m: map<string, string>) {
    forall g, h | g in f && h in f && Renamed(m, g) == Renamed(m, h) :: g == h
  }

  ghost function RenameFabric(f: Fabric, m: map<string, string>, names: map<string, string>): (r: Fabric)
    requires Injective(f, m)
    ensures forall g <- f :: Renamed(m, g) in r && r[Renamed(m, g)] == RenameNode(f[g], m, names)
  {
    map g | g in f :: Renamed(m, g) := RenameNode(f[g], m, names)
  }

  /** The drawing with its GUIDs and the quoted texts of its lines renamed. */
  function RenameItem(item: Item, m: map<string, string>, texts: map<string, string>): Item {
    match item
    case ShortLine(line) => item
    case SplitLine(words, text, y) => SplitLine(RenameWords(words, m), Renamed(texts, text), y)
    case PortLine(g, p, text, peerText, y) =>
      PortLine(Renamed(m, g), p, Renamed(texts, text), Renamed(texts, peerText), y)
  }

  function RenameItems(items: seq<Item>, m: map<string, string>, texts: map<string, string>): (r: seq<Item>)
    ensures |r| == |items|
  {
    seq(|items|, i requires 0 <= i < |items| => RenameItem(items[i], m, texts))
  }

  // ---------------------------------------------------------------- what the script can be used on

  /** GUIDs are GUIDs, and nothing else holds one. */
  predicate PlainPort(p: Port) {
    Bare(p.width) && (p.Lone? ==> Bare(p.speed))
    && (p.Cabled? ==>
      Bare(p.speed) && Bare(p.peer.kind) && Bare(p.peer.lid) && Bare(p.peer.port) && IsGuid(p.peer.guid))
  }

  ghost predicate PlainNode(g: string, n: Node) {
    IsGuid(g) && Bare(n.kind) && Bare(n.lid) && forall p <- n.ports :: Bare(p) && PlainPort(n.ports[p])
  }

  /** A well-formed fabric whose GUIDs are GUIDs and whose other words hold none; each node has a port. */
  ghost predicate PlainFabric(f: Fabric) {
    ValidFabric(f) && forall g <- f :: PlainNode(g, f[g]) && f[g].ports != map[]
  }

  /** A name the script could not have generated. */
  predicate Foreign(name: string) {
    !HasPrefix(name, "sw-") && !HasPrefix(name, "hca-")
  }

  /**
   * A quoted name, padded or not: not blank, without GUIDs and parentheses, not looking generated, and not the dash
   * that stands between the quotes of two names.
   */
  predicate PlainText(text: string) {
    Bare(text) && NoParen(text) && Trim(text) != "" && Foreign(Trim(text)) && text != " - "
  }

  ghost predicate PlainItem(f: Fabric, item: Item)
    requires ValidItem(f, item)
  {
    match item
    case ShortLine(line) => Bare(line) && NoQuote(line)
    case SplitLine(words, text, y) => GuidsOrBare(words) && PlainText(text)
    case PortLine(g, p, text, peerText, y) =>
      Bare(y.dash) && PlainText(text) && (f[g].ports[p].Cabled? ==> PlainText(peerText))
  }

  /** A drawing of a fabric the script can be used on. */
  ghost predicate PlainDrawing(f: Fabric, items: seq<Item>) {
    && PlainFabric(f) && Prints(f, items)
    && forall i | 0 <= i < |items| :: ValidItem(f, items[i]) && PlainItem(f, items[i])
  }

  // ---------------------------------------------------------------- GUIDs of a printed line

  lemma CableWordsRenamed(g: string, n: Node, p: string, dash: string, m: map<string, string>)
    requires PlainNode(g, n) && p in n.ports && n.ports[p].Cabled? && Bare(dash) && GuidsToGuids(m)
    ensures GuidsOrBare(CableWords(g, n, p, dash))
    ensures RenameWords(CableWords(g, n, p, dash), m) == CableWords(Renamed(m, g), RenameNode(n, m, map[]), p, dash)
  {
    hide IsGuid, Bare, Renamed;
    var words := CableWords(g, n, p, dash);
    forall i | 0 <= i < |words| && Bare(words[i]) ensures Renamed(m, words[i]) == words[i] {
      BareIsKept(words[i], m);
    }
  }

  lemma BareIsKept(w: string, m: map<string, string>)
    requires Bare(w) && GuidsToGuids(m)
    ensures Renamed(m, w) == w
  {
    BareIsNoGuid(w);
  }

  lemma LoneWordsRenamed(g: string, n: Node, p: string, m: map<string, string>)
    requires PlainNode(g, n) && p in n.ports && !n.ports[p].Cabled? && GuidsToGuids(m)
    ensures GuidsOrBare(LoneWords(g, n, p))
    ensures RenameWords(LoneWords(g, n, p), m) == LoneWords(Renamed(m, g), RenameNode(n, m, map[]), p)
  {
    hide IsGuid, Bare, Renamed;
    NoXIsBare("???");
    var words := LoneWords(g, n, p);
    forall i | 0 <= i < |words| && Bare(words[i]) ensures Renamed(m, words[i]) == words[i] {
      BareIsKept(words[i], m);
    }
  }

  /** The GUIDs of a connected line are renamed in place, and are GUIDs of the text. */
  lemma CableGuids(words: seq<string>, gaps: seq<string>, x: string, y: string, tail: string, m: map<string, string>)
    requires |words| == |gaps| && GuidsOrBare(words) && GuidsToGuids(m) && Bare(x) && Bare(y) && Blank(tail)
    requires forall i | 0 <= i < |gaps| :: gaps[i] != "" && Blank(gaps[i])
    ensures
      var line := Spread(words, gaps) + PairText(x, y) + tail;
      && RenameGuids(line, m) == Spread(RenameWords(words, m), gaps) + PairText(x, y) + tail
      && Separated(line)
      && forall i | 0 <= i < |words| && IsGuid(words[i]) :: words[i] in Guids(line)
  {
    hide RenameGuids, Guids, Separated, IsGuid, Bare, GuidsOrBare, RenameWords, PairText, Spread, Blank;
    var rest := PairText(x, y) + tail;
    assert Spread(words, gaps) + PairText(x, y) + tail == Spread(words, gaps) + rest;
    assert Spread(RenameWords(words, m), gaps) + PairText(x, y) + tail == Spread(RenameWords(words, m), gaps) + rest;
    PairIsBare(x, y, tail);
    BareStays(rest, m);
    SpreadRenamed(words, gaps, rest, m);
  }

  lemma LooseGuids(words: seq<string>, gaps: seq<string>, text: string, tail: string, m: map<string, string>)
    requires |words| == |gaps| && GuidsOrBare(words) && GuidsToGuids(m) && Bare(text) && Blank(tail)
    requires forall i | 0 <= i < |gaps| :: gaps[i] != "" && Blank(gaps[i])
    ensures
      var line := LooseText(words, gaps, text, tail);
      && RenameGuids(line, m) == LooseText(RenameWords(words, m), gaps, text, tail)
      && Separated(line)
      && forall i | 0 <= i < |words| && IsGuid(words[i]) :: words[i] in Guids(line)
  {
    hide RenameGuids, Guids, Separated, IsGuid, Bare, GuidsOrBare, RenameWords, Spread, Blank;
    var rest := "'" + text + "'" + tail;
    assert LooseText(words, gaps, text, tail) == Spread(words, gaps) + rest;
    assert LooseText(RenameWords(words, m), gaps, text, tail) == Spread(RenameWords(words, m), gaps) + rest;
    NameIsBare(text, tail);
    BareStays(rest, m);
    SpreadRenamed(words, gaps, rest, m);
  }

  // ---------------------------------------------------------------- GUIDs of a printed drawing

  /** The GUIDs of a line are renamed in place, and nothing else. */
  ghost predicate GuidsRenamedIn(line: string, m: map<string, string>, after: string) {
    Separated(line) && RenameGuids(line, m) == after
  }

  lemma CableHasGuids(g: string, n: Node, p: string, text: string, peerText: string, y: Layout, m: map<string, string>)
    requires PlainNode(g, n) && p in n.ports && n.ports[p].Cabled? && GuidsToGuids(m)
    requires ValidLayout(y, 11) && Bare(y.dash) && Bare(text) && Bare(peerText)
    ensures GuidsRenamedIn(PrintPort(g, n, p, text, peerText, y), m,
      PrintPort(Renamed(m, g), RenameNode(n, m, map[]), p, text, peerText, y))
    ensures g in Guids(PrintPort(g, n, p, text, peerText, y))
  {
    hide RenameGuids, Separated, Guids, Spread, PairText, Word, Blank, Bare, IsGuid, NoQuote, NoParen, GuidsOrBare,
      GuidsToGuids;
    var words := CableWords(g, n, p, y.dash);
    CableWordsRenamed(g, n, p, y.dash, m);
    CableGuids(words, y.gaps, text, peerText, y.tail, m);
    assert words[3] == g;
  }

  lemma LoneHasGuids(g: string, n: Node, p: string, text: string, peerText: string, y: Layout, m: map<string, string>)
    requires PlainNode(g, n) && p in n.ports && !n.ports[p].Cabled? && GuidsToGuids(m)
    requires ValidLayout(y, 6) && Bare(text)
    ensures GuidsRenamedIn(PrintPort(g, n, p, text, peerText, y), m,
      PrintPort(Renamed(m, g), RenameNode(n, m, map[]), p, text, peerText, y))
    ensures g in Guids(PrintPort(g, n, p, text, peerText, y))
  {
    hide RenameGuids, Separated, Guids, LooseText, Word, Blank, Bare, IsGuid, NoQuote, NoParen, GuidsOrBare,
      GuidsToGuids;
    var words := LoneWords(g, n, p);
    LoneWordsRenamed(g, n, p, m);
    LooseGuids(words, y.gaps, text, y.tail, m);
    assert words[3] == g;
  }

  lemma GuidIsPlainWord(g: string)
    requires IsGuid(g)
    ensures PlainWord(g)
  {
    forall k | 0 <= k < |g| ensures !IsSpace(g[k]) && g[k] != '\'' && g[k] != '(' {
      assert IsHex(g[k]) || g[k] == 'x';
    }
  }

  lemma RenamedWordsArePlain(words: seq<string>, m: map<string, string>)
    requires (forall i | 0 <= i < |words| :: PlainWord(words[i])) && GuidsToGuids(m)
    ensures forall i | 0 <= i < |words| :: PlainWord(RenameWords(words, m)[i])
  {
    hide PlainWord, IsGuid;
    forall w | w in m ensures PlainWord(m[w]) {
      GuidIsPlainWord(m[w]);
    }
  }

  lemma ItemHasGuids(f: Fabric, item: Item, m: map<string, string>)
    requires PlainFabric(f) && ValidItem(f, item) && PlainItem(f, item) && Injective(f, m) && GuidsToGuids(m)
    ensures
      var r, after := RenameFabric(f, m, map[]), RenameItem(item, m, map[]);
      ValidItem(r, after) && GuidsRenamedIn(PrintItem(f, item), m, PrintItem(r, after))
    ensures item.PortLine? ==> item.guid in Guids(PrintItem(f, item))
  {
    hide GuidsRenamedIn, Guids, Bare, IsGuid, GuidsOrBare, GuidsToGuids, NoQuote, NoParen, Blank, PrintPort, Fields,
      PlainNode, ValidNode, PlainWord, Injective, Trim, Foreign, LooseText;
    match item
    case ShortLine(line) => ShortHasNoGuids(line, m);
    case SplitLine(words, text, y) =>
      SplitHasGuids(words, text, y, m);
      RenamedWordsArePlain(words, m);
      SdrStays(words, m);
    case PortLine(g, p, text, peerText, y) =>
      if f[g].ports[p].Cabled? {
        CableHasGuids(g, f[g], p, text, peerText, y, m);
      } else {
        LoneHasGuids(g, f[g], p, text, peerText, y, m);
      }
  }

  lemma SdrStays(words: seq<string>, m: map<string, string>)
    requires |words| == 6 && words[5] == "SDR" && GuidsToGuids(m)
    ensures RenameWords(words, m)[5] == "SDR"
  {
  }

  lemma ShortHasNoGuids(line: string, m: map<string, string>)
    requires Bare(line)
    ensures GuidsRenamedIn(line, m, line)
  {
    BareStays(line, m);
  }

  lemma SplitHasGuids(words: seq<string>, text: string, y: Layout, m: map<string, string>)
    requires |words| == 6 && GuidsOrBare(words) && GuidsToGuids(m) && ValidLayout(y, 6) && Bare(text)
    ensures GuidsRenamedIn(LooseText(words, y.gaps, text, y.tail), m,
      LooseText(RenameWords(words, m), y.gaps, text, y.tail))
  {
    hide RenameGuids, Separated, Guids, LooseText, Bare, GuidsOrBare, GuidsToGuids, PlainWord, Blank;
    LooseGuids(words, y.gaps, text, y.tail, m);
  }

  lemma NodeStaysValid(g: string, n: Node, m: map<string, string>)
    requires ValidNode(g, n) && PlainNode(g, n) && GuidsToGuids(m)
    ensures ValidNode(Renamed(m, g), RenameNode(n, m, map[]))
  {
    hide PlainWord, ParseRate, Bare, IsGuid;
    forall w | IsGuid(w) ensures PlainWord(w) {
      GuidIsPlainWord(w);
    }
  }

  lemma FabricStaysValid(f: Fabric, m: map<string, string>)
    requires PlainFabric(f) && Injective(f, m) && GuidsToGuids(m)
    ensures ValidFabric(RenameFabric(f, m, map[]))
  {
    hide ValidNode, PlainNode, RenameNode, GuidsToGuids, Renamed;
    forall g | g in f ensures ValidNode(Renamed(m, g), RenameNode(f[g], m, map[])) {
      NodeStaysValid(g, f[g], m);
    }
  }

  /** Renaming GUIDs in a drawing draws the fabric with its GUIDs renamed. */
  lemma PrintsRenamed(f: Fabric, items: seq<Item>, m: map<string, string>, texts: map<string, string>)
    requires Prints(f, items) && Injective(f, m)
    requires
      var r, after := RenameFabric(f, m, map[]), RenameItems(items, m, texts);
      forall i | 0 <= i < |after| :: ValidItem(r, after[i])
    ensures Prints(RenameFabric(f, m, map[]), RenameItems(items, m, texts))
  {
    hide ValidItem, RenameFabric, RenameNode, Renamed;
    var r, after := RenameFabric(f, m, map[]), RenameItems(items, m, texts);
    forall i, j | 0 <= i < j < |after| && after[i].PortLine? && after[j].PortLine?
      ensures after[i].guid != after[j].guid || after[i].port != after[j].port
    {
      ItemHasNode(f, items[i]);
      ItemHasNode(f, items[j]);
    }
    forall h, p | h in r && p in r[h].ports ensures exists i | 0 <= i < |after| :: IsLineOf(after[i], h, p) {
      var g := SourceOf(f, m, h, p);
      var i :| 0 <= i < |items| && IsLineOf(items[i], g, p);
      assert IsLineOf(after[i], h, p);
    }
  }

  lemma ItemHasNode(f: Fabric, item: Item)
    requires ValidItem(f, item)
    ensures item.PortLine? ==> item.guid in f && item.port in f[item.guid].ports
  {
    hide ValidLayout, Fields, PlainWord, NoQuote, Trim;
  }

  lemma SourceOf(f: Fabric, m: map<string, string>, h: string, p: string) returns (g: string)
    requires Injective(f, m) && h in RenameFabric(f, m, map[]) && p in RenameFabric(f, m, map[])[h].ports
    ensures g in f && Renamed(m, g) == h && p in f[g].ports
  {
    g :| g in f && Renamed(m, g) == h;
  }
}
