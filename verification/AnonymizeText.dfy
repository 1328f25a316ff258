/** The script run on the drawing of a fabric. */
module AnonymizeText {
  import opened Wrappers
  import opened Text
  import opened TopologyLines
  import opened TopologyRoundTrip
  import opened Anonymize
  import opened AnonymizeGuids
  import opened AnonymizeNames
  import opened AnonymizeFabric
  import opened AnonymizeLines
  import opened AnonymizeHarvest

  // ---------------------------------------------------------------- what is harvested from a line

  lemma MatchHereOf(x: string, y: string, tail: string)
    requires NoQuote(x) && NoQuote(y) && x != "" && y != ""
    ensures MatchHere(PairText(x, y) + tail) == Some(Pair(x, y))
  {
    hide PairText, MatchRight, HasPrefix;
    var s := PairText(x, y) + tail;
    var after := " - '" + y + "' )" + tail;
    PairCut(x, y, tail);
    FirstIndexAt(x, '\'', after);
    MatchRightOf(y, tail);
    assert (x + ['\''] + after)[..|x|] == x && (x + ['\''] + after)[|x| + 1..] == after;
  }

  lemma PairCut(x: string, y: string, tail: string)
    ensures
      var s := PairText(x, y) + tail;
      HasPrefix(s, "( '") && s[3..] == x + ['\''] + (" - '" + y + "' )" + tail)
  {
    assert PairText(x, y) + tail == "( '" + (x + ['\''] + (" - '" + y + "' )" + tail));
  }

  lemma MatchRightOf(y: string, tail: string)
    requires NoQuote(y) && y != ""
    ensures MatchRight(" - '" + y + "' )" + tail) == Some(y)
  {
    hide Past;
    var u := y + ['\''] + (" )" + tail);
    assert " - '" + y + "' )" + tail == " " + ['-'] + (" " + ['\''] + u);
    PastOne('-', " " + ['\''] + u);
    PastOne('\'', u);
    FirstIndexAt(y, '\'', " )" + tail);
    assert u[|y| + 1] == ' ' && u[|y| + 2] == ')' && u[..|y|] == y;
  }

  lemma PastOne(c: char, t: string)
    requires !PosixSpace(c)
    ensures Past(" " + [c] + t, c) == Some(t)
  {
    var s := " " + [c] + t;
    assert s[1..] == [c] + t && s[2..] == t && LeadingSpaces(s[1..]) == 0;
  }

  lemma {:induction false} MatchPairOf(head: string, x: string, y: string, tail: string)
    requires NoParen(head) && NoQuote(x) && NoQuote(y) && x != "" && y != ""
    ensures MatchPair(head + PairText(x, y) + tail) == Some(Pair(x, y))
  {
    hide PairText, MatchHere, NoQuote;
    var p := PairText(x, y) + tail;
    assert head + PairText(x, y) + tail == head + p;
    if head == "" {
      MatchHereOf(x, y, tail);
      PairCut(x, y, tail);
      assert head + p == p;
    } else {
      NoOpening(head + p);
      assert (head + p)[1..] == head[1..] + PairText(x, y) + tail;
      MatchPairOf(head[1..], x, y, tail);
    }
  }

  lemma NoOpening(s: string)
    ensures s == "" || s[0] != '(' ==> MatchHere(s) == None
  {
    assert HasPrefix(s, "( '") ==> s != "" && s[0] == '(';
  }

  lemma {:induction false} NoPair(s: string)
    requires NoParen(s) || NoQuote(s)
    ensures MatchPair(s) == None
  {
    if s != "" {
      NoPair(s[1..]);
      OpeningChars(s);
    }
  }

  lemma OpeningChars(s: string)
    ensures HasPrefix(s, "( '") ==> |s| >= 3 && s[0] == '(' && s[2] == '\''
  {
  }

  lemma LooseHasNoPair(head: string, name: string, tail: string)
    requires NoParen(head) && NoParen(name) && Blank(tail)
    ensures MatchPair(head + "'" + name + "'" + tail) == None
  {
    hide MatchPair;
    BlankHasNoQuote(tail);
    NoPair(head + "'" + name + "'" + tail);
  }

  /** The token up to the first space is the first word only if a space follows it. */
  lemma FirstTokenOf(w: string, gap: string, rest: string)
    requires Word(w) && gap != "" && Blank(gap)
    ensures FirstToken(w + gap + rest) == "CA" <==> w == "CA" && gap[0] == ' '
    ensures FirstToken(w + gap + rest) == "SW" <==> w == "SW" && gap[0] == ' '
  {
    var line := w + gap + rest;
    var token := FirstToken(line);
    assert line[|w|] == gap[0] && IsSpace(gap[0]);
    if gap[0] == ' ' {
      assert line == w + [' '] + (gap[1..] + rest);
      FirstIndexAt(w, ' ', gap[1..] + rest);
    } else {
      assert forall i | 0 <= i < |w| :: line[i] == w[i];
      assert |token| > |w| && token[|w|] == gap[0];
    }
  }

  /** The line is harvested, and gives this text. */
  predicate GivesText(f: Fabric, item: Item, x: string)
    requires ValidItem(f, item)
  {
    && item.PortLine? && f[item.guid].ports[item.port].Cabled?
    && (f[item.guid].kind == "CA" || f[item.guid].kind == "SW") && item.layout.gaps[0][0] == ' '
    && (x == item.text || x == item.peerText)
  }

  lemma CableGives(g: string, n: Node, p: string, text: string, peerText: string, y: Layout, x: string)
    requires ValidNode(g, n) && p in n.ports && n.ports[p].Cabled? && ValidLayout(y, 11)
    requires NoQuote(text) && NoQuote(peerText) && text != "" && peerText != ""
    ensures Gives(PrintPort(g, n, p, text, peerText, y), x) <==>
      (n.kind == "CA" || n.kind == "SW") && y.gaps[0][0] == ' ' && (x == text || x == peerText)
  {
    hide MatchPair, FirstToken, PairText, NoQuote, NoParen, Word, Blank;
    var words := CableWords(g, n, p, y.dash);
    var head := Spread(words, y.gaps);
    CableHead(g, n, p, y);
    HeadIsPlain(words, y.gaps);
    MatchPairOf(head, text, peerText, y.tail);
    var rest := Spread(words[1..], y.gaps[1..]) + PairText(text, peerText) + y.tail;
    assert PrintPort(g, n, p, text, peerText, y) == n.kind + y.gaps[0] + rest;
    FirstTokenOf(n.kind, y.gaps[0], rest);
  }

  lemma LooseGives(words: seq<string>, gaps: seq<string>, text: string, tail: string, x: string)
    requires Loose(words, gaps, text, tail) && NoParen(text)
    ensures !Gives(LooseText(words, gaps, text, tail), x)
  {
    hide MatchPair, FirstToken, Spread, NoQuote, NoParen, Blank;
    HeadIsPlain(words, gaps);
    LooseHasNoPair(Spread(words, gaps), text, tail);
  }

  lemma ItemGives(f: Fabric, item: Item, x: string)
    requires ValidFabric(f) && ValidItem(f, item)
    requires match item
             case ShortLine(line) => NoQuote(line)
             case SplitLine(_, t, _) => NoParen(t)
             case PortLine(_, _, t, _, _) => NoParen(t)
    ensures Gives(PrintItem(f, item), x) <==> GivesText(f, item, x)
  {
    hide Gives, NoQuote, NoParen, Trim, PrintPort, Fields, ValidNode, Blank, LooseText;
    match item
    case ShortLine(line) => ShortGives(line, x);
    case SplitLine(words, text, y) => SplitGives(words, text, y, x);
    case PortLine(g, p, text, peerText, y) =>
      if f[g].ports[p].Cabled? {
        NotBlank(peerText);
        CableGives(g, f[g], p, text, peerText, y, x);
      } else {
        LoneGives(g, f[g], p, text, peerText, y, x);
      }
  }

  lemma NotBlank(s: string)
    requires Trim(s) != ""
    ensures s != ""
  {
  }

  lemma ShortGives(line: string, x: string)
    requires NoQuote(line)
    ensures !Gives(line, x)
  {
    hide MatchPair;
    NoPair(line);
  }

  lemma SplitGives(words: seq<string>, text: string, y: Layout, x: string)
    requires |words| == 6 && (forall i | 0 <= i < |words| :: PlainWord(words[i])) && NoQuote(text) && NoParen(text)
    requires ValidLayout(y, 6)
    ensures !Gives(LooseText(words, y.gaps, text, y.tail), x)
  {
    hide LooseText, Gives, NoQuote, NoParen, Blank, Word;
    LooseGives(words, y.gaps, text, y.tail, x);
  }

  lemma LoneGives(g: string, n: Node, p: string, text: string, peerText: string, y: Layout, x: string)
    requires ValidNode(g, n) && p in n.ports && !n.ports[p].Cabled? && ValidLayout(y, 6)
    requires NoQuote(text) && NoParen(text)
    ensures !Gives(PrintPort(g, n, p, text, peerText, y), x)
  {
    hide LooseText, Gives, NoQuote, NoParen, Blank, Word;
    UnpluggedIsPlain();
    LooseGives(LoneWords(g, n, p), y.gaps, text, y.tail, x);
  }

  // ---------------------------------------------------------------- line by line

  lemma {:induction false} GuidsKeepOut(s: string, c: char, m: map<string, string>)
    requires Breaks(c) && c !in s && GuidsToGuids(m)
    ensures c !in RenameGuids(s, m)
    decreases |s|
  {
    if s != "" {
      if GuidFirst(s) {
        GuidsKeepOut(s[18..], c, m);
        var g := Renamed(m, s[..18]);
        assert IsGuid(g);
        assert forall i | 0 <= i < 18 :: g[i] != c;
      } else {
        GuidsKeepOut(s[1..], c, m);
      }
    }
  }

  lemma {:induction false} JoinKeepsOut(parts: seq<string>, sep: char, c: char)
    requires c != sep && forall p <- parts :: c !in p
    ensures c !in Join(parts, sep)
  {
    if |parts| > 1 {
      JoinKeepsOut(parts[1..], sep, c);
    }
  }

  lemma {:induction false} SplitKeepsOut(s: string, sep: char, c: char)
    requires c !in s
    ensures forall i | 0 <= i < |Split(s, sep)| :: c !in Split(s, sep)[i]
  {
    if s != "" {
      SplitKeepsOut(s[1..], sep, c);
    }
  }

  /** The GUIDs of all lines, in one text. */
  lemma {:induction false} LinesHaveGuids(lines: seq<string>, m: map<string, string>, after: seq<string>)
    requires |lines| == |after| > 0 && forall i | 0 <= i < |lines| :: GuidsRenamedIn(lines[i], m, after[i])
    ensures GuidsRenamedIn(Join(lines, '\n'), m, Join(after, '\n'))
  {
    hide Separated, RenameGuids, Guids;
    if |lines| > 1 {
      LinesHaveGuids(lines[1..], m, after[1..]);
      PartByPart(lines[0], '\n', Join(lines[1..], '\n'), m);
    }
  }

  /** The quoted texts of all lines, in one text. */
  lemma {:induction false} LinesHaveTexts(lines: seq<string>, texts: map<string, string>, after: seq<string>)
    requires |lines| == |after| > 0 && forall i | 0 <= i < |lines| :: TextsRenamedIn(lines[i], texts, after[i])
    ensures TextsRenamedIn(Join(lines, '\n'), texts, Join(after, '\n'))
  {
    hide Wide, RenameNames;
    if |lines| > 1 {
      var rest := Join(lines[1..], '\n');
      LinesHaveTexts(lines[1..], texts, after[1..]);
      TwoTexts(lines[0], rest, texts);
    }
  }

  lemma TwoTexts(a: string, t: string, texts: map<string, string>)
    requires Wide(a) && Wide(t)
    ensures Wide(a + ['\n'] + t)
      && RenameNames(a + ['\n'] + t, texts) == RenameNames(a, texts) + ['\n'] + RenameNames(t, texts)
  {
    hide Wide, RenameNames;
    WideAfter(a, t);
    assert a + ['\n'] + t == a + (['\n'] + t);
    NamesAfter(a, ['\n'] + t, texts);
    NoName(['\n'], texts);
    NamesAfter(['\n'], t, texts);
    assert RenameNames(a, texts) + (['\n'] + RenameNames(t, texts))
      == RenameNames(a, texts) + ['\n'] + RenameNames(t, texts);
  }

  lemma TextsKeepOut(s: string, texts: map<string, string>)
    requires '\n' !in s && NamesTexts(texts)
    ensures '\n' !in RenameNames(s, texts)
  {
    hide Split, Join;
    SplitKeepsOut(s, '\'', '\n');
    JoinKeepsOut(RenameQuoted(Split(s, '\''), texts), '\'', '\n');
  }

  /** Renaming the GUIDs of a drawing. */
  lemma DrawingHasGuids(f: Fabric, items: seq<Item>, text: string, m: map<string, string>)
    requires PlainDrawing(f, items) && Split(text, '\n') == PrintAll(f, items) && GuidsToGuids(m) && Injective(f, m)
    ensures Separated(text)
    ensures
      var r, after := RenameFabric(f, m, map[]), RenameItems(items, m, map[]);
      ValidFabric(r) && Prints(r, after) && Split(RenameGuids(text, m), '\n') == PrintAll(r, after)
  {
    hide PlainFabric, Prints, ValidItem, PlainItem, RenameItem, PrintItem, GuidsToGuids, RenameFabric, Injective,
      Split, Join, Separated, RenameGuids, ValidFabric;
    JoinSplit(text, '\n');
    var r, renamed, lines := RenameFabric(f, m, map[]), RenameItems(items, m, map[]), PrintAll(f, items);
    FabricStaysValid(f, m);
    forall i | 0 <= i < |items|
      ensures ValidItem(r, renamed[i]) && GuidsRenamedIn(lines[i], m, PrintItem(r, renamed[i]))
    {
      ItemHasGuids(f, items[i], m);
    }
    PrintsRenamed(f, items, m, map[]);
    var after := PrintAll(r, renamed);
    assert |lines| > 0;
    LinesHaveGuids(lines, m, after);
    forall i | 0 <= i < |after| ensures '\n' !in after[i] {
      GuidsKeepOut(lines[i], '\n', m);
    }
    SplitJoin(after, '\n');
  }

  ghost predicate ShortLinesArePlain(items: seq<Item>) {
    forall i | 0 <= i < |items| && items[i].ShortLine? :: NoQuote(items[i].line)
  }

  /** Renaming the quoted texts of a drawing. */
  lemma DrawingHasTexts(f: Fabric, items: seq<Item>, text: string, texts: map<string, string>)
    requires ValidFabric(f) && Prints(f, items) && ShortLinesArePlain(items) && NamesTexts(texts)
    requires Split(text, '\n') == PrintAll(f, items)
    ensures Wide(text)
    ensures
      var after := RenameItems(items, map[], texts);
      && (forall i | 0 <= i < |after| :: ValidItem(f, after[i]))
      && Split(RenameNames(text, texts), '\n') == PrintAll(f, after)
  {
    hide ValidItem, RenameItem, PrintItem, Split, Join, Wide, RenameNames, ValidFabric, NamesTexts;
    JoinSplit(text, '\n');
    var renamed, lines := RenameItems(items, map[], texts), PrintAll(f, items);
    forall i | 0 <= i < |items|
      ensures ValidItem(f, renamed[i]) && TextsRenamedIn(lines[i], texts, PrintItem(f, renamed[i]))
    {
      ItemTextsRenamed(f, items[i], texts);
    }
    var after := PrintAll(f, renamed);
    assert |lines| > 0;
    LinesHaveTexts(lines, texts, after);
    forall i | 0 <= i < |after| ensures '\n' !in after[i] {
      TextsKeepOut(lines[i], texts);
    }
    SplitJoin(after, '\n');
  }

  lemma RenamedTwice(items: seq<Item>, m: map<string, string>, texts: map<string, string>)
    ensures RenameItems(RenameItems(items, m, map[]), map[], texts) == RenameItems(items, m, texts)
  {
    forall i | 0 <= i < |items|
      ensures RenameItem(RenameItem(items[i], m, map[]), map[], texts) == RenameItem(items[i], m, texts)
    {
      if items[i].SplitLine? {
        WordsRenamedTwice(items[i].words, m);
      }
    }
  }

  lemma WordsRenamedTwice(words: seq<string>, m: map<string, string>)
    ensures RenameWords(RenameWords(words, m), map[]) == RenameWords(words, m)
  {
  }

  // ---------------------------------------------------------------- what is harvested from a drawing

  /** What the script harvests from a drawing: the texts of its connected, terminated lines of switches and HCAs. */
  ghost predicate HarvestedFrom(f: Fabric, items: seq<Item>, x: string) {
    exists i | 0 <= i < |items| - 1 :: ValidItem(f, items[i]) && GivesText(f, items[i], x)
  }

  lemma SameTexts(f: Fabric, item: Item, m: map<string, string>, x: string)
    requires PlainFabric(f) && Injective(f, m) && ValidItem(f, item)
    requires ValidItem(RenameFabric(f, m, map[]), RenameItem(item, m, map[]))
    ensures GivesText(RenameFabric(f, m, map[]), RenameItem(item, m, map[]), x) <==> GivesText(f, item, x)
  {
    hide PlainFabric, Injective, RenameFabric, ValidLayout, Fields, PlainWord, Trim, NoQuote, Renamed;
    ItemHasNode(f, item);
    NoTextRenamed();
  }

  lemma NoTextRenamed()
    ensures forall x :: Renamed(map[], x) == x
  {
  }

  lemma HarvestOfDrawing(f: Fabric, items: seq<Item>, m: map<string, string>, text: string, x: string)
    requires PlainDrawing(f, items) && Injective(f, m)
    requires
      var r, after := RenameFabric(f, m, map[]), RenameItems(items, m, map[]);
      ValidFabric(r) && Prints(r, after) && Split(text, '\n') == PrintAll(r, after)
    ensures x in Renaming(HarvestLines(ReadLines(text))) <==> HarvestedFrom(f, items, x)
  {
    hide PlainFabric, ValidItem, PlainItem, RenameItem, PrintItem, RenameFabric, Injective, Split, Gives, GivesText,
      ValidFabric, HarvestLines;
    var r, after, lines := RenameFabric(f, m, map[]), RenameItems(items, m, map[]), ReadLines(text);
    HarvestIs(lines, x);
    forall i | 0 <= i < |lines| ensures Gives(lines[i], x) <==> ValidItem(f, items[i]) && GivesText(f, items[i], x) {
      RenamedIsPlain(f, items[i], m);
      ItemGives(r, after[i], x);
      SameTexts(f, items[i], m, x);
    }
  }

  lemma RenamedIsPlain(f: Fabric, item: Item, m: map<string, string>)
    requires ValidItem(f, item) && PlainItem(f, item)
    ensures match RenameItem(item, m, map[])
            case ShortLine(line) => NoQuote(line)
            case SplitLine(_, t, _) => NoParen(t)
            case PortLine(_, _, t, _, _) => NoParen(t)
  {
    hide Bare, GuidsOrBare, NoQuote, NoParen, Trim, Foreign, ValidLayout, Fields, PlainWord;
  }

  lemma {:induction false} GuidsOfLines(lines: seq<string>)
    requires |lines| > 0
    ensures forall i, g | 0 <= i < |lines| && g in Guids(lines[i]) :: g in Guids(Join(lines, '\n'))
    ensures forall g | g in Guids(Join(lines, '\n')) :: exists i | 0 <= i < |lines| :: g in Guids(lines[i])
  {
    hide Guids;
    if |lines| > 1 {
      GuidsOfLines(lines[1..]);
      PartByPart(lines[0], '\n', Join(lines[1..], '\n'), map[]);
    }
  }

}
