/** Names renamed in a printed fabric. */
module AnonymizeLines {
  import opened Text
  import opened TopologyLines
  import opened TopologyRoundTrip
  import opened AnonymizeGuids
  import opened AnonymizeFabric
  import opened AnonymizeNames

  /** The quotes come in pairs; what stands between two pairs is the dash of a connected line, or more than a line. */
  predicate Wide(s: string) {
    var segs := Split(s, '\'');
    |segs| % 2 == 1 && forall i | 0 < i < |segs| - 1 && i % 2 == 0 :: segs[i] == " - " || '\n' in segs[i]
  }

  lemma SplitPair(head: string, x: string, y: string, tail: string)
    requires NoQuote(head) && NoQuote(x) && NoQuote(y) && NoQuote(tail)
    ensures Split(head + PairText(x, y) + tail, '\'') == [head + "( ", x, " - ", y, " )" + tail]
  {
    hide Split;
    var d := " )" + tail;
    SplitSingle(d, '\'');
    SplitCons(y, '\'', d);
    var c := y + ['\''] + d;
    SplitCons(" - ", '\'', c);
    var b := " - " + ['\''] + c;
    SplitCons(x, '\'', b);
    SplitCons(head + "( ", '\'', x + ['\''] + b);
    assert head + PairText(x, y) + tail == head + "( " + ['\''] + (x + ['\''] + b);
  }

  lemma SplitLoose(head: string, x: string, tail: string)
    requires NoQuote(head) && NoQuote(x) && NoQuote(tail)
    ensures Split(head + "'" + x + "'" + tail, '\'') == [head, x, tail]
  {
    hide Split;
    SplitSingle(tail, '\'');
    SplitCons(x, '\'', tail);
    SplitCons(head, '\'', x + ['\''] + tail);
    assert head + "'" + x + "'" + tail == head + ['\''] + (x + ['\''] + tail);
  }

  lemma JoinFive(a: string, x: string, b: string, y: string, c: string)
    ensures Join([a, x, b, y, c], '\'') == a + "'" + x + "'" + b + "'" + y + "'" + c
  {
    var q := "'";
    assert [a, x, b, y, c][1..] == [x, b, y, c];
    assert [x, b, y, c][1..] == [b, y, c];
    JoinThree(b, y, c);
    assert a + q + (x + q + (b + q + y + q + c)) == a + q + x + q + b + q + y + q + c;
  }

  lemma JoinThree(a: string, x: string, b: string)
    ensures Join([a, x, b], '\'') == a + "'" + x + "'" + b
  {
    assert [a, x, b][1..] == [x, b] && [x, b][1..] == [b];
    assert Join([x, b], '\'') == x + ['\''] + b;
    assert a + ['\''] + (x + ['\''] + b) == a + "'" + x + "'" + b;
  }

  /** Both names of a connected line are renamed, and nothing else. */
  lemma PairNames(head: string, x: string, y: string, tail: string, names: map<string, string>)
    requires NoQuote(head) && NoQuote(x) && NoQuote(y) && Blank(tail)
    ensures RenameNames(head + PairText(x, y) + tail, names)
      == head + PairText(Renamed(names, x), Renamed(names, y)) + tail
    ensures Wide(head + PairText(x, y) + tail)
  {
    hide Split, Join, Renamed, NoQuote, Blank;
    BlankNoQuote(tail);
    SplitPair(head, x, y, tail);
    var a, c := head + "( ", " )" + tail;
    var segs := [a, x, " - ", y, c];
    assert RenameQuoted(segs, names) == [a, Renamed(names, x), " - ", Renamed(names, y), c];
    JoinFive(a, Renamed(names, x), " - ", Renamed(names, y), c);
    assert a + "'" + Renamed(names, x) + "'" + " - " + "'" + Renamed(names, y) + "'" + c
      == head + PairText(Renamed(names, x), Renamed(names, y)) + tail;
  }

  lemma BlankNoQuote(tail: string)
    requires Blank(tail)
    ensures NoQuote(tail)
  {
    assert forall i | 0 <= i < |tail| :: IsSpace(tail[i]);
  }

  lemma LooseName(head: string, x: string, tail: string, names: map<string, string>)
    requires NoQuote(head) && NoQuote(x) && Blank(tail)
    ensures RenameNames(head + "'" + x + "'" + tail, names) == head + "'" + Renamed(names, x) + "'" + tail
    ensures Wide(head + "'" + x + "'" + tail)
  {
    hide Split, Join, Renamed, NoQuote, Blank;
    BlankNoQuote(tail);
    SplitLoose(head, x, tail);
    var segs := [head, x, tail];
    assert RenameQuoted(segs, names) == [head, Renamed(names, x), tail];
    JoinThree(head, Renamed(names, x), tail);
  }

  lemma NoName(s: string, names: map<string, string>)
    requires NoQuote(s)
    ensures RenameNames(s, names) == s && Wide(s)
  {
    SplitSingle(s, '\'');
    assert RenameQuoted([s], names) == [s];
  }

  // ---------------------------------------------------------------- line by line

  /** Joining segments when the last of one list meets the first of the next. */
  lemma {:induction false} JoinAfter(x: seq<string>, last: string, first: string, y: seq<string>)
    ensures Join(x + [last + first] + y, '\'') == Join(x + [last], '\'') + Join([first] + y, '\'')
  {
    if x == [] {
      if y == [] {
        assert [] + [last + first] + y == [last + first] && [first] + y == [first];
      } else {
        assert ([last + first] + y)[1..] == y && ([first] + y)[1..] == y;
        assert [] + [last + first] + y == [last + first] + y;
        assert (last + first) + ['\''] + Join(y, '\'') == last + (first + ['\''] + Join(y, '\''));
      }
    } else {
      var all := x + [last + first] + y;
      JoinAfter(x[1..], last, first, y);
      assert all[1..] == x[1..] + [last + first] + y;
      assert (x + [last])[1..] == x[1..] + [last];
      assert x[0] + ['\''] + (Join(x[1..] + [last], '\'') + Join([first] + y, '\''))
        == (x[0] + ['\''] + Join(x[1..] + [last], '\'')) + Join([first] + y, '\'');
    }
  }

  /** Splitting a text after a line: the last segment of the line meets the first of the rest. */
  lemma SplitAfter(a: string, t: string)
    ensures
      var x, y := Split(a, '\''), Split(t, '\'');
      Split(a + t, '\'') == x[..|x| - 1] + [x[|x| - 1] + y[0]] + y[1..]
  {
    hide Split, Join;
    var x, y := Split(a, '\''), Split(t, '\'');
    var n := |x| - 1;
    var all := x[..n] + [x[n] + y[0]] + y[1..];
    JoinSplit(a, '\'');
    JoinSplit(t, '\'');
    JoinAfter(x[..n], x[n], y[0], y[1..]);
    assert x[..n] + [x[n]] == x && [y[0]] + y[1..] == y;
    forall p | p in all ensures '\'' !in p {
      assert p in x[..n] || p == x[n] + y[0] || p in y[1..];
    }
    SplitJoin(all, '\'');
  }

  lemma RenameAfter(x: seq<string>, y: seq<string>, names: map<string, string>)
    requires |x| % 2 == 1 && y != []
    ensures
      var r, s := RenameQuoted(x, names), RenameQuoted(y, names);
      RenameQuoted(x[..|x| - 1] + [x[|x| - 1] + y[0]] + y[1..], names) == r[..|r| - 1] + [r[|r| - 1] + s[0]] + s[1..]
      && r[|r| - 1] == x[|x| - 1] && s[0] == y[0]
  {
    hide Renamed;
    var n := |x| - 1;
    var all := x[..n] + [x[n] + y[0]] + y[1..];
    var r, s := RenameQuoted(x, names), RenameQuoted(y, names);
    var want := r[..n] + [r[n] + s[0]] + s[1..];
    assert |all| == n + |y|;
    forall i | 0 <= i < |all| ensures RenameQuoted(all, names)[i] == want[i] {
      if i < n {
        assert InQuotes(all, i) <==> InQuotes(x, i);
      } else {
        assert InQuotes(all, i) <==> InQuotes(y, i - n);
      }
    }
  }

  /** Names are renamed text by text, after a text whose quotes come in pairs. */
  lemma NamesAfter(a: string, t: string, names: map<string, string>)
    requires Wide(a)
    ensures RenameNames(a + t, names) == RenameNames(a, names) + RenameNames(t, names)
  {
    hide Split, Join, RenameQuoted;
    var x, y := Split(a, '\''), Split(t, '\'');
    SplitAfter(a, t);
    RenameAfter(x, y, names);
    var r, s := RenameQuoted(x, names), RenameQuoted(y, names);
    JoinAfter(r[..|r| - 1], r[|r| - 1], s[0], s[1..]);
    assert r == r[..|r| - 1] + [r[|r| - 1]] && s == [s[0]] + s[1..];
  }

  lemma WideAfter(a: string, t: string)
    requires Wide(a) && Wide(t)
    ensures Wide(a + ['\n'] + t)
  {
    hide Split;
    SplitAfterLine(a, t);
    var x, z := Split(a, '\''), Split(t, '\'');
    var n := |x| - 1;
    var segs := x[..n] + [x[n] + ['\n'] + z[0]] + z[1..];
    forall i | 0 < i < |segs| - 1 && i % 2 == 0 ensures segs[i] == " - " || '\n' in segs[i] {
      if i > n {
        assert segs[i] == z[i - n] && (i - n) % 2 == 0;
      } else if i < n {
        assert segs[i] == x[i];
      }
    }
  }

  /** Splitting a line, a newline and the rest. */
  lemma SplitAfterLine(a: string, t: string)
    ensures
      var x, z := Split(a, '\''), Split(t, '\'');
      Split(a + ['\n'] + t, '\'') == x[..|x| - 1] + [x[|x| - 1] + ['\n'] + z[0]] + z[1..]
  {
    hide Split;
    var x, y, z := Split(a, '\''), Split(['\n'] + t, '\''), Split(t, '\'');
    assert a + ['\n'] + t == a + (['\n'] + t);
    SplitAfter(a, ['\n'] + t);
    SplitAfter(['\n'], t);
    SplitSingle(['\n'], '\'');
    assert y == [['\n'] + z[0]] + z[1..];
    assert x[|x| - 1] + (['\n'] + z[0]) == x[|x| - 1] + ['\n'] + z[0];
  }

  /** Names of one line other than the dash do not stand between two pairs of quotes. */
  lemma WideIsApart(s: string, names: set<string>)
    requires Wide(s) && forall x <- names :: x != " - " && '\n' !in x
    ensures Apart(Split(s, '\''), names)
  {
    hide Split;
  }

  // ---------------------------------------------------------------- names of a printed drawing

  /** The quoted texts of a line are renamed in place, and nothing else. */
  ghost predicate TextsRenamedIn(line: string, texts: map<string, string>, after: string) {
    Wide(line) && RenameNames(line, texts) == after
  }

  /** A renaming of texts to names. */
  ghost predicate NamesTexts(texts: map<string, string>) {
    forall x <- texts :: PlainName(texts[x])
  }

  /** A name as the script generates them. */
  predicate PlainName(name: string) {
    name != "" && NoQuote(name) && NoParen(name) && Trimmed(name) && '\n' !in name
  }

  lemma NameIsTrimmed(name: string)
    requires PlainName(name)
    ensures Trim(name) == name
  {
    hide Trim;
    TrimPadded("", name, "");
    assert "" + name + "" == name;
  }

  lemma RenamedText(texts: map<string, string>, x: string)
    requires NamesTexts(texts) && NoQuote(x)
    ensures NoQuote(Renamed(texts, x)) && (x != "" ==> Renamed(texts, x) != "")
    ensures Trim(x) != "" ==> Trim(Renamed(texts, x)) != ""
    ensures NoParen(x) ==> NoParen(Renamed(texts, x))
  {
    hide Trim;
    if x in texts {
      NameIsTrimmed(texts[x]);
    }
  }

  lemma ItemTextsRenamed(f: Fabric, item: Item, texts: map<string, string>)
    requires ValidFabric(f) && ValidItem(f, item) && NamesTexts(texts) && (item.ShortLine? ==> NoQuote(item.line))
    ensures
      var after := RenameItem(item, map[], texts);
      ValidItem(f, after) && TextsRenamedIn(PrintItem(f, item), texts, PrintItem(f, after))
  {
    hide TextsRenamedIn, NamesTexts, NoQuote, NoParen, Trim, PrintPort, Fields, PlainWord, ValidNode, Blank, LooseText;
    match item
    case ShortLine(line) => ShortTextsRenamed(line, texts);
    case SplitLine(words, text, y) =>
      RenamedText(texts, text);
      NothingRenamed(words);
      SplitTextsRenamed(words, text, y, texts);
    case PortLine(g, p, text, peerText, y) =>
      RenamedText(texts, text);
      if f[g].ports[p].Cabled? {
        RenamedText(texts, peerText);
        CableTextsRenamed(g, f[g], p, text, peerText, y, texts);
      } else {
        LoneTextsRenamed(g, f[g], p, text, peerText, Renamed(texts, peerText), y, texts);
      }
  }

  lemma NothingRenamed(words: seq<string>)
    ensures RenameWords(words, map[]) == words
  {
  }

  lemma CableTextsRenamed(g: string, n: Node, p: string, text: string, peerText: string, y: Layout,
    texts: map<string, string>)
    requires ValidNode(g, n) && p in n.ports && n.ports[p].Cabled? && ValidLayout(y, 11) && NoQuote(text)
    requires NoQuote(peerText)
    ensures TextsRenamedIn(PrintPort(g, n, p, text, peerText, y), texts,
      PrintPort(g, n, p, Renamed(texts, text), Renamed(texts, peerText), y))
  {
    hide RenameNames, Wide, PairText, Spread, NoQuote, NoParen, Blank;
    var words := CableWords(g, n, p, y.dash);
    CableHead(g, n, p, y);
    HeadIsPlain(words, y.gaps);
    PairNames(Spread(words, y.gaps), text, peerText, y.tail, texts);
  }

  lemma LooseTextsRenamed(words: seq<string>, gaps: seq<string>, text: string, tail: string, texts: map<string, string>)
    requires Loose(words, gaps, text, tail)
    ensures TextsRenamedIn(LooseText(words, gaps, text, tail), texts,
      LooseText(words, gaps, Renamed(texts, text), tail))
  {
    hide RenameNames, Wide, Spread, NoQuote, NoParen, Blank;
    HeadIsPlain(words, gaps);
    LooseName(Spread(words, gaps), text, tail, texts);
  }

  lemma SplitTextsRenamed(words: seq<string>, text: string, y: Layout, texts: map<string, string>)
    requires |words| == 6 && (forall i | 0 <= i < |words| :: PlainWord(words[i])) && NoQuote(text) && ValidLayout(y, 6)
    ensures TextsRenamedIn(LooseText(words, y.gaps, text, y.tail), texts,
      LooseText(words, y.gaps, Renamed(texts, text), y.tail))
  {
    hide LooseText, TextsRenamedIn, NoQuote, NoParen, Blank, Word;
    LooseTextsRenamed(words, y.gaps, text, y.tail, texts);
  }

  lemma ShortTextsRenamed(line: string, texts: map<string, string>)
    requires NoQuote(line)
    ensures TextsRenamedIn(line, texts, line)
  {
    hide Wide, RenameNames;
    NoName(line, texts);
  }

  lemma LoneTextsRenamed(g: string, n: Node, p: string, text: string, peerText: string, peerAfter: string, y: Layout,
    texts: map<string, string>)
    requires ValidNode(g, n) && p in n.ports && !n.ports[p].Cabled? && ValidLayout(y, 6) && NoQuote(text)
    ensures TextsRenamedIn(PrintPort(g, n, p, text, peerText, y), texts,
      PrintPort(g, n, p, Renamed(texts, text), peerAfter, y))
  {
    hide LooseText, TextsRenamedIn, NoQuote, NoParen, Blank, Word;
    UnpluggedIsPlain();
    LooseTextsRenamed(LoneWords(g, n, p), y.gaps, text, y.tail, texts);
  }
}
