/** The names the script harvests, and what it generates for them. */
module AnonymizeHarvest {
  import opened Text
  import opened Numbers
  import opened Anonymize
  import opened AnonymizeFabric
  import opened AnonymizeNames
  import opened AnonymizeLines

  /** What the pattern can match between two quotes. */
  predicate Source(x: string) {
    x != "" && NoQuote(x)
  }

  lemma TwoDigitsDiffer(a: nat, b: nat)
    requires TwoDigits(a) == TwoDigits(b)
    ensures a == b
  {
    hide Dec;
    TwoDigitsValue(a);
    TwoDigitsValue(b);
  }

  lemma TwoDigitsValue(n: nat)
    ensures AllDigits(TwoDigits(n)) && DigitsValue(TwoDigits(n)) == n
  {
    if n < 10 {
      var d := Dec(n);
      assert d == [DigitChar(n)];
      assert ("0" + d)[..1] == "0" && "0"[..0] == "";
    }
  }

  lemma GeneratedNames(n: nat)
    ensures HasPrefix(SwitchName(n), "sw-") && HasPrefix(HcaName(n), "hca-")
    ensures SwitchName(n)[3..] == TwoDigits(n) && HcaName(n)[4..] == TwoDigits(n)
    ensures PlainName(SwitchName(n)) && PlainName(HcaName(n))
  {
    hide TwoDigits;
    TwoDigitsValue(n);
  }

  /** The tables so far: each source has its own number. */
  ghost predicate Harvested(h: Harvest) {
    && (forall x <- h.sw :: Source(x) && exists n | 1 <= n <= h.switches :: h.sw[x] == SwitchName(n))
    && (forall x <- h.hca :: Source(x) && exists n | 1 <= n <= h.hcas :: h.hca[x] == HcaName(n))
    && (forall x, y | x in h.sw && y in h.sw && h.sw[x] == h.sw[y] :: x == y)
    && (forall x, y | x in h.hca && y in h.hca && h.hca[x] == h.hca[y] :: x == y)
  }

  lemma AddSwitchKeeps(h: Harvest, name: string)
    requires Harvested(h) && Source(name)
    ensures Harvested(AddSwitch(h, name))
  {
    hide Source, SwitchName, HcaName;
    var next := h.switches + 1;
    forall x | x in h.sw ensures h.sw[x] != SwitchName(next) {
      var n :| 1 <= n <= h.switches && h.sw[x] == SwitchName(n);
      SwitchNamesDiffer(n, next);
    }
  }

  lemma SwitchNamesDiffer(a: nat, b: nat)
    ensures SwitchName(a) == SwitchName(b) ==> a == b
    ensures HcaName(a) == HcaName(b) ==> a == b
  {
    hide TwoDigits, SwitchName, HcaName;
    GeneratedNames(a);
    GeneratedNames(b);
    if TwoDigits(a) == TwoDigits(b) {
      TwoDigitsDiffer(a, b);
    }
  }

  lemma AddHcaKeeps(h: Harvest, name: string)
    requires Harvested(h) && Source(name)
    ensures Harvested(AddHca(h, name))
  {
    hide Source, SwitchName, HcaName;
    var next := h.hcas + 1;
    forall x | x in h.hca ensures h.hca[x] != HcaName(next) {
      var n :| 1 <= n <= h.hcas && h.hca[x] == HcaName(n);
      SwitchNamesDiffer(n, next);
    }
  }

  lemma {:induction false} MatchedAreSources(line: string)
    ensures MatchPair(line).Some? ==> Source(MatchPair(line).value.left) && Source(MatchPair(line).value.right)
  {
    hide Past;
    if line != "" {
      MatchedAreSources(line[1..]);
    }
  }

  lemma {:induction false} LinesHarvested(lines: seq<string>)
    ensures Harvested(HarvestLines(lines))
  {
    hide Source, SwitchName, HcaName, MatchPair, LooksLikeHca, FirstToken, Harvested, AddSwitch, AddHca;
    if lines == [] {
      NothingHarvested();
    } else {
      var h := HarvestLines(lines[..|lines| - 1]);
      var line := lines[|lines| - 1];
      LinesHarvested(lines[..|lines| - 1]);
      MatchedAreSources(line);
      if MatchPair(line).Some? {
        var p := MatchPair(line).value;
        AddSwitchKeeps(h, p.left);
        AddHcaKeeps(h, p.left);
        AddHcaKeeps(AddSwitch(h, p.left), p.right);
        AddSwitchKeeps(AddSwitch(h, p.left), p.right);
        AddSwitchKeeps(AddHca(h, p.left), p.right);
      }
    }
  }

  lemma NothingHarvested()
    ensures Harvested(NO_NAMES)
  {
  }

  lemma {:induction false} HarvestGrows(lines: seq<string>, n: nat)
    requires n <= |lines|
    ensures HarvestLines(lines[..n]).sw.Keys <= HarvestLines(lines).sw.Keys
    ensures HarvestLines(lines[..n]).hca.Keys <= HarvestLines(lines).hca.Keys
    decreases |lines|
  {
    hide SwitchName, HcaName, MatchPair, LooksLikeHca, FirstToken;
    if n < |lines| {
      var front := lines[..|lines| - 1];
      assert front[..n] == lines[..n];
      HarvestGrows(front, n);
    } else {
      assert lines[..n] == lines;
    }
  }

  lemma {:induction false} LooksLikeHcaIff(s: string)
    ensures LooksLikeHca(s) <==> exists i | 0 <= i < |s| :: HcaHere(s[i..])
  {
    hide HcaHere;
    if s != "" {
      LooksLikeHcaIff(s[1..]);
      assert s[0..] == s;
      assert forall i | 0 <= i < |s[1..]| :: s[1..][i..] == s[i + 1..];
      assert forall i | 0 < i < |s| :: s[i..] == s[1..][i - 1..];
    }
  }

  /** Both names of every connected line of a switch or HCA are harvested, each into the table of its kind. */
  lemma HarvestCovers(lines: seq<string>, i: nat)
    requires i < |lines| && MatchPair(lines[i]).Some? && (FirstToken(lines[i]) == "CA" || FirstToken(lines[i]) == "SW")
    ensures
      var h, p := HarvestLines(lines), MatchPair(lines[i]).value;
      if FirstToken(lines[i]) == "CA" then p.left in h.hca && p.right in h.sw
      else p.left in h.sw && (if LooksLikeHca(p.right) then p.right in h.hca else p.right in h.sw)
  {
    hide SwitchName, HcaName, MatchPair, LooksLikeHca, FirstToken;
    HarvestGrows(lines, i + 1);
    assert lines[..i + 1][..i] == lines[..i];
  }

  /** The line is a connected one of a switch or HCA, and this is one of its two names. */
  predicate Gives(line: string, x: string) {
    && MatchPair(line).Some? && (FirstToken(line) == "CA" || FirstToken(line) == "SW")
    && (x == MatchPair(line).value.left || x == MatchPair(line).value.right)
  }

  function Sources(h: Harvest): set<string> {
    h.sw.Keys + h.hca.Keys
  }

  lemma AddKeeps(h: Harvest, name: string)
    ensures Sources(AddSwitch(h, name)) == Sources(h) + {name} == Sources(AddHca(h, name))
  {
    hide SwitchName, HcaName;
  }

  lemma LineAdds(h: Harvest, line: string, x: string)
    ensures x in Sources(HarvestLine(h, line)) <==> x in Sources(h) || Gives(line, x)
  {
    hide AddSwitch, AddHca, MatchPair, LooksLikeHca, FirstToken, Sources;
    if MatchPair(line).Some? {
      var p := MatchPair(line).value;
      AddKeeps(h, p.left);
      AddKeeps(AddSwitch(h, p.left), p.right);
      AddKeeps(AddHca(h, p.left), p.right);
    }
  }

  /** What is harvested: the names of the connected lines of switches and HCAs, and nothing else. */
  lemma {:induction false} HarvestIs(lines: seq<string>, x: string)
    ensures x in Sources(HarvestLines(lines)) <==>
      exists i | 0 <= i < |lines| :: Gives(lines[i], x)
  {
    hide HarvestLine, Gives;
    if lines != [] {
      var n := |lines| - 1;
      var front := lines[..n];
      HarvestIs(front, x);
      LineAdds(HarvestLines(front), lines[n], x);
      assert forall i | 0 <= i < n :: front[i] == lines[i];
    }
  }

  /** The renaming of both tables at once. */
  function Renaming(h: Harvest): map<string, string> {
    h.hca + h.sw
  }

  /** No two texts take the same name. */
  ghost predicate OneToOne(m: map<string, string>) {
    forall x, y | x in m && y in m && m[x] == m[y] :: x == y
  }

  lemma RenamingIs(h: Harvest, x: string)
    requires Harvested(h) && x in Renaming(h)
    ensures !Foreign(Renaming(h)[x]) && PlainName(Renaming(h)[x])
  {
    hide PlainName, SwitchName, HcaName, Source;
    if x in h.sw {
      var n :| 1 <= n <= h.switches && h.sw[x] == SwitchName(n);
      GeneratedNames(n);
    } else {
      var n :| 1 <= n <= h.hcas && h.hca[x] == HcaName(n);
      GeneratedNames(n);
    }
  }

  /** If no source looks generated, the tables rename without collision, two different texts never to the same name. */
  lemma ForeignNamesDoNotCollide(h: Harvest)
    requires Harvested(h) && forall x <- h.sw.Keys + h.hca.Keys :: Foreign(x)
    ensures NoCollision(h.sw, h.hca) && NamesTexts(Renaming(h))
    ensures OneToOne(Renaming(h))
  {
    hide PlainName, NoQuote, HasPrefix, Foreign, Harvested, Source;
    GeneratedTables(h);
    PlainNamesHaveNoQuote();
    TablesDiffer(h);
    forall x | x in h.sw ensures h.sw[x] !in h.sw && h.sw[x] !in h.hca {
      assert !Foreign(h.sw[x]);
    }
    forall x | x in h.hca ensures h.hca[x] !in h.hca {
      assert !Foreign(h.hca[x]);
    }
  }

  lemma GeneratedTables(h: Harvest)
    requires Harvested(h)
    ensures forall x <- h.sw :: NoQuote(x) && HasPrefix(h.sw[x], "sw-") && !Foreign(h.sw[x]) && PlainName(h.sw[x])
    ensures forall x <- h.hca :: NoQuote(x) && HasPrefix(h.hca[x], "hca-") && !Foreign(h.hca[x]) && PlainName(h.hca[x])
  {
    hide PlainName, SwitchName, HcaName, NoQuote;
    forall x | x in h.sw ensures HasPrefix(h.sw[x], "sw-") && PlainName(h.sw[x]) {
      var n :| 1 <= n <= h.switches && h.sw[x] == SwitchName(n);
      GeneratedNames(n);
    }
    forall x | x in h.hca ensures HasPrefix(h.hca[x], "hca-") && PlainName(h.hca[x]) {
      var n :| 1 <= n <= h.hcas && h.hca[x] == HcaName(n);
      GeneratedNames(n);
    }
  }

  lemma TablesDiffer(h: Harvest)
    requires Harvested(h)
    ensures OneToOne(Renaming(h))
  {
    hide PlainName, SwitchName, HcaName, NoQuote, HasPrefix, Source;
    GeneratedTables(h);
    PrefixesDiffer();
  }

  lemma PlainNamesHaveNoQuote()
    ensures forall x :: PlainName(x) ==> NoQuote(x)
  {
    hide NoQuote;
  }

  lemma PrefixesDiffer()
    ensures forall s: string :: !(HasPrefix(s, "sw-") && HasPrefix(s, "hca-"))
  {
    forall s: string ensures !(HasPrefix(s, "sw-") && HasPrefix(s, "hca-")) {
      assert HasPrefix(s, "sw-") ==> |s| > 0 && s[0] == 's';
      assert HasPrefix(s, "hca-") ==> |s| > 0 && s[0] == 'h';
    }
  }
}
