/** The name substitutions against one simultaneous renaming of the quoted names. */
module AnonymizeNames {
  import opened Text
  import opened Anonymize
  import opened AnonymizeGuids

  predicate NoQuotes(segs: seq<string>) {
    forall i | 0 <= i < |segs| :: NoQuote(segs[i])
  }

  /** The segments between quotes: every second one is quoted, unless its closing quote is missing. */
  predicate InQuotes(segs: seq<string>, i: int) {
    0 < i < |segs| - 1 && i % 2 == 1
  }

  function RenameQuoted(segs: seq<string>, m: map<string, string>): (r: seq<string>)
    ensures |r| == |segs|
  {
    seq(|segs|, i requires 0 <= i < |segs| => if InQuotes(segs, i) then Renamed(m, segs[i]) else segs[i])
  }

  /** Every quoted name renamed at once. */
  function RenameNames(s: string, m: map<string, string>): string {
    Join(RenameQuoted(Split(s, '\''), m), '\'')
  }

  /** None of the names to replace stands between two pairs of quotes. */
  predicate Apart(segs: seq<string>, names: set<string>) {
    forall i | 0 < i < |segs| - 1 && !InQuotes(segs, i) :: segs[i] !in names
  }

  // ---------------------------------------------------------------- one substitution

  lemma {:induction false} NoQuoteNoMatch(s: string, src: string, dst: string)
    requires NoQuote(s)
    ensures ReplaceAll(s, Quoted(src), dst) == s
  {
    if s != "" {
      NoQuoteNoMatch(s[1..], src, dst);
      if |s| >= |Quoted(src)| {
        assert s[..|Quoted(src)|][0] == s[0] && Quoted(src)[0] == '\'';
      }
    }
  }

  lemma {:induction false} SkipPlain(a: string, t: string, src: string, dst: string)
    requires NoQuote(a)
    ensures ReplaceAll(a + t, Quoted(src), dst) == a + ReplaceAll(t, Quoted(src), dst)
  {
    var s := a + t;
    if a == "" {
      assert s == t;
    } else {
      SkipPlain(a[1..], t, src, dst);
      assert s[1..] == a[1..] + t;
      if |s| >= |Quoted(src)| {
        assert s[..|Quoted(src)|][0] == a[0] && Quoted(src)[0] == '\'';
      } else {
        assert |a[1..] + t| < |Quoted(src)|;
        assert |t| < |Quoted(src)|;
      }
    }
  }

  /** A quote that opens something else than the source is kept. */
  lemma SkipQuote(t: string, src: string, dst: string)
    requires !HasPrefix("'" + t, Quoted(src))
    ensures ReplaceAll("'" + t, Quoted(src), dst) == "'" + ReplaceAll(t, Quoted(src), dst)
  {
    assert ("'" + t)[1..] == t;
  }

  lemma OpensSource(a: string, t: string, src: string)
    requires NoQuote(a) && NoQuote(src)
    ensures HasPrefix("'" + a + "'" + t, Quoted(src)) <==> a == src
  {
    var s := "'" + a + "'" + t;
    var q := Quoted(src);
    assert s[|a| + 1] == '\'' && q[|src| + 1] == '\'';
    assert forall i | 0 < i <= |a| :: s[i] == a[i - 1];
    assert forall i | 0 < i <= |src| :: q[i] == src[i - 1];
    assert s == Quoted(a) + t;
    if HasPrefix(s, q) {
      assert forall i | 0 <= i < |q| :: s[i] == q[i];
      assert |a| == |src|;
      forall i | 0 <= i < |a| ensures a[i] == src[i] {
        assert s[i + 1] == q[i + 1];
      }
    }
  }

  lemma OpensNothing(a: string, src: string)
    requires NoQuote(a)
    ensures !HasPrefix("'" + a, Quoted(src))
  {
    var s := "'" + a;
    assert Quoted(src)[|src| + 1] == '\'';
    assert forall i | 0 < i < |s| :: s[i] == a[i - 1];
  }

  lemma JoinTwo(segs: seq<string>)
    requires |segs| >= 2
    ensures Join(segs, '\'') == segs[0] + ("'" + Join(segs[1..], '\''))
  {
  }

  /** sed renames exactly the quoted names that are the source. */
  lemma {:induction false} ReplaceIsRenameQuoted(segs: seq<string>, src: string, dst: string)
    requires segs != [] && NoQuotes(segs) && NoQuote(src) && Apart(segs, {src})
    ensures ReplaceAll(Join(segs, '\''), Quoted(src), Quoted(dst)) == Join(RenameQuoted(segs, map[src := dst]), '\'')
    decreases |segs|
  {
    hide ReplaceAll, Quoted, HasPrefix;
    var m := map[src := dst];
    if |segs| == 1 {
      NoQuoteNoMatch(segs[0], src, Quoted(dst));
      assert RenameQuoted(segs, m) == segs;
    } else if |segs| == 2 {
      JoinTwo(segs);
      SkipPlain(segs[0], "'" + segs[1], src, Quoted(dst));
      OpensNothing(segs[1], src);
      SkipQuote(segs[1], src, Quoted(dst));
      NoQuoteNoMatch(segs[1], src, Quoted(dst));
      assert RenameQuoted(segs, m) == segs;
    } else {
      PairOfSegments(segs, src, dst);
      ReplaceIsRenameQuoted(segs[2..], src, dst);
      JoinRenamed(segs, m);
    }
  }

  lemma JoinRenamed(segs: seq<string>, m: map<string, string>)
    requires |segs| >= 3
    ensures Join(RenameQuoted(segs, m), '\'') ==
      segs[0] + ("'" + (Renamed(m, segs[1]) + ("'" + Join(RenameQuoted(segs[2..], m), '\''))))
  {
    hide Renamed, Join;
    var r := RenameQuoted(segs, m);
    var rest := RenameQuoted(segs[2..], m);
    assert r[2..] == rest by {
      forall i | 0 <= i < |rest| ensures r[2..][i] == rest[i] {
        assert InQuotes(segs, i + 2) <==> InQuotes(segs[2..], i);
      }
    }
    assert r[1..][1..] == rest;
    JoinTwo(r);
    JoinTwo(r[1..]);
  }

  /** A quoted name that is not the source, and the quote that closes it. */
  lemma KeepsOther(name: string, rest: string, src: string, dst: string)
    requires NoQuote(name) && NoQuote(src) && name != src && !HasPrefix("'" + rest, Quoted(src))
    ensures ReplaceAll("'" + (name + ("'" + rest)), Quoted(src), dst)
      == "'" + (name + ("'" + ReplaceAll(rest, Quoted(src), dst)))
  {
    hide ReplaceAll, Quoted, HasPrefix, NoQuote;
    OpensSource(name, rest, src);
    assert "'" + name + "'" + rest == "'" + (name + ("'" + rest));
    SkipQuote(name + ("'" + rest), src, dst);
    SkipPlain(name, "'" + rest, src, dst);
    SkipQuote(rest, src, dst);
  }

  /** What follows a quoted name does not open the source. */
  lemma RestOpensNothing(segs: seq<string>, src: string)
    requires segs != [] && NoQuotes(segs) && NoQuote(src) && (|segs| > 1 ==> segs[0] != src)
    ensures !HasPrefix("'" + Join(segs, '\''), Quoted(src))
  {
    hide Quoted, HasPrefix, NoQuote;
    if |segs| == 1 {
      OpensNothing(segs[0], src);
    } else {
      JoinTwo(segs);
      var rest := Join(segs[1..], '\'');
      OpensSource(segs[0], rest, src);
      assert "'" + segs[0] + "'" + rest == "'" + (segs[0] + ("'" + rest));
    }
  }

  /** A segment, a quoted name, and what follows. */
  lemma PairOfSegments(segs: seq<string>, src: string, dst: string)
    requires |segs| >= 3 && NoQuotes(segs) && NoQuote(src) && (|segs| > 3 ==> segs[2] != src)
    ensures ReplaceAll(Join(segs, '\''), Quoted(src), Quoted(dst)) ==
      segs[0]
        + ("'" +
          (Renamed(map[src := dst], segs[1]) + ("'" + ReplaceAll(Join(segs[2..], '\''), Quoted(src), Quoted(dst)))))
  {
    hide ReplaceAll, Quoted, HasPrefix, NoQuote;
    var rest := Join(segs[2..], '\'');
    JoinTwo(segs);
    JoinTwo(segs[1..]);
    assert segs[1..][1..] == segs[2..];
    SkipPlain(segs[0], "'" + (segs[1] + ("'" + rest)), src, Quoted(dst));
    if segs[1] == src {
      TakeSource(rest, src, dst);
    } else {
      RestOpensNothing(segs[2..], src);
      KeepsOther(segs[1], rest, src, Quoted(dst));
    }
  }

  lemma TakeSource(rest: string, src: string, dst: string)
    ensures ReplaceAll("'" + (src + ("'" + rest)), Quoted(src), Quoted(dst)) ==
      "'" + (dst + ("'" + ReplaceAll(rest, Quoted(src), Quoted(dst))))
  {
    var s := "'" + (src + ("'" + rest));
    assert s == Quoted(src) + rest;
    assert s[..|Quoted(src)|] == Quoted(src) && s[|Quoted(src)|..] == rest;
  }

  // ---------------------------------------------------------------- all substitutions

  lemma RenameQuotedTwice(segs: seq<string>, f: map<string, string>, g: map<string, string>)
    ensures RenameQuoted(RenameQuoted(segs, f), g) == RenameQuoted(segs, Then(f, g))
  {
    hide Renamed;
    var once := RenameQuoted(segs, f);
    forall i | 0 <= i < |segs| ensures RenameQuoted(once, g)[i] == RenameQuoted(segs, Then(f, g))[i] {
      assert InQuotes(once, i) <==> InQuotes(segs, i);
      ThenRenames(f, g, segs[i]);
    }
  }

  lemma ThenRenames(f: map<string, string>, g: map<string, string>, x: string)
    ensures Renamed(Then(f, g), x) == Renamed(g, Renamed(f, x))
  {
  }

  lemma RenameKeepsNoQuotes(segs: seq<string>, m: map<string, string>)
    requires NoQuotes(segs) && forall x <- m :: NoQuote(m[x])
    ensures NoQuotes(RenameQuoted(segs, m))
  {
    hide NoQuote;
  }

  lemma RenameQuotedNothing(segs: seq<string>, m: map<string, string>)
    requires m == map[]
    ensures RenameQuoted(segs, m) == segs
  {
  }

  ghost predicate NamesToNames(m: map<string, string>) {
    forall x <- m :: NoQuote(x) && NoQuote(m[x])
  }

  lemma {:induction false} ChainedNames(order: seq<string>, m: map<string, string>, x: string)
    requires (forall i | 0 <= i < |order| :: order[i] in m) && NamesToNames(m) && NoQuote(x)
    ensures NoQuote(Chained(order, m, x))
  {
    hide NoQuote;
    if order != [] {
      ChainedNames(order[..|order| - 1], m, x);
    }
  }

  lemma {:induction false} NamesInTurnIsComposite(segs: seq<string>, order: seq<string>, m: map<string, string>)
    requires (forall i | 0 <= i < |order| :: order[i] in m) && NamesToNames(m)
    requires segs != [] && NoQuotes(segs) && Apart(segs, m.Keys)
    ensures forall x <- Composite(order, m) :: NoQuote(Composite(order, m)[x])
    ensures NamesInTurn(Join(segs, '\''), order, m) == Join(RenameQuoted(segs, Composite(order, m)), '\'')
  {
    hide ReplaceAll, RenameQuoted, Apart, NoQuote, Join;
    if order == [] {
      RenameQuotedNothing(segs, Composite(order, m));
    } else {
      var n := |order| - 1;
      NamesInTurnIsComposite(segs, order[..n], m);
      forall x | x in order ensures NoQuote(Chained(order, m, x)) {
        ChainedNames(order, m, x);
      }
      var c, one := Composite(order[..n], m), map[order[n] := m[order[n]]];
      var renamed := RenameQuoted(segs, c);
      RenameKeepsNoQuotes(segs, c);
      StillApart(segs, c, m.Keys, order[n]);
      ReplaceIsRenameQuoted(renamed, order[n], m[order[n]]);
      RenameQuotedTwice(segs, c, one);
      CompositeSnoc(order, m);
    }
  }

  lemma StillApart(segs: seq<string>, c: map<string, string>, names: set<string>, src: string)
    requires Apart(segs, names) && src in names
    ensures Apart(RenameQuoted(segs, c), {src})
  {
    var r := RenameQuoted(segs, c);
    assert forall i | 0 < i < |r| - 1 && !InQuotes(r, i) :: !InQuotes(segs, i) && r[i] == segs[i];
  }

  // ---------------------------------------------------------------- both tables

  /** The two tables rename without collision: nothing generated is a source that is replaced later. */
  ghost predicate NoCollision(sw: map<string, string>, hca: map<string, string>) {
    && NamesToNames(sw) && NamesToNames(hca)
    && NoChain(sw) && NoChain(hca)
    && (forall x <- sw :: sw[x] !in hca)
  }

  lemma CompositeIsMap(order: seq<string>, m: map<string, string>)
    requires IsOrder(order, m) && NoChain(m)
    ensures forall i | 0 <= i < |order| :: order[i] in m
    ensures Composite(order, m) == m
  {
    assert forall i | 0 <= i < |order| :: order[i] in order;
    forall x | x in order ensures Chained(order, m, x) == m[x] {
      ChainedIsRenamed(order, m, x);
    }
  }

  lemma ThenOfDisjoint(sw: map<string, string>, hca: map<string, string>)
    requires forall x <- sw :: sw[x] !in hca
    ensures Then(sw, hca) == hca + sw
  {
    assert (hca + sw).Keys == sw.Keys + hca.Keys;
  }

  /**
   * Substituting the switch names and then the HCA names, each in any order, renames every quoted name of the text
   * at once, when no generated name is a source and none of the sources stands between two pairs of quotes.
   */
  lemma NamesAreSimultaneous(s: string, sw: map<string, string>, swOrder: seq<string>, hca: map<string, string>,
    hcaOrder: seq<string>)
    requires NoCollision(sw, hca) && IsOrder(swOrder, sw) && IsOrder(hcaOrder, hca)
    requires Apart(Split(s, '\''), sw.Keys + hca.Keys)
    ensures forall i | 0 <= i < |swOrder| :: swOrder[i] in sw
    ensures forall i | 0 <= i < |hcaOrder| :: hcaOrder[i] in hca
    ensures NamesInTurn(NamesInTurn(s, swOrder, sw), hcaOrder, hca) == RenameNames(s, hca + sw)
  {
    hide NamesInTurn, RenameQuoted, Split, Join, IsOrder, NoChain, NamesToNames;
    var segs := Split(s, '\'');
    SplitHasNoQuotes(s);
    CompositeIsMap(swOrder, sw);
    CompositeIsMap(hcaOrder, hca);
    NamesInTurnIsComposite(segs, swOrder, sw);
    var renamed := RenameQuoted(segs, sw);
    RenamedSegments(segs, sw, hca.Keys);
    NamesInTurnIsComposite(renamed, hcaOrder, hca);
    RenameQuotedTwice(segs, sw, hca);
    ThenOfDisjoint(sw, hca);
  }

  lemma RenamedSegments(segs: seq<string>, sw: map<string, string>, names: set<string>)
    requires NoQuotes(segs) && NamesToNames(sw) && Apart(segs, sw.Keys + names)
    ensures NoQuotes(RenameQuoted(segs, sw)) && Apart(RenameQuoted(segs, sw), names) && Apart(segs, sw.Keys)
  {
    hide NoQuote;
    RenameKeepsNoQuotes(segs, sw);
    var r := RenameQuoted(segs, sw);
    assert forall i | 0 < i < |r| - 1 && !InQuotes(r, i) :: !InQuotes(segs, i) && r[i] == segs[i];
  }

  lemma SplitHasNoQuotes(s: string)
    ensures NoQuotes(Split(s, '\'')) && Join(Split(s, '\''), '\'') == s
  {
    hide Split, Join;
    JoinSplit(s, '\'');
    assert forall i | 0 <= i < |Split(s, '\'')| :: NoQuote(Split(s, '\'')[i]);
  }
}
