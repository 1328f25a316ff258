/** The GUID substitutions, in any order, against one simultaneous renaming. */
module AnonymizeGuids {
  import opened Text
  import opened Anonymize

  /** A renaming; what is not in the map keeps its name. */
  function Renamed(m: map<string, string>, x: string): string {
    if x in m then m[x] else x
  }

  /** Every GUID of the text renamed at once. */
  function RenameGuids(s: string, m: map<string, string>): string
    decreases |s|
  {
    if s == "" then ""
    else if GuidFirst(s) then Renamed(m, s[..18]) + RenameGuids(s[18..], m)
    else [s[0]] + RenameGuids(s[1..], m)
  }

  ghost predicate GuidsToGuids(m: map<string, string>) {
    forall g <- m :: IsGuid(g) && IsGuid(m[g])
  }

  /** No GUID of the text runs into an `x`, as white space around GUIDs ensures. */
  predicate Separated(s: string)
    decreases |s|
  {
    s == "" || (if GuidFirst(s) then (|s| > 18 ==> s[18] != 'x') && Separated(s[18..]) else Separated(s[1..]))
  }

  lemma {:induction false} RenameUpTo(s: string, n: nat, m: map<string, string>)
    requires n <= |s| && forall j | 0 <= j < n :: !GuidFirst(s[j..])
    ensures RenameGuids(s, m) == s[..n] + RenameGuids(s[n..], m)
  {
    if n == 0 {
      assert s[0..] == s;
    } else {
      assert s[0..] == s;
      forall j | 0 <= j < n - 1 ensures !GuidFirst(s[1..][j..]) {
        assert s[1..][j..] == s[j + 1..];
      }
      RenameUpTo(s[1..], n - 1, m);
      assert s[1..][n - 1..] == s[n..];
    }
  }

  lemma {:induction false} RenameKeepsLength(s: string, m: map<string, string>)
    requires GuidsToGuids(m)
    ensures |RenameGuids(s, m)| == |s|
    decreases |s|
  {
    if s != "" {
      if GuidFirst(s) {
        RenameKeepsLength(s[18..], m);
      } else {
        RenameKeepsLength(s[1..], m);
      }
    }
  }

  lemma {:induction false} FirstGuid(s: string, n: nat) returns (k: nat)
    requires n <= |s|
    ensures k <= n && forall j | 0 <= j < k :: !GuidFirst(s[j..])
    ensures k < n ==> GuidFirst(s[k..])
  {
    hide GuidFirst;
    k := 0;
    while k < n && !GuidFirst(s[k..])
      invariant k <= n && forall j | 0 <= j < k :: !GuidFirst(s[j..])
    {
      k := k + 1;
    }
  }

  /** A renaming of GUIDs to GUIDs neither makes nor breaks a GUID at the front. */
  lemma RenameKeepsFront(s: string, m: map<string, string>)
    requires GuidsToGuids(m)
    ensures GuidFirst(RenameGuids(s, m)) <==> GuidFirst(s)
    ensures s != "" ==> (RenameGuids(s, m)[0] == s[0])
  {
    var u := RenameGuids(s, m);
    RenameKeepsLength(s, m);
    if |s| >= 18 && !GuidFirst(s) {
      var k := FirstGuid(s, 18);
      assert s[0..] == s;
      RenameUpTo(s, k, m);
      assert u[..k] == s[..k];
      if k < 18 {
        var r := Renamed(m, s[k..][..18]);
        assert IsGuid(r) && RenameGuids(s[k..], m)[..18] == r;
        assert u[k] == '0' && u[k + 1] == 'x' by {
          assert u[k..] == RenameGuids(s[k..], m);
        }
        FrontStaysPut(s, u, k);
      } else {
        assert s[..18] == u[..18];
      }
    }
  }

  lemma FrontStaysPut(s: string, u: string, k: nat)
    requires |s| == |u| && 1 <= k < 18 && k + 1 < |s| && |s| >= 18 && u[..k] == s[..k] && u[k] == '0' && u[k + 1] == 'x'
    requires GuidFirst(s[k..]) && !GuidFirst(s)
    ensures !GuidFirst(u)
  {
    GuidChars(s[k..]);
    if k == 17 {
      assert s[..18] == s[..17] + [s[17]];
      assert u[..18] == u[..17] + [u[17]];
      assert s[..18] == u[..18];
    } else if GuidFirst(u) {
      GuidChars(u);
    }
  }

  lemma GuidChars(s: string)
    requires GuidFirst(s)
    ensures s[0] == '0' && s[1] == 'x' && forall i | 2 <= i < 18 :: IsHex(s[i])
  {
    assert forall i | 0 <= i < 18 :: s[..18][i] == s[i];
  }

  /** The composition of two renamings. */
  function Then(f: map<string, string>, g: map<string, string>): map<string, string> {
    map x | x in f.Keys + g.Keys :: Renamed(g, Renamed(f, x))
  }

  lemma {:induction false} RenameTwice(s: string, f: map<string, string>, g: map<string, string>)
    requires GuidsToGuids(f) && GuidsToGuids(g)
    ensures RenameGuids(RenameGuids(s, f), g) == RenameGuids(s, Then(f, g))
    decreases |s|
  {
    if s != "" {
      RenameKeepsFront(s, f);
      var u := RenameGuids(s, f);
      if GuidFirst(s) {
        var x := s[..18];
        RenameTwice(s[18..], f, g);
        assert u[..18] == Renamed(f, x) && u[18..] == RenameGuids(s[18..], f);
        assert Renamed(Then(f, g), x) == Renamed(g, Renamed(f, x));
      } else {
        RenameTwice(s[1..], f, g);
        assert u[1..] == RenameGuids(s[1..], f);
      }
    }
  }

  lemma {:induction false} RenameKeepsSeparated(s: string, m: map<string, string>)
    requires GuidsToGuids(m) && Separated(s)
    ensures Separated(RenameGuids(s, m))
    decreases |s|
  {
    if s != "" {
      RenameKeepsFront(s, m);
      var u := RenameGuids(s, m);
      if GuidFirst(s) {
        RenameKeepsSeparated(s[18..], m);
        RenameKeepsFront(s[18..], m);
        RenameKeepsLength(s[18..], m);
        assert u[18..] == RenameGuids(s[18..], m);
      } else {
        RenameKeepsSeparated(s[1..], m);
        assert u[1..] == RenameGuids(s[1..], m);
      }
    }
  }

  // ---------------------------------------------------------------- one substitution

  /** Where nothing matches, nothing changes. */
  lemma {:induction false} SkipTo(s: string, src: string, dst: string, n: nat)
    requires src != "" && n <= |s|
    requires forall j: nat | j < n :: !OccursAt(s, src, j)
    ensures ReplaceAll(s, src, dst) == s[..n] + ReplaceAll(s[n..], src, dst)
  {
    hide OccursAt;
    if n == 0 {
      assert s[0..] == s;
    } else {
      OccursFirst(s, src);
      assert !OccursAt(s, src, 0);
      forall j: nat | j < n - 1 ensures !OccursAt(s[1..], src, j) {
        OccursLater(s, src, j);
      }
      SkipTo(s[1..], src, dst, n - 1);
      assert s[1..][n - 1..] == s[n..];
      ShortIsKept(s, src, dst, n);
    }
  }

  lemma OccursFirst(s: string, src: string)
    ensures OccursAt(s, src, 0) <==> |s| >= |src| && s[..|src|] == src
  {
    assert |s| >= |src| ==> s[0..0 + |src|] == s[..|src|];
  }

  lemma OccursLater(s: string, src: string, j: nat)
    requires s != ""
    ensures OccursAt(s[1..], src, j) <==> OccursAt(s, src, j + 1)
  {
    assert j + 1 + |src| <= |s| ==> s[1..][j..j + |src|] == s[j + 1..j + 1 + |src|];
  }

  lemma ShortIsKept(s: string, src: string, dst: string, n: nat)
    requires src != "" && n <= |s|
    ensures |s| < |src| ==> ReplaceAll(s, src, dst) == s && ReplaceAll(s[n..], src, dst) == s[n..]
  {
  }

  /** Nothing matches inside a GUID that is not the source. */
  lemma NoneInside(s: string, src: string, j: nat)
    requires IsGuid(src) && GuidFirst(s) && (|s| > 18 ==> s[18] != 'x') && 1 <= j < 18
    ensures !OccursAt(s, src, j)
  {
    GuidChars(s);
    if OccursAt(s, src, j) {
      SourceChar(s, src, j);
    }
  }

  lemma SourceChar(s: string, src: string, j: nat)
    requires IsGuid(src) && OccursAt(s, src, j)
    ensures s[j + 1] == 'x'
  {
    assert s[j..j + |src|][1] == s[j + 1];
  }

  /** On a separated text, sed renames exactly the GUIDs that are the source. */
  lemma {:induction false} ReplaceIsRename(s: string, src: string, dst: string)
    requires IsGuid(src) && IsGuid(dst) && Separated(s)
    ensures ReplaceAll(s, src, dst) == RenameGuids(s, map[src := dst])
    decreases |s|
  {
    var m := map[src := dst];
    if |s| < 18 {
      RenameUpTo(s, |s|, m);
      assert s[..|s|] == s && s[|s|..] == "";
    } else if GuidFirst(s) {
      ReplaceIsRename(s[18..], src, dst);
      if s[..18] != src {
        assert s[0..18] == s[..18];
        forall j: nat | j < 18 ensures !OccursAt(s, src, j) {
          if j > 0 {
            NoneInside(s, src, j);
          }
        }
        SkipTo(s, src, dst, 18);
      }
    } else {
      ReplaceIsRename(s[1..], src, dst);
    }
  }

  // ---------------------------------------------------------------- all substitutions

  ghost predicate IsOrder(order: seq<string>, m: map<string, string>) {
    && (forall i, j | 0 <= i < j < |order| :: order[i] != order[j])
    && (forall g :: g in order <==> g in m)
  }

  /** What the substitutions in turn make of one name. */
  function Chained(order: seq<string>, m: map<string, string>, x: string): string
    requires forall i | 0 <= i < |order| :: order[i] in m
  {
    if order == [] then x
    else
      var y := Chained(order[..|order| - 1], m, x);
      if y == order[|order| - 1] then m[y] else y
  }

  /** The same, as one renaming. */
  ghost function Composite(order: seq<string>, m: map<string, string>): (c: map<string, string>)
    requires forall i | 0 <= i < |order| :: order[i] in m
    ensures c.Keys == set g <- order
  {
    map g | g in order :: Chained(order, m, g)
  }

  lemma {:induction false} ChainedOthers(order: seq<string>, m: map<string, string>, x: string)
    requires (forall i | 0 <= i < |order| :: order[i] in m) && x !in order
    ensures Chained(order, m, x) == x
  {
    if order != [] {
      assert order == order[..|order| - 1] + [order[|order| - 1]];
      ChainedOthers(order[..|order| - 1], m, x);
    }
  }

  lemma {:induction false} ChainedGuids(order: seq<string>, m: map<string, string>, x: string)
    requires (forall i | 0 <= i < |order| :: order[i] in m) && GuidsToGuids(m) && IsGuid(x)
    ensures IsGuid(Chained(order, m, x))
  {
    hide IsGuid;
    if order != [] {
      ChainedGuids(order[..|order| - 1], m, x);
    }
  }

  lemma CompositeSnoc(order: seq<string>, m: map<string, string>)
    requires order != [] && (forall i | 0 <= i < |order| :: order[i] in m)
    ensures
      var n := |order| - 1;
      Then(Composite(order[..n], m), map[order[n] := m[order[n]]]) == Composite(order, m)
  {
    var n := |order| - 1;
    var c, one := Composite(order[..n], m), map[order[n] := m[order[n]]];
    assert order == order[..n] + [order[n]];
    assert c.Keys + one.Keys == Composite(order, m).Keys;
    forall x | x in order ensures Renamed(one, Renamed(c, x)) == Chained(order, m, x) {
      if x !in order[..n] {
        ChainedOthers(order[..n], m, x);
      }
    }
  }

  lemma {:induction false} InTurnIsComposite(s: string, order: seq<string>, m: map<string, string>)
    requires (forall i | 0 <= i < |order| :: order[i] in m) && GuidsToGuids(m) && Separated(s)
    ensures forall i | 0 <= i < |order| :: order[i] != ""
    ensures GuidsToGuids(Composite(order, m))
    ensures InTurn(s, order, m) == RenameGuids(s, Composite(order, m))
  {
    hide RenameGuids, ReplaceAll, Separated;
    if order == [] {
      RenameNothing(s, Composite(order, m));
    } else {
      var n := |order| - 1;
      InTurnIsComposite(s, order[..n], m);
      forall x | x in order ensures IsGuid(x) && IsGuid(Chained(order, m, x)) {
        ChainedGuids(order, m, x);
      }
      var c, one := Composite(order[..n], m), map[order[n] := m[order[n]]];
      RenameKeepsSeparated(s, c);
      ReplaceIsRename(RenameGuids(s, c), order[n], m[order[n]]);
      RenameTwice(s, c, one);
      CompositeSnoc(order, m);
    }
  }

  lemma {:induction false} RenameNothing(s: string, m: map<string, string>)
    requires m == map[]
    ensures RenameGuids(s, m) == s
    decreases |s|
  {
    if s != "" {
      if GuidFirst(s) {
        RenameNothing(s[18..], m);
        assert s == s[..18] + s[18..];
      } else {
        RenameNothing(s[1..], m);
      }
    }
  }

  /** No source becomes another source. */
  ghost predicate NoChain(m: map<string, string>) {
    forall g | g in m && m[g] != g :: m[g] !in m
  }

  lemma {:induction false} ChainedIsRenamed(order: seq<string>, m: map<string, string>, x: string)
    requires (forall i | 0 <= i < |order| :: order[i] in m) && NoChain(m)
    requires forall i, j | 0 <= i < j < |order| :: order[i] != order[j]
    ensures Chained(order, m, x) == if x in order then m[x] else x
  {
    if order != [] {
      var n := |order| - 1;
      assert order == order[..n] + [order[n]];
      ChainedIsRenamed(order[..n], m, x);
      assert order[n] in order && (x in order[..n] && m[x] != x ==> m[x] !in m);
    }
  }

  /** A renamed text shows how each of its GUIDs was renamed. */
  lemma {:induction false} RenamingShows(s: string, f: map<string, string>, g: map<string, string>, x: string)
    requires GuidsToGuids(f) && GuidsToGuids(g) && RenameGuids(s, f) == RenameGuids(s, g) && x in Guids(s)
    ensures Renamed(f, x) == Renamed(g, x)
    decreases |s|
  {
    if GuidFirst(s) {
      var u := RenameGuids(s, f);
      assert u[..18] == Renamed(f, s[..18]) && u[..18] == Renamed(g, s[..18]);
      assert u[18..] == RenameGuids(s[18..], f) && u[18..] == RenameGuids(s[18..], g);
      if x != s[..18] {
        RenamingShows(s[18..], f, g, x);
      }
    } else {
      var u := RenameGuids(s, f);
      assert u[1..] == RenameGuids(s[1..], f) && u[1..] == RenameGuids(s[1..], g);
      RenamingShows(s[1..], f, g, x);
    }
  }

  /** The GUIDs of the renamed text are the renamed GUIDs, in place. */
  lemma {:induction false} GuidsOfRenamed(s: string, m: map<string, string>)
    requires GuidsToGuids(m)
    ensures |Guids(RenameGuids(s, m))| == |Guids(s)|
    ensures forall i | 0 <= i < |Guids(s)| :: Guids(RenameGuids(s, m))[i] == Renamed(m, Guids(s)[i])
    decreases |s|
  {
    hide IsGuid;
    if s != "" {
      RenameKeepsFront(s, m);
      var u := RenameGuids(s, m);
      if GuidFirst(s) {
        GuidsOfRenamed(s[18..], m);
        RenamedHasLength(s[..18], m);
        assert u[..18] == Renamed(m, s[..18]) && u[18..] == RenameGuids(s[18..], m);
      } else {
        GuidsOfRenamed(s[1..], m);
        assert u[1..] == RenameGuids(s[1..], m);
      }
    }
  }

  /** No source GUID is left in the renamed text, exactly when no source in it is renamed to a source. */
  lemma NoSourceSurvivesIff(s: string, m: map<string, string>)
    requires GuidsToGuids(m)
    ensures (forall g | g in Guids(RenameGuids(s, m)) :: g !in m)
      <==> (forall g | g in Guids(s) && g in m :: m[g] !in m)
    ensures NoChain(m) && (forall g <- m :: m[g] != g) ==> forall g | g in Guids(RenameGuids(s, m)) :: g !in m
  {
    hide Guids, RenameGuids, GuidsToGuids;
    GuidsOfRenamed(s, m);
    var before, after := Guids(s), Guids(RenameGuids(s, m));
    if forall g | g in after :: g !in m {
      forall g | g in before && g in m ensures m[g] !in m {
        var i :| 0 <= i < |before| && before[i] == g;
        assert after[i] in after;
      }
    }
    if forall g | g in before && g in m :: m[g] !in m {
      forall h | h in after ensures h !in m {
        var i :| 0 <= i < |after| && after[i] == h;
        assert before[i] in before;
      }
    }
  }

  lemma RenamedHasLength(g: string, m: map<string, string>)
    requires IsGuid(g) && GuidsToGuids(m)
    ensures |Renamed(m, g)| == 18
  {
  }

  /** Substituting the GUIDs in this order renames them all at once. */
  ghost predicate Simultaneous(s: string, order: seq<string>, m: map<string, string>)
    requires (forall i | 0 <= i < |order| :: order[i] in m && order[i] != "")
  {
    InTurn(s, order, m) == RenameGuids(s, m)
  }

  lemma OrderIsInMap(order: seq<string>, m: map<string, string>)
    requires IsOrder(order, m) && GuidsToGuids(m)
    ensures forall i | 0 <= i < |order| :: order[i] in m && order[i] != ""
  {
    assert forall i | 0 <= i < |order| :: order[i] in order;
  }

  /** Without a chain, the substitutions amount to one simultaneous renaming, whatever their order. */
  lemma InTurnIsSimultaneous(s: string, order: seq<string>, m: map<string, string>)
    requires Separated(s) && GuidsToGuids(m) && IsOrder(order, m) && NoChain(m)
    ensures forall i | 0 <= i < |order| :: order[i] in m && order[i] != ""
    ensures Simultaneous(s, order, m)
  {
    hide RenameGuids, InTurn, Separated;
    OrderIsInMap(order, m);
    InTurnIsComposite(s, order, m);
    forall x | x in order ensures Chained(order, m, x) == m[x] {
      ChainedIsRenamed(order, m, x);
    }
    assert Composite(order, m) == m;
  }

  lemma OrderOf(keys: set<string>) returns (order: seq<string>)
    ensures forall i, j | 0 <= i < j < |order| :: order[i] != order[j]
    ensures forall g :: g in order <==> g in keys
  {
    if keys == {} {
      order := [];
    } else {
      var g :| g in keys;
      var rest := OrderOf(keys - {g});
      order := rest + [g];
    }
  }

  lemma ChainedLast(rest: seq<string>, m: map<string, string>, a: string, b: string)
    requires (forall i | 0 <= i < |rest| :: rest[i] in m) && a in m && b in m && m[a] == b && a !in rest
    ensures Chained(rest + [a, b], m, a) == m[b]
  {
    ChainedOthers(rest, m, a);
    var all := rest + [a, b];
    assert all[..|all| - 1] == rest + [a] && (rest + [a])[..|rest|] == rest;
  }

  /** With a chain a -> b, the order that ends with a, b takes a for b. */
  lemma ChainBreaks(s: string, m: map<string, string>, a: string, b: string) returns (order: seq<string>)
    requires Separated(s) && NumbersGuids(m) && (forall g <- m :: g in Guids(s))
    requires a in m && b in m && a != b && m[a] == b
    ensures IsOrder(order, m) && forall i | 0 <= i < |order| :: order[i] in m && order[i] != ""
    ensures !Simultaneous(s, order, m)
  {
    hide RenameGuids, InTurn, Separated, Guids, IsGuid;
    var rest := OrderOf(m.Keys - {a, b});
    order := rest + [a, b];
    assert IsOrder(order, m);
    OrderIsInMap(order, m);
    assert forall i | 0 <= i < |rest| :: rest[i] in rest;
    ChainedLast(rest, m, a, b);
    InTurnIsComposite(s, order, m);
    if Simultaneous(s, order, m) {
      RenamingShows(s, Composite(order, m), m, a);
    }
  }

  /**
   * On a separated text whose GUIDs the map numbers, every order of the substitutions amounts to one simultaneous
   * renaming if and only if no source is the number of another source.
   */
  lemma AnyOrderIffNoChain(s: string, m: map<string, string>)
    requires Separated(s) && NumbersGuids(m) && forall g <- m :: g in Guids(s)
    ensures
      (forall order: seq<string>
         | IsOrder(order, m) && (forall i | 0 <= i < |order| :: order[i] in m && order[i] != "") ::
        Simultaneous(s, order, m))
      <==> NoChain(m)
  {
    hide RenameGuids, InTurn, Separated, Guids, IsGuid, Simultaneous, IsOrder;
    if NoChain(m) {
      forall order: seq<string> | IsOrder(order, m) && (forall i | 0 <= i < |order| :: order[i] in m && order[i] != "")
        ensures Simultaneous(s, order, m)
      {
        InTurnIsSimultaneous(s, order, m);
      }
    } else {
      var a :| a in m && m[a] != a && m[a] in m;
      var order := ChainBreaks(s, m, a, m[a]);
    }
  }
}
