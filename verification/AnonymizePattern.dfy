/** The pattern the script looks for in each line, and the numbers it gives the names it finds. */
module AnonymizePattern {
  import opened Wrappers
  import opened Text
  import opened Numbers
  import opened Anonymize
  import opened AnonymizeHarvest

  // ---------------------------------------------------------------- the pattern

  /** Space, tab, line feed, vertical tab, form feed, carriage return. */
  predicate White(c: char) {
    c in [' ', '\t', '\n', '\U{0B}', '\U{0C}', '\r']
  }

  lemma WhiteIsSpace()
    ensures forall c :: White(c) <==> PosixSpace(c)
  {
  }

  /** White space, at least one character of it. */
  predicate Spaced(s: string) {
    s != "" && forall i | 0 <= i < |s| :: White(s[i])
  }

  /** This text begins with `( 'left' - 'right' )`, with any white space where the pattern allows it. */
  ghost predicate Begins(s: string, left: string, right: string) {
    Source(left) && Source(right) && exists gap, wide, c, rest | Spaced(gap) && Spaced(wide) && White(c) ::
      s == "( '" + left + "'" + gap + "-" + wide + "'" + right + "'" + [c] + ")" + rest
  }

  lemma {:induction false} LeadingSpacesAre(gap: string, rest: string)
    requires forall i | 0 <= i < |gap| :: White(gap[i])
    requires rest != "" && !PosixSpace(rest[0])
    ensures LeadingSpaces(gap + rest) == |gap|
  {
    WhiteIsSpace();
    if gap == "" {
      assert gap + rest == rest;
    } else {
      assert (gap + rest)[1..] == gap[1..] + rest;
      LeadingSpacesAre(gap[1..], rest);
    }
  }

  lemma {:induction false} LeadingSpacesSplit(s: string)
    ensures forall i | 0 <= i < LeadingSpaces(s) :: PosixSpace(s[i])
  {
    if s != "" && PosixSpace(s[0]) {
      LeadingSpacesSplit(s[1..]);
      assert forall i | 0 < i < LeadingSpaces(s) :: s[i] == s[1..][i - 1];
    }
  }

  lemma PastIff(s: string, c: char, rest: string)
    requires !PosixSpace(c)
    ensures Past(s, c) == Some(rest) <==> exists gap :: Spaced(gap) && s == gap + [c] + rest
  {
    WhiteIsSpace();
    if Past(s, c) == Some(rest) {
      var k := LeadingSpaces(s);
      LeadingSpacesSplit(s);
      assert Spaced(s[..k]) && s == s[..k] + [c] + rest;
    }
    if gap :| Spaced(gap) && s == gap + [c] + rest {
      assert s == gap + ([c] + rest);
      LeadingSpacesAre(gap, [c] + rest);
    }
  }

  lemma ClosedIff(s: string, right: string)
    ensures Closed(s) == Some(right) <==>
      Source(right) && exists c, rest :: White(c) && s == right + "'" + [c] + ")" + rest
  {
    WhiteIsSpace();
    if Closed(s) == Some(right) {
      var end := FirstIndex(s, '\'');
      assert s == right + "'" + [s[end + 1]] + ")" + s[end + 3..];
      assert NoQuote(right);
    }
    if c, rest :| Source(right) && White(c) && s == right + "'" + [c] + ")" + rest {
      assert s == right + ['\''] + ([c] + ")" + rest);
      assert '\'' !in right;
      FirstIndexAt(right, '\'', [c] + ")" + rest);
      assert s[|right| + 1] == c && s[|right| + 2] == ')' && s[..|right|] == right;
    }
  }

  /** The part of the pattern behind the first name. */
  ghost predicate Ends(s: string, right: string) {
    Source(right) && exists gap, wide, c, rest | Spaced(gap) && Spaced(wide) && White(c) ::
      s == gap + "-" + wide + "'" + right + "'" + [c] + ")" + rest
  }

  lemma RightIff(s: string, right: string)
    ensures MatchRight(s) == Some(right) <==> Ends(s, right)
  {
    hide Past, Closed, Source;
    if MatchRight(s) == Some(right) {
      var t := Past(s, '-').value;
      var u := Past(t, '\'').value;
      PastIff(s, '-', t);
      PastIff(t, '\'', u);
      ClosedIff(u, right);
      var gap :| Spaced(gap) && s == gap + ['-'] + t;
      var wide :| Spaced(wide) && t == wide + ['\''] + u;
      var c, rest :| White(c) && u == right + "'" + [c] + ")" + rest;
      assert s == gap + "-" + wide + "'" + right + "'" + [c] + ")" + rest;
    }
    if Ends(s, right) {
      var gap, wide, c, rest :| Spaced(gap) && Spaced(wide) && White(c)
        && s == gap + "-" + wide + "'" + right + "'" + [c] + ")" + rest;
      var u := right + "'" + [c] + ")" + rest;
      var t := wide + ['\''] + u;
      assert s == gap + ['-'] + t;
      PastIff(s, '-', t);
      PastIff(t, '\'', u);
      ClosedIff(u, right);
    }
  }

  lemma HereIff(s: string, left: string, right: string)
    ensures MatchHere(s) == Some(Pair(left, right)) <==> Begins(s, left, right)
  {
    hide MatchHere, Begins;
    if MatchHere(s) == Some(Pair(left, right)) {
      HereBegins(s, left, right);
    }
    if Begins(s, left, right) {
      BeginsHere(s, left, right);
    }
  }

  lemma HereBegins(s: string, left: string, right: string)
    requires MatchHere(s) == Some(Pair(left, right))
    ensures Begins(s, left, right)
  {
    hide MatchHere, MatchRight, Ends, Begins, Source;
    var tail := FirstName(s, left, right);
    RightIff(tail, right);
    BeginsIf(s, left, right, tail);
  }

  lemma FirstName(s: string, left: string, right: string) returns (tail: string)
    requires MatchHere(s) == Some(Pair(left, right))
    ensures s == "( '" + left + "'" + tail && Source(left) && MatchRight(tail) == Some(right)
  {
    hide MatchRight;
    var rest := s[3..];
    var end := FirstIndex(rest, '\'');
    tail := rest[end + 1..];
    assert left == rest[..end] && rest[end] == '\'';
    assert s[..3] == "( '" && s == s[..3] + rest;
    assert rest == left + "'" + tail;
  }

  lemma BeginsHere(s: string, left: string, right: string)
    requires Begins(s, left, right)
    ensures MatchHere(s) == Some(Pair(left, right))
  {
    hide MatchRight, Ends, Begins;
    var tail := TailOf(s, left, right);
    RightIff(tail, right);
    assert s == "( '" + (left + ['\''] + tail);
    assert s[..3] == "( '" && s[3..] == left + ['\''] + tail && '\'' !in left;
    FirstIndexAt(left, '\'', tail);
    var rest := s[3..];
    assert HasPrefix(s, "( '") && FirstIndex(rest, '\'') == |left| >= 1;
    assert rest[|left| + 1..] == tail && rest[..|left|] == left;
    assert MatchRight(tail) == Some(right);
  }

  lemma BeginsIf(s: string, left: string, right: string, tail: string)
    requires s == "( '" + left + "'" + tail && Source(left) && Ends(tail, right)
    ensures Begins(s, left, right)
  {
    hide Source, White;
    var gap, wide, c, rest :| Spaced(gap) && Spaced(wide) && White(c)
      && tail == gap + "-" + wide + "'" + right + "'" + [c] + ")" + rest;
    assert s == "( '" + left + "'" + gap + "-" + wide + "'" + right + "'" + [c] + ")" + rest;
  }

  lemma TailOf(s: string, left: string, right: string) returns (tail: string)
    requires Begins(s, left, right)
    ensures s == "( '" + left + "'" + tail && Source(left) && Ends(tail, right)
  {
    hide Source, White;
    var gap, wide, c, rest :| Spaced(gap) && Spaced(wide) && White(c)
      && s == "( '" + left + "'" + gap + "-" + wide + "'" + right + "'" + [c] + ")" + rest;
    tail := gap + "-" + wide + "'" + right + "'" + [c] + ")" + rest;
  }

  ghost predicate BeginsAt(s: string, i: int, left: string, right: string) {
    0 <= i < |s| && Begins(s[i..], left, right)
  }

  /** The pair of a line is its leftmost match of the pattern; there is none exactly if the pattern matches nowhere. */
  lemma {:induction false} PairIsLeftmost(s: string)
    ensures MatchPair(s).None? <==> forall i, left, right :: !BeginsAt(s, i, left, right)
    ensures forall left, right :: MatchPair(s) == Some(Pair(left, right)) <==>
      exists i :: BeginsAt(s, i, left, right) && forall j, l, r | 0 <= j < i :: !BeginsAt(s, j, l, r)
  {
    hide MatchHere, Begins;
    forall left, right ensures MatchHere(s) == Some(Pair(left, right)) <==> Begins(s, left, right) {
      HereIff(s, left, right);
    }
    assert s[0..] == s;
    if s != "" {
      assert forall left, right :: BeginsAt(s, 0, left, right) <==> Begins(s, left, right);
      if MatchHere(s).Some? {
        var p := MatchHere(s).value;
        assert BeginsAt(s, 0, p.left, p.right);
      } else {
        PairIsLeftmost(s[1..]);
        Shifted(s);
      }
    }
  }

  lemma Shifted(s: string)
    requires s != ""
    ensures forall i, left, right | i > 0 :: BeginsAt(s, i, left, right) <==> BeginsAt(s[1..], i - 1, left, right)
    ensures forall i, left, right | i >= 0 :: BeginsAt(s[1..], i, left, right) <==> BeginsAt(s, i + 1, left, right)
  {
    hide Begins;
    assert forall i | 0 < i < |s| :: s[1..][i - 1..] == s[i..];
  }

  // ---------------------------------------------------------------- the kinds

  /** The name holds `HCA-` and a digit, or `mlx`, a digit, an underscore and a digit. */
  ghost predicate HoldsHcaName(s: string) {
    || (exists i: nat | OccursAt(s, "HCA-", i) && i + 4 < |s| :: IsDigit(s[i + 4]))
    || (exists i: nat | OccursAt(s, "mlx", i) && i + 5 < |s| ::
          IsDigit(s[i + 3]) && s[i + 4] == '_' && IsDigit(s[i + 5]))
  }

  lemma HcaHereIff(s: string, i: nat)
    requires i < |s|
    ensures HcaHere(s[i..]) <==>
      || (OccursAt(s, "HCA-", i) && i + 4 < |s| && IsDigit(s[i + 4]))
      || (OccursAt(s, "mlx", i) && i + 5 < |s| && IsDigit(s[i + 3]) && s[i + 4] == '_' && IsDigit(s[i + 5]))
  {
    var t := s[i..];
    assert |t| >= 4 ==> t[..4] == s[i..i + 4];
    assert |t| >= 3 ==> t[..3] == s[i..i + 3];
  }

  lemma LooksLikeHcaIffHolds(s: string)
    ensures LooksLikeHca(s) <==> HoldsHcaName(s)
  {
    hide HcaHere, LooksLikeHca, OccursAt;
    LooksLikeHcaIff(s);
    forall i | 0 <= i < |s|
      ensures HcaHere(s[i..]) <==>
        || (OccursAt(s, "HCA-", i) && i + 4 < |s| && IsDigit(s[i + 4]))
        || (OccursAt(s, "mlx", i) && i + 5 < |s| && IsDigit(s[i + 3]) && s[i + 4] == '_' && IsDigit(s[i + 5]))
    {
      HcaHereIff(s, i);
    }
  }

  /** The names of switches and of HCAs on a line, local one first. */
  ghost function NamesOn(line: string): (names: (seq<string>, seq<string>)) {
    match MatchPair(line)
    case None => ([], [])
    case Some(p) =>
      if FirstToken(line) == "CA" then ([p.right], [p.left])
      else if FirstToken(line) != "SW" then ([], [])
      else if HoldsHcaName(p.right) then ([p.left], [p.right])
      else ([p.left, p.right], [])
  }

  /** The same of all lines, as they come. */
  ghost function AllNames(lines: seq<string>): (names: (seq<string>, seq<string>)) {
    if lines == [] then ([], [])
    else
      var n := |lines| - 1;
      (AllNames(lines[..n]).0 + NamesOn(lines[n]).0, AllNames(lines[..n]).1 + NamesOn(lines[n]).1)
  }

  // ---------------------------------------------------------------- the numbers

  /** The number in decimal, with a zero in front if it has one digit only. */
  predicate IsPadded(t: string, n: nat) {
    AllDigits(t) && DigitsValue(t) == n && |t| >= 2 && (|t| > 2 ==> t[0] != '0')
  }

  lemma {:induction false} NoLeadingZero(n: nat)
    ensures n > 0 ==> Dec(n)[0] != '0'
    ensures n >= 10 ==> |Dec(n)| >= 2
  {
    if n >= 10 {
      NoLeadingZero(n / 10);
      assert Dec(n)[0] == Dec(n / 10)[0];
    }
  }

  lemma TwoDigitsArePadded(n: nat)
    ensures IsPadded(TwoDigits(n), n)
  {
    TwoDigitsValue(n);
    NoLeadingZero(n);
  }

  function Seen(names: seq<string>): set<string> {
    set x | x in names
  }

  /**
   * The table of these names: each is numbered where it comes first, by how many different ones there have been by
   * then.
   */
  ghost predicate NumbersNames(m: map<string, string>, count: nat, names: seq<string>, prefix: string) {
    && (forall x :: x in m <==> x in names)
    && count == |Seen(names)|
    && forall k | 0 <= k < |names| && names[k] !in names[..k] ::
      HasNumber(m[names[k]], prefix, |Seen(names[..k + 1])|)
  }

  predicate HasNumber(name: string, prefix: string, n: nat) {
    HasPrefix(name, prefix) && IsPadded(name[|prefix|..], n)
  }

  lemma OneMoreSeen(names: seq<string>, x: string)
    ensures |Seen(names + [x])| == |Seen(names)| + if x in names then 0 else 1
  {
    assert Seen(names + [x]) == Seen(names) + {x};
  }

  lemma NextName(m: map<string, string>, count: nat, names: seq<string>, prefix: string, x: string, y: string)
    requires NumbersNames(m, count, names, prefix)
    requires x in m || HasNumber(y, prefix, count + 1)
    ensures
      var next := if x in m then m else m[x := y];
      NumbersNames(next, if x in m then count else count + 1, names + [x], prefix)
  {
    hide HasNumber, Seen;
    var more := names + [x];
    var next := if x in m then m else m[x := y];
    OneMoreSeen(names, x);
    forall k | 0 <= k < |more| && more[k] !in more[..k]
      ensures more[k] in next && HasNumber(next[more[k]], prefix, |Seen(more[..k + 1])|)
    {
      if k < |names| {
        assert more[..k] == names[..k] && more[..k + 1] == names[..k + 1] && more[k] == names[k];
      } else {
        assert more[..k] == names && more[..k + 1] == more;
      }
    }
  }

  lemma AddSwitchNumbers(h: Harvest, names: seq<string>, x: string)
    requires NumbersNames(h.sw, h.switches, names, "sw-")
    ensures
      var next := AddSwitch(h, x);
      NumbersNames(next.sw, next.switches, names + [x], "sw-") && next.hca == h.hca && next.hcas == h.hcas
  {
    hide NumbersNames, IsPadded, TwoDigits;
    var n := h.switches + 1;
    TwoDigitsArePadded(n);
    assert SwitchName(n)[3..] == TwoDigits(n);
    NextName(h.sw, h.switches, names, "sw-", x, SwitchName(n));
  }

  lemma AddHcaNumbers(h: Harvest, names: seq<string>, x: string)
    requires NumbersNames(h.hca, h.hcas, names, "hca-")
    ensures
      var next := AddHca(h, x);
      NumbersNames(next.hca, next.hcas, names + [x], "hca-") && next.sw == h.sw && next.switches == h.switches
  {
    hide NumbersNames, IsPadded, TwoDigits;
    var n := h.hcas + 1;
    TwoDigitsArePadded(n);
    assert HcaName(n)[4..] == TwoDigits(n);
    NextName(h.hca, h.hcas, names, "hca-", x, HcaName(n));
  }

  lemma LineNumbers(h: Harvest, sw: seq<string>, hca: seq<string>, line: string)
    requires NumbersNames(h.sw, h.switches, sw, "sw-") && NumbersNames(h.hca, h.hcas, hca, "hca-")
    ensures
      var next := HarvestLine(h, line);
      && NumbersNames(next.sw, next.switches, sw + NamesOn(line).0, "sw-")
      && NumbersNames(next.hca, next.hcas, hca + NamesOn(line).1, "hca-")
  {
    hide NumbersNames, MatchPair, LooksLikeHca, HoldsHcaName, FirstToken, AddSwitch, AddHca;
    assert sw + [] == sw && hca + [] == hca;
    if MatchPair(line).Some? {
      var p := MatchPair(line).value;
      LooksLikeHcaIffHolds(p.right);
      AddSwitchNumbers(h, sw, p.left);
      AddSwitchNumbers(AddSwitch(h, p.left), sw + [p.left], p.right);
      AddHcaNumbers(AddSwitch(h, p.left), hca, p.right);
      AddHcaNumbers(h, hca, p.left);
      AddSwitchNumbers(AddHca(h, p.left), sw, p.right);
      assert sw + [p.left] + [p.right] == sw + [p.left, p.right];
    }
  }

  /**
   * What the script calls each name: switches `sw-01`, `sw-02`, ... and HCAs `hca-01`, `hca-02`, ... in the order in
   * which the lines first show them.
   */
  lemma {:induction false} HarvestNumbersNames(lines: seq<string>)
    ensures
      var h, names := HarvestLines(lines), AllNames(lines);
      && NumbersNames(h.sw, h.switches, names.0, "sw-") && NumbersNames(h.hca, h.hcas, names.1, "hca-")
  {
    hide NumbersNames, HarvestLine, NamesOn;
    if lines == [] {
      NoNamesYet();
    } else {
      var n := |lines| - 1;
      HarvestNumbersNames(lines[..n]);
      LineNumbers(HarvestLines(lines[..n]), AllNames(lines[..n]).0, AllNames(lines[..n]).1, lines[n]);
    }
  }

  lemma NoNamesYet()
    ensures NumbersNames(map[], 0, [], "sw-") && NumbersNames(map[], 0, [], "hca-")
  {
  }

  // ---------------------------------------------------------------- the numbers of GUIDs

  function HexValue(c: char): nat
    requires IsHex(c)
  {
    if '0' <= c <= '9' then c as int - '0' as int
    else if 'a' <= c <= 'f' then c as int - 'a' as int + 10
    else c as int - 'A' as int + 10
  }

  function HexNumber(s: string): nat
    requires forall i | 0 <= i < |s| :: IsHex(s[i])
  {
    if s == "" then 0 else 16 * HexNumber(s[..|s| - 1]) + HexValue(s[|s| - 1])
  }

  lemma {:induction false} HexIsRead(n: nat, width: nat)
    requires n < Pow16(width)
    ensures HexNumber(Hex(n, width)) == n && forall i | 0 <= i < width :: !('A' <= Hex(n, width)[i] <= 'F')
  {
    if width > 0 {
      HexIsRead(n / 16, width - 1);
      assert Hex(n, width)[..width - 1] == Hex(n / 16, width - 1);
    }
  }

  /** The number of a GUID is `0x` and sixteen lower-case digits, which spell it. */
  lemma NumberedGuidSpells(n: nat)
    requires n < Pow16(16)
    ensures
      var g := NumberedGuid(n);
      && |g| == 18 && g[..2] == "0x" && HexNumber(g[2..]) == n && forall i | 2 <= i < 18 :: !('A' <= g[i] <= 'F')
  {
    hide Pow16, Hex, HexNumber;
    HexIsRead(n, 16);
    assert NumberedGuid(n)[2..] == Hex(n, 16);
  }
}
