/** What the parser reads from the lines ibnetdiscover prints. */
module TopologyLines {
  import opened Wrappers
  import opened Text
  import opened Numbers
  import opened Ibnetdiscover

  // ---------------------------------------------------------------- fields of a concatenation

  lemma {:induction false} FieldsConcat(a: string, c: char, b: string)
    requires IsSpace(c)
    ensures Fields(a + [c] + b) == Fields(a) + Fields(b)
    decreases |a|
  {
    var s := a + [c] + b;
    if a == "" {
      assert s[0] == c && s[1..] == b;
    } else if IsSpace(a[0]) {
      assert s[1..] == a[1..] + [c] + b;
      FieldsConcat(a[1..], c, b);
    } else {
      var k := LeadingNonSpace(a);
      var rest := a[k..] + [c] + b;
      assert a == a[..k] + a[k..];
      assert s == a[..k] + rest;
      assert k > 0 && rest[0] == if k < |a| then a[k] else c;
      LeadingWord(a[..k], rest);
      FieldsConcat(a[k..], c, b);
    }
  }

  lemma BlankHasNoFields(tail: string)
    requires Blank(tail)
    ensures Fields(tail) == []
  {
    FieldsBlank(tail, "");
    assert tail + "" == tail;
  }

  lemma OneField(w: string, tail: string)
    requires Word(w) && Blank(tail)
    ensures Fields(w + tail) == [w]
  {
    FieldsWord(w, tail);
    BlankHasNoFields(tail);
  }

  // ---------------------------------------------------------------- the two names of a connected line

  function PairText(left: string, right: string): string {
    "( '" + left + "' - '" + right + "' )"
  }

  /** The line matches the regular expression, with its three fixed parts here. */
  predicate Matches(line: string, open: nat, mid: nat, close: nat) {
    && OccursAt(line, "( '", open) && open + 4 <= mid
    && OccursAt(line, "' - '", mid) && mid + 6 <= close
    && OccursAt(line, "' )", close)
  }

  /** FindPair finds a match exactly when there is one: the leftmost, with the longest first and then second group. */
  lemma FindPairIsLeftmostLongest(line: string)
    ensures FindPair(line).NoMatch? ==> forall i: nat, j: nat, k: nat :: !Matches(line, i, j, k)
    ensures FindPair(line).Match? ==>
      var m := FindPair(line);
      && Matches(line, m.open, m.mid, m.close)
      && forall i: nat, j: nat, k: nat | Matches(line, i, j, k) ::
           m.open <= i && (i == m.open ==> j <= m.mid && (j == m.mid ==> k <= m.close))
  {
    hide Index, LastIndex, OccursAt;
    var close := LastIndex(line, "' )");
    CloseBound(line);
    forall i: nat, j: nat, k: nat | Matches(line, i, j, k)
      ensures Index(line, "( '") <= i && k <= close && OccursAt(line[..close - 1], "' - '", j)
    {
      OccursInFront(line, "' - '", j, close - 1);
    }
    if FindPair(line).Match? {
      var m := FindPair(line);
      MidInLine(line, close - 1, m.mid);
    }
  }

  lemma CloseBound(line: string)
    ensures LastIndex(line, "' )") <= |line|
  {
  }

  lemma MidInLine(line: string, n: nat, j: nat)
    requires n <= |line| && OccursAt(line[..n], "' - '", j)
    ensures OccursAt(line, "' - '", j)
  {
    assert line[..n][j..j + 5] == line[j..j + 5];
  }

  /** Where the quotes of a connected line are. */
  lemma QuotesOfPair(head: string, left: string, right: string, tail: string, x: nat)
    requires NoQuote(head) && NoQuote(left) && NoQuote(right) && NoQuote(tail)
    requires x < |head + PairText(left, right) + tail|
    ensures
      var a := |head| + 2;
      var b := a + 1 + |left|;
      var c := b + 5 + |right|;
      (head + PairText(left, right) + tail)[x] == '\'' <==> x == a || x == b || x == b + 4 || x == c
  {
    var line := head + PairText(left, right) + tail;
    var p := PairText(left, right);
    assert |p| == 11 + |left| + |right|;
    if x < |head| {
      assert line[x] == head[x];
    } else if x < |head| + |p| {
      assert line[x] == p[x - |head|];
    } else {
      assert line[x] == tail[x - |head| - |p|];
    }
  }

  lemma PairParts(head: string, left: string, right: string, tail: string)
    ensures
      var line := head + PairText(left, right) + tail;
      var b := |head| + 3 + |left|;
      && |line| == |head| + 11 + |left| + |right| + |tail|
      && OccursAt(line, "( '", |head|) && OccursAt(line, "' - '", b) && OccursAt(line, "' )", b + 5 + |right|)
      && line[|head| + 3..b] == left && line[b + 5..b + 5 + |right|] == right
      && line[|head|] == '('
  {
    var line := head + PairText(left, right) + tail;
    var b := |head| + 3 + |left|;
    assert line == head + "( '" + (left + "' - '" + right + "' )" + tail);
    assert line == (head + "( '" + left) + "' - '" + (right + "' )" + tail);
    assert line == (head + "( '" + left + "' - '" + right) + "' )" + tail;
    assert line == (head + "( '") + left + ("' - '" + right + "' )" + tail);
    assert line == (head + "( '" + left + "' - '") + right + ("' )" + tail);
  }

  lemma CharAt(s: string, p: string, j: nat, k: nat)
    requires OccursAt(s, p, j) && k < |p|
    ensures s[j + k] == p[k]
  {
    assert s[j..j + |p|][k] == s[j + k];
  }

  lemma OpenOfPair(line: string, n: nat)
    requires OccursAt(line, "( '", n) && NoParen(line[..n])
    ensures Index(line, "( '") == n
  {
    assert forall j | 0 <= j < n :: line[j] == line[..n][j];
    forall j: nat | OccursAt(line, "( '", j) ensures j >= n {
      CharAt(line, "( '", j, 0);
    }
  }

  /** The last `' )` is at the last quote. */
  lemma CloseOfPair(line: string, c: nat)
    requires OccursAt(line, "' )", c) && forall x | c < x < |line| :: line[x] != '\''
    ensures LastIndex(line, "' )") == c
  {
    forall j: nat | OccursAt(line, "' )", j) ensures j <= c {
      CharAt(line, "' )", j, 0);
    }
  }

  lemma MidOfPair(front: string, b: nat)
    requires OccursAt(front, "' - '", b) && forall x | b < x < |front| :: front[x] == '\'' ==> x == b + 4
    ensures LastIndex(front, "' - '") == b
  {
    forall j: nat | OccursAt(front, "' - '", j) ensures j <= b {
      CharAt(front, "' - '", j, 0);
      CharAt(front, "' - '", j, 4);
    }
  }

  lemma FindPairOf(head: string, left: string, right: string, tail: string)
    requires NoQuote(head) && NoQuote(left) && NoQuote(right) && NoQuote(tail) && NoParen(head)
    requires left != "" && right != ""
    ensures FindPair(head + PairText(left, right) + tail) ==
      Match(|head|, |head| + 3 + |left|, |head| + 8 + |left| + |right|)
  {
    hide PairText, NoQuote, NoParen, Index, LastIndex, OccursAt;
    var line := head + PairText(left, right) + tail;
    var b := |head| + 3 + |left|;
    var c := b + 5 + |right|;
    PairParts(head, left, right, tail);
    assert line[..|head|] == head;
    OpenOfPair(line, |head|);
    forall x | b < x < |line| ensures line[x] == '\'' ==> x == b + 4 || x == c {
      QuotesOfPair(head, left, right, tail, x);
    }
    CloseOfPair(line, c);
    OccursInFront(line, "' - '", b, c - 1);
    MidOfPair(line[..c - 1], b);
  }

  lemma OccursInFront(line: string, p: string, b: nat, n: nat)
    requires OccursAt(line, p, b) && b + |p| <= n <= |line|
    ensures OccursAt(line[..n], p, b)
  {
    assert line[..n][b..b + |p|] == line[b..b + |p|];
  }

  /** Both names, trimmed. */
  lemma NamesOfPair(head: string, left: string, right: string, tail: string)
    requires NoQuote(head) && NoQuote(left) && NoQuote(right) && NoQuote(tail) && NoParen(head)
    requires left != "" && right != ""
    ensures ParseNames(head + PairText(left, right) + tail) == Ok(Names(Trim(left), Trim(right)))
  {
    hide PairText, NoQuote, FindPair, Trim;
    FindPairOf(head, left, right, tail);
    PairParts(head, left, right, tail);
  }

  // ---------------------------------------------------------------- connected lines

  /** The words a line begins with. */
  ghost predicate Head(words: seq<string>, gaps: seq<string>) {
    && |words| == |gaps|
    && (forall i | 0 <= i < |words| :: Word(words[i]) && NoQuote(words[i]) && NoParen(words[i]))
    && (forall i | 0 <= i < |gaps| :: gaps[i] != "" && Blank(gaps[i]))
  }

  lemma {:induction false} HeadIsPlain(words: seq<string>, gaps: seq<string>)
    requires Head(words, gaps)
    ensures NoQuote(Spread(words, gaps)) && NoParen(Spread(words, gaps))
  {
    if words != [] {
      assert Head(words[1..], gaps[1..]);
      HeadIsPlain(words[1..], gaps[1..]);
      assert forall i | 0 <= i < |gaps[0]| :: IsSpace(gaps[0][i]);
    }
  }

  /** The fields of a connected line: its words, some more, and `)`. */
  lemma PairFields(words: seq<string>, gaps: seq<string>, left: string, right: string, tail: string)
    requires Head(words, gaps) && Blank(tail)
    ensures
      var items := Fields(Spread(words, gaps) + PairText(left, right) + tail);
      |items| > |words| && items[..|words|] == words && items[|items| - 1] == ")"
  {
    hide Fields, Spread;
    var front := "( '" + left + "' - '" + right + "'";
    var rest := front + [' '] + (")" + tail);
    assert Spread(words, gaps) + PairText(left, right) + tail == Spread(words, gaps) + rest;
    FieldsSpread(words, gaps, rest);
    FieldsConcat(front, ' ', ")" + tail);
    OneField(")", tail);
    assert words + Fields(rest) == words + Fields(front) + [")"];
  }

  /**
   * A connected line, whatever the width of its gaps and the padding of its names, is read as it was printed: it is
   * neither altered by the rejoining of quoted names nor taken for a split-mode port, and fails only on its rate.
   */
  lemma ConnectedLine(words: seq<string>, gaps: seq<string>, left: string, right: string, tail: string, portState: bool)
    requires |words| == 11 && Head(words, gaps) && Blank(tail)
    requires NoQuote(left) && NoQuote(right) && left != "" && Trim(right) != ""
    requires words[5] != "???"
    ensures ParseLine(Spread(words, gaps) + PairText(left, right) + tail, portState) ==
      match ParseRate(words[4], words[5])
      case Err => Failure
      case Ok(rates) => Link(words[0], words[1], words[2], words[3], Trim(left), rates,
        Some(Peer(words[7], words[8], words[9], words[10], Trim(right))))
  {
    hide PairText, Fields, Spread, ParseRate, ParseNames, Trim, NoQuote, NoParen;
    var line := Spread(words, gaps) + PairText(left, right) + tail;
    var items := Fields(line);
    PairFields(words, gaps, left, right, tail);
    HeadIsPlain(words, gaps);
    BlankHasNoQuote(tail);
    TrimNonempty(right);
    NamesOfPair(Spread(words, gaps), left, right, tail);
  }

  lemma BlankHasNoQuote(s: string)
    requires Blank(s)
    ensures NoQuote(s) && NoParen(s)
  {
    assert forall i | 0 <= i < |s| :: IsSpace(s[i]);
  }

  lemma TrimNonempty(s: string)
    requires Trim(s) != ""
    ensures s != ""
  {
  }

  // ---------------------------------------------------------------- lines without a peer

  /** The fields after a quote has been put in front. */
  lemma QuoteInFront(s: string)
    requires NoQuote(s)
    ensures
      var f := Fields("'" + s);
      && f != [] && f[0][0] == '\''
      && (f == ["'"] + Fields(s) || (Fields(s) != [] && f == ["'" + Fields(s)[0]] + Fields(s)[1..]))
  {
    if s == "" || IsSpace(s[0]) {
      FieldsWord("'", s);
    } else {
      var k := LeadingNonSpace(s);
      var w := "'" + s[..k];
      assert s == s[..k] + s[k..];
      assert "'" + s == w + s[k..];
      FieldsWord(w, s[k..]);
      assert Fields(s)[1..] == Fields(s[k..]);
    }
  }

  lemma {:induction false} FieldsKeepNoQuote(s: string)
    requires NoQuote(s)
    ensures forall i | 0 <= i < |Fields(s)| :: NoQuote(Fields(s)[i])
    decreases |s|
  {
    if s != "" {
      if IsSpace(s[0]) {
        FieldsKeepNoQuote(s[1..]);
      } else {
        FieldsKeepNoQuote(s[LeadingNonSpace(s)..]);
      }
    }
  }

  lemma {:induction false} LastSpace(s: string) returns (a: string, c: char, w: string)
    requires !NoSpace(s)
    ensures s == a + [c] + w && IsSpace(c) && NoSpace(w)
  {
    var n := |s| - 1;
    if IsSpace(s[n]) {
      a, c, w := s[..n], s[n], "";
    } else {
      assert s == s[..n] + [s[n]];
      var w0;
      a, c, w0 := LastSpace(s[..n]);
      w := w0 + [s[n]];
    }
  }

  /** The fields of a quoted name: only the first opens a quote, and it takes the last one to close it. */
  ghost predicate QuotedFields(q: seq<string>) {
    && q != [] && (forall i | 0 <= i < |q| :: q[i] != "")
    && q[0][0] == '\'' && q[|q| - 1][|q[|q| - 1]| - 1] == '\''
    && (|q| == 1 <==> Paired(q[|q| - 1]))
    && (forall i | 0 < i < |q| - 1 :: q[i][0] != '\'')
  }

  lemma FieldsOfQuoted(inner: string, tail: string)
    requires NoQuote(inner) && Blank(tail)
    ensures QuotedFields(Fields("'" + inner + "'" + tail))
  {
    hide Fields;
    if NoSpace(inner) {
      var w := "'" + inner + "'";
      OneField(w, tail);
    } else {
      var a, c, w := LastSpace(inner);
      assert NoQuote(a) by {
        assert forall i | 0 <= i < |a| :: a[i] == inner[i];
      }
      var front, last := "'" + a, w + "'";
      assert "'" + inner + "'" + tail == front + [c] + (last + tail);
      FieldsConcat(front, c, last + tail);
      OneField(last, tail);
      QuoteInFront(a);
      FieldsKeepNoQuote(a);
      FieldsAreWords(front);
      FieldsAreWords(a);
      LastIsNotPaired(inner, a, c, w);
      var q := Fields(front) + [last];
      assert forall i | 0 < i < |q| - 1 :: q[i] == Fields(front)[i] && q[i] in Fields(a);
    }
  }

  lemma LastIsNotPaired(inner: string, a: string, c: char, w: string)
    requires NoQuote(inner) && inner == a + [c] + w
    ensures !Paired(w + "'")
  {
    if w != "" {
      assert w[0] == inner[|a| + 1];
      assert (w + "'")[0] == w[0];
    }
  }

  lemma {:induction false} OpenerIsSeventh(items: seq<string>, i: int)
    requires 6 <= i < |items| && items[6] != "" && items[6][0] == '\''
    requires forall k | 6 < k <= i :: items[k] != "" && items[k][0] != '\''
    ensures Opener(items, i) == 6
    decreases i
  {
    if i > 6 {
      OpenerIsSeventh(items, i - 1);
    }
  }

  /** The backward loop leaves the six words and one name. */
  lemma RejoinsToSeven(words: seq<string>, q: seq<string>)
    requires |words| == 6 && QuotedFields(q)
    ensures |Rejoined(words + q)| == 7 && Rejoined(words + q)[..6] == words
  {
    hide TrimQuotes, Join, Opener;
    var items := words + q;
    assert forall i | 0 <= i < |q| :: items[6 + i] == q[i];
    if |q| > 1 {
      OpenerIsSeventh(items, |items| - 2);
    }
  }

  /** A text is what trimming leaves, padded. */
  lemma {:induction false} TrimLeftPart(s: string) returns (l: string)
    ensures Blank(l) && s == l + TrimLeft(s) && (TrimLeft(s) == "" || !IsSpace(TrimLeft(s)[0]))
  {
    if s != "" && IsSpace(s[0]) {
      var l0 := TrimLeftPart(s[1..]);
      l := [s[0]] + l0;
    } else {
      l := "";
    }
  }

  lemma {:induction false} TrimRightPart(s: string) returns (r: string)
    ensures Blank(r) && s == TrimRight(s) + r && (TrimRight(s) == "" || !IsSpace(TrimRight(s)[|TrimRight(s)| - 1]))
  {
    if s != "" && IsSpace(s[|s| - 1]) {
      var r0 := TrimRightPart(s[..|s| - 1]);
      r := r0 + [s[|s| - 1]];
      assert s == s[..|s| - 1] + [s[|s| - 1]];
    } else {
      r := "";
    }
  }

  lemma TrimParts(s: string) returns (l: string, r: string)
    ensures Blank(l) && Blank(r) && s == l + Trim(s) + r && Trimmed(Trim(s))
  {
    l := TrimLeftPart(s);
    r := TrimRightPart(TrimLeft(s));
    var t := TrimLeft(s);
    assert Trim(s) != "" ==> Trim(s)[0] == t[0];
    assert s == l + (Trim(s) + r);
  }

  /** Trailing and leading padding inside the quotes is dropped. */
  lemma NameOfQuoted(head: string, text: string, tail: string)
    requires NoQuote(head) && NoParen(head) && Blank(tail) && NoQuote(text) && NoParen(text)
    ensures ParseNames(head + "'" + text + "'" + tail) == Ok(Names(Trim(text), ""))
  {
    hide Trim, NoQuote, NoParen;
    QuotedHasNoParen(head, text, tail);
    QuotedParts(head, text, tail);
    NameBeforeQuote(text, tail);
  }

  lemma QuotedHasNoParen(head: string, text: string, tail: string)
    requires NoParen(head) && Blank(tail) && NoParen(text)
    ensures '(' !in head + "'" + text + "'" + tail
  {
    BlankHasNoQuote(tail);
  }

  lemma QuotedParts(head: string, text: string, tail: string)
    requires NoQuote(head)
    ensures
      var line := head + "'" + text + "'" + tail;
      FirstIndex(line, '\'') == |head| && line[|head| + 1..] == text + "'" + tail
  {
    var line := head + "'" + text + "'" + tail;
    var rest := text + "'" + tail;
    assert line == head + ['\''] + rest;
    FirstIndexAt(head, '\'', rest);
  }

  /** What the second search sees: the name up to its closing quote. */
  lemma NameBeforeQuote(text: string, tail: string)
    requires Blank(tail) && NoQuote(text)
    ensures
      var rest := Trim(text + "'" + tail);
      var second := FirstIndex(rest, '\'');
      second >= 0 && Trim(rest[..second]) == Trim(text)
  {
    hide Trim;
    var l, r := TrimParts(text);
    var name := Trim(text);
    assert NoQuote(name) && NoQuote(r) by {
      assert forall i | 0 <= i < |name| :: name[i] == text[|l| + i];
      assert forall i | 0 <= i < |r| :: r[i] == text[|l| + |name| + i];
    }
    if name == "" {
      assert Blank(text);
      TrimPadded(text, "'", tail);
      TrimPadded("", "", "");
      assert "" + "" + "" == "" && "'"[..0] == "";
    } else {
      var kept := name + r + "'";
      assert text + "'" + tail == l + kept + tail;
      TrimPadded(l, kept, tail);
      assert kept == (name + r) + ['\''] + "";
      FirstIndexAt(name + r, '\'', "");
      assert kept[..|name + r|] == name + r;
      assert name + r == "" + name + r;
      TrimPadded("", name, r);
    }
  }

  /** The regular expression needs four quotes. */
  lemma TwoQuotesAreNoPair(head: string, text: string, tail: string)
    requires NoQuote(head) && NoQuote(text) && NoQuote(tail)
    ensures FindPair(head + "'" + text + "'" + tail) == NoMatch
  {
    hide FindPair, Matches;
    var line := head + "'" + text + "'" + tail;
    FindPairIsLeftmostLongest(line);
    forall i: nat, j: nat, k: nat ensures !Matches(line, i, j, k) {
      TwoQuotesDoNotMatch(head, text, tail, i, j, k);
    }
  }

  lemma TwoQuotesDoNotMatch(head: string, text: string, tail: string, open: nat, mid: nat, close: nat)
    requires NoQuote(head) && NoQuote(text) && NoQuote(tail)
    ensures !Matches(head + "'" + text + "'" + tail, open, mid, close)
  {
    hide NoQuote;
    var line := head + "'" + text + "'" + tail;
    if Matches(line, open, mid, close) {
      CharAt(line, "( '", open, 2);
      CharAt(line, "' - '", mid, 0);
      CharAt(line, "' - '", mid, 4);
      ThirdQuote(head, text, tail, open + 2, mid, mid + 4);
    }
  }

  lemma ThirdQuote(head: string, text: string, tail: string, x: nat, y: nat, z: nat)
    requires NoQuote(head) && NoQuote(text) && NoQuote(tail)
    requires x < y < z < |head + "'" + text + "'" + tail|
    ensures var line := head + "'" + text + "'" + tail; !(line[x] == line[y] == line[z] == '\'')
  {
    var line := head + "'" + text + "'" + tail;
    assert forall i | 0 <= i < |head| :: line[i] == head[i];
    assert forall i | 0 <= i < |text| :: line[|head| + 1 + i] == text[i];
    assert forall i | 0 <= i < |tail| :: line[|head| + 2 + |text| + i] == tail[i];
    assert forall i | |head| < i <= |head| + |text| :: line[i] == text[i - |head| - 1];
    assert forall i | |head| + 1 + |text| < i < |line| :: line[i] == tail[i - |head| - 2 - |text|];
  }

  /** A line without a peer: six words and a quoted name, with any gaps and padding. */
  function LooseText(words: seq<string>, gaps: seq<string>, text: string, tail: string): string
    requires |words| == |gaps|
  {
    Spread(words, gaps) + "'" + text + "'" + tail
  }

  ghost predicate Loose(words: seq<string>, gaps: seq<string>, text: string, tail: string) {
    |words| == 6 && Head(words, gaps) && Blank(tail) && NoQuote(text)
  }

  lemma LooseFields(words: seq<string>, gaps: seq<string>, text: string, tail: string)
    requires Loose(words, gaps, text, tail)
    ensures
      var items := Fields(LooseText(words, gaps, text, tail));
      |items| > 6 && items[..6] == words && |Rejoined(items)| == 7 && Rejoined(items)[..6] == words
  {
    hide Fields, Spread, Rejoined, NoQuote;
    var rest := "'" + text + "'" + tail;
    assert LooseText(words, gaps, text, tail) == Spread(words, gaps) + rest;
    FieldsSpread(words, gaps, rest);
    FieldsOfQuoted(text, tail);
    RejoinsToSeven(words, Fields(rest));
  }

  /** A name with an opening parenthesis is not found: the parser then looks for two names. */
  lemma LooseNames(words: seq<string>, gaps: seq<string>, text: string, tail: string)
    requires Loose(words, gaps, text, tail)
    ensures ParseNames(LooseText(words, gaps, text, tail)) == if NoParen(text) then Ok(Names(Trim(text), "")) else Err
  {
    hide Spread, Trim, FindPair;
    var head := Spread(words, gaps);
    HeadIsPlain(words, gaps);
    BlankHasNoQuote(tail);
    if NoParen(text) {
      NameOfQuoted(head, text, tail);
    } else {
      TwoQuotesAreNoPair(head, text, tail);
      ParenInside(head, text, tail);
    }
  }

  lemma ParenInside(head: string, text: string, tail: string)
    requires !NoParen(text)
    ensures '(' in head + "'" + text + "'" + tail
  {
    var i :| 0 <= i < |text| && text[i] == '(';
    assert (head + "'" + text + "'" + tail)[|head| + 1 + i] == '(';
  }

  /**
   * A line without a peer, whatever its quoted name: a `???` line is a down port, with the name if it can be read; a
   * split-mode (SDR) line is dropped whatever words its name has; any other describes the device without an uplink, if
   * its rate and its name can be read.
   */
  lemma PeerlessLine(words: seq<string>, gaps: seq<string>, text: string, tail: string, portState: bool)
    requires Loose(words, gaps, text, tail)
    ensures
      var name := if NoParen(text) then Some(Trim(text)) else None;
      ParseLine(LooseText(words, gaps, text, tail), portState) ==
        if words[5] == "???" then
          if portState then Down(words[0], words[1], words[2], words[3], name) else Skip
        else if words[5] == "SDR" then Skip
        else if ParseRate(words[4], words[5]).Err? || name.None? then Failure
        else Link(words[0], words[1], words[2], words[3], name.value, ParseRate(words[4], words[5]).value, None)
  {
    hide Fields, Spread, ParseRate, ParseNames, Rejoined, LooseText, NoQuote, NoParen, Blank, Trim;
    LooseFields(words, gaps, text, tail);
    LooseNames(words, gaps, text, tail);
    var items := Fields(LooseText(words, gaps, text, tail));
  }

  // ---------------------------------------------------------------- rates

  /** The signalling and the effective rate of one lane at each speed, in bits per second. */
  const LANES: seq<(string, int, int)> := [
    ("SDR", 2_500_000_000, 2_000_000_000), ("DDR", 5_000_000_000, 4_000_000_000),
    ("QDR", 10_000_000_000, 8_000_000_000), ("FDR10", 10_312_500_000, 10_000_000_000),
    ("FDR", 14_062_500_000, 13_640_000_000), ("EDR", 25_781_250_000, 25_000_000_000),
    ("HDR", 50_000_000_000, 50_000_000_000), ("NDR", 100_000_000_000, 100_000_000_000),
    ("XDR", 250_000_000_000, 250_000_000_000)]

  lemma LaneRatesAre()
    ensures |LANES| == 9
    ensures forall k | 0 <= k < 9 ::
      && LaneRate(LANES[k].0).Some?
      && LaneRate(LANES[k].0).value.0 * 1_000_000_000.0 == LANES[k].1 as real
      && LaneRate(LANES[k].0).value.1 * 1_000_000_000.0 == LANES[k].2 as real
    ensures forall speed | LaneRate(speed).Some? :: exists k | 0 <= k < 9 :: LANES[k].0 == speed
  {
    forall speed | LaneRate(speed).Some? ensures exists k | 0 <= k < 9 :: LANES[k].0 == speed {
      assert LANES[0].0 == "SDR" && LANES[1].0 == "DDR" && LANES[2].0 == "QDR" && LANES[3].0 == "FDR10"
        && LANES[4].0 == "FDR" && LANES[5].0 == "EDR" && LANES[6].0 == "HDR" && LANES[7].0 == "NDR"
        && LANES[8].0 == "XDR";
    }
  }

  /**
   * `4x` is four lanes: the rates of a width of `n` lanes are `n` times those of one, eight bits to the byte; at any
   * other speed there is none.
   */
  lemma RatesOfLanes(n: nat, speed: string)
    ensures forall k | 0 <= k < |LANES| && LANES[k].0 == speed ::
      && ParseRate(Dec(n) + "x", speed).Ok?
      && var rates := ParseRate(Dec(n) + "x", speed).value;
      && rates.raw * 8.0 == (n * LANES[k].1) as real && rates.effective * 8.0 == (n * LANES[k].2) as real
    ensures (forall k | 0 <= k < |LANES| :: LANES[k].0 != speed) ==> ParseRate(Dec(n) + "x", speed) == Err
  {
    hide LaneRate, LANES, ParseRate, Dec, PerGbps;
    LaneRatesAre();
    var base := OfLanes(n, speed);
    forall k | 0 <= k < |LANES| && LANES[k].0 == speed
      ensures ParseRate(Dec(n) + "x", speed).Ok?
      ensures
        var rates := ParseRate(Dec(n) + "x", speed).value;
        rates.raw * 8.0 == (n * LANES[k].1) as real && rates.effective * 8.0 == (n * LANES[k].2) as real
    {
      InBytes(n, base, LaneRate(speed).value.0, LANES[k].1);
      InBytes(n, base, LaneRate(speed).value.1, LANES[k].2);
    }
  }

  lemma OfLanes(n: nat, speed: string) returns (base: real)
    ensures base * 8.0 == n as real * 1_000_000_000.0
    ensures ParseRate(Dec(n) + "x", speed).Ok? <==> LaneRate(speed).Some?
    ensures LaneRate(speed).Some? ==>
      var rates := ParseRate(Dec(n) + "x", speed).value;
      rates.raw == LaneRate(speed).value.0 * base && rates.effective == LaneRate(speed).value.1 * base
  {
    hide LaneRate, PerGbps, ParseRate, FirstDigits, Dec, DigitsValue;
    FirstDigitsOf(n);
    EightBits(n);
    base := RateOf(Dec(n) + "x", speed);
  }

  lemma FirstDigitsOf(n: nat)
    ensures FirstDigits(Dec(n) + "x") == Dec(n) && Dec(n) != "" && DigitsValue(Dec(n)) == n
  {
    LeadingDigitsAre(Dec(n), "x");
    assert (Dec(n) + "x")[0] == Dec(n)[0];
  }

  lemma RateOf(width: string, speed: string) returns (base: real)
    requires FirstDigits(width) != ""
    ensures base == PerGbps(DigitsValue(FirstDigits(width)))
    ensures ParseRate(width, speed).Ok? <==> LaneRate(speed).Some?
    ensures LaneRate(speed).Some? ==>
      var rates := ParseRate(width, speed).value;
      rates.raw == LaneRate(speed).value.0 * base && rates.effective == LaneRate(speed).value.1 * base
  {
    hide LaneRate, PerGbps, FirstDigits, DigitsValue;
    base := PerGbps(DigitsValue(FirstDigits(width)));
  }

  lemma EightBits(lanes: nat)
    ensures PerGbps(lanes) * 8.0 == lanes as real * 1_000_000_000.0
  {
  }

  lemma InBytes(n: nat, base: real, rate: real, bits: int)
    requires base * 8.0 == n as real * 1_000_000_000.0 && rate * 1_000_000_000.0 == bits as real
    ensures rate * base * 8.0 == (n * bits) as real
  {
    assert rate * base * 8.0 == rate * (base * 8.0);
    assert rate * (n as real * 1_000_000_000.0) == n as real * (rate * 1_000_000_000.0);
    assert (n * bits) as real == n as real * bits as real;
  }

  /** The effective rate is never above the signalling rate, and equals it from HDR on (or without lanes). */
  lemma EffectiveIsAtMostRaw(width: string, speed: string)
    requires ParseRate(width, speed).Ok?
    ensures
      var rates := ParseRate(width, speed).value;
      && 0.0 <= rates.effective <= rates.raw
      && (rates.effective == rates.raw <==> speed in {"HDR", "NDR", "XDR"} || DigitsValue(FirstDigits(width)) == 0)
  {
    hide FirstDigits, LaneRate, DigitsValue;
    LaneRatesAreOrdered(speed);
    var (raw, effective) := LaneRate(speed).value;
    var lanes := DigitsValue(FirstDigits(width));
    var base := PerGbps(lanes);
    assert ParseRate(width, speed).value == Rates(raw * base, effective * base);
    assert base == 0.0 <==> lanes == 0;
    ScaledApart(raw, effective, base);
  }

  /** Two rates of one lane, of `base` lanes. */
  lemma ScaledApart(raw: real, effective: real, base: real)
    requires 0.0 <= effective <= raw && 0.0 <= base
    ensures 0.0 <= effective * base <= raw * base
    ensures effective * base == raw * base <==> effective == raw || base == 0.0
  {
    var gap := raw - effective;
    assert raw * base - effective * base == gap * base;
    if base > 0.0 && gap > 0.0 {
      assert gap * base > 0.0;
    } else if gap == 0.0 {
      assert gap * base == 0.0;
    } else {
      assert base == 0.0 && gap * base == 0.0;
    }
  }

  lemma LaneRatesAreOrdered(speed: string)
    requires LaneRate(speed).Some?
    ensures 0.0 < LaneRate(speed).value.1 <= LaneRate(speed).value.0
    ensures LaneRate(speed).value.1 == LaneRate(speed).value.0 <==> speed in {"HDR", "NDR", "XDR"}
  {
  }

  // ---------------------------------------------------------------- which lines stop the parse

  /** A split-mode port, once its name is one field again. */
  predicate SplitMode(line: string)
    requires |Fields(line)| >= 6
  {
    Rejoined(Fields(line))[5] == "SDR" && |Rejoined(Fields(line))| == 7
  }

  /** The line is about a link: it is neither short nor unplugged nor a split-mode port. */
  predicate AboutALink(line: string) {
    |Fields(line)| >= 6 && Fields(line)[5] != "???" && !SplitMode(line)
  }

  /** No digit in the width, or no known speed. */
  predicate Unrated(width: string, speed: string) {
    (forall i | 0 <= i < |width| :: !IsDigit(width[i]))
    || speed !in {"SDR", "DDR", "QDR", "FDR10", "FDR", "EDR", "HDR", "NDR", "XDR"}
  }

  lemma {:induction false} DigitsAreFound(width: string)
    ensures FirstDigits(width) == "" <==> forall i | 0 <= i < |width| :: !IsDigit(width[i])
  {
    if width != "" && !IsDigit(width[0]) {
      DigitsAreFound(width[1..]);
      assert forall i | 0 < i < |width| :: width[i] == width[1..][i - 1];
      assert forall i | 0 <= i < |width[1..]| :: width[1..][i] == width[i + 1];
    }
  }

  lemma RateFails(width: string, speed: string)
    ensures ParseRate(width, speed).Err? <==> Unrated(width, speed)
  {
    hide FirstDigits, DigitsValue;
    DigitsAreFound(width);
  }

  /** With a parenthesis: nothing matches the regular expression. Without: there are not two quotes. */
  ghost predicate Unnamed(line: string) {
    if '(' in line then forall i: nat, j: nat, k: nat :: !Matches(line, i, j, k)
    else forall i, j | 0 <= i < j < |line| :: !(line[i] == '\'' == line[j])
  }

  lemma NamesFail(line: string)
    ensures ParseNames(line).Err? <==> Unnamed(line)
  {
    hide FindPair, Matches, Trim;
    if '(' in line {
      FindPairIsLeftmostLongest(line);
    } else {
      QuotedNameFails(line);
    }
  }

  lemma QuotedNameFails(line: string)
    requires '(' !in line
    ensures ParseNames(line).Err? <==> forall i, j | 0 <= i < j < |line| :: !(line[i] == '\'' == line[j])
  {
    hide Trim;
    var first := FirstIndex(line, '\'');
    if first >= 0 {
      var after := line[first + 1..];
      TrimKeepsQuotes(after);
      assert forall j | first < j < |line| :: line[j] == after[j - first - 1];
      assert forall j | 0 <= j < |after| :: after[j] == line[first + 1 + j];
      if '\'' in after {
        var j :| 0 <= j < |after| && after[j] == '\'';
        assert line[first] == '\'' == line[first + 1 + j];
      } else {
        forall i, j | 0 <= i < j < |line| ensures !(line[i] == '\'' == line[j]) {
          if i >= first {
            assert line[j] == after[j - first - 1];
          } else {
            assert line[i] == line[..first][i];
          }
        }
      }
    } else {
      assert forall i | 0 <= i < |line| :: line[i] != '\'';
    }
  }

  lemma TrimKeepsQuotes(s: string)
    ensures '\'' in Trim(s) <==> '\'' in s
  {
    hide Trim;
    var l, r := TrimParts(s);
    var t := Trim(s);
    assert forall i | 0 <= i < |t| :: t[i] == s[|l| + i];
    forall i | 0 <= i < |s| && s[i] == '\'' ensures '\'' in t {
      PaddingHasNoQuote(l, t, r, i);
    }
  }

  lemma PaddingHasNoQuote(l: string, t: string, r: string, i: nat)
    requires Blank(l) && Blank(r) && i < |l + t + r| && (l + t + r)[i] == '\''
    ensures '\'' in t
  {
    var s := l + t + r;
    assert forall k | 0 <= k < |l| :: s[k] == l[k];
    assert forall k | 0 <= k < |r| :: s[|l| + |t| + k] == r[k];
    assert forall k | |l| + |t| <= k < |s| :: s[k] == r[k - |l| - |t|];
    assert s[i] == t[i - |l|];
  }

  /** The line makes the whole parse fail. */
  ghost predicate Fails(line: string) {
    AboutALink(line) && (Unrated(Rejoined(Fields(line))[4], Rejoined(Fields(line))[5]) || Unnamed(line))
  }

  /** The line names an uplink: its pair of names has a second one that is not blank. */
  predicate NamesUplink(line: string) {
    '(' in line && FindPair(line).Match? && Trim(line[FindPair(line).mid + 5..FindPair(line).close]) != ""
  }

  /** The line makes the parser index out of range: five fields, or an uplink named without eleven fields. */
  ghost predicate Panics(line: string) {
    |Fields(line)| == 5 || (AboutALink(line) && !Fails(line) && NamesUplink(line) && |Rejoined(Fields(line))| < 11)
  }

  /** Which lines make the parse fail, and which make it panic. */
  lemma LineStopsIff(line: string, portState: bool)
    ensures ParseLine(line, portState).Failure? <==> Fails(line)
    ensures ParseLine(line, portState).Panic? <==> Panics(line)
  {
    hide Fields, Rejoined, ParseRate, Unrated, Unnamed, FindPair, Trim;
    NamesFail(line);
    UplinkIsNamed(line);
    if |Fields(line)| >= 6 {
      var items := Rejoined(Fields(line));
      RateFails(items[4], items[5]);
    }
  }

  lemma UplinkIsNamed(line: string)
    ensures ParseNames(line).Ok? ==> (ParseNames(line).value.uplink != "" <==> NamesUplink(line))
  {
    hide FindPair, Trim, FirstIndex;
  }

  ghost predicate Stopping(line: string) {
    Fails(line) || Panics(line)
  }

  /** The first line of a text that makes the parse fail or panic. */
  ghost predicate StopsFirst(lines: seq<string>, i: int) {
    0 <= i < |lines| && Stopping(lines[i]) && forall j | 0 <= j < i :: !Stopping(lines[j])
  }

  ghost predicate NoneStops(lines: seq<string>) {
    forall i | 0 <= i < |lines| :: !Stopping(lines[i])
  }

  ghost predicate FailsFirst(lines: seq<string>) {
    exists i :: StopsFirst(lines, i) && Fails(lines[i])
  }

  ghost predicate PanicsFirst(lines: seq<string>) {
    exists i :: StopsFirst(lines, i) && Panics(lines[i])
  }

  /** How the parse of a text ends, read off its lines: the first line that stops it decides. */
  lemma TextStopsIff(out: string, portState: bool, o: Outcome)
    requires IsOutcome(ParseDevices(out, portState), o)
    ensures o.Parsed? <==> NoneStops(Split(out, '\n'))
    ensures o.Rejected? <==> FailsFirst(Split(out, '\n'))
    ensures o.Panicked? <==> PanicsFirst(Split(out, '\n'))
  {
    hide Run, Split, ParseLines, NoneStops, FailsFirst, PanicsFirst, IsTopology;
    LinesEnd(Split(out, '\n'), portState);
  }

  lemma LinesEnd(lines: seq<string>, portState: bool)
    ensures
      var end := Run(map[], ParseLines(lines, portState));
      && (end.Devices? <==> NoneStops(lines)) && (end.Failed? <==> FailsFirst(lines))
      && (end.Crashed? <==> PanicsFirst(lines))
  {
    hide Run, ParseLine, Fails, Panics, Stopping, FirstToStop, StopsFirst;
    var said := ParseLines(lines, portState);
    FirstStopDecides(map[], said);
    LinesStop(lines, portState);
    SameFirst(lines, said);
    if i :| 0 <= i < |lines| && Stopping(lines[i]) {
      var k := FirstStopping(said, i);
    }
  }

  lemma LinesStop(lines: seq<string>, portState: bool)
    ensures
      var said := ParseLines(lines, portState);
      && |said| == |lines|
      && forall i | 0 <= i < |lines| ::
        && (said[i].Failure? <==> Fails(lines[i])) && (said[i].Panic? <==> Panics(lines[i]))
        && (Stops(said[i]) <==> Stopping(lines[i]))
  {
    hide ParseLine, Fails, Panics;
    var said := ParseLines(lines, portState);
    forall i | 0 <= i < |lines|
      ensures (said[i].Failure? <==> Fails(lines[i])) && (said[i].Panic? <==> Panics(lines[i]))
    {
      LineStopsIff(lines[i], portState);
    }
  }

  lemma SameFirst(lines: seq<string>, said: seq<Line>)
    requires |said| == |lines| && forall i | 0 <= i < |lines| :: Stops(said[i]) <==> Stopping(lines[i])
    ensures forall i :: FirstToStop(said, i) <==> StopsFirst(lines, i)
    ensures forall i | StopsFirst(lines, i) :: 0 <= i < |lines| && Stopping(lines[i])
  {
    hide Stopping;
  }

  lemma FirstStopping(lines: seq<Line>, i: nat) returns (k: nat)
    requires i < |lines| && Stops(lines[i])
    ensures FirstToStop(lines, k)
  {
    k := 0;
    while !Stops(lines[k])
      invariant k <= i && forall j | 0 <= j < k :: !Stops(lines[j])
      decreases i - k
    {
      k := k + 1;
    }
  }

  lemma NextField(line: string, w: string, rest: string)
    requires Word(w) && line == w + " " + rest
    ensures Fields(line) == [w] + Fields(rest)
  {
    hide Fields;
    assert line == w + (" " + rest);
    FieldsWord(w, " " + rest);
    FieldsBlank(" ", rest);
  }

  /** Five fields. */
  lemma FiveFieldsPanic(portState: bool)
    ensures ParseLine("a b c d e", portState).Panic?
  {
    hide Fields;
    OneField("e", "");
    assert "e" + "" == "e";
    NextField("d e", "d", "e");
    NextField("c d e", "c", "d e");
    NextField("b c d e", "b", "c d e");
    NextField("a b c d e", "a", "b c d e");
    assert Fields("a b c d e") == ["a", "b", "c", "d", "e"];
  }

  /** Six fields, with a rate that can be read in the last two and a pair of names in front of it. */
  lemma EarlyPairPanics(portState: bool)
    ensures ParseLine("( 'x' - 'y' )4x QDR", portState).Panic?
  {
    hide Fields, ParseNames, ParseLine;
    var line := "( 'x' - 'y' )4x QDR";
    EarlyPairFields();
    NamesOfPair("", "x", "y", "4x QDR");
    assert "" + PairText("x", "y") + "4x QDR" == line;
    OneLetter();
    NamedTooEarly(line, portState);
  }

  lemma EarlyPairFields()
    ensures Fields("( 'x' - 'y' )4x QDR") == ["(", "'x'", "-", "'y'"] + [")4x", "QDR"]
  {
    hide Fields;
    var a, b := "( 'x' - 'y'", ")4x QDR";
    OneField("QDR", "");
    NextField(b, ")4x", "QDR");
    OneField("'y'", "");
    NextField("- 'y'", "-", "'y'");
    NextField("'x' - 'y'", "'x'", "- 'y'");
    NextField(a, "(", "'x' - 'y'");
    FieldsConcat(a, ' ', b);
    assert a + [' '] + b == "( 'x' - 'y' )4x QDR";
    assert "QDR" + "" == "QDR" && "'y'" + "" == "'y'";
  }

  lemma NamedTooEarly(line: string, portState: bool)
    requires Fields(line) == ["(", "'x'", "-", "'y'"] + [")4x", "QDR"] && ParseNames(line) == Ok(Names("x", "y"))
    ensures ParseLine(line, portState).Panic?
  {
    hide Fields, ParseNames, FirstDigits, DigitsValue;
    assert IsDigit(")4x"[1]);
    DigitsAreFound(")4x");
  }

  lemma OneLetter()
    ensures Trim("x") == "x" && Trim("y") == "y" && NoQuote("4x QDR")
  {
    TrimPadded("", "x", "");
    TrimPadded("", "y", "");
    assert "" + "x" + "" == "x" && "" + "y" + "" == "y";
  }

  /** Two names behind five words: the rate is looked at first, so such a line fails. */
  lemma LatePairFails(words: seq<string>, gaps: seq<string>, x: string, y: string, portState: bool)
    requires |words| == 5 && Head(words, gaps) && NoQuote(x) && NoQuote(y) && x != "" && y != ""
    ensures ParseLine(Spread(words, gaps) + PairText(x, y), portState) == Failure
  {
    hide Spread, PairText, NoQuote, NoParen, Word, Blank, Fields, ParseNames, Rejoined;
    var line := Spread(words, gaps) + PairText(x, y);
    PairStartsWithParen(words, gaps, x, y);
    var items := Fields(line);
    LastIsNoQuote(items);
    RateFails(items[4], "(");
  }

  lemma LastIsNoQuote(items: seq<string>)
    requires |items| >= 6 && items[|items| - 1] == ")"
    ensures Rejoined(items) == items
  {
  }

  lemma PairStartsWithParen(words: seq<string>, gaps: seq<string>, x: string, y: string)
    requires Head(words, gaps) && NoQuote(x) && NoQuote(y)
    ensures
      var items := Fields(Spread(words, gaps) + PairText(x, y));
      |items| > |words| && items[|words|] == "(" && items[|items| - 1] == ")"
  {
    hide Spread, NoQuote, NoParen, Fields, Word, Blank;
    var rest := "'" + x + "' - '" + y + "'";
    ParenIsWord();
    FieldsSpread(words, gaps, PairText(x, y));
    NextField(PairText(x, y), "(", rest + " )");
    FieldsConcat(rest, ' ', ")");
    OneField(")", "");
    assert rest + [' '] + ")" == rest + " )" && ")" + "" == ")";
    assert Fields(PairText(x, y)) == ["("] + Fields(rest) + [")"];
    assert words + Fields(PairText(x, y)) == words + ["("] + Fields(rest) + [")"];
  }

  lemma ParenIsWord()
    ensures Word("(") && Word(")") && Blank("")
  {
  }
}
