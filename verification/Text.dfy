/** The parts of Go's `strings` package the collectors rely on, over sequences of runes. */
module Text {

  /** unicode.IsSpace */
  predicate IsSpace(c: char) {
    c == ' ' || '\t' <= c <= '\r' || c == '\U{85}' || c == '\U{A0}' || c == '\U{1680}' || '\U{2000}' <= c <= '\U{200A}'
    || c == '\U{2028}' || c == '\U{2029}' || c == '\U{202F}' || c == '\U{205F}' || c == '\U{3000}'
  }

  /** The twenty-five code points with the property White_Space. */
  lemma SpacesAre()
    ensures forall c :: IsSpace(c) <==>
      c in ['\t', '\n', '\U{0B}', '\U{0C}', '\r', ' ', '\U{85}', '\U{A0}', '\U{1680}', '\U{2000}', '\U{2001}',
            '\U{2002}', '\U{2003}', '\U{2004}', '\U{2005}', '\U{2006}', '\U{2007}', '\U{2008}', '\U{2009}',
            '\U{200A}', '\U{2028}', '\U{2029}', '\U{202F}', '\U{205F}', '\U{3000}']
  {
  }

  predicate Blank(s: string) {
    forall i | 0 <= i < |s| :: IsSpace(s[i])
  }

  predicate NoSpace(s: string) {
    forall i | 0 <= i < |s| :: !IsSpace(s[i])
  }

  predicate NoQuote(s: string) {
    forall i | 0 <= i < |s| :: s[i] != '\''
  }

  predicate NoParen(s: string) {
    forall i | 0 <= i < |s| :: s[i] != '('
  }

  function Spaces(n: nat): (s: string)
    ensures |s| == n && Blank(s)
    ensures forall c <- s :: c == ' '
  {
    seq(n, _ => ' ')
  }

  /** strings.HasPrefix */
  predicate HasPrefix(s: string, p: string) {
    p <= s
  }

  /** strings.HasSuffix */
  predicate HasSuffix(s: string, p: string) {
    |p| <= |s| && s[|s| - |p|..] == p
  }

  // ---------------------------------------------------------------- splitting

  /** strings.Split with a one-rune separator. */
  function Split(s: string, sep: char): (parts: seq<string>)
    ensures |parts| >= 1
  {
    if s == "" then [""]
    else
      var rest := Split(s[1..], sep);
      if s[0] == sep then [""] + rest else [[s[0]] + rest[0]] + rest[1..]
  }

  function Join(parts: seq<string>, sep: char): string {
    if |parts| == 0 then ""
    else if |parts| == 1 then parts[0]
    else parts[0] + [sep] + Join(parts[1..], sep)
  }

  lemma {:induction false} SplitCons(a: string, sep: char, b: string)
    requires sep !in a
    ensures Split(a + [sep] + b, sep) == [a] + Split(b, sep)
  {
    var s := a + [sep] + b;
    if a == "" {
      assert s[1..] == b;
    } else {
      assert s[1..] == a[1..] + [sep] + b;
      SplitCons(a[1..], sep, b);
      assert [a[0]] + a[1..] == a;
    }
  }

  lemma {:induction false} SplitSingle(a: string, sep: char)
    requires sep !in a
    ensures Split(a, sep) == [a]
  {
    if a != "" {
      SplitSingle(a[1..], sep);
      assert [a[0]] + a[1..] == a;
    }
  }

  /** Splitting undoes joining, for parts free of the separator. */
  lemma {:induction false} SplitJoin(parts: seq<string>, sep: char)
    requires |parts| > 0
    requires forall p <- parts :: sep !in p
    ensures Split(Join(parts, sep), sep) == parts
  {
    if |parts| == 1 {
      SplitSingle(parts[0], sep);
    } else {
      SplitCons(parts[0], sep, Join(parts[1..], sep));
      SplitJoin(parts[1..], sep);
    }
  }

  /** Splitting a text at one separator splits both halves. */
  lemma {:induction false} SplitConcat(a: string, sep: char, b: string)
    ensures Split(a + [sep] + b, sep) == Split(a, sep) + Split(b, sep)
  {
    var s := a + [sep] + b;
    if a == "" {
      assert s[1..] == b;
    } else {
      assert s[1..] == a[1..] + [sep] + b;
      SplitConcat(a[1..], sep, b);
    }
  }

  /** Joining undoes splitting, and no part holds the separator. */
  lemma {:induction false} JoinSplit(s: string, sep: char)
    ensures Join(Split(s, sep), sep) == s
    ensures forall i | 0 <= i < |Split(s, sep)| :: sep !in Split(s, sep)[i]
  {
    if s != "" {
      JoinSplit(s[1..], sep);
      var rest := Split(s[1..], sep);
      if s[0] == sep {
        assert Split(s, sep)[1..] == rest;
      } else {
        assert Split(s, sep)[1..] == rest[1..];
        assert |rest| == 1 ==> Join(Split(s, sep), sep) == [s[0]] + rest[0];
      }
    }
  }

  /** strings.SplitN(s, sep, 2) seen as a cut at the first separator. */
  function FirstIndex(s: string, c: char): (i: int)
    ensures -1 <= i < |s|
    ensures i >= 0 ==> s[i] == c && c !in s[..i]
    ensures i == -1 <==> c !in s
  {
    if s == "" then -1
    else if s[0] == c then 0
    else
      var i := FirstIndex(s[1..], c);
      if i < 0 then -1 else i + 1
  }

  lemma FirstIndexAt(a: string, c: char, b: string)
    requires c !in a
    ensures FirstIndex(a + [c] + b, c) == |a|
  {
    var s := a + [c] + b;
    assert s[|a|] == c && s[..|a|] == a;
  }

  // ---------------------------------------------------------------- trimming

  function TrimLeft(s: string): string {
    if s != "" && IsSpace(s[0]) then TrimLeft(s[1..]) else s
  }

  function TrimRight(s: string): string {
    if s != "" && IsSpace(s[|s| - 1]) then TrimRight(s[..|s| - 1]) else s
  }

  /** strings.TrimSpace */
  function Trim(s: string): string {
    TrimRight(TrimLeft(s))
  }

  /** Neither end is white space. */
  predicate Trimmed(s: string) {
    s == "" || (!IsSpace(s[0]) && !IsSpace(s[|s| - 1]))
  }

  lemma {:induction false} TrimLeftPadded(l: string, s: string)
    requires Blank(l)
    ensures TrimLeft(l + s) == TrimLeft(s)
  {
    if l == "" {
      assert l + s == s;
    } else {
      assert (l + s)[1..] == l[1..] + s;
      TrimLeftPadded(l[1..], s);
    }
  }

  lemma {:induction false} TrimRightPadded(s: string, r: string)
    requires Blank(r)
    ensures TrimRight(s + r) == TrimRight(s)
  {
    if r == "" {
      assert s + r == s;
    } else {
      assert (s + r)[..|s + r| - 1] == s + r[..|r| - 1];
      TrimRightPadded(s, r[..|r| - 1]);
    }
  }

  lemma TrimPadded(l: string, s: string, r: string)
    requires Blank(l) && Blank(r) && Trimmed(s)
    ensures Trim(l + s + r) == s
  {
    assert l + s + r == l + (s + r);
    TrimLeftPadded(l, s + r);
    if s == "" {
      assert s + r == r;
      TrimRightPadded("", r);
      TrimLeftPadded(r, "");
      assert r + "" == r;
    } else {
      assert TrimLeft(s + r) == s + r;
      TrimRightPadded(s, r);
    }
  }

  // ---------------------------------------------------------------- fields

  function LeadingNonSpace(s: string): (k: nat)
    ensures k <= |s| && NoSpace(s[..k])
    ensures k < |s| ==> IsSpace(s[k])
  {
    if s == "" || IsSpace(s[0]) then 0
    else
      var k := LeadingNonSpace(s[1..]);
      assert s[..k + 1] == [s[0]] + s[1..][..k];
      k + 1
  }

  /** strings.Fields: the maximal runs of non-space runes. */
  function Fields(s: string): (items: seq<string>)
    decreases |s|
  {
    if s == "" then []
    else if IsSpace(s[0]) then Fields(s[1..])
    else
      var k := LeadingNonSpace(s);
      [s[..k]] + Fields(s[k..])
  }

  predicate Word(w: string) {
    w != "" && NoSpace(w)
  }

  lemma {:induction false} FieldsBlank(pad: string, s: string)
    requires Blank(pad)
    ensures Fields(pad + s) == Fields(s)
  {
    if pad == "" {
      assert pad + s == s;
    } else {
      assert (pad + s)[1..] == pad[1..] + s;
      FieldsBlank(pad[1..], s);
    }
  }

  lemma {:induction false} LeadingWord(w: string, s: string)
    requires NoSpace(w) && (s == "" || IsSpace(s[0]))
    ensures LeadingNonSpace(w + s) == |w|
  {
    if w == "" {
      assert w + s == s;
    } else {
      assert (w + s)[1..] == w[1..] + s;
      LeadingWord(w[1..], s);
    }
  }

  lemma FieldsWord(w: string, s: string)
    requires Word(w) && (s == "" || IsSpace(s[0]))
    ensures Fields(w + s) == [w] + Fields(s)
  {
    LeadingWord(w, s);
    assert (w + s)[..|w|] == w && (w + s)[|w|..] == s;
  }

  /** Words separated by blank gaps; `gaps[i]` follows `words[i]`. */
  function Spread(words: seq<string>, gaps: seq<string>): string
    requires |words| == |gaps|
  {
    if words == [] then "" else words[0] + gaps[0] + Spread(words[1..], gaps[1..])
  }

  /** Fields recovers the words of any line, whatever the width of its gaps. */
  lemma {:induction false} FieldsSpread(words: seq<string>, gaps: seq<string>, tail: string)
    requires |words| == |gaps|
    requires forall i | 0 <= i < |words| :: Word(words[i])
    requires forall i | 0 <= i < |gaps| :: gaps[i] != "" && Blank(gaps[i])
    ensures Fields(Spread(words, gaps) + tail) == words + Fields(tail)
  {
    hide Fields, Word, NoSpace;
    if words == [] {
      assert Spread(words, gaps) + tail == tail;
    } else {
      var rest := Spread(words[1..], gaps[1..]) + tail;
      FieldsSpread(words[1..], gaps[1..], tail);
      FieldsBlank(gaps[0], rest);
      assert IsSpace(gaps[0][0]);
      FieldsWord(words[0], gaps[0] + rest);
      assert Spread(words, gaps) + tail == words[0] + (gaps[0] + rest);
      assert words == [words[0]] + words[1..];
    }
  }

  // ---------------------------------------------------------------- searching

  predicate OccursAt(s: string, p: string, i: nat) {
    i + |p| <= |s| && s[i..i + |p|] == p
  }

  /** strings.Index: the first occurrence, or -1. */
  function Index(s: string, p: string): (i: int)
    ensures -1 <= i && (i >= 0 ==> OccursAt(s, p, i) && forall j: nat | j < i :: !OccursAt(s, p, j))
    ensures i == -1 ==> forall j: nat :: !OccursAt(s, p, j)
  {
    IndexFrom(s, p, 0)
  }

  function IndexFrom(s: string, p: string, from: nat): (i: int)
    ensures i == -1 || (i >= from && OccursAt(s, p, i) && forall j: nat | from <= j < i :: !OccursAt(s, p, j))
    ensures i == -1 ==> forall j: nat | from <= j :: !OccursAt(s, p, j)
    decreases |s| - from
  {
    if from + |p| > |s| then -1
    else if OccursAt(s, p, from) then from
    else IndexFrom(s, p, from + 1)
  }

  /** The last occurrence, or -1: where a greedy `.+` before `p` stops. */
  function LastIndex(s: string, p: string): (i: int)
    ensures -1 <= i && (i >= 0 ==> OccursAt(s, p, i) && forall j: nat | i < j :: !OccursAt(s, p, j))
    ensures i == -1 ==> forall j: nat :: !OccursAt(s, p, j)
  {
    if |p| > |s| then -1 else LastIndexUpTo(s, p, |s| - |p|)
  }

  function LastIndexUpTo(s: string, p: string, last: nat): (i: int)
    requires last + |p| <= |s|
    ensures -1 <= i <= last
    ensures i >= 0 ==> OccursAt(s, p, i) && forall j: nat | i < j <= last :: !OccursAt(s, p, j)
    ensures i == -1 ==> forall j: nat | j <= last :: !OccursAt(s, p, j)
  {
    if OccursAt(s, p, last) then last
    else if last == 0 then -1
    else LastIndexUpTo(s, p, last - 1)
  }

  // ---------------------------------------------------------------- permutations

  /** Taking the same element out of two permutations leaves permutations. */
  lemma SameWithout<T>(a: seq<T>, b: seq<T>, i: nat)
    requires multiset(a) == multiset(b) && a != [] && i < |b| && b[i] == a[0]
    ensures multiset(a[1..]) == multiset(b[..i] + b[i + 1..])
  {
    assert a == [a[0]] + a[1..];
    assert b == b[..i] + [b[i]] + b[i + 1..];
    assert multiset(a[1..]) == multiset(a) - multiset{a[0]};
    assert multiset(b[..i] + b[i + 1..]) == multiset(b) - multiset{b[i]};
  }

  // ---------------------------------------------------------------- lines among other lines

  /** `lines` is `kept` with lines the parser does not react to put in anywhere. */
  predicate Interleaves(lines: seq<string>, kept: seq<string>, quiet: string -> bool) {
    if lines == [] then kept == []
    else
      || (kept != [] && lines[0] == kept[0] && Interleaves(lines[1..], kept[1..], quiet))
      || (quiet(lines[0]) && Interleaves(lines[1..], kept, quiet))
  }

  lemma {:induction false} InterleavesItself(lines: seq<string>, quiet: string -> bool)
    ensures Interleaves(lines, lines, quiet)
  {
    if lines != [] {
      InterleavesItself(lines[1..], quiet);
    }
  }
}
