/** anonymize.sh: identifiers replaced one after the other in the whole text. */
module Anonymize {
  import opened Wrappers
  import opened Text
  import opened Numbers

  /** sed 's|src|dst|g', for a source without special characters. */
  function ReplaceAll(s: string, src: string, dst: string): string
    requires src != ""
    decreases |s|
  {
    if |s| < |src| then s
    else if s[..|src|] == src then dst + ReplaceAll(s[|src|..], src, dst)
    else [s[0]] + ReplaceAll(s[1..], src, dst)
  }

  // ---------------------------------------------------------------- GUIDs

  predicate IsHex(c: char) {
    IsDigit(c) || 'a' <= c <= 'f' || 'A' <= c <= 'F'
  }

  predicate IsGuid(g: string) {
    |g| == 18 && g[0] == '0' && g[1] == 'x' && forall k | 2 <= k < 18 :: IsHex(g[k])
  }

  /** A match of `0x[0-9a-fA-F]{16}` at the front. */
  predicate GuidFirst(s: string) {
    |s| >= 18 && IsGuid(s[..18])
  }

  /** grep -ohE '0x[0-9a-fA-F]{16}' */
  function Guids(s: string): (gs: seq<string>)
    ensures forall i | 0 <= i < |gs| :: IsGuid(gs[i])
    decreases |s|
  {
    if s == "" then [] else if GuidFirst(s) then [s[..18]] + Guids(s[18..]) else Guids(s[1..])
  }

  function HexDigit(d: nat): (c: char)
    requires d < 16
    ensures IsHex(c)
  {
    if d < 10 then ('0' as int + d) as char else ('a' as int + d - 10) as char
  }

  function Pow16(n: nat): (p: nat)
    ensures p > 0
  {
    if n == 0 then 1 else 16 * Pow16(n - 1)
  }

  /** Exactly `width` hexadecimal digits. */
  function Hex(n: nat, width: nat): (s: string)
    requires n < Pow16(width)
    ensures |s| == width && forall k | 0 <= k < width :: IsHex(s[k])
  {
    if width == 0 then "" else Hex(n / 16, width - 1) + [HexDigit(n % 16)]
  }

  lemma {:induction false} HexIsInjective(a: nat, b: nat, width: nat)
    requires a < Pow16(width) && b < Pow16(width) && Hex(a, width) == Hex(b, width)
    ensures a == b
  {
    if width > 0 {
      var x, y := Hex(a, width), Hex(b, width);
      assert x[..width - 1] == Hex(a / 16, width - 1) && y[..width - 1] == Hex(b / 16, width - 1);
      assert x[width - 1] == HexDigit(a % 16) && y[width - 1] == HexDigit(b % 16);
      HexIsInjective(a / 16, b / 16, width - 1);
    }
  }

  /** printf '0x%016x' */
  function NumberedGuid(n: nat): (g: string)
    requires n < Pow16(16)
    ensures IsGuid(g)
  {
    var h := Hex(n, 16);
    assert forall k | 2 <= k < 18 :: ("0x" + h)[k] == h[k - 2];
    "0x" + h
  }

  lemma NumberedGuidsDiffer(a: nat, b: nat)
    requires a < Pow16(16) && b < Pow16(16) && NumberedGuid(a) == NumberedGuid(b)
    ensures a == b
  {
    hide Pow16, Hex;
    assert NumberedGuid(a)[2..] == Hex(a, 16) && NumberedGuid(b)[2..] == Hex(b, 16);
    HexIsInjective(a, b, 16);
  }

  /** Every GUID has its own number. */
  ghost predicate NumbersGuids(m: map<string, string>) {
    && (forall g <- m :: IsGuid(g) && IsGuid(m[g]))
    && (forall g, h | g in m && h in m && m[g] == m[h] :: g == h)
  }

  predicate Distinct(guids: seq<string>) {
    forall i, j | 0 <= i < j < |guids| :: guids[i] != guids[j]
  }

  /** The GUIDs of a list without repetitions are numbered from 1 on. */
  ghost predicate NumbersGuidsInOrder(m: map<string, string>, guids: seq<string>) {
    |guids| < Pow16(16) && forall i | 0 <= i < |guids| :: guids[i] in m && m[guids[i]] == NumberedGuid(i + 1)
  }

  method MapGuids(guids: seq<string>) returns (m: map<string, string>)
    requires |guids| < Pow16(16) && forall i | 0 <= i < |guids| :: IsGuid(guids[i])
    ensures forall g :: g in m <==> g in guids
    ensures forall g <- m :: exists n | 1 <= n <= |guids| :: m[g] == NumberedGuid(n)
    ensures NumbersGuids(m)
    ensures Distinct(guids) ==> NumbersGuidsInOrder(m, guids)
  {
    hide IsGuid, Pow16, NumberedGuid;
    m := map[];
    var index := 0;
    for i := 0 to |guids|
      invariant 0 <= index <= i
      invariant forall g :: g in m <==> g in guids[..i]
      invariant forall g <- m :: exists n | 1 <= n <= index :: m[g] == NumberedGuid(n)
      invariant NumbersGuids(m)
      invariant Distinct(guids) ==>
        index == i && forall j | 0 <= j < i :: guids[j] in m && m[guids[j]] == NumberedGuid(j + 1)
    {
      assert guids[..i + 1] == guids[..i] + [guids[i]];
      if guids[i] !in m {
        index := index + 1;
        NumberIsNew(m, index);
        m := m[guids[i] := NumberedGuid(index)];
      }
    }
    assert guids[..|guids|] == guids;
  }

  lemma NumberIsNew(m: map<string, string>, index: nat)
    requires 1 <= index < Pow16(16) && forall g <- m :: exists n | 1 <= n <= index - 1 :: m[g] == NumberedGuid(n)
    ensures forall g <- m :: m[g] != NumberedGuid(index)
  {
    hide Pow16, NumberedGuid;
    forall g | g in m ensures m[g] != NumberedGuid(index) {
      var n :| 1 <= n <= index - 1 && m[g] == NumberedGuid(n);
      if m[g] == NumberedGuid(index) {
        NumberedGuidsDiffer(n, index);
      }
    }
  }

  /** The substitutions in turn. */
  function InTurn(s: string, order: seq<string>, m: map<string, string>): string
    requires forall i | 0 <= i < |order| :: order[i] in m && order[i] != ""
  {
    if order == [] then s
    else ReplaceAll(InTurn(s, order[..|order| - 1], m), order[|order| - 1], m[order[|order| - 1]])
  }

  method SubstituteGuids(text: string, order: seq<string>, m: map<string, string>) returns (t: string)
    requires forall i | 0 <= i < |order| :: order[i] in m && order[i] != ""
    ensures t == InTurn(text, order, m)
  {
    hide ReplaceAll;
    t := text;
    for i := 0 to |order|
      invariant t == InTurn(text, order[..i], m)
    {
      assert order[..i + 1][..i] == order[..i];
      t := ReplaceAll(t, order[i], m[order[i]]);
    }
    assert order[..|order|] == order;
  }

  // ---------------------------------------------------------------- names

  /** [[:space:]] */
  predicate PosixSpace(c: char) {
    c == ' ' || '\t' <= c <= '\r'
  }

  function LeadingSpaces(s: string): (k: nat)
    ensures k <= |s|
  {
    if s != "" && PosixSpace(s[0]) then 1 + LeadingSpaces(s[1..]) else 0
  }

  datatype Pair = Pair(left: string, right: string)

  /** A match at the front of the pattern for `( '...' - '...' )`; its groups hold no quote, so they are forced. */
  function MatchHere(s: string): Option<Pair> {
    if !HasPrefix(s, "( '") then None
    else
      var rest := s[3..];
      var end := FirstIndex(rest, '\'');
      if end < 1 then None
      else
        match MatchRight(rest[end + 1..])
        case None => None
        case Some(right) => Some(Pair(rest[..end], right))
  }

  /** What follows some white space and then this character. */
  function Past(s: string, c: char): Option<string> {
    var k := LeadingSpaces(s);
    if 1 <= k < |s| && s[k] == c then Some(s[k + 1..]) else None
  }

  /** The name that a quote, a space and a parenthesis close. */
  function Closed(s: string): Option<string> {
    var end := FirstIndex(s, '\'');
    if end < 1 || end + 2 >= |s| || !PosixSpace(s[end + 1]) || s[end + 2] != ')' then None else Some(s[..end])
  }

  /** The part of the pattern after the first name. */
  function MatchRight(s: string): Option<string> {
    match Past(s, '-')
    case None => None
    case Some(t) =>
      match Past(t, '\'')
      case None => None
      case Some(u) => Closed(u)
  }

  /** The leftmost match. */
  function MatchPair(s: string): Option<Pair> {
    if s == "" then None else if MatchHere(s).Some? then MatchHere(s) else MatchPair(s[1..])
  }

  /** HCA-[0-9]|mlx[0-9]_[0-9] at the front. */
  predicate HcaHere(s: string) {
    || (HasPrefix(s, "HCA-") && |s| > 4 && IsDigit(s[4]))
    || (HasPrefix(s, "mlx") && |s| > 5 && IsDigit(s[3]) && s[4] == '_' && IsDigit(s[5]))
  }

  /** The same anywhere. */
  predicate LooksLikeHca(s: string) {
    s != "" && (HcaHere(s) || LooksLikeHca(s[1..]))
  }

  /** ${line%% *} */
  function FirstToken(line: string): string {
    var i := FirstIndex(line, ' ');
    if i < 0 then line else line[..i]
  }

  /** printf '%02d' */
  function TwoDigits(n: nat): string {
    if n < 10 then "0" + Dec(n) else Dec(n)
  }

  function SwitchName(n: nat): string {
    "sw-" + TwoDigits(n)
  }

  function HcaName(n: nat): string {
    "hca-" + TwoDigits(n)
  }

  datatype Harvest = Harvest(sw: map<string, string>, hca: map<string, string>, switches: nat, hcas: nat)

  const NO_NAMES := Harvest(map[], map[], 0, 0)

  function AddSwitch(h: Harvest, name: string): Harvest {
    if name in h.sw then h else h.(switches := h.switches + 1, sw := h.sw[name := SwitchName(h.switches + 1)])
  }

  function AddHca(h: Harvest, name: string): Harvest {
    if name in h.hca then h else h.(hcas := h.hcas + 1, hca := h.hca[name := HcaName(h.hcas + 1)])
  }

  function HarvestLine(h: Harvest, line: string): Harvest {
    match MatchPair(line)
    case None => h
    case Some(p) =>
      if FirstToken(line) == "CA" then AddSwitch(AddHca(h, p.left), p.right)
      else if FirstToken(line) == "SW" then
        if LooksLikeHca(p.right) then AddHca(AddSwitch(h, p.left), p.right)
          else AddSwitch(AddSwitch(h, p.left), p.right)
      else h
  }

  function HarvestLines(lines: seq<string>): Harvest {
    if lines == [] then NO_NAMES else HarvestLine(HarvestLines(lines[..|lines| - 1]), lines[|lines| - 1])
  }

  /** The lines `read` sees: the last one only if a newline ends it. */
  function ReadLines(text: string): seq<string> {
    var lines := Split(text, '\n');
    lines[..|lines| - 1]
  }

  method HarvestNames(text: string) returns (sw: map<string, string>, hca: map<string, string>)
    ensures sw == HarvestLines(ReadLines(text)).sw && hca == HarvestLines(ReadLines(text)).hca
  {
    hide MatchPair, LooksLikeHca, FirstToken, SwitchName, HcaName, Split;
    var switches, hcas := 0, 0;
    sw, hca := map[], map[];
    var lines := ReadLines(text);
    for i := 0 to |lines|
      invariant Harvest(sw, hca, switches, hcas) == HarvestLines(lines[..i])
    {
      assert lines[..i + 1][..i] == lines[..i];
      var line := lines[i];
      var pair := MatchPair(line);
      if pair.Some? {
        var left, right := pair.value.left, pair.value.right;
        var kind := FirstToken(line);
        if kind == "CA" {
          if left !in hca {
            hcas := hcas + 1;
            hca := hca[left := HcaName(hcas)];
          }
          if right !in sw {
            switches := switches + 1;
            sw := sw[right := SwitchName(switches)];
          }
        } else if kind == "SW" {
          if left !in sw {
            switches := switches + 1;
            sw := sw[left := SwitchName(switches)];
          }
          if LooksLikeHca(right) {
            if right !in hca {
              hcas := hcas + 1;
              hca := hca[right := HcaName(hcas)];
            }
          } else if right !in sw {
            switches := switches + 1;
            sw := sw[right := SwitchName(switches)];
          }
        }
      }
    }
    assert lines[..|lines|] == lines;
  }

  function Quoted(name: string): string {
    "'" + name + "'"
  }

  /** The substitutions of quoted names, in turn. */
  function NamesInTurn(s: string, order: seq<string>, m: map<string, string>): string
    requires forall i | 0 <= i < |order| :: order[i] in m
  {
    if order == [] then s
    else
      var src := order[|order| - 1];
      ReplaceAll(NamesInTurn(s, order[..|order| - 1], m), Quoted(src), Quoted(m[src]))
  }

  method SubstituteNames(text: string, order: seq<string>, m: map<string, string>) returns (t: string)
    requires forall i | 0 <= i < |order| :: order[i] in m
    ensures t == NamesInTurn(text, order, m)
  {
    hide ReplaceAll;
    t := text;
    for i := 0 to |order|
      invariant t == NamesInTurn(text, order[..i], m)
    {
      assert order[..i + 1][..i] == order[..i];
      t := ReplaceAll(t, Quoted(order[i]), Quoted(m[order[i]]));
    }
    assert order[..|order|] == order;
  }

  /** The whole script: the GUIDs, then the switch names, then the HCA names, each in some order. */
  function Anonymized(text: string, guids: map<string, string>, guidOrder: seq<string>, sw: map<string, string>,
    swOrder: seq<string>, hca: map<string, string>, hcaOrder: seq<string>): string
    requires forall i | 0 <= i < |guidOrder| :: guidOrder[i] in guids && guidOrder[i] != ""
    requires forall i | 0 <= i < |swOrder| :: swOrder[i] in sw
    requires forall i | 0 <= i < |hcaOrder| :: hcaOrder[i] in hca
  {
    NamesInTurn(NamesInTurn(InTurn(text, guidOrder, guids), swOrder, sw), hcaOrder, hca)
  }
}
