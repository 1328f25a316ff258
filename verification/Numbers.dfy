/** Decimal text. */
module Numbers {
  import opened Wrappers
  import opened Text

  predicate IsDigit(c: char) {
    '0' <= c <= '9'
  }

  predicate AllDigits(s: string) {
    forall i | 0 <= i < |s| :: IsDigit(s[i])
  }

  function DigitValue(c: char): (d: nat)
    requires IsDigit(c)
    ensures d < 10
  {
    c as int - '0' as int
  }

  function DigitChar(d: nat): (c: char)
    requires d < 10
    ensures IsDigit(c) && DigitValue(c) == d
  {
    ('0' as int + d) as char
  }

  function DigitsValue(s: string): nat
    requires AllDigits(s)
  {
    if s == "" then 0 else 10 * DigitsValue(s[..|s| - 1]) + DigitValue(s[|s| - 1])
  }

  function Pow10(n: nat): (p: nat)
    ensures p > 0
  {
    if n == 0 then 1 else 10 * Pow10(n - 1)
  }

  /** The digits a text starts with. */
  function LeadingDigits(s: string): (d: string)
    ensures AllDigits(d) && d <= s
    ensures |d| < |s| ==> !IsDigit(s[|d|])
  {
    if s == "" || !IsDigit(s[0]) then "" else [s[0]] + LeadingDigits(s[1..])
  }

  lemma {:induction false} LeadingDigitsAre(ds: string, tail: string)
    requires AllDigits(ds) && (tail == "" || !IsDigit(tail[0]))
    ensures LeadingDigits(ds + tail) == ds
  {
    if ds == "" {
      assert ds + tail == tail;
    } else {
      assert (ds + tail)[1..] == ds[1..] + tail;
      LeadingDigitsAre(ds[1..], tail);
      assert ds == [ds[0]] + ds[1..];
    }
  }

  /** The shortest decimal text of a natural number. */
  function Dec(n: nat): (s: string)
    ensures |s| > 0 && AllDigits(s) && DigitsValue(s) == n
  {
    if n < 10 then [DigitChar(n)]
    else
      var s := Dec(n / 10) + [DigitChar(n % 10)];
      assert s[..|s| - 1] == Dec(n / 10);
      s
  }

  /** Exactly two decimal digits. */
  function Dec2(n: nat): (s: string)
    requires n < 100
    ensures |s| == 2 && AllDigits(s) && DigitsValue(s) == n
  {
    var s := [DigitChar(n / 10), DigitChar(n % 10)];
    assert s[..1] == [DigitChar(n / 10)];
    assert [DigitChar(n / 10)][..0] == "";
    assert DigitsValue(s[..1]) == n / 10;
    s
  }

  function ParseUnsigned(s: string): Option<real> {
    var parts := Split(s, '.');
    if |parts| == 1 then
      if s != "" && AllDigits(s) then Some(DigitsValue(s) as real) else None
    else if |parts| == 2 && AllDigits(parts[0]) && AllDigits(parts[1]) && |parts[0]| + |parts[1]| > 0 then
      Some(DigitsValue(parts[0]) as real + DigitsValue(parts[1]) as real / Pow10(|parts[1]|) as real)
    else None
  }

  /** strconv.ParseFloat on plain decimals: an optional sign, digits, an optional fraction. */
  function ParseFloat(s: string): Option<real> {
    if s != "" && s[0] == '-' then
      match ParseUnsigned(s[1..])
      case Some(x) => Some(-x)
      case None => None
    else if s != "" && s[0] == '+' then ParseUnsigned(s[1..])
    else ParseUnsigned(s)
  }

  /** Parsing undoes printing, also with leading zeros. */
  lemma ParseFloatDigits(s: string)
    requires s != "" && AllDigits(s)
    ensures ParseFloat(s) == Some(DigitsValue(s) as real)
  {
    assert '.' !in s;
    SplitSingle(s, '.');
  }

  lemma DecRoundTrip(n: nat)
    ensures ParseFloat(Dec(n)) == Some(n as real)
  {
    ParseFloatDigits(Dec(n));
  }

  // ---------------------------------------------------------------- fractions

  /** What the digits behind the point are worth, each a tenth of the one before. */
  function Fraction(f: string): real
    requires AllDigits(f)
  {
    if f == "" then 0.0 else (DigitValue(f[0]) as real + Fraction(f[1..])) / 10.0
  }

  lemma Shifted(d: nat, p: nat, v: nat)
    ensures 10 * (d * p + v) == d * (10 * p) + 10 * v
  {
  }

  lemma {:induction false} FrontDigit(f: string)
    requires AllDigits(f) && f != ""
    ensures DigitsValue(f) == DigitValue(f[0]) * Pow10(|f| - 1) + DigitsValue(f[1..])
  {
    var n := |f| - 1;
    if n > 0 {
      var front, back := f[..n], f[1..];
      FrontDigit(front);
      assert back[..n - 1] == front[1..] && back[n - 1] == f[n] && front[0] == f[0];
      Shifted(DigitValue(f[0]), Pow10(n - 1), DigitsValue(front[1..]));
    } else {
      assert f[..0] == "" && f[1..] == "";
    }
  }

  lemma {:induction false} FractionIs(f: string)
    requires AllDigits(f)
    ensures DigitsValue(f) as real / Pow10(|f|) as real == Fraction(f)
  {
    if f != "" {
      FrontDigit(f);
      FractionIs(f[1..]);
      Tenth(DigitValue(f[0]), Pow10(|f| - 1), DigitsValue(f[1..]));
    }
  }

  lemma Tenth(d: nat, p: nat, v: nat)
    requires p > 0
    ensures (d * p + v) as real / (10 * p) as real == (d as real + v as real / p as real) / 10.0
  {
    var x := v as real / p as real;
    assert x * p as real == v as real;
    assert (d * p + v) as real == (d as real + x) * p as real;
    assert (10 * p) as real == 10.0 * p as real;
  }

  /** A decimal with a point, signed or not, is worth what it writes. */
  lemma DecimalRoundTrip(a: string, f: string)
    requires AllDigits(a) && AllDigits(f) && (a != "" || f != "")
    ensures
      var x := DigitsValue(a) as real + Fraction(f);
      && ParseFloat(a + "." + f) == Some(x)
      && ParseFloat("-" + a + "." + f) == Some(-x) && ParseFloat("+" + a + "." + f) == Some(x)
  {
    hide ParseUnsigned;
    var s := a + "." + f;
    UnsignedDecimal(a, f);
    assert s[0] == '.' || IsDigit(s[0]);
    assert "-" + a + "." + f == "-" + s && "+" + a + "." + f == "+" + s;
    assert ("-" + s)[1..] == s && ("+" + s)[1..] == s;
  }

  lemma UnsignedDecimal(a: string, f: string)
    requires AllDigits(a) && AllDigits(f) && (a != "" || f != "")
    ensures ParseUnsigned(a + "." + f) == Some(DigitsValue(a) as real + Fraction(f))
  {
    hide Split, DigitsValue, Fraction;
    assert a + "." + f == a + ['.'] + f;
    SplitCons(a, '.', f);
    SplitSingle(f, '.');
    FractionIs(f);
  }

  /** Digits, and possibly one point before, between or after them. */
  ghost predicate IsDecimal(s: string) {
    || (s != "" && AllDigits(s))
    || exists a, f | s == a + "." + f :: AllDigits(a) && AllDigits(f) && (a != "" || f != "")
  }

  /** Exactly the decimals are numbers, with at most one sign in front of them. */
  lemma ParsesIffDecimal(s: string)
    ensures ParseFloat(s).Some? <==> IsDecimal(s) || (s != "" && s[0] in ['-', '+'] && IsDecimal(s[1..]))
  {
    hide IsDecimal, ParseUnsigned;
    UnsignedIffDecimal(s);
    if s != "" {
      UnsignedIffDecimal(s[1..]);
      if IsDecimal(s) {
        DecimalHasNoSign(s);
      }
    }
  }

  lemma DecimalHasNoSign(s: string)
    requires s != "" && IsDecimal(s)
    ensures s[0] == '.' || IsDigit(s[0])
  {
  }

  lemma UnsignedIffDecimal(s: string)
    ensures ParseUnsigned(s).Some? <==> IsDecimal(s)
  {
    hide Split;
    JoinSplit(s, '.');
    var parts := Split(s, '.');
    if AllDigits(s) {
      SplitSingle(s, '.');
    } else if a, f :| s == a + "." + f && AllDigits(a) && AllDigits(f) && (a != "" || f != "") {
      assert s == a + ['.'] + f;
      SplitCons(a, '.', f);
      SplitSingle(f, '.');
    }
    if ParseUnsigned(s).Some? && |parts| == 2 {
      assert parts[1..] == [parts[1]];
      assert s == parts[0] + "." + parts[1];
    }
  }

  lemma ThreeDecimals()
    ensures ParseFloat("71.25") == Some(71.25) && ParseFloat("-0.5") == Some(-0.5) && ParseFloat("1.2.3") == None
  {
    hide ParseFloat, Fraction;
    SeventyOne();
    DecimalRoundTrip("71", "25");
    DecimalRoundTrip("0", "5");
    assert "71" + "." + "25" == "71.25" && "-" + "0" + "." + "5" == "-0.5";
    TwoPoints();
  }

  lemma SeventyOne()
    ensures DigitsValue("71") == 71 && DigitsValue("0") == 0
    ensures Fraction("25") == 0.25 && Fraction("5") == 0.5
  {
    assert "71"[..1] == "7" && "7"[..0] == "" && "0"[..0] == "";
    assert "25"[1..] == "5" && "5"[1..] == "";
    assert Fraction("") == 0.0;
    assert Fraction("5") == 0.5;
  }

  lemma TwoPoints()
    ensures ParseFloat("1.2.3") == None
  {
    SplitCons("1", '.', "2.3");
    SplitCons("2", '.', "3");
    assert "1.2.3" == "1" + ['.'] + "2.3" && "2.3" == "2" + ['.'] + "3";
  }
}
