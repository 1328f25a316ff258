/** What single lines and values of a report mean: dividers and rows, the two keys searched for, the clock. */
module FullReportLines {
  import opened Wrappers
  import opened Text
  import opened Numbers
  import opened Ibswinfo
  import opened FullReport

  // ---------------------------------------------------------------- lines

  /** Five dashes make a divider; exactly one bar makes a row of what stands before and behind it. */
  lemma ItemsOfLine(line: string)
    ensures Divider in LineItems(line) <==> |line| >= 5 && forall k | 0 <= k < 5 :: line[k] == '-'
    ensures forall key, value :: Row(key, value) in LineItems(line) <==>
      exists l, r :: '|' !in l && '|' !in r && line == l + "|" + r && key == Trim(l) && value == Trim(r)
  {
    hide Trim, Split;
    assert |line| >= 5 ==> (line[..5] == "-----" <==> forall k | 0 <= k < 5 :: line[k] == '-');
    JoinSplit(line, '|');
    var columns := Split(line, '|');
    if |columns| == 2 {
      assert columns[1..] == [columns[1]];
      assert line == columns[0] + "|" + columns[1];
    }
    forall l, r | '|' !in l && '|' !in r && line == l + "|" + r ensures columns == [l, r] {
      assert line == l + ['|'] + r;
      SplitCons(l, '|', r);
      SplitSingle(r, '|');
    }
  }

  // ---------------------------------------------------------------- keys

  /** `PSU`, this digit and ` status` stand here. */
  ghost predicate PsuAt(key: string, i: int, d: char) {
    0 <= i && OccursAt(key, "PSU" + [d] + " status", i) && IsDigit(d)
  }

  lemma PsuHere(key: string, d: char)
    ensures PsuAt(key, 0, d) <==>
      |key| >= 11 && HasPrefix(key, "PSU") && key[3] == d && IsDigit(d) && HasPrefix(key[4..], " status")
  {
    var p := "PSU" + [d] + " status";
    if |key| >= 11 {
      assert key[..11] == key[..3] + [key[3]] + key[4..][..7];
      assert HasPrefix(key, "PSU") <==> key[..3] == "PSU";
      assert HasPrefix(key[4..], " status") <==> key[4..][..7] == " status";
      assert p[..3] == "PSU" && p[3] == d && p[4..] == " status";
      assert key[..11][..3] == key[..3] && key[..11][3] == key[3] && key[..11][4..] == key[4..][..7];
    }
  }

  lemma PsuLater(key: string)
    requires key != ""
    ensures forall i, d | i > 0 :: PsuAt(key, i, d) <==> PsuAt(key[1..], i - 1, d)
    ensures forall i, d | i >= 0 :: PsuAt(key[1..], i, d) <==> PsuAt(key, i + 1, d)
  {
    hide OccursAt;
    forall i: int, d | i > 0 ensures PsuAt(key, i, d) <==> PsuAt(key[1..], i - 1, d) {
      OccursLater(key, "PSU" + [d] + " status", i);
    }
  }

  lemma OccursLater(s: string, p: string, i: nat)
    requires s != "" && i > 0
    ensures OccursAt(s, p, i) <==> OccursAt(s[1..], p, i - 1)
  {
    if i + |p| <= |s| {
      assert s[i..i + |p|] == s[1..][i - 1..i - 1 + |p|];
    }
  }

  /** The id of a header is the digit of the leftmost `PSU<digit> status` in the key. */
  lemma {:induction false} HeaderIsLeftmost(key: string)
    ensures FindPsu(key).None? <==> forall i, d :: !PsuAt(key, i, d)
    ensures forall d :: FindPsu(key) == Some([d]) <==>
      exists i :: PsuAt(key, i, d) && forall j, e | 0 <= j < i :: !PsuAt(key, j, e)
    ensures FindPsu(key).Some? ==> |FindPsu(key).value| == 1
  {
    hide HasPrefix;
    if |key| < 11 {
      forall i, d ensures !PsuAt(key, i, d) {
        assert |"PSU" + [d] + " status"| == 11;
      }
    } else {
      PsuHere(key, key[3]);
      forall d ensures PsuAt(key, 0, d) ==> d == key[3] {
        PsuHere(key, d);
      }
      PsuLater(key);
      hide PsuAt;
      if !PsuAt(key, 0, key[3]) {
        HeaderIsLeftmost(key[1..]);
      } else {
        assert [key[3]][0] == key[3];
      }
    }
  }

  /** `fan#` stands here, followed by these digits and no more. */
  ghost predicate FanAt(key: string, i: int, id: string) {
    && 0 <= i && OccursAt(key, "fan#", i) && id != "" && id == LeadingRun(key[i + 4..])
  }

  /** The longest run of digits at the front. */
  ghost function LeadingRun(s: string): (d: string)
    ensures d <= s && AllDigits(d) && (|d| < |s| ==> !IsDigit(s[|d|]))
  {
    if s != "" && IsDigit(s[0]) then [s[0]] + LeadingRun(s[1..]) else ""
  }

  lemma {:induction false} RunIsLeading(s: string)
    ensures LeadingRun(s) == LeadingDigits(s)
  {
    if s != "" && IsDigit(s[0]) {
      RunIsLeading(s[1..]);
    }
  }

  lemma FanHere(key: string, id: string)
    ensures FanAt(key, 0, id) <==>
      |key| >= 5 && HasPrefix(key, "fan#") && IsDigit(key[4]) && id == LeadingDigits(key[4..])
  {
    if |key| >= 4 {
      RunIsLeading(key[4..]);
      assert HasPrefix(key, "fan#") <==> key[..4] == "fan#";
      assert key[0..4] == key[..4];
    }
  }

  lemma FanLater(key: string)
    requires key != ""
    ensures forall i, id | i > 0 :: FanAt(key, i, id) <==> FanAt(key[1..], i - 1, id)
    ensures forall i, id | i >= 0 :: FanAt(key[1..], i, id) <==> FanAt(key, i + 1, id)
  {
    hide LeadingRun;
    forall i, id | i > 0 ensures FanAt(key, i, id) <==> FanAt(key[1..], i - 1, id) {
      assert i + 4 <= |key| ==> key[i..i + 4] == key[1..][i - 1..i + 3] && key[i + 4..] == key[1..][i + 3..];
    }
  }

  /** The id of a fan is the digits behind the leftmost `fan#` that has some. */
  lemma {:induction false} FanIsLeftmost(key: string)
    ensures FindFan(key).None? <==> forall i, id :: !FanAt(key, i, id)
    ensures forall id :: FindFan(key) == Some(id) <==>
      exists i :: FanAt(key, i, id) && forall j, e | 0 <= j < i :: !FanAt(key, j, e)
  {
    hide HasPrefix, LeadingDigits;
    forall id ensures FanAt(key, 0, id) <==>
      |key| >= 5 && HasPrefix(key, "fan#") && IsDigit(key[4]) && id == LeadingDigits(key[4..])
    {
      FanHere(key, id);
    }
    if |key| < 5 {
      hide LeadingRun;
      assert forall i, id :: !FanAt(key, i, id);
    } else {
      FanLater(key);
      hide FanAt;
      var id := LeadingDigits(key[4..]);
      if !FanAt(key, 0, id) {
        FanIsLeftmost(key[1..]);
      }
    }
  }

  // ---------------------------------------------------------------- the clock

  /** Hours in one or two digits, minutes and seconds in two. */
  predicate IsClock(hours: string, minutes: string, seconds: string) {
    && 1 <= |hours| <= 2 && AllDigits(hours) && DigitsValue(hours) < 24
    && |minutes| == 2 && AllDigits(minutes) && DigitsValue(minutes) < 60
    && |seconds| == 2 && AllDigits(seconds) && DigitsValue(seconds) < 60
  }

  function SecondsOfDay(hours: string, minutes: string, seconds: string): nat
    requires IsClock(hours, minutes, seconds)
  {
    DigitsValue(hours) * 3600 + DigitsValue(minutes) * 60 + DigitsValue(seconds)
  }

  lemma ClockParts(hours: string, minutes: string, seconds: string, tail: string)
    requires IsClock(hours, minutes, seconds)
    ensures
      var s := hours + ":" + minutes + ":" + seconds + tail;
      var k := |hours|;
      && |s| == k + 6 + |tail| && s[..k] == hours && s[k] == ':' && s[k..][1..3] == minutes && s[k..][3] == ':'
      && s[k..][4..6] == seconds && s[k..][6..] == tail && s[k..][0] == ':'
      && IsDigit(s[0]) && (k == 2 <==> IsDigit(s[1])) && (k == 1 ==> s[1] == ':')
  {
    hide DigitsValue;
    var s, k := hours + ":" + minutes + ":" + seconds + tail, |hours|;
    assert s == hours + (":" + minutes + ":" + seconds + tail);
    assert s[k..] == ":" + minutes + ":" + seconds + tail;
    assert s[0] == hours[0] && (k == 2 ==> s[1] == hours[1]);
  }

  /** A time of day is its seconds, and a fraction behind a point or a comma counts in its first nine digits. */
  lemma ClockIsRead(hours: string, minutes: string, seconds: string, sep: char, f: string)
    requires IsClock(hours, minutes, seconds) && (sep == '.' || sep == ',') && AllDigits(f) && f != ""
    ensures
      var s, n := hours + ":" + minutes + ":" + seconds, SecondsOfDay(hours, minutes, seconds) as real;
      && ParseClock(s) == Some(n)
      && ParseClock(s + [sep] + f) == Some(n + Fraction(if |f| > 9 then f[..9] else f))
  {
    hide DigitsValue, Fraction, ParseClock, Pow10, SecondsOfDay;
    var s := hours + ":" + minutes + ":" + seconds;
    ClockThenTail(hours, minutes, seconds, "");
    assert s + "" == s;
    var frac := [sep] + f;
    ClockThenTail(hours, minutes, seconds, frac);
    assert s + frac == s + [sep] + f;
    assert frac[1..] == f;
    assert |frac| > 10 ==> frac[1..10] == f[..9];
    FractionIs(if |f| > 9 then f[..9] else f);
  }

  lemma ClockThenTail(hours: string, minutes: string, seconds: string, tail: string)
    requires IsClock(hours, minutes, seconds)
    ensures
      var s, n := hours + ":" + minutes + ":" + seconds + tail, SecondsOfDay(hours, minutes, seconds) as real;
      ParseClock(s) ==
        if tail == "" then Some(n)
        else if |tail| >= 2 && (tail[0] == '.' || tail[0] == ',') && AllDigits(tail[1..]) then
          var nanos := if |tail| > 10 then tail[1..10] else tail[1..];
          Some(n + DigitsValue(nanos) as real / Pow10(|nanos|) as real)
        else None
  {
    hide DigitsValue, Pow10;
    ClockParts(hours, minutes, seconds, tail);
  }

  /** Nothing else is a time of day. */
  lemma OnlyClocksAreRead(s: string)
    requires ParseClock(s).Some?
    ensures exists h, m, sec, tail | IsClock(h, m, sec) && s == h + ":" + m + ":" + sec + tail ::
      tail == "" || (|tail| >= 2 && tail[0] in ['.', ','] && AllDigits(tail[1..]))
  {
    hide DigitsValue;
    var k := if |s| >= 2 && IsDigit(s[0]) && IsDigit(s[1]) then 2 else 1;
    var rest := s[k..];
    var h, m, sec, tail := s[..k], rest[1..3], rest[4..6], rest[6..];
    assert rest == ":" + m + ":" + sec + tail;
    assert s == h + rest;
    assert IsClock(h, m, sec) && s == h + ":" + m + ":" + sec + tail;
  }

  // ---------------------------------------------------------------- days

  /** Days and a time of day, in seconds. */
  function DaysAndClock(days: string, clock: string): Option<real> {
    match (ParseFloat(days), ParseClock(clock))
    case (Some(n), Some(t)) => Some(n * 86400.0 + t)
    case _ => None
  }

  /** Before the only dash stand the days, without their first `d`; without a dash there is only a time of day. */
  lemma UptimeIsRead(a: string, b: string, clock: string)
    requires '-' !in a && '-' !in b && '-' !in clock && 'd' !in a
    ensures ParseUptime(a + "d" + b + "-" + clock) == DaysAndClock(a + b, clock)
    ensures ParseUptime(a + "-" + clock) == DaysAndClock(a, clock)
    ensures ParseUptime(clock) == ParseClock(clock)
  {
    hide ParseFloat, ParseClock, Split, WithoutFirstD;
    var days := a + "d" + b;
    FirstDGoes(a, b);
    SplitSingle(clock, '-');
    SplitCons(days, '-', clock);
    SplitCons(a, '-', clock);
    assert a + "d" + b + "-" + clock == days + ['-'] + clock && a + "-" + clock == a + ['-'] + clock;
  }

  lemma FirstDGoes(a: string, b: string)
    requires 'd' !in a
    ensures WithoutFirstD(a + "d" + b) == a + b && WithoutFirstD(a) == a
  {
    assert a + "d" + b == a + ['d'] + b;
    FirstIndexAt(a, 'd', b);
    assert (a + "d" + b)[..|a|] == a && (a + "d" + b)[|a| + 1..] == b;
  }

  // ---------------------------------------------------------------- a header seen before

  /**
   * A second header of a power supply, before the fourth divider, begins its record afresh, unless it has no value:
   * then the record goes on.
   */
  lemma SecondHeader(st: Scan, key: string, status: string)
    requires FindPsu(key).Some? && st.dividers < 4 && FieldOf(key).Other? && !HasPrefix(key, "uptime")
    requires FindPsu(key).value != "" && FindPsu(key).value in st.psus
    requires Step(st, Row(key, status)).Ok?
    ensures
      var id, next := FindPsu(key).value, Step(st, Row(key, status)).value;
      && next.psuId == id
      && next.psus == st.psus[id := if status == "" then st.psus[id] else PowerSupply("", status, "", "", None)]
  {
    hide FindPsu, FindFan, ParseFloat, ParseUptime, HasPrefix;
  }
}
