/**
 * Round trips of the OCR parser's matchers: text written in the shape a
 * pattern describes is matched at its first character, and the captured
 * fields are the values the text was written from.
 */
module PatternRoundTrips {

  import opened Wrappers
  import opened Text
  import opened Patterns

  // ---------------------------------------------------------------------------
  // Names compared case-insensitively.

  lemma {:induction false} StartsWithItself(w: string, rest: string)
    ensures StartsWithCI(w + rest, w)
    decreases |w|
  {
    if w != [] {
      assert (w + rest)[1..] == w[1..] + rest;
      StartsWithItself(w[1..], rest);
    }
  }

  /** `a` and `b` disagree, case-insensitively, at a position both have. */
  predicate DiffersCI(a: string, b: string)
    decreases |a|
  {
    a != [] && b != [] && (!SameLetterCI(a[0], b[0]) || DiffersCI(a[1..], b[1..]))
  }

  /** A text that begins with `a` cannot begin with a name `a` differs from. */
  lemma {:induction false} DiffersExcludes(s: string, a: string, b: string)
    requires StartsWithCI(s, a) && DiffersCI(a, b)
    ensures !StartsWithCI(s, b)
    decreases |a|
  {
    if SameLetterCI(a[0], b[0]) {
      DiffersExcludes(s[1..], a[1..], b[1..]);
    }
  }

  /** No name of the list is spelled, case-insensitively, at the start of another. */
  predicate Distinguishable(names: seq<string>) {
    forall j, k :: 0 <= j < k < |names| ==> DiffersCI(names[k], names[j])
  }

  lemma WeekdaysDistinguishable()
    ensures Distinguishable(Weekdays)
  {
  }

  lemma MonthsDistinguishable()
    ensures Distinguishable(Months)
  {
    FirstMonthsDistinguishable();
    LastMonthsDistinguishable();
  }

  lemma FirstMonthsDistinguishable()
    ensures forall j, k :: 0 <= j < k < 6 ==> DiffersCI(Months[k], Months[j])
  {
    assert DiffersCI(Months[5], Months[0]);
    assert DiffersCI("i", "rs");
    assert DiffersCI(Months[4], Months[2]);
  }

  lemma LastMonthsDistinguishable()
    ensures forall j, k :: 0 <= j < k && 6 <= k < 12 ==> DiffersCI(Months[k], Months[j])
  {
    assert DiffersCI(Months[6], Months[0]);
    assert DiffersCI("llet", "n");
    assert DiffersCI(Months[6], Months[5]);
    assert DiffersCI(Months[7], Months[3]);
  }

  /** A text spelling the `k`-th of distinguishable names is read as that name. */
  lemma NameAtSpelled(t: string, i: nat, names: seq<string>, k: nat)
    requires i <= |t| && k < |names| && Distinguishable(names)
    requires StartsWithCI(t[i..], names[k])
    ensures NameAt(t, i, names) == Some(k)
  {
    forall j | 0 <= j < k
      ensures !StartsWithCI(t[i..], names[j])
    {
      DiffersExcludes(t[i..], names[k], names[j]);
    }
  }

  // ---------------------------------------------------------------------------
  // Text placed at an index.

  /** `t` holds `c` from index `i` on. */
  predicate SpelledAt(t: string, i: nat, c: string) {
    i + |c| <= |t| && forall k :: 0 <= k < |c| ==> t[i + k] == c[k]
  }

  lemma SpelledWhole(t: string)
    ensures SpelledAt(t, 0, t)
  {
  }

  lemma SpelledSplit(t: string, i: nat, a: string, b: string)
    requires SpelledAt(t, i, a + b)
    ensures SpelledAt(t, i, a) && SpelledAt(t, i + |a|, b)
  {
    assert forall k :: 0 <= k < |a| ==> (a + b)[k] == a[k];
    assert forall k :: 0 <= k < |b| ==> (a + b)[|a| + k] == b[k];
  }

  lemma SpelledStartsWith(t: string, i: nat, w: string)
    requires SpelledAt(t, i, w)
    ensures i <= |t| && StartsWithCI(t[i..], w)
  {
    assert t[i..] == w + t[i + |w|..];
    StartsWithItself(w, t[i + |w|..]);
  }

  /** The parts of `a`, a character, then `b`. */
  lemma SpelledAround(a: string, c: char, b: string)
    ensures var t := a + [c] + b;
            SpelledAt(t, 0, a) && t[|a|] == c && SpelledAt(t, |a| + 1, b) && |t| == |a| + 1 + |b|
  {
  }

  /** The parts of `a`, a character between single spaces, then `b`. */
  lemma SpelledAroundSpaced(a: string, c: char, b: string)
    ensures var t := a + " " + [c] + " " + b;
            SpelledAt(t, 0, a) && t[|a|] == ' ' && t[|a| + 1] == c && t[|a| + 2] == ' '
            && SpelledAt(t, |a| + 3, b) && |t| == |a| + 3 + |b|
  {
  }

  /** One space, then a character that is not one. */
  lemma SkipOneSpace(t: string, i: nat)
    requires i < |t| && IsRegexSpace(t[i]) && (i + 1 == |t| || !IsRegexSpace(t[i + 1]))
    ensures SkipSpaces(t, i) == i + 1
  {
  }

  lemma SkipNoSpace(t: string, i: nat)
    requires i <= |t| && (i == |t| || !IsRegexSpace(t[i]))
    ensures SkipSpaces(t, i) == i
  {
  }

  // ---------------------------------------------------------------------------
  // Numbers.

  lemma SmallNatDigits(n: nat)
    requires n < 100
    ensures n < 10 ==> NatToString(n) == [DigitChar(n)]
    ensures 10 <= n ==> NatToString(n) == [DigitChar(n / 10), DigitChar(n % 10)]
    ensures 10 <= n ==> TwoDigitValue(NatToString(n)[0], NatToString(n)[1]) == n
  {
  }

  /** `(\d{1,2})` then a separator reads back the number written there. */
  lemma DigitsThenReads(t: string, i: nat, h: nat, sep: char -> bool)
    requires h < 100 && SpelledAt(t, i, NatToString(h))
    requires i + |NatToString(h)| < |t| && sep(t[i + |NatToString(h)|]) && !IsDigit(t[i + |NatToString(h)|])
    ensures DigitsThen(t, i, sep) == Some((h, i + |NatToString(h)| + 1))
  {
    var s := NatToString(h);
    SmallNatDigits(h);
    assert t[i + 0] == s[0];
    if h >= 10 {
      assert t[i + 1] == s[1];
    }
  }

  lemma TwoDigitsReads(t: string, i: nat, m: nat)
    requires m < 100 && SpelledAt(t, i, Pad2(m))
    ensures TwoDigitsAt(t, i) == Some(m)
  {
    assert t[i + 0] == Pad2(m)[0] && t[i + 1] == Pad2(m)[1];
  }

  // ---------------------------------------------------------------------------
  // Date header.

  lemma MonthsStartWithLetters()
    ensures forall k :: 0 <= k < |Months| ==> Months[k] != [] && !IsRegexSpace(Months[k][0])
  {
  }

  /** A date header as the pattern reads it: weekday, day and month, one space apart. */
  function DateHeaderText(w: nat, d: nat, m: nat): string
    requires w < |Weekdays| && m < |Months|
  {
    Weekdays[w] + " " + NatToString(d) + " " + Months[m]
  }

  lemma DateHeaderRoundTrip(w: nat, d: nat, m: nat)
    requires w < 7 && d < 100 && m < 12
    ensures DateHeaderAt(DateHeaderText(w, d, m), 0) == Some(DateHeaderMatch(w + 1, d, m + 1))
    ensures MatchDateHeader(DateHeaderText(w, d, m)) == Some(DateHeaderMatch(w + 1, d, m + 1))
  {
    var t := DateHeaderText(w, d, m);
    var ds := NatToString(d);
    var j := |Weekdays[w]|;
    var sp := j + 1 + |ds|;
    DateHeaderPieces(w, d, m);
    WeekdaysDistinguishable();
    MonthsDistinguishable();
    SpelledName(t, 0, Weekdays, w);
    DayReads(t, j + 1, d);
    SkipOneSpace(t, j);
    MonthsStartWithLetters();
    assert t[sp + 1 + 0] == Months[m][0];
    SkipOneSpace(t, sp);
    SpelledName(t, sp + 1, Months, m);
    DateHeaderAtReads(t, w, d, sp, m);
    assert FirstMatchFrom(t, 0, DateHeaderAt) == DateHeaderAt(t, 0);
  }

  lemma SpelledName(t: string, i: nat, names: seq<string>, k: nat)
    requires k < |names| && Distinguishable(names) && SpelledAt(t, i, names[k])
    ensures NameAt(t, i, names) == Some(k)
  {
    SpelledStartsWith(t, i, names[k]);
    NameAtSpelled(t, i, names, k);
  }

  /** `(\d{1,2})` reading a day written on one or two digits and followed by a space. */
  lemma DayReads(t: string, i: nat, d: nat)
    requires d < 100 && SpelledAt(t, i, NatToString(d))
    requires i + |NatToString(d)| < |t| && t[i + |NatToString(d)|] == ' '
    ensures !IsRegexSpace(t[i])
    ensures d >= 10 ==> i + 1 < |t| && IsDigit(t[i]) && IsDigit(t[i + 1]) && TwoDigitValue(t[i], t[i + 1]) == d
    ensures d < 10 ==> i + 1 < |t| && IsDigit(t[i]) && !IsDigit(t[i + 1]) && DigitValue(t[i]) == d
  {
    SmallNatDigits(d);
    assert t[i + 0] == NatToString(d)[0];
    if d >= 10 {
      assert t[i + 1] == NatToString(d)[1];
    }
  }

  lemma DateHeaderPieces(w: nat, d: nat, m: nat)
    requires w < 7 && m < 12
    ensures var t := DateHeaderText(w, d, m);
            var j := |Weekdays[w]|;
            var sp := j + 1 + |NatToString(d)|;
            SpelledAt(t, 0, Weekdays[w]) && t[j] == ' ' && SpelledAt(t, j + 1, NatToString(d))
            && t[sp] == ' ' && SpelledAt(t, sp + 1, Months[m])
  {
    var t := DateHeaderText(w, d, m);
    var ds := NatToString(d);
    var j := |Weekdays[w]|;
    var sp := j + 1 + |ds|;
    SpelledWhole(t);
    SpelledSplit(t, 0, Weekdays[w] + " " + ds + " ", Months[m]);
    SpelledSplit(t, 0, Weekdays[w] + " " + ds, " ");
    SpelledSplit(t, 0, Weekdays[w] + " ", ds);
    SpelledSplit(t, 0, Weekdays[w], " ");
    assert t[j + 0] == ' ' && t[sp + 0] == ' ';
  }

  /** The date header pattern at index 0, step by step: weekday, one space, the
      day on one or two digits, one space, month. */
  lemma DateHeaderAtReads(t: string, w: nat, d: nat, sp: nat, m: nat)
    requires w < 7 && d < 100
    requires NameAt(t, 0, Weekdays) == Some(w)
    requires |Weekdays[w]| + 2 < |t| && SkipSpaces(t, |Weekdays[w]|) == |Weekdays[w]| + 1
    requires sp == |Weekdays[w]| + (if d < 10 then 2 else 3)
    requires d >= 10 ==> IsDigit(t[|Weekdays[w]| + 1]) && IsDigit(t[|Weekdays[w]| + 2])
                         && TwoDigitValue(t[|Weekdays[w]| + 1], t[|Weekdays[w]| + 2]) == d
    requires d < 10 ==> IsDigit(t[|Weekdays[w]| + 1]) && !IsDigit(t[|Weekdays[w]| + 2])
                        && DigitValue(t[|Weekdays[w]| + 1]) == d
    requires sp < |t| && SkipSpaces(t, sp) == sp + 1
    requires NameAt(t, sp + 1, Months) == Some(m)
    ensures DateHeaderAt(t, 0) == Some(DateHeaderMatch(w + 1, d, m + 1))
  {
    var k := |Weekdays[w]| + 1;
    if d >= 10 {
      DateHeaderTwoDigitDay(t, w, k, d, sp, m);
    } else {
      DateHeaderOneDigitDay(t, w, k, d, sp, m);
    }
  }

  lemma DateHeaderTwoDigitDay(t: string, w: nat, k: nat, d: nat, sp: nat, m: nat)
    requires w < 7 && NameAt(t, 0, Weekdays) == Some(w) && k == |Weekdays[w]| + 1
    requires sp == k + 2 && sp < |t| && SkipSpaces(t, k - 1) == k
    requires IsDigit(t[k]) && IsDigit(t[k + 1]) && TwoDigitValue(t[k], t[k + 1]) == d
    requires SkipSpaces(t, sp) == sp + 1 && NameAt(t, sp + 1, Months) == Some(m)
    ensures DateHeaderAt(t, 0) == Some(DateHeaderMatch(w + 1, d, m + 1))
  {
  }

  lemma DateHeaderOneDigitDay(t: string, w: nat, k: nat, d: nat, sp: nat, m: nat)
    requires w < 7 && NameAt(t, 0, Weekdays) == Some(w) && k == |Weekdays[w]| + 1
    requires sp == k + 1 && k + 1 < |t| && SkipSpaces(t, k - 1) == k
    requires IsDigit(t[k]) && !IsDigit(t[k + 1]) && DigitValue(t[k]) == d
    requires SkipSpaces(t, sp) == sp + 1 && NameAt(t, sp + 1, Months) == Some(m)
    ensures DateHeaderAt(t, 0) == Some(DateHeaderMatch(w + 1, d, m + 1))
  {
  }

  // ---------------------------------------------------------------------------
  // 24-hour ranges.

  /** `<hour><separator>` and, when present, the minute on two digits. */
  function ClockText(h: nat, sep: char, m: Option<nat>): string
    requires m.Some? ==> m.value < 100
  {
    NatToString(h) + [sep] + (if m.Some? then Pad2(m.value) else [])
  }

  function ClockLength(h: nat, m: Option<nat>): nat {
    |NatToString(h)| + 1 + (if m.Some? then 2 else 0)
  }

  /** Two clocks joined by a dash, without spaces. */
  function ClockRangeText(h1: nat, s1: char, m1: Option<nat>, dash: char, h2: nat, s2: char, m2: Option<nat>): string
    requires m1.Some? ==> m1.value < 100
    requires m2.Some? ==> m2.value < 100
  {
    ClockText(h1, s1, m1) + [dash] + ClockText(h2, s2, m2)
  }

  /** `t` holds, from `i`, the hour, the separator and the minute if any. */
  predicate ClockSpelled(t: string, i: nat, h: nat, s: char, m: Option<nat>)
    requires m.Some? ==> m.value < 100
  {
    var n := |NatToString(h)|;
    i + ClockLength(h, m) <= |t| && SpelledAt(t, i, NatToString(h)) && t[i + n] == s
    && (m.Some? ==> SpelledAt(t, i + n + 1, Pad2(m.value)))
  }

  lemma ClockPieces(t: string, i: nat, h: nat, s: char, m: Option<nat>)
    requires m.Some? ==> m.value < 100
    requires SpelledAt(t, i, ClockText(h, s, m))
    ensures |ClockText(h, s, m)| == ClockLength(h, m) && ClockSpelled(t, i, h, s, m)
  {
    var rest: string := if m.Some? then Pad2(m.value) else [];
    SpelledThenChar(t, i, NatToString(h), s, rest);
  }

  /** The parts of `a`, a character, then `b`, spelled at `i`. */
  lemma SpelledThenChar(t: string, i: nat, a: string, c: char, b: string)
    requires SpelledAt(t, i, a + [c] + b)
    ensures SpelledAt(t, i, a) && t[i + |a|] == c && SpelledAt(t, i + |a| + 1, b)
  {
    var w := a + [c] + b;
    assert forall k :: 0 <= k < |a| ==> w[k] == a[k];
    assert forall k :: 0 <= k < |b| ==> w[|a| + 1 + k] == b[k];
    assert t[i + |a|] == w[|a|];
  }

  /** A text that spells two clocks around a dash, piece by piece. */
  lemma ClockRangePieces(t: string, h1: nat, s1: char, m1: Option<nat>, dash: char, h2: nat, s2: char, m2: Option<nat>)
    requires (m1.Some? ==> m1.value < 100) && (m2.Some? ==> m2.value < 100)
    requires var a := ClockText(h1, s1, m1);
             var b := ClockText(h2, s2, m2);
             |t| == |a| + 1 + |b| && SpelledAt(t, 0, a) && t[|a|] == dash && SpelledAt(t, |a| + 1, b)
    ensures var l := ClockLength(h1, m1);
            ClockSpelled(t, 0, h1, s1, m1) && l < |t| && t[l] == dash && ClockSpelled(t, l + 1, h2, s2, m2)
            && |t| == l + 1 + ClockLength(h2, m2)
  {
    ClockPieces(t, 0, h1, s1, m1);
    ClockPieces(t, |ClockText(h1, s1, m1)| + 1, h2, s2, m2);
  }

  /** A clock spelled at `i`: its hour, and its minute when written, read back. */
  lemma ClockReads(t: string, i: nat, h: nat, s: char, m: Option<nat>, sep: char -> bool)
    requires h < 100 && (m.Some? ==> m.value < 100) && sep(s) && !IsDigit(s)
    requires ClockSpelled(t, i, h, s, m)
    requires m.None? ==> i + ClockLength(h, m) == |t| || !IsDigit(t[i + ClockLength(h, m)])
    ensures DigitsThen(t, i, sep) == Some((h, i + |NatToString(h)| + 1))
    ensures TwoDigitsAt(t, i + |NatToString(h)| + 1) == m
    ensures IsDigit(t[i]) && !IsRegexSpace(t[i])
  {
    DigitsThenReads(t, i, h, sep);
    if m.Some? {
      TwoDigitsReads(t, i + |NatToString(h)| + 1, m.value);
    }
    assert t[i + 0] == NatToString(h)[0];
  }

  /** A dash between a clock and a digit, no spaces. */
  lemma BareDash(t: string, i: nat)
    requires i + 1 < |t| && IsDash(t[i]) && !IsRegexSpace(t[i + 1])
    ensures DashAt(t, i) == Some(i + 1)
  {
    SkipNoSpace(t, i);
    SkipNoSpace(t, i + 1);
  }

  /** The tolerant pattern at index 0 of a text spelling two clocks around a dash. */
  lemma TolerantRangeReads(t: string, h1: nat, s1: char, m1: Option<nat>, dash: char, h2: nat, s2: char, m2: Option<nat>)
    requires h1 < 100 && h2 < 100 && IsHourSeparator(s1) && IsHourSeparator(s2) && IsDash(dash)
    requires (m1.Some? ==> m1.value < 100) && (m2.Some? ==> m2.value < 100)
    requires ClockSpelled(t, 0, h1, s1, m1) && ClockLength(h1, m1) < |t| && t[ClockLength(h1, m1)] == dash
    requires ClockSpelled(t, ClockLength(h1, m1) + 1, h2, s2, m2)
    requires |t| == ClockLength(h1, m1) + 1 + ClockLength(h2, m2)
    ensures TolerantRangeAt(t, 0) == Some(ClockRangeMatch(h1, m1, h2, m2))
  {
    var l := ClockLength(h1, m1);
    ClockReads(t, 0, h1, s1, m1, IsHourSeparator);
    ClockReads(t, l + 1, h2, s2, m2, IsHourSeparator);
    BareDash(t, l);
  }

  lemma StrictRangeReads(t: string, h1: nat, m1: nat, dash: char, h2: nat, m2: nat)
    requires h1 < 100 && m1 < 100 && h2 < 100 && m2 < 100 && IsDash(dash)
    requires ClockSpelled(t, 0, h1, ':', Some(m1)) && ClockLength(h1, Some(m1)) < |t|
    requires t[ClockLength(h1, Some(m1))] == dash
    requires ClockSpelled(t, ClockLength(h1, Some(m1)) + 1, h2, ':', Some(m2))
    ensures StrictRangeAt(t, 0) == Some(ClockRangeMatch(h1, Some(m1), h2, Some(m2)))
  {
    var l := ClockLength(h1, Some(m1));
    ClockReads(t, 0, h1, ':', Some(m1), IsColon);
    ClockReads(t, l + 1, h2, ':', Some(m2), IsColon);
    BareDash(t, l);
  }

  /** `(\d{1,2})[h:](\d{2})?\s*[\-–]\s*(\d{1,2})[h:](\d{2})?` reads back the hours and
      the minutes a range was written with, and an omitted minute as absent. */
  lemma TolerantRangeRoundTrip(h1: nat, s1: char, m1: Option<nat>, dash: char, h2: nat, s2: char, m2: Option<nat>)
    requires h1 < 100 && h2 < 100 && IsHourSeparator(s1) && IsHourSeparator(s2) && IsDash(dash)
    requires m1.Some? ==> m1.value < 100
    requires m2.Some? ==> m2.value < 100
    ensures TolerantRangeAt(ClockRangeText(h1, s1, m1, dash, h2, s2, m2), 0) == Some(ClockRangeMatch(h1, m1, h2, m2))
    ensures MatchTolerantRange(ClockRangeText(h1, s1, m1, dash, h2, s2, m2)) == Some(ClockRangeMatch(h1, m1, h2, m2))
  {
    var t := ClockRangeText(h1, s1, m1, dash, h2, s2, m2);
    SpelledAround(ClockText(h1, s1, m1), dash, ClockText(h2, s2, m2));
    ClockRangePieces(t, h1, s1, m1, dash, h2, s2, m2);
    TolerantRangeReads(t, h1, s1, m1, dash, h2, s2, m2);
    assert FirstMatchFrom(t, 0, TolerantRangeAt) == TolerantRangeAt(t, 0);
  }

  /** `(\d{1,2}):(\d{2})\s*[\-–]\s*(\d{1,2}):(\d{2})` reads back both clocks. */
  lemma StrictRangeRoundTrip(h1: nat, m1: nat, dash: char, h2: nat, m2: nat)
    requires h1 < 100 && m1 < 100 && h2 < 100 && m2 < 100 && IsDash(dash)
    ensures StrictRangeAt(ClockRangeText(h1, ':', Some(m1), dash, h2, ':', Some(m2)), 0)
         == Some(ClockRangeMatch(h1, Some(m1), h2, Some(m2)))
    ensures MatchStrictRange(ClockRangeText(h1, ':', Some(m1), dash, h2, ':', Some(m2)))
         == Some(ClockRangeMatch(h1, Some(m1), h2, Some(m2)))
  {
    var t := ClockRangeText(h1, ':', Some(m1), dash, h2, ':', Some(m2));
    SpelledAround(ClockText(h1, ':', Some(m1)), dash, ClockText(h2, ':', Some(m2)));
    ClockRangePieces(t, h1, ':', Some(m1), dash, h2, ':', Some(m2));
    StrictRangeReads(t, h1, m1, dash, h2, m2);
    assert FirstMatchFrom(t, 0, StrictRangeAt) == StrictRangeAt(t, 0);
  }

  /** A shift line such as `9h-17h`. */
  lemma TolerantRangeExample()
    ensures MatchTolerantRange("9h-17h") == Some(ClockRangeMatch(9, None, 17, None))
  {
    assert NatToString(17) == "17" by {
      assert NatToString(1) == "1";
    }
    assert ClockRangeText(9, 'h', None, '-', 17, 'h', None) == "9h-17h";
    TolerantRangeRoundTrip(9, 'h', None, '-', 17, 'h', None);
  }

  /** A shift line such as `9:30–17:45`. */
  lemma StrictRangeExample()
    ensures MatchStrictRange("9:30–17:45") == Some(ClockRangeMatch(9, Some(30), 17, Some(45)))
  {
    assert NatToString(17) == "17" by {
      assert NatToString(1) == "1";
    }
    assert Pad2(30) == "30" && Pad2(45) == "45";
    assert ClockRangeText(9, ':', Some(30), '–', 17, ':', Some(45)) == "9:30–17:45";
    StrictRangeRoundTrip(9, 30, '–', 17, 45);
  }

  // ---------------------------------------------------------------------------
  // AM/PM ranges.

  function PeriodText(p: Period): string {
    if p == AM then "AM" else "PM"
  }

  /** `<hour>:<minute> <period>`, the minute on two digits. */
  function AmPmClockText(h: nat, m: nat, p: Period): string
    requires m < 100
  {
    NatToString(h) + ":" + Pad2(m) + " " + PeriodText(p)
  }

  /** Two clocks with their periods, a dash between spaces. */
  function AmPmRangeText(h1: nat, m1: nat, p1: Period, dash: char, h2: nat, m2: nat, p2: Period): string
    requires m1 < 100 && m2 < 100
  {
    AmPmClockText(h1, m1, p1) + " " + [dash] + " " + AmPmClockText(h2, m2, p2)
  }

  /** `t` holds, from `i`, the hour, a colon, the minute, a space and the period. */
  predicate AmPmClockSpelled(t: string, i: nat, h: nat, m: nat, p: Period)
    requires m < 100
  {
    var n := |NatToString(h)|;
    i + n + 6 <= |t| && SpelledAt(t, i, NatToString(h)) && t[i + n] == ':' && SpelledAt(t, i + n + 1, Pad2(m))
    && t[i + n + 3] == ' ' && t[i + n + 4] == PeriodText(p)[0] && t[i + n + 5] == 'M'
  }

  lemma AmPmClockPieces(t: string, i: nat, h: nat, m: nat, p: Period)
    requires m < 100 && SpelledAt(t, i, AmPmClockText(h, m, p))
    ensures |AmPmClockText(h, m, p)| == |NatToString(h)| + 6 && AmPmClockSpelled(t, i, h, m, p)
  {
    var n := |NatToString(h)|;
    SpelledClockParts(t, i, NatToString(h), Pad2(m), PeriodText(p));
    assert t[i + (n + 4) + 0] == PeriodText(p)[0] && t[i + (n + 4) + 1] == PeriodText(p)[1];
  }

  /** The parts of `a:b c`. */
  lemma SpelledClockParts(t: string, i: nat, a: string, b: string, c: string)
    requires SpelledAt(t, i, a + ":" + b + " " + c)
    ensures SpelledAt(t, i, a) && t[i + |a|] == ':' && SpelledAt(t, i + |a| + 1, b)
            && t[i + |a| + 1 + |b|] == ' ' && SpelledAt(t, i + |a| + 2 + |b|, c)
  {
    var w := a + ":" + b + " " + c;
    assert forall k :: 0 <= k < |a| ==> w[k] == a[k];
    assert w[|a|] == ':' && w[|a| + 1 + |b|] == ' ';
    assert forall k :: 0 <= k < |b| ==> w[|a| + 1 + k] == b[k];
    assert forall k :: 0 <= k < |c| ==> w[|a| + 2 + |b| + k] == c[k];
    assert t[i + |a|] == w[|a|];
    assert t[i + (|a| + 1 + |b|)] == w[|a| + 1 + |b|];
  }

  /** A text that spells two AM/PM clocks around a spaced dash, piece by piece. */
  lemma AmPmRangePieces(t: string, h1: nat, m1: nat, p1: Period, dash: char, h2: nat, m2: nat, p2: Period)
    requires m1 < 100 && m2 < 100
    requires var a := AmPmClockText(h1, m1, p1);
             |a| + 3 <= |t| && SpelledAt(t, 0, a) && t[|a|] == ' ' && t[|a| + 1] == dash && t[|a| + 2] == ' '
             && SpelledAt(t, |a| + 3, AmPmClockText(h2, m2, p2))
    ensures var l := |NatToString(h1)| + 6;
            AmPmClockSpelled(t, 0, h1, m1, p1) && l + 3 <= |t| && t[l] == ' ' && t[l + 1] == dash && t[l + 2] == ' '
            && AmPmClockSpelled(t, l + 3, h2, m2, p2)
  {
    AmPmClockPieces(t, 0, h1, m1, p1);
    AmPmClockPieces(t, |AmPmClockText(h1, m1, p1)| + 3, h2, m2, p2);
  }

  lemma AmPmClockReads(t: string, i: nat, h: nat, m: nat, p: Period)
    requires h < 100 && m < 100 && AmPmClockSpelled(t, i, h, m, p)
    ensures ClockAmPmAt(t, i) == Some((h, m, p, i + |NatToString(h)| + 6))
    ensures IsDigit(t[i]) && !IsRegexSpace(t[i])
  {
    var n := |NatToString(h)|;
    DigitsThenReads(t, i, h, IsColon);
    TwoDigitsReads(t, i + n + 1, m);
    SkipOneSpace(t, i + n + 3);
    assert t[i + 0] == NatToString(h)[0];
  }

  /** A dash between two single spaces. */
  lemma SpacedDash(t: string, i: nat)
    requires i + 3 < |t| && t[i] == ' ' && IsDash(t[i + 1]) && t[i + 2] == ' ' && !IsRegexSpace(t[i + 3])
    ensures DashAt(t, i) == Some(i + 3)
  {
    SkipOneSpace(t, i);
    SkipOneSpace(t, i + 2);
  }

  /** The AM/PM pattern at index 0 of a text spelling two clocks around a spaced dash. */
  lemma AmPmRangeReads(t: string, h1: nat, m1: nat, p1: Period, dash: char, h2: nat, m2: nat, p2: Period)
    requires h1 < 100 && m1 < 100 && h2 < 100 && m2 < 100 && IsDash(dash)
    requires AmPmClockSpelled(t, 0, h1, m1, p1) && |NatToString(h1)| + 9 <= |t|
    requires var l := |NatToString(h1)| + 6;
             t[l] == ' ' && t[l + 1] == dash && t[l + 2] == ' ' && AmPmClockSpelled(t, l + 3, h2, m2, p2)
    ensures AmPmRangeAt(t, 0) == Some(AmPmMatch(h1, m1, p1, h2, m2, p2))
  {
    var l := |NatToString(h1)| + 6;
    AmPmClockReads(t, 0, h1, m1, p1);
    AmPmClockReads(t, l + 3, h2, m2, p2);
    SpacedDash(t, l);
  }

  /** `(\d{1,2}):(\d{2})\s*(AM|PM)\s*[\-–]\s*(\d{1,2}):(\d{2})\s*(AM|PM)` reads back
      both clocks with their periods. */
  lemma AmPmRangeRoundTrip(h1: nat, m1: nat, p1: Period, dash: char, h2: nat, m2: nat, p2: Period)
    requires h1 < 100 && m1 < 100 && h2 < 100 && m2 < 100 && IsDash(dash)
    ensures AmPmRangeAt(AmPmRangeText(h1, m1, p1, dash, h2, m2, p2), 0) == Some(AmPmMatch(h1, m1, p1, h2, m2, p2))
    ensures MatchAmPmRange(AmPmRangeText(h1, m1, p1, dash, h2, m2, p2)) == Some(AmPmMatch(h1, m1, p1, h2, m2, p2))
  {
    var t := AmPmRangeText(h1, m1, p1, dash, h2, m2, p2);
    SpelledAroundSpaced(AmPmClockText(h1, m1, p1), dash, AmPmClockText(h2, m2, p2));
    AmPmRangePieces(t, h1, m1, p1, dash, h2, m2, p2);
    AmPmRangeReads(t, h1, m1, p1, dash, h2, m2, p2);
    assert FirstMatchFrom(t, 0, AmPmRangeAt) == AmPmRangeAt(t, 0);
  }

  // ---------------------------------------------------------------------------
  // Segment labels.

  /** The alternatives of the segment pattern, in the pattern's order. */
  const SegmentAlternatives: seq<string> :=
    ["Sales ", "PZ On Point", "Pause repas", "Learn and Grow", "Runner ", "Break",
     "Training", "Meeting", "Opening", "Closing", "Daily Download", "Setup"]

  lemma SegmentAlternativesDistinguishable()
    ensures Distinguishable(SegmentAlternatives)
  {
    FirstAlternativesDistinguishable();
    LastAlternativesDistinguishable();
  }

  lemma FirstAlternativesDistinguishable()
    ensures forall j, k :: 0 <= j < k < 6 ==> DiffersCI(SegmentAlternatives[k], SegmentAlternatives[j])
  {
    assert DiffersCI(SegmentAlternatives[2], SegmentAlternatives[1]);
  }

  lemma LastAlternativesDistinguishable()
    ensures forall j, k :: 0 <= j < k && 6 <= k < 12 ==> DiffersCI(SegmentAlternatives[k], SegmentAlternatives[j])
  {
    assert DiffersCI(SegmentAlternatives[11], SegmentAlternatives[0]);
  }

  /** A text that begins with the `q`-th alternative begins with none before it. */
  lemma EarlierAlternativesFail(t: string, q: nat)
    requires q < |SegmentAlternatives| && StartsWithCI(t, SegmentAlternatives[q])
    ensures forall j :: 0 <= j < q ==> !StartsWithCI(t, SegmentAlternatives[j])
  {
    SegmentAlternativesDistinguishable();
    forall j | 0 <= j < q
      ensures !StartsWithCI(t, SegmentAlternatives[j])
    {
      DiffersExcludes(t, SegmentAlternatives[q], SegmentAlternatives[j]);
    }
  }

  /** The segment pattern at index 0 of a text that begins with a fixed label. */
  lemma SegmentAtFixed(t: string, q: nat)
    requires q < |SegmentAlternatives| && q != 0 && q != 4
    requires StartsWithCI(t, SegmentAlternatives[q])
    requires forall j :: 0 <= j < q ==> !StartsWithCI(t, SegmentAlternatives[j])
    ensures SegmentAt(t, 0) == Some(t[..|SegmentAlternatives[q]|])
  {
    assert t[0..] == t;
    var alt := SegmentAlternatives;
    assert !StartsWithCI(t, alt[0]);
    if q == 1 {
    } else if q == 2 {
      assert !StartsWithCI(t, alt[1]);
    } else if q == 3 {
      assert !StartsWithCI(t, alt[1]) && !StartsWithCI(t, alt[2]);
    } else {
      assert !StartsWithCI(t, alt[1]) && !StartsWithCI(t, alt[2]) && !StartsWithCI(t, alt[3]) && !StartsWithCI(t, alt[4]);
      if q == 5 {
      } else if q == 6 {
        assert !StartsWithCI(t, alt[5]);
      } else if q == 7 {
        assert !StartsWithCI(t, alt[5]) && !StartsWithCI(t, alt[6]);
      } else {
        assert !StartsWithCI(t, alt[5]) && !StartsWithCI(t, alt[6]) && !StartsWithCI(t, alt[7]);
        if q == 8 {
        } else if q == 9 {
          assert !StartsWithCI(t, alt[8]);
        } else if q == 10 {
          assert !StartsWithCI(t, alt[8]) && !StartsWithCI(t, alt[9]);
        } else {
          assert !StartsWithCI(t, alt[8]) && !StartsWithCI(t, alt[9]) && !StartsWithCI(t, alt[10]);
        }
      }
    }
  }

  /** The segment pattern at index 0 of a text that begins with `Sales ` and a digit. */
  lemma SegmentAtSales(t: string)
    requires StartsWithCI(t, "Sales ") && 6 < |t| && IsDigit(t[6])
    ensures SegmentAt(t, 0) == Some(t[..SkipDigits(t, 6)])
  {
    assert t[0..] == t;
    var e := SkipDigits(t, 6);
    assert t[0..e] == t[..e];
    assert NumberedLabelEnd(t, 0, "Sales ") == Some(e);
  }

  /** The segment pattern at index 0 of a text that begins with `Runner ` and a digit:
      the alternatives before it all start with another letter. */
  lemma SegmentAtRunner(t: string)
    requires StartsWithCI(t, "Runner ") && 7 < |t| && IsDigit(t[7])
    ensures SegmentAt(t, 0) == Some(t[..SkipDigits(t, 7)])
  {
    var e := SkipDigits(t, 7);
    assert t[0..] == t && t[0..e] == t[..e];
    assert NumberedLabelEnd(t, 0, "Sales ").None? && !StartsWithCI(t[0..], "PZ On Point")
        && !StartsWithCI(t[0..], "Pause repas") && !StartsWithCI(t[0..], "Learn and Grow") by {
      assert LowerChar(t[0]) == 'r';
    }
    assert NumberedLabelEnd(t, 0, "Runner ") == Some(e);
    RunnerIsFifth(t);
  }

  /** The segment pattern's first four alternatives fail and `Runner <n>` follows. */
  lemma RunnerIsFifth(t: string)
    requires NumberedLabelEnd(t, 0, "Sales ").None? && !StartsWithCI(t[0..], "PZ On Point")
    requires !StartsWithCI(t[0..], "Pause repas") && !StartsWithCI(t[0..], "Learn and Grow")
    requires NumberedLabelEnd(t, 0, "Runner ").Some?
    ensures SegmentAt(t, 0) == Some(t[0..NumberedLabelEnd(t, 0, "Runner ").value])
  {
  }

  /** Every fixed label is recognised as itself. */
  lemma FixedLabelRoundTrip(k: nat)
    requires k < |FixedLabels|
    ensures SegmentAt(FixedLabels[k], 0) == Some(FixedLabels[k])
    ensures MatchSegment(FixedLabels[k]) == Some(FixedLabels[k])
  {
    var t := FixedLabels[k];
    var q := if k < 3 then k + 1 else k + 2;
    assert SegmentAlternatives[q] == t;
    assert t + [] == t && t[..|t|] == t;
    StartsWithItself(t, []);
    EarlierAlternativesFail(t, q);
    SegmentAtFixed(t, q);
    assert FirstMatchFrom(t, 0, SegmentAt) == SegmentAt(t, 0);
  }

  /** `Sales <n>` and `Runner <n>` are recognised with their number. */
  lemma NumberedLabelRoundTrip(k: nat, n: nat)
    requires k < |NumberedLabels|
    ensures SegmentAt(NumberedLabels[k] + NatToString(n), 0) == Some(NumberedLabels[k] + NatToString(n))
    ensures MatchSegment(NumberedLabels[k] + NatToString(n)) == Some(NumberedLabels[k] + NatToString(n))
  {
    var prefix := NumberedLabels[k];
    var t := prefix + NatToString(n);
    StartsWithItself(prefix, NatToString(n));
    assert forall i :: |prefix| <= i < |t| ==> IsDigit(t[i]);
    assert SkipDigits(t, |prefix|) == |t|;
    assert t[..|t|] == t;
    if k == 0 {
      SegmentAtSales(t);
    } else {
      SegmentAtRunner(t);
    }
    assert FirstMatchFrom(t, 0, SegmentAt) == SegmentAt(t, 0);
  }
}
