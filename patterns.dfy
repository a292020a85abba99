/**
 * The regular expressions of the OCR parser, written out as matchers. Each
 * `...At(t, i)` function decides whether the pattern matches `t` starting at
 * index `i` (greedy quantifiers with the backtracking the engine would do) and
 * yields the captured fields; `FirstMatch` picks the leftmost start, as
 * `firstMatch(in:range:)` does.
 */
module Patterns {

  import opened Wrappers
  import opened Text

  // ---------------------------------------------------------------------------
  // Leftmost match.

  /** The match found at the smallest start index `>= i`, if any. */
  function FirstMatchFrom<M>(t: string, i: nat, at: (string, nat) -> Option<M>): (r: Option<M>)
    ensures r.Some? ==> exists p :: i <= p <= |t| && at(t, p) == r
    decreases |t| + 1 - i
  {
    if i > |t| then None
    else if at(t, i).Some? then at(t, i)
    else FirstMatchFrom(t, i + 1, at)
  }

  function FirstMatch<M>(t: string, at: (string, nat) -> Option<M>): (r: Option<M>)
    ensures r.Some? ==> exists p :: 0 <= p <= |t| && at(t, p) == r
  {
    FirstMatchFrom(t, 0, at)
  }

  /** The first match is the match at the leftmost index where there is one. */
  lemma {:induction false} FirstMatchIsLeftmost<M>(t: string, i: nat, at: (string, nat) -> Option<M>)
    ensures FirstMatchFrom(t, i, at).None? <==> forall p :: i <= p <= |t| ==> at(t, p).None?
    ensures FirstMatchFrom(t, i, at).Some? ==>
      exists p :: i <= p <= |t| && at(t, p) == FirstMatchFrom(t, i, at)
                  && forall q :: i <= q < p ==> at(t, q).None?
    decreases |t| + 1 - i
  {
    if i > |t| {
    } else if at(t, i).Some? {
      assert at(t, i) == FirstMatchFrom(t, i, at);
    } else {
      assert FirstMatchFrom(t, i, at) == FirstMatchFrom(t, i + 1, at);
      FirstMatchIsLeftmost(t, i + 1, at);
      if FirstMatchFrom(t, i + 1, at).Some? {
        var p :| i + 1 <= p <= |t| && at(t, p) == FirstMatchFrom(t, i + 1, at)
                 && forall q :: i + 1 <= q < p ==> at(t, q).None?;
        assert forall q :: i <= q < p ==> at(t, q).None?;
      } else {
        assert forall p :: i <= p <= |t| ==> at(t, p).None?;
      }
    }
  }

  // ---------------------------------------------------------------------------
  // Building blocks.

  /** `s` begins with `w`, letters compared case-insensitively. */
  predicate StartsWithCI(s: string, w: string)
    decreases |w|
  {
    |w| <= |s| && (w == [] || (SameLetterCI(s[0], w[0]) && StartsWithCI(s[1..], w[1..])))
  }

  /** Index after the longest run of `\s` from `i`. */
  function SkipSpaces(t: string, i: nat): (j: nat)
    requires i <= |t|
    ensures i <= j <= |t|
    ensures forall k :: i <= k < j ==> IsRegexSpace(t[k])
    ensures j < |t| ==> !IsRegexSpace(t[j])
    decreases |t| - i
  {
    if i < |t| && IsRegexSpace(t[i]) then SkipSpaces(t, i + 1) else i
  }

  /** Index after the longest run of digits from `i`. */
  function SkipDigits(t: string, i: nat): (j: nat)
    requires i <= |t|
    ensures i <= j <= |t|
    ensures forall k :: i <= k < j ==> IsDigit(t[k])
    ensures j < |t| ==> !IsDigit(t[j])
    decreases |t| - i
  {
    if i < |t| && IsDigit(t[i]) then SkipDigits(t, i + 1) else i
  }

  function TwoDigitValue(a: char, b: char): (v: nat)
    requires IsDigit(a) && IsDigit(b)
    ensures v < 100
  {
    10 * DigitValue(a) + DigitValue(b)
  }

  /** `(\d{1,2})` followed by a character of `sep`: the number and the index after the separator. */
  function DigitsThen(t: string, i: nat, sep: char -> bool): (r: Option<(nat, nat)>)
    ensures r.Some? ==> r.value.0 < 100 && i + 2 <= r.value.1 <= i + 3 && r.value.1 <= |t|
  {
    if i + 2 < |t| && IsDigit(t[i]) && IsDigit(t[i + 1]) && sep(t[i + 2]) then Some((TwoDigitValue(t[i], t[i + 1]), i + 3))
    else if i + 1 < |t| && IsDigit(t[i]) && sep(t[i + 1]) then Some((DigitValue(t[i]), i + 2))
    else None
  }

  /** `(\d{2})`. */
  function TwoDigitsAt(t: string, i: nat): (r: Option<nat>)
    ensures r.Some? ==> r.value < 100 && i + 2 <= |t|
  {
    if i + 1 < |t| && IsDigit(t[i]) && IsDigit(t[i + 1]) then Some(TwoDigitValue(t[i], t[i + 1])) else None
  }

  /** `[\-–]`: a hyphen-minus or an en dash. */
  predicate IsDash(c: char) {
    c == '-' || c == '–'
  }

  predicate IsColon(c: char) {
    c == ':'
  }

  predicate IsHourSeparator(c: char) {
    c == 'h' || c == ':'
  }

  /** `\s*[\-–]\s*` from `i`: the index after it. */
  function DashAt(t: string, i: nat): (r: Option<nat>)
    requires i <= |t|
    ensures r.Some? ==> i < r.value <= |t|
  {
    var j := SkipSpaces(t, i);
    if j < |t| && IsDash(t[j]) then Some(SkipSpaces(t, j + 1)) else None
  }

  // ---------------------------------------------------------------------------
  // Date header: (lundi|…|dimanche)\s+(\d{1,2})\s+(janvier|…|décembre), case-insensitive.

  const Weekdays: seq<string> := ["lundi", "mardi", "mercredi", "jeudi", "vendredi", "samedi", "dimanche"]

  const Months: seq<string> :=
    ["janvier", "février", "mars", "avril", "mai", "juin",
     "juillet", "août", "septembre", "octobre", "novembre", "décembre"]

  /** Index of the first of `names` that `t` spells at `i`. */
  function NameAt(t: string, i: nat, names: seq<string>): (r: Option<nat>)
    requires i <= |t|
    ensures r.Some? ==> r.value < |names| && i + |names[r.value]| <= |t| && StartsWithCI(t[i..], names[r.value])
    ensures r.Some? ==> forall k :: 0 <= k < r.value ==> !StartsWithCI(t[i..], names[k])
    ensures r.None? ==> forall k :: 0 <= k < |names| ==> !StartsWithCI(t[i..], names[k])
  {
    if names == [] then None
    else if StartsWithCI(t[i..], names[0]) then Some(0)
    else
      var rest := NameAt(t, i, names[1..]);
      if rest.Some? then Some(rest.value + 1) else None
  }

  /** Fields of a matched date header: weekday 1..7 (Monday first), day as written, month 1..12. */
  datatype DateHeaderMatch = DateHeaderMatch(weekday: nat, day: nat, month: nat)

  function DateHeaderAt(t: string, i: nat): (r: Option<DateHeaderMatch>)
    ensures r.Some? ==> 1 <= r.value.weekday <= 7 && r.value.day < 100 && 1 <= r.value.month <= 12
  {
    if i > |t| then None
    else
      var w := NameAt(t, i, Weekdays);
      if w.None? then None
      else
        var j := i + |Weekdays[w.value]|;
        var k := SkipSpaces(t, j);
        if k == j then None
        else
          var day: Option<(nat, nat)> :=
            if k + 1 < |t| && IsDigit(t[k]) && IsDigit(t[k + 1]) then Some((TwoDigitValue(t[k], t[k + 1]), k + 2))
            else if k < |t| && IsDigit(t[k]) then Some((DigitValue(t[k]), k + 1))
            else None;
          if day.None? then None
          else
            var l := SkipSpaces(t, day.value.1);
            if l == day.value.1 then None
            else
              var m := NameAt(t, l, Months);
              if m.None? then None
              else Some(DateHeaderMatch(w.value + 1, day.value.0, m.value + 1))
  }

  function MatchDateHeader(t: string): (r: Option<DateHeaderMatch>)
    ensures r.Some? ==> 1 <= r.value.weekday <= 7 && r.value.day < 100 && 1 <= r.value.month <= 12
  {
    FirstMatch(t, DateHeaderAt)
  }

  // ---------------------------------------------------------------------------
  // AM/PM range: (\d{1,2}):(\d{2})\s*(AM|PM)\s*[\-–]\s*(\d{1,2}):(\d{2})\s*(AM|PM), case-insensitive.

  datatype Period = AM | PM

  datatype AmPmMatch = AmPmMatch(
    startHour: nat, startMinute: nat, startPeriod: Period,
    endHour: nat, endMinute: nat, endPeriod: Period)

  /** `(AM|PM)` at `i`, either letter in either case. */
  function PeriodAt(t: string, i: nat): Option<Period> {
    if i + 1 < |t| && (t[i + 1] == 'm' || t[i + 1] == 'M') then
      if t[i] == 'a' || t[i] == 'A' then Some(AM)
      else if t[i] == 'p' || t[i] == 'P' then Some(PM)
      else None
    else None
  }

  /** `(\d{1,2}):(\d{2})\s*(AM|PM)` at `i`: hour, minute, period and the index after. */
  function ClockAmPmAt(t: string, i: nat): (r: Option<(nat, nat, Period, nat)>)
    ensures r.Some? ==> r.value.0 < 100 && r.value.1 < 100 && i < r.value.3 <= |t|
  {
    var h := DigitsThen(t, i, IsColon);
    if h.None? then None
    else
      var m := TwoDigitsAt(t, h.value.1);
      if m.None? then None
      else
        var j := SkipSpaces(t, h.value.1 + 2);
        var p := PeriodAt(t, j);
        if p.None? then None else Some((h.value.0, m.value, p.value, j + 2))
  }

  function AmPmRangeAt(t: string, i: nat): (r: Option<AmPmMatch>)
    ensures r.Some? ==> (r.value.startHour < 100 && r.value.startMinute < 100
                         && r.value.endHour < 100 && r.value.endMinute < 100)
  {
    var a := ClockAmPmAt(t, i);
    if a.None? then None
    else
      var d := DashAt(t, a.value.3);
      if d.None? then None
      else
        var b := ClockAmPmAt(t, d.value);
        if b.None? then None
        else Some(AmPmMatch(a.value.0, a.value.1, a.value.2, b.value.0, b.value.1, b.value.2))
  }

  function MatchAmPmRange(t: string): (r: Option<AmPmMatch>)
    ensures r.Some? ==> (r.value.startHour < 100 && r.value.startMinute < 100
                         && r.value.endHour < 100 && r.value.endMinute < 100)
  {
    FirstMatch(t, AmPmRangeAt)
  }

  // ---------------------------------------------------------------------------
  // 24-hour ranges.
  //   tolerant: (\d{1,2})[h:](\d{2})?\s*[\-–]\s*(\d{1,2})[h:](\d{2})?
  //   strict:   (\d{1,2}):(\d{2})\s*[\-–]\s*(\d{1,2}):(\d{2})

  /** Captured hours and minutes; an absent optional minute group is None. */
  datatype ClockRangeMatch = ClockRangeMatch(startHour: nat, startMinute: Option<nat>, endHour: nat, endMinute: Option<nat>)

  function TolerantRangeAt(t: string, i: nat): (r: Option<ClockRangeMatch>)
    ensures r.Some? ==> r.value.startHour < 100 && r.value.endHour < 100
    ensures r.Some? && r.value.startMinute.Some? ==> r.value.startMinute.value < 100
    ensures r.Some? && r.value.endMinute.Some? ==> r.value.endMinute.value < 100
  {
    var h := DigitsThen(t, i, IsHourSeparator);
    if h.None? then None
    else
      // The optional minutes are kept only if the dash can follow them; without
      // them the dash would have to follow the separator directly.
      var m := TwoDigitsAt(t, h.value.1);
      var afterStart := if m.Some? then h.value.1 + 2 else h.value.1;
      var d := DashAt(t, afterStart);
      if d.None? then None
      else
        var e := DigitsThen(t, d.value, IsHourSeparator);
        if e.None? then None
        else Some(ClockRangeMatch(h.value.0, m, e.value.0, TwoDigitsAt(t, e.value.1)))
  }

  function StrictRangeAt(t: string, i: nat): (r: Option<ClockRangeMatch>)
    ensures r.Some? ==> r.value.startMinute.Some? && r.value.endMinute.Some?
    ensures r.Some? ==> (r.value.startHour < 100 && r.value.startMinute.value < 100
                         && r.value.endHour < 100 && r.value.endMinute.value < 100)
  {
    var h := DigitsThen(t, i, IsColon);
    if h.None? then None
    else
      var m := TwoDigitsAt(t, h.value.1);
      if m.None? then None
      else
        var d := DashAt(t, h.value.1 + 2);
        if d.None? then None
        else
          var e := DigitsThen(t, d.value, IsColon);
          if e.None? then None
          else
            var n := TwoDigitsAt(t, e.value.1);
            if n.None? then None else Some(ClockRangeMatch(h.value.0, m, e.value.0, n))
  }

  /** Wherever the strict pattern matches, the tolerant one matches too, with the same fields. */
  lemma StrictMatchIsTolerantMatch(t: string, i: nat)
    requires StrictRangeAt(t, i).Some?
    ensures TolerantRangeAt(t, i) == StrictRangeAt(t, i)
  {
    ColonIsHourSeparator(t, i);
    var h := DigitsThen(t, i, IsColon).value;
    assert TwoDigitsAt(t, h.1).Some?;
    var d := DashAt(t, h.1 + 2).value;
    ColonIsHourSeparator(t, d);
    var e := DigitsThen(t, d, IsColon).value;
    assert DigitsThen(t, d, IsHourSeparator) == Some(e);
  }

  lemma ColonIsHourSeparator(t: string, i: nat)
    ensures DigitsThen(t, i, IsColon).Some? ==> DigitsThen(t, i, IsHourSeparator) == DigitsThen(t, i, IsColon)
  {
  }

  function MatchTolerantRange(t: string): Option<ClockRangeMatch> {
    FirstMatch(t, TolerantRangeAt)
  }

  function MatchStrictRange(t: string): (r: Option<ClockRangeMatch>)
    ensures r.Some? ==> r.value.startMinute.Some? && r.value.endMinute.Some?
  {
    FirstMatch(t, StrictRangeAt)
  }

  // ---------------------------------------------------------------------------
  // Segment labels, case-insensitive:
  //   Sales \d+|PZ On Point|Pause repas|Learn and Grow|Runner \d+|Break|Training|
  //   Meeting|Opening|Closing|Daily Download|Setup

  const NumberedLabels: seq<string> := ["Sales ", "Runner "]

  const FixedLabels: seq<string> :=
    ["PZ On Point", "Pause repas", "Learn and Grow", "Break", "Training",
     "Meeting", "Opening", "Closing", "Daily Download", "Setup"]

  /** `<prefix>\d+` at `i`: the index after the digits. */
  function NumberedLabelEnd(t: string, i: nat, prefix: string): (r: Option<nat>)
    requires i <= |t|
    ensures r.Some? ==> i + |prefix| < r.value <= |t|
  {
    if StartsWithCI(t[i..], prefix) && i + |prefix| < |t| && IsDigit(t[i + |prefix|])
    then Some(SkipDigits(t, i + |prefix|))
    else None
  }

  /** The label spelled at `i`, as written in `t`. The alternatives are tried in
      the pattern's order (at most one can match at a given index). */
  function SegmentAt(t: string, i: nat): (r: Option<string>)
    ensures r.Some? ==> |r.value| > 0
  {
    if i > |t| then None
    else if NumberedLabelEnd(t, i, "Sales ").Some? then Some(t[i..NumberedLabelEnd(t, i, "Sales ").value])
    else if StartsWithCI(t[i..], "PZ On Point") then Some(t[i..i + 11])
    else if StartsWithCI(t[i..], "Pause repas") then Some(t[i..i + 11])
    else if StartsWithCI(t[i..], "Learn and Grow") then Some(t[i..i + 14])
    else if NumberedLabelEnd(t, i, "Runner ").Some? then Some(t[i..NumberedLabelEnd(t, i, "Runner ").value])
    else if StartsWithCI(t[i..], "Break") then Some(t[i..i + 5])
    else if StartsWithCI(t[i..], "Training") then Some(t[i..i + 8])
    else if StartsWithCI(t[i..], "Meeting") then Some(t[i..i + 7])
    else if StartsWithCI(t[i..], "Opening") then Some(t[i..i + 7])
    else if StartsWithCI(t[i..], "Closing") then Some(t[i..i + 7])
    else if StartsWithCI(t[i..], "Daily Download") then Some(t[i..i + 14])
    else if StartsWithCI(t[i..], "Setup") then Some(t[i..i + 5])
    else None
  }

  function MatchSegment(t: string): (r: Option<string>)
    ensures r.Some? ==> |r.value| > 0
  {
    FirstMatch(t, SegmentAt)
  }
}
