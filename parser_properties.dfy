/**
 * What the schedule-text parser promises: the effect of each kind of line on
 * the parser state, the two ordering quirks of the pending segment ranges,
 * and facts about whole inputs proved by induction over the lines.
 */
module ParserProperties {

  import opened Wrappers
  import opened Text
  import opened CivilCalendar
  import opened Patterns
  import opened OCRService
  import PatternRoundTrips

  /** The date a line announces, if it is a header line. */
  function LineHeader(line: string, today: CalDate): Option<CalDate> {
    var t := TrimWhitespace(line);
    if t == [] then None else DetectWorkJamDate(t, today)
  }

  /** A non-empty line that is neither a header, a section marker nor a location. */
  predicate PlainLine(line: string, today: CalDate) {
    var t := TrimWhitespace(line);
    t != [] && DetectWorkJamDate(t, today).None? && !Contains(Upper(t), "SEGMENT")
    && !Contains(Upper(t), "EMPLACEMENT") && !HasLocationKeyword(t)
  }

  // ---------------------------------------------------------------------------
  // One line at a time.

  /** A header line flushes the pending ranges, in order, on the previous main
      date and at the current location, but only once a main date exists;
      the new date becomes main and current date. */
  lemma HeaderLine(st: ParseState, line: string, today: CalDate)
    requires LineHeader(line, today).Some?
    ensures var r := Step(st, line, today);
      var d := LineHeader(line, today).value;
      r.shiftMainDate == Some(d) && r.currentDate == Some(d)
      && r.currentLocation == st.currentLocation && r.currentSegment == st.currentSegment
      && r.isInSegmentsSection == st.isInSegmentsSection
      && (st.shiftMainDate.Some? ==>
            r.shifts == st.shifts + Flush(st.segmentTimeRanges, st.shiftMainDate.value, st.currentLocation)
            && r.segmentTimeRanges == [])
      && (st.shiftMainDate.None? ==> r.shifts == st.shifts && r.segmentTimeRanges == st.segmentTimeRanges)
  {
    assert Step(st, line, today) == HeaderStep(st, LineHeader(line, today).value);
  }

  /** Section markers switch the segments section on or off and change nothing
      else; "SEGMENT" is looked for first. */
  lemma SectionMarkerLine(st: ParseState, line: string, today: CalDate)
    requires TrimWhitespace(line) != [] && LineHeader(line, today).None?
    ensures Contains(Upper(TrimWhitespace(line)), "SEGMENT") ==>
      Step(st, line, today) == st.(isInSegmentsSection := true)
    ensures !Contains(Upper(TrimWhitespace(line)), "SEGMENT") && Contains(Upper(TrimWhitespace(line)), "EMPLACEMENT") ==>
      Step(st, line, today) == st.(isInSegmentsSection := false)
  {
  }

  /** A line holding a location keyword becomes the current location, trimmed
      but otherwise verbatim, and is not looked at further. */
  lemma LocationLine(st: ParseState, line: string, today: CalDate)
    requires TrimWhitespace(line) != [] && LineHeader(line, today).None?
    requires !Contains(Upper(TrimWhitespace(line)), "SEGMENT") && !Contains(Upper(TrimWhitespace(line)), "EMPLACEMENT")
    requires exists k :: 0 <= k < |LocationKeywords| && Contains(Lower(TrimWhitespace(line)), LocationKeywords[k])
    ensures Step(st, line, today) == st.(currentLocation := TrimWhitespace(line))
  {
  }

  /** Outside the segments section a range produces a shift only on a known
      date; it carries the current location and segment, and an AM/PM range
      wins over a 24-hour one. Nothing but the shift list changes. */
  lemma DirectRangeLine(st: ParseState, line: string, today: CalDate)
    requires PlainLine(line, today) && !st.isInSegmentsSection
    ensures var r := Step(st, line, today);
      var t := TrimWhitespace(line);
      var ampm := DetectTimeRangeAMPM(t, today);
      var h24 := DetectTimeRange24H(t);
      r == st.(shifts := r.shifts)
      && (st.currentDate.None? || (ampm.None? && h24.None?) ==> r.shifts == st.shifts)
      && (st.currentDate.Some? && ampm.Some? ==>
            r.shifts == st.shifts + [ParsedShift(st.currentDate.value, ampm.value.start, ampm.value.end,
                                                 st.currentLocation, st.currentSegment)])
      && (st.currentDate.Some? && ampm.None? && h24.Some? ==>
            r.shifts == st.shifts + [ParsedShift(st.currentDate.value, h24.value.start, h24.value.end,
                                                 st.currentLocation, st.currentSegment)])
  {
  }

  /** In the segments section a label with an AM/PM range on the same line, or
      an AM/PM line after a label other than "Général", is recorded as pending
      and the current segment goes back to "Général"; no shift is emitted. A
      label alone becomes the current segment. */
  lemma SegmentSectionLine(st: ParseState, line: string, today: CalDate)
    requires PlainLine(line, today) && st.isInSegmentsSection
    ensures var r := Step(st, line, today);
      var t := TrimWhitespace(line);
      var found := DetectSegment(t);
      var ampm := DetectTimeRangeAMPM(t, today);
      (found.Some? && ampm.Some? ==>
         r == st.(segmentTimeRanges := st.segmentTimeRanges + [PendingRange(found.value, ampm.value.start, ampm.value.end)],
                  currentSegment := DefaultSegment))
      && (found.None? && st.currentSegment != DefaultSegment && ampm.Some? ==>
         r == st.(segmentTimeRanges := st.segmentTimeRanges + [PendingRange(st.currentSegment, ampm.value.start, ampm.value.end)],
                  currentSegment := DefaultSegment))
      && (found.Some? && ampm.None? ==>
         r.currentSegment == found.value && r.segmentTimeRanges == st.segmentTimeRanges)
  {
  }

  /** Ranges recorded before the first header are not flushed by it: they stay
      pending and end up on that header's date. */
  lemma PendingSurvivesFirstHeader(st: ParseState, line: string, today: CalDate)
    requires st.shiftMainDate.None? && st.segmentTimeRanges != []
    requires LineHeader(line, today).Some?
    ensures Step(st, line, today).segmentTimeRanges == st.segmentTimeRanges
    ensures Finish(Step(st, line, today))
         == st.shifts + Flush(st.segmentTimeRanges, LineHeader(line, today).value, st.currentLocation)
  {
  }

  /** Pending ranges take the location current when they are flushed, not the
      one current when they were recorded. */
  lemma FlushUsesLaterLocation(st: ParseState, line: string, today: CalDate)
    requires st.shiftMainDate.Some? && st.segmentTimeRanges != []
    requires TrimWhitespace(line) != [] && LineHeader(line, today).None?
    requires !Contains(Upper(TrimWhitespace(line)), "SEGMENT") && !Contains(Upper(TrimWhitespace(line)), "EMPLACEMENT")
    requires HasLocationKeyword(TrimWhitespace(line))
    ensures Finish(Step(st, line, today))
         == st.shifts + Flush(st.segmentTimeRanges, st.shiftMainDate.value, TrimWhitespace(line))
  {
  }

  // ---------------------------------------------------------------------------
  // Whole inputs.

  /** The date of the last header line, if any. */
  function LastHeader(lines: seq<string>, today: CalDate): Option<CalDate> {
    if lines == [] then None
    else if LineHeader(lines[|lines| - 1], today).Some? then LineHeader(lines[|lines| - 1], today)
    else LastHeader(lines[..|lines| - 1], today)
  }

  /** Only a header line changes the dates. */
  lemma ApplyDates(st: ParseState, f: LineFacts)
    ensures Apply(st, f).shiftMainDate == (if f.trimmed != [] && f.header.Some? then f.header else st.shiftMainDate)
    ensures Apply(st, f).currentDate == (if f.trimmed != [] && f.header.Some? then f.header else st.currentDate)
  {
  }

  lemma ClassifyHeader(line: string, today: CalDate)
    ensures Classify(line, today).trimmed == TrimWhitespace(line)
    ensures LineHeader(line, today) == (if Classify(line, today).trimmed != [] then Classify(line, today).header else None)
    ensures Classify(line, today).segment == DetectSegment(Classify(line, today).trimmed)
  {
  }

  lemma StepDates(st: ParseState, line: string, today: CalDate)
    ensures Apply(st, Classify(line, today)).shiftMainDate
         == (if LineHeader(line, today).Some? then LineHeader(line, today) else st.shiftMainDate)
    ensures Apply(st, Classify(line, today)).currentDate
         == (if LineHeader(line, today).Some? then LineHeader(line, today) else st.currentDate)
  {
    ClassifyHeader(line, today);
    ApplyDates(st, Classify(line, today));
  }

  /** Main and current date are both the date of the last header line seen. */
  lemma {:induction false} RunTracksLastHeader(lines: seq<string>, today: CalDate)
    ensures Run(lines, today).shiftMainDate == LastHeader(lines, today)
    ensures Run(lines, today).currentDate == LastHeader(lines, today)
  {
    if lines != [] {
      RunTracksLastHeader(lines[..|lines| - 1], today);
      StepDates(Run(lines[..|lines| - 1], today), lines[|lines| - 1], today);
    }
  }

  /** At the end of input the pending ranges are emitted on the last header's
      date, at the final location, provided there was a header. */
  lemma EndOfInput(text: string, today: CalDate)
    ensures var lines := SplitLines(text);
      var st := Run(lines, today);
      ParseSpec(text, today)
        == st.shifts + (if LastHeader(lines, today).Some?
                        then Flush(st.segmentTimeRanges, LastHeader(lines, today).value, st.currentLocation)
                        else [])
  {
    RunTracksLastHeader(SplitLines(text), today);
  }

  lemma {:induction false} NoHeaderNoDate(lines: seq<string>, today: CalDate)
    requires forall k :: 0 <= k < |lines| ==> LineHeader(lines[k], today).None?
    ensures LastHeader(lines, today).None?
  {
    if lines != [] {
      NoHeaderNoDate(lines[..|lines| - 1], today);
    }
  }

  lemma ApplyWithoutDate(st: ParseState, f: LineFacts)
    ensures Apply(st, f).currentDate.None? ==> st.currentDate.None? && Apply(st, f).shifts == st.shifts
  {
  }

  /** Before a date is known nothing is emitted. */
  lemma {:induction false} NoShiftsWithoutDate(lines: seq<string>, today: CalDate)
    ensures Run(lines, today).currentDate.None? ==> Run(lines, today).shifts == []
  {
    if lines != [] {
      var prefix := lines[..|lines| - 1];
      NoShiftsWithoutDate(prefix, today);
      ApplyWithoutDate(Run(prefix, today), Classify(lines[|lines| - 1], today));
    }
  }

  /** A text without a header line yields no shifts. */
  lemma NoHeaderNoShifts(text: string, today: CalDate)
    requires forall k :: 0 <= k < |SplitLines(text)| ==> LineHeader(SplitLines(text)[k], today).None?
    ensures ParseSpec(text, today) == []
  {
    var lines := SplitLines(text);
    NoHeaderNoDate(lines, today);
    RunTracksLastHeader(lines, today);
    NoShiftsWithoutDate(lines, today);
  }

  /** Shifts, once emitted, are never removed or changed. */
  lemma ApplyAppends(st: ParseState, f: LineFacts)
    ensures st.shifts <= Apply(st, f).shifts
  {
  }

  lemma FinishExtends(st: ParseState)
    ensures st.shifts <= Finish(st)
  {
  }

  /** The detector results of each line. */
  function ClassifyAll(lines: seq<string>, today: CalDate): seq<LineFacts> {
    seq(|lines|, k requires 0 <= k < |lines| => Classify(lines[k], today))
  }

  lemma ClassifyAllPrefix(lines: seq<string>, n: nat, today: CalDate)
    requires n <= |lines|
    ensures ClassifyAll(lines[..n], today) == ClassifyAll(lines, today)[..n]
  {
    forall k | 0 <= k < n
      ensures lines[..n][k] == lines[k]
    {
    }
  }

  /** `Run` over lines already classified. */
  function RunFacts(fs: seq<LineFacts>): ParseState {
    if fs == [] then Initial else Apply(RunFacts(fs[..|fs| - 1]), fs[|fs| - 1])
  }

  lemma {:induction false} RunIsRunFacts(lines: seq<string>, today: CalDate)
    ensures Run(lines, today) == RunFacts(ClassifyAll(lines, today))
  {
    if lines != [] {
      var fs := ClassifyAll(lines, today);
      var prefix := lines[..|lines| - 1];
      RunIsRunFacts(prefix, today);
      ClassifyAllPrefix(lines, |lines| - 1, today);
      var before := Run(prefix, today);
      assert before == RunFacts(fs[..|fs| - 1]);
      assert fs[|fs| - 1] == Classify(lines[|lines| - 1], today);
      assert Run(lines, today) == Apply(before, fs[|fs| - 1]);
    }
  }

  lemma {:induction false} RunFactsAppends(fs: seq<LineFacts>, n: nat)
    requires n <= |fs|
    ensures RunFacts(fs[..n]).shifts <= RunFacts(fs).shifts
    decreases |fs|
  {
    if n == |fs| {
      assert fs[..n] == fs;
    } else {
      var prefix := fs[..|fs| - 1];
      RunFactsAppends(prefix, n);
      assert prefix[..n] == fs[..n];
      ApplyAppends(RunFacts(prefix), fs[|fs| - 1]);
    }
  }

  /** Reading more lines only adds shifts after those already extracted. */
  lemma RunAppends(lines: seq<string>, n: nat, today: CalDate)
    requires n <= |lines|
    ensures Run(lines[..n], today).shifts <= Run(lines, today).shifts
    ensures Run(lines[..n], today).shifts <= Finish(Run(lines, today))
  {
    RunIsRunFacts(lines, today);
    RunIsRunFacts(lines[..n], today);
    var fs := ClassifyAll(lines, today);
    ClassifyAllPrefix(lines, n, today);
    RunFactsAppends(fs, n);
    FinishExtends(Run(lines, today));
  }

  lemma FlushedFromPending(pending: seq<PendingRange>, date: CalDate, location: string, s: ParsedShift)
    requires s in Flush(pending, date, location)
    ensures s.date == date && s.location == location
    ensures exists k :: 0 <= k < |pending| && s.segment == pending[k].segment
  {
    var k :| 0 <= k < |pending| && Flush(pending, date, location)[k] == s;
  }

  lemma ApplyBound(st: ParseState, f: LineFacts)
    ensures |Apply(st, f).shifts| + |Apply(st, f).segmentTimeRanges| <= |st.shifts| + |st.segmentTimeRanges| + 1
  {
  }

  /** Each line adds at most one shift or one pending range, and a flush only
      moves pending ranges into the shift list. */
  lemma {:induction false} RunBound(lines: seq<string>, today: CalDate)
    ensures |Run(lines, today).shifts| + |Run(lines, today).segmentTimeRanges| <= |lines|
  {
    if lines != [] {
      RunBound(lines[..|lines| - 1], today);
      ApplyBound(Run(lines[..|lines| - 1], today), Classify(lines[|lines| - 1], today));
    }
  }

  /** At most one shift per line of the text. */
  lemma ShiftCountBound(text: string, today: CalDate)
    ensures |ParseSpec(text, today)| <= CountNewlines(text) + 1
  {
    RunBound(SplitLines(text), today);
    SplitLinesCounts(text);
  }

  // ---------------------------------------------------------------------------
  // Spans: start and end are read on the same day.

  /** An end less than a day before or after the start: no roll-over to another day. */
  predicate WithinDay(start: int, end: int) {
    -SecondsPerDay < end - start < SecondsPerDay
  }

  /** An AM/PM range spans the difference of its two clock readings: negative
      exactly when the end reading comes before the start reading. */
  lemma AmPmRangeSpan(t: string, today: CalDate)
    requires DetectTimeRangeAMPM(t, today).Some?
    ensures var r, m := DetectTimeRangeAMPM(t, today).value, MatchAmPmRange(t).value;
      var a := 60 * To24Hour(m.startHour, m.startPeriod) + m.startMinute;
      var b := 60 * To24Hour(m.endHour, m.endPeriod) + m.endMinute;
      && r.end - r.start == 60 * (b - a)
      && (r.end < r.start <==> b < a)
      && WithinDay(r.start, r.end)
  {
  }

  /** A 24-hour range, likewise, over the clock readings of the match that decided it. */
  lemma Range24Span(t: string)
    requires DetectTimeRange24H(t).Some?
    ensures var r := DetectTimeRange24H(t).value;
      WithinDay(r.start, r.end)
      && (exists m :: ClockMatchIsTime(m) && r == ClockMatchInstants(m)
            && r.end - r.start == 60 * ((60 * m.endHour + m.endMinute.GetOr(0)) - (60 * m.startHour + m.startMinute.GetOr(0))))
  {
    DetectTimeRange24HChoice(t);
    var a, b := MatchTolerantRange(t), MatchStrictRange(t);
    if a.Some? && ClockMatchIsTime(a.value) {
      assert ClockMatchIsTime(a.value) && DetectTimeRange24H(t).value == ClockMatchInstants(a.value);
    } else {
      assert ClockMatchIsTime(b.value) && DetectTimeRange24H(t).value == ClockMatchInstants(b.value);
    }
  }

  /** A line holding only an AM/PM range with hours 1..12 and minutes 0..59
      is read as the two clock times of `today`. */
  lemma AmPmRangeDetected(h1: nat, m1: nat, p1: Period, dash: char, h2: nat, m2: nat, p2: Period, today: CalDate)
    requires 1 <= h1 <= 12 && m1 < 60 && 1 <= h2 <= 12 && m2 < 60 && IsDash(dash)
    ensures var r := DetectTimeRangeAMPM(PatternRoundTrips.AmPmRangeText(h1, m1, p1, dash, h2, m2, p2), today);
      && r.Some?
      && r.value.start == Midnight(today) + 3600 * To24Hour(h1, p1) + 60 * m1
      && r.value.end == Midnight(today) + 3600 * To24Hour(h2, p2) + 60 * m2
  {
    var t := PatternRoundTrips.AmPmRangeText(h1, m1, p1, dash, h2, m2, p2);
    PatternRoundTrips.AmPmRangeRoundTrip(h1, m1, p1, dash, h2, m2, p2);
    AmPmMatchDetected(t, AmPmMatch(h1, m1, p1, h2, m2, p2), today);
  }

  /** A line holding only a 24-hour range whose hours and minutes are a time
      of day is read as those two times, whatever its separators; absent
      minutes count as "00". */
  lemma Range24Detected(h1: nat, s1: char, m1: Option<nat>, dash: char, h2: nat, s2: char, m2: Option<nat>)
    requires h1 < 24 && h2 < 24 && IsHourSeparator(s1) && IsHourSeparator(s2) && IsDash(dash)
    requires m1.Some? ==> m1.value < 60
    requires m2.Some? ==> m2.value < 60
    ensures var r := DetectTimeRange24H(PatternRoundTrips.ClockRangeText(h1, s1, m1, dash, h2, s2, m2));
      && r.Some?
      && r.value.start == Midnight(FormatterDay) + 3600 * h1 + 60 * m1.GetOr(0)
      && r.value.end == Midnight(FormatterDay) + 3600 * h2 + 60 * m2.GetOr(0)
  {
    var t := PatternRoundTrips.ClockRangeText(h1, s1, m1, dash, h2, s2, m2);
    PatternRoundTrips.TolerantRangeRoundTrip(h1, s1, m1, dash, h2, s2, m2);
    DetectTimeRange24HChoice(t);
    assert ClockMatchIsTime(ClockRangeMatch(h1, m1, h2, m2));
  }

  lemma AmPmMatchDetected(t: string, m: AmPmMatch, today: CalDate)
    requires MatchAmPmRange(t) == Some(m)
    requires 1 <= m.startHour <= 12 && m.startMinute < 60 && 1 <= m.endHour <= 12 && m.endMinute < 60
    ensures DetectTimeRangeAMPM(t, today).Some?
    ensures DetectTimeRangeAMPM(t, today).value.start
         == Midnight(today) + 3600 * To24Hour(m.startHour, m.startPeriod) + 60 * m.startMinute
    ensures DetectTimeRangeAMPM(t, today).value.end
         == Midnight(today) + 3600 * To24Hour(m.endHour, m.endPeriod) + 60 * m.endMinute
  {
    assert 0 <= To24Hour(m.startHour, m.startPeriod) < 24 && 0 <= To24Hour(m.endHour, m.endPeriod) < 24;
  }

  ghost predicate FactsWithinDay(f: LineFacts) {
    (f.ampm.Some? ==> WithinDay(f.ampm.value.start, f.ampm.value.end))
    && (f.range24.Some? ==> WithinDay(f.range24.value.start, f.range24.value.end))
  }

  ghost predicate StateWithinDay(st: ParseState) {
    (forall k :: 0 <= k < |st.segmentTimeRanges| ==> WithinDay(st.segmentTimeRanges[k].start, st.segmentTimeRanges[k].end))
    && (forall k :: 0 <= k < |st.shifts| ==> WithinDay(st.shifts[k].startTime, st.shifts[k].endTime))
  }

  lemma ClassifyWithinDay(line: string, today: CalDate)
    ensures FactsWithinDay(Classify(line, today))
  {
    var f := Classify(line, today);
    if f.ampm.Some? {
      AmPmRangeSpan(f.trimmed, today);
    }
    if f.range24.Some? {
      Range24Span(f.trimmed);
    }
  }

  lemma ApplyWithinDay(st: ParseState, f: LineFacts)
    requires StateWithinDay(st) && FactsWithinDay(f)
    ensures StateWithinDay(Apply(st, f))
  {
    if st.shiftMainDate.Some? && st.segmentTimeRanges != [] {
      var flushed := Flush(st.segmentTimeRanges, st.shiftMainDate.value, st.currentLocation);
      var all := st.shifts + flushed;
      assert forall k :: 0 <= k < |all| ==> WithinDay(all[k].startTime, all[k].endTime) by {
        forall k | 0 <= k < |all|
          ensures WithinDay(all[k].startTime, all[k].endTime)
        {
          if k >= |st.shifts| {
            assert all[k] == flushed[k - |st.shifts|];
          }
        }
      }
    }
  }

  lemma {:induction false} RunWithinDay(lines: seq<string>, today: CalDate)
    ensures StateWithinDay(Run(lines, today))
  {
    if lines != [] {
      RunWithinDay(lines[..|lines| - 1], today);
      ClassifyWithinDay(lines[|lines| - 1], today);
      ApplyWithinDay(Run(lines[..|lines| - 1], today), Classify(lines[|lines| - 1], today));
    }
  }

  /** Every extracted shift ends less than a day before or after it starts:
      the parser never moves an end reading to the next day, so a range that
      goes past midnight comes out with its end before its start. */
  lemma ParsedShiftsWithinDay(text: string, today: CalDate)
    ensures forall k :: 0 <= k < |ParseSpec(text, today)| ==>
      WithinDay(ParseSpec(text, today)[k].startTime, ParseSpec(text, today)[k].endTime)
  {
    var st := Run(SplitLines(text), today);
    RunWithinDay(SplitLines(text), today);
    FinishWithinDay(st);
    assert ParseSpec(text, today) == Finish(st);
  }

  /** Flushing the pending ranges keeps every shift within a day. */
  lemma FinishWithinDay(st: ParseState)
    requires StateWithinDay(st)
    ensures forall k :: 0 <= k < |Finish(st)| ==> WithinDay(Finish(st)[k].startTime, Finish(st)[k].endTime)
  {
    if st.shiftMainDate.Some? && st.segmentTimeRanges != [] {
      var flushed := Flush(st.segmentTimeRanges, st.shiftMainDate.value, st.currentLocation);
      var all := st.shifts + flushed;
      assert Finish(st) == all;
      forall k | 0 <= k < |all|
        ensures WithinDay(all[k].startTime, all[k].endTime)
      {
        if k >= |st.shifts| {
          assert all[k] == flushed[k - |st.shifts|];
        }
      }
    }
  }

  // ---------------------------------------------------------------------------
  // Where the fields of a shift come from.

  ghost predicate IsHeaderDate(lines: seq<string>, d: CalDate, today: CalDate) {
    exists k :: 0 <= k < |lines| && LineHeader(lines[k], today) == Some(d)
  }

  ghost predicate IsLocationOf(lines: seq<string>, location: string) {
    location == DefaultLocation || exists k :: 0 <= k < |lines| && TrimWhitespace(lines[k]) == location
  }

  ghost predicate IsSegmentOf(lines: seq<string>, segment: string) {
    segment == DefaultSegment || exists k :: 0 <= k < |lines| && DetectSegment(TrimWhitespace(lines[k])) == Some(segment)
  }

  /** The shift's date is announced by a header line, its location is the
      default or the text of a line, its segment the default or a label read from a line. */
  ghost predicate ShiftTraceable(s: ParsedShift, lines: seq<string>, today: CalDate) {
    IsHeaderDate(lines, s.date, today) && IsLocationOf(lines, s.location) && IsSegmentOf(lines, s.segment)
  }

  // The same notions over classified lines, where no detector has to be unfolded.

  ghost predicate FactsHeader(fs: seq<LineFacts>, d: CalDate) {
    exists k :: 0 <= k < |fs| && fs[k].trimmed != [] && fs[k].header == Some(d)
  }

  ghost predicate FactsLocation(fs: seq<LineFacts>, location: string) {
    location == DefaultLocation || exists k :: 0 <= k < |fs| && fs[k].trimmed == location
  }

  ghost predicate FactsSegment(fs: seq<LineFacts>, segment: string) {
    segment == DefaultSegment || exists k :: 0 <= k < |fs| && fs[k].segment == Some(segment)
  }

  ghost predicate FactsShift(s: ParsedShift, fs: seq<LineFacts>) {
    FactsHeader(fs, s.date) && FactsLocation(fs, s.location) && FactsSegment(fs, s.segment)
  }

  ghost predicate Traceable(st: ParseState, fs: seq<LineFacts>) {
    (st.shiftMainDate.Some? ==> FactsHeader(fs, st.shiftMainDate.value))
    && (st.currentDate.Some? ==> FactsHeader(fs, st.currentDate.value))
    && FactsLocation(fs, st.currentLocation)
    && FactsSegment(fs, st.currentSegment)
    && (forall p :: p in st.segmentTimeRanges ==> FactsSegment(fs, p.segment))
    && (forall s :: s in st.shifts ==> FactsShift(s, fs))
  }

  lemma TraceableExtend(st: ParseState, fs: seq<LineFacts>)
    requires fs != [] && Traceable(st, fs[..|fs| - 1])
    ensures Traceable(st, fs)
  {
    var prefix := fs[..|fs| - 1];
    forall k | 0 <= k < |prefix|
      ensures prefix[k] == fs[k]
    {
    }
  }

  lemma FlushTraceable(st: ParseState, fs: seq<LineFacts>)
    requires Traceable(st, fs) && st.shiftMainDate.Some?
    ensures forall s :: s in Flush(st.segmentTimeRanges, st.shiftMainDate.value, st.currentLocation) ==> FactsShift(s, fs)
  {
    forall s | s in Flush(st.segmentTimeRanges, st.shiftMainDate.value, st.currentLocation)
      ensures FactsShift(s, fs)
    {
      FlushedFromPending(st.segmentTimeRanges, st.shiftMainDate.value, st.currentLocation, s);
      var k :| 0 <= k < |st.segmentTimeRanges| && s.segment == st.segmentTimeRanges[k].segment;
      assert st.segmentTimeRanges[k] in st.segmentTimeRanges;
    }
  }

  lemma EmitTraceable(st: ParseState, fs: seq<LineFacts>, range: TimeRange)
    requires Traceable(st, fs) && st.currentDate.Some?
    ensures Traceable(Emit(st, range), fs)
  {
  }

  lemma RecordTraceable(st: ParseState, fs: seq<LineFacts>, segment: string, range: TimeRange)
    requires Traceable(st, fs) && FactsSegment(fs, segment)
    ensures Traceable(Record(st, segment, range), fs)
  {
  }

  lemma RangeStepTraceable(st: ParseState, f: LineFacts, fs: seq<LineFacts>)
    requires Traceable(st, fs)
    ensures Traceable(RangeStep(st, f), fs)
  {
    if f.ampm.Some? && st.currentDate.Some? {
      EmitTraceable(st, fs, f.ampm.value);
    } else if f.range24.Some? && st.currentDate.Some? {
      EmitTraceable(st, fs, f.range24.value);
    }
  }

  lemma SegmentSectionTraceable(st: ParseState, f: LineFacts, fs: seq<LineFacts>)
    requires Traceable(st, fs)
    requires f.segment.Some? ==> FactsSegment(fs, f.segment.value)
    ensures Traceable(SegmentSectionStep(st, f), fs)
  {
    var named := if f.segment.Some? then st.(currentSegment := f.segment.value) else st;
    assert Traceable(named, fs);
    if f.segment.Some? && f.ampm.Some? {
      RecordTraceable(named, fs, f.segment.value, f.ampm.value);
    } else if named.currentSegment != DefaultSegment && f.ampm.Some? {
      RecordTraceable(named, fs, named.currentSegment, f.ampm.value);
    } else {
      RangeStepTraceable(named, f, fs);
    }
  }

  lemma HeaderTraceable(st: ParseState, fs: seq<LineFacts>, d: CalDate)
    requires Traceable(st, fs) && FactsHeader(fs, d)
    ensures Traceable(HeaderStep(st, d), fs)
  {
    if st.shiftMainDate.Some? && st.segmentTimeRanges != [] {
      FlushTraceable(st, fs);
    }
  }

  lemma StepTraceable(st: ParseState, fs: seq<LineFacts>)
    requires fs != [] && Traceable(st, fs[..|fs| - 1])
    ensures Traceable(Apply(st, fs[|fs| - 1]), fs)
  {
    var f := fs[|fs| - 1];
    TraceableExtend(st, fs);
    if f.trimmed == [] {
    } else if f.header.Some? {
      assert FactsHeader(fs, f.header.value);
      HeaderTraceable(st, fs, f.header.value);
    } else if f.segmentsMarker || f.emplacementMarker {
    } else if f.hasLocation {
      assert FactsLocation(fs, f.trimmed);
    } else if st.isInSegmentsSection {
      assert f.segment.Some? ==> FactsSegment(fs, f.segment.value);
      SegmentSectionTraceable(st, f, fs);
    } else {
      RangeStepTraceable(st, f, fs);
    }
  }

  lemma {:induction false} RunTraceable(fs: seq<LineFacts>)
    ensures Traceable(RunFacts(fs), fs)
  {
    if fs != [] {
      RunTraceable(fs[..|fs| - 1]);
      StepTraceable(RunFacts(fs[..|fs| - 1]), fs);
    }
  }

  // Classified-line provenance is line provenance.

  lemma FactsHeaderIsHeaderDate(lines: seq<string>, d: CalDate, today: CalDate)
    requires FactsHeader(ClassifyAll(lines, today), d)
    ensures IsHeaderDate(lines, d, today)
  {
    var fs := ClassifyAll(lines, today);
    var k :| 0 <= k < |fs| && fs[k].trimmed != [] && fs[k].header == Some(d);
    ClassifyHeader(lines[k], today);
    assert LineHeader(lines[k], today) == Some(d);
  }

  lemma FactsLocationIsLocation(lines: seq<string>, location: string, today: CalDate)
    requires FactsLocation(ClassifyAll(lines, today), location)
    ensures IsLocationOf(lines, location)
  {
    var fs := ClassifyAll(lines, today);
    if location != DefaultLocation {
      var k :| 0 <= k < |fs| && fs[k].trimmed == location;
      ClassifyHeader(lines[k], today);
      assert TrimWhitespace(lines[k]) == location;
    }
  }

  lemma FactsSegmentIsSegment(lines: seq<string>, segment: string, today: CalDate)
    requires FactsSegment(ClassifyAll(lines, today), segment)
    ensures IsSegmentOf(lines, segment)
  {
    var fs := ClassifyAll(lines, today);
    if segment != DefaultSegment {
      var k :| 0 <= k < |fs| && fs[k].segment == Some(segment);
      ClassifyHeader(lines[k], today);
      assert DetectSegment(TrimWhitespace(lines[k])) == Some(segment);
    }
  }

  lemma AllTraceable(shifts: seq<ParsedShift>, lines: seq<string>, today: CalDate)
    requires forall s :: s in shifts ==> FactsShift(s, ClassifyAll(lines, today))
    ensures forall s :: s in shifts ==> ShiftTraceable(s, lines, today)
  {
    forall s | s in shifts
      ensures ShiftTraceable(s, lines, today)
    {
      FactsHeaderIsHeaderDate(lines, s.date, today);
      FactsLocationIsLocation(lines, s.location, today);
      FactsSegmentIsSegment(lines, s.segment, today);
    }
  }

  lemma FinishTraceable(st: ParseState, fs: seq<LineFacts>)
    requires Traceable(st, fs)
    ensures forall s :: s in Finish(st) ==> FactsShift(s, fs)
  {
    if st.shiftMainDate.Some? && st.segmentTimeRanges != [] {
      FlushTraceable(st, fs);
    }
  }

  /** Every extracted shift is dated by a header line of the text, sits at the
      default location or at the text of one of its lines, and has the default
      segment or a label read from one of its lines. */
  lemma ShiftsComeFromText(text: string, today: CalDate)
    ensures forall s :: s in ParseSpec(text, today) ==> ShiftTraceable(s, SplitLines(text), today)
  {
    var lines := SplitLines(text);
    var fs := ClassifyAll(lines, today);
    RunIsRunFacts(lines, today);
    RunTraceable(fs);
    FinishTraceable(Run(lines, today), fs);
    AllTraceable(ParseSpec(text, today), lines, today);
  }
}
