/**
 * The schedule-text parser of the OCR service: the classifiers applied to
 * each trimmed line and the line-driven state machine that turns recognised
 * text into shift tuples. The specification is `Step`/`Run`/`Finish`; the
 * methods `ParseScheduleText`, `ParseLines` (its line loop) and `ParseLine`
 * (one pass of that loop) are the imperative code, proved to compute it.
 */
module OCRService {

  import opened Wrappers
  import opened Text
  import opened CivilCalendar
  import opened Patterns
  import ShiftModel

  // ---------------------------------------------------------------------------
  // Results.

  /** A start and an end instant, in seconds. */
  datatype TimeRange = TimeRange(start: int, end: int)

  /** One extracted `(date, startTime, endTime, location, segment)` tuple. */
  datatype ParsedShift = ParsedShift(date: CalDate, startTime: int, endTime: int, location: string, segment: string)

  /** The errors of the recognition step. */
  datatype OCRError = ImageProcessingFailed | NoTextFound | InvalidImage

  function ErrorDescription(e: OCRError): string {
    match e
    case ImageProcessingFailed => "Impossible de traiter l'image"
    case NoTextFound => "Aucun texte détecté dans l'image"
    case InvalidImage => "Image invalide"
  }

  const DefaultLocation: string := "Non spécifié"
  const DefaultSegment: string := ShiftModel.DefaultSegment

  // ---------------------------------------------------------------------------
  // Date headers: "mercredi 26 novembre".

  /** The year whose October opens the October-to-September span containing `d`. */
  function SpanStartYear(d: CalDate): int {
    if d.month >= 10 then d.year else d.year - 1
  }

  /** The year given to a header month, from the current month and year. */
  function TargetYear(month: int, today: CalDate): int {
    if month >= 10 && today.month < 10 then today.year - 1
    else if month < 10 && today.month >= 10 then today.year + 1
    else today.year
  }

  /** The target year is the one year that puts the header month in the
      October-to-September span of today's date. */
  lemma TargetYearKeepsSpan(month: int, today: CalDate, y: int)
    requires 1 <= month <= 12
    ensures SpanStartYear(CalDate(y, month, 1)) == SpanStartYear(today) <==> y == TargetYear(month, today)
  {
  }

  /** `calendar.date(from:)` on a day and month read by the header formatter
      (so the day exists in the leap year 2000) with the target year: the
      same day, except that 29 February in a common year rolls over to 1 March. */
  function ResolveDate(year: int, month: int, day: int): (r: CalDate)
    requires 1 <= month <= 12 && 1 <= day <= DaysInMonth(2000, month)
    ensures IsValid(r)
    ensures DayNumber(r) == DayNumber(CalDate(year, month, day))
    ensures r.year == year && SpanStartYear(r) == SpanStartYear(CalDate(year, month, 1))
    ensures r != CalDate(year, month, day) ==> month == 2 && day == 29 && !IsLeapYear(year) && r == CalDate(year, 3, 1)
  {
    if day <= DaysInMonth(year, month) then CalDate(year, month, day)
    else
      OnlyLeapDayOverflows(year, month, day);
      LeapDayRollsOver(year);
      CalDate(year, 3, 1)
  }

  /** The only day of the year 2000 missing from another year is 29 February. */
  lemma OnlyLeapDayOverflows(year: int, month: int, day: int)
    requires 1 <= month <= 12 && day <= DaysInMonth(2000, month) && day > DaysInMonth(year, month)
    ensures month == 2 && day == 29 && !IsLeapYear(year)
  {
    assert IsLeapYear(2000);
  }

  /** In a common year, 29 February is counted as 1 March. */
  lemma LeapDayRollsOver(year: int)
    requires !IsLeapYear(year)
    ensures DayNumber(CalDate(year, 2, 29)) == DayNumber(CalDate(year, 3, 1))
  {
    DayNumberInMonth(CalDate(year, 2, 29));
    MonthStep(year, 2);
  }

  /** `detectWorkJamDate`: the first weekday-day-month header of the line, read
      by a formatter that accepts days 1..(days of that month in 2000), placed
      in the year chosen by `TargetYear`. The weekday name is not checked
      against the date. */
  function DetectWorkJamDate(t: string, today: CalDate): (r: Option<CalDate>)
    ensures r.Some? <==>
      MatchDateHeader(t).Some? && 1 <= MatchDateHeader(t).value.day <= DaysInMonth(2000, MatchDateHeader(t).value.month)
    ensures r.Some? ==> IsValid(r.value) && SpanStartYear(r.value) == SpanStartYear(today)
    ensures r.Some? ==>
      var m := MatchDateHeader(t).value;
      && r.value.year == TargetYear(m.month, today)
      && DayNumber(r.value) == DayNumber(CalDate(TargetYear(m.month, today), m.month, m.day))
  {
    var m := MatchDateHeader(t);
    if m.None? || !(1 <= m.value.day <= DaysInMonth(2000, m.value.month)) then None
    else
      var y := TargetYear(m.value.month, today);
      TargetYearKeepsSpan(m.value.month, today, y);
      Some(ResolveDate(y, m.value.month, m.value.day))
  }

  // ---------------------------------------------------------------------------
  // AM/PM ranges: "10:00 AM–11:30 AM".

  /** The twelve-hour to twenty-four-hour conversion. */
  function To24Hour(hour: int, period: Period): int {
    if period == PM && hour != 12 then hour + 12
    else if period == AM && hour == 12 then 0
    else hour
  }

  /** The clock-face reading of a twenty-four-hour value. */
  function To12Hour(hour24: int): (int, Period)
    requires 0 <= hour24 < 24
  {
    (if hour24 % 12 == 0 then 12 else hour24 % 12, if hour24 < 12 then AM else PM)
  }

  /** Over hours 1..12 and both periods the conversion is a bijection onto
      0..23, whose inverse is `To12Hour`. */
  lemma To24HourBijection(hour: int, period: Period, hour24: int)
    ensures 1 <= hour <= 12 ==> 0 <= To24Hour(hour, period) < 24 && To12Hour(To24Hour(hour, period)) == (hour, period)
    ensures 0 <= hour24 < 24 ==> 1 <= To12Hour(hour24).0 <= 12 && To24Hour(To12Hour(hour24).0, To12Hour(hour24).1) == hour24
  {
  }

  /** `detectTimeRangeAMPM`: the first AM/PM range of the line, as two instants
      of `today`; None when either converted clock reading is not a time of day. */
  function DetectTimeRangeAMPM(t: string, today: CalDate): (r: Option<TimeRange>)
    ensures r.Some? <==>
      MatchAmPmRange(t).Some?
      && 0 <= To24Hour(MatchAmPmRange(t).value.startHour, MatchAmPmRange(t).value.startPeriod) < 24
      && 0 <= To24Hour(MatchAmPmRange(t).value.endHour, MatchAmPmRange(t).value.endPeriod) < 24
      && MatchAmPmRange(t).value.startMinute < 60 && MatchAmPmRange(t).value.endMinute < 60
    ensures r.Some? ==>
      var m := MatchAmPmRange(t).value;
      r.value.start == Midnight(today) + 3600 * To24Hour(m.startHour, m.startPeriod) + 60 * m.startMinute
      && r.value.end == Midnight(today) + 3600 * To24Hour(m.endHour, m.endPeriod) + 60 * m.endMinute
  {
    var m := MatchAmPmRange(t);
    if m.None? then None
    else
      var s := AtTimeOfDay(today, To24Hour(m.value.startHour, m.value.startPeriod), m.value.startMinute);
      var e := AtTimeOfDay(today, To24Hour(m.value.endHour, m.value.endPeriod), m.value.endMinute);
      if s.Some? && e.Some? then Some(TimeRange(s.value, e.value)) else None
  }

  // ---------------------------------------------------------------------------
  // 24-hour ranges: "09:00 - 17:00", "9h-17h".

  /** The day a "HH:mm" formatter puts a parsed time on. */
  const FormatterDay: CalDate := CalDate(2000, 1, 1)

  /** Both "H:mm" readings through the "HH:mm" formatter. */
  function ClockRange(startHour: int, startMinute: int, endHour: int, endMinute: int): (r: Option<TimeRange>)
    ensures r.Some? <==> 0 <= startHour < 24 && 0 <= startMinute < 60 && 0 <= endHour < 24 && 0 <= endMinute < 60
    ensures r.Some? ==> r.value == TimeRange(Midnight(FormatterDay) + 3600 * startHour + 60 * startMinute,
                                             Midnight(FormatterDay) + 3600 * endHour + 60 * endMinute)
  {
    var s := AtTimeOfDay(FormatterDay, startHour, startMinute);
    var e := AtTimeOfDay(FormatterDay, endHour, endMinute);
    if s.Some? && e.Some? then Some(TimeRange(s.value, e.value)) else None
  }

  /** `detectTimeRange24H`: the first tolerant match with absent minutes read as
      "00"; if that one is missing or not a pair of times of day, the first strict match. */
  function DetectTimeRange24H(t: string): (r: Option<TimeRange>)
    ensures MatchTolerantRange(t).None? && MatchStrictRange(t).None? ==> r.None?
    ensures r.Some? ==> Midnight(FormatterDay) <= r.value.start < Midnight(FormatterDay) + SecondsPerDay
    ensures r.Some? ==> Midnight(FormatterDay) <= r.value.end < Midnight(FormatterDay) + SecondsPerDay
  {
    var a := MatchTolerantRange(t);
    var tolerant :=
      if a.Some? then ClockRange(a.value.startHour, a.value.startMinute.GetOr(0), a.value.endHour, a.value.endMinute.GetOr(0))
      else None;
    if tolerant.Some? then tolerant
    else
      var b := MatchStrictRange(t);
      if b.Some? then ClockRange(b.value.startHour, b.value.startMinute.value, b.value.endHour, b.value.endMinute.value)
      else None
  }

  /** A clock match whose hours and minutes (absent minutes read as "00") are a time of day. */
  predicate ClockMatchIsTime(m: ClockRangeMatch) {
    m.startHour < 24 && m.startMinute.GetOr(0) < 60 && m.endHour < 24 && m.endMinute.GetOr(0) < 60
  }

  /** The two instants of a clock match on the formatter's day. */
  function ClockMatchInstants(m: ClockRangeMatch): TimeRange {
    TimeRange(Midnight(FormatterDay) + 3600 * m.startHour + 60 * m.startMinute.GetOr(0),
              Midnight(FormatterDay) + 3600 * m.endHour + 60 * m.endMinute.GetOr(0))
  }

  /** Which match decides a 24-hour range: the tolerant one when it reads as a
      time of day; otherwise the strict one when it does; otherwise none. */
  lemma DetectTimeRange24HChoice(t: string)
    ensures var a, b := MatchTolerantRange(t), MatchStrictRange(t);
      && (a.Some? && ClockMatchIsTime(a.value) ==> DetectTimeRange24H(t) == Some(ClockMatchInstants(a.value)))
      && (!(a.Some? && ClockMatchIsTime(a.value)) && b.Some? && ClockMatchIsTime(b.value) ==>
            DetectTimeRange24H(t) == Some(ClockMatchInstants(b.value)))
      && (!(a.Some? && ClockMatchIsTime(a.value)) && !(b.Some? && ClockMatchIsTime(b.value)) ==>
            DetectTimeRange24H(t).None?)
  {
    var a, b := MatchTolerantRange(t), MatchStrictRange(t);
    if a.Some? {
      ClockMatchRange(a.value);
    }
    if b.Some? {
      ClockMatchRange(b.value);
    }
  }

  /** `ClockRange` of a match's readings is its two instants when they are a time of day. */
  lemma ClockMatchRange(m: ClockRangeMatch)
    ensures var c := ClockRange(m.startHour, m.startMinute.GetOr(0), m.endHour, m.endMinute.GetOr(0));
      (c.Some? <==> ClockMatchIsTime(m)) && (c.Some? ==> c.value == ClockMatchInstants(m))
  {
  }

  // ---------------------------------------------------------------------------
  // Segment labels and locations.

  /** `detectSegment`: the first known found; otherwise, for a line longer than
      three characters with no "AM", "PM" or ":", the line without its leading
      and trailing non-letters, when something is left. */
  function DetectSegment(t: string): (r: Option<string>)
    ensures MatchSegment(t).Some? ==> r == MatchSegment(t)
    ensures r.Some? ==> r.value != []
    ensures MatchSegment(t).None? && r.Some? ==>
      !Contains(t, "AM") && !Contains(t, "PM") && !Contains(t, ":") && |t| > 3
      && r.value == TrimNonLetters(t) && LetterBounded(r.value)
    ensures (MatchSegment(t).None? && !Contains(t, "AM") && !Contains(t, "PM") && !Contains(t, ":") && |t| > 3
             && TrimNonLetters(t) != []) ==> r == Some(TrimNonLetters(t))
  {
    var m := MatchSegment(t);
    if m.Some? then m
    else if !Contains(t, "AM") && !Contains(t, "PM") && !Contains(t, ":") && |t| > 3 then
      var cleaned := TrimNonLetters(t);
      if cleaned != [] then Some(cleaned) else None
    else None
  }

  const LocationKeywords: seq<string> := ["site", "magasin", "boutique", "bureau", "entrepôt", "store", "location"]

  predicate HasLocationKeyword(t: string) {
    exists k :: 0 <= k < |LocationKeywords| && Contains(Lower(t), LocationKeywords[k])
  }

  /** `detectLocation`: the line itself when its lower-case form contains a location keyword. */
  method DetectLocation(t: string) returns (r: Option<string>)
    ensures r == (if HasLocationKeyword(t) then Some(t) else None)
  {
    var lowercased := Lower(t);
    for k := 0 to |LocationKeywords|
      invariant forall j :: 0 <= j < k ==> !Contains(lowercased, LocationKeywords[j])
    {
      if Contains(lowercased, LocationKeywords[k]) {
        return Some(t);
      }
    }
    return None;
  }

  // ---------------------------------------------------------------------------
  // The state machine.

  /** A range recorded in the segments section, waiting for its date. */
  datatype PendingRange = PendingRange(segment: string, start: int, end: int)

  datatype ParseState = ParseState(
    currentDate: Option<CalDate>,
    shiftMainDate: Option<CalDate>,
    currentLocation: string,
    currentSegment: string,
    isInSegmentsSection: bool,
    segmentTimeRanges: seq<PendingRange>,
    shifts: seq<ParsedShift>)

  const Initial: ParseState := ParseState(None, None, DefaultLocation, DefaultSegment, false, [], [])

  /** The shifts of the pending ranges, in recorded order, on `date` at `location`. */
  function Flush(pending: seq<PendingRange>, date: CalDate, location: string): (r: seq<ParsedShift>)
    ensures |r| == |pending|
    ensures forall k :: 0 <= k < |pending| ==>
      r[k] == ParsedShift(date, pending[k].start, pending[k].end, location, pending[k].segment)
  {
    if pending == [] then []
    else [ParsedShift(date, pending[0].start, pending[0].end, location, pending[0].segment)] + Flush(pending[1..], date, location)
  }

  /** A header line: flush the pending ranges if there is a main date, then the
      header's date becomes both the main and the current date. */
  function HeaderStep(st: ParseState, date: CalDate): ParseState {
    var flushed :=
      if st.shiftMainDate.Some? && st.segmentTimeRanges != [] then
        st.(shifts := st.shifts + Flush(st.segmentTimeRanges, st.shiftMainDate.value, st.currentLocation),
            segmentTimeRanges := [])
      else st;
    flushed.(shiftMainDate := Some(date), currentDate := Some(date))
  }

  function Record(st: ParseState, segment: string, range: TimeRange): ParseState {
    st.(segmentTimeRanges := st.segmentTimeRanges + [PendingRange(segment, range.start, range.end)],
        currentSegment := DefaultSegment)
  }

  function Emit(st: ParseState, range: TimeRange): ParseState
    requires st.currentDate.Some?
  {
    st.(shifts := st.shifts + [ParsedShift(st.currentDate.value, range.start, range.end, st.currentLocation, st.currentSegment)])
  }

  /** What the detectors say about one line, trimmed. Each is a pure function
      of the line (and of `today`), so reading them all up front does not
      change what the parser does with them. */
  datatype LineFacts = LineFacts(
    trimmed: string,
    header: Option<CalDate>,
    segmentsMarker: bool,
    emplacementMarker: bool,
    hasLocation: bool,
    segment: Option<string>,
    ampm: Option<TimeRange>,
    range24: Option<TimeRange>)

  function Classify(line: string, today: CalDate): LineFacts {
    var t := TrimWhitespace(line);
    LineFacts(t, if t == [] then None else DetectWorkJamDate(t, today),
              Contains(Upper(t), "SEGMENT"), Contains(Upper(t), "EMPLACEMENT"), HasLocationKeyword(t),
              DetectSegment(t), DetectTimeRangeAMPM(t, today), DetectTimeRange24H(t))
  }

  /** Direct detection: an AM/PM range, else a 24-hour range, on the current date. */
  function RangeStep(st: ParseState, f: LineFacts): ParseState {
    if f.ampm.Some? && st.currentDate.Some? then Emit(st, f.ampm.value)
    else if f.range24.Some? && st.currentDate.Some? then Emit(st, f.range24.value)
    else st
  }

  /** A line of the segments section. */
  function SegmentSectionStep(st: ParseState, f: LineFacts): ParseState {
    var named := if f.segment.Some? then st.(currentSegment := f.segment.value) else st;
    if f.segment.Some? && f.ampm.Some? then Record(named, f.segment.value, f.ampm.value)
    else if named.currentSegment != DefaultSegment && f.ampm.Some? then Record(named, named.currentSegment, f.ampm.value)
    else RangeStep(named, f)
  }

  /** The effect of one line, from what the detectors say about it, in the order the parser tests them. */
  function Apply(st: ParseState, f: LineFacts): ParseState {
    if f.trimmed == [] then st
    else if f.header.Some? then HeaderStep(st, f.header.value)
    else if f.segmentsMarker then st.(isInSegmentsSection := true)
    else if f.emplacementMarker then st.(isInSegmentsSection := false)
    else if f.hasLocation then st.(currentLocation := f.trimmed)
    else if st.isInSegmentsSection then SegmentSectionStep(st, f)
    else RangeStep(st, f)
  }

  /** The effect of one line, calling each detector only where the parser does. */
  function Step(st: ParseState, line: string, today: CalDate): ParseState {
    var t := TrimWhitespace(line);
    if t == [] then st
    else if DetectWorkJamDate(t, today).Some? then HeaderStep(st, DetectWorkJamDate(t, today).value)
    else if Contains(Upper(t), "SEGMENT") then st.(isInSegmentsSection := true)
    else if Contains(Upper(t), "EMPLACEMENT") then st.(isInSegmentsSection := false)
    else if HasLocationKeyword(t) then st.(currentLocation := t)
    else if st.isInSegmentsSection then SegmentSectionStep(st, Classify(line, today))
    else RangeStep(st, Classify(line, today))
  }

  /** Reading every detector first and then deciding gives the same step. */
  lemma StepIsApply(st: ParseState, line: string, today: CalDate)
    ensures Step(st, line, today) == Apply(st, Classify(line, today))
  {
  }

  /** The state after the given lines. */
  function Run(lines: seq<string>, today: CalDate): ParseState {
    if lines == [] then Initial else Apply(Run(lines[..|lines| - 1], today), Classify(lines[|lines| - 1], today))
  }

  /** One more line is one more step. */
  lemma RunExtends(lines: seq<string>, i: nat, today: CalDate)
    requires i < |lines|
    ensures Run(lines[..i + 1], today) == Apply(Run(lines[..i], today), Classify(lines[i], today))
  {
    assert lines[..i + 1][..i] == lines[..i];
  }

  /** The shifts at the end of input: the remaining pending ranges are flushed
      on the main date, if there is one. */
  function Finish(st: ParseState): seq<ParsedShift> {
    if st.shiftMainDate.Some? && st.segmentTimeRanges != [] then
      st.shifts + Flush(st.segmentTimeRanges, st.shiftMainDate.value, st.currentLocation)
    else st.shifts
  }

  function ParseSpec(text: string, today: CalDate): seq<ParsedShift> {
    Finish(Run(SplitLines(text), today))
  }

  /** The pending-range flush loop, appending to `shifts`. */
  method AppendFlushed(shifts: seq<ParsedShift>, pending: seq<PendingRange>, date: CalDate, location: string)
    returns (r: seq<ParsedShift>)
    ensures r == shifts + Flush(pending, date, location)
  {
    r := shifts;
    for k := 0 to |pending|
      invariant r == shifts + Flush(pending[..k], date, location)
    {
      assert Flush(pending[..k + 1], date, location)
          == Flush(pending[..k], date, location) + [ParsedShift(date, pending[k].start, pending[k].end, location, pending[k].segment)];
      r := r + [ParsedShift(date, pending[k].start, pending[k].end, location, pending[k].segment)];
    }
    assert pending[..|pending|] == pending;
  }

  /** One pass of the line loop of `parseScheduleText`: the parser's local
      variables before and after the line (`continue` is an early return). */
  method ParseLine(line: string, today: CalDate,
                   currentDate0: Option<CalDate>, shiftMainDate0: Option<CalDate>,
                   currentLocation0: string, currentSegment0: string, isInSegmentsSection0: bool,
                   segmentTimeRanges0: seq<PendingRange>, shifts0: seq<ParsedShift>)
    returns (currentDate: Option<CalDate>, shiftMainDate: Option<CalDate>,
             currentLocation: string, currentSegment: string, isInSegmentsSection: bool,
             segmentTimeRanges: seq<PendingRange>, shifts: seq<ParsedShift>)
    ensures ParseState(currentDate, shiftMainDate, currentLocation, currentSegment,
                       isInSegmentsSection, segmentTimeRanges, shifts)
         == Apply(ParseState(currentDate0, shiftMainDate0, currentLocation0, currentSegment0,
                             isInSegmentsSection0, segmentTimeRanges0, shifts0), Classify(line, today))
  {
    StepIsApply(ParseState(currentDate0, shiftMainDate0, currentLocation0, currentSegment0,
                           isInSegmentsSection0, segmentTimeRanges0, shifts0), line, today);
    currentDate, shiftMainDate, currentLocation, currentSegment := currentDate0, shiftMainDate0, currentLocation0, currentSegment0;
    isInSegmentsSection, segmentTimeRanges, shifts := isInSegmentsSection0, segmentTimeRanges0, shifts0;
    var trimmedLine := TrimWhitespace(line);
    if trimmedLine == [] {
      return;
    }
    var date := DetectWorkJamDate(trimmedLine, today);
    if date.Some? {
      if shiftMainDate.Some? && segmentTimeRanges != [] {
        shifts := AppendFlushed(shifts, segmentTimeRanges, shiftMainDate.value, currentLocation);
        segmentTimeRanges := [];
      }
      shiftMainDate := date;
      currentDate := date;
      return;
    }
    if Contains(Upper(trimmedLine), "SEGMENT") {
      isInSegmentsSection := true;
      return;
    }
    if Contains(Upper(trimmedLine), "EMPLACEMENT") {
      isInSegmentsSection := false;
      return;
    }
    var location := DetectLocation(trimmedLine);
    if location.Some? {
      currentLocation := location.value;
      return;
    }
    if isInSegmentsSection {
      var segment := DetectSegment(trimmedLine);
      if segment.Some? {
        currentSegment := segment.value;
        var range := DetectTimeRangeAMPM(trimmedLine, today);
        if range.Some? {
          segmentTimeRanges := segmentTimeRanges + [PendingRange(segment.value, range.value.start, range.value.end)];
          currentSegment := DefaultSegment;
          return;
        }
      }
      if currentSegment != DefaultSegment {
        var range := DetectTimeRangeAMPM(trimmedLine, today);
        if range.Some? {
          segmentTimeRanges := segmentTimeRanges + [PendingRange(currentSegment, range.value.start, range.value.end)];
          currentSegment := DefaultSegment;
          return;
        }
      }
    }
    var ampm := DetectTimeRangeAMPM(trimmedLine, today);
    if ampm.Some? && currentDate.Some? {
      shifts := shifts + [ParsedShift(currentDate.value, ampm.value.start, ampm.value.end, currentLocation, currentSegment)];
    } else {
      var range24 := DetectTimeRange24H(trimmedLine);
      if range24.Some? && currentDate.Some? {
        shifts := shifts + [ParsedShift(currentDate.value, range24.value.start, range24.value.end, currentLocation, currentSegment)];
      }
    }
  }

  /** The line loop of `parseScheduleText`: the parser's variables after
      every line. */
  method ParseLines(lines: seq<string>, today: CalDate)
    returns (currentDate: Option<CalDate>, shiftMainDate: Option<CalDate>,
             currentLocation: string, currentSegment: string, isInSegmentsSection: bool,
             segmentTimeRanges: seq<PendingRange>, shifts: seq<ParsedShift>)
    ensures ParseState(currentDate, shiftMainDate, currentLocation, currentSegment,
                       isInSegmentsSection, segmentTimeRanges, shifts) == Run(lines, today)
  {
    shifts := [];
    currentDate := None;
    currentLocation := DefaultLocation;
    currentSegment := DefaultSegment;
    isInSegmentsSection := false;
    shiftMainDate := None;
    segmentTimeRanges := [];

    for i := 0 to |lines|
      invariant Run(lines[..i], today)
             == ParseState(currentDate, shiftMainDate, currentLocation, currentSegment,
                           isInSegmentsSection, segmentTimeRanges, shifts)
    {
      RunExtends(lines, i, today);
      currentDate, shiftMainDate, currentLocation, currentSegment, isInSegmentsSection, segmentTimeRanges, shifts :=
        ParseLine(lines[i], today, currentDate, shiftMainDate, currentLocation, currentSegment,
                  isInSegmentsSection, segmentTimeRanges, shifts);
    }
    assert lines[..|lines|] == lines;
  }

  /** `parseScheduleText`, with the clock reading `today` as a parameter. */
  method ParseScheduleText(text: string, today: CalDate) returns (shifts: seq<ParsedShift>)
    ensures shifts == ParseSpec(text, today)
  {
    var lines := SplitLines(text);
    var _, shiftMainDate, currentLocation, _, _, segmentTimeRanges, parsed := ParseLines(lines, today);
    shifts := parsed;
    if shiftMainDate.Some? && segmentTimeRanges != [] {
      shifts := AppendFlushed(shifts, segmentTimeRanges, shiftMainDate.value, currentLocation);
    }
  }
}
