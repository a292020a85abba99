# Shifter, modelled in Dafny

Shifter is an iOS app that turns screenshots of a WorkJam work schedule into a
list of work shifts. Text recognition yields the screenshot's text. A
line-driven parser reads day headers ("mercredi 26 novembre"), places, segment
labels ("Caisse", "Rayon 2") and time ranges ("10:00 AM–11:30 AM",
"09:00 - 17:00", "9h-17h") from that text and emits
`(date, start, end, location, segment)` tuples.

The view model stores these tuples as shifts of a work schedule. It can also
import shifts from an exported JSON file, and it lets the user edit, delete,
confirm and filter shifts. A home-screen widget ranks the three segments with
the most hours in the current fiscal quarter. It also shows the change from
the previous quarter and how far the current quarter has run. Fiscal quarters
run from October: Q1 is October–December, and the fiscal year is the calendar
year.

The Dafny project models these parts:

- `CivilCalendar` (`civil_calendar.dfy`): calendar dates as
  `(year, month, day)`, with a lenient day count like `Calendar`'s and
  instants in whole seconds.
- `FiscalCalendarHelper` (`fiscal_calendar_helper.dfy`): quarter, fiscal
  year, same-quarter test and label.
- `ShiftModel` (`shift.dfy`): a shift, its duration and its "8h30" rendering.
- `WorkScheduleModel` (`work_schedule.dfy`): a schedule, its distinct
  places, and its per-place and per-week views sorted by day.
- `Patterns` (`patterns.dfy`): the regular expressions of the OCR service.
  - Each expression is written as a matcher at one position.
  - A generic leftmost search (`FirstMatchFrom`) plays the part of
    `firstMatch(in:)`.
- `OCRService` (`ocr_service.dfy`): the line classifiers and the parser.
  - The parser's specification is the pure state machine
    `Step`/`Apply`/`Run`/`Finish`.
  - `ParseScheduleText`, `ParseLines` and `ParseLine` are the imperative
    code, proved to compute that specification.
- `ParserProperties` (`parser_properties.dfy`): what the parser does with
  each kind of line, its two flush quirks, bounds, and where each field of an
  emitted shift comes from.
- `WidgetDataProvider` (`widget_data_provider.dfy`): the top-3 ranking, the
  percentages and the change text, the previous-quarter rule, the quarter
  bounds, and the progress and its clamp.
  - The members named after the source functions follow the code as
    written.
  - The `...Corrected` members apply the two fixes listed under
    "## Findings".
- `ScheduleViewModelModel` (`schedule_view_model.dfy`): the class
  `ScheduleViewModel`.
  - Its fields are the schedules shown, the selected schedule, the loading
    and error flags and the location filter.
  - Its methods are the post-recognition merge, the JSON import, update,
    delete, delete-all, toggle, the filter and the error mapping.
  - Each method keeps an identity invariant: schedule ids are distinct, shift
    ids are pairwise distinct across all schedules, and every id lies below the counter
    that hands out the next one.
- Helpers:
  - `Text` (`text.dfy`): Foundation string operations on ASCII and Latin-1.
  - `SwiftArith` (`swift_arith.dfy`): Swift's truncating `/` and `%`.
  - `Collections` (`collections.dfy`): filter, stable sort, sorted distinct
    values.
  - `Wrappers` (`wrappers.dfy`): `Option`.

The parameters stand in for the environment:

- `today` stands for `Date()`, and `now` for the creation instant of a new
  schedule.
- Week starts, the recognition outcome and the JSON decoding outcome are
  also inputs.

The parser has no relative-time hints, no result cache and no duplicate
filter, and neither has the model.

## Model

| member | source | states |
|---|---|---|
| FiscalCalendarHelper.FiscalQuarter | WorkScheduleApp/Helpers/FiscalCalendarHelper.swift:15-23 | The quarter is in 1..4, and for a real month the month lies in the three months that quarter starts with |
| FiscalCalendarHelper.QuarterFirstMonth | WorkScheduleApp/Helpers/FiscalCalendarHelper.swift:17-21 | A quarter starts in January, April, July or October |
| FiscalCalendarHelper.QuarterMonths | WorkScheduleApp/Helpers/FiscalCalendarHelper.swift:15-23 | A month belongs to quarter q exactly when it is one of q's three consecutive months |
| FiscalCalendarHelper.LastCalendarQuarterIsQ1 | WorkScheduleApp/Helpers/FiscalCalendarHelper.swift:26-28 | October to December of year Y is labelled "Q1 Y" |
| FiscalCalendarHelper.SameQuarterIsEquivalence | WorkScheduleApp/Helpers/FiscalCalendarHelper.swift:31-34 | Being in the same quarter is reflexive, symmetric and transitive |
| FiscalCalendarHelper.QuarterLabel | WorkScheduleApp/Helpers/FiscalCalendarHelper.swift:37-39 | The label is "Q", the quarter digit, a space, then the year's decimal text |
| FiscalCalendarHelper.LabelIdentifiesQuarter | WorkScheduleApp/Helpers/FiscalCalendarHelper.swift:31-39 | Two dates have the same label if and only if they are in the same quarter of the same fiscal year |
| ShiftModel.NewShiftDefaults | WorkScheduleApp/Models/Shift.swift:45-54 | Without explicit values a new shift is "Général", has empty notes and is confirmed, and it keeps every given field |
| ShiftModel.RemainingMinutes | WorkScheduleApp/Models/Shift.swift:63-64 | The minutes part lies strictly between -60 and 60, and is never negative for a non-negative duration |
| ShiftModel.HoursMinutesReconstruct | WorkScheduleApp/Models/Shift.swift:63-64 | For a non-negative duration, the minutes are in 0..59 and 3600·hours + 60·minutes is the duration less under one minute |
| ShiftModel.TotalMinutes | WorkScheduleApp/Models/Shift.swift:63-64 | The whole minutes of a non-negative duration are 60·hours + minutes |
| ShiftModel.HoursText | WorkScheduleApp/Models/Shift.swift:65 | The text is the hours, then "h", then two digits worth the minutes when there are minutes, and nothing after "h" otherwise |
| ShiftModel.HoursTextDeterminesMinutes | WorkScheduleApp/Models/Shift.swift:62-66 | For non-negative durations, equal texts mean equal durations to the minute |
| ShiftModel.DurationFormattedDeterminesMinutes | WorkScheduleApp/Models/Shift.swift:62-66 | Two shifts of non-negative duration with the same `durationFormatted` last the same whole minutes |
| ScheduleViewModelModel.ParsedDurationsWithinDay | WorkScheduleApp/Models/Shift.swift:57-59 | Every shift made from a parsed text lasts less than a day either way: the end is never moved to the next day, so a range past midnight has a negative duration |
| ScheduleViewModelModel.OvernightShiftDuration | WorkScheduleApp/Models/Shift.swift:57-59 | The line "10:00 PM – 6:00 AM" is read as 22:00 to 6:00 of today, and the shift made from it lasts minus sixteen hours |
| WorkScheduleModel.NewScheduleIsEmpty | WorkScheduleApp/Models/WorkSchedule.swift:30-37 | A new schedule has no shifts, the given title and no image or text |
| WorkScheduleModel.Locations | WorkScheduleApp/Models/WorkSchedule.swift:50-52 | It holds each shift location exactly once, strictly ascending, and nothing else |
| WorkScheduleModel.ShiftsForLocation | WorkScheduleApp/Models/WorkSchedule.swift:55-57 | It holds exactly the shifts at the place, each as often as in the schedule, by ascending day |
| WorkScheduleModel.ShiftsForWeek | WorkScheduleApp/Models/WorkSchedule.swift:62-70 | It holds exactly the shifts within seven days from the week start, each as often as in the schedule, by ascending day |
| Patterns.FirstMatchFrom | WorkScheduleApp/Services/OCRService.swift:223-224 | A match found is the match at some position at or after the start |
| Patterns.FirstMatchIsLeftmost | WorkScheduleApp/Services/OCRService.swift:223-224 | The search fails exactly when no position matches, and otherwise returns the match at the leftmost matching position |
| Patterns.NameAt | WorkScheduleApp/Services/OCRService.swift:16-19 | It returns the first name in the list that the text starts with, case-insensitively, or none when no name fits |
| Patterns.DateHeaderAt | WorkScheduleApp/Services/OCRService.swift:16-19 | A header match has a weekday 1..7, a day of one or two digits and a month 1..12 |
| Patterns.MatchDateHeader | WorkScheduleApp/Services/OCRService.swift:16-19 | The leftmost header match of the line, with the same field bounds |
| Patterns.DashAt | WorkScheduleApp/Services/OCRService.swift:21-34 | A dash separator, with its surrounding spaces, ends strictly after where it starts and within the text |
| Patterns.DigitsThen | WorkScheduleApp/Services/OCRService.swift:26-34 | A one- or two-digit number followed by a separator gives a value under 100 and ends two or three characters later |
| Patterns.AmPmRangeAt | WorkScheduleApp/Services/OCRService.swift:21-24 | Every clock field of an AM/PM range match is a number of at most two digits |
| Patterns.MatchAmPmRange | WorkScheduleApp/Services/OCRService.swift:21-24 | The leftmost AM/PM range match, with the same field bounds |
| Patterns.TolerantRangeAt | WorkScheduleApp/Services/OCRService.swift:26-29 | Hours and any minutes present of a tolerant match are numbers of at most two digits |
| Patterns.StrictRangeAt | WorkScheduleApp/Services/OCRService.swift:31-34 | A strict match always has both minutes, and all four fields are under 100 |
| Patterns.StrictMatchIsTolerantMatch | WorkScheduleApp/Services/OCRService.swift:26-34 | Where the strict pattern matches, the tolerant one matches with the same fields |
| Patterns.ColonIsHourSeparator | WorkScheduleApp/Services/OCRService.swift:26-34 | A colon-separated clock reading is also read by the tolerant `[:h]` separator, with the same value |
| Patterns.MatchStrictRange | WorkScheduleApp/Services/OCRService.swift:31-34 | The leftmost strict match always carries both minutes |
| Patterns.SegmentAt | WorkScheduleApp/Services/OCRService.swift:36-39 | A segment label match is never empty |
| Patterns.MatchSegment | WorkScheduleApp/Services/OCRService.swift:36-39 | The leftmost segment label of the line is never empty |
| PatternRoundTrips.DateHeaderRoundTrip | WorkScheduleApp/Services/OCRService.swift:16-19 | A weekday name, a space, a day of one or two digits, a space and a month name are read back as that weekday, day and month |
| PatternRoundTrips.TolerantRangeRoundTrip | WorkScheduleApp/Services/OCRService.swift:26-29 | Two clock readings with "h" or ":" separators, optional two-digit minutes and a dash between them are read back with their hours and minutes, an absent minute staying absent |
| PatternRoundTrips.StrictRangeRoundTrip | WorkScheduleApp/Services/OCRService.swift:31-34 | Two "H:MM" readings around a dash are read back with both hours and both minutes |
| PatternRoundTrips.TolerantRangeExample | WorkScheduleApp/Services/OCRService.swift:26-29 | "9h-17h" is read as 9 to 17 with both minutes absent |
| PatternRoundTrips.StrictRangeExample | WorkScheduleApp/Services/OCRService.swift:31-34 | "9:30–17:45" is read as 9:30 to 17:45 |
| PatternRoundTrips.AmPmRangeRoundTrip | WorkScheduleApp/Services/OCRService.swift:21-24 | Two "H:MM AM/PM" readings around a spaced dash are read back with their hours, minutes and periods |
| PatternRoundTrips.FixedLabelRoundTrip | WorkScheduleApp/Services/OCRService.swift:36-39 | Each fixed segment label ("PZ On Point", "Break", "Setup", ...) is recognised as itself |
| PatternRoundTrips.NumberedLabelRoundTrip | WorkScheduleApp/Services/OCRService.swift:36-39 | "Sales " or "Runner " followed by a number is recognised whole, number included |
| OCRService.TargetYearKeepsSpan | WorkScheduleApp/Services/OCRService.swift:241-252 | The chosen year is the one year that puts the header month in the October-to-September span of today |
| OCRService.ResolveDate | WorkScheduleApp/Services/OCRService.swift:254-256 | A real date in the requested year, on the day number of the requested day; it differs from the requested day only for 29 February of a common year, which becomes 1 March |
| OCRService.OnlyLeapDayOverflows | WorkScheduleApp/Services/OCRService.swift:228-256 | The only day the formatter accepts that the target year lacks is 29 February of a common year |
| OCRService.LeapDayRollsOver | WorkScheduleApp/Services/OCRService.swift:254-256 | In a common year, 29 February counts as 1 March |
| OCRService.DetectWorkJamDate | WorkScheduleApp/Services/OCRService.swift:221-260 | A date is found exactly when the line has a header whose day exists in that month of 2000; it is real, in today's span and in the target year, on the header's day |
| OCRService.To24HourBijection | WorkScheduleApp/Services/OCRService.swift:337-349 | Over hours 1..12 and both periods the conversion is a bijection onto 0..23, with the clock-face reading as its inverse |
| OCRService.DetectTimeRangeAMPM | WorkScheduleApp/Services/OCRService.swift:321-360 | A range is found exactly when the leftmost AM/PM match converts to two times of day; both instants lie on today, at the converted hours and minutes |
| OCRService.ClockRange | WorkScheduleApp/Services/OCRService.swift:371-387 | Two clock readings give a range exactly when both are times of day, placed on the formatter's day |
| OCRService.DetectTimeRange24H | WorkScheduleApp/Services/OCRService.swift:362-409 | Without a tolerant or a strict match there is no range, and any range found lies within the formatter's day |
| OCRService.DetectTimeRange24HChoice | WorkScheduleApp/Services/OCRService.swift:362-409 | The tolerant match decides when its readings, absent minutes as "00", are a time of day; otherwise the strict match decides when its readings are; otherwise there is no range |
| OCRService.DetectSegment | WorkScheduleApp/Services/OCRService.swift:262-279 | A known label wins. Otherwise a text of more than three characters without "AM", "PM" or ":" gives its letter-trimmed text, which starts and ends with a letter; the result is never empty |
| OCRService.DetectLocation | WorkScheduleApp/Services/OCRService.swift:308-319 | The line itself exactly when its lower-case form contains one of the seven keywords, and nothing otherwise |
| OCRService.Flush | WorkScheduleApp/Services/OCRService.swift:130-141 | One shift per pending range, in recorded order, on the given date at the given place, with that range's segment and times |
| OCRService.StepIsApply | WorkScheduleApp/Services/OCRService.swift:121-202 | Running every detector first and then deciding gives the parser's step |
| OCRService.RunExtends | WorkScheduleApp/Services/OCRService.swift:121-202 | The state after one more line is the step of that line from the state before it |
| OCRService.AppendFlushed | WorkScheduleApp/Services/OCRService.swift:133-139 | The loop appends exactly the flushed shifts to the list |
| OCRService.ParseLine | WorkScheduleApp/Services/OCRService.swift:122-201 | One pass of the loop body moves the parser's variables exactly as one step of the specification |
| OCRService.ParseLines | WorkScheduleApp/Services/OCRService.swift:121-202 | After the loop, the variables are the specification's state after all lines |
| OCRService.ParseScheduleText | WorkScheduleApp/Services/OCRService.swift:103-219 | The result is the specification's shifts: the lines run through the state machine, then the end-of-input flush |
| ParserProperties.HeaderLine | WorkScheduleApp/Services/OCRService.swift:127-146 | On a header, pending ranges are emitted in order with the previous main date and the current place and then cleared, but only when a main date exists; the header date becomes the main and current date; nothing else changes |
| ParserProperties.SectionMarkerLine | WorkScheduleApp/Services/OCRService.swift:148-158 | A non-header line containing "SEGMENT" in upper case turns the segments section on and changes nothing else; one containing "EMPLACEMENT" and not "SEGMENT" turns it off |
| ParserProperties.LocationLine | WorkScheduleApp/Services/OCRService.swift:160-164 | A line with a location keyword becomes the current place verbatim and changes nothing else |
| ParserProperties.DirectRangeLine | WorkScheduleApp/Services/OCRService.swift:190-201 | Outside the segments section a range adds a shift only when a date has been seen, with the current place and segment; AM/PM takes precedence over 24-hour; only the shift list can change |
| ParserProperties.SegmentSectionLine | WorkScheduleApp/Services/OCRService.swift:166-188 | In the segments section, a label with an AM/PM range, or an AM/PM range after a label other than "Général", becomes a pending range and the segment resets to "Général"; a label alone becomes current |
| ParserProperties.PendingSurvivesFirstHeader | WorkScheduleApp/Services/OCRService.swift:130 | Ranges recorded before any header survive the first header and are emitted with that header's date |
| ParserProperties.FlushUsesLaterLocation | WorkScheduleApp/Services/OCRService.swift:130-141 | Pending ranges are emitted with the place current at flush time, not the place when they were recorded |
| ParserProperties.RunTracksLastHeader | WorkScheduleApp/Services/OCRService.swift:127-146 | After any lines, the main and current dates are both the date of the last header line |
| ParserProperties.EndOfInput | WorkScheduleApp/Services/OCRService.swift:204-215 | At the end, the remaining pending ranges are emitted with the last header date, if there is one, and otherwise dropped |
| ParserProperties.NoShiftsWithoutDate | WorkScheduleApp/Services/OCRService.swift:191-201 | While no date has been seen, no shift is emitted |
| ParserProperties.NoHeaderNoShifts | WorkScheduleApp/Services/OCRService.swift:103-219 | Text without a header line yields no shifts |
| ParserProperties.RunAppends | WorkScheduleApp/Services/OCRService.swift:121-215 | The shifts after a prefix of the lines are a prefix of the shifts after all of them, and of the final result |
| ParserProperties.ShiftCountBound | WorkScheduleApp/Services/OCRService.swift:103-219 | At most one shift per line of the text |
| ParserProperties.FlushedFromPending | WorkScheduleApp/Services/OCRService.swift:133-139 | A flushed shift carries the flush date and place, and the segment of a pending range |
| ParserProperties.ShiftsComeFromText | WorkScheduleApp/Services/OCRService.swift:103-219 | Each shift's date comes from a header line; its place is the default or the text of a line; its segment is the default or a label read from a line |
| ParserProperties.AmPmRangeSpan | WorkScheduleApp/Services/OCRService.swift:321-360 | An AM/PM range spans the difference of its two converted clock readings, and ends before it starts exactly when the end reading is earlier |
| ParserProperties.Range24Span | WorkScheduleApp/Services/OCRService.swift:362-409 | A 24-hour range spans the difference of the clock readings of the match that decided it |
| ParserProperties.AmPmRangeDetected | WorkScheduleApp/Services/OCRService.swift:321-360 | A line holding only an AM/PM range with hours 1..12 and minutes 0..59 gives the two converted times on today |
| ParserProperties.Range24Detected | WorkScheduleApp/Services/OCRService.swift:362-409 | A line holding only a 24-hour range that is a time of day gives those two times, with absent minutes read as "00", whatever its separators |
| ParserProperties.ParsedShiftsWithinDay | WorkScheduleApp/Services/OCRService.swift:103-219 | Every extracted shift ends less than a day before or after it starts |
| WidgetDataProvider.SegmentsOf | ShifterWidget/WidgetDataProvider.swift:59-62 | The grouping keys: each segment of the shifts exactly once |
| WidgetDataProvider.AbsentSegmentHasNoSeconds | ShifterWidget/WidgetDataProvider.swift:59-62 | A segment no shift has adds up to zero |
| WidgetDataProvider.TotalsSumToTotalDuration | ShifterWidget/WidgetDataProvider.swift:59-64 | The per-segment totals add up to the sum of the shifts' durations: grouping loses no time |
| WidgetDataProvider.EntryAtMostSum | ShifterWidget/WidgetDataProvider.swift:64 | With non-negative totals, each segment's total is at most the sum |
| WidgetDataProvider.Ranking | ShifterWidget/WidgetDataProvider.swift:87 | The totals are reordered, nothing lost or added, into descending order by seconds |
| WidgetDataProvider.RankingEntries | ShifterWidget/WidgetDataProvider.swift:59-87 | One entry per segment, each with that segment's true total |
| WidgetDataProvider.RankingDistinct | ShifterWidget/WidgetDataProvider.swift:59-87 | No segment is ranked twice |
| WidgetDataProvider.RankingCovers | ShifterWidget/WidgetDataProvider.swift:59-87 | Every segment of the shifts is ranked with its total |
| WidgetDataProvider.TopSegments | ShifterWidget/WidgetDataProvider.swift:87 | The first min(3, segment count) entries: true totals, distinct segments, descending |
| WidgetDataProvider.LeftOutIsNotMore | ShifterWidget/WidgetDataProvider.swift:87 | A segment left out means three were kept, and it has no more seconds than the third |
| WidgetDataProvider.PreviousQuarterAsWritten | ShifterWidget/WidgetDataProvider.swift:70-79 | As written: from Q3 or Q4 the three preceding months; from Q1 the months a year before those; from Q2 the months nine months later |
| WidgetDataProvider.PreviousQuarter | ShifterWidget/WidgetDataProvider.swift:70-79 | The quarter whose months come right before the current quarter's |
| WidgetDataProvider.PreviousQuarterIsPrecedingMonths | ShifterWidget/WidgetDataProvider.swift:70-84 | A date is counted as previous exactly when its month is one of the three before the current quarter |
| WidgetDataProvider.PreviousQuarterAsWrittenExample | ShifterWidget/WidgetDataProvider.swift:70-84 | On 2025-11-15 the code as written takes August 2024, not August 2025, as the previous quarter |
| WidgetDataProvider.PreviousQuarterAsWrittenLaterExample | ShifterWidget/WidgetDataProvider.swift:70-84 | On 2025-02-15 the code as written takes November 2025, a later month, not November 2024, as the previous quarter |
| WidgetDataProvider.QuarterBoundsAsWritten | ShifterWidget/WidgetDataProvider.swift:142-155 | As written: the start is the quarter's first month of year − 1, and the end is the month after the quarter in the year itself |
| WidgetDataProvider.QuarterBounds | ShifterWidget/WidgetDataProvider.swift:142-155 | Real first-of-month dates, with exactly three months from the start of the quarter to the end bound |
| WidgetDataProvider.QuarterContainsDay | ShifterWidget/WidgetDataProvider.swift:142-163 | The date lies within its quarter's bounds, and the quarter lasts 90 to 92 days |
| WidgetDataProvider.QuarterLength | ShifterWidget/WidgetDataProvider.swift:162-163 | Any three months starting in January, April, July or October last 90 to 92 days |
| WidgetDataProvider.AsWrittenBoundsOrdered | ShifterWidget/WidgetDataProvider.swift:142-160 | The bounds as written always have the start before the end, so the guard never fires |
| WidgetDataProvider.QuarterProgressAsWrittenFullInQ1 | ShifterWidget/WidgetDataProvider.swift:142-165 | As written, progress is always 100 from October to December |
| WidgetDataProvider.QuarterProgressAsWrittenExample | ShifterWidget/WidgetDataProvider.swift:142-165 | On 15 November the code gives 100, and the corrected bounds give 45/92 of the quarter |
| WidgetDataProvider.Clamp | ShifterWidget/WidgetDataProvider.swift:165 | The result is in [0, 100]; values inside are kept, and values outside go to the nearer end |
| WidgetDataProvider.ElapsedDays | ShifterWidget/WidgetDataProvider.swift:162-163 | Whole days from the start to today; before the start, a partial day counts toward zero |
| WidgetDataProvider.Progress | ShifterWidget/WidgetDataProvider.swift:165 | Elapsed over total, in percent, kept within [0, 100]: under 100 before the end, 100 from the end on |
| WidgetDataProvider.QuarterProgressAsWritten | ShifterWidget/WidgetDataProvider.swift:142-165 | The bounds as written are ordered; within them the progress is the elapsed share of their length times 100; it lies in [0, 100], is 0 up to their start and 100 from their end on |
| WidgetDataProvider.QuarterProgress | ShifterWidget/WidgetDataProvider.swift:142-165 | With the corrected bounds, the share of the quarter's days elapsed, in [0, 100) |
| WidgetDataProvider.GetQuarterStats | ShifterWidget/WidgetDataProvider.swift:121-175 | Without a store (0, 0, Q1); otherwise the current quarter's total seconds, its number, and exactly the progress from the bounds as written, which lies in [0, 100] and is 100 from October to December |
| WidgetDataProvider.GetQuarterStatsCorrected | ShifterWidget/WidgetDataProvider.swift:121-175 | The same statistics with exactly the progress from the corrected bounds, in [0, 100) |
| WidgetDataProvider.Percentage | ShifterWidget/WidgetDataProvider.swift:90 | 0 when the total is not positive; otherwise the truncated percentage, at most 100 when the part is within the total |
| WidgetDataProvider.ShareAtMostWhole | ShifterWidget/WidgetDataProvider.swift:90 | A truncated share of a part within the whole is at most 100 |
| WidgetDataProvider.Delta | ShifterWidget/WidgetDataProvider.swift:93-106 | "–" exactly when there were no previous hours or the change is under half an hour; otherwise the sign of the change and its truncated hours, then "h" |
| WidgetDataProvider.DeltaAntisymmetric | ShifterWidget/WidgetDataProvider.swift:93-106 | Swapping current and previous (both non-zero) keeps "–", swaps "+" and "-", and keeps the hours |
| WidgetDataProvider.RankedShiftsMembers | ShifterWidget/WidgetDataProvider.swift:54-56 | The shifts ranked are exactly those of the current quarter that are not "Général" |
| WidgetDataProvider.Top3From | ShifterWidget/WidgetDataProvider.swift:59-111 | At most three lines; each has its segment's quarter hours as text, its truncated share of the total, and its change from the given previous shifts |
| WidgetDataProvider.Top3 | ShifterWidget/WidgetDataProvider.swift:59-111 | The same lines with each change taken against the previous quarter as the code selects it |
| WidgetDataProvider.Top3Corrected | ShifterWidget/WidgetDataProvider.swift:59-111 | The same lines with each change taken against the three months before the current quarter |
| WidgetDataProvider.Top3Segments | ShifterWidget/WidgetDataProvider.swift:54-87 | No line is "Général"; every segment appears in a shift of the current quarter; no segment appears twice |
| WidgetDataProvider.Top3Descending | ShifterWidget/WidgetDataProvider.swift:87 | The lines come in descending order of quarter hours |
| WidgetDataProvider.Top3LeftOut | ShifterWidget/WidgetDataProvider.swift:87 | A ranked segment left out means three lines were shown, and it has no more hours than the third |
| WidgetDataProvider.PercentagesAtMost100 | ShifterWidget/WidgetDataProvider.swift:64-90 | With non-negative durations every share is in 0..100 |
| WidgetDataProvider.GetTop3ShiftsWithStats | ShifterWidget/WidgetDataProvider.swift:40-118 | Empty without a store; otherwise `Top3` as written: at most three lines, no "Général", no segment twice |
| WidgetDataProvider.GetTop3ShiftsWithStatsCorrected | ShifterWidget/WidgetDataProvider.swift:40-118 | Empty without a store; otherwise `Top3Corrected`, with the same bounds |
| ScheduleViewModelModel.RecognitionMessageHead | WorkScheduleApp/ViewModels/ScheduleViewModel.swift:212-218 | The three recognition messages start with three different letters, none of them "E", so none begins with "Erreur: " |
| ScheduleViewModelModel.ErrorMessageKind | WorkScheduleApp/ViewModels/ScheduleViewModel.swift:209-225 | A message starts with "Erreur: " exactly when the error is not a recognition error |
| ScheduleViewModelModel.ErrorMessageInjective | WorkScheduleApp/ViewModels/ScheduleViewModel.swift:209-225 | Different errors give different messages |
| ScheduleViewModelModel.Numbered | WorkScheduleApp/ViewModels/ScheduleViewModel.swift:86-97 | One new shift per record, in order, the i-th with identity first + i |
| ScheduleViewModelModel.AppendNumbered | WorkScheduleApp/ViewModels/ScheduleViewModel.swift:86-97 | The loop appends exactly the numbered shifts to the schedule and changes nothing else |
| ScheduleViewModelModel.ParsedIdentities | WorkScheduleApp/ViewModels/ScheduleViewModel.swift:86-97 | Each shift made from a parsed tuple carries that tuple's date, times, place and segment; it is confirmed and has no notes |
| ScheduleViewModelModel.ExportIdentities | WorkScheduleApp/ViewModels/ScheduleViewModel.swift:353-366 | Each shift made from an exported record carries all of the record's fields and is confirmed |
| ScheduleViewModelModel.Without | WorkScheduleApp/ViewModels/ScheduleViewModel.swift:166-194 | Exactly the shifts whose identity is not deleted remain |
| ScheduleViewModelModel.WithoutTwice | WorkScheduleApp/ViewModels/ScheduleViewModel.swift:166-194 | Deleting two sets one after the other is deleting their union |
| ScheduleViewModelModel.WithoutAll | WorkScheduleApp/ViewModels/ScheduleViewModel.swift:179-194 | Deleting every shift's identity leaves nothing |
| ScheduleViewModelModel.DeleteIds | WorkScheduleApp/ViewModels/ScheduleViewModel.swift:166-194 | Every schedule is kept with only its undeleted shifts |
| ScheduleViewModelModel.DeleteIdsTwice | WorkScheduleApp/ViewModels/ScheduleViewModel.swift:166-194 | Two deletions from the list of schedules are one deletion of the union |
| ScheduleViewModelModel.MapShifts | WorkScheduleApp/ViewModels/ScheduleViewModel.swift:148-164 | Only the shifts with the identity are changed; schedules, their other fields and all other shifts stay as they were |
| ScheduleViewModelModel.MapShiftsChangesAtMostOne | WorkScheduleApp/ViewModels/ScheduleViewModel.swift:148-207 | With distinct shift identities, changing the shift with an identity changes at most one shift in all the schedules |
| ScheduleViewModelModel.EditedShift | WorkScheduleApp/ViewModels/ScheduleViewModel.swift:151-156 | An update overwrites exactly date, start, end, place, segment and notes of the shift with the identity; id and confirmation stay; other shifts are untouched |
| ScheduleViewModelModel.EditIdempotent | WorkScheduleApp/ViewModels/ScheduleViewModel.swift:148-164 | Updating twice with the same values is updating once |
| ScheduleViewModelModel.ToggledShift | WorkScheduleApp/ViewModels/ScheduleViewModel.swift:199 | Toggling flips the confirmation of the shift with the identity and nothing else |
| ScheduleViewModelModel.ToggleInvolution | WorkScheduleApp/ViewModels/ScheduleViewModel.swift:196-207 | Toggling twice restores every schedule |
| ScheduleViewModelModel.FindSchedule | WorkScheduleApp/ViewModels/ScheduleViewModel.swift:229-230 | The schedule found has the identity and is in the list; none is found exactly when no schedule has it |
| ScheduleViewModelModel.MergeParsedKeepsAndAppends | WorkScheduleApp/ViewModels/ScheduleViewModel.swift:73-97 | Parsed shifts go, in order, after the first schedule's own shifts, or into a new "Mes horaires" schedule; every other schedule is kept; the count grows by exactly the number parsed |
| ScheduleViewModelModel.MergeKeepsValid | WorkScheduleApp/ViewModels/ScheduleViewModel.swift:73-102 | The merge keeps schedule identities distinct, shift identities pairwise distinct across all schedules and all below the counters, and the selected schedule is the one that received the shifts |
| ScheduleViewModelModel.PrependKeepsValid | WorkScheduleApp/ViewModels/ScheduleViewModel.swift:347-368 | Adding a schedule with fresh identities keeps the identity invariant |
| ScheduleViewModelModel.ImportKeepsValid | WorkScheduleApp/ViewModels/ScheduleViewModel.swift:347-368 | Adding the imported schedule keeps the identity invariant |
| ScheduleViewModelModel.EditKeepsValid | WorkScheduleApp/ViewModels/ScheduleViewModel.swift:148-164 | An update keeps the identity invariant |
| ScheduleViewModelModel.ToggleKeepsValid | WorkScheduleApp/ViewModels/ScheduleViewModel.swift:196-207 | A toggle keeps the identity invariant |
| ScheduleViewModelModel.DeleteIdsKeepsValid | WorkScheduleApp/ViewModels/ScheduleViewModel.swift:166-194 | A deletion keeps the identity invariant |
| ScheduleViewModelModel.DeleteOneCount | WorkScheduleApp/ViewModels/ScheduleViewModel.swift:166-177 | With distinct shift identities, deleting one identity removes exactly one shift when some schedule holds it, and none otherwise |
| ScheduleViewModelModel.ScheduleViewModel.constructor | WorkScheduleApp/ViewModels/ScheduleViewModel.swift:16-21 | No schedules, no selection, not loading, no error, no filter |
| ScheduleViewModelModel.ScheduleViewModel.HandleError | WorkScheduleApp/ViewModels/ScheduleViewModel.swift:209-225 | The error's message is shown and the error flag is set |
| ScheduleViewModelModel.ScheduleViewModel.AddParsedShifts | WorkScheduleApp/ViewModels/ScheduleViewModel.swift:73-102 | The schedules become the merge of the numbered parsed shifts, that schedule is selected, and the invariant holds |
| ScheduleViewModelModel.ScheduleViewModel.ImportScheduleFromImage | WorkScheduleApp/ViewModels/ScheduleViewModel.swift:45-109 | It always ends with loading off. A recognition error shows its fixed message; an error the recognizer throws, an empty parse or a missing context shows "Erreur: " and its description; none of these changes a schedule. Otherwise the error is cleared, the parsed shifts are merged and their schedule is selected |
| ScheduleViewModelModel.ScheduleViewModel.AddImportedSchedule | WorkScheduleApp/ViewModels/ScheduleViewModel.swift:347-368 | A new schedule holding one shift per record, numbered from the counter, is added in front of the others |
| ScheduleViewModelModel.ScheduleViewModel.ImportFromJSON | WorkScheduleApp/ViewModels/ScheduleViewModel.swift:329-377 | Without context nothing changes. Otherwise it ends not loading; a decoding failure shows "Erreur: " and its description and changes no schedule; a decoded file adds a schedule titled "Horaires importés du " plus the date |
| ScheduleViewModelModel.ScheduleViewModel.UpdateShift | WorkScheduleApp/ViewModels/ScheduleViewModel.swift:148-164 | With a context the schedules become the edit of that shift, and without one they are unchanged; at most one shift changes |
| ScheduleViewModelModel.ScheduleViewModel.DeleteShift | WorkScheduleApp/ViewModels/ScheduleViewModel.swift:166-177 | With a context that shift is removed, so the shift count drops by one when it existed; without one nothing changes |
| ScheduleViewModelModel.ScheduleViewModel.DeleteAllShifts | WorkScheduleApp/ViewModels/ScheduleViewModel.swift:179-194 | With a context and a schedule, the first schedule's shifts are all removed and it is left empty; otherwise nothing changes |
| ScheduleViewModelModel.ScheduleViewModel.ToggleShiftConfirmation | WorkScheduleApp/ViewModels/ScheduleViewModel.swift:196-207 | With a context the schedules become the toggle of that shift, and without one they are unchanged; at most one shift changes |
| ScheduleViewModelModel.ScheduleViewModel.FilteredShifts | WorkScheduleApp/ViewModels/ScheduleViewModel.swift:228-235 | Empty without a selected schedule. Without a filter it is the selected schedule's shifts; with one, it is the schedule's shifts filtered by place (kept in their order, see Collections.FilterAppend), exactly the matching ones, each as often as in the schedule |
| WorkScheduleModel.ShiftsAt | WorkScheduleApp/ViewModels/ScheduleViewModel.swift:231-232 | Exactly the shifts at the place, each as often as in the input |
| Collections.FilterAppend | WorkScheduleApp/ViewModels/ScheduleViewModel.swift:231-232 | Filtering a concatenation filters each part in place, so the kept shifts keep their relative order |
| Collections.FilterSingleton | WorkScheduleApp/ViewModels/ScheduleViewModel.swift:231-232 | A single element is kept exactly when it satisfies the test |
| Text.SplitLinesCounts | WorkScheduleApp/Services/OCRService.swift:105 | Splitting at newlines gives one more line than there are newlines, and the lines hold all the other characters |
| Text.SplitLinesRejoin | WorkScheduleApp/Services/OCRService.swift:105 | Rejoining the lines with the text's newline characters, in order, gives back the text |
| Text.TrimNonLetters | WorkScheduleApp/Services/OCRService.swift:272 | The result is a slice of the text: everything before and after it is a non-letter, and it starts and ends with a letter when not empty |
| Text.IntToStringInjective | WorkScheduleApp/Helpers/FiscalCalendarHelper.swift:38 | Different integers have different decimal texts |

## Left out

- `recognizeText` (the Vision text recognition) is not part of this model.
  - `ImportScheduleFromImage` receives its outcome as a `Recognition` value: the parsed tuples, a recognition error, or an error the recognizer throws with its description.
  - The connection to the parser is `OCRService.ParseScheduleText`.
- `detectDate` is never called by the parser and is not modelled.
- ImportScheduleFromImage: the `async` hand-off, the main-actor hops and the image-to-data conversion are not modelled (concurrency and UIKit I/O).
- The persistent store is left out: SwiftData fetch, insert, save and their thrown errors.
  - The store is the `schedules` list itself.
  - `setModelContext`/`fetchSchedules` become the `hasContext` flag.
  - The fetch order, newest `createdAt` first, is kept by putting a new schedule in front.
- `deleteSchedule`, `addManualShift`, `totalHoursForFiltered`, `shiftsGroupedByDate` and the JSON/ZIP export are not modelled: they are outside the modelled core (store and file I/O, `Double` hours).
- Edits, deletes and toggles name a shift by its identity and act on every schedule holding it.
  - The source acts on a shared object reference.
  - The identity invariant makes the two agree.
- `WorkSchedule.totalHours` and `totalHoursFormatted` use `Double` hours and are not modelled.
- Dates and times:
  - A shift's date is a calendar date. The time of day of that `Date` is not modelled.
  - Instants are whole seconds in one fixed time zone, without daylight-saving changes.
  - The first day of a week is an input to `ShiftsForWeek`, not the calendar's locale rule.
- The French `DateFormatter` is a lookup of the weekday and month names it accepts, in lower or upper case.
  - The accepted day is 1 to the length of that month in 2000, since the formatter's default year is 2000.
  - "HH:mm" times are placed on 2000-01-01.
  - AM/PM times are placed on `today`, as `bySettingHour` does.
- The 24-hour patterns spell the en dash as the escape `\u{2013}` (OCRService.swift:27, 32). The model takes the pattern compiler to accept that escape; both patterns are built with `try?`, so if it did not, no 24-hour range would ever be detected.
- WidgetDataProvider.GetQuarterStats: the `?? 90` fallback in the day count and the `date(from:)` failure paths cannot occur on real dates and are not modelled.
- WidgetDataProvider.Top3: segments with equal hours come in last-appearance order (the order in which each segment last occurs among the ranked shifts). The source leaves their order to `Dictionary` iteration, which is unspecified.
- WidgetDataProvider.Delta: the unchanged text is taken to be U+2013 (en dash).
- Hours and percentages are integer seconds and truncated integer percentages, not `Double`.
  - Swift's `Int(_:)` truncation of a `Double` is modelled on the exact ratio.
  - Floating-point rounding is not modelled.
- Text covers these characters only:
  - character classes, case mapping and trimming for ASCII and Latin-1 (and Latin Extended for letters);
  - no Unicode normalisation;
  - `Character` counting taken as code points.
- Logging (`print`, `AppLogger`), the widget's container setup, and all views are not modelled.

## Findings

| source | as written | input that shows it | evidently intended | confidence | as-written member | corrected member |
|---|---|---|---|---|---|---|
| ShifterWidget/WidgetDataProvider.swift:142-155 | The start year is always fiscal year − 1 and the end year always the fiscal year. Q2–Q4 spans start a year early, and in Q1 (October–December) today is after the end | today = 15 November 2025: progress is 100 instead of about 49 | Bounds of the quarter containing today: its first month to three months later | not executed (proved in the model) | WidgetDataProvider.QuarterBoundsAsWritten, WidgetDataProvider.QuarterProgressAsWrittenFullInQ1, WidgetDataProvider.QuarterProgressAsWrittenExample | WidgetDataProvider.QuarterBounds, WidgetDataProvider.QuarterContainsDay, WidgetDataProvider.QuarterProgress, WidgetDataProvider.GetQuarterStatsCorrected |
| ShifterWidget/WidgetDataProvider.swift:70-79 | In Q1 (October–December of Y) the previous quarter is taken as Q4 of Y − 1, which is July–September of Y − 1. In Q2 (January–March of Y) it is taken as Q1 of Y, which is October–December of Y, a later quarter | today = 15 November 2025, shift on 15 August 2025: not counted as previous, while a shift on 15 August 2024 is. Today = 15 February 2025: a shift on 15 November 2025 counts as previous, one on 15 November 2024 does not | The three months right before the current quarter: July–September of Y in Q1, October–December of Y − 1 in Q2 | not executed (proved in the model) | WidgetDataProvider.PreviousQuarterAsWritten, WidgetDataProvider.PreviousQuarterAsWrittenExample, WidgetDataProvider.PreviousQuarterAsWrittenLaterExample | WidgetDataProvider.PreviousQuarter, WidgetDataProvider.PreviousQuarterIsPrecedingMonths, WidgetDataProvider.Top3Corrected, WidgetDataProvider.GetTop3ShiftsWithStatsCorrected |
