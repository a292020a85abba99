/**
 * One work shift: its day, start and end instants, place, category ("segment"),
 * notes and confirmation flag, with its duration and the "8h30" rendering.
 */
module ShiftModel {

  import opened CivilCalendar
  import opened Text
  import opened SwiftArith

  /** Identity of a shift (the `UUID` the initializer draws). */
  type ShiftId = nat

  /** The category a shift gets when none is given. */
  const DefaultSegment: string := "Général"

  datatype Shift = Shift(
    id: ShiftId,
    date: CalDate,
    startTime: int,   // seconds
    endTime: int,     // seconds
    location: string,
    segment: string,
    notes: string,
    isConfirmed: bool)

  /** `Shift.init`; the identity is supplied by the caller. */
  function NewShift(id: ShiftId, date: CalDate, startTime: int, endTime: int, location: string,
                    segment: string := DefaultSegment, notes: string := "", isConfirmed: bool := true): Shift
  {
    Shift(id, date, startTime, endTime, location, segment, notes, isConfirmed)
  }

  /** Without explicit values, a new shift is "Général", has no notes and is confirmed. */
  lemma NewShiftDefaults(id: ShiftId, date: CalDate, startTime: int, endTime: int, location: string)
    ensures var s := NewShift(id, date, startTime, endTime, location);
      s.segment == "Général" && s.notes == "" && s.isConfirmed
      && s.id == id && s.date == date && s.startTime == startTime && s.endTime == endTime
      && s.location == location
  {
  }

  /** `duration`: seconds from the start to the end instant (negative when the
      end lies before the start; no roll-over to the next day). */
  function Duration(s: Shift): int {
    s.endTime - s.startTime
  }

  /** Whole hours of a duration, as `Int(duration) / 3600`. */
  function WholeHours(seconds: int): int {
    TruncDiv(seconds, 3600)
  }

  /** Remaining whole minutes, as `Int(duration) % 3600 / 60`. */
  function RemainingMinutes(seconds: int): (m: int)
    ensures -60 < m < 60
    ensures seconds >= 0 ==> 0 <= m
  {
    TruncDiv(TruncRem(seconds, 3600), 60)
  }

  /** For a non-negative duration, hours and minutes give the duration to the minute. */
  lemma HoursMinutesReconstruct(seconds: int)
    requires seconds >= 0
    ensures var h, m := WholeHours(seconds), RemainingMinutes(seconds);
      0 <= m <= 59 && 0 <= seconds - (3600 * h + 60 * m) < 60
  {
  }

  /** "<hours>h", followed by the minutes on two digits when there are
      minutes: the rendering of `durationFormatted` and of the widget's hours. */
  function HoursText(seconds: int): (r: string)
    ensures var h, m := WholeHours(seconds), RemainingMinutes(seconds);
      && |r| == |IntToString(h)| + (if m > 0 then 3 else 1)
      && r[..|IntToString(h)| + 1] == IntToString(h) + "h"
      && (m > 0 ==> IsDigit(r[|r| - 2]) && IsDigit(r[|r| - 1])
                    && 10 * DigitValue(r[|r| - 2]) + DigitValue(r[|r| - 1]) == m)
  {
    var h, m := WholeHours(seconds), RemainingMinutes(seconds);
    IntToString(h) + "h" + (if m > 0 then Pad2(m) else "")
  }

  /** Whole minutes of a non-negative duration, from its hours and minutes. */
  lemma TotalMinutes(seconds: int)
    requires seconds >= 0
    ensures seconds / 60 == 60 * WholeHours(seconds) + RemainingMinutes(seconds)
  {
    HoursMinutesReconstruct(seconds);
  }

  /** For non-negative durations the rendering is unambiguous: equal texts
      mean equal durations to the minute. */
  lemma {:induction false} HoursTextDeterminesMinutes(a: int, b: int)
    requires a >= 0 && b >= 0
    requires HoursText(a) == HoursText(b)
    ensures a / 60 == b / 60
  {
    var ha, ma := WholeHours(a), RemainingMinutes(a);
    var hb, mb := WholeHours(b), RemainingMinutes(b);
    TotalMinutes(a);
    TotalMinutes(b);
    var r := HoursText(a);
    var sa, sb := IntToString(ha), IntToString(hb);
    assert sa == NatToString(ha) && sb == NatToString(hb);
    if ma > 0 && mb > 0 {
      assert |sa| == |sb|;
      assert r[..|sa| + 1] == sa + "h" && r[..|sb| + 1] == sb + "h";
      assert sa == (sa + "h")[..|sa|];
      assert sb == (sb + "h")[..|sb|];
      NatToStringInjective(ha, hb);
    } else if ma == 0 && mb == 0 {
      assert sa == (sa + "h")[..|sa|];
      assert sb == (sb + "h")[..|sb|];
      NatToStringInjective(ha, hb);
    } else {
      // One text ends in two digits, the other in its "h".
      assert false;
    }
  }

  /** `durationFormatted`: the shift's duration as "<hours>h[<mm>]". */
  function DurationFormatted(s: Shift): string {
    HoursText(Duration(s))
  }

  /** Two shifts of non-negative duration with the same rendering last the
      same number of whole minutes. */
  lemma DurationFormattedDeterminesMinutes(a: Shift, b: Shift)
    requires Duration(a) >= 0 && Duration(b) >= 0
    requires DurationFormatted(a) == DurationFormatted(b)
    ensures Duration(a) / 60 == Duration(b) / 60
  {
    HoursTextDeterminesMinutes(Duration(a), Duration(b));
  }

  /** Sum of the durations of `shifts`, in seconds. */
  function TotalDuration(shifts: seq<Shift>): int {
    if shifts == [] then 0 else TotalDuration(shifts[..|shifts| - 1]) + Duration(shifts[|shifts| - 1])
  }
}
