/**
 * A set of work hours: a titled, timestamped collection of shifts with the
 * distinct places worked at, and per-place and per-week views sorted by day.
 */
module WorkScheduleModel {

  import opened Wrappers
  import opened CivilCalendar
  import opened ShiftModel
  import opened Collections

  type ScheduleId = nat

  newtype Byte = b: int | 0 <= b < 256

  datatype WorkSchedule = WorkSchedule(
    id: ScheduleId,
    title: string,
    createdAt: int,                   // seconds
    imageData: Option<seq<Byte>>,
    rawOCRText: Option<string>,
    shifts: seq<Shift>)

  /** `WorkSchedule.init`; identity and creation instant are supplied by the caller. */
  function NewWorkSchedule(id: ScheduleId, title: string, createdAt: int,
                           imageData: Option<seq<Byte>> := None, rawOCRText: Option<string> := None): WorkSchedule
  {
    WorkSchedule(id, title, createdAt, imageData, rawOCRText, [])
  }

  /** A new schedule holds no shift. */
  lemma NewScheduleIsEmpty(id: ScheduleId, title: string, createdAt: int)
    ensures var w := NewWorkSchedule(id, title, createdAt);
      w.shifts == [] && w.title == title && w.imageData == None && w.rawOCRText == None
  {
  }

  /** Sort key of a shift: its day. */
  function DateKey(s: Shift): int {
    DayNumber(s.date)
  }

  function ShiftLocations(shifts: seq<Shift>): (r: seq<string>)
    ensures |r| == |shifts| && forall i :: 0 <= i < |r| ==> r[i] == shifts[i].location
  {
    seq(|shifts|, i requires 0 <= i < |shifts| => shifts[i].location)
  }

  /** `locations`: every place some shift is at, each once, in ascending order. */
  function Locations(w: WorkSchedule): (r: seq<string>)
    ensures StrictlySorted(r)
    ensures forall i, j :: 0 <= i < j < |r| ==> r[i] != r[j]
    ensures forall l :: l in r <==> exists s :: s in w.shifts && s.location == l
  {
    var all := ShiftLocations(w.shifts);
    var r := SortedDistinct(all);
    assert forall i, j :: 0 <= i < j < |r| ==> r[i] != r[j] by {
      forall i, j | 0 <= i < j < |r| ensures r[i] != r[j] { StrictlySortedDistinct(r, i, j); }
    }
    assert forall l :: l in all <==> exists s :: s in w.shifts && s.location == l by {
      forall l ensures l in all <==> exists s :: s in w.shifts && s.location == l {
        if l in all {
          var i :| 0 <= i < |all| && all[i] == l;
          assert w.shifts[i] in w.shifts;
        }
        if s :| s in w.shifts && s.location == l {
          var i :| 0 <= i < |w.shifts| && w.shifts[i] == s;
          assert all[i] == l;
        }
      }
    }
    r
  }

  predicate AtLocation(s: Shift, location: string) {
    s.location == location
  }

  /** The shifts at `location`, kept in their order. */
  function ShiftsAt(shifts: seq<Shift>, location: string): (r: seq<Shift>)
    ensures forall s :: multiset(r)[s] == if s.location == location then multiset(shifts)[s] else 0
  {
    Filter(shifts, s => AtLocation(s, location))
  }

  /** `shiftsForLocation`: exactly the shifts at `location`, by ascending day. */
  function ShiftsForLocation(w: WorkSchedule, location: string): (r: seq<Shift>)
    ensures SortedBy(r, DateKey)
    ensures multiset(r) == multiset(Filter(w.shifts, s => AtLocation(s, location)))
    ensures forall s :: s in r <==> s in w.shifts && s.location == location
  {
    var matching := Filter(w.shifts, s => AtLocation(s, location));
    FilterMembers(w.shifts, s => AtLocation(s, location));
    var r := SortBy(matching, DateKey);
    assert forall s :: s in r <==> s in multiset(matching);
    r
  }

  /** Membership in the seven days from `weekStart`. */
  predicate InWeek(s: Shift, weekStart: CalDate) {
    DayNumber(weekStart) <= DayNumber(s.date) < DayNumber(weekStart) + 7
  }

  /** `shiftsForWeek(startingFrom:)`, given the first day of the week (the
      calendar's week computation is an input): exactly the shifts on one of
      the seven days from `weekStart`, by ascending day. */
  function ShiftsForWeek(w: WorkSchedule, weekStart: CalDate): (r: seq<Shift>)
    ensures SortedBy(r, DateKey)
    ensures multiset(r) == multiset(Filter(w.shifts, s => InWeek(s, weekStart)))
    ensures forall s :: s in r <==> s in w.shifts && InWeek(s, weekStart)
  {
    var matching := Filter(w.shifts, s => InWeek(s, weekStart));
    FilterMembers(w.shifts, s => InWeek(s, weekStart));
    var r := SortBy(matching, DateKey);
    assert forall s :: s in r <==> s in multiset(matching);
    r
  }
}
