/**
 * The home-screen widget's figures for the current fiscal quarter: the three
 * segments with the most hours, each with its share of the quarter's segment
 * hours and its change against the previous quarter, and the quarter's total
 * hours with the share of the quarter already elapsed.
 *
 * Hours are kept as integer seconds. "Now" is the day `today` and the second
 * `secondOfDay` within it. The shift store is `Option<seq<Shift>>`: `None`
 * stands for a missing container and for a failed fetch, which the widget
 * treats alike.
 */
module WidgetDataProvider {

  import opened Wrappers
  import opened CivilCalendar
  import opened SwiftArith
  import opened Text
  import opened Collections
  import opened ShiftModel
  import opened FiscalCalendarHelper

  function Min(a: int, b: int): int {
    if a <= b then a else b
  }

  // ---------------------------------------------------------------------------
  // Grouping by segment.

  /** The keys of `Dictionary(grouping:by: segment)`: each segment of `shifts` once. */
  function SegmentsOf(shifts: seq<Shift>): (r: seq<string>)
    ensures NoDuplicates(r)
    ensures forall x :: x in r <==> exists s :: s in shifts && s.segment == x
  {
    if shifts == [] then []
    else
      var rest := SegmentsOf(shifts[1..]);
      assert forall s :: s in shifts <==> s == shifts[0] || s in shifts[1..] by {
        assert shifts == [shifts[0]] + shifts[1..];
      }
      if shifts[0].segment in rest then rest else [shifts[0].segment] + rest
  }

  /** Seconds worked in `segment`: the sum over its group. */
  function SegmentSeconds(shifts: seq<Shift>, segment: string): int {
    if shifts == [] then 0
    else (if shifts[0].segment == segment then Duration(shifts[0]) else 0)
         + SegmentSeconds(shifts[1..], segment)
  }

  /** A segment without shifts has no seconds: the `?? 0` of a missing key. */
  lemma {:induction false} AbsentSegmentHasNoSeconds(shifts: seq<Shift>, segment: string)
    requires forall s :: s in shifts ==> s.segment != segment
    ensures SegmentSeconds(shifts, segment) == 0
  {
    if shifts != [] {
      assert shifts[0] in shifts;
      AbsentSegmentHasNoSeconds(shifts[1..], segment);
    }
  }

  lemma {:induction false} SegmentSecondsNonNegative(shifts: seq<Shift>, segment: string)
    requires forall s :: s in shifts ==> Duration(s) >= 0
    ensures SegmentSeconds(shifts, segment) >= 0
  {
    if shifts != [] {
      assert shifts[0] in shifts;
      SegmentSecondsNonNegative(shifts[1..], segment);
    }
  }

  /** A segment with its seconds: one entry of `segmentHours`. */
  datatype SegmentTotal = SegmentTotal(segment: string, seconds: int)

  /** `segmentHours`: every segment of `shifts` with its seconds. */
  function Totals(shifts: seq<Shift>): seq<SegmentTotal> {
    var segs := SegmentsOf(shifts);
    seq(|segs|, i requires 0 <= i < |segs| => SegmentTotal(segs[i], SegmentSeconds(shifts, segs[i])))
  }

  /** `segmentHours.values.reduce(0, +)`. */
  function SumSeconds(ts: seq<SegmentTotal>): int {
    if ts == [] then 0 else ts[0].seconds + SumSeconds(ts[1..])
  }

  /** The seconds of the segments `segs`, one after the other. */
  function SegmentSum(shifts: seq<Shift>, segs: seq<string>): int {
    if segs == [] then 0 else SegmentSeconds(shifts, segs[0]) + SegmentSum(shifts, segs[1..])
  }

  lemma {:induction false} SumSecondsOfEntries(shifts: seq<Shift>, segs: seq<string>)
    ensures SumSeconds(seq(|segs|, i requires 0 <= i < |segs| => SegmentTotal(segs[i], SegmentSeconds(shifts, segs[i]))))
         == SegmentSum(shifts, segs)
  {
    if segs != [] {
      var ts := seq(|segs|, i requires 0 <= i < |segs| => SegmentTotal(segs[i], SegmentSeconds(shifts, segs[i])));
      var rest := segs[1..];
      assert ts[1..] == seq(|rest|, i requires 0 <= i < |rest| => SegmentTotal(rest[i], SegmentSeconds(shifts, rest[i])));
      SumSecondsOfEntries(shifts, rest);
    }
  }

  lemma {:induction false} SegmentSumOfNone(segs: seq<string>)
    ensures SegmentSum([], segs) == 0
  {
    if segs != [] {
      SegmentSumOfNone(segs[1..]);
    }
  }

  /** Over segments listed once each, one more shift adds its duration once
      when its segment is listed, and nothing otherwise. */
  lemma {:induction false} SegmentSumCons(x: Shift, rest: seq<Shift>, segs: seq<string>)
    requires NoDuplicates(segs)
    ensures SegmentSum([x] + rest, segs) == (if x.segment in segs then Duration(x) else 0) + SegmentSum(rest, segs)
  {
    if segs != [] {
      assert ([x] + rest)[1..] == rest;
      assert NoDuplicates(segs[1..]) by {
        forall i, j | 0 <= i < j < |segs[1..]|
          ensures segs[1..][i] != segs[1..][j]
        {
          assert segs[1..][i] == segs[i + 1] && segs[1..][j] == segs[j + 1];
        }
      }
      SegmentSumCons(x, rest, segs[1..]);
      if x.segment == segs[0] {
        assert x.segment !in segs[1..] by {
          forall k | 0 <= k < |segs[1..]|
            ensures segs[1..][k] != segs[0]
          {
            assert segs[1..][k] == segs[k + 1];
          }
        }
      }
      assert x.segment in segs <==> x.segment == segs[0] || x.segment in segs[1..] by {
        assert segs == [segs[0]] + segs[1..];
      }
    }
  }

  lemma {:induction false} TotalDurationCons(x: Shift, rest: seq<Shift>)
    ensures TotalDuration([x] + rest) == Duration(x) + TotalDuration(rest)
    decreases |rest|
  {
    if rest != [] {
      var init := rest[..|rest| - 1];
      assert ([x] + rest)[..|rest|] == [x] + init;
      TotalDurationCons(x, init);
    }
  }

  lemma {:induction false} SegmentSumIsTotal(shifts: seq<Shift>, segs: seq<string>)
    requires NoDuplicates(segs)
    requires forall k :: 0 <= k < |shifts| ==> shifts[k].segment in segs
    ensures SegmentSum(shifts, segs) == TotalDuration(shifts)
  {
    if shifts == [] {
      SegmentSumOfNone(segs);
    } else {
      var rest := shifts[1..];
      assert shifts == [shifts[0]] + rest;
      assert forall k :: 0 <= k < |rest| ==> rest[k].segment in segs by {
        forall k | 0 <= k < |rest|
          ensures rest[k].segment in segs
        {
          assert rest[k] == shifts[k + 1];
        }
      }
      SegmentSumIsTotal(rest, segs);
      SegmentSumCons(shifts[0], rest, segs);
      TotalDurationCons(shifts[0], rest);
    }
  }

  /** Grouping by segment loses no time: the per-segment seconds add up to the
      sum of the durations. */
  lemma TotalsSumToTotalDuration(shifts: seq<Shift>)
    ensures SumSeconds(Totals(shifts)) == TotalDuration(shifts)
  {
    var segs := SegmentsOf(shifts);
    SumSecondsOfEntries(shifts, segs);
    assert forall k :: 0 <= k < |shifts| ==> shifts[k].segment in segs by {
      forall k | 0 <= k < |shifts|
        ensures shifts[k].segment in segs
      {
        assert shifts[k] in shifts;
      }
    }
    SegmentSumIsTotal(shifts, segs);
  }

  /** With no negative entry, every entry is at most the sum. */
  lemma {:induction false} EntryAtMostSum(ts: seq<SegmentTotal>, i: int)
    requires forall k :: 0 <= k < |ts| ==> ts[k].seconds >= 0
    requires 0 <= i < |ts|
    ensures 0 <= ts[i].seconds <= SumSeconds(ts)
  {
    if i > 0 {
      EntryAtMostSum(ts[1..], i - 1);
    } else if |ts| > 1 {
      assert ts[1..][0] == ts[1];
      EntryAtMostSum(ts[1..], 0);
    }
  }

  // ---------------------------------------------------------------------------
  // Ranking.

  /** Sort key for `sorted { $0.value > $1.value }`: descending seconds. */
  function ByMostSeconds(t: SegmentTotal): int {
    -t.seconds
  }

  /** Entries of `Totals` are fixed by their segment. */
  predicate IsTotalOf(shifts: seq<Shift>, t: SegmentTotal) {
    t.segment in SegmentsOf(shifts) && t.seconds == SegmentSeconds(shifts, t.segment)
  }

  /** `segmentHours.sorted { $0.value > $1.value }`: all entries, most seconds first. */
  function Ranking(shifts: seq<Shift>): (r: seq<SegmentTotal>)
    ensures SortedBy(r, ByMostSeconds)
    ensures multiset(r) == multiset(Totals(shifts))
  {
    SortBy(Totals(shifts), ByMostSeconds)
  }

  lemma RankingEntries(shifts: seq<Shift>)
    ensures |Ranking(shifts)| == |SegmentsOf(shifts)|
    ensures forall i :: 0 <= i < |Ranking(shifts)| ==> IsTotalOf(shifts, Ranking(shifts)[i])
  {
    var totals, ranked := Totals(shifts), Ranking(shifts);
    SortByLength(totals, ByMostSeconds);
    forall i | 0 <= i < |ranked| ensures IsTotalOf(shifts, ranked[i]) {
      assert ranked[i] in multiset(totals);
      var k :| 0 <= k < |totals| && totals[k] == ranked[i];
    }
  }

  lemma RankingDistinct(shifts: seq<Shift>)
    ensures forall i, j :: 0 <= i < j < |Ranking(shifts)| ==> Ranking(shifts)[i].segment != Ranking(shifts)[j].segment
  {
    var totals, ranked := Totals(shifts), Ranking(shifts);
    assert NoDuplicates(totals);
    PermutationKeepsNoDuplicates(totals, ranked);
    RankingEntries(shifts);
    forall i, j | 0 <= i < j < |ranked| ensures ranked[i].segment != ranked[j].segment {
      assert IsTotalOf(shifts, ranked[i]) && IsTotalOf(shifts, ranked[j]);
    }
  }

  /** Every segment has its entry in the ranking. */
  lemma RankingCovers(shifts: seq<Shift>, x: string)
    requires x in SegmentsOf(shifts)
    ensures exists p :: 0 <= p < |Ranking(shifts)| && Ranking(shifts)[p] == SegmentTotal(x, SegmentSeconds(shifts, x))
  {
    var totals, ranked := Totals(shifts), Ranking(shifts);
    var k :| 0 <= k < |SegmentsOf(shifts)| && SegmentsOf(shifts)[k] == x;
    assert totals[k] in multiset(ranked);
  }

  /** `.prefix(3)` of the ranking: the three segments with the most seconds.
      Dictionary order is unspecified in Swift; here segments of equal hours
      keep the order of `SegmentsOf`. */
  function TopSegments(shifts: seq<Shift>): (r: seq<SegmentTotal>)
    ensures |r| == Min(3, |SegmentsOf(shifts)|)
    ensures forall i :: 0 <= i < |r| ==> IsTotalOf(shifts, r[i])
    ensures forall i, j :: 0 <= i < j < |r| ==> r[i].segment != r[j].segment
    ensures forall i, j :: 0 <= i < j < |r| ==> r[i].seconds >= r[j].seconds
  {
    var ranked := Ranking(shifts);
    RankingEntries(shifts);
    RankingDistinct(shifts);
    ranked[..Min(3, |ranked|)]
  }

  /** A segment left out of the top three has at most the hours of the third. */
  lemma LeftOutIsNotMore(shifts: seq<Shift>, x: string)
    requires x in SegmentsOf(shifts)
    requires forall i :: 0 <= i < |TopSegments(shifts)| ==> TopSegments(shifts)[i].segment != x
    ensures |TopSegments(shifts)| == 3 && SegmentSeconds(shifts, x) <= TopSegments(shifts)[2].seconds
  {
    var ranked, r := Ranking(shifts), TopSegments(shifts);
    RankingCovers(shifts, x);
    var p :| 0 <= p < |ranked| && ranked[p] == SegmentTotal(x, SegmentSeconds(shifts, x));
    assert forall i :: 0 <= i < |r| ==> r[i] == ranked[i];
    assert p >= |r|;
    assert ByMostSeconds(ranked[2]) <= ByMostSeconds(ranked[p]);
  }

  // ---------------------------------------------------------------------------
  // Quarters.

  /** The first month of fiscal quarter `q` of fiscal year `y`, as 12 * year + month. */
  function QuarterStartIndex(q: int, y: int): int
    requires 1 <= q <= 4
  {
    12 * y + QuarterFirstMonth(q)
  }

  /** The previous-quarter rule as written: Q4 of the year before when the
      current quarter is Q1, otherwise the quarter before in the same year. */
  function PreviousQuarterAsWritten(q: int, y: int): (r: (int, int))
    requires 1 <= q <= 4
    ensures 1 <= r.0 <= 4
    ensures q == 1 ==> QuarterStartIndex(r.0, r.1) + 3 == QuarterStartIndex(q, y) - 12
    ensures q == 2 ==> QuarterStartIndex(r.0, r.1) == QuarterStartIndex(q, y) + 9
    ensures 3 <= q ==> QuarterStartIndex(r.0, r.1) + 3 == QuarterStartIndex(q, y)
  {
    if q == 1 then (4, y - 1) else (q - 1, y)
  }

  /** The quarter that ends when quarter `q` of year `y` begins. */
  function PreviousQuarter(q: int, y: int): (r: (int, int))
    requires 1 <= q <= 4
    ensures 1 <= r.0 <= 4
    ensures QuarterStartIndex(r.0, r.1) + 3 == QuarterStartIndex(q, y)
  {
    if q == 1 then (4, y) else if q == 2 then (1, y - 1) else (q - 1, y)
  }

  predicate InPreviousQuarterAsWritten(d: CalDate, today: CalDate) {
    var p := PreviousQuarterAsWritten(FiscalQuarter(today), FiscalYear(today));
    FiscalQuarter(d) == p.0 && FiscalYear(d) == p.1
  }

  predicate InPreviousQuarter(d: CalDate, today: CalDate) {
    var p := PreviousQuarter(FiscalQuarter(today), FiscalYear(today));
    FiscalQuarter(d) == p.0 && FiscalYear(d) == p.1
  }

  /** The corrected rule selects exactly the three months before the current quarter. */
  lemma PreviousQuarterIsPrecedingMonths(d: CalDate, today: CalDate)
    requires 1 <= d.month <= 12
    ensures var start := QuarterStartIndex(FiscalQuarter(today), FiscalYear(today));
      InPreviousQuarter(d, today) <==> start - 3 <= 12 * d.year + d.month < start
  {
  }

  /** In November 2025 (Q1 2025), the rule as written skips August 2025, the
      month just before the quarter, and counts August 2024 instead. */
  lemma PreviousQuarterAsWrittenExample()
    ensures !InPreviousQuarterAsWritten(CalDate(2025, 8, 15), CalDate(2025, 11, 15))
    ensures InPreviousQuarterAsWritten(CalDate(2024, 8, 15), CalDate(2025, 11, 15))
    ensures InPreviousQuarter(CalDate(2025, 8, 15), CalDate(2025, 11, 15))
    ensures !InPreviousQuarter(CalDate(2024, 8, 15), CalDate(2025, 11, 15))
  {
  }

  /** In February 2025 (Q2 2025), the rule as written counts November 2025,
      a later month, and skips November 2024, the month just before the quarter. */
  lemma PreviousQuarterAsWrittenLaterExample()
    ensures InPreviousQuarterAsWritten(CalDate(2025, 11, 15), CalDate(2025, 2, 15))
    ensures !InPreviousQuarterAsWritten(CalDate(2024, 11, 15), CalDate(2025, 2, 15))
    ensures InPreviousQuarter(CalDate(2024, 11, 15), CalDate(2025, 2, 15))
    ensures !InPreviousQuarter(CalDate(2025, 11, 15), CalDate(2025, 2, 15))
  {
  }

  /** The quarter's first day and the first day after it, as `getQuarterStats`
      writes their components. */
  function QuarterBoundsAsWritten(q: int, y: int): (r: (CalDate, CalDate))
    requires 1 <= q <= 4
    ensures r.0 == CalDate(y - 1, QuarterFirstMonth(q), 1)
    ensures r.1 == CalDate(y, if q == 1 then 1 else QuarterFirstMonth(q) + 3, 1)
  {
    var quarterStartMonth := (q - 1) * 3 + 10;
    var startYear := if quarterStartMonth >= 10 then y - 1 else y;
    var startMonth := if quarterStartMonth > 12 then quarterStartMonth - 12 else quarterStartMonth;
    var endMonth := quarterStartMonth + 3;
    var endYear := if endMonth > 12 then y else y - 1;
    var endMonthOfYear := if endMonth > 12 then endMonth - 12 else endMonth;
    (CalDate(startYear, startMonth, 1), CalDate(endYear, endMonthOfYear, 1))
  }

  /** The first day of quarter `q` of year `y` and the first day after it. */
  function QuarterBounds(q: int, y: int): (r: (CalDate, CalDate))
    requires 1 <= q <= 4
    ensures IsValid(r.0) && IsValid(r.1) && r.0.day == 1 && r.1.day == 1
    ensures 12 * r.0.year + r.0.month == QuarterStartIndex(q, y)
    ensures 12 * r.1.year + r.1.month == QuarterStartIndex(q, y) + 3
  {
    var first := QuarterFirstMonth(q);
    (CalDate(y, first, 1), if first == 10 then CalDate(y + 1, 1, 1) else CalDate(y, first + 3, 1))
  }

  /** Day number of the first of the month three months after the first of
      month `m`. */
  lemma ThreeMonths(y: int, m: int)
    requires 1 <= m <= 10
    ensures var n := DayNumber(CalDate(y, m + 3, 1)) - DayNumber(CalDate(y, m, 1));
      n == DaysInMonth(y, m) + DaysInMonth(y, m + 1) + DaysInMonth(y, m + 2)
  {
    MonthStep(y, m);
    MonthStep(y, m + 1);
    MonthStep(y, m + 2);
  }

  /** Every valid day lies in its own quarter's bounds, which span 90 to 92 days. */
  lemma QuarterContainsDay(d: CalDate)
    requires IsValid(d)
    ensures var b := QuarterBounds(FiscalQuarter(d), FiscalYear(d));
      && DayNumber(b.0) <= DayNumber(d) < DayNumber(b.1)
      && 90 <= DayNumber(b.1) - DayNumber(b.0) <= 92
  {
    var y := d.year;
    var first := QuarterFirstMonth(FiscalQuarter(d));
    var b := QuarterBounds(FiscalQuarter(d), y);
    if first == 10 {
      YearEnd(y);
    }
    assert DayNumber(b.1) == FirstOfMonth(y, first + 3);
    MonthsApart(y, first, d.month);
    MonthsApart(y, d.month + 1, first + 3);
    QuarterLength(y, first);
  }

  /** The three months of a quarter add up to 90 to 92 days. */
  lemma QuarterLength(y: int, first: int)
    requires first == 1 || first == 4 || first == 7 || first == 10
    ensures 90 <= FirstOfMonth(y, first + 3) - FirstOfMonth(y, first) <= 92
  {
    var m1, m2 := first + 1, first + 2;
    assert FirstOfMonth(y, m1) == FirstOfMonth(y, first) + DaysInMonth(y, first);
    assert FirstOfMonth(y, m2) == FirstOfMonth(y, m1) + DaysInMonth(y, m1);
  }

  // ---------------------------------------------------------------------------
  // Progress.

  /** `min(100, max(0, x))`. */
  function Clamp(x: real): (r: real)
    ensures 0.0 <= r <= 100.0
    ensures 0.0 <= x <= 100.0 ==> r == x
    ensures x < 0.0 ==> r == 0.0
    ensures x > 100.0 ==> r == 100.0
  {
    if x < 0.0 then 0.0 else if x > 100.0 then 100.0 else x
  }

  /** `dateComponents([.day], from: start, to: now).day`: whole days from the
      midnight starting `start` to second `secondOfDay` of `today`, truncated
      toward zero. */
  function ElapsedDays(start: CalDate, today: CalDate, secondOfDay: int): (r: int)
    requires 0 <= secondOfDay < SecondsPerDay
    ensures DayNumber(start) <= DayNumber(today) ==> r == DayNumber(today) - DayNumber(start)
    ensures DayNumber(today) < DayNumber(start) ==>
      r == DayNumber(today) - DayNumber(start) + (if secondOfDay > 0 then 1 else 0)
  {
    TruncDiv((DayNumber(today) - DayNumber(start)) * SecondsPerDay + secondOfDay, SecondsPerDay)
  }

  /** Facts about `e / t` for a positive `t`. */
  lemma Ratio(e: real, t: real)
    requires t > 0.0
    ensures (e / t) * t == e
    ensures 0.0 <= e ==> 0.0 <= e / t
    ensures e < t ==> e / t < 1.0
    ensures e >= t ==> e / t >= 1.0
  {
    var q := e / t;
    assert q * t == e;
  }

  /** The elapsed share of a span, in percent, clamped to 0..100. */
  function Progress(elapsed: int, total: int): (r: real)
    requires total > 0
    ensures 0.0 <= r <= 100.0
    ensures 0 <= elapsed <= total ==> r == elapsed as real / total as real * 100.0
    ensures 0 <= elapsed < total ==> r < 100.0
    ensures elapsed >= total ==> r == 100.0
  {
    Ratio(elapsed as real, total as real);
    Clamp(elapsed as real / total as real * 100.0)
  }

  /** The as-written bounds always end after they start. */
  lemma AsWrittenBoundsOrdered(q: int, y: int)
    requires 1 <= q <= 4
    ensures var b := QuarterBoundsAsWritten(q, y);
      DayNumber(b.0) < DayNumber(b.1)
  {
    var b := QuarterBoundsAsWritten(q, y);
    YearEnd(y - 1);
    MonthsApart(y - 1, b.0.month, 13);
    MonthsApart(y, 1, b.1.month);
  }

  /** The progress `getQuarterStats` reports, from the bounds as written:
      the clamped share of the days from their start to now. */
  function QuarterProgressAsWritten(today: CalDate, secondOfDay: int): (r: real)
    requires 0 <= secondOfDay < SecondsPerDay
    ensures 0.0 <= r <= 100.0
    ensures var b := QuarterBoundsAsWritten(FiscalQuarter(today), FiscalYear(today));
      var elapsed := ElapsedDays(b.0, today, secondOfDay);
      && DayNumber(b.0) < DayNumber(b.1)
      && (0 <= elapsed <= DayNumber(b.1) - DayNumber(b.0) ==>
            r == elapsed as real / (DayNumber(b.1) - DayNumber(b.0)) as real * 100.0)
      && (elapsed <= 0 ==> r == 0.0)
      && (DayNumber(b.1) <= DayNumber(today) ==> r == 100.0)
  {
    var b := QuarterBoundsAsWritten(FiscalQuarter(today), FiscalYear(today));
    AsWrittenBoundsOrdered(FiscalQuarter(today), FiscalYear(today));
    Progress(ElapsedDays(b.0, today, secondOfDay), DayNumber(b.1) - DayNumber(b.0))
  }

  /** The elapsed share of the current quarter: never clamped, and below 100. */
  function QuarterProgress(today: CalDate, secondOfDay: int): (r: real)
    requires IsValid(today) && 0 <= secondOfDay < SecondsPerDay
    ensures var b := QuarterBounds(FiscalQuarter(today), FiscalYear(today));
      && DayNumber(b.0) < DayNumber(b.1)
      && r == (DayNumber(today) - DayNumber(b.0)) as real / (DayNumber(b.1) - DayNumber(b.0)) as real * 100.0
    ensures 0.0 <= r < 100.0
  {
    var b := QuarterBounds(FiscalQuarter(today), FiscalYear(today));
    QuarterContainsDay(today);
    var elapsed := ElapsedDays(b.0, today, secondOfDay);
    assert elapsed == DayNumber(today) - DayNumber(b.0);
    Progress(elapsed, DayNumber(b.1) - DayNumber(b.0))
  }

  /** The first days of two months of one year are at least 28 and at most 31
      days apart per month between them. */
  lemma {:induction false} MonthsApart(y: int, a: int, b: int)
    requires 1 <= a <= b <= 13
    ensures 28 * (b - a) <= FirstOfMonth(y, b) - FirstOfMonth(y, a) <= 31 * (b - a)
    decreases b - a
  {
    if a < b {
      MonthsApart(y, a, b - 1);
    }
  }

  /** In October to December the bounds as written are those of the previous
      year's Q1, so the reported progress is always 100. */
  lemma QuarterProgressAsWrittenFullInQ1(today: CalDate, secondOfDay: int)
    requires IsValid(today) && 10 <= today.month && 0 <= secondOfDay < SecondsPerDay
    ensures QuarterProgressAsWritten(today, secondOfDay) == 100.0
  {
    var y := today.year;
    var b := QuarterBoundsAsWritten(1, y);
    assert b == (CalDate(y - 1, 10, 1), CalDate(y, 1, 1));
    MonthsApart(y, 1, today.month);
    assert DayNumber(b.1) <= DayNumber(today);
    AsWrittenBoundsOrdered(1, y);
    assert ElapsedDays(b.0, today, secondOfDay) >= DayNumber(b.1) - DayNumber(b.0);
  }

  /** On 15 November of any year the widget shows a finished quarter; the
      quarter has in fact run 45 of its 92 days. */
  lemma QuarterProgressAsWrittenExample(y: int)
    ensures QuarterProgressAsWritten(CalDate(y, 11, 15), 0) == 100.0
    ensures QuarterProgress(CalDate(y, 11, 15), 0) == 4500.0 / 92.0
  {
    var today := CalDate(y, 11, 15);
    QuarterProgressAsWrittenFullInQ1(today, 0);
    NovemberFifteenth(y);
  }

  lemma NovemberFifteenth(y: int)
    ensures var b := QuarterBounds(1, y);
      DayNumber(CalDate(y, 11, 15)) - DayNumber(b.0) == 45 && DayNumber(b.1) - DayNumber(b.0) == 92
  {
    ThreeMonths(y, 10);
    assert NormalizeMonth(CalDate(y, 13, 1)) == CalDate(y + 1, 1, 1);
  }

  /** `QuarterStats`: hours in seconds, progress in percent, quarter 1..4. */
  datatype QuarterStats = QuarterStats(totalSeconds: int, progress: real, currentQuarter: int)

  /** The shifts in the quarter of `today`. */
  function CurrentQuarterShifts(shifts: seq<Shift>, today: CalDate): seq<Shift> {
    Filter(shifts, (s: Shift) => IsInSameQuarter(s.date, today))
  }

  /** `getQuarterStats` as written: the quarter's hours and number, with the
      progress from the bounds as written, which is 100 all through Q1. */
  function GetQuarterStats(store: Option<seq<Shift>>, today: CalDate, secondOfDay: int): (r: QuarterStats)
    requires IsValid(today) && 0 <= secondOfDay < SecondsPerDay
    ensures store.None? ==> r == QuarterStats(0, 0.0, 1)
    ensures store.Some? ==> r.totalSeconds == TotalDuration(CurrentQuarterShifts(store.value, today))
    ensures store.Some? ==> r.currentQuarter == FiscalQuarter(today) && 1 <= r.currentQuarter <= 4
    ensures store.Some? ==> r.progress == QuarterProgressAsWritten(today, secondOfDay)
    ensures store.Some? ==> 0.0 <= r.progress <= 100.0
    ensures store.Some? && 10 <= today.month ==> r.progress == 100.0
  {
    match store
    case None => QuarterStats(0, 0.0, 1)
    case Some(shifts) =>
      assert 10 <= today.month ==> QuarterProgressAsWritten(today, secondOfDay) == 100.0 by {
        if 10 <= today.month {
          QuarterProgressAsWrittenFullInQ1(today, secondOfDay);
        }
      }
      QuarterStats(TotalDuration(CurrentQuarterShifts(shifts, today)), QuarterProgressAsWritten(today, secondOfDay),
                   FiscalQuarter(today))
  }

  /** `getQuarterStats` with the corrected bounds: the progress is the
      elapsed share of the quarter containing today, below 100. */
  function GetQuarterStatsCorrected(store: Option<seq<Shift>>, today: CalDate, secondOfDay: int): (r: QuarterStats)
    requires IsValid(today) && 0 <= secondOfDay < SecondsPerDay
    ensures store.None? ==> r == QuarterStats(0, 0.0, 1)
    ensures store.Some? ==> r.totalSeconds == TotalDuration(CurrentQuarterShifts(store.value, today))
    ensures store.Some? ==> r.currentQuarter == FiscalQuarter(today) && 1 <= r.currentQuarter <= 4
    ensures store.Some? ==> r.progress == QuarterProgress(today, secondOfDay)
    ensures store.Some? ==> 0.0 <= r.progress < 100.0
  {
    match store
    case None => QuarterStats(0, 0.0, 1)
    case Some(shifts) =>
      QuarterStats(TotalDuration(CurrentQuarterShifts(shifts, today)), QuarterProgress(today, secondOfDay),
                   FiscalQuarter(today))
  }

  // ---------------------------------------------------------------------------
  // Top three segments.

  /** One line of the widget: segment, hours text, share in percent, change. */
  datatype SegmentStat = SegmentStat(segment: string, totalHours: string, percentage: int, delta: string)

  /** The change shown when there is none worth showing (an en dash). */
  const NoChange: string := "\U{2013}"

  /** `Int(hours / totalHours * 100)`, or 0 when the total is not positive. */
  function Percentage(seconds: int, total: int): (r: int)
    ensures total <= 0 ==> r == 0
    ensures total > 0 && seconds >= 0 ==> 0 <= r && r * total <= 100 * seconds < (r + 1) * total
    ensures total > 0 && 0 <= seconds <= total ==> r <= 100
  {
    if total > 0 then
      var r := TruncDiv(100 * seconds, total);
      if 0 <= seconds <= total then
        ShareAtMostWhole(seconds, total, r);
        r
      else r
    else 0
  }

  /** `r * total <= 100 * seconds` with `seconds <= total` gives `r <= 100`. */
  lemma ShareAtMostWhole(seconds: int, total: int, r: int)
    requires 0 <= seconds <= total && total > 0 && r * total <= 100 * seconds
    ensures r <= 100
  {
    assert r * total <= 100 * total;
  }

  function Abs(x: int): nat {
    if x < 0 then -x else x
  }

  /** The change of a segment's hours against the previous quarter: an en
      dash when the segment had no hours then or moved by less than half an
      hour, otherwise the sign and the whole hours of the change. */
  function Delta(current: int, previous: int): (r: string)
    ensures |r| >= 1
    ensures r == NoChange <==> previous == 0 || Abs(current - previous) < 1800
    ensures r[0] == '+' <==> previous != 0 && current - previous >= 1800
    ensures r[0] == '-' <==> previous != 0 && current - previous <= -1800
    ensures r != NoChange ==> r[1..] == NatToString(Abs(current - previous) / 3600) + "h"
  {
    if previous == 0 then NoChange
    else
      var diff := current - previous;
      if Abs(diff) < 1800 then NoChange
      else if diff > 0 then "+" + IntToString(TruncDiv(diff, 3600)) + "h"
      else "-" + IntToString(TruncDiv(Abs(diff), 3600)) + "h"
  }

  /** Swapping the two quarters swaps the sign and keeps the size. */
  lemma DeltaAntisymmetric(a: int, b: int)
    requires a != 0 && b != 0
    ensures Delta(a, b) == NoChange <==> Delta(b, a) == NoChange
    ensures Delta(a, b)[0] == '+' <==> Delta(b, a)[0] == '-'
    ensures Delta(a, b) != NoChange ==> Delta(a, b)[1..] == Delta(b, a)[1..]
  {
    assert Abs(a - b) == Abs(b - a);
  }

  /** Shifts that count towards the ranking: the current quarter, not "Général". */
  predicate CountsForRanking(s: Shift, today: CalDate) {
    IsInSameQuarter(s.date, today) && s.segment != DefaultSegment
  }

  function RankedShifts(shifts: seq<Shift>, today: CalDate): seq<Shift> {
    Filter(shifts, s => CountsForRanking(s, today))
  }

  /** The shifts of the previous quarter by the rule as written, all segments included. */
  function PreviousQuarterShiftsAsWritten(shifts: seq<Shift>, today: CalDate): seq<Shift> {
    Filter(shifts, (s: Shift) => InPreviousQuarterAsWritten(s.date, today))
  }

  /** The shifts of the previous quarter by the corrected rule. */
  function PreviousQuarterShifts(shifts: seq<Shift>, today: CalDate): seq<Shift> {
    Filter(shifts, (s: Shift) => InPreviousQuarter(s.date, today))
  }

  /** Seconds of `segment` in the current quarter. */
  function QuarterSeconds(shifts: seq<Shift>, today: CalDate, segment: string): int {
    SegmentSeconds(RankedShifts(shifts, today), segment)
  }

  /** The quarter's hours over all segments but "Général". */
  function RankedTotal(shifts: seq<Shift>, today: CalDate): int {
    SumSeconds(Totals(RankedShifts(shifts, today)))
  }

  lemma RankedShiftsMembers(shifts: seq<Shift>, today: CalDate)
    ensures forall s :: s in RankedShifts(shifts, today) <==> s in shifts && CountsForRanking(s, today)
  {
    FilterMembers(shifts, s => CountsForRanking(s, today));
  }

  /** The top segments of the quarter with their hours text, share and
      change against the shifts `previous`. */
  function Top3From(shifts: seq<Shift>, today: CalDate, previous: seq<Shift>): (r: seq<SegmentStat>)
    ensures |r| <= 3
    ensures forall i :: 0 <= i < |r| ==>
      var seconds := QuarterSeconds(shifts, today, r[i].segment);
      && r[i].totalHours == HoursText(seconds)
      && r[i].percentage == Percentage(seconds, RankedTotal(shifts, today))
      && r[i].delta == Delta(seconds, SegmentSeconds(previous, r[i].segment))
  {
    var counted := RankedShifts(shifts, today);
    var total := RankedTotal(shifts, today);
    var top := TopSegments(counted);
    seq(|top|, i requires 0 <= i < |top| =>
      SegmentStat(top[i].segment, HoursText(top[i].seconds), Percentage(top[i].seconds, total),
                  Delta(top[i].seconds, SegmentSeconds(previous, top[i].segment))))
  }

  /** `getTop3ShiftsWithStats` on the fetched shifts as written: changes are
      taken against the previous quarter of the rule as written. */
  function Top3(shifts: seq<Shift>, today: CalDate): (r: seq<SegmentStat>)
    ensures |r| <= 3
    ensures forall i :: 0 <= i < |r| ==>
      var seconds := QuarterSeconds(shifts, today, r[i].segment);
      && r[i].totalHours == HoursText(seconds)
      && r[i].percentage == Percentage(seconds, RankedTotal(shifts, today))
      && r[i].delta == Delta(seconds, SegmentSeconds(PreviousQuarterShiftsAsWritten(shifts, today), r[i].segment))
  {
    Top3From(shifts, today, PreviousQuarterShiftsAsWritten(shifts, today))
  }

  /** The same list with changes taken against the corrected previous quarter. */
  function Top3Corrected(shifts: seq<Shift>, today: CalDate): (r: seq<SegmentStat>)
    ensures |r| <= 3
    ensures forall i :: 0 <= i < |r| ==>
      var seconds := QuarterSeconds(shifts, today, r[i].segment);
      && r[i].totalHours == HoursText(seconds)
      && r[i].percentage == Percentage(seconds, RankedTotal(shifts, today))
      && r[i].delta == Delta(seconds, SegmentSeconds(PreviousQuarterShifts(shifts, today), r[i].segment))
  {
    Top3From(shifts, today, PreviousQuarterShifts(shifts, today))
  }

  /** The listed segments are distinct segments of shifts in the current
      quarter, and "Général" is never one of them. */
  lemma Top3Segments(shifts: seq<Shift>, today: CalDate, previous: seq<Shift>)
    ensures var r := Top3From(shifts, today, previous);
      && (forall i :: 0 <= i < |r| ==> r[i].segment != DefaultSegment)
      && (forall i :: 0 <= i < |r| ==>
            exists s :: s in shifts && IsInSameQuarter(s.date, today) && s.segment == r[i].segment)
      && (forall i, j :: 0 <= i < j < |r| ==> r[i].segment != r[j].segment)
  {
    var r, top := Top3From(shifts, today, previous), TopSegments(RankedShifts(shifts, today));
    RankedShiftsMembers(shifts, today);
    forall i | 0 <= i < |r|
      ensures r[i].segment != DefaultSegment
      ensures exists s :: s in shifts && IsInSameQuarter(s.date, today) && s.segment == r[i].segment
    {
      assert r[i].segment == top[i].segment;
      assert IsTotalOf(RankedShifts(shifts, today), top[i]);
      var s :| s in RankedShifts(shifts, today) && s.segment == r[i].segment;
    }
  }

  /** The list is ordered by decreasing hours. */
  lemma Top3Descending(shifts: seq<Shift>, today: CalDate, previous: seq<Shift>)
    ensures var r := Top3From(shifts, today, previous);
      forall i, j :: 0 <= i < j < |r| ==>
        QuarterSeconds(shifts, today, r[i].segment) >= QuarterSeconds(shifts, today, r[j].segment)
  {
    var counted := RankedShifts(shifts, today);
    var r, top := Top3From(shifts, today, previous), TopSegments(counted);
    assert forall i :: 0 <= i < |r| ==> r[i].segment == top[i].segment;
    assert forall i :: 0 <= i < |r| ==> QuarterSeconds(shifts, today, r[i].segment) == top[i].seconds;
  }

  /** A segment of the quarter left out of the list has at most the hours of
      the third listed one, and then three are listed. */
  lemma Top3LeftOut(shifts: seq<Shift>, today: CalDate, previous: seq<Shift>, s: Shift)
    requires s in shifts && CountsForRanking(s, today)
    requires forall i :: 0 <= i < |Top3From(shifts, today, previous)| ==> Top3From(shifts, today, previous)[i].segment != s.segment
    ensures var r := Top3From(shifts, today, previous);
      |r| == 3 && QuarterSeconds(shifts, today, s.segment) <= QuarterSeconds(shifts, today, r[2].segment)
  {
    var counted := RankedShifts(shifts, today);
    var r, top := Top3From(shifts, today, previous), TopSegments(counted);
    assert forall i :: 0 <= i < |r| ==> r[i].segment == top[i].segment;
    RankedShiftsMembers(shifts, today);
    assert s in counted;
    LeftOutIsNotMore(counted, s.segment);
  }

  /** With no negative duration, every share lies in 0..100. */
  lemma PercentagesAtMost100(shifts: seq<Shift>, today: CalDate, previous: seq<Shift>)
    requires forall s :: s in shifts ==> Duration(s) >= 0
    ensures forall i :: 0 <= i < |Top3From(shifts, today, previous)| ==> 0 <= Top3From(shifts, today, previous)[i].percentage <= 100
  {
    var counted := RankedShifts(shifts, today);
    var totals := Totals(counted);
    var r, top := Top3From(shifts, today, previous), TopSegments(counted);
    RankedShiftsMembers(shifts, today);
    forall k | 0 <= k < |totals| ensures totals[k].seconds >= 0 {
      SegmentSecondsNonNegative(counted, totals[k].segment);
    }
    forall i | 0 <= i < |r| ensures 0 <= r[i].percentage <= 100 {
      assert IsTotalOf(counted, top[i]);
      var k :| 0 <= k < |SegmentsOf(counted)| && SegmentsOf(counted)[k] == top[i].segment;
      EntryAtMostSum(totals, k);
      assert r[i].percentage == Percentage(top[i].seconds, SumSeconds(totals));
    }
  }

  /** `getTop3ShiftsWithStats` as written: nothing without a store. */
  function GetTop3ShiftsWithStats(store: Option<seq<Shift>>, today: CalDate): (r: seq<SegmentStat>)
    ensures store.None? ==> r == []
    ensures store.Some? ==> r == Top3(store.value, today)
    ensures |r| <= 3
    ensures forall i :: 0 <= i < |r| ==> r[i].segment != DefaultSegment
    ensures forall i, j :: 0 <= i < j < |r| ==> r[i].segment != r[j].segment
  {
    match store
    case None => []
    case Some(shifts) =>
      Top3Segments(shifts, today, PreviousQuarterShiftsAsWritten(shifts, today));
      Top3(shifts, today)
  }

  /** `getTop3ShiftsWithStats` with the corrected previous-quarter rule. */
  function GetTop3ShiftsWithStatsCorrected(store: Option<seq<Shift>>, today: CalDate): (r: seq<SegmentStat>)
    ensures store.None? ==> r == []
    ensures store.Some? ==> r == Top3Corrected(store.value, today)
    ensures |r| <= 3
    ensures forall i :: 0 <= i < |r| ==> r[i].segment != DefaultSegment
    ensures forall i, j :: 0 <= i < j < |r| ==> r[i].segment != r[j].segment
  {
    match store
    case None => []
    case Some(shifts) =>
      Top3Segments(shifts, today, PreviousQuarterShifts(shifts, today));
      Top3Corrected(shifts, today)
  }
}
