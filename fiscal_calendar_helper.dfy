/**
 * Fiscal quarters: Q1 is October to December, Q2 January to March, Q3 April
 * to June and Q4 July to September. The fiscal year is the calendar year, so
 * October to December of year Y form "Q1 Y".
 */
module FiscalCalendarHelper {

  import opened CivilCalendar
  import opened Text

  /** `fiscalQuarter(for:)`: the quarter of the date's month. */
  function FiscalQuarter(d: CalDate): (q: int)
    ensures 1 <= q <= 4
    ensures 1 <= d.month <= 12 ==> QuarterFirstMonth(q) <= d.month <= QuarterFirstMonth(q) + 2
  {
    if 1 <= d.month <= 3 then 2
    else if 4 <= d.month <= 6 then 3
    else if 7 <= d.month <= 9 then 4
    else 1
  }

  /** The calendar month a fiscal quarter starts with. */
  function QuarterFirstMonth(q: int): (m: int)
    requires 1 <= q <= 4
    ensures m in {1, 4, 7, 10}
  {
    if q == 1 then 10 else 3 * q - 5
  }

  /** `fiscalYear(for:)`: the calendar year of the date. */
  function FiscalYear(d: CalDate): int {
    d.year
  }

  /** `isInSameQuarter`: same fiscal quarter of the same fiscal year. */
  predicate IsInSameQuarter(a: CalDate, b: CalDate) {
    FiscalQuarter(a) == FiscalQuarter(b) && FiscalYear(a) == FiscalYear(b)
  }

  /** `quarterLabel(for:)`, e.g. "Q1 2025". */
  function QuarterLabel(d: CalDate): (s: string)
    ensures |s| >= 4 && s[0] == 'Q' && s[2] == ' '
    ensures s[1] == DigitChar(FiscalQuarter(d)) && s[3..] == IntToString(d.year)
  {
    "Q" + IntToString(FiscalQuarter(d)) + " " + IntToString(FiscalYear(d))
  }

  /** Each quarter holds exactly three consecutive calendar months. */
  lemma QuarterMonths(q: int, y: int)
    requires 1 <= q <= 4
    ensures forall m :: 1 <= m <= 12 ==>
      (FiscalQuarter(CalDate(y, m, 1)) == q <==> QuarterFirstMonth(q) <= m <= QuarterFirstMonth(q) + 2)
  {
  }

  /** October to December of year Y is labelled "Q1 Y". */
  lemma LastCalendarQuarterIsQ1(d: CalDate)
    requires 10 <= d.month <= 12
    ensures QuarterLabel(d) == "Q1 " + IntToString(d.year)
  {
  }

  /** Being in the same quarter is an equivalence relation. */
  lemma SameQuarterIsEquivalence(a: CalDate, b: CalDate, c: CalDate)
    ensures IsInSameQuarter(a, a)
    ensures IsInSameQuarter(a, b) ==> IsInSameQuarter(b, a)
    ensures IsInSameQuarter(a, b) && IsInSameQuarter(b, c) ==> IsInSameQuarter(a, c)
  {
  }

  /** Two dates carry the same label exactly when they are in the same quarter:
      the label names the quarter and nothing else. */
  lemma {:induction false} LabelIdentifiesQuarter(a: CalDate, b: CalDate)
    ensures QuarterLabel(a) == QuarterLabel(b) <==> IsInSameQuarter(a, b)
  {
    var la, lb := QuarterLabel(a), QuarterLabel(b);
    if la == lb {
      assert DigitValue(la[1]) == FiscalQuarter(a) && DigitValue(lb[1]) == FiscalQuarter(b);
      assert la[3..] == lb[3..];
      IntToStringInjective(a.year, b.year);
    }
  }
}
