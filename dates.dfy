/**
 * The parts of Python's `datetime` that the catalog's age check reads, and
 * calendar months counted on a single line.
 */
module Dates {

  /** A `datetime` as `strptime` or `now()` produce it, without its microseconds. */
  datatype DateTime = DateTime(year: int, month: int, day: int, hour: int, minute: int, second: int)

  /** A calendar month: a year and a month of that year. */
  datatype YearMonth = YearMonth(year: int, month: int)

  /** Months run from 1 (January) to 12 (December), as `datetime` guarantees. */
  predicate ValidMonth(ym: YearMonth) {
    1 <= ym.month <= 12
  }

  /** The calendar month a date falls in. */
  function CalendarMonth(d: DateTime): YearMonth {
    YearMonth(d.year, d.month)
  }

  /** The position of a calendar month on a line that counts months across years. */
  function MonthIndex(ym: YearMonth): int {
    ym.year * 12 + ym.month
  }

  /** The calendar month at a position of that line. */
  function FromIndex(i: int): (ym: YearMonth)
    ensures ValidMonth(ym) && MonthIndex(ym) == i
  {
    YearMonth((i - 1) / 12, (i - 1) % 12 + 1)
  }

  /** Two valid calendar months at the same position are the same month. */
  lemma MonthIndexInjective(a: YearMonth, b: YearMonth)
    requires ValidMonth(a) && ValidMonth(b)
    requires MonthIndex(a) == MonthIndex(b)
    ensures a == b
  {
  }

  /** Positions and valid calendar months are in one-to-one correspondence. */
  lemma IndexRoundTrip(ym: YearMonth)
    requires ValidMonth(ym)
    ensures FromIndex(MonthIndex(ym)) == ym
  {
  }

  /** The calendar month after `ym`; December is followed by January of the next year. */
  function NextMonth(ym: YearMonth): (r: YearMonth)
    requires ValidMonth(ym)
    ensures ValidMonth(r) && MonthIndex(r) == MonthIndex(ym) + 1
  {
    if ym.month == 12 then YearMonth(ym.year + 1, 1) else YearMonth(ym.year, ym.month + 1)
  }

  /** The calendar month reached from `ym` by stepping forward `n` months one at a time. */
  function Advance(ym: YearMonth, n: nat): (r: YearMonth)
    requires ValidMonth(ym)
    ensures ValidMonth(r) && MonthIndex(r) == MonthIndex(ym) + n
    decreases n
  {
    if n == 0 then ym else Advance(NextMonth(ym), n - 1)
  }

  /** Stepping `m` months and then `n` more is stepping `m + n` months. */
  lemma AdvanceAdds(ym: YearMonth, m: nat, n: nat)
    requires ValidMonth(ym)
    ensures Advance(Advance(ym, m), n) == Advance(ym, m + n)
  {
  }

  /** `a` comes strictly before `b` in calendar order (year first, then month). */
  predicate Before(a: YearMonth, b: YearMonth) {
    a.year < b.year || (a.year == b.year && a.month < b.month)
  }

  /** Calendar order is the order of positions on the month line. */
  lemma BeforeIffSmallerIndex(a: YearMonth, b: YearMonth)
    requires ValidMonth(a) && ValidMonth(b)
    ensures Before(a, b) <==> MonthIndex(a) < MonthIndex(b)
  {
  }
}
