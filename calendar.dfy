/**
 * Calendar dates and the month arithmetic the ledger screen relies on
 * (`startOfMonth`, `endOfMonth`, `addMonths`, `subMonths` of date-fns).
 * Dates are compared as the store compares its `yyyy-MM-dd` strings:
 * year first, then month, then day.
 */
module Calendar {

  datatype Date = Date(year: int, month: int, day: int)

  predicate IsLeapYear(y: int) {
    y % 4 == 0 && (y % 100 != 0 || y % 400 == 0)
  }

  function DaysInMonth(y: int, m: int): (n: int)
    requires 1 <= m <= 12
    ensures 28 <= n <= 31
    ensures n == 28 <==> m == 2 && !IsLeapYear(y)
  {
    if m == 2 then (if IsLeapYear(y) then 29 else 28)
    else if m == 4 || m == 6 || m == 9 || m == 11 then 30
    else 31
  }

  /** A date that exists on the Gregorian calendar. */
  predicate Valid(d: Date) {
    1 <= d.month <= 12 && 1 <= d.day <= DaysInMonth(d.year, d.month)
  }

  /** Strictly earlier (`a < b` on `yyyy-MM-dd` strings). */
  predicate Before(a: Date, b: Date) {
    a.year < b.year
    || (a.year == b.year && a.month < b.month)
    || (a.year == b.year && a.month == b.month && a.day < b.day)
  }

  /** Earlier or the same day (`a <= b`). */
  predicate NotAfter(a: Date, b: Date) {
    Before(a, b) || a == b
  }

  predicate SameMonth(a: Date, b: Date) {
    a.year == b.year && a.month == b.month
  }

  /** The fixed date on which balance adjustments are recorded. */
  const Sentinel := Date(2000, 1, 1)

  /** The first and the last day of the month holding `d`. */
  function MonthWindow(d: Date): (w: (Date, Date))
    requires Valid(d)
    ensures Valid(w.0) && Valid(w.1) && SameMonth(w.0, d) && SameMonth(w.1, d)
    ensures forall x :: Valid(x) ==> (NotAfter(w.0, x) && NotAfter(x, w.1) <==> SameMonth(x, d))
  {
    (Date(d.year, d.month, 1), Date(d.year, d.month, DaysInMonth(d.year, d.month)))
  }

  /** Months counted from year 0, so that stepping is integer addition. */
  function MonthIndex(d: Date): int {
    d.year * 12 + (d.month - 1)
  }

  /**
   * `addMonths(d, n)`: the same day `n` months later (earlier when `n < 0`),
   * cut down to the length of the target month.
   */
  function AddMonths(d: Date, n: int): (r: Date)
    requires Valid(d)
    ensures Valid(r)
    ensures MonthIndex(r) == MonthIndex(d) + n
    ensures r.day <= d.day
    ensures r.day == d.day || r.day == DaysInMonth(r.year, r.month)
  {
    var total := MonthIndex(d) + n;
    var y, m := total / 12, total % 12 + 1;
    var last := DaysInMonth(y, m);
    Date(y, m, if d.day <= last then d.day else last)
  }

  /** Two valid dates with the same month index lie in the same month. */
  lemma MonthIndexDetermines(a: Date, b: Date)
    requires Valid(a) && Valid(b)
    requires MonthIndex(a) == MonthIndex(b)
    ensures SameMonth(a, b)
  {
  }

  /**
   * Pressing "next month" and then "previous month" returns to the same
   * month; the day comes back too unless the next month was too short for it.
   */
  lemma NextThenPrevious(d: Date)
    requires Valid(d)
    ensures SameMonth(AddMonths(AddMonths(d, 1), -1), d)
    ensures d.day <= 28 ==> AddMonths(AddMonths(d, 1), -1) == d
  {
    MonthIndexDetermines(AddMonths(AddMonths(d, 1), -1), d);
  }

  lemma PreviousThenNext(d: Date)
    requires Valid(d)
    ensures SameMonth(AddMonths(AddMonths(d, -1), 1), d)
    ensures d.day <= 28 ==> AddMonths(AddMonths(d, -1), 1) == d
  {
    MonthIndexDetermines(AddMonths(AddMonths(d, -1), 1), d);
  }
}
