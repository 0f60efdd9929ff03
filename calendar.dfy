/**
 * Calendar dates as (month, day, year) triples in the proleptic Gregorian calendar.
 * They stand for what the source obtains from a JavaScript `Date` through
 * `getMonth() + 1`, `getDate()` and `getFullYear()`.
 */
module Calendar {

  /** `month` is 1-based, as `getMonth() + 1` gives it. */
  datatype Date = Date(month: int, day: int, year: int)

  /** `new Date(0)`: the first of January 1970 (UTC). */
  const Epoch: Date := Date(1, 1, 1970)

  predicate IsLeapYear(y: int) {
    y % 4 == 0 && (y % 100 != 0 || y % 400 == 0)
  }

  function DaysInMonth(month: int, year: int): (n: int)
    ensures 28 <= n <= 31
    ensures month == 2 ==> (n == 29 <==> IsLeapYear(year))
  {
    if month == 2 then (if IsLeapYear(year) then 29 else 28)
    else if month == 4 || month == 6 || month == 9 || month == 11 then 30
    else 31
  }

  /** A real calendar day with a year that prints without a sign. */
  predicate ValidDate(d: Date) {
    1 <= d.month <= 12 && 1 <= d.day <= DaysInMonth(d.month, d.year) && d.year >= 0
  }

  /** The calendar day before `d` ("yesterday"). */
  function Predecessor(d: Date): (p: Date)
    requires ValidDate(d)
    ensures d.year >= 1 || d.month != 1 || d.day != 1 ==> ValidDate(p)
    ensures p != d
  {
    if d.day > 1 then Date(d.month, d.day - 1, d.year)
    else if d.month > 1 then Date(d.month - 1, DaysInMonth(d.month - 1, d.year), d.year)
    else Date(12, 31, d.year - 1)
  }

  /** The calendar day after `d` ("tomorrow"). */
  function Successor(d: Date): (s: Date)
    requires ValidDate(d)
    ensures ValidDate(s)
    ensures s != d
  {
    if d.day < DaysInMonth(d.month, d.year) then Date(d.month, d.day + 1, d.year)
    else if d.month < 12 then Date(d.month + 1, 1, d.year)
    else Date(1, 1, d.year + 1)
  }

  /** Yesterday of tomorrow is today. */
  lemma PredecessorOfSuccessor(d: Date)
    requires ValidDate(d)
    ensures Predecessor(Successor(d)) == d
  {
  }

  /** Tomorrow of yesterday is today. */
  lemma SuccessorOfPredecessor(d: Date)
    requires ValidDate(d) && (d.year >= 1 || d.month != 1 || d.day != 1)
    ensures Successor(Predecessor(d)) == d
  {
  }

  /** Distinct days have distinct next days, so each day has exactly one yesterday. */
  lemma SuccessorIsInjective(a: Date, b: Date)
    requires ValidDate(a) && ValidDate(b) && Successor(a) == Successor(b)
    ensures a == b
  {
    PredecessorOfSuccessor(a);
    PredecessorOfSuccessor(b);
  }
}
