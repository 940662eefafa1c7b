/** Calendar dates, as the parsed `dteday` column holds them. */
module Calendar {

  datatype Ymd = Ymd(year: int, month: int, day: int)

  predicate IsLeapYear(y: int) {
    y % 4 == 0 && (y % 100 != 0 || y % 400 == 0)
  }

  function DaysInMonth(y: int, m: int): (n: int)
    requires 1 <= m <= 12
    ensures 28 <= n <= 31
  {
    if m == 2 then (if IsLeapYear(y) then 29 else 28)
    else if m == 4 || m == 6 || m == 9 || m == 11 then 30
    else 31
  }

  predicate IsValidDate(d: Ymd) {
    1 <= d.month <= 12 && 1 <= d.day <= DaysInMonth(d.year, d.month)
  }

  /** A date that parsing accepted: every value of the parsed column is a real calendar day. */
  type Date = d: Ymd | IsValidDate(d) witness Ymd(2011, 1, 1)

  /** Chronological order `a <= b`: lexicographic on year, month, day. */
  predicate OnOrBefore(a: Date, b: Date) {
    a.year < b.year ||
    (a.year == b.year && (a.month < b.month || (a.month == b.month && a.day <= b.day)))
  }

  /** `.dt.month`: the month number of a date. */
  function MonthOf(d: Date): (m: int)
    ensures 1 <= m <= 12
  {
    d.month
  }
}
