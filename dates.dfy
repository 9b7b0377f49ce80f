/** Calendar dates as `java.time.LocalDate` compares them. */
module Dates {

  /** A calendar date without time of day or offset. */
  datatype Date = Date(year: int, month: int, day: int)

  /** `a.isBefore(b)`: chronological order, by year, then month, then day. */
  predicate Before(a: Date, b: Date)
  {
    || a.year < b.year
    || (a.year == b.year && a.month < b.month)
    || (a.year == b.year && a.month == b.month && a.day < b.day)
  }
}
