/** Calendar dates as `java.time.LocalDate` compares them. */
module Dates {

  /** A `LocalDate`: year, month (1-12) and day of month. */
  datatype Date = Date(year: int, month: int, day: int)

  /** `LocalDate.isBefore`: chronological order, which is lexicographic on (year, month, day). */
  predicate IsBefore(a: Date, b: Date)
  {
    || a.year < b.year
    || (a.year == b.year && a.month < b.month)
    || (a.year == b.year && a.month == b.month && a.day < b.day)
  }

  /** `LocalDate.isAfter`. */
  predicate IsAfter(a: Date, b: Date)
  {
    IsBefore(b, a)
  }

  /** Chronological order is a strict total order. */
  lemma BeforeIsStrictTotalOrder(a: Date, b: Date, c: Date)
    ensures !IsBefore(a, a)
    ensures IsBefore(a, b) && IsBefore(b, c) ==> IsBefore(a, c)
    ensures a == b || IsBefore(a, b) || IsBefore(b, a)
    ensures !(IsBefore(a, b) && IsBefore(b, a))
  {
  }
}
