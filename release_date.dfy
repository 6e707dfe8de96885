/** The `@ValidReleaseDate` constraint (`ReleaseDateValidator`). */
module ReleaseDate {
  import opened Wrappers
  import opened Dates

  /** The earliest release date the service accepts: the first public film screening. */
  const EarliestRelease := Date(1895, 12, 28)

  /** `isValid`: a missing date is valid; otherwise the date must not be before 28 December 1895. */
  predicate IsValid(d: Option<Date>)
  {
    d.None? || !IsBefore(d.value, EarliestRelease)
  }

  /** The threshold itself is valid, the day before it is not, and a missing date is valid. */
  lemma Threshold()
    ensures IsValid(None)
    ensures IsValid(Some(EarliestRelease))
    ensures !IsValid(Some(Date(1895, 12, 27)))
    ensures forall d :: IsBefore(d, EarliestRelease) ==> !IsValid(Some(d))
  {
  }

  /** Validity is upward closed: any date not before a valid date is valid. */
  lemma Monotone(d: Date, later: Date)
    requires IsValid(Some(d))
    requires !IsBefore(later, d)
    ensures IsValid(Some(later))
  {
    BeforeIsStrictTotalOrder(later, d, EarliestRelease);
  }
}
