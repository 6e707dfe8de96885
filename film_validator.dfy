/** `FilmValidator`: an ordered chain of guards over a film; the first failing guard decides the error. */
module FilmValidator {
  import opened Wrappers
  import opened Text
  import opened Dates
  import opened Errors
  import opened Validation
  import opened ReleaseDate
  import opened Films

  /** The longest description the validator accepts, in UTF-16 code units. */
  const MaxSymbols := 200

  const NameMissing := Error(ValidationFailed, "Название фильма не может быть пустым")
  const DescriptionOverlong := Error(ValidationFailed, "Максимальная длина описания 200 символов")
  const ReleaseTooEarlyOrMissing := Error(ValidationFailed, "Дата релиза не может быть раньше 28 декабря 1895 года")
  const DurationNotPositiveError := Error(ValidationFailed, "Продолжительность фильма должна быть положительным числом")

  /** The four checks in the order the validator runs them. Comparing a null duration unboxes it, which throws. */
  function FilmGuards(f: Film): seq<Guard>
  {
    [ Guard(f.name.Some? && !IsBlank(f.name.value), NameMissing),
      Guard(f.description.None? || Utf16Length(f.description.value) <= MaxSymbols, DescriptionOverlong),
      Guard(f.releaseDate.Some? && !IsBefore(f.releaseDate.value, EarliestRelease), ReleaseTooEarlyOrMissing),
      Guard(f.duration.Some? && f.duration.value > 0,
            if f.duration.None? then NullDereference else DurationNotPositiveError) ]
  }

  /** `validate`: `None` when the film passes, otherwise what it throws. It never changes the film. */
  function Validate(f: Film): (r: Option<Error>)
    ensures r == FirstFailure(FilmGuards(f))
    ensures r.None? <==> && f.name.Some? && !IsBlank(f.name.value)
                         && (f.description.None? || Utf16Length(f.description.value) <= 200)
                         && f.releaseDate.Some? && !IsBefore(f.releaseDate.value, Date(1895, 12, 28))
                         && f.duration.Some? && f.duration.value > 0
  {
    var guards := FilmGuards(f);
    if f.name.None? || IsBlank(f.name.value) then
      FirstFailureAt(guards, 0);
      Some(NameMissing)
    else if f.description.Some? && Utf16Length(f.description.value) > MaxSymbols then
      FirstFailureAt(guards, 1);
      Some(DescriptionOverlong)
    else if f.releaseDate.None? || IsBefore(f.releaseDate.value, EarliestRelease) then
      FirstFailureAt(guards, 2);
      Some(ReleaseTooEarlyOrMissing)
    else if f.duration.None? then
      FirstFailureAt(guards, 3);
      Some(NullDereference)
    else if f.duration.value <= 0 then
      FirstFailureAt(guards, 3);
      Some(DurationNotPositiveError)
    else
      None
  }

  /** Each rule's message, under the earlier rules passing: a blank name wins whatever the other fields hold. */
  lemma RuleMessages(f: Film)
    ensures f.name.None? || IsBlank(f.name.value) ==> Validate(f) == Some(NameMissing)
    ensures (&& FilmGuards(f)[0].holds
             && f.description.Some? && Utf16Length(f.description.value) > 200)
            ==> Validate(f) == Some(DescriptionOverlong)
    ensures (&& FilmGuards(f)[0].holds && FilmGuards(f)[1].holds
             && (f.releaseDate.None? || IsBefore(f.releaseDate.value, EarliestRelease)))
            ==> Validate(f) == Some(ReleaseTooEarlyOrMissing)
    ensures (&& FilmGuards(f)[0].holds && FilmGuards(f)[1].holds && FilmGuards(f)[2].holds
             && f.duration.Some? && f.duration.value <= 0)
            ==> Validate(f) == Some(DurationNotPositiveError)
    ensures (&& FilmGuards(f)[0].holds && FilmGuards(f)[1].holds && FilmGuards(f)[2].holds
             && f.duration.None?)
            ==> Validate(f) == Some(NullDereference)
  {
  }

  /** A film the validator accepts, and that carries no id, meets every OnCreate constraint. */
  lemma ValidatedFilmMeetsCreateConstraints(f: Film)
    requires f.id.None? && Validate(f).None?
    ensures FilmViolations(f, OnCreate) == {}
  {
    FilmGroupRules(f);
  }

  /** The converse fails: the annotations let a film without release date or duration through, the validator does not. */
  lemma ConstraintsWeakerThanValidator()
    ensures var f := NewFilm().(name := Some("Film"));
            FilmViolations(f, OnCreate) == {} && Validate(f) == Some(ReleaseTooEarlyOrMissing)
  {
    var f := NewFilm().(name := Some("Film"));
    assert !IsBlank("Film") by { assert !IsWhitespace("Film"[0]); }
    FilmGroupRules(f);
  }
}
