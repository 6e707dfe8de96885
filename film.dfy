/** The film record (`model.Film`) and the constraints its fields carry per validation group. */
module Films {
  import opened Wrappers
  import opened Text
  import opened Dates
  import opened Validation
  import opened ReleaseDate

  /** A film. Every field but `likes` may be null in a request body; `likes` holds the ids of the users who liked it. */
  datatype Film = Film(
    id: Option<int>,
    name: Option<string>,
    description: Option<string>,
    releaseDate: Option<Date>,
    duration: Option<int>,
    likes: set<int>)

  /** `new Film()`: nothing set, and no likes yet. */
  function NewFilm(): (f: Film)
    ensures f.likes == {} && f.id.None?
  {
    Film(None, None, None, None, None, {})
  }

  /** The longest description accepted, in UTF-16 code units. */
  const MaxDescriptionLength := 200

  /** One declarative constraint on a film's fields. */
  datatype FilmConstraint =
    | FilmIdPresent        // @Null on id, group OnCreate
    | FilmIdMissing        // @NotNull on id, group OnUpdate
    | NameBlank            // @NotBlank on name, group OnCreate
    | DescriptionTooLong   // @Size(max = 200) on description, both groups
    | ReleaseTooEarly      // @ValidReleaseDate on releaseDate, both groups
    | DurationNotPositive  // @Positive on duration, both groups

  /** The messages the annotations give, which the controller tests look for. */
  const IdRequiredMessage := "Id должен быть указан"
  const NameBlankMessage := "Название фильма не может быть пустым"
  const DescriptionTooLongMessage := "Максимальная длина описания 200 символов"
  const ReleaseTooEarlyMessage := "Дата релиза не может быть раньше 28 декабря 1895 года"
  const DurationNotPositiveMessage := "Продолжительность фильма должна быть положительным числом"

  /** The message a violated constraint reports; `None` where the annotation keeps the library's default message. */
  function FilmConstraintMessage(c: FilmConstraint): Option<string>
  {
    match c
    case FilmIdPresent => None
    case FilmIdMissing => Some(IdRequiredMessage)
    case NameBlank => Some(NameBlankMessage)
    case DescriptionTooLong => Some(DescriptionTooLongMessage)
    case ReleaseTooEarly => Some(ReleaseTooEarlyMessage)
    case DurationNotPositive => Some(DurationNotPositiveMessage)
  }

  /** Some violated constraint reports the message `m`, which the controller tests look for. */
  ghost predicate ReportsMessage(vs: set<FilmConstraint>, m: string)
  {
    exists c :: c in vs && FilmConstraintMessage(c) == Some(m)
  }

  /** A violated constraint that has a message of its own reports it. */
  lemma ViolationReported(vs: set<FilmConstraint>, c: FilmConstraint)
    requires c in vs && FilmConstraintMessage(c).Some?
    ensures ReportsMessage(vs, FilmConstraintMessage(c).value)
  {
  }

  /** The constraints a film violates when validated under group `g`. Null passes @Size, @Positive and @ValidReleaseDate. */
  function FilmViolations(f: Film, g: Group): set<FilmConstraint>
  {
    (if g == OnCreate && f.id.Some? then {FilmIdPresent} else {})
    + (if g == OnUpdate && f.id.None? then {FilmIdMissing} else {})
    + (if g == OnCreate && (f.name.None? || IsBlank(f.name.value)) then {NameBlank} else {})
    + (if f.description.Some? && Utf16Length(f.description.value) > MaxDescriptionLength then {DescriptionTooLong} else {})
    + (if !IsValid(f.releaseDate) then {ReleaseTooEarly} else {})
    + (if f.duration.Some? && f.duration.value <= 0 then {DurationNotPositive} else {})
  }

  /** Which constraints belong to which group. */
  lemma FilmGroupRules(f: Film)
    ensures FilmIdPresent in FilmViolations(f, OnCreate) <==> f.id.Some?
    ensures FilmIdMissing in FilmViolations(f, OnUpdate) <==> f.id.None?
    ensures FilmIdPresent !in FilmViolations(f, OnUpdate) && FilmIdMissing !in FilmViolations(f, OnCreate)
    ensures NameBlank in FilmViolations(f, OnCreate) <==> f.name.None? || IsBlank(f.name.value)
    ensures NameBlank !in FilmViolations(f, OnUpdate)
    ensures forall g :: DescriptionTooLong in FilmViolations(f, g) <==> f.description.Some? && Utf16Length(f.description.value) > 200
    ensures forall g :: ReleaseTooEarly in FilmViolations(f, g) <==> f.releaseDate.Some? && IsBefore(f.releaseDate.value, Date(1895, 12, 28))
    ensures forall g :: DurationNotPositive in FilmViolations(f, g) <==> f.duration.Some? && f.duration.value <= 0
  {
  }

  /** A film passes the create group exactly when it has no id, a non-blank name, a description of at most 200
      units, an acceptable release date and a positive duration where those are given; the update group then only
      asks for the id. */
  lemma CreateGroupAcceptance(f: Film)
    ensures FilmViolations(f, OnCreate) == {} <==> f.id.None? && f.name.Some? && !IsBlank(f.name.value) && (f.description.Some? ==> Utf16Length(f.description.value) <= 200) && IsValid(f.releaseDate) && (f.duration.Some? ==> f.duration.value > 0)
    ensures FilmViolations(f, OnUpdate) == {FilmIdMissing} <==> f.id.None? && (f.description.Some? ==> Utf16Length(f.description.value) <= 200) && IsValid(f.releaseDate) && (f.duration.Some? ==> f.duration.value > 0)
  {
    if FilmViolations(f, OnCreate) == {} {
      assert FilmIdPresent !in FilmViolations(f, OnCreate);
      assert NameBlank !in FilmViolations(f, OnCreate);
      assert DescriptionTooLong !in FilmViolations(f, OnCreate);
      assert ReleaseTooEarly !in FilmViolations(f, OnCreate);
      assert DurationNotPositive !in FilmViolations(f, OnCreate);
    }
    if FilmViolations(f, OnUpdate) == {FilmIdMissing} {
      assert DescriptionTooLong !in FilmViolations(f, OnUpdate);
      assert ReleaseTooEarly !in FilmViolations(f, OnUpdate);
      assert DurationNotPositive !in FilmViolations(f, OnUpdate);
    }
  }

  /** The film the controller tests start from: named "Film", described "Description", released `today`, 60 minutes long. */
  function SampleFilm(today: Date): Film
  {
    Film(None, Some("Film"), Some("Description"), Some(today), Some(60), {})
  }

  /** The sample film meets every constraint of the create group, and lacks the id the update group requires. */
  lemma SampleFilmAccepted(today: Date)
    requires !IsBefore(today, EarliestRelease)
    ensures FilmViolations(SampleFilm(today), OnCreate) == {}
    ensures FilmViolations(SampleFilm(today), OnUpdate) == {FilmIdMissing}
  {
    var f := SampleFilm(today);
    assert !IsBlank(f.name.value) by { assert !IsWhitespace(f.name.value[0]); }
    assert Utf16Length(f.description.value) <= 200;
    CreateGroupAcceptance(f);
  }

  /** The controller tests' rejections, each for any film that differs from the sample where the test changes it:
      a missing id under the update group, a blank name, a release in 1800, a duration of -1 and an overlong
      description; each reports the message the test looks for. */
  lemma MissingIdRejected(f: Film)
    requires f.id.None?
    ensures FilmIdMissing in FilmViolations(f, OnUpdate)
    ensures ReportsMessage(FilmViolations(f, OnUpdate), IdRequiredMessage)
  {
    ViolationReported(FilmViolations(f, OnUpdate), FilmIdMissing);
  }

  lemma BlankNameRejected(f: Film)
    requires f.name == Some("  ")
    ensures NameBlank in FilmViolations(f, OnCreate)
    ensures ReportsMessage(FilmViolations(f, OnCreate), NameBlankMessage)
  {
    assert IsBlank("  ");
    ViolationReported(FilmViolations(f, OnCreate), NameBlank);
  }

  lemma EarlyReleaseRejected(f: Film)
    requires f.releaseDate == Some(Date(1800, 1, 1))
    ensures forall g :: ReleaseTooEarly in FilmViolations(f, g)
    ensures ReportsMessage(FilmViolations(f, OnCreate), ReleaseTooEarlyMessage)
  {
    ViolationReported(FilmViolations(f, OnCreate), ReleaseTooEarly);
  }

  lemma NegativeDurationRejected(f: Film)
    requires f.duration == Some(-1)
    ensures forall g :: DurationNotPositive in FilmViolations(f, g)
    ensures ReportsMessage(FilmViolations(f, OnCreate), DurationNotPositiveMessage)
  {
    ViolationReported(FilmViolations(f, OnCreate), DurationNotPositive);
  }

  /** "Description" repeated 90 times, the tests' overlong description, is 990 units long. */
  lemma RepeatedDescriptionLength(d: string)
    requires d == "Description"
    ensures Utf16Length(Repeat(d, 90)) == 990
  {
    assert forall i :: 0 <= i < |d| ==> d[i] as int <= 0xFFFF;
    Utf16LengthRepeat(d, 90);
  }

  /** Any description over 200 units, such as that one, is rejected in both groups. */
  lemma OverlongDescriptionRejected(f: Film)
    requires f.description.Some? && Utf16Length(f.description.value) > MaxDescriptionLength
    ensures forall g :: DescriptionTooLong in FilmViolations(f, g)
    ensures ReportsMessage(FilmViolations(f, OnCreate), DescriptionTooLongMessage)
  {
    ViolationReported(FilmViolations(f, OnCreate), DescriptionTooLong);
  }

  /** The film-store update merge: each non-null field of `patch` replaces the stored one; id and likes are kept. */
  function PatchFilm(stored: Film, patch: Film): (r: Film)
    ensures r.id == stored.id && r.likes == stored.likes
    ensures r.name == (if patch.name.Some? then patch.name else stored.name)
    ensures r.description == (if patch.description.Some? then patch.description else stored.description)
    ensures r.releaseDate == (if patch.releaseDate.Some? then patch.releaseDate else stored.releaseDate)
    ensures r.duration == (if patch.duration.Some? then patch.duration else stored.duration)
  {
    var r := if patch.name.Some? then stored.(name := patch.name) else stored;
    var r := if patch.description.Some? then r.(description := patch.description) else r;
    var r := if patch.releaseDate.Some? then r.(releaseDate := patch.releaseDate) else r;
    if patch.duration.Some? then r.(duration := patch.duration) else r
  }

  /** Applying the same patch twice is the same as applying it once, and an empty patch changes nothing. */
  lemma PatchFilmIdempotent(stored: Film, patch: Film)
    ensures PatchFilm(PatchFilm(stored, patch), patch) == PatchFilm(stored, patch)
    ensures PatchFilm(stored, NewFilm()) == stored
  {
  }

  /** Every stored film carries the id it is stored under. */
  ghost predicate FilmKeysMatchIds(films: map<int, Film>)
  {
    forall k :: k in films ==> films[k].id == Some(k)
  }
}
