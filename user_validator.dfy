/** `UserValidator`: ordered guards over a user, with the blank name replaced by the login between them. */
module UserValidator {
  import opened Wrappers
  import opened Text
  import opened Dates
  import opened Errors
  import opened Validation
  import opened Users

  const EmailInvalid := Error(ValidationFailed, "Электронная почта не может быть пустой и должна содержать символ @")
  const LoginInvalid := Error(ValidationFailed, "Логин не может быть пустым и содержать пробелы")
  const BirthdayInFutureError := Error(ValidationFailed, "Дата рождения не может быть в будущем")

  /** Present, not blank, and containing '@'. */
  predicate EmailOk(u: User)
  {
    u.email.Some? && !IsBlank(u.email.value) && '@' in u.email.value
  }

  /** Present, not blank, and free of the space character (other whitespace inside a login is not checked). */
  predicate LoginOk(u: User)
  {
    u.login.Some? && !IsBlank(u.login.value) && ' ' !in u.login.value
  }

  /** Missing, or not after `today` (the clock reading `LocalDate.now()`). */
  predicate BirthdayOk(u: User, today: Date)
  {
    u.birthday.None? || !IsAfter(u.birthday.value, today)
  }

  /** The three checks in the order the validator runs them. */
  function UserGuards(u: User, today: Date): seq<Guard>
  {
    [Guard(EmailOk(u), EmailInvalid), Guard(LoginOk(u), LoginInvalid), Guard(BirthdayOk(u, today), BirthdayInFutureError)]
  }

  /** `validate`: the user as the call leaves it, and `None` or the error thrown. */
  function Validate(u: User, today: Date): (r: (User, Option<Error>))
    ensures r.1 == FirstFailure(UserGuards(u, today))
    ensures r.1.None? <==> EmailOk(u) && LoginOk(u) && BirthdayOk(u, today)
    ensures r.0 == u.(name := r.0.name)
    ensures r.0.name != u.name ==> EmailOk(u) && LoginOk(u) && (u.name.None? || IsBlank(u.name.value)) && r.0.name == u.login
    ensures EmailOk(u) && LoginOk(u) && (u.name.None? || IsBlank(u.name.value)) ==> r.0.name == u.login
  {
    var guards := UserGuards(u, today);
    if !EmailOk(u) then
      FirstFailureAt(guards, 0);
      (u, Some(EmailInvalid))
    else if !LoginOk(u) then
      FirstFailureAt(guards, 1);
      (u, Some(LoginInvalid))
    else
      var named := WithDefaultName(u);
      if named.birthday.Some? && IsAfter(named.birthday.value, today) then
        FirstFailureAt(guards, 2);
        (named, Some(BirthdayInFutureError))
      else
        (named, None)
  }

  /** An invalid email is reported ahead of anything wrong with the login or the birthday, and leaves the name alone. */
  lemma EmailCheckedFirst(u: User, today: Date)
    requires !EmailOk(u)
    ensures Validate(u, today) == (u, Some(EmailInvalid))
  {
  }

  /** The name is rewritten before the birthday is checked, so a rejected user can come back renamed. */
  lemma RenamedThenRejected(today: Date)
    ensures var u := NewUser().(email := Some("a@x"), login := Some("a"), birthday := Some(Date(today.year + 1, 1, 1)));
            Validate(u, today) == (u.(name := Some("a")), Some(BirthdayInFutureError))
  {
    var u := NewUser().(email := Some("a@x"), login := Some("a"), birthday := Some(Date(today.year + 1, 1, 1)));
    assert !IsBlank("a@x") by { assert !IsWhitespace("a@x"[0]); }
    assert '@' in "a@x" by { assert "a@x"[1] == '@'; }
    assert !IsBlank("a") by { assert !IsWhitespace("a"[0]); }
  }

  /** A user the validator accepts, with a null id, meets every OnCreate constraint once renamed. */
  lemma ValidatedUserMeetsCreateConstraints(u: User, today: Date)
    requires u.id.None? && Validate(u, today).1.None?
    ensures UserViolations(Validate(u, today).0, OnCreate, today) == {}
  {
    UserGroupRules(Validate(u, today).0, today);
  }
}
