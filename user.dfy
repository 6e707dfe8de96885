/** The user record (`model.User` and `model.user.User`, which declare the same fields and constraints; the
    second adds `friends` and `status`, and only `friends` is modelled) and the constraints its fields carry per validation group. */
module Users {
  import opened Wrappers
  import opened Text
  import opened Dates
  import opened Validation

  /** A user. Every field but `friends` may be null in a request body; `friends` holds the ids of the user's friends. */
  datatype User = User(
    id: Option<int>,
    email: Option<string>,
    login: Option<string>,
    name: Option<string>,
    birthday: Option<Date>,
    friends: set<int>)

  /** `new User()`: nothing set, and no friends yet. */
  function NewUser(): (u: User)
    ensures u.friends == {} && u.id.None?
  {
    User(None, None, None, None, None, {})
  }

  /** Lombok's `@EqualsAndHashCode(of = {"id"})`: two users are equal when their ids are. */
  predicate SameUser(a: User, b: User)
  {
    a.id == b.id
  }

  /** Every stored user carries the id it is stored under. */
  ghost predicate UserKeysMatchIds(users: map<int, User>)
  {
    forall k :: k in users ==> users[k].id == Some(k)
  }

  /** Inside a store, id equality and full equality agree, so hashing users by id loses none of them. */
  lemma StoredUsersEqualIffSameId(users: map<int, User>, a: int, b: int)
    requires UserKeysMatchIds(users)
    requires a in users && b in users
    ensures SameUser(users[a], users[b]) <==> users[a] == users[b]
    ensures SameUser(users[a], users[b]) <==> a == b
  {
  }

  /** The name a user is stored with: a null or blank name is replaced by the login. */
  function WithDefaultName(u: User): (r: User)
    ensures r == u.(name := r.name)
    ensures u.name.Some? && !IsBlank(u.name.value) ==> r.name == u.name
    ensures u.name.None? || IsBlank(u.name.value) ==> r.name == u.login
  {
    if u.name.None? || IsBlank(u.name.value) then u.(name := u.login) else u
  }

  /** Defaulting the name twice is defaulting it once; with a usable login the name is never left blank. */
  lemma WithDefaultNameIdempotent(u: User)
    ensures WithDefaultName(WithDefaultName(u)) == WithDefaultName(u)
    ensures u.login.Some? && !IsBlank(u.login.value) ==> WithDefaultName(u).name.Some? && !IsBlank(WithDefaultName(u).name.value)
  {
  }

  /** The user-store update merge: each non-null field of `patch` replaces the stored one; id and friends are kept. */
  function PatchUser(stored: User, patch: User): (r: User)
    ensures r.id == stored.id && r.friends == stored.friends
    ensures r.email == (if patch.email.Some? then patch.email else stored.email)
    ensures r.login == (if patch.login.Some? then patch.login else stored.login)
    ensures r.name == (if patch.name.Some? then patch.name else stored.name)
    ensures r.birthday == (if patch.birthday.Some? then patch.birthday else stored.birthday)
  {
    var r := if patch.email.Some? then stored.(email := patch.email) else stored;
    var r := if patch.login.Some? then r.(login := patch.login) else r;
    var r := if patch.name.Some? then r.(name := patch.name) else r;
    if patch.birthday.Some? then r.(birthday := patch.birthday) else r
  }

  /** Applying the same patch twice is the same as applying it once, and an empty patch changes nothing. */
  lemma PatchUserIdempotent(stored: User, patch: User)
    ensures PatchUser(PatchUser(stored, patch), patch) == PatchUser(stored, patch)
    ensures PatchUser(stored, NewUser()) == stored
  {
  }

  /** One declarative constraint on a user's fields (the `@Email` format check is not modelled). */
  datatype UserConstraint =
    | UserIdPresent     // @Null on id, group OnCreate
    | UserIdMissing     // @NotNull on id, group OnUpdate
    | EmailBlank        // @NotBlank on email, group OnCreate
    | LoginBlank        // @NotBlank on login, group OnCreate
    | BirthdayInFuture  // @PastOrPresent on birthday, both groups

  /** The message a violated constraint reports; `None` where the annotation keeps the library's default message. */
  function UserConstraintMessage(c: UserConstraint): Option<string>
  {
    match c
    case UserIdPresent => None
    case UserIdMissing => Some("Id должен быть указан")
    case EmailBlank => Some("Электронная почта не может быть пустой")
    case LoginBlank => Some("Логин не может быть пустым и содержать пробелы")
    case BirthdayInFuture => Some("Дата рождения не может быть в будущем")
  }

  /** Some violated constraint reports the message `m`, which the controller tests look for. */
  ghost predicate ReportsUserMessage(vs: set<UserConstraint>, m: string)
  {
    exists c :: c in vs && UserConstraintMessage(c) == Some(m)
  }

  /** The constraints a user violates under group `g` on the day `today`. A null birthday passes @PastOrPresent. */
  function UserViolations(u: User, g: Group, today: Date): set<UserConstraint>
  {
    (if g == OnCreate && u.id.Some? then {UserIdPresent} else {})
    + (if g == OnUpdate && u.id.None? then {UserIdMissing} else {})
    + (if g == OnCreate && (u.email.None? || IsBlank(u.email.value)) then {EmailBlank} else {})
    + (if g == OnCreate && (u.login.None? || IsBlank(u.login.value)) then {LoginBlank} else {})
    + (if u.birthday.Some? && IsAfter(u.birthday.value, today) then {BirthdayInFuture} else {})
  }

  /** Which constraints belong to which group. */
  lemma UserGroupRules(u: User, today: Date)
    ensures UserIdPresent in UserViolations(u, OnCreate, today) <==> u.id.Some?
    ensures UserIdMissing in UserViolations(u, OnUpdate, today) <==> u.id.None?
    ensures UserIdPresent !in UserViolations(u, OnUpdate, today) && UserIdMissing !in UserViolations(u, OnCreate, today)
    ensures EmailBlank in UserViolations(u, OnCreate, today) <==> u.email.None? || IsBlank(u.email.value)
    ensures LoginBlank in UserViolations(u, OnCreate, today) <==> u.login.None? || IsBlank(u.login.value)
    ensures EmailBlank !in UserViolations(u, OnUpdate, today) && LoginBlank !in UserViolations(u, OnUpdate, today)
    ensures forall g :: BirthdayInFuture in UserViolations(u, g, today) <==> u.birthday.Some? && IsAfter(u.birthday.value, today)
  {
  }

  /** The user the controller tests start from. */
  function SampleUser(): User
  {
    User(None, Some("@Email"), Some("Login"), Some("Name"), Some(Date(2000, 10, 12)), {})
  }

  /** The controller tests' cases, on any day between the sample birthday and 11 October 2030: a blank email, a blank
      login, a birthday in 2030 and a missing id on update each produce the expected violation. */
  lemma UserTestCases(today: Date)
    requires !IsBefore(today, Date(2000, 10, 12)) && IsBefore(today, Date(2030, 10, 11))
    ensures UserViolations(SampleUser(), OnCreate, today) == {}
    ensures EmailBlank in UserViolations(SampleUser().(email := Some("  ")), OnCreate, today)
    ensures LoginBlank in UserViolations(SampleUser().(login := Some("   ")), OnCreate, today)
    ensures BirthdayInFuture in UserViolations(SampleUser().(birthday := Some(Date(2030, 10, 11))), OnCreate, today)
    ensures UserIdMissing in UserViolations(SampleUser(), OnUpdate, today)
    ensures ReportsUserMessage(UserViolations(SampleUser().(email := Some("  ")), OnCreate, today), "Электронная почта не может быть пустой")
    ensures ReportsUserMessage(UserViolations(SampleUser().(login := Some("   ")), OnCreate, today), "Логин не может быть пустым и содержать пробелы")
    ensures ReportsUserMessage(UserViolations(SampleUser().(birthday := Some(Date(2030, 10, 11))), OnCreate, today),
                               "Дата рождения не может быть в будущем")
    ensures ReportsUserMessage(UserViolations(SampleUser(), OnUpdate, today), "Id должен быть указан")
  {
    var u := SampleUser();
    assert !IsBlank("@Email") by { assert !IsWhitespace("@Email"[0]); }
    assert !IsBlank("Login") by { assert !IsWhitespace("Login"[0]); }
    assert IsBlank("  ") && IsBlank("   ");
    UserGroupRules(u, today);
    UserGroupRules(u.(email := Some("  ")), today);
    UserGroupRules(u.(login := Some("   ")), today);
    UserGroupRules(u.(birthday := Some(Date(2030, 10, 11))), today);
    assert UserConstraintMessage(EmailBlank) == Some("Электронная почта не может быть пустой");
    assert UserConstraintMessage(LoginBlank) == Some("Логин не может быть пустым и содержать пробелы");
    assert UserConstraintMessage(BirthdayInFuture) == Some("Дата рождения не может быть в будущем");
    assert UserConstraintMessage(UserIdMissing) == Some("Id должен быть указан");
  }
}
