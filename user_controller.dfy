/** The store built into `UserController`, which the controller tests drive directly (request-body validation is
    applied by the web framework before these methods run, and is not part of them). */
module UserControllers {
  import opened Wrappers
  import opened Errors
  import opened Users
  import opened Emails
  import opened UserStorage
  import Text
  import Ids

  /** The controller's update merge. Unlike the user store's, it writes the incoming email, null included, whenever
      the stored email is non-null, and never writes one over a stored null email. */
  function ControllerPatch(stored: User, patch: User): (r: User)
    ensures r.email == (if stored.email.Some? then patch.email else None)
    ensures r == PatchUser(stored, patch).(email := r.email)
  {
    var r := if stored.email.Some? then stored.(email := patch.email) else stored;
    var r := if patch.login.Some? then r.(login := patch.login) else r;
    var r := if patch.name.Some? then r.(name := patch.name) else r;
    if patch.birthday.Some? then r.(birthday := patch.birthday) else r
  }

  /** Where the two merges part: they agree when both emails are present; with a null incoming email the controller
      clears the stored one while the store keeps it; over a stored null email the store writes the incoming
      email while the controller does not. */
  lemma ControllerPatchVersusStore(stored: User, patch: User)
    ensures stored.email.Some? && patch.email.Some? ==> ControllerPatch(stored, patch) == PatchUser(stored, patch)
    ensures stored.email.Some? && patch.email.None? ==> ControllerPatch(stored, patch).email.None? && PatchUser(stored, patch).email == stored.email
    ensures stored.email.None? && patch.email.Some? ==> ControllerPatch(stored, patch).email.None? && PatchUser(stored, patch).email == patch.email
  {
  }

  class UserController {
    var users: map<int, User>

    /** Every user is stored under its own id. */
    ghost predicate Valid()
      reads this
    {
      UserKeysMatchIds(users)
    }

    constructor()
      ensures Valid() && users == map[]
    {
      users := map[];
    }

    /** `getAll`: the stored users, one per stored id. */
    function GetAll(): (all: set<User>)
      requires Valid()
      reads this
      ensures forall k :: k in users ==> users[k] in all
      ensures forall u :: u in all ==> u.id.Some? && u.id.value in users && users[u.id.value] == u
      ensures |all| == |users|
    {
      Ids.InjectiveValuesCount(users);
      users.Values
    }

    /** `create`: the same steps as the user store's create. */
    method Create(u: User) returns (r: Result<User, Error>)
      requires Valid()
      modifies this
      ensures Valid()
      ensures r.Ok? <==> !HasNullEmail(old(users)) && !EmailHeldByOther(old(users), u.email, None)
      ensures r.Err? ==> users == old(users)
      ensures r.Err? && r.error == EmailInUseOnCreate ==> EmailHeldByOther(old(users), u.email, None)
      ensures r.Err? && r.error != EmailInUseOnCreate ==> r.error == NullDereference && HasNullEmail(old(users))
      ensures r.Ok? ==> r.value == Created(u, old(users).Keys) && users == old(users)[r.value.id.value := r.value]
      ensures r.Ok? ==> forall k :: k in old(users) ==> k < r.value.id.value
      ensures UniqueEmails(old(users)) ==> UniqueEmails(users)
    {
      var scan := ScanEmails(users, u.email, None);
      if scan == Hit {
        return Err(EmailInUseOnCreate);
      } else if scan == Crash {
        return Err(NullDereference);
      }
      var created := Created(u, users.Keys);
      if UniqueEmails(users) {
        UniqueAfterWrite(users, created.id.value, created);
      }
      users := users[created.id.value := created];
      return Ok(created);
    }

    /** `update`: an id that is null or not stored is refused; when the stored email is non-null the incoming email
        is scanned for (a null one matches nobody) and then written; login, name and birthday are written when
        non-null. */
    method Update(u: User) returns (r: Result<User, Error>)
      requires Valid()
      modifies this
      ensures Valid()
      ensures u.id.None? || u.id.value !in old(users) ==> r == Err(UserNotFoundOnUpdate(u.id))
      ensures r.Err? ==> users == old(users)
      ensures r.Err? && u.id.Some? && u.id.value in old(users) ==>
        old(users)[u.id.value].email.Some? && ((r.error == EmailInUseOnUpdate && EmailHeldByOther(old(users), u.email, u.id))
        || (r.error == NullDereference && HasNullEmail(old(users))))
      ensures r.Ok? <==> u.id.Some? && u.id.value in old(users)
                         && (old(users)[u.id.value].email.None? || (!HasNullEmail(old(users)) && !EmailHeldByOther(old(users), u.email, u.id)))
      ensures r.Ok? ==> r.value == ControllerPatch(old(users)[u.id.value], u) && users == old(users)[u.id.value := r.value]
      ensures UniqueEmails(old(users)) ==> UniqueEmails(users)
    {
      if u.id.None? || u.id.value !in users {
        return Err(UserNotFoundOnUpdate(u.id));
      }
      var id := u.id.value;
      if users[id].email.Some? {
        var scan := ScanEmails(users, u.email, u.id);
        if scan == Hit {
          return Err(EmailInUseOnUpdate);
        } else if scan == Crash {
          return Err(NullDereference);
        }
      }
      var updated := ControllerPatch(users[id], u);
      if UniqueEmails(users) {
        UniqueAfterWrite(users, id, updated);
      }
      users := users[id := updated];
      return Ok(updated);
    }
  }

  /** Two creates with different emails on a fresh controller leave two users in `getAll`. */
  method GetAllAfterTwoCreates(a: User, b: User) returns (n: nat)
    requires a.email.Some? && a.email != b.email
    ensures n == 2
  {
    var c := new UserController();
    var x := c.Create(a);
    assert x.Ok? && c.users.Keys == {1};
    assert !HasNullEmail(c.users) && !EmailHeldByOther(c.users, b.email, None);
    var y := c.Create(b);
    assert y.Ok? && c.users.Keys == {1, 2} by {
      assert y.value.id.value - 1 in {1};
    }
    n := |c.GetAll()|;
  }

  /** A second user with an email already taken is refused with "Эта электронная почта уже используется". */
  method SecondCreateWithSameEmail(a: User, b: User) returns (r: Result<User, Error>)
    requires a.email.Some? && b.email == a.email
    ensures r == Err(EmailInUseOnCreate)
  {
    var c := new UserController();
    var x := c.Create(a);
    assert x.Ok? && c.users == map[1 := x.value];
    assert !HasNullEmail(c.users) && EmailHeldByOther(c.users, b.email, None);
    r := c.Create(b);
  }

  /** A user created with a blank name is stored, and returned, with its login as name. */
  method CreateWithBlankName(a: User) returns (r: Result<User, Error>)
    requires a.name.Some? && Text.IsBlank(a.name.value)
    ensures r.Ok? && r.value.name == a.login
  {
    var c := new UserController();
    r := c.Create(a);
  }

  /** Updating an id nobody holds is refused with "Пользователь с id = 100 не найден". */
  method UpdateUnknownId(u: User) returns (r: Result<User, Error>)
    requires u.id == Some(100)
    ensures r == Err(UserNotFoundOnUpdate(Some(100)))
  {
    var c := new UserController();
    r := c.Update(u);
  }

  /** An update that carries only the id clears the stored email, after which no user can be created at all: every
      later create scans the stored null email and fails, or fails on a duplicate found before it. */
  method IdOnlyUpdateBlocksCreate(a: User, b: User) returns (r: Result<User, Error>)
    requires a.email.Some?
    ensures r.Err?
  {
    var c := new UserController();
    var x := c.Create(a);
    assert x.Ok? && c.users.Keys == {1};
    assert !HasNullEmail(c.users);
    var y := c.Update(NewUser().(id := Some(1)));
    assert y.Ok? && c.users[1].email.None?;
    r := c.Create(b);
  }
}
