/** `InMemoryUserStorage`: users kept in a map from id to user. */
module UserStorage {
  import opened Wrappers
  import opened Errors
  import opened Users
  import opened Ids
  import opened Emails

  /** What a successful create stores: the user with its name defaulted and the next id assigned. */
  function Created(u: User, keys: set<int>): (r: User)
    ensures r.id == Some(NextId(keys)) && r.id.value !in keys
    ensures r.email == u.email && r.login == u.login && r.birthday == u.birthday && r.friends == u.friends
    ensures r.name == WithDefaultName(u).name
  {
    WithDefaultName(u).(id := Some(NextId(keys)))
  }

  class InMemoryUserStorage {
    var users: map<int, User>

    /** Every user is stored under its own id. */
    ghost predicate Valid()
      reads this
    {
      UserKeysMatchIds(users)
    }

    constructor()
      ensures Valid() && users == map[]
    {
      users := map[];
    }

    /** `getAll`: the stored users as a set, one per stored id. */
    function GetAll(): (all: set<User>)
      requires Valid()
      reads this
      ensures forall k :: k in users ==> users[k] in all
      ensures forall u :: u in all ==> u.id.Some? && u.id.value in users && users[u.id.value] == u
      ensures |all| == |users|
    {
      InjectiveValuesCount(users);
      users.Values
    }

    /** `getById` in the `Optional` shape of the storage interface. */
    function GetById(id: int): (r: Option<User>)
      requires Valid()
      reads this
      ensures r.Some? <==> id in users
      ensures r.Some? ==> r.value == users[id] && r.value.id == Some(id)
    {
      if id in users then Some(users[id]) else None
    }

    /** `create`: refuses an email some stored user already has (or crashes on a stored null email met first);
        otherwise stores the user under the next id, with a null or blank name replaced by the login. */
    method Create(u: User) returns (r: Result<User, Error>)
      requires Valid()
      modifies this
      ensures Valid()
      ensures r.Ok? <==> !HasNullEmail(old(users)) && !EmailHeldByOther(old(users), u.email, None)
      ensures r.Err? ==> users == old(users)
      ensures r.Err? && r.error == EmailInUseOnCreate ==> EmailHeldByOther(old(users), u.email, None)
      ensures r.Err? && r.error != EmailInUseOnCreate ==> r.error == NullDereference && HasNullEmail(old(users))
      ensures r.Ok? ==> r.value == Created(u, old(users).Keys) && users == old(users)[r.value.id.value := r.value]
      ensures r.Ok? ==> forall k :: k in old(users) ==> k < r.value.id.value
      ensures UniqueEmails(old(users)) ==> UniqueEmails(users)
    {
      var scan := ScanEmails(users, u.email, None);
      if scan == Hit {
        return Err(EmailInUseOnCreate);
      } else if scan == Crash {
        return Err(NullDereference);
      }
      var created := Created(u, users.Keys);
      if UniqueEmails(users) {
        UniqueAfterWrite(users, created.id.value, created);
      }
      users := users[created.id.value := created];
      return Ok(created);
    }

    /** `update`: an id that is null or not stored is refused; a non-null email held by another user is refused
        before anything is written; otherwise each non-null field overwrites the stored one. */
    method Update(u: User) returns (r: Result<User, Error>)
      requires Valid()
      modifies this
      ensures Valid()
      ensures u.id.None? || u.id.value !in old(users) ==> r == Err(UserNotFoundOnUpdate(u.id))
      ensures r.Err? ==> users == old(users)
      ensures r.Err? && u.id.Some? && u.id.value in old(users) ==>
        u.email.Some? && ((r.error == EmailInUseOnUpdate && EmailHeldByOther(old(users), u.email, u.id))
        || (r.error == NullDereference && HasNullEmail(old(users))))
      ensures r.Ok? <==> u.id.Some? && u.id.value in old(users)
                         && (u.email.None? || (!HasNullEmail(old(users)) && !EmailHeldByOther(old(users), u.email, u.id)))
      ensures r.Ok? ==> r.value == PatchUser(old(users)[u.id.value], u) && users == old(users)[u.id.value := r.value]
      ensures UniqueEmails(old(users)) ==> UniqueEmails(users)
    {
      if u.id.None? || u.id.value !in users {
        return Err(UserNotFoundOnUpdate(u.id));
      }
      var id := u.id.value;
      if u.email.Some? {
        var scan := ScanEmails(users, u.email, u.id);
        if scan == Hit {
          return Err(EmailInUseOnUpdate);
        } else if scan == Crash {
          return Err(NullDereference);
        }
      }
      var updated := PatchUser(users[id], u);
      if UniqueEmails(users) {
        if u.email.None? {
          OwnEmailNotHeldByOther(users, id);
        }
        UniqueAfterWrite(users, id, updated);
      }
      users := users[id := updated];
      return Ok(updated);
    }

    /** `delete`: an absent id is refused; otherwise exactly that entry goes. Friend sets that mention it are kept. */
    method Delete(id: int) returns (r: Outcome<Error>)
      requires Valid()
      modifies this
      ensures Valid()
      ensures id !in old(users) ==> r == Fail(UserNotFound(id)) && users == old(users)
      ensures id in old(users) ==> r == Pass && users == old(users) - {id}
      ensures UniqueEmails(old(users)) ==> UniqueEmails(users)
    {
      if id !in users {
        return Fail(UserNotFound(id));
      }
      users := users - {id};
      return Pass;
    }
  }

  /** The store's update keeps every stored email present: a null incoming email leaves the stored one alone. */
  lemma UpdateKeepsEmailsPresent(users: map<int, User>, id: int, patch: User)
    requires !HasNullEmail(users) && id in users
    ensures !HasNullEmail(users[id := PatchUser(users[id], patch)])
  {
    var m := users[id := PatchUser(users[id], patch)];
    forall k | k in m ensures m[k].email.Some? {
      assert users[k].email.Some?;
    }
  }

  /** With the store, an update carrying only the id changes nothing, and a user with another email can still be
      created afterwards. */
  method IdOnlyUpdateKeepsCreateOpen(a: User, b: User) returns (r: Result<User, Error>)
    requires a.email.Some? && b.email != a.email
    ensures r.Ok? && r.value.id == Some(2)
  {
    var s := new InMemoryUserStorage();
    var x := s.Create(a);
    assert x.Ok? && s.users.Keys == {1};
    var y := s.Update(NewUser().(id := Some(1)));
    assert y.Ok? && s.users == map[1 := x.value];
    assert !HasNullEmail(s.users) && !EmailHeldByOther(s.users, b.email, None);
    r := s.Create(b);
    assert r.value.id.value - 1 in {1};
  }
}
