/** `UserService`: friendship between stored users, on top of the user store. */
module UserServices {
  import opened Wrappers
  import opened Errors
  import opened Users
  import opened Collections
  import opened SocialGraph
  import opened UserStorage
  import Emails

  /** `s` holds, once each, exactly the stored users whose ids are in `ids`. */
  ghost predicate ListsExactly(users: map<int, User>, ids: set<int>, s: seq<User>)
  {
    && |s| == |ids|
    && (forall i :: 0 <= i < |s| ==> s[i].id.Some? && s[i].id.value in ids && s[i].id.value in users && users[s[i].id.value] == s[i])
    && (forall k :: k in ids ==> k in users && users[k] in s)
    && (forall i, j :: 0 <= i < j < |s| ==> s[i] != s[j])
  }

  /** Appending the stored user of one more id keeps the listing exact. */
  lemma ListsExactlyExtend(users: map<int, User>, done: set<int>, acc: seq<User>, k: int)
    requires UserKeysMatchIds(users)
    requires ListsExactly(users, done, acc)
    requires k in users && k !in done
    ensures ListsExactly(users, done + {k}, acc + [users[k]])
  {
    var s := acc + [users[k]];
    forall i | 0 <= i < |s| ensures s[i].id.Some? && s[i].id.value in done + {k} && s[i].id.value in users && users[s[i].id.value] == s[i] {
      if i < |acc| { assert s[i] == acc[i]; }
    }
    forall i, j | 0 <= i < j < |s| ensures s[i] != s[j] {
      if j == |acc| { assert s[i] == acc[i] && acc[i].id.value in done; } else { assert s[i] == acc[i] && s[j] == acc[j]; }
    }
    forall m | m in done + {k} ensures m in users && users[m] in s {
      if m != k { assert users[m] in acc; }
    }
  }

  class UserService {
    const storage: InMemoryUserStorage

    constructor(storage: InMemoryUserStorage)
      ensures this.storage == storage
    {
      this.storage := storage;
    }

    /** `addFriends`: both users are looked up, `id` first, before either friend set is written; then each lists
        the other. */
    method AddFriends(id: int, friendId: int) returns (r: Outcome<Error>)
      requires storage.Valid()
      modifies storage
      ensures storage.Valid()
      ensures id !in old(storage.users) ==> r == Fail(UserNotFound(id))
      ensures id in old(storage.users) && friendId !in old(storage.users) ==> r == Fail(UserNotFound(friendId))
      ensures r.Fail? ==> storage.users == old(storage.users)
      ensures r.Pass? <==> id in old(storage.users) && friendId in old(storage.users)
      ensures r.Pass? ==> storage.users == Befriend(old(storage.users), id, friendId)
      ensures Symmetric(old(storage.users)) ==> Symmetric(storage.users)
    {
      var user := storage.GetById(id);
      if user.None? {
        return Fail(UserNotFound(id));
      }
      var friend := storage.GetById(friendId);
      if friend.None? {
        return Fail(UserNotFound(friendId));
      }
      BefriendKeepsIds(storage.users, id, friendId);
      ghost var before := storage.users;
      storage.users := Befriend(storage.users, id, friendId);
      if Symmetric(before) {
        BefriendPreservesSymmetry(before, id, friendId);
      }
      return Pass;
    }

    /** `deleteFriend`: the same lookups, then each stops listing the other. */
    method DeleteFriend(id: int, friendId: int) returns (r: Outcome<Error>)
      requires storage.Valid()
      modifies storage
      ensures storage.Valid()
      ensures id !in old(storage.users) ==> r == Fail(UserNotFound(id))
      ensures id in old(storage.users) && friendId !in old(storage.users) ==> r == Fail(UserNotFound(friendId))
      ensures r.Fail? ==> storage.users == old(storage.users)
      ensures r.Pass? <==> id in old(storage.users) && friendId in old(storage.users)
      ensures r.Pass? ==> storage.users == Unfriend(old(storage.users), id, friendId)
      ensures Symmetric(old(storage.users)) ==> Symmetric(storage.users)
    {
      var user := storage.GetById(id);
      if user.None? {
        return Fail(UserNotFound(id));
      }
      var friend := storage.GetById(friendId);
      if friend.None? {
        return Fail(UserNotFound(friendId));
      }
      BefriendKeepsIds(storage.users, id, friendId);
      ghost var before := storage.users;
      storage.users := Unfriend(storage.users, id, friendId);
      if Symmetric(before) {
        UnfriendPreservesSymmetry(before, id, friendId);
      }
      return Pass;
    }

    /** Looks every id up, in an unspecified order, failing on the first that no longer resolves. */
    method ResolveAll(ids: set<int>) returns (r: Result<seq<User>, Error>)
      requires storage.Valid()
      ensures r.Ok? <==> ids <= storage.users.Keys
      ensures r.Ok? ==> ListsExactly(storage.users, ids, r.value)
      ensures r.Err? ==> exists k :: k in ids && k !in storage.users && r.error == UserNotFound(k)
    {
      var rest := ids;
      var acc: seq<User> := [];
      while rest != {}
        invariant rest <= ids
        invariant ids - rest <= storage.users.Keys
        invariant ListsExactly(storage.users, ids - rest, acc)
        decreases rest
      {
        ghost var w := Element(rest);  // a witness for the solver, so that the choice below is known to exist
        var k :| k in rest;
        var u := storage.GetById(k);
        if u.None? {
          return Err(UserNotFound(k));
        }
        ListsExactlyExtend(storage.users, ids - rest, acc, k);
        assert ids - (rest - {k}) == (ids - rest) + {k};
        acc := acc + [u.value];
        rest := rest - {k};
      }
      assert ids - rest == ids;
      return Ok(acc);
    }

    /** `getFriends`: the user's friends, failing NotFound on the user itself or on any friend id that is stale. */
    method GetFriends(id: int) returns (r: Result<seq<User>, Error>)
      requires storage.Valid()
      ensures id !in storage.users ==> r == Err(UserNotFound(id))
      ensures id in storage.users ==> (r.Ok? <==> storage.users[id].friends <= storage.users.Keys)
      ensures r.Ok? ==> id in storage.users && ListsExactly(storage.users, storage.users[id].friends, r.value)
      ensures r.Err? && id in storage.users ==>
        exists k :: k in storage.users[id].friends && k !in storage.users && r.error == UserNotFound(k)
    {
      var user := storage.GetById(id);
      if user.None? {
        return Err(UserNotFound(id));
      }
      r := ResolveAll(user.value.friends);
    }

    /** `getCommonFriends`: the users both list, computed on a copy so neither friend set changes. */
    method GetCommonFriends(id: int, otherId: int) returns (r: Result<seq<User>, Error>)
      requires storage.Valid()
      ensures id !in storage.users ==> r == Err(UserNotFound(id))
      ensures id in storage.users && otherId !in storage.users ==> r == Err(UserNotFound(otherId))
      ensures r.Ok? ==> id in storage.users && otherId in storage.users
      ensures r.Ok? ==> ListsExactly(storage.users, storage.users[id].friends * storage.users[otherId].friends, r.value)
      ensures id in storage.users && otherId in storage.users ==>
        (r.Ok? <==> storage.users[id].friends * storage.users[otherId].friends <= storage.users.Keys)
      ensures r.Err? && id in storage.users && otherId in storage.users ==>
        exists k :: k in storage.users[id].friends * storage.users[otherId].friends && k !in storage.users && r.error == UserNotFound(k)
    {
      var user := storage.GetById(id);
      if user.None? {
        return Err(UserNotFound(id));
      }
      var other := storage.GetById(otherId);
      if other.None? {
        return Err(UserNotFound(otherId));
      }
      var common := user.value.friends * other.value.friends;
      r := ResolveAll(common);
    }
  }

  /** A fresh store after creating `a` and then `b`: they hold ids 1 and 2, with no friends yet. */
  method StoreOfTwo(a: User, b: User) returns (store: InMemoryUserStorage)
    requires a.email.Some? && a.email != b.email && a.friends == {} && b.friends == {}
    ensures fresh(store) && store.Valid()
    ensures store.users.Keys == {1, 2}
    ensures store.users[1].friends == {} && store.users[2].friends == {}
  {
    store := new InMemoryUserStorage();
    var x := store.Create(a);
    assert x.Ok? && store.users.Keys == {1};
    assert !Emails.HasNullEmail(store.users) && !Emails.EmailHeldByOther(store.users, b.email, None);
    var y := store.Create(b);
    assert y.Ok? && store.users.Keys == {1, 2} by {
      assert y.value.id.value - 1 in {1};
    }
  }

  /** Two fresh users befriended: each one's friend list is exactly the other. */
  method FriendsOfNewlyBefriended(a: User, b: User) returns (friendsOfA: seq<User>, friendsOfB: seq<User>)
    requires a.email.Some? && a.email != b.email && a.friends == {} && b.friends == {}
    ensures |friendsOfA| == 1 && friendsOfA[0].id == Some(2)
    ensures |friendsOfB| == 1 && friendsOfB[0].id == Some(1)
  {
    var store := StoreOfTwo(a, b);
    var service := new UserService(store);
    var added := service.AddFriends(1, 2);
    assert store.users[1].friends == {2} && store.users[2].friends == {1};
    var r1 := service.GetFriends(1);
    var r2 := service.GetFriends(2);
    friendsOfA, friendsOfB := r1.value, r2.value;
  }
}
