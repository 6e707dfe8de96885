/** Friendship as it is written into the stored users' friend sets. */
module SocialGraph {
  import opened Users
  import opened Ids

  /** Each stored user lists every stored user that lists it. Ids of users no longer stored are outside it. */
  ghost predicate Symmetric(users: map<int, User>)
  {
    forall x, y :: x in users && y in users ==> (y in users[x].friends <==> x in users[y].friends)
  }

  /** `user.getFriends().add(friendId); friend.getFriends().add(id)`, one write after the other (the same set twice
      when `a == b`). Only the two friend sets change. */
  function Befriend(users: map<int, User>, a: int, b: int): (r: map<int, User>)
    requires a in users && b in users
    ensures r.Keys == users.Keys
    ensures forall k :: k in r ==> r[k] == users[k].(friends := r[k].friends)
    ensures forall k :: k in r ==> r[k].friends == users[k].friends + (if k == a then {b} else {}) + (if k == b then {a} else {})
  {
    var m := users[a := users[a].(friends := users[a].friends + {b})];
    m[b := m[b].(friends := m[b].friends + {a})]
  }

  /** `user.getFriends().remove(friendId); friend.getFriends().remove(id)`. Only the two friend sets change. */
  function Unfriend(users: map<int, User>, a: int, b: int): (r: map<int, User>)
    requires a in users && b in users
    ensures r.Keys == users.Keys
    ensures forall k :: k in r ==> r[k] == users[k].(friends := r[k].friends)
    ensures forall k :: k in r ==> r[k].friends == users[k].friends - (if k == a then {b} else {}) - (if k == b then {a} else {})
  {
    var m := users[a := users[a].(friends := users[a].friends - {b})];
    m[b := m[b].(friends := m[b].friends - {a})]
  }

  /** After befriending, each lists the other; after unfriending, neither does. */
  lemma EdgeWritten(users: map<int, User>, a: int, b: int)
    requires a in users && b in users
    ensures b in Befriend(users, a, b)[a].friends && a in Befriend(users, a, b)[b].friends
    ensures b !in Unfriend(users, a, b)[a].friends && a !in Unfriend(users, a, b)[b].friends
  {
  }

  /** Befriending twice is befriending once; befriending users that already list each other changes nothing. */
  lemma {:induction false} BefriendIdempotent(users: map<int, User>, a: int, b: int)
    requires a in users && b in users
    ensures Befriend(Befriend(users, a, b), a, b) == Befriend(users, a, b)
    ensures b in users[a].friends && a in users[b].friends ==> Befriend(users, a, b) == users
  {
    var once := Befriend(users, a, b);
    var twice := Befriend(once, a, b);
    assert twice.Keys == once.Keys;
    forall k | k in twice ensures twice[k] == once[k] {
      assert twice[k].friends == once[k].friends;
    }
    if b in users[a].friends && a in users[b].friends {
      forall k | k in once ensures once[k] == users[k] {
        assert once[k].friends == users[k].friends;
      }
    }
  }

  /** Unfriending users that do not list each other changes nothing. */
  lemma {:induction false} UnfriendNoOp(users: map<int, User>, a: int, b: int)
    requires a in users && b in users
    requires b !in users[a].friends && a !in users[b].friends
    ensures Unfriend(users, a, b) == users
  {
    var r := Unfriend(users, a, b);
    forall k | k in r ensures r[k] == users[k] {
      assert r[k].friends == users[k].friends;
    }
  }

  /** Both operations keep friendship symmetric. */
  lemma {:induction false} BefriendPreservesSymmetry(users: map<int, User>, a: int, b: int)
    requires a in users && b in users && Symmetric(users)
    ensures Symmetric(Befriend(users, a, b))
  {
    var r := Befriend(users, a, b);
    forall x, y | x in r && y in r ensures y in r[x].friends <==> x in r[y].friends {
      assert r[x].friends == users[x].friends + (if x == a then {b} else {}) + (if x == b then {a} else {});
      assert r[y].friends == users[y].friends + (if y == a then {b} else {}) + (if y == b then {a} else {});
    }
  }

  lemma {:induction false} UnfriendPreservesSymmetry(users: map<int, User>, a: int, b: int)
    requires a in users && b in users && Symmetric(users)
    ensures Symmetric(Unfriend(users, a, b))
  {
    var r := Unfriend(users, a, b);
    forall x, y | x in r && y in r ensures y in r[x].friends <==> x in r[y].friends {
      assert r[x].friends == users[x].friends - (if x == a then {b} else {}) - (if x == b then {a} else {});
      assert r[y].friends == users[y].friends - (if y == a then {b} else {}) - (if y == b then {a} else {});
    }
  }

  /** Both operations keep every user stored under its own id. */
  lemma BefriendKeepsIds(users: map<int, User>, a: int, b: int)
    requires a in users && b in users && UserKeysMatchIds(users)
    ensures UserKeysMatchIds(Befriend(users, a, b)) && UserKeysMatchIds(Unfriend(users, a, b))
  {
  }

  /** Deleting a user keeps symmetry among the remaining users but leaves its id in its friends' sets, where it no
      longer resolves. */
  lemma DeleteLeavesStaleFriend(users: map<int, User>, a: int, b: int)
    requires Symmetric(users) && a in users && b in users && a != b && b in users[a].friends
    ensures Symmetric(users - {b})
    ensures b in (users - {b})[a].friends && b !in (users - {b})
  {
  }

  /** The stale id can be handed out again: with users 1 and 2 befriended, deleting 2 makes the next user 2, who
      then counts as user 1's friend without ever having been befriended. */
  lemma StaleFriendReassigned(u1: User, u2: User)
    requires u1.friends == {2} && u2.friends == {1}
    ensures var after := map[1 := u1, 2 := u2] - {2}; NextId(after.Keys) == 2 && 2 in after[1].friends
  {
    var after := map[1 := u1, 2 := u2] - {2};
    assert after.Keys == {1};
    assert NextId({1}) - 1 in {1};
  }
}
