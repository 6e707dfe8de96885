/** The email-uniqueness scan the user stores run before writing: `users.values().stream().anyMatch(..)`,
    which calls `getEmail().equals(..)` on each stored user in the map's iteration order. */
module Emails {
  import opened Wrappers
  import opened Users
  import opened Collections

  /** Some stored user has a null email: the scan dereferences null if it reaches that user first. */
  ghost predicate HasNullEmail(users: map<int, User>)
  {
    exists k :: k in users && users[k].email.None?
  }

  /** A stored user whose id differs from `self` holds exactly `email`; `equals(null)` is false, so a null `email`
      is held by nobody, and a null `self` differs from every stored id. */
  ghost predicate EmailHeldByOther(users: map<int, User>, email: Option<string>, self: Option<int>)
  {
    exists k :: k in users && users[k].email.Some? && users[k].email == email && Some(k) != self
  }

  /** No two stored users hold the same non-null email. */
  ghost predicate UniqueEmails(users: map<int, User>)
  {
    forall a, b :: a in users && b in users && a != b && users[a].email.Some? ==> users[a].email != users[b].email
  }

  /** Under unique emails, a stored user's own email is held by nobody else. */
  lemma OwnEmailNotHeldByOther(users: map<int, User>, k: int)
    requires UniqueEmails(users) && k in users
    ensures !EmailHeldByOther(users, users[k].email, Some(k))
  {
    forall j | j in users && users[j].email.Some? && Some(j) != Some(k) ensures users[j].email != users[k].email {
      assert j != k;
    }
  }

  /** Writing a user whose email nobody else holds keeps emails unique. */
  lemma UniqueAfterWrite(users: map<int, User>, k: int, v: User)
    requires UniqueEmails(users)
    requires v.email.None? || !EmailHeldByOther(users, v.email, Some(k))
    ensures UniqueEmails(users[k := v])
  {
    var m := users[k := v];
    forall a, b | a in m && b in m && a != b && m[a].email.Some? ensures m[a].email != m[b].email {
      if a == k {
        assert b in users && Some(b) != Some(k);
      } else if b == k {
        assert a in users && Some(a) != Some(k);
      }
    }
  }

  /** How the short-circuiting scan ends: it found a match, ran through every user, or hit a null email. */
  datatype Scan = Hit | Miss | Crash

  /** The scan, visiting stored users in an unspecified order. It runs through everything exactly when no user has
      a null email and nobody else holds `email`; when both a match and a null email are present, either may be
      reached first. */
  method ScanEmails(users: map<int, User>, email: Option<string>, self: Option<int>) returns (r: Scan)
    ensures r == Miss <==> !HasNullEmail(users) && !EmailHeldByOther(users, email, self)
    ensures r == Hit ==> EmailHeldByOther(users, email, self)
    ensures r == Crash ==> HasNullEmail(users)
  {
    var rest := users.Keys;
    while rest != {}
      invariant rest <= users.Keys
      invariant forall k :: k in users && k !in rest ==> users[k].email.Some?
      invariant forall k :: k in users && k !in rest ==> !(users[k].email == email && Some(k) != self)
      decreases rest
    {
      ghost var w := Element(rest);  // a witness for the solver, so that the choice below is known to exist
      var k :| k in rest;
      match users[k].email {
        case None =>
          return Crash;
        case Some(e) =>
          if Some(e) == email && Some(k) != self {
            return Hit;
          }
      }
      rest := rest - {k};
    }
    return Miss;
  }
}
