/** Likes on films, and the by-likes ranking behind `getTopFilms`. */
module Ranking {
  import opened Films

  /** `film.getLikes().add(userId)`: only the likes change. */
  function Like(f: Film, userId: int): (r: Film)
    ensures r == f.(likes := r.likes)
    ensures userId in r.likes && r.likes - {userId} == f.likes - {userId}
  {
    f.(likes := f.likes + {userId})
  }

  /** `film.getLikes().remove(userId)`: only the likes change. */
  function Unlike(f: Film, userId: int): (r: Film)
    ensures r == f.(likes := r.likes)
    ensures userId !in r.likes && r.likes + {userId} == f.likes + {userId}
  {
    f.(likes := f.likes - {userId})
  }

  /** Liking twice is liking once, and liking again changes nothing; unliking a user who never liked changes
      nothing. */
  lemma LikeIdempotent(f: Film, userId: int)
    ensures Like(Like(f, userId), userId) == Like(f, userId)
    ensures userId in f.likes ==> Like(f, userId) == f
    ensures userId !in f.likes ==> Unlike(f, userId) == f && Unlike(Like(f, userId), userId) == f
  {
  }

  /** The number of likes a film is ranked by. */
  function Likes(f: Film): nat
  {
    |f.likes|
  }

  /** Ordered from most to fewest likes. */
  ghost predicate ByLikes(s: seq<Film>)
  {
    forall i, j :: 0 <= i < j < |s| ==> Likes(s[i]) >= Likes(s[j])
  }

  /** Places `f` into a ranking, ahead of every film with as many likes or fewer. */
  function Insert(f: Film, s: seq<Film>): (r: seq<Film>)
    ensures |r| == |s| + 1
    ensures multiset(r) == multiset(s) + multiset{f}
  {
    if s == [] || Likes(s[0]) <= Likes(f) then
      [f] + s
    else
      assert s == [s[0]] + s[1..];
      [s[0]] + Insert(f, s[1..])
  }

  /** A ranking's head has at least as many likes as anything after it. */
  lemma HeadIsMostLiked(s: seq<Film>)
    requires ByLikes(s) && s != []
    ensures forall x :: x in s[1..] ==> Likes(x) <= Likes(s[0])
  {
    forall x | x in s[1..] ensures Likes(x) <= Likes(s[0]) {
      var k :| 0 <= k < |s[1..]| && s[1..][k] == x;
      assert s[k + 1] == x;
    }
  }

  /** A film with at least as many likes as every film of a ranking can head it. */
  lemma ConsKeepsOrder(h: Film, t: seq<Film>)
    requires ByLikes(t)
    requires forall x :: x in t ==> Likes(x) <= Likes(h)
    ensures ByLikes([h] + t)
  {
    var r := [h] + t;
    forall i, j | 0 <= i < j < |r| ensures Likes(r[i]) >= Likes(r[j]) {
      assert r[j] == t[j - 1];
      if i > 0 {
        assert r[i] == t[i - 1];
      }
    }
  }

  /** Inserting into a ranking gives a ranking. */
  lemma {:induction false} InsertKeepsOrder(f: Film, s: seq<Film>)
    requires ByLikes(s)
    ensures ByLikes(Insert(f, s))
  {
    if s != [] && Likes(s[0]) > Likes(f) {
      var rest := Insert(f, s[1..]);
      InsertKeepsOrder(f, s[1..]);
      HeadIsMostLiked(s);
      assert Insert(f, s) == [s[0]] + rest;
      forall x | x in rest ensures Likes(x) <= Likes(s[0]) {
        assert x in multiset(rest);
      }
      ConsKeepsOrder(s[0], rest);
    }
  }

  /** `sorted` with the comparator `Integer.compare(f2.getLikes().size(), f1.getLikes().size())`: most likes first. */
  function SortByLikes(s: seq<Film>): (r: seq<Film>)
    ensures |r| == |s|
    ensures multiset(r) == multiset(s)
    ensures ByLikes(r)
  {
    if s == [] then [] else
      assert s == [s[0]] + s[1..];
      var rest := SortByLikes(s[1..]);
      InsertKeepsOrder(s[0], rest);
      Insert(s[0], rest)
  }

  function Min(a: nat, b: nat): nat
  {
    if a <= b then a else b
  }

  /** `sorted(..).limit(count)`: the first `count` films of the ranking. */
  function TopFilms(all: seq<Film>, count: nat): (r: seq<Film>)
    ensures |r| == Min(count, |all|)
    ensures ByLikes(r)
    ensures multiset(r) <= multiset(all)
  {
    var sorted := SortByLikes(all);
    var n := Min(count, |all|);
    assert sorted == sorted[..n] + sorted[n..];
    sorted[..n]
  }

  /** In a ranking, everything after position `n` has no more likes than anything before it. */
  lemma TailBelowHead(s: seq<Film>, n: nat)
    requires ByLikes(s) && n <= |s|
    ensures forall f, g :: f in multiset(s[n..]) && g in s[..n] ==> Likes(f) <= Likes(g)
  {
    forall f, g | f in multiset(s[n..]) && g in s[..n] ensures Likes(f) <= Likes(g) {
      var i :| 0 <= i < |s[n..]| && s[n..][i] == f;
      var j :| 0 <= j < n && s[..n][j] == g;
      assert s[n + i] == f && s[j] == g;
    }
  }

  /** Cutting a sequence at `n`: what the front does not account for is the back. */
  lemma MultisetSplit(s: seq<Film>, n: nat)
    requires n <= |s|
    ensures multiset(s) - multiset(s[..n]) == multiset(s[n..])
  {
    assert s == s[..n] + s[n..];
  }

  /** Top-k: every film left out has no more likes than any film returned. */
  lemma TopFilmsAreTheMostLiked(all: seq<Film>, count: nat)
    ensures forall f, g :: f in multiset(all) - multiset(TopFilms(all, count)) && g in TopFilms(all, count) ==> Likes(f) <= Likes(g)
  {
    var sorted := SortByLikes(all);
    var n := Min(count, |all|);
    var top := TopFilms(all, count);
    assert top == sorted[..n];
    MultisetSplit(sorted, n);
    assert multiset(all) - multiset(top) == multiset(sorted[n..]);
    TailBelowHead(sorted, n);
  }
}
