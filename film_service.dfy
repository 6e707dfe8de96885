/** `FilmService`: likes and the top-films ranking, on top of the film and user stores. */
module FilmServices {
  import opened Wrappers
  import opened Errors
  import opened Films
  import opened Users
  import opened Collections
  import opened Ranking
  import opened FilmStorage
  import opened UserStorage

  /** Why a like or unlike is refused: the film is looked up first, then the user, each failing NotFound with its
      own id. */
  function LikeRefusal(filmIds: set<int>, userIds: set<int>, id: int, userId: int): (r: Option<Error>)
    ensures r.None? <==> id in filmIds && userId in userIds
    ensures id !in filmIds ==> r == Some(FilmNotFound(id))
    ensures id in filmIds && userId !in userIds ==> r == Some(UserNotFound(userId))
  {
    if id !in filmIds then Some(FilmNotFound(id))
    else if userId !in userIds then Some(UserNotFound(userId))
    else None
  }

  /** The refusal `addLike` raises as written: its missing-user message prints the film id. */
  function AddLikeRefusalAsWritten(filmIds: set<int>, userIds: set<int>, id: int, userId: int): (r: Option<Error>)
    ensures r.None? <==> id in filmIds && userId in userIds
    ensures id !in filmIds ==> r == Some(FilmNotFound(id))
    ensures id in filmIds && userId !in userIds ==> r == Some(UserNotFound(id))
  {
    if id !in filmIds then Some(FilmNotFound(id))
    else if userId !in userIds then Some(UserNotFound(id))
    else None
  }

  /** As written, `addLike` names the wrong user whenever the film exists, the user does not and the two ids
      differ; it agrees with `deleteLike`'s refusal in every other case. */
  lemma AddLikeMisnamesMissingUser(filmIds: set<int>, userIds: set<int>, id: int, userId: int)
    ensures AddLikeRefusalAsWritten(filmIds, userIds, id, userId) != LikeRefusal(filmIds, userIds, id, userId)
      <==> id in filmIds && userId !in userIds && id != userId
  {
    if id in filmIds && userId !in userIds && id != userId {
      if UserNotFound(id) == UserNotFound(userId) {
        UserNotFoundNamesId(id, userId);
      }
    }
  }

  class FilmService {
    const filmStorage: InMemoryFilmStorage
    const userStorage: InMemoryUserStorage

    constructor(filmStorage: InMemoryFilmStorage, userStorage: InMemoryUserStorage)
      ensures this.filmStorage == filmStorage && this.userStorage == userStorage
    {
      this.filmStorage := filmStorage;
      this.userStorage := userStorage;
    }

    /** `addLike`: after both lookups succeed, the user is among the film's likes; nothing else changes. The
        missing-user refusal names `userId`. */
    method AddLike(id: int, userId: int) returns (r: Outcome<Error>)
      requires filmStorage.Valid() && userStorage.Valid()
      modifies filmStorage
      ensures filmStorage.Valid()
      ensures r.Fail? <==> LikeRefusal(old(filmStorage.films).Keys, userStorage.users.Keys, id, userId).Some?
      ensures r.Fail? ==> Some(r.error) == LikeRefusal(old(filmStorage.films).Keys, userStorage.users.Keys, id, userId)
      ensures r.Fail? ==> filmStorage.films == old(filmStorage.films)
      ensures r.Pass? ==> filmStorage.films == old(filmStorage.films)[id := Like(old(filmStorage.films)[id], userId)]
    {
      var film := filmStorage.GetById(id);
      if film.None? {
        return Fail(FilmNotFound(id));
      }
      var user := userStorage.GetById(userId);
      if user.None? {
        return Fail(UserNotFound(userId));
      }
      filmStorage.films := filmStorage.films[id := Like(film.value, userId)];
      return Pass;
    }

    /** `deleteLike`: after both lookups succeed, the user is no longer among the film's likes. */
    method DeleteLike(id: int, userId: int) returns (r: Outcome<Error>)
      requires filmStorage.Valid() && userStorage.Valid()
      modifies filmStorage
      ensures filmStorage.Valid()
      ensures r.Fail? <==> LikeRefusal(old(filmStorage.films).Keys, userStorage.users.Keys, id, userId).Some?
      ensures r.Fail? ==> Some(r.error) == LikeRefusal(old(filmStorage.films).Keys, userStorage.users.Keys, id, userId)
      ensures r.Fail? ==> filmStorage.films == old(filmStorage.films)
      ensures r.Pass? ==> filmStorage.films == old(filmStorage.films)[id := Unlike(old(filmStorage.films)[id], userId)]
    {
      var film := filmStorage.GetById(id);
      if film.None? {
        return Fail(FilmNotFound(id));
      }
      var user := userStorage.GetById(userId);
      if user.None? {
        return Fail(UserNotFound(userId));
      }
      filmStorage.films := filmStorage.films[id := Unlike(film.value, userId)];
      return Pass;
    }

    /** `getTopFilms`: `count` of the stored films (all of them if there are fewer), distinct, most liked first,
        and none left out has more likes than one returned. */
    method GetTopFilms(count: nat) returns (r: seq<Film>)
      requires filmStorage.Valid()
      ensures |r| == Min(count, |filmStorage.films|)
      ensures ByLikes(r)
      ensures forall i :: 0 <= i < |r| ==> r[i].id.Some? && r[i].id.value in filmStorage.films && filmStorage.films[r[i].id.value] == r[i]
      ensures forall i, j :: 0 <= i < j < |r| ==> r[i] != r[j]
      ensures forall k, g :: k in filmStorage.films && filmStorage.films[k] !in r && g in r ==> Likes(filmStorage.films[k]) <= Likes(g)
    {
      var stored := filmStorage.GetAll();
      var all := Enumerate(stored);
      r := TopFilms(all, count);
      TopFilmsAreTheMostLiked(all, count);
      DistinctWhenBelowSet(r, stored);
      forall i | 0 <= i < |r| ensures r[i] in stored {
        assert r[i] in multiset(r);
      }
      forall k | k in filmStorage.films && filmStorage.films[k] !in r
        ensures filmStorage.films[k] in multiset(all) - multiset(r)
      {
        assert filmStorage.films[k] in multiset(all);
      }
    }
  }
}
