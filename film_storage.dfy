/** `InMemoryFilmStorage`: films kept in a map from id to film. */
module FilmStorage {
  import opened Wrappers
  import opened Errors
  import opened Films
  import opened Ids

  class InMemoryFilmStorage {
    var films: map<int, Film>

    /** Every film is stored under its own id. */
    ghost predicate Valid()
      reads this
    {
      FilmKeysMatchIds(films)
    }

    constructor()
      ensures Valid() && films == map[]
    {
      films := map[];
    }

    /** `getAll`: the stored films as a set, one per stored id. */
    function GetAll(): (all: set<Film>)
      requires Valid()
      reads this
      ensures forall k :: k in films ==> films[k] in all
      ensures forall f :: f in all ==> f.id.Some? && f.id.value in films && films[f.id.value] == f
      ensures |all| == |films|
    {
      InjectiveValuesCount(films);
      films.Values
    }

    /** `getById` in the `Optional` shape of the storage interface. */
    function GetById(id: int): (r: Option<Film>)
      requires Valid()
      reads this
      ensures r.Some? <==> id in films
      ensures r.Some? ==> r.value == films[id] && r.value.id == Some(id)
    {
      if id in films then Some(films[id]) else None
    }

    /** `create` never fails: the film is stored, unchanged but for its id, under the next id. */
    method Create(f: Film) returns (r: Film)
      requires Valid()
      modifies this
      ensures Valid()
      ensures r == f.(id := Some(NextId(old(films).Keys)))
      ensures forall k :: k in old(films) ==> k < r.id.value
      ensures films == old(films)[r.id.value := r]
    {
      r := f.(id := Some(NextId(films.Keys)));
      films := films[r.id.value := r];
    }

    /** `update`: an id that is null or not stored is refused; otherwise each non-null field overwrites the stored
        one, and the stored id and likes stay. */
    method Update(f: Film) returns (r: Result<Film, Error>)
      requires Valid()
      modifies this
      ensures Valid()
      ensures f.id.None? || f.id.value !in old(films) ==> r == Err(FilmNotFoundOnUpdate(f.id)) && films == old(films)
      ensures f.id.Some? && f.id.value in old(films) ==> r.Ok?
      ensures r.Ok? ==> f.id.Some? && f.id.value in old(films)
      ensures r.Ok? ==> r.value == PatchFilm(old(films)[f.id.value], f) && films == old(films)[f.id.value := r.value]
    {
      if f.id.None? || f.id.value !in films {
        return Err(FilmNotFoundOnUpdate(f.id));
      }
      var id := f.id.value;
      var updated := PatchFilm(films[id], f);
      films := films[id := updated];
      return Ok(updated);
    }

    /** `delete`: an absent id is refused; otherwise exactly that entry goes. */
    method Delete(id: int) returns (r: Outcome<Error>)
      requires Valid()
      modifies this
      ensures Valid()
      ensures id !in old(films) ==> r == Fail(FilmNotFound(id)) && films == old(films)
      ensures id in old(films) ==> r == Pass && films == old(films) - {id}
    {
      if id !in films {
        return Fail(FilmNotFound(id));
      }
      films := films - {id};
      return Pass;
    }
  }

  /** Two creates on a fresh store leave two films in `getAll`, with ids 1 and 2. */
  method GetAllAfterTwoCreates(a: Film, b: Film) returns (all: set<Film>)
    ensures |all| == 2
    ensures a.(id := Some(1)) in all && b.(id := Some(2)) in all
  {
    var store := new InMemoryFilmStorage();
    var x := store.Create(a);
    var y := store.Create(b);
    assert y.id.value - 1 in {1};
    all := store.GetAll();
  }
}
