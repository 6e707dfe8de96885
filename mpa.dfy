/** The MPA film rating (`model.film.Mpa`). */
module Ratings {

  datatype Mpa = G | PG | PG_13 | R | NC_17

  /** Every rating, in declaration order. */
  const AllRatings: seq<Mpa> := [G, PG, PG_13, R, NC_17]

  /** `getTitle`: the label shown to clients. */
  function Title(m: Mpa): string
  {
    match m
    case G => "G"
    case PG => "PG"
    case PG_13 => "PG-13"
    case R => "R"
    case NC_17 => "NC-17"
  }

  /** There are exactly five ratings. */
  lemma ExactlyFiveRatings()
    ensures |AllRatings| == 5
    ensures forall m: Mpa :: m in AllRatings
    ensures forall i, j :: 0 <= i < j < |AllRatings| ==> AllRatings[i] != AllRatings[j]
  {
    forall m: Mpa ensures m in AllRatings {
      match m
      case G => assert AllRatings[0] == m;
      case PG => assert AllRatings[1] == m;
      case PG_13 => assert AllRatings[2] == m;
      case R => assert AllRatings[3] == m;
      case NC_17 => assert AllRatings[4] == m;
    }
  }

  /** The title table: the underscored constants print with a hyphen, the others as their own names. */
  lemma TitleTable()
    ensures Title(G) == "G" && Title(PG) == "PG" && Title(R) == "R"
    ensures Title(PG_13) == "PG-13" && Title(NC_17) == "NC-17"
  {
  }

  /** No two ratings share a title. */
  lemma TitleInjective(a: Mpa, b: Mpa)
    ensures Title(a) == Title(b) ==> a == b
  {
    if Title(a) == Title(b) {
      assert |Title(a)| == |Title(b)| && Title(a)[0] == Title(b)[0];
    }
  }
}
