/** The three exception kinds the service throws, plus the unchecked null dereference some paths reach.
    HTTP status mapping is left to the boundary. */
module Errors {
  import opened Wrappers
  import opened Text

  datatype ErrorKind =
    | ValidationFailed  // ValidationException, or a Bean Validation violation
    | NotFound          // NotFoundException
    | Duplicated        // DuplicatedDataException
    | NullPointer       // an unchecked NullPointerException thrown by the Java runtime

  datatype Error = Error(kind: ErrorKind, message: string)

  /** The runtime's null dereference; its message is not part of the model. */
  const NullDereference := Error(NullPointer, "")

  /** How string concatenation prints a possibly null `Long`. */
  function IdText(id: Option<int>): string
  {
    match id
    case None => "null"
    case Some(n) => IntToDecimal(n)
  }

  /** "Пользователь с id=<id> не найден": raised by lookups and deletes of users. */
  function UserNotFound(id: int): Error
  {
    Error(NotFound, "Пользователь с id=" + IntToDecimal(id) + " не найден")
  }

  /** "Пользователь с id = <id> не найден": raised by user updates, which print the incoming id. */
  function UserNotFoundOnUpdate(id: Option<int>): Error
  {
    Error(NotFound, "Пользователь с id = " + IdText(id) + " не найден")
  }

  /** "Фильм с id=<id> не найден": raised by lookups and deletes of films. */
  function FilmNotFound(id: int): Error
  {
    Error(NotFound, "Фильм с id=" + IntToDecimal(id) + " не найден")
  }

  /** "Фильм с id = <id> не найден": raised by film updates. */
  function FilmNotFoundOnUpdate(id: Option<int>): Error
  {
    Error(NotFound, "Фильм с id = " + IdText(id) + " не найден")
  }

  const EmailInUseOnCreate := Error(Duplicated, "Эта электронная почта уже используется")
  const EmailInUseOnUpdate := Error(Duplicated, "Этот email уже используется")

  /** The id can be read back out of a user-not-found message: different ids give different errors. */
  lemma UserNotFoundNamesId(a: int, b: int)
    requires UserNotFound(a) == UserNotFound(b)
    ensures a == b
  {
    var p, q := "Пользователь с id=", " не найден";
    var da, db := IntToDecimal(a), IntToDecimal(b);
    var m := UserNotFound(a).message;
    assert m == p + da + q == p + db + q;
    assert |da| == |db|;
    assert da == m[|p|..|p| + |da|] == db;
    IntToDecimalInjective(a, b);
  }

  /** The four not-found messages never coincide across kinds: user and film messages start differently, and lookup
      messages write "id=" where update messages write "id = ". */
  lemma NotFoundMessagesDistinct(a: int, b: int, c: Option<int>, d: Option<int>)
    ensures UserNotFound(a) != FilmNotFound(b)
    ensures UserNotFoundOnUpdate(c) != FilmNotFoundOnUpdate(d)
    ensures UserNotFound(a) != UserNotFoundOnUpdate(c)
    ensures FilmNotFound(b) != FilmNotFoundOnUpdate(d)
  {
    assert UserNotFound(a).message[0] != FilmNotFound(b).message[0];
    assert UserNotFoundOnUpdate(c).message[0] != FilmNotFoundOnUpdate(d).message[0];
    assert UserNotFound(a).message[17] != UserNotFoundOnUpdate(c).message[17];
    assert FilmNotFound(b).message[10] != FilmNotFoundOnUpdate(d).message[10];
  }
}
