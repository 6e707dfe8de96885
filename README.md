# Filmorate, modelled in Dafny

Filmorate is a small REST service for films and their viewers. Users register and befriend each other. Films are
registered, users like them, and the service ranks films by likes. All of this is in-memory bookkeeping over two maps
from id to entity:

- **Stores.** `InMemoryUserStorage`, `InMemoryFilmStorage`, and the older store built into `UserController`. Each
  new id is one more than the largest stored id, or 1 in an empty store. An absent id fails NotFound. Update in the
  two storage classes is a partial merge: only the non-null incoming fields are written. The controller's update
  differs for the email, which it writes even when the incoming one is null, as long as the stored one is not. The
  user stores refuse an email that another user holds, and so keep stored emails unique.
- **The social graph.** `UserService` writes friendship into both users' friend sets and resolves friend ids back to
  users. Mutual friends are the intersection of two friend sets.
- **Likes and the ranking.** `FilmService` adds user ids to a film's likes and removes them. `getTopFilms` sorts films
  by their number of likes, most first, and keeps the first `count`.
- **Validation.** `FilmValidator` and `UserValidator` are ordered chains of guards, where the first failing guard
  decides the error. The user validator also swaps a blank name for the login. `ReleaseDateValidator` is a date
  threshold. The model classes carry declarative constraints per validation group (OnCreate, OnUpdate).

The stores, the controller's store and the two services are Dafny classes. Each class keeps a `map` field that its
methods reassign. Methods state their whole new state against functions of the old one: `PatchUser`, `PatchFilm`,
`Befriend`, `Unfriend`, `Like`, `Unlike` and `NextId`. Lemmas then prove the properties of those functions: symmetry
of friendship, idempotence, top-k ordering and id freshness. Records, validators and the ranking are datatypes,
functions and lemmas. Errors are values of type `Error`, which pairs one of the service's exception kinds with its
message text. Operations that can fail return `Result` or `Outcome`. An unchecked `NullPointerException` that the
Java code can reach is modelled as the error `NullDereference`.

Where the code's behaviour differs from what a reader might expect, the model follows the code:

- **Ids can be reused.** They are only larger than every id stored at that moment. Once the entry with the largest id
  is deleted, the next id does not exceed the deleted one, so a deleted id can be handed out again
  (`Ids.NextIdReusesDeletedMaximum`, `SocialGraph.StaleFriendReassigned`).
- **`getTopFilms` has no default count.** `count` is a plain parameter.
- **Creates overwrite an incoming id.** The stores themselves never reject one; only the `@Null` constraint of the
  OnCreate group does.
- **Ties in the ranking follow no stated order.** Films with equal like counts appear in hash-set order, not by id.
- **The login check is narrow.** The validator looks only for the space character inside a login, not for any other
  whitespace.

## Model

| member | source | states |
|---|---|---|
| ReleaseDate.IsValid | src/main/java/ru/yandex/practicum/filmorate/validator/release/ReleaseDateValidator.java:17-24 | a null date or one not before 1895-12-28; its properties are in `ReleaseDate.Threshold` and `ReleaseDate.Monotone` |
| Dates.BeforeIsStrictTotalOrder | src/main/java/ru/yandex/practicum/filmorate/validator/release/ReleaseDateValidator.java:23 | `isBefore` on (year, month, day) is irreflexive, transitive, total and asymmetric |
| ReleaseDate.Threshold | src/main/java/ru/yandex/practicum/filmorate/validator/release/ReleaseDateValidator.java:14-23 | a null date is valid, 1895-12-28 is valid, 1895-12-27 and every earlier date are not |
| ReleaseDate.Monotone | src/main/java/ru/yandex/practicum/filmorate/validator/release/ReleaseDateValidator.java:23 | any date not before a valid date is valid |
| Ratings.Title | src/main/java/ru/yandex/practicum/filmorate/model/film/Mpa.java:16-18 | `getTitle`; its table is `Ratings.TitleTable` and `Ratings.TitleInjective` proves the titles distinct |
| Ratings.ExactlyFiveRatings | src/main/java/ru/yandex/practicum/filmorate/model/film/Mpa.java:4-8 | there are exactly five ratings, all distinct, and every rating is one of them |
| Ratings.TitleTable | src/main/java/ru/yandex/practicum/filmorate/model/film/Mpa.java:4-18 | PG_13 and NC_17 print with a hyphen; G, PG and R print as their own names |
| Ratings.TitleInjective | src/main/java/ru/yandex/practicum/filmorate/model/film/Mpa.java:4-8 | no two ratings share a title |
| Text.IsWhitespace | src/main/java/ru/yandex/practicum/filmorate/validator/FilmValidator.java:36 | `Character.isWhitespace`, which `isBlank` tests each character with: the ASCII and Unicode separators, less the non-breaking spaces |
| Text.IsBlank | src/main/java/ru/yandex/practicum/filmorate/validator/FilmValidator.java:36 | `String.isBlank`: every character is whitespace; used by `Films.FilmGroupRules`, `Users.UserGroupRules` and both validators |
| Text.Repeat | src/test/java/ru/yandex/practicum/filmorate/FilmControllerTest.java:52 | `String.repeat`: `n` times the length, starting with `s`; its UTF-16 length is `n` times that of `s` (`Text.Utf16LengthRepeat`) |
| Text.Utf16LengthRepeat | src/test/java/ru/yandex/practicum/filmorate/FilmControllerTest.java:52 | `n` copies of a string are `n` times as long in UTF-16 units |
| Text.IntToDecimal | src/main/java/ru/yandex/practicum/filmorate/storage/user/InMemoryUserStorage.java:93 | `Long.toString`: a non-empty string, starting with a digit exactly for non-negative numbers; `Text.IntToDecimalInjective` proves it one-to-one |
| Text.Utf16Length | src/main/java/ru/yandex/practicum/filmorate/validator/FilmValidator.java:40-41 | `String.length()` counts between one and two units per character, and exactly one per character in the Basic Multilingual Plane |
| Text.IntToDecimalInjective | src/main/java/ru/yandex/practicum/filmorate/storage/user/InMemoryUserStorage.java:93 | different ids print as different decimal strings in the messages |
| Errors.UserNotFound | src/main/java/ru/yandex/practicum/filmorate/storage/user/InMemoryUserStorage.java:93 | NotFound with "Пользователь с id=<id> не найден"; `Errors.UserNotFoundNamesId` proves the id can be read back |
| Errors.UserNotFoundOnUpdate | src/main/java/ru/yandex/practicum/filmorate/storage/user/InMemoryUserStorage.java:57 | NotFound with "Пользователь с id = <id> не найден", printing a null id as "null"; kept apart from the other messages by `Errors.NotFoundMessagesDistinct` |
| Errors.FilmNotFound | src/main/java/ru/yandex/practicum/filmorate/storage/film/InMemoryFilmStorage.java:63 | NotFound with "Фильм с id=<id> не найден"; kept apart by `Errors.NotFoundMessagesDistinct` |
| Errors.FilmNotFoundOnUpdate | src/main/java/ru/yandex/practicum/filmorate/storage/film/InMemoryFilmStorage.java:37 | NotFound with "Фильм с id = <id> не найден"; kept apart by `Errors.NotFoundMessagesDistinct` |
| Errors.NotFoundMessagesDistinct | src/main/java/ru/yandex/practicum/filmorate/storage/user/InMemoryUserStorage.java:57-93 | user and film messages never coincide, and neither do lookup and update messages |
| Errors.UserNotFoundNamesId | src/main/java/ru/yandex/practicum/filmorate/storage/user/InMemoryUserStorage.java:93 | the user-not-found message determines the id it names |
| Validation.FirstFailure | src/main/java/ru/yandex/practicum/filmorate/validator/FilmValidator.java:36-52 | a guard chain passes exactly when every guard holds; otherwise it reports the failure of a failing guard that every earlier guard passed |
| Validation.FirstFailureAt | src/main/java/ru/yandex/practicum/filmorate/validator/FilmValidator.java:36-52 | the reported failure is that of the earliest failing guard |
| Users.NewUser | src/main/java/ru/yandex/practicum/filmorate/model/user/User.java:53 | a new user has no id and an empty friend set |
| Users.StoredUsersEqualIffSameId | src/main/java/ru/yandex/practicum/filmorate/model/user/User.java:17 | inside a store, equality by id agrees with full equality and with equality of the keys |
| Users.WithDefaultName | src/main/java/ru/yandex/practicum/filmorate/storage/user/InMemoryUserStorage.java:40-42 | a null or blank name becomes the login; a non-blank name is kept; no other field changes |
| Users.WithDefaultNameIdempotent | src/main/java/ru/yandex/practicum/filmorate/storage/user/InMemoryUserStorage.java:40-42 | defaulting twice equals defaulting once; with a non-blank login the name ends non-blank |
| Users.PatchUser | src/main/java/ru/yandex/practicum/filmorate/storage/user/InMemoryUserStorage.java:60-84 | each non-null incoming email, login, name and birthday replaces the stored one; null fields, id and friends keep the stored values |
| Users.PatchUserIdempotent | src/main/java/ru/yandex/practicum/filmorate/storage/user/InMemoryUserStorage.java:60-84 | patching twice with the same user equals patching once; an empty patch changes nothing |
| Users.UserViolations | src/main/java/ru/yandex/practicum/filmorate/model/User.java:20-47 | the constraints a user violates per group; characterised by `Users.UserGroupRules` |
| Users.UserGroupRules | src/main/java/ru/yandex/practicum/filmorate/model/User.java:20-47 | id null under OnCreate and non-null under OnUpdate; non-blank email and login only under OnCreate; birthday not after today under both |
| Users.UserTestCases | src/test/java/ru/yandex/practicum/filmorate/UserControllerTest.java:43-116 | the sample user passes OnCreate; a blank email, a blank login and a 2030-10-11 birthday each fail it; a missing id fails OnUpdate; each failure reports the message the test looks for |
| Films.NewFilm | src/main/java/ru/yandex/practicum/filmorate/model/Film.java:55 | a new film has no id and an empty likes set |
| Films.FilmViolations | src/main/java/ru/yandex/practicum/filmorate/model/Film.java:25-53 | the constraints a film violates per group; characterised by `Films.FilmGroupRules` and `Films.CreateGroupAcceptance` |
| Films.FilmGroupRules | src/main/java/ru/yandex/practicum/filmorate/model/Film.java:25-53 | per constraint, the groups it applies to and exactly when it is violated |
| Films.CreateGroupAcceptance | src/main/java/ru/yandex/practicum/filmorate/model/Film.java:25-53 | a film passes OnCreate exactly when id is null, the name is non-blank, and description, release date and duration are acceptable where given; OnUpdate then reports only the missing id |
| Films.SampleFilmAccepted | src/test/java/ru/yandex/practicum/filmorate/FilmControllerTest.java:24-36 | the tests' sample film released today passes OnCreate and lacks only the id under OnUpdate |
| Films.MissingIdRejected | src/test/java/ru/yandex/practicum/filmorate/FilmControllerTest.java:84-91 | a film without id violates OnUpdate and reports "Id должен быть указан" |
| Films.BlankNameRejected | src/test/java/ru/yandex/practicum/filmorate/FilmControllerTest.java:40-47 | a film named "  " violates the name constraint and reports its message |
| Films.RepeatedDescriptionLength | src/test/java/ru/yandex/practicum/filmorate/FilmControllerTest.java:51-58 | "Description" repeated 90 times is 990 units long |
| Films.OverlongDescriptionRejected | src/main/java/ru/yandex/practicum/filmorate/model/Film.java:38-39 | a description over 200 units violates the size constraint in both groups and reports its message |
| Films.EarlyReleaseRejected | src/test/java/ru/yandex/practicum/filmorate/FilmControllerTest.java:62-69 | a release on 1800-01-01 violates the release-date constraint in both groups and reports its message |
| Films.NegativeDurationRejected | src/test/java/ru/yandex/practicum/filmorate/FilmControllerTest.java:73-80 | a duration of -1 violates the duration constraint in both groups and reports its message |
| Films.PatchFilm | src/main/java/ru/yandex/practicum/filmorate/storage/film/InMemoryFilmStorage.java:40-54 | each non-null incoming name, description, release date and duration replaces the stored one; id and likes stay |
| Films.PatchFilmIdempotent | src/main/java/ru/yandex/practicum/filmorate/storage/film/InMemoryFilmStorage.java:40-54 | patching twice with the same film equals patching once; an empty patch changes nothing |
| FilmValidator.Validate | src/main/java/ru/yandex/practicum/filmorate/validator/FilmValidator.java:34-53 | passes exactly when the name is non-blank, the description is at most 200 units or null, the release date is given and not before 1895-12-28, and the duration is given and positive; the result is the first failing guard's error |
| FilmValidator.RuleMessages | src/main/java/ru/yandex/practicum/filmorate/validator/FilmValidator.java:36-52 | each rule's message is reported once the earlier rules pass; a null duration dereferences null |
| FilmValidator.ValidatedFilmMeetsCreateConstraints | src/main/java/ru/yandex/practicum/filmorate/validator/FilmValidator.java:34-53 | a film without id that the validator accepts meets every OnCreate constraint |
| FilmValidator.ConstraintsWeakerThanValidator | src/main/java/ru/yandex/practicum/filmorate/validator/FilmValidator.java:45-52 | a named film with no release date or duration meets OnCreate but is refused by the validator |
| UserValidator.Validate | src/main/java/ru/yandex/practicum/filmorate/validator/UserValidator.java:22-40 | passes exactly when the email is non-blank with '@', the login is non-blank without a space, and the birthday is not after today; the name is replaced by the login only after both of the first guards pass, and only when it is null or blank |
| UserValidator.EmailCheckedFirst | src/main/java/ru/yandex/practicum/filmorate/validator/UserValidator.java:24-30 | a bad email is reported whatever the login holds, and the user is left unchanged |
| UserValidator.RenamedThenRejected | src/main/java/ru/yandex/practicum/filmorate/validator/UserValidator.java:32-39 | a user refused for a future birthday comes back renamed to its login |
| UserValidator.ValidatedUserMeetsCreateConstraints | src/main/java/ru/yandex/practicum/filmorate/validator/UserValidator.java:22-40 | a user without id that the validator accepts meets every OnCreate constraint once renamed |
| Ids.MaxId | src/main/java/ru/yandex/practicum/filmorate/storage/user/InMemoryUserStorage.java:113-117 | 0 for no keys, otherwise a stored key at least as large as every key |
| Ids.NextId | src/main/java/ru/yandex/practicum/filmorate/storage/user/InMemoryUserStorage.java:112-119 | 1 for an empty store; otherwise one more than a stored key, above every stored key, and never in use |
| Ids.NextIdReusesDeletedMaximum | src/main/java/ru/yandex/practicum/filmorate/storage/user/InMemoryUserStorage.java:112-119 | after the largest id is deleted, the next id is at most that id |
| Ids.InjectiveValuesCount | src/main/java/ru/yandex/practicum/filmorate/storage/user/InMemoryUserStorage.java:24-26 | a map with pairwise different entries has as many values as keys |
| Collections.Enumerate | src/main/java/ru/yandex/practicum/filmorate/service/FilmService.java:63 | streaming a hash set lists each element exactly once, in some order |
| Emails.ScanEmails | src/main/java/ru/yandex/practicum/filmorate/storage/user/InMemoryUserStorage.java:32-38 | the scan completes exactly when no stored email is null and no other user holds the email; a match implies a holder; a crash implies a null stored email |
| Emails.OwnEmailNotHeldByOther | src/main/java/ru/yandex/practicum/filmorate/storage/user/InMemoryUserStorage.java:61-65 | with unique emails, a user's own email is held by no other id |
| Emails.UniqueAfterWrite | src/main/java/ru/yandex/practicum/filmorate/storage/user/InMemoryUserStorage.java:32-45 | writing a user whose email no other id holds keeps emails unique |
| UserStorage.Created | src/main/java/ru/yandex/practicum/filmorate/storage/user/InMemoryUserStorage.java:40-45 | the created user gets the next id, unused so far, and the defaulted name; the other fields are kept |
| UserStorage.InMemoryUserStorage.constructor | src/main/java/ru/yandex/practicum/filmorate/storage/user/InMemoryUserStorage.java:21 | the store starts empty |
| UserStorage.InMemoryUserStorage.GetAll | src/main/java/ru/yandex/practicum/filmorate/storage/user/InMemoryUserStorage.java:24-26 | exactly the stored users, one per stored id |
| UserStorage.InMemoryUserStorage.GetById | src/main/java/ru/yandex/practicum/filmorate/storage/user/InMemoryUserStorage.java:99-105 | the stored user under that id, or nothing when the id is absent |
| UserStorage.InMemoryUserStorage.Create | src/main/java/ru/yandex/practicum/filmorate/storage/user/InMemoryUserStorage.java:29-48 | succeeds exactly when no stored email is null or equal to the incoming one; a failure changes nothing and is Duplicated (email held) or a null dereference; a success inserts `Created` under a new id above every stored id; unique emails stay unique |
| UserStorage.InMemoryUserStorage.Update | src/main/java/ru/yandex/practicum/filmorate/storage/user/InMemoryUserStorage.java:51-88 | a null or absent id fails NotFound naming it; for a stored id it succeeds exactly when the incoming email is null, or no stored email is null and no other id holds it; a failure changes nothing and is Duplicated or a null dereference; a success writes `PatchUser` in place; unique emails stay unique |
| UserStorage.InMemoryUserStorage.Delete | src/main/java/ru/yandex/practicum/filmorate/storage/user/InMemoryUserStorage.java:91-96 | an absent id fails NotFound and changes nothing; otherwise exactly that entry is removed; unique emails stay unique |
| UserStorage.UpdateKeepsEmailsPresent | src/main/java/ru/yandex/practicum/filmorate/storage/user/InMemoryUserStorage.java:60-72 | the store's update never leaves a stored email null |
| UserStorage.IdOnlyUpdateKeepsCreateOpen | src/main/java/ru/yandex/practicum/filmorate/storage/user/InMemoryUserStorage.java:51-88 | after an id-only update, a user with another email can still be created, with id 2 |
| FilmStorage.InMemoryFilmStorage.constructor | src/main/java/ru/yandex/practicum/filmorate/storage/film/InMemoryFilmStorage.java:17 | the store starts empty |
| FilmStorage.InMemoryFilmStorage.GetAll | src/main/java/ru/yandex/practicum/filmorate/storage/film/InMemoryFilmStorage.java:83-85 | exactly the stored films, one per stored id |
| FilmStorage.InMemoryFilmStorage.GetById | src/main/java/ru/yandex/practicum/filmorate/storage/film/InMemoryFilmStorage.java:69-75 | the stored film under that id, or nothing when the id is absent |
| FilmStorage.InMemoryFilmStorage.Create | src/main/java/ru/yandex/practicum/filmorate/storage/film/InMemoryFilmStorage.java:21-29 | never fails; the film, unchanged but for its id, is inserted under the next id, above every stored id |
| FilmStorage.InMemoryFilmStorage.Update | src/main/java/ru/yandex/practicum/filmorate/storage/film/InMemoryFilmStorage.java:32-58 | a null or absent id fails NotFound naming it and changes nothing; otherwise `PatchFilm` is written in place |
| FilmStorage.InMemoryFilmStorage.Delete | src/main/java/ru/yandex/practicum/filmorate/storage/film/InMemoryFilmStorage.java:61-66 | an absent id fails NotFound and changes nothing; otherwise exactly that entry is removed |
| FilmStorage.GetAllAfterTwoCreates | src/test/java/ru/yandex/practicum/filmorate/FilmControllerTest.java:105-124 | two creates on an empty store give `getAll` of size 2, holding the films with ids 1 and 2 |
| UserControllers.ControllerPatch | src/main/java/ru/yandex/practicum/filmorate/controller/UserController.java:89-113 | the incoming email, null included, is written exactly when the stored email is non-null; the other fields merge as in the store |
| UserControllers.ControllerPatchVersusStore | src/main/java/ru/yandex/practicum/filmorate/controller/UserController.java:89-101 | the controller's merge agrees with the store's when both emails are present, clears the email on a null incoming one, and never fills a stored null |
| UserControllers.UserController.constructor | src/main/java/ru/yandex/practicum/filmorate/controller/UserController.java:33 | the controller's store starts empty |
| UserControllers.UserController.GetAll | src/main/java/ru/yandex/practicum/filmorate/controller/UserController.java:40-43 | exactly the stored users, one per stored id |
| UserControllers.UserController.Create | src/main/java/ru/yandex/practicum/filmorate/controller/UserController.java:51-71 | the same contract as the store's create, unique emails included |
| UserControllers.UserController.Update | src/main/java/ru/yandex/practicum/filmorate/controller/UserController.java:79-117 | a null or absent id fails NotFound; for a stored id it succeeds exactly when the stored email is null, or no stored email is null and no other id holds the incoming one; a failure changes nothing and is Duplicated or a null dereference; a success writes `ControllerPatch` in place; unique emails stay unique |
| UserControllers.GetAllAfterTwoCreates | src/test/java/ru/yandex/practicum/filmorate/UserControllerTest.java:144-163 | two creates with different emails give `getAll` of size 2 |
| UserControllers.SecondCreateWithSameEmail | src/test/java/ru/yandex/practicum/filmorate/UserControllerTest.java:55-70 | a second user with a taken email is refused with "Эта электронная почта уже используется" |
| UserControllers.CreateWithBlankName | src/test/java/ru/yandex/practicum/filmorate/UserControllerTest.java:86-92 | a user created with a blank name is stored with its login as name |
| UserControllers.UpdateUnknownId | src/test/java/ru/yandex/practicum/filmorate/UserControllerTest.java:120-129 | updating id 100 in an empty store fails NotFound for id 100 |
| UserControllers.IdOnlyUpdateBlocksCreate | src/main/java/ru/yandex/practicum/filmorate/controller/UserController.java:89-101 | after an id-only update of the only user, every create fails |
| SocialGraph.Befriend | src/main/java/ru/yandex/practicum/filmorate/service/UserService.java:42-43 | only the two friend sets change: each gains the other's id |
| SocialGraph.Unfriend | src/main/java/ru/yandex/practicum/filmorate/service/UserService.java:52-53 | only the two friend sets change: each loses the other's id |
| SocialGraph.EdgeWritten | src/main/java/ru/yandex/practicum/filmorate/service/UserService.java:42-53 | after befriending each lists the other; after unfriending neither does |
| SocialGraph.BefriendIdempotent | src/main/java/ru/yandex/practicum/filmorate/service/UserService.java:42-43 | befriending twice equals befriending once; befriending users who already list each other changes nothing |
| SocialGraph.UnfriendNoOp | src/main/java/ru/yandex/practicum/filmorate/service/UserService.java:52-53 | unfriending users who do not list each other changes nothing |
| SocialGraph.BefriendPreservesSymmetry | src/main/java/ru/yandex/practicum/filmorate/service/UserService.java:42-43 | befriending keeps friendship symmetric |
| SocialGraph.UnfriendPreservesSymmetry | src/main/java/ru/yandex/practicum/filmorate/service/UserService.java:52-53 | unfriending keeps friendship symmetric |
| SocialGraph.BefriendKeepsIds | src/main/java/ru/yandex/practicum/filmorate/service/UserService.java:42-53 | both operations keep every user stored under its own id |
| SocialGraph.DeleteLeavesStaleFriend | src/main/java/ru/yandex/practicum/filmorate/storage/user/InMemoryUserStorage.java:91-96 | deleting a user keeps symmetry among the others but leaves its id, now unresolvable, in its friends' sets |
| SocialGraph.StaleFriendReassigned | src/main/java/ru/yandex/practicum/filmorate/storage/user/InMemoryUserStorage.java:91-119 | the stale id is the next one handed out, so a new user becomes a friend without being befriended |
| UserServices.UserService.constructor | src/main/java/ru/yandex/practicum/filmorate/service/UserService.java:36-44 | the service works on the given store |
| UserServices.UserService.AddFriends | src/main/java/ru/yandex/practicum/filmorate/service/UserService.java:36-44 | NotFound for `id` first, then for `friendId`, with nothing changed; otherwise the store becomes `Befriend` of the old one; symmetry is preserved |
| UserServices.UserService.DeleteFriend | src/main/java/ru/yandex/practicum/filmorate/service/UserService.java:46-54 | the same refusals; otherwise the store becomes `Unfriend` of the old one; symmetry is preserved |
| UserServices.UserService.ResolveAll | src/main/java/ru/yandex/practicum/filmorate/service/UserService.java:60-63 | succeeds exactly when every id is stored, then listing each stored user once; otherwise fails NotFound naming a stale id |
| UserServices.UserService.GetFriends | src/main/java/ru/yandex/practicum/filmorate/service/UserService.java:56-64 | NotFound for an absent user; otherwise exactly one stored user per friend id, or NotFound naming a stale friend id |
| UserServices.UserService.GetCommonFriends | src/main/java/ru/yandex/practicum/filmorate/service/UserService.java:66-79 | NotFound for either absent user; with both stored, it succeeds exactly when every id in the intersection of both friend sets is stored, and then lists exactly those users; otherwise NotFound names a stale common id; neither friend set changes |
| UserServices.FriendsOfNewlyBefriended | src/main/java/ru/yandex/practicum/filmorate/service/UserService.java:36-64 | two fresh users befriended each have exactly the other as their one friend |
| Ranking.Like | src/main/java/ru/yandex/practicum/filmorate/service/FilmService.java:47 | only the likes change, gaining the user |
| Ranking.Unlike | src/main/java/ru/yandex/practicum/filmorate/service/FilmService.java:59 | only the likes change, losing the user |
| Ranking.LikeIdempotent | src/main/java/ru/yandex/practicum/filmorate/service/FilmService.java:47-59 | liking is idempotent, a repeated like changes nothing, and unliking a user who never liked changes nothing |
| Ranking.Insert | src/main/java/ru/yandex/practicum/filmorate/service/FilmService.java:64-66 | inserting adds exactly that film |
| Ranking.InsertKeepsOrder | src/main/java/ru/yandex/practicum/filmorate/service/FilmService.java:64-66 | inserting into a ranking gives a ranking |
| Ranking.SortByLikes | src/main/java/ru/yandex/practicum/filmorate/service/FilmService.java:63-66 | the sort is a permutation ordered from most to fewest likes |
| Ranking.TopFilms | src/main/java/ru/yandex/practicum/filmorate/service/FilmService.java:63-68 | `min(count, n)` films, ordered by likes, drawn from the input |
| Ranking.TopFilmsAreTheMostLiked | src/main/java/ru/yandex/practicum/filmorate/service/FilmService.java:63-68 | no film left out has more likes than a film returned |
| FilmServices.LikeRefusal | src/main/java/ru/yandex/practicum/filmorate/service/FilmService.java:50-57 | refused exactly when the film or the user is absent: NotFound for the film first, then NotFound naming the user |
| FilmServices.AddLikeRefusalAsWritten | src/main/java/ru/yandex/practicum/filmorate/service/FilmService.java:38-45 | `addLike` as written: a missing user is reported with the film's id |
| FilmServices.AddLikeMisnamesMissingUser | src/main/java/ru/yandex/practicum/filmorate/service/FilmService.java:38-57 | the two refusals differ exactly when the film exists, the user does not, and the ids differ |
| FilmServices.FilmService.constructor | src/main/java/ru/yandex/practicum/filmorate/service/FilmService.java:38-60 | the service works on the given stores |
| FilmServices.FilmService.AddLike | src/main/java/ru/yandex/practicum/filmorate/service/FilmService.java:38-48 | fails exactly with `LikeRefusal` and then changes nothing; otherwise only that film's likes gain the user |
| FilmServices.FilmService.DeleteLike | src/main/java/ru/yandex/practicum/filmorate/service/FilmService.java:50-60 | fails exactly with `LikeRefusal` and then changes nothing; otherwise only that film's likes lose the user |
| FilmServices.FilmService.GetTopFilms | src/main/java/ru/yandex/practicum/filmorate/service/FilmService.java:62-69 | `min(count, #films)` distinct stored films, ordered by likes, and no stored film left out has more likes than one returned |

## Left out

- FilmServices.FilmService.AddLike: refuses a missing user with that user's id, not the film id that line 44 prints; the as-written refusal is `FilmServices.AddLikeRefusalAsWritten` (see Findings).
- Ids and the Java `long` type: ids are unbounded integers. The wrap-around of `++currentMaxId` at 2^63 - 1 cannot be reached, because every key comes from the previous next id.
- The `@Email` format constraint is a regular expression inside the validation library, which is not visible. `UserConstraint` has no case for it.
- The message of `@ValidReleaseDate` is taken from the film tests. The annotation's own declaration, `ValidReleaseDate.java`, is not part of this model.
- `LocalDate.now()` is a clock read. It becomes the parameter `today`.
- HTTP binding, status codes and `ErrorHandlingControllerAdvice` are framework glue. Errors stop at the `Error` value and its kind.
- `FilmController` only delegates. Its `Integer count` is modelled as a `nat` parameter of `GetTopFilms`. A null count fails to unbox, and a negative one makes `limit` throw `IllegalArgumentException`; neither case is modelled.
- The Bean Validation engine is not modelled. The constraint sets are the predicates `FilmViolations` and `UserViolations`. The controller methods do not apply them, because the framework runs before those methods.
- Lombok accessors and logging have no behaviour here.
- The `status` map of `model.user.User` (friendship status) is never read or written by the modelled code.
- `model.film.Film` is not part of this model. `model.Film` is the film record used throughout.
- The two `User` classes declare the same id, email, login, name and birthday fields with the same constraints;
  `model.user.User` adds the `friends` set and the `status` map. They are one datatype with a `friends` set, and the
  `status` map is left out as said above.
- The in-memory stores' `getById` throws instead of returning `Optional`. The model keeps the interface's `Optional` shape, as `Option`. The services turn an empty result into the same NotFound message the stores would throw.
- Hash map and hash set iteration order is not modelled. Lists built from sets (`getAll`, `getFriends`, `getCommonFriends`) are specified up to order, and ties in `getTopFilms` are unordered.
- Aliasing is not modelled. The Java code mutates stored objects through references it got back from the store. The model writes the changed value into the map, which has the same effect on the store's contents.
- UserValidator.Validate: returns the renamed user, where the Java code renames its argument in place.
- UserServices.UserService.GetCommonFriends: the `retainAll` on a copy becomes a set intersection `*`, so the loop that builds the copy is not modelled.
- There is no concurrency in the code.

## Findings

| source | as written | input that shows it | evidently intended | confidence | as-written member | corrected member |
|---|---|---|---|---|---|---|
| src/main/java/ru/yandex/practicum/filmorate/service/FilmService.java:44 | `addLike` reports a missing user with the film's id | film 1 stored, user 7 absent: `addLike(1, 7)` fails with "Пользователь с id=1 не найден" | name the missing user, "Пользователь с id=7 не найден", as `deleteLike` does at line 56 | not executed | FilmServices.AddLikeRefusalAsWritten | FilmServices.LikeRefusal |
| src/main/java/ru/yandex/practicum/filmorate/controller/UserController.java:89-101 | `update` guards on the stored email and then writes the incoming email, even a null one | create a user with email "a@x", then PUT a body holding only its id: the stored email becomes null, and every later create dereferences it or finds a duplicate first | guard on the incoming email and keep the stored one when it is null, as `InMemoryUserStorage.update` does at line 60 | not executed | UserControllers.IdOnlyUpdateBlocksCreate | UserStorage.UpdateKeepsEmailsPresent |
