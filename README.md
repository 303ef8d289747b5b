# Game library API: access control, credentials and catalog integrity

A Dafny model of the core of a Spring catalog backend. The catalog holds games, developers, genres and platforms; users have accounts. The model covers three parts:

- **Ownership and role authorization.** `UserSecurityService.hasAccess(id)` decides whether the session's user is the user with that id. `UserController` combines it with `hasRole('ADMIN')` in its `@PreAuthorize` expressions. `UserDetailsServiceImpl.loadUserByUsername` gives a session its one authority, `"ROLE_" + role name`.
- **Credential management.** `UserService` registers users: the username must be unique, the role defaults to USER and the password is stored encoded. It changes a password only after two ordered checks: the old password must verify, and the new plaintext must differ from it. `UserResponseDTO.fromUser` is the projection that drops the hash.
- **Catalog uniqueness and referential-integrity cleanup.** The Developer, Genre and Platform services guard names on create; Genre and Platform also guard on rename. Their `deleteById` walks the entity's loaded `games` and detaches each game before deleting the row. `GameService.mapDtoToGame` resolves every referenced id before it assigns any field.

Layout, one module per source component:

- `common.dfy`: nullable references (`Option`), the exceptions as values (`Error`, `Result`, `Outcome`), the argument of `equals(Object)`, and Java's `Objects.equals` and `Objects.hash` on one id.
- `accounts.dfy`: `User`, `RoleName`, the password encoder, and the user table's `findByUsername` / `existsByUsername` queries.
- User side: `user_response_dto.dfy`, `user_details_service.dfy`, `user_security_service.dfy`, `user_service.dfy` (class `UserService`) and `user_controller.dfy`.
- Catalog side: `catalog_entities.dfy` (the entities, constructors and id-based equality) and `catalog_store.dfy` (class `CatalogStore`, the integrity invariant and the cleanup specifications).
- Catalog services: `developer_service.dfy`, `genre_service.dfy`, `platform_service.dfy` and `game_service.dfy`.

Modelling choices:

- **Repositories are maps held by a class.** `UserService` holds the user table, the seeded roles, the identity counter and the encoder. `CatalogStore` holds the games table, the three name tables and their counters.
- **Entity updates replace map entries.** When a service changes an entity through a setter, the model replaces that entity's map entry. Methods state the whole new state and keep `Valid()`.
- **A game holds the owning side as ids.** It keeps `developer: Option<DeveloperId>`, and `platforms` and `genres` as `Option<set<..>>`; each may be null. A set of ids stands for a `Set<Genre>` or `Set<Platform>` because those classes compare by id (`GenreEqualityById`, `PlatformEqualityById`). That is why `Set.remove` in the cleanup removes by id.
- **The inverse side is derived, not stored.** A developer's, genre's or platform's `games` is what a fetch with relations loads: the games whose owning side points back (`GamesOfDeveloper`, `GamesOfGenre`, `GamesOfPlatform`). It therefore always mirrors the owning side.
- **The store invariant is `Valid()`.** Each game is stored under its own id, and no game references a row that does not exist. Names and usernames are unique, as their columns are. Every id is below its counter.
- **The delete methods are proved against specification functions.** Each is a `while` loop over the loaded `games` and is proved equal to `DetachDeveloper`, `DetachGenre` or `DetachPlatform`. Lemmas show that these keep `Integrity` once the row is deleted.
- **The password encoder is a value.** It is two total functions, `encode` and `matches`. Two hypotheses about it are stated as ghost predicates: every plaintext matches its own encoding (`AcceptsOwnEncoding`), and no other plaintext does (`RejectsOtherPlaintexts`). They are never assumed. Lemmas take them as `requires`, and `UserController.UpdatePassword` uses them as the premise of its credential-rotation `ensures`.
- **Exceptions are values.** They are `Err`/`Fail` values that carry the source's exception class and message. A `@PreAuthorize` refusal is `AccessDenied`. A request without an authenticated session is `Unauthenticated`: the filter chain requires authentication for every request except `/login`, `/register` and the API documentation (config/SecurityConfig.java:40-42). `Authenticated` accepts only an authenticated session whose principal is a `UserDetails`. Spring's anonymous token is modelled as no session (`None`) or as a principal that is not a `UserDetails`, and both are refused.
- **Renaming a developer has no guard in the service.** `DeveloperService.updateName` performs no duplicate-name check of its own. A name held by another developer is refused by the unique `name` column (entity/Developer.java:30) when the transaction flushes. The model returns `DataIntegrityViolation` for it and changes nothing. The unit tests call a guarded `updateNameById` that the service does not have; the model follows the service.
- **Roles.** The roles are the enum `RoleName` { USER, ADMIN } (entity/RoleName.java:6-12).

## Model

| member | source | states |
|---|---|---|
| `Common.ObjectsEquals` | src/main/java/com/dmitrikramar/gamelibrary/entity/Game.java:112 | `Objects.equals` on two nullable ids holds exactly when they are equal, two nulls included |
| `Common.LongHashCode` | src/main/java/com/dmitrikramar/gamelibrary/entity/Game.java:120 | `Long.hashCode` of a 64-bit value is its low half xor its high half, so a value below 2^32 hashes to itself |
| `Common.ObjectsHashOfId` | src/main/java/com/dmitrikramar/gamelibrary/entity/Game.java:120 | `Objects.hash(id)` is 31 for a null id and 31 + `Long.hashCode(id)` otherwise, with 32-bit wrap-around |
| `Accounts.RoleNameString` | src/main/java/com/dmitrikramar/gamelibrary/entity/RoleName.java:6-12 | the enum names of USER and ADMIN are "USER" and "ADMIN" |
| `Accounts.ExistsByUsername` | src/main/java/com/dmitrikramar/gamelibrary/service/UserService.java:80 | `existsByUsername` holds iff the name is among the stored usernames |
| `Accounts.FindByUsername` | src/main/java/com/dmitrikramar/gamelibrary/service/UserSecurityService.java:38 | `findByUsername` returns empty exactly when no row has that username, and otherwise the stored row holding it |
| `Accounts.FindByUsernameIsRowWithName` | src/main/java/com/dmitrikramar/gamelibrary/entity/User.java:23-25 | because the username column is unique, the row found by name is the row under the id that holds that name |
| `UserSecurityService.HasAccess` | src/main/java/com/dmitrikramar/gamelibrary/service/UserSecurityService.java:26-41 | false with no authentication, with an unauthenticated one, with a principal that is not a UserDetails, and for a username with no stored row; true only if the requested id is stored under the session's username |
| `UserSecurityService.HasAccessIffOwner` | src/main/java/com/dmitrikramar/gamelibrary/service/UserSecurityService.java:38-40 | for an authenticated UserDetails session, access holds iff the requested id belongs to the session's user: true for oneself, false for anyone else |
| `UserSecurityService.HasAccessAtMostOneId` | src/main/java/com/dmitrikramar/gamelibrary/service/UserSecurityService.java:38-39 | one session is granted access to at most one user id |
| `UserSecurityService.RegistrationKeepsOtherAccess` | src/main/java/com/dmitrikramar/gamelibrary/service/UserSecurityService.java:38-40 | storing a new user under a fresh id and a free username keeps the table well-formed and leaves every session's access to every other id unchanged; used by `UserService.UserService.Save` |
| `UserSecurityService.DeletionKeepsOtherAccess` | src/main/java/com/dmitrikramar/gamelibrary/service/UserSecurityService.java:38-40 | deleting one user leaves every session's access to every other id unchanged; used by `UserController.DeleteUser` |
| `UserDetailsServiceImpl.LoadUserByUsername` | src/main/java/com/dmitrikramar/gamelibrary/service/UserDetailsServiceImpl.java:32-42 | an unknown username raises UsernameNotFoundException("User not found"); otherwise the stored username, the hash unchanged and exactly one authority "ROLE_" + role name, reading the table only |
| `UserDetailsServiceImpl.Authority` | src/main/java/com/dmitrikramar/gamelibrary/service/UserDetailsServiceImpl.java:40 | the authority starts with "ROLE_", and is "ROLE_ADMIN" iff the role is ADMIN and "ROLE_USER" iff it is USER |
| `UserDetailsServiceImpl.LoadedUserMirrorsRow` | src/main/java/com/dmitrikramar/gamelibrary/service/UserDetailsServiceImpl.java:37-41 | loading a stored user gives its username and hash and a single authority that is "ROLE_ADMIN" iff the role is ADMIN and "ROLE_USER" iff it is USER |
| `UserResponseDto.FromUser` | src/main/java/com/dmitrikramar/gamelibrary/dto/UserResponseDTO.java:22-24 | the response carries the user's id, username and role name |
| `UserResponseDto.FromUserIgnoresPassword` | src/main/java/com/dmitrikramar/gamelibrary/dto/UserResponseDTO.java:14 | the response has no component that depends on the password hash |
| `UserResponseDto.FromUserForgetsOnlyPassword` | src/main/java/com/dmitrikramar/gamelibrary/dto/UserResponseDTO.java:14-24 | two users give the same response iff they differ at most in their hash |
| `UserService.ValidatePasswords` | src/main/java/com/dmitrikramar/gamelibrary/service/UserService.java:40-47 | passes iff the old plaintext verifies against the stored hash and differs from the new one; the old-password check comes first and yields "Invalid old password", the same-password check yields "Invalid new password" |
| `UserService.SamePasswordIsRefused` | src/main/java/com/dmitrikramar/gamelibrary/service/UserService.java:44-46 | resubmitting the current password is refused with "Invalid new password" even though it verifies |
| `UserService.AcceptedChangeRotatesCredential` | src/main/java/com/dmitrikramar/gamelibrary/service/UserService.java:104-108 | after a change that passes validation, the new plaintext verifies against the stored `encode(new)` and the old plaintext no longer does |
| `UserService.UserService.GetAll` | src/main/java/com/dmitrikramar/gamelibrary/service/UserService.java:54-56 | exactly the stored users |
| `UserService.UserService.GetById` | src/main/java/com/dmitrikramar/gamelibrary/service/UserService.java:65-68 | the stored user for a known id; NoSuchElementException("User not found") otherwise |
| `UserService.UserService.Save` | src/main/java/com/dmitrikramar/gamelibrary/service/UserService.java:79-93 | a taken username fails with "Username already exists" and adds nothing; a missing USER role fails with IllegalStateException and adds nothing; otherwise adds exactly one user with the username, `encode(password)` and role USER, keeping usernames unique; registration leaves every session's access to every existing id unchanged (by `RegistrationKeepsOtherAccess`) |
| `UserService.UserService.UpdatePassword` | src/main/java/com/dmitrikramar/gamelibrary/service/UserService.java:104-109 | unknown id fails with "User not found"; a validation failure returns that error with the table unchanged; otherwise only that user's hash changes, to `encode(newPassword)` |
| `UserService.UserService.DeleteById` | src/main/java/com/dmitrikramar/gamelibrary/service/UserService.java:117-119 | unknown id fails with "User not found" and changes nothing; otherwise removes exactly that user |
| `UserController.Authenticated` | src/main/java/com/dmitrikramar/gamelibrary/config/SecurityConfig.java:42 | `anyRequest().authenticated()` refuses no session, an unauthenticated token and a principal that is not a UserDetails (the anonymous token) |
| `UserController.HasRole` | src/main/java/com/dmitrikramar/gamelibrary/controller/UserController.java:40 | `hasRole(role)` holds iff the session's authorities contain "ROLE_" + role; never without a session |
| `UserController.MayListUsers` | src/main/java/com/dmitrikramar/gamelibrary/controller/UserController.java:40 | GET /users is allowed iff the session holds "ROLE_ADMIN" |
| `UserController.MayUpdatePassword` | src/main/java/com/dmitrikramar/gamelibrary/controller/UserController.java:63 | PUT /users/{id} is allowed iff the session is an authenticated UserDetails whose username is stored under that id |
| `UserController.MayDeleteUser` | src/main/java/com/dmitrikramar/gamelibrary/controller/UserController.java:75 | DELETE /users/{id} is allowed iff the session holds "ROLE_ADMIN" or is the authenticated owner of that id |
| `UserController.SessionOf` | src/main/java/com/dmitrikramar/gamelibrary/config/SecurityConfig.java:43 | the HTTP Basic session built from loaded user details is authenticated, with their username and authorities |
| `UserController.SessionOfUser` | src/main/java/com/dmitrikramar/gamelibrary/config/SecurityConfig.java:43 | the session of a stored user is authenticated, carries their username and exactly the authority of their role |
| `UserController.SessionPolicy` | src/main/java/com/dmitrikramar/gamelibrary/controller/UserController.java:39-75 | for the session of a stored user: listing is allowed iff the user is ADMIN, a password change iff the target is oneself, a deletion iff ADMIN or oneself |
| `UserController.AdminHasNoPasswordOverride` | src/main/java/com/dmitrikramar/gamelibrary/controller/UserController.java:62-63 | a non-owner is refused a password change whatever their role, and may delete only by role ADMIN |
| `UserController.AnonymousIsDenied` | src/main/java/com/dmitrikramar/gamelibrary/config/SecurityConfig.java:40-42 | without a session, no gate opens |
| `UserController.GetAllUsers` | src/main/java/com/dmitrikramar/gamelibrary/controller/UserController.java:39-47 | refused unless `hasRole('ADMIN')`, and an authenticated ADMIN always gets `Ok`; returns `fromUser` of exactly the stored users |
| `UserController.GetUser` | src/main/java/com/dmitrikramar/gamelibrary/controller/UserController.java:53-56 | any authenticated caller gets `fromUser` of the stored user, with no role or ownership gate; an unknown id gives "User not found" |
| `UserController.UpdatePassword` | src/main/java/com/dmitrikramar/gamelibrary/controller/UserController.java:62-67 | refused with AccessDenied unless `hasAccess(id)`; for the owner it succeeds iff `validatePasswords` passes, and otherwise returns that validation error unchanged; on success only that user's hash changes, the response is `fromUser` of the updated user, and the new password matches while the old no longer does |
| `UserController.DeleteUser` | src/main/java/com/dmitrikramar/gamelibrary/controller/UserController.java:74-79 | succeeds iff the caller is authenticated, is ADMIN or passes `hasAccess(id)`, and the user exists; then removes exactly that user; every session's access to every other id is unchanged (by `DeletionKeepsOtherAccess`) |
| `CatalogEntities.NewGame` | src/main/java/com/dmitrikramar/gamelibrary/entity/Game.java:60-82 | a new game has no id, title, release date, description or developer, and empty platform and genre sets |
| `CatalogEntities.NewGameWith` | src/main/java/com/dmitrikramar/gamelibrary/entity/Game.java:94-102 | the six-argument constructor stores each argument as given, null included, and leaves the id null |
| `CatalogEntities.GameEquals` | src/main/java/com/dmitrikramar/gamelibrary/entity/Game.java:107-113 | `equals` holds iff the argument is the receiver itself or a game with the same (nullable) id |
| `CatalogEntities.GameHashCode` | src/main/java/com/dmitrikramar/gamelibrary/entity/Game.java:118-121 | 31 for an unsaved game, otherwise 31 + `Long.hashCode(id)` |
| `CatalogEntities.GameEqualityById` | src/main/java/com/dmitrikramar/gamelibrary/entity/Game.java:107-113 | a game equals itself, never null or another class, and otherwise exactly the games with the same id; two unsaved games are equal |
| `CatalogEntities.GameHashConsistent` | src/main/java/com/dmitrikramar/gamelibrary/entity/Game.java:118-121 | the hash depends on the id only, so equal games hash alike |
| `CatalogEntities.NewGenre` | src/main/java/com/dmitrikramar/gamelibrary/entity/Genre.java:41-50 | `new Genre(name)` has that name, no id and no games |
| `CatalogEntities.GenreEquals` | src/main/java/com/dmitrikramar/gamelibrary/entity/Genre.java:55-61 | `equals` holds iff the argument is the receiver itself or a genre with the same (nullable) id |
| `CatalogEntities.GenreHashCode` | src/main/java/com/dmitrikramar/gamelibrary/entity/Genre.java:66-69 | 31 for an unsaved genre, otherwise 31 + `Long.hashCode(id)` |
| `CatalogEntities.GenreEqualityById` | src/main/java/com/dmitrikramar/gamelibrary/entity/Genre.java:55-69 | reflexive, false for null or another class, otherwise iff the ids are equal; equal genres hash alike |
| `CatalogEntities.NewPlatform` | src/main/java/com/dmitrikramar/gamelibrary/entity/Platform.java:41-50 | `new Platform(name)` has that name, no id and no games |
| `CatalogEntities.PlatformEquals` | src/main/java/com/dmitrikramar/gamelibrary/entity/Platform.java:55-61 | `equals` holds iff the argument is the receiver itself or a platform with the same (nullable) id |
| `CatalogEntities.PlatformHashCode` | src/main/java/com/dmitrikramar/gamelibrary/entity/Platform.java:66-69 | 31 for an unsaved platform, otherwise 31 + `Long.hashCode(id)` |
| `CatalogEntities.PlatformEqualityById` | src/main/java/com/dmitrikramar/gamelibrary/entity/Platform.java:55-69 | reflexive, false for null or another class, otherwise iff the ids are equal; equal platforms hash alike |
| `CatalogEntities.NewDeveloper` | src/main/java/com/dmitrikramar/gamelibrary/entity/Developer.java:48-50 | `new Developer(name)` has that name, no id and no games |
| `Catalog.ExistsByName` | src/main/java/com/dmitrikramar/gamelibrary/service/GenreService.java:30 | `existsByName` (also DeveloperService.java:48 and PlatformService.java:30) holds iff the name is among the stored names |
| `Catalog.GamesOfDeveloper` | src/main/java/com/dmitrikramar/gamelibrary/entity/Developer.java:39-41 | the loaded `games` of a developer are exactly the games whose `developer` is it |
| `Catalog.GamesOfGenre` | src/main/java/com/dmitrikramar/gamelibrary/entity/Genre.java:39-41 | the loaded `games` of a genre are exactly the games whose `genres` contain it |
| `Catalog.GamesOfPlatform` | src/main/java/com/dmitrikramar/gamelibrary/entity/Platform.java:39-41 | the loaded `games` of a platform are exactly the games whose `platforms` contain it |
| `Catalog.WithoutDeveloper` | src/main/java/com/dmitrikramar/gamelibrary/service/DeveloperService.java:74 | `setDeveloper(null)` on one game: only `developer` may change, a game of developer d gets a null developer, and a game of another developer is unchanged |
| `Catalog.WithoutGenre` | src/main/java/com/dmitrikramar/gamelibrary/service/GenreService.java:99 | `getGenres().remove(genre)` on one game: only `genres` may change, its nullness is kept, and the set loses exactly that genre |
| `Catalog.WithoutPlatform` | src/main/java/com/dmitrikramar/gamelibrary/service/PlatformService.java:99 | `getPlatforms().remove(platform)` on one game: only `platforms` may change, its nullness is kept, and the set loses exactly that platform |
| `Catalog.DetachDeveloper` | src/main/java/com/dmitrikramar/gamelibrary/service/DeveloperService.java:74 | no game is removed, only `developer` changes, it is cleared exactly where it was the deleted developer, and afterwards no game has that developer |
| `Catalog.DetachGenre` | src/main/java/com/dmitrikramar/gamelibrary/service/GenreService.java:99 | no game is removed, only `genres` changes, each set loses exactly the deleted genre, and afterwards no game lists it |
| `Catalog.DetachPlatform` | src/main/java/com/dmitrikramar/gamelibrary/service/PlatformService.java:99 | no game is removed, only `platforms` changes, each set loses exactly the deleted platform, and afterwards no game lists it |
| `Catalog.DetachDeveloperKeepsIntegrity` | src/main/java/com/dmitrikramar/gamelibrary/service/DeveloperService.java:72-76 | after the cleanup and the delete of the row, no game references a missing developer, platform or genre |
| `Catalog.DetachGenreKeepsIntegrity` | src/main/java/com/dmitrikramar/gamelibrary/service/GenreService.java:97-101 | after the cleanup and the delete of the row, no game references a missing developer, platform or genre |
| `Catalog.DetachPlatformKeepsIntegrity` | src/main/java/com/dmitrikramar/gamelibrary/service/PlatformService.java:97-101 | after the cleanup and the delete of the row, no game references a missing developer, platform or genre |
| `DeveloperService.GetById` | src/main/java/com/dmitrikramar/gamelibrary/service/DeveloperService.java:37-40 | the developer with its name and loaded games for a known id; "Developer not found" otherwise |
| `DeveloperService.Save` | src/main/java/com/dmitrikramar/gamelibrary/service/DeveloperService.java:47-54 | a taken name fails with "Developer name already exists" and creates nothing; otherwise one developer with that name and no games is added |
| `DeveloperService.UpdateName` | src/main/java/com/dmitrikramar/gamelibrary/service/DeveloperService.java:61-65 | unknown id gives "Developer not found"; the service sets the new name without a pre-check; the rename succeeds iff no other developer holds the name, and only the unique column refuses a name held by another developer |
| `DeveloperService.DeleteById` | src/main/java/com/dmitrikramar/gamelibrary/service/DeveloperService.java:72-76 | unknown id gives "Developer not found" and changes nothing; otherwise the games become `DetachDeveloper` of the old games and the developer is gone, the store invariant kept |
| `DeveloperService.DeletedDeveloperLeavesGamesWithoutDeveloper` | src/main/java/com/dmitrikramar/gamelibrary/service/DeveloperService.java:74-75 | a game of the deleted developer survives with no developer and every other field unchanged |
| `GenreService.ThrowIfExistsByName` | src/main/java/com/dmitrikramar/gamelibrary/service/GenreService.java:29-33 | passes iff no genre has that name; otherwise "Genre name already exists" |
| `GenreService.GetById` | src/main/java/com/dmitrikramar/gamelibrary/service/GenreService.java:51-54 | the genre with its name and loaded games for a known id; "Genre not found" otherwise |
| `GenreService.Save` | src/main/java/com/dmitrikramar/gamelibrary/service/GenreService.java:64-68 | a taken name fails and creates nothing; otherwise one genre with that name and no games is added |
| `GenreService.UpdateNameById` | src/main/java/com/dmitrikramar/gamelibrary/service/GenreService.java:80-88 | unknown id gives "Genre not found"; the current name always succeeds; a different name succeeds iff no genre holds it, and a taken one fails and leaves the name unchanged; names stay unique |
| `GenreService.DeleteById` | src/main/java/com/dmitrikramar/gamelibrary/service/GenreService.java:97-101 | unknown id gives "Genre not found" and changes nothing; otherwise the games become `DetachGenre` of the old games and the genre is gone, the store invariant kept |
| `GenreService.DeletedGenreLeavesBothGames` | src/main/java/com/dmitrikramar/gamelibrary/service/GenreService.java:99-100 | two games that listed the genre both survive, keep their other genres, and no game lists the genre |
| `PlatformService.ThrowIfExistsByName` | src/main/java/com/dmitrikramar/gamelibrary/service/PlatformService.java:29-33 | passes iff no platform has that name; otherwise "Platform name already exists" |
| `PlatformService.GetById` | src/main/java/com/dmitrikramar/gamelibrary/service/PlatformService.java:51-54 | the platform with its name and loaded games for a known id; "Platform not found" otherwise |
| `PlatformService.Save` | src/main/java/com/dmitrikramar/gamelibrary/service/PlatformService.java:64-68 | a taken name fails and creates nothing; otherwise one platform with that name and no games is added |
| `PlatformService.UpdateNameById` | src/main/java/com/dmitrikramar/gamelibrary/service/PlatformService.java:80-88 | unknown id gives "Platform not found"; the current name always succeeds; a different name succeeds iff no platform holds it, and a taken one fails and leaves the name unchanged; names stay unique |
| `PlatformService.DeleteById` | src/main/java/com/dmitrikramar/gamelibrary/service/PlatformService.java:97-101 | unknown id gives "Platform not found" and changes nothing; otherwise the games become `DetachPlatform` of the old games and the platform is gone, the store invariant kept |
| `PlatformService.DeletedPlatformLeavesBothGames` | src/main/java/com/dmitrikramar/gamelibrary/service/PlatformService.java:99-100 | two games that listed the platform both survive, keep their other platforms, and no game lists the platform |
| `GameService.ResolveDeveloper` | src/main/java/com/dmitrikramar/gamelibrary/service/GameService.java:38-40 | a null id resolves to null; a known id to itself; an unknown one gives "Developer not found" |
| `GameService.ResolvePlatforms` | src/main/java/com/dmitrikramar/gamelibrary/service/GameService.java:42-46 | a null set resolves to null, not to empty; a set of known ids to itself; any unknown id gives "Platform not found" |
| `GameService.ResolveGenres` | src/main/java/com/dmitrikramar/gamelibrary/service/GameService.java:48-52 | a null set resolves to null, not to empty; a set of known ids to itself; any unknown id gives "Genre not found" |
| `GameService.MapDtoToGame` | src/main/java/com/dmitrikramar/gamelibrary/service/GameService.java:37-60 | errors in the order developer, platforms, genres; succeeds iff all three resolve, and then keeps the id and replaces title, release date, description, developer, platforms and genres by the request's values, referencing only stored rows |
| `GameService.NullReferencesStayNull` | src/main/java/com/dmitrikramar/gamelibrary/service/GameService.java:38-52 | a request with null developer and null id sets maps to a game whose developer and both sets are null |
| `GameService.GetById` | src/main/java/com/dmitrikramar/gamelibrary/service/GameService.java:78-81 | the stored game for a known id; "Game not found" otherwise |
| `GameService.Save` | src/main/java/com/dmitrikramar/gamelibrary/service/GameService.java:90-94 | a resolution error adds nothing; otherwise adds one game, `mapDtoToGame` of a new game, under the next id |
| `GameService.UpdateById` | src/main/java/com/dmitrikramar/gamelibrary/service/GameService.java:105-109 | unknown id gives "Game not found"; a resolution error leaves the game unchanged; otherwise only that game changes, to the mapped request with its id kept |
| `GameService.DeleteById` | src/main/java/com/dmitrikramar/gamelibrary/service/GameService.java:118-120 | unknown id gives "Game not found"; otherwise removes exactly that game |
| `GameService.DeletedGameLeavesInverseSides` | src/main/java/com/dmitrikramar/gamelibrary/service/GameService.java:118-120 | a deleted game disappears from every developer's, genre's and platform's loaded games and nothing else does |

## Left out

- The catalog controllers (developer, genre, platform, game), `AuthController` and `ReviewController` are HTTP routing and status codes. These controllers gate every catalog write with `hasRole('ADMIN')`; that gate is not modelled.
- `SecurityConfig` is the Spring filter chain. The model keeps one assumption from it: every `/users` request needs an authenticated session. HTTP Basic authentication itself is reduced to `SessionOf`, the session built from a loaded user.
- `GlobalExceptionHandler` maps exceptions to HTTP statuses; the model returns error values instead.
- The repositories' JPA query and fetch mechanics are not modelled. `findByIdWithRelations` is a lookup plus the derived inverse collection.
- The getAll methods of the catalog services are plain list reads and are not modelled.
- Lists come back as sets: the order of `findAll` is not modelled.
- Password encoding is two fixed functions. BCrypt's random salt makes `encode` nondeterministic, and that is not captured; neither is the hashing algorithm.
- `RejectsOtherPlaintexts` idealises the encoder. BCrypt reads only the first 72 bytes of a plaintext, so two plaintexts that share those bytes match the same hash. The credential-rotation results hold only for an encoder without such collisions.
- Transactions and concurrency are not modelled; each service method is one atomic step. A concurrent insert racing a name pre-check is out of scope. The unique columns are modelled only where the sequential code reaches them: `DeveloperService.updateName`.
- Entity objects are mutated in place in the source. The model replaces map entries instead. Aliasing between several persistence-context references to one entity is not captured; ids stand in for object identity.
- Reviews are not modelled: `Review`, `ReviewService`, `RoleService` and `Role` are plain CRUD. As in the source, no cleanup of reviews happens when a game or a user is deleted.
- GameService.DeleteById, UserService.UserService.DeleteById and UserController.DeleteUser: these promise that a known id is always removed. In the source, `Review` holds `game_id` and `user_id` as foreign keys (entity/Review.java:20-26), and neither `Game` nor `User` cascades to its reviews. Deleting a game or user that a review references therefore fails at flush with a DataIntegrityViolationException. Under a schema without those constraints, the delete leaves dangling reviews instead. Reviews are not part of this model, so neither outcome is represented.
- GameService.GetById: a game saved or updated with a null `platformIds` or `genresIds` keeps `None` in the store, and a later `GetById` returns `None`. In the source, Hibernate stores a null collection as no join rows, and a later `findByIdWithRelations` loads an empty set. The model does not capture that null-to-empty reload; only the value returned by `save` / `updateById` itself keeps the null.
- Developer's Lombok-generated `equals`/`hashCode` is not modelled.
- The size and not-blank validation on request DTOs is not modelled. `GameDto.title` is taken as non-null because that validation runs first.
- `PasswordChange.oldPassword` is a plain string and cannot be null. The source's `PasswordDTO.oldPassword` has no validation, so a null value reaches `passwordEncoder.matches`, which throws. That exception path is not modelled.
- `LocalDate` is an opaque value that is only copied.
- Ids are unbounded naturals, so `Long` overflow of the identity columns is not modelled. Hash codes reduce an id modulo 2^64 before `Long.hashCode`.
- `SwaggerConfig` and `GameLibraryApplication` are documentation and bootstrap.
