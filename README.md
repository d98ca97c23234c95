# Registration and login of a browser cultivation game, in Dafny

This project models the account core of a Laravel + Vue game:

- the back end's registration, which inserts a user (with a hashed password) and its one game
  character with fixed starting stats inside a single database transaction;
- the back end's login, which looks a user up by email, checks the password hash and answers every
  failure with the same validation error;
- the `characters` table: its columns and defaults, the unique nickname, and the owner foreign key
  with cascade on delete;
- the front end's route guard, which asks the server for the current user once and then sends
  guests away from signed-in pages and signed-in users away from guest pages;
- the front end's auth store, whose `user`, `loading` and `error` state changes on each API call.

Modules (one file each): `Wrappers` (Option, Result), `Hashing` (the password hasher as two
functions passed in as a parameter), `CharactersSchema`, `Database` (tables as values, the insert
and delete statements with their constraints, and a `Connection` object whose tables the services
update), `AuthService`, `RegistrationService`, `AuthStore`, `Router`.

The password hasher is a parameter `h: Hasher` holding `make` and `check`. The operations and their
lemmas assume only `Sound(h)`: `check(p, make(p))` for every `p`. The one exception is
`AuthService.RegisterAndLoginScenario`, which also requires that "Wrong!" does not check against
`make("Secret123")`; soundness alone does not rule that out. `make` is a deterministic function
here, whereas `Hash::make` salts every call and gives a different string each time. So the equal
tables in `RegistrationService.ServicesAgree` are equal only up to the hash string each call picks:
both services receive the same `make`. The API calls of the front end are parameters
too: each store method receives how its awaited call ended (`Resolved(value)` or
`Rejected(error body)`).

Registration is specified once, by `AuthService.RegisterTransaction` over table values. The two
service methods (`AuthService.Register` and `RegistrationService.Register`) run the statements one
by one against a `Connection`, rolling back to the saved tables on a rejected insert, and each is
proved to end in exactly the state and result that function gives. `RegistrationService.ServicesAgree`
runs both on two databases in the same state and proves they end alike.

How the code behaves where a reader might expect otherwise:

- A duplicate email or nickname is not turned into a dedicated duplicate-account error; the
  database's constraint violation propagates out of the transaction. The model returns it as a
  `DbError` naming the index.
- Nothing enforces level ≥ 1 or non-negative stats; the columns are plain signed integers, so any
  supplied value is stored.
- Email comparison is exact; the code does no case folding, and a case-insensitive collation the
  database engine may apply is not modelled.
- The users table keeps no link to "its" character; a user owning exactly one character is not a
  schema constraint. `AuthService.RegisterKeepsOneCharacterEach` proves registration preserves it.

## Model

| member | source | states |
|---|---|---|
| `CharactersSchema.OmittedColumnsTakeDefaults` | backend-laravel/database/migrations/2026_01_31_224849_create_characters_table.php:19-31 | a row inserted with only a nickname gets level 1, exp 0, realm 1, qi 0 of 100, all four attributes 5 and location 1 |
| `CharactersSchema.SuppliedColumnsOverrideDefaults` | backend-laravel/database/migrations/2026_01_31_224849_create_characters_table.php:15-31 | for any insert, each column holds the supplied value if one is supplied and the declared default otherwise; key, owner and nickname are stored as given |
| `CharactersSchema.ExplicitLevelKeepsOtherDefaults` | backend-laravel/tests/Feature/Auth/AuthTest.php:47 | a character created with level 99 keeps 99 while every other column takes its default |
| `Database.InsertUser` | backend-laravel/app/Services/Auth/AuthService.php:17-21 | the user insert fails exactly when the email is already present (assumed unique index), with that index's violation; otherwise it adds just the new user under the next key and keeps the store constraints |
| `Database.InsertCharacter` | backend-laravel/database/migrations/2026_01_31_224849_create_characters_table.php:16-31 | the character insert fails exactly when the nickname is taken or the owner is missing, naming the unique index or the foreign key; otherwise it adds just the row with defaults filled in and keeps the store constraints |
| `Database.DeleteUser` | backend-laravel/database/migrations/2026_01_31_224849_create_characters_table.php:16 | deleting a user removes that user and exactly the characters it owns, leaves every other row unchanged, and keeps the constraints |
| `Database.DuplicateNicknameRejected` | backend-laravel/database/migrations/2026_01_31_224849_create_characters_table.php:18 | a character whose nickname exists is refused by the unique index, whatever the owner |
| `Database.DeleteUserSparesOtherOwners` | backend-laravel/database/migrations/2026_01_31_224849_create_characters_table.php:16 | the cascade leaves every character of every other user in place and unchanged |
| `Database.Connection.CreateUser` | backend-laravel/app/Services/Auth/AuthService.php:17-21 | the connection's tables become those of the user insert on success and stay put on a rejection, and the call returns the inserted row or the error |
| `Database.Connection.CreateCharacter` | backend-laravel/app/Services/Auth/AuthService.php:23-33 | the same for the character insert through the user's relation |
| `Database.Connection.BeginTransaction` | backend-laravel/app/Services/Auth/AuthService.php:16 | opening the transaction saves the current tables |
| `Database.Connection.RollBack` | backend-laravel/app/Services/Auth/AuthService.php:16 | rolling back restores the saved tables |
| `AuthService.RegisterTransaction` | backend-laravel/app/Services/Auth/AuthService.php:16-36 | registration succeeds exactly when both email and nickname are free; on success it adds one user carrying the input's name and email and `make(password)`, and one character owned by that user with level 1, exp 0, realm 1, qi 0/100, attributes 5, location 1, and returns that user; on failure the store is exactly as before and the email or nickname violation is reported; the store constraints are preserved |
| `AuthService.Register` | backend-laravel/app/Services/Auth/AuthService.php:14-37 | running the two inserts on a connection inside a transaction, rolling back on a rejection, ends in exactly the tables and result of the transaction specification |
| `AuthService.FirstWithEmail` | backend-laravel/app/Services/Auth/AuthService.php:41 | the lookup returns a user with the asked email stored under the lowest such key in range, and returns nothing exactly when no user in range has that email |
| `AuthService.Login` | backend-laravel/app/Services/Auth/AuthService.php:39-50 | a successful login returns a stored user with the given email whose stored hash checks against the password; every failure is the single error on field `email` with "The provided credentials are incorrect."; under the store constraints it succeeds exactly when such a user exists; as a function of the tables it changes nothing |
| `AuthService.LookupFindsOwner` | backend-laravel/app/Services/Auth/AuthService.php:41 | with unique emails, looking up a stored user's email finds that user |
| `AuthService.RegisterThenLogin` | backend-laravel/app/Services/Auth/AuthService.php:14-50 | right after a successful registration, logging in with the same email and password returns the user just created |
| `AuthService.UnknownEmailAndWrongPasswordAlike` | backend-laravel/app/Services/Auth/AuthService.php:43-47 | a login with an unknown email and one with a wrong password give the identical failure |
| `AuthService.DuplicateNicknameLeavesNoOrphan` | backend-laravel/app/Services/Auth/AuthService.php:16-33 | with a free email and a taken nickname, registration reports the nickname violation and leaves the store as before, with no user row for that email |
| `AuthService.RegisterKeepsOneCharacterEach` | backend-laravel/app/Services/Auth/AuthService.php:16-36 | if every user owns exactly one character before registration, the same holds after it |
| `AuthService.RegisterAndLoginScenario` | backend-laravel/tests/Feature/Auth/AuthTest.php:17-67 | registering Ivan into an empty database yields a level-1 DragonSlayer owned by him; the same registration again fails on the email and changes nothing; the right password logs in as Ivan and a wrong one gives the generic failure |
| `RegistrationService.Register` | backend-laravel/app/Services/Auth/RegistrationService.php:13-36 | the duplicate service's inserts, run in a transaction with rollback, end in exactly the tables and result of the same transaction specification |
| `RegistrationService.ServicesAgree` | backend-laravel/app/Services/Auth/RegistrationService.php:13-36 | on two databases in the same state, the two services give the same result and leave the same state |
| `AuthStore.CultivatorName` | frontend-vue/src/stores/auth.ts:13-15 | the display name is the character's nickname if non-empty, else the user's name if non-empty, else "Даосист"; it is never empty |
| `AuthStore.ErrorText` | frontend-vue/src/stores/auth.ts:24 | the error shown is the server's message when present and non-empty, else the fallback text; it is never empty when the fallback is not |
| `AuthStore.FieldErrorsOf` | frontend-vue/src/stores/auth.ts:38 | the field errors are the server's when the body has them (even an empty object), else the empty map |
| `AuthStore.Store.constructor` | frontend-vue/src/stores/auth.ts:7-9 | the store starts with no user, not loading and no error |
| `AuthStore.Store.IsAuthenticated` | frontend-vue/src/stores/auth.ts:11 | signed in exactly when there is a user |
| `AuthStore.Store.Login` | frontend-vue/src/stores/auth.ts:17-29 | yields true exactly when the call resolved; then the user is the returned one and the error is cleared; otherwise the user is unchanged and the error is the server message or "Неверные учётные данные"; loading ends false |
| `AuthStore.Store.Register` | frontend-vue/src/stores/auth.ts:31-44 | success exactly when the call resolved, with the returned user, no error and null field errors; on failure the user is unchanged, the error is the server message or "Ошибка регистрации" and the reply carries the server's field errors or `{}`; loading ends false |
| `AuthStore.Store.FetchUser` | frontend-vue/src/stores/auth.ts:46-54 | the user becomes the returned one, or none when the call failed; loading and error are untouched |
| `AuthStore.Store.Logout` | frontend-vue/src/stores/auth.ts:56-67 | whether the call succeeds or fails, the user ends as none and loading false; the error is untouched |
| `Router.Resolve` | frontend-vue/src/router/index.ts:6-25 | the route found for a path is the first declared one with that path, and none is found exactly when no route has it |
| `Router.Decide` | frontend-vue/src/router/index.ts:38-48 | the guard redirects to `/login` exactly when the route needs a signed-in user and there is none, to `/` exactly when the route is guest-only and a user is signed in, and lets navigation proceed exactly when neither applies |
| `Router.NoRouteHasBothFlags` | frontend-vue/src/router/index.ts:7-25 | no declared route is both guest-only and signed-in-only |
| `Router.DeclaredPathsResolve` | frontend-vue/src/router/index.ts:7-25 | `/login` and `/register` are guest-only and `/` is signed-in-only |
| `Router.AtMostOneRedirectApplies` | frontend-vue/src/router/index.ts:38-46 | for any navigation, the two redirect conditions never both hold |
| `Router.NoRedirectLoop` | frontend-vue/src/router/index.ts:7-48 | whenever the guard redirects, the guard lets the redirect target through in the same auth state |
| `Router.NavigationGuard.constructor` | frontend-vue/src/router/index.ts:28 | the guard starts with the user not yet checked and no fetch made |
| `Router.NavigationGuard.BeforeEach` | frontend-vue/src/router/index.ts:28-49 | the first navigation fetches the user once and sets the checked flag, later ones fetch nothing and leave the user alone; the fetch count never exceeds one; the verdict is the guard decision for the route's flags and the resulting signed-in state |

## Left out

- Password hashing internals (bcrypt, salts, cost, timing). Only `check(p, make(p))` is assumed, so the
  promise of no timing difference between unknown email and wrong password cannot be stated; only the
  identical error value is.
- Transaction isolation and concurrent registrations: a transaction is one sequential
  all-or-nothing step.
- Storage faults other than constraint violations (lost connection, disk errors): inserts fail only
  on the unique indexes and the foreign key.
- The users table schema is not part of this model. Its unique index on `email` is an assumption in
  `Database.InsertUser` and `Database.Valid`.
- Which constraint a database engine reports first when an insert breaks both the nickname index and
  the foreign key: the model reports the nickname.
- Auto-increment counters: rollback restores them along with the rows. The rows are restored on every
  engine, but the counters only on engines that roll back auto-increment. Some engines (MySQL InnoDB)
  keep the consumed value after a rollback. On such an engine the counter parts of these contracts
  do not hold: `AuthService.RegisterTransaction` (on failure the tables equal the old ones, and a
  new user's key is `nextUserId`), `AuthService.DuplicateNicknameLeavesNoOrphan` (the outcome equals
  the old tables), and `AuthService.RegisterAndLoginScenario` (the character under key 1).
- Nickname comparison is exact. The `characters_nickname_unique` index follows the engine's
  collation, so under a case-insensitive one "DragonSlayer" and "dragonslayer" collide in the
  database but not in the model. The same holds for the assumed unique email index.
- String column lengths: `string` columns (`nickname`, and the users table's `name`, `email` and
  `password`) are limited to 255 characters by default; the model's strings are unbounded, and an
  over-long value is not rejected.
- Integer column widths (32-bit `integer`, 64-bit `bigInteger`, 8-bit `tinyInteger`) and
  out-of-range rejection: the columns are unbounded integers.
- Timestamps (`created_at`, `updated_at`) on both tables.
- The HTTP controllers, the session login, the `Registered`/`Login` events, the JSON resources, the API
  routes with their throttle and `auth:sanctum` guard, and request validation.
- Token issuance: the controllers return only the user.
- The axios client, the CSRF cookie request and its delay: each API call is an outcome parameter.
- The state while a call is awaited (`loading` true, `error` already cleared) is not observable in the
  model; only the state after each store method is.
- Router.NavigationGuard.BeforeEach: navigations are sequential. Two navigations started before the first
  `fetchUser` resolves would both fetch, because the flag is set only after the await.
- `vue-router` path matching is exact in the model; the library's case-insensitive and trailing-slash
  matching, nested routes and lazy component loading are not modelled.
