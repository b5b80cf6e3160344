# rbac-node: the authorization pipeline and account bookkeeping, in Dafny

This project models the core of a small role-based access control API for Node
(Express, Mongoose, JSON Web Tokens). The framework code is stripped away. What
remains is:

- **the authorization pipeline**: `protect` takes the bearer token from the
  `Authorization` header, verifies it, loads the user and attaches it to the
  request. Then `checkRole(requiredRoles)` reads the user's role from the role
  store again and tests the role's name against the route's allowed list. Each
  guard either passes the request on (`Next`) or answers it (`Stop(status,
  message)`): 401, 403 or 500.
- **account and role bookkeeping over two stores**:
  - registration: uniqueness check, default role `User`, insert, token;
  - login: lookup by email, password match, token;
  - profile and status edits;
  - role creation and update;
  - seeding of the three default roles at startup, only into an empty store.
- **the route tables**: which guards each route runs and which role names it
  allows, and which routers the server mounts.

Modules follow the source files: `RoleModel` (models/Role.js), `Store` (both
collections and the collaborators), `Http` (responses, the request),
`RoleMiddleware`, `AuthMiddleware`, `AuthController`, `RoleController`,
`UserController`, `Router` (guard chains), `UserRoutes`, `RoleRoutes`,
`AuthRoutes`, `Server` (server.js) and `Scenarios` (whole runs across modules).

How the model represents the system:

- **Stores.** A collection is a sequence, and a record's id is its position in
  it. Users and roles are never deleted, so ids stay stable. `findOne` returns
  the first match in natural (insertion) order.
- **The database.** `Store.Database` is a class whose two fields the
  state-changing handlers reassign. Pure reads are functions of the collections.
- **Collaborators.** The token codec is a pair of parameters:
  `Verifier = string -> Option<Claims>` and
  `Issuer = (UserId, RoleId) -> Option<string>`, where `None` means the library
  threw. The password hash and `matchPassword` are parameters too.
- **Store errors.** Every handler takes a flag `fail`, meaning "a store call
  raised". Each handler maps it to its own 500 message. Inside `protect`, a
  failing user lookup lands in the `catch` and answers 401 "invalid token". A
  guard chain takes one such flag per guard.

Behaviour of the code as written that the model keeps:

- `GET /api/users` is Admin-only.
- `checkRole` in middleware/authMiddleware.js uses `Role` without importing it.
  For an authenticated request it therefore always answers 500 "Role
  verification failed".
- The role router, which uses that `checkRole`, is never mounted by the server.
- `updateUserStatus` is not routed at all.
- `protect` checks neither the `isActive` flag nor the role claim in the token.
- The header test is a plain `startsWith('Bearer')`.
- Registration stores the user before signing its token. A signing failure
  therefore answers 500 even though the user was created.
- `findByIdAndUpdate` does not run the schema's validators. A role can therefore
  be renamed to a name outside the enumeration. The unique index on `name`
  still refuses a name that another role holds.
- `updateRole` writes both `name` and `permissions` as sent, not only the fields
  the request provides.
- Seeding logs and swallows every error, whatever its cause.
- Registration takes `roleName` from the request body and the register route
  has no guard, so anyone can register as `Admin`. `Scenarios.RenamedRoleLosesAccess`
  registers its Admin that way.
- Each guard of a chain queries the store on its own, so `protect` can succeed
  and the role lookup of the following `checkRole` still fail with 500.

## Model

| member | source | states |
|---|---|---|
| Base.FindFirst | controllers/authController.js:66 | the result is the first position whose element matches, and None exactly when nothing matches (the natural-order `findOne`) |
| Base.Or | controllers/userController.js:47-48 | the logical-or default JavaScript applies to a request string: the value when present and non-empty, otherwise the fallback |
| RoleModel.DistinctNamesCount | models/Role.js:7 | with unique names, a role collection holds exactly as many names as roles |
| RoleModel.AtMostThreeRoles | models/Role.js:4-9 | unique names drawn from the three-value enumeration allow at most three roles that passed the schema |
| RoleModel.NamesWithinEnumeration | models/Role.js:8 | every name in a collection of schema-valid roles is one of `User`, `Moderator`, `Admin` |
| RoleModel.NameValid | models/Role.js:4-9 | a role name passes the schema iff it is non-empty (`required`) and one of the three enumerated names |
| RoleModel.PermissionsValid | models/Role.js:10-13 | every permission is a non-empty string (`required` on each element) |
| RoleModel.SchemaValid | models/Role.js:3-14 | what the schema's validators accept on creation: a valid name and valid permissions |
| Store.Strip | middleware/authMiddleware.js:20 | the public user is the stored document minus the password, every other field equal |
| Store.UserById | middleware/authMiddleware.js:20 | a lookup by id finds a user exactly when the id is stored, and finds that user |
| Store.RoleById | middleware/roleMiddleware.js:12 | a lookup by id finds a role exactly when the id is stored, and finds that role |
| Store.UserByEmail | controllers/authController.js:66 | the result is the first user with that email; None exactly when no user has it |
| Store.RoleByName | controllers/authController.js:23-27 | a found role has the requested name; None exactly when no role has it |
| Store.RoleByNameUnique | models/Role.js:7 | under the unique index, looking up a role by its name finds that role |
| Store.Taken | controllers/authController.js:12-14 | the `$or` query finds a user iff some stored user has the email or the username |
| Store.StoreValid | models/Role.js:7 | the invariant every handler keeps: role names distinct (the unique index) and every user's role reference resolves |
| Store.Database.constructor | config/db.js:4-15 | a new, empty store (no users, no roles) is valid; the model's stores start from it, while the program connects to a database that may already hold data |
| RoleMiddleware.CheckRole | middleware/roleMiddleware.js:3-24 | 401 without a user, before any lookup; admits iff the stored role's name is in the allowed list; 403 iff it is not; 500 iff the lookup fails or finds nothing |
| RoleMiddleware.DecisionDependsOnStoredRoleName | middleware/roleMiddleware.js:12-15 | two users whose stored roles have the same name get the same decision: only the stored name, compared exactly, matters |
| AuthMiddleware.Split | middleware/authMiddleware.js:14 | `split(' ')` yields at least one piece and no piece contains a space |
| AuthMiddleware.JoinSplit | middleware/authMiddleware.js:14 | splitting loses nothing: joining the pieces with spaces gives back the header |
| AuthMiddleware.SplitFirstPiece | middleware/authMiddleware.js:14 | a word followed by a space or by nothing is the first piece |
| AuthMiddleware.SplitAfterWord | middleware/authMiddleware.js:14 | after a first word and a space, the remaining pieces are those of the rest |
| AuthMiddleware.TokenOf | middleware/authMiddleware.js:14 | the token is the second piece, present exactly when that piece exists and is non-empty |
| AuthMiddleware.BearerScheme | middleware/authMiddleware.js:8-11 | the header is present and starts with `Bearer` (no space required after it) |
| AuthMiddleware.BearerTokenExtracted | middleware/authMiddleware.js:8-14 | from `Bearer <token>` followed by nothing or a space, the extracted token is that token |
| AuthMiddleware.Verified | middleware/authMiddleware.js:8-17 | the claims the codec returns for the header's token, None when the scheme, the token or the verification fails |
| AuthMiddleware.BearerHeaderVerified | middleware/authMiddleware.js:8-17 | a `Bearer <token>` header hands exactly that token to the codec, whose claims become the request's claims |
| AuthMiddleware.ProtectDecision | middleware/authMiddleware.js:4-36 | every refusal is 401; "no token" iff the header is absent or lacks the `Bearer` prefix; admits iff the token verifies, no store error and the user exists, attaching that user without password; "user not found" iff the verified id is not stored, clearing `req.user`; "invalid token" iff verification fails or the lookup raises |
| Http.Request.constructor | middleware/authMiddleware.js:8-20 | a new request carries its `Authorization` header and no `req.user` yet |
| AuthMiddleware.Protect | middleware/authMiddleware.js:4-36 | the answer and the new `req.user` are those of ProtectDecision on the old state |
| AuthMiddleware.InactiveUsersAdmitted | middleware/authMiddleware.js:17-26 | a deactivated user with a verifying token is admitted: `isActive` is never checked |
| AuthMiddleware.CheckRole | middleware/authMiddleware.js:39-60 | never admits; 401 iff no user is attached, otherwise 500 "Role verification failed" (the unimported `Role` throws) |
| AuthController.RequestedRole | controllers/authController.js:23-25 | the role name is the request's when truthy, otherwise `User` |
| AuthController.RegisterUser | controllers/authController.js:7-57 | a duplicate email or username gives 400 before the role is resolved; an unknown role gives 400; otherwise exactly one user is appended with the resolved role and active, the answer 201 carries that role's name and the token of (new id, role id); a store error changes nothing; roles unchanged; uniqueness and store validity preserved |
| AuthController.LoginUser | controllers/authController.js:61-90 | unknown email and wrong password give the identical 401 answer, and only those do; success reports the first user with the email, its stored role's name and the token of (user id, stored role id); a store fault, a dangling role or a failed signing gives 500 "Login failed"; a pure read of both stores |
| AuthController.LoginAfterRegistration | controllers/authController.js:34-77 | a user just registered with unused credentials logs in with the same password and gets its own id and role |
| RoleController.AddRole | controllers/roleController.js:6-22 | a taken name gives 400 and no change; a request the schema refuses gives 500 and no change; otherwise exactly one role is appended and 201 answers it; names stay distinct, users unchanged |
| RoleController.UpdateRole | controllers/roleController.js:27-43 | an unknown id gives 404 and no change; otherwise both fields are overwritten as sent on that role only and 200 answers the new role, unless another role holds the name (500, no change); users unchanged |
| RoleController.NameHeldByOther | controllers/roleController.js:33 | the unique index refuses the update iff a role other than the updated one holds the new name |
| RoleController.UpdateKeepsOthers | controllers/roleController.js:33 | an update touches no other role, and the collection stays schema-valid iff the request is |
| UserController.GetAllUsers | controllers/userController.js:5-15 | 200 with every user, in store order, each without password; a store error gives 500 |
| UserController.GetUserProfile | controllers/userController.js:19-38 | 404 "User not found" iff the attached id is not stored; otherwise 200 with that user without password; a store error gives 500 |
| UserController.ProfileEdit | controllers/userController.js:47-48 | only username and email change, each kept when the request's value is falsy |
| UserController.UpdateUserProfile | controllers/userController.js:42-68 | 404 and no change for an unknown id; otherwise only that user's username and email change and the answer carries just id, username, email; roles unchanged |
| UserController.StatusMessage | controllers/userController.js:90 | the message says "activated" iff the new flag is true, otherwise "deactivated" |
| UserController.UpdateUserStatus | controllers/userController.js:73-101 | 404 and no change for an unknown id; otherwise exactly that user's `isActive` becomes the value sent, nothing else changes |
| Router.RunGuard | routes/userRoutes.js:12-16 | a guard answers only 401, 403 or 500, and `checkRole` never changes `req.user` |
| Router.RunChain | routes/userRoutes.js:12-16 | the guards run in order, each with its own store fault; a chain answers only 401, 403 or 500, and the empty chain passes the request on unchanged |
| Router.ProtectFirstAdmitsStoredUser | middleware/authMiddleware.js:17-26 | a chain that starts with `protect` and admits leaves attached the stored user whose id the token names |
| Router.CheckRolesKeepUser | middleware/roleMiddleware.js:5-23 | a chain without `protect` ends with `req.user` as it began |
| UserRoutes.Table | routes/userRoutes.js:11-28 | three routes, each starting with `protect`, handled only by `getAllUsers`, `getUserProfile` and `updateUserProfile` |
| UserRoutes.ListUsersAdminOnly | routes/userRoutes.js:12-16 | `GET /` answers 401 iff `protect` refuses; admits iff `protect` admits, the role lookup does not raise and the stored role is named `Admin`; 403 iff the stored role has another name; 500 iff the role lookup raises or finds nothing |
| UserRoutes.ListUsersDecidedByStoredRole | routes/userRoutes.js:12-16 | for a verified token naming a stored user, `GET /` admits when the user's stored role is named `Admin` and answers 403 otherwise |
| UserRoutes.ProfileRoutesAnyRole | routes/userRoutes.js:19-28 | both profile routes decide exactly as `protect`, whatever the role |
| UserRoutes.ProfileFoundAfterProtect | controllers/userController.js:21-31 | once `GET /profile` admits, the profile handler finds the user (200 unless the store fails) |
| RoleRoutes.Table | routes/roleRoutes.js:6-10 | both role routes run `protect` then the authMiddleware `checkRole(['Admin'])` |
| RoleRoutes.RoleRoutesNeverAdmit | routes/roleRoutes.js:3-10 | no request passes a role route's chain: 401 iff `protect` refuses, otherwise 500 |
| AuthRoutes.Table | routes/authRoutes.js:9-16 | three `POST` routes: register and login have no guard; logout runs `protect` only |
| AuthRoutes.LogoutResponse | routes/authRoutes.js:16-19 | logout answers 200 "Logged out successfully" and touches no store |
| AuthRoutes.AuthRouteGuards | routes/authRoutes.js:10-16 | register and login always pass their chains; logout's chain answers exactly as `protect` |
| Server.DefaultRoles | server.js:62-75 | exactly `User`, `Moderator`, `Admin`, schema-valid and distinct, with nested permissions User within Moderator within Admin |
| Server.SeedRoles | server.js:58-81 | on an empty role store the default roles are created; otherwise, or on an error, nothing changes and nothing is raised |
| Server.DefaultRoleIds | server.js:62-75 | after seeding, each default role is found by name at its creation position and no other seeded role holds that name |
| Server.SeedTwiceOnEmptyStore | server.js:60-62 | seeding an empty store twice leaves three roles, not six |
| Server.FallbackError | server.js:84-90 | always 500 "Something broke!", with the stack iff `NODE_ENV` is not `production` |
| Server.Prefixed | server.js:54-55 | a mounted router keeps its routes in order with method, guards and handler unchanged and each path below the mount point; a non-root path ends in the route's own path, while the root route `/` maps to the mount path itself |
| Server.Reachable | server.js:54-55 | only the auth and user routers are mounted: six routes, every path below `/api/auth` or `/api/users`, none leading to `addRole`, `updateRole` or `updateUserStatus` |
| Server.Under | server.js:54-55 | a mounted path starts with the mount point; the router's root is the mount path itself, any other path follows it |
| Server.MountedTogether | server.js:54-55 | routers mounted side by side keep each route below its own mount point and bring in no handler either router lacks |
| Server.Lookup | server.js:54-55 | a found route is reachable and matches method and path; None iff no reachable route matches |
| Server.UnreachableHandlers | server.js:54-55 | no request reaches `addRole`, `updateRole` or `updateUserStatus` |
| Server.ListUsersRouted | server.js:55 | `GET /api/users` reaches `getAllUsers` behind `protect` and the role-store `checkRole(['Admin'])` |
| Server.OnlyListRouteAtUsersRoot | server.js:55 | the user router's root, fourth in mounting order, is the only reachable route answering `GET /api/users` |
| Server.RoleRoutesNotMounted | server.js:54-55 | `POST /api/roles` reaches no route |
| Scenarios.DefaultRegistrationDeniedUserList | routes/userRoutes.js:12-16 | after seeding, registering without a role gives 201, login 200, and the user list then answers 403 |
| Scenarios.SeedAndRegister | controllers/authController.js:34-39 | on a freshly seeded store, registering one account stores it with the requested default role and answers 201 with the issued token |
| Scenarios.RenamedRoleLosesAccess | middleware/roleMiddleware.js:12 | an Admin's token is admitted, and after the `Admin` role is renamed the same token gets 403 |
| Scenarios.AdminChainBeforeAndAfterRename | middleware/roleMiddleware.js:12 | the user-list chain admits the registered Admin on the seeded roles and answers 403 once the `Admin` role is renamed |
| Scenarios.RenameOutsideEnumeration | controllers/roleController.js:33 | renaming a seeded role to a name outside the enumeration succeeds and leaves a role the schema would refuse |
| Scenarios.TokenRoleClaimIgnored | middleware/roleMiddleware.js:12 | the Admin-only decision does not depend on the role the token claims |

## Left out

- Database bootstrap (config/db.js) is I/O and is left out. Its connection call reads `proces.env`, a misspelling, so as written it throws and the process exits.
- Token signing and expiry (utils/generateToken.js and the JWT library) are the `Issuer` and `Verifier` parameters. The secret, the expiry arithmetic and the clock are not modelled.
- Password hashing and `matchPassword` are the `Hasher` and `Matcher` parameters. The User model is not part of this model. That a new user starts with `isActive` true is an assumption about that unseen model.
- Uniqueness indexes on usernames and emails would live in the unseen User model. A save that one refuses is covered only by `fail`, so `UserController.UpdateUserProfile` does not promise to keep them unique.
- Store.Database.constructor: the runs in `Scenarios` start from a new, empty store. The handlers and `SeedRoles` accept any valid store, so a database that persists between runs is covered by their contracts but not by the scenarios.
- Express wiring is left out: cors, body parsers, the welcome page, `app.listen`, logging.
- Express path matching is literal in `Server.Lookup`. Trailing slashes, case-insensitivity and `:id` parameters are not modelled.
- `UserController.GetAllUsers`: the listed users carry the role id, not the populated role document. `GetUserProfile` and `LoginUser` likewise do not embed the role.
- The `error` field of 500 answers (the exception's message) is not modelled. The answer body is `Empty`.
- Absent request fields are modelled only where the code gives them a meaning: `roleName` in `RegisterUser` and `username`/`email` in `UpdateUserProfile` are `Option<string>`, an absent value being `None`, which falls back through `||`. The registration and login credentials (`username`, `email`, `password`) and a role's `name` and `permissions` in `AddRole` and `UpdateRole` are plain strings and sequences, so an absent one is not modelled. Mongoose's handling of `undefined` in filters and updates is not modelled either.
- `UserController.UpdateUserStatus` takes `isActive` as a boolean. Mongoose's casting of other JSON values (and the "activated" message a truthy non-boolean would give) is not modelled.
- Store faults are one flag per handler call, and one per guard in a chain. A fault part-way through the bulk role creation, which could leave some roles created, is not modelled: `fail` leaves the store unchanged. Malformed-id cast errors are not modelled.
- Server.DefaultRoleIds: the ids are creation positions, which assumes that `Role.create([...])` inserts the three roles in array order; Mongoose does not promise that order. No lookup by name depends on it.
- Concurrency is left out: seeding runs after the server starts listening, and the check-then-insert steps can race with other requests.
- `protect` can send two answers when the header is `Bearer` with no usable second piece. Only the first (401 "invalid token") is modelled.
